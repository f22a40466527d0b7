# USDC transfer reconstruction, modelled in Dafny

This project models the core of a small Solana indexer. The indexer lists a wallet's USDC transfers over the last N days. It asks a node for the wallet's transaction signatures. It fetches the transaction of each signature whose block time falls in the window. It then infers transfers from the token-balance snapshots taken before and after execution, and finally prints a summary with total in, total out and net change.

Modules:

- `Wrappers` (`wrappers.dfy`): `Option` and `Result`.
- `Models` (`models.dfy`): the record, direction and configuration types of `src/models.rs`.
- `RpcClient` (`rpc_client.dfy`): `get_usdc_transfers`.
  - The two RPC calls become inputs: a sequence of `SignatureEntry` values (signature and optional block time) and a map from signature to `Transaction`. A signature missing from the map is a failed `get_transaction` call.
  - The clock reading `now` is a parameter.
  - The base58 parsers become the two predicates of `KeyParsers`.
  - The specification functions `Scan`, `EntryTransfers`, `AccountsTransfers` and `InferRecord` define the result.
  - The methods `GetUsdcTransfers` (outer loop over signatures) and `CollectTransfers` (inner loop over the tracked post-balances) grow the transfer list by appending, as the source does, and are proved to return exactly that result.
- `RpcClientProperties` (`rpc_client_properties.dfy`): the properties of the reconstruction, plus concrete scenarios.
- `Summary` (`summary.dfy`): the computed parts of `print_summary`, namely the direction labels, the address shortening and the three totals.

Timestamps are integer seconds since the epoch. Amounts are exact reals. Addresses are strings and are compared as strings.

## Where the code behaves unexpectedly

The model follows the code. In these places the code does not do what a listing of a wallet's transfers would be expected to do:

- **Old or undated entries do not stop the scan.** The node lists signatures newest first, so one would expect the scan to end at the first entry before the window. Instead such an entry is skipped with `continue` (src/rpc_client.rs:59-62). A newer entry later in the list is still used (`OldEntryDoesNotStopScan`). There is also no upper time bound, so an entry dated after `now` is kept (`FutureBlockTimeKept`).
- **Missing metadata is fatal.** One would expect a transaction without metadata to be skipped like a non-JSON one. Instead a kept signature whose transaction has no metadata fails the whole call (`MissingMetadataIsFatal`).
- **Every changed tracked-mint account gets a record.** One would expect one record per transfer, tagged by which way the wallet's balance moved. Instead the wallet's own account is always tagged Incoming, even when its balance fell. In a plain send from the wallet to C, the call returns the expected Outgoing record to C and also an Incoming record of the wallet's loss. When the wallet's pre-balance is listed first, as in `TwoPartySendScenario`, that record runs from the wallet to itself. Otherwise its sender is the owner of the first pre-balance of the mint: with C's pre-balance listed first, it is an Incoming record from C (`SendCounterpartyListedFirstRecord`).
- **An Incoming record's sender can be the wallet itself.** One would expect the sender to be the account that lost tokens. Instead it is the owner of the first pre-balance of the mint, whoever that is (`WalletOnlyIncreaseScenario`).
- **An unparsable owner is fatal even without a balance change.** One would expect only accounts that produce a record to matter. Instead the owner is parsed before the amount is compared, so a bad owner aborts the call even when that account's balance did not change (`InvalidOwnerIsFatal`).

## Model

| member | source | states |
|---|---|---|
| `RpcClient.GetUsdcTransfers` | src/rpc_client.rs:23-147 | The method returns exactly `Transfers(config, parsers, node, now, signatures)`. It walks the signature entries in order and skips undated or too-old entries and non-JSON transactions. It fails on the first unparsable signature, failed lookup, missing metadata or unparsable owner. Otherwise it appends each kept transaction's records. |
| `RpcClient.CollectTransfers` | src/rpc_client.rs:95-143 | The inner loop returns exactly `AccountsTransfers` of the tracked accounts. For each account it parses the owner (an error ends the call) and then appends at most one record. |
| `RpcClient.FindIndex` | src/rpc_client.rs:97-99 | Result is `None` iff no element satisfies the predicate. Otherwise it is an in-range index whose element satisfies it and no earlier element does. |
| `RpcClient.PreAmount` | src/rpc_client.rs:97-102 | The pre-amount is the amount of the first pre-balance with the same owner and mint. It is 0 when no such balance exists or its amount is absent. |
| `RpcClient.IncomingSource` | src/rpc_client.rs:114-119 | The sender of an Incoming record is the owner of the first pre-balance of the tracked mint, or `"unknown"` if there is none. |
| `RpcClient.OutgoingDestination` | src/rpc_client.rs:124-132 | The receiver of an Outgoing record is the owner of the first post-balance of the tracked mint whose owner is not the sender, or `"unknown"`. |
| `RpcClient.StartTime` | src/rpc_client.rs:32-33 | The window starts `days * 86400` seconds before `now`. It starts at or before `now` iff the day count is not negative. |
| `RpcClient.InWindow` | src/rpc_client.rs:58-62 | Definition: an entry is kept when it has a block time at or after the start, with no upper bound. Its properties are stated by `OutOfWindowSkipped` and `FutureBlockTimeKept`. |
| `RpcClient.TrackedAccounts` | src/rpc_client.rs:90-93 | A tracked account is a post-balance of the tracked mint, and every such post-balance is tracked. There are no more tracked accounts than post-balances. `TrackedAccountsAppend` states order and repetitions. |
| `RpcClient.TrackedAccountsAppend` | src/rpc_client.rs:90-93 | Tracking distributes over concatenation, so it keeps the post-balances' order and repetitions. Together with the membership and length ensures of `TrackedAccounts`, this pins down the filter. |
| `RpcClient.InferRecord` | src/rpc_client.rs:97-141 | A record is produced iff the post amount (absent = 0) differs from the pre-amount. Its amount is `abs(post - pre) > 0`. It carries the entry's signature and time. It is Incoming iff the owner is the wallet. Incoming means `to` is the wallet and `from` is `IncomingSource`. Outgoing means `from` is the wallet and `to` is `OutgoingDestination`. |
| `RpcClient.AccountStep` | src/rpc_client.rs:96-141 | Definition of one pass of the inner loop: an owner-parse error, or the record `InferRecord` gives, if any. `ParsedStep` and `AccountsSucceed` state its properties. |
| `RpcClient.AccountsTransfers` | src/rpc_client.rs:95-143 | A successful inner loop returns no more records than accounts. `AccountsSucceed` and `AccountsTransfersIsInferred` give its exact result. |
| `RpcClient.EntryTransfers` | src/rpc_client.rs:53-93 | Definition of one pass of the outer loop: skip, fail, or the inner loop over the tracked accounts. `EntryRecords` and `KeptEntryTransfers` state its properties. |
| `RpcClient.Scan` | src/rpc_client.rs:52-144 | Definition of the outer loop. `ScanAppend`, `ScanSucceeds`, `ScanRecords` and `EntryFailureIsFatal` state its properties. |
| `RpcClient.ScanSucceeds` | src/rpc_client.rs:65-71 | The scan succeeds iff every entry succeeds. |
| `RpcClient.ScanAppend` | src/rpc_client.rs:50-52 | Scanning `a + b` gives the first failure of `a` then `b`, or `a`'s records followed by `b`'s records. Records come in signature order, and later entries never change earlier output. |
| `RpcClient.AccountsAppend` | src/rpc_client.rs:95-143 | Within one transaction, records come in post-balance order and the first failure wins. |
| `RpcClient.ScanFailsFrom` | src/rpc_client.rs:65-71 | An error met after some prefix of the entries is the error of the whole call (`?`). |
| `RpcClient.AccountsFailFrom` | src/rpc_client.rs:96 | An owner-parse error met after some prefix of the tracked accounts is the error of the whole inner loop. |
| `RpcClientProperties.InferredAppend` | src/rpc_client.rs:95-141 | The reference records of `a + b` are those of `a` followed by those of `b`. |
| `RpcClientProperties.InferredSound` | src/rpc_client.rs:95-141 | There are no more reference records than accounts, and each is what `InferRecord` gives for one of the accounts. |
| `RpcClientProperties.InferredComplete` | src/rpc_client.rs:105-141 | Every account whose balance changed has its record among the reference records. |
| `RpcClientProperties.AccountsSucceed` | src/rpc_client.rs:96 | The inner loop succeeds iff every tracked owner parses. |
| `RpcClientProperties.AccountsTransfersIsInferred` | src/rpc_client.rs:95-143 | When every owner parses, the inner loop returns exactly the reference records: one per changed account, in post-balance order, and none for an unchanged account. |
| `RpcClientProperties.KeptEntryTransfers` | src/rpc_client.rs:64-143 | A kept, JSON-encoded transaction with metadata succeeds iff every tracked owner parses. It then returns exactly the reference records of its tracked post-balances, so every changed tracked account has a record. |
| `RpcClientProperties.SnapshotRecords` | src/rpc_client.rs:90-141 | One transaction gives no more records than tracked post-balances. Each record carries the transaction's signature and block time and satisfies the record invariant. That there is exactly one record per changed account is `KeptEntryTransfers`. |
| `RpcClientProperties.EntryRecords` | src/rpc_client.rs:59-95 | A signature entry yields records only when it is kept, its transaction exists, has metadata and is JSON-encoded. It yields no more records than tracked post-balances. Each record carries the entry's signature and block time and satisfies the record invariant. That there is exactly one record per changed account is `KeptEntryTransfers`. |
| `RpcClientProperties.ScanRecords` | src/rpc_client.rs:52-141 | Every returned record has amount > 0 and time at or after the window start. An Incoming record has `to` equal to the wallet and an Outgoing record has `from` equal to the wallet. The record carries the signature and time of a kept entry. |
| `RpcClientProperties.TransfersWellFormed` | src/rpc_client.rs:32-33 | The same invariant holds of the call's result, with window start `now - days * 86400` and no end. |
| `RpcClientProperties.SkippedEntryContinues` | src/rpc_client.rs:61 | An entry that gives nothing leaves the result as if it were absent, and the loop goes on (`continue`). |
| `RpcClientProperties.OutOfWindowSkipped` | src/rpc_client.rs:58-62 | An entry with no block time, or one before the window start, produces nothing and later entries are still processed. |
| `RpcClientProperties.NonJsonSkipped` | src/rpc_client.rs:72-75 | A kept transaction that is not JSON-encoded is skipped silently and the scan continues. |
| `RpcClientProperties.EntryFailureIsFatal` | src/rpc_client.rs:65-71 | A failing entry fails the whole call. If no earlier entry failed, the call fails with that entry's own error. |
| `RpcClientProperties.MissingMetadataIsFatal` | src/rpc_client.rs:71 | A kept signature whose transaction lacks metadata fails the whole call. If nothing failed before it, the error is `NoTransactionMetadata` of that signature. |
| `RpcClientProperties.InvalidOwnerIsFatal` | src/rpc_client.rs:96 | A tracked account whose owner does not parse fails the transaction, whatever its balance change. |
| `RpcClientProperties.UnchangedBalancesYieldNothing` | src/rpc_client.rs:105-107 | When every tracked account's post amount equals its pre-amount (and owners parse), the transaction gives no record. |
| `RpcClientProperties.ReconstructedTotals` | src/main.rs:83-95 | For any successful result, total in and total out are ≥ 0 and net = in − out. Total in is 0 iff there is no Incoming record, and likewise for total out. |
| `RpcClientProperties.WalletOnlyIncreaseScenario` | src/rpc_client.rs:97-125 | Wallet 100 → 150 with no other account gives one Incoming record of 50 whose sender is the wallet itself. |
| `RpcClientProperties.SendWalletAccountRecord` | src/rpc_client.rs:108-119 | In a send of 50 from the wallet to C with the wallet's pre-balance listed first, the wallet's own falling balance yields an Incoming record from the wallet to itself. |
| `RpcClientProperties.SendCounterpartyListedFirstRecord` | src/rpc_client.rs:108-119 | In the same send with C's pre-balance listed first, the wallet's falling balance yields an Incoming record from C to the wallet: the sender is the owner of the first pre-balance of the mint. |
| `RpcClientProperties.SendCounterpartyRecord` | src/rpc_client.rs:120-132 | In the same send, C's rising balance yields an Outgoing record of 50 from the wallet to C. |
| `RpcClientProperties.SendAccountsTransfers` | src/rpc_client.rs:95-141 | Over the send's two accounts, the inner loop returns the wallet's Incoming record first and then C's Outgoing record. |
| `RpcClientProperties.TwoPartySendScenario` | src/rpc_client.rs:90-141 | The whole call on that send returns both records, the wallet's account first (post-balance order). |
| `RpcClientProperties.NewWalletAccountRecord` | src/rpc_client.rs:97-119 | With no pre-balances at all, the wallet's new account holding 5 gives an Incoming record of 5 from `"unknown"` to the wallet. This is one instance; the general facts are the ensures of `PreAmount` (no match gives 0) and `IncomingSource` (no pre-balance of the mint gives `"unknown"`). |
| `RpcClientProperties.FutureBlockTimeKept` | src/rpc_client.rs:32-33 | An entry whose block time is an hour after `now` is kept, so the window has no upper bound. |
| `RpcClientProperties.OldEntryDoesNotStopScan` | src/rpc_client.rs:58-62 | An entry two days old listed before a newer one does not end the scan, and the newer entry's record is returned. |
| `Summary.DirectionLabel` | src/main.rs:58-61 | The label is `"IN"` iff the direction is Incoming and `"OUT"` iff it is Outgoing. |
| `Summary.Shorten` | src/main.rs:63-73 | An address longer than 12 characters is shown as its first 4 characters, `...` and its last 4, 11 characters in all. A shorter one, `"unknown"` included, is shown unchanged. No shown address is longer than 12. |
| `Summary.ShortenIdempotent` | src/main.rs:63-66 | Shortening an already shown address changes nothing. |
| `Summary.OfDirection` | src/main.rs:83-84 | A kept record has the given direction, and every record of that direction is kept. There are no more kept records than records. `OfDirectionAppend` states order and repetitions. |
| `Summary.OfDirectionAppend` | src/main.rs:83-84 | Filtering distributes over concatenation, so the filter keeps the records' order and repetitions. |
| `Summary.TotalIn` | src/main.rs:83-86 | Total in is the sum of the Incoming amounts. With non-negative amounts it is ≥ 0. With positive amounts it is 0 iff no record is Incoming. |
| `Summary.TotalOut` | src/main.rs:88-91 | Total out is the sum of the Outgoing amounts. With non-negative amounts it is ≥ 0. With positive amounts it is 0 iff no record is Outgoing. |
| `Summary.TotalsPartition` | src/main.rs:83-91 | Total in plus total out equals the sum of all amounts, because the two filters partition the list. |
| `Summary.NetIsSignedSum` | src/main.rs:95 | Net change (in − out) equals the sum of the amounts signed by direction. |
| `Summary.TotalsNonNegative` | src/main.rs:83-91 | With non-negative amounts, each total is ≥ 0 and at most the sum of all amounts. |
| `Summary.TotalZeroIffNone` | src/main.rs:83-91 | With positive amounts, a direction's total is 0 iff no record has that direction. |
| `Summary.Summarize` | src/main.rs:83-95 | Net is total in minus total out, and also the signed sum. The totals add up to the sum of all amounts. With non-negative amounts, both totals are in [0, sum]. With positive amounts, total in is 0 iff no record is Incoming and total out is 0 iff no record is Outgoing, so the two totals cannot be swapped. |

## Left out

- RPC transport: `RpcClient` construction, commitment settings, `get_signatures_for_address_with_config` and `get_transaction` are network I/O. They are replaced by the entry sequence and the transaction map. The error of the signature-list call is not modelled, and every failure of `get_transaction` is one `TransactionUnavailable` error.
- Base58 parsing (`Signature::from_str`, `parse::<Pubkey>`) is library code. It is modelled only as the two predicates of `KeyParsers`, whose failure ends the call. The comparison of the parsed owner with the wallet is string equality of the canonical text.
- Floating point: `f64` amounts, `abs`, `sum` and `> 0.0` are exact real arithmetic. Rounding, NaN and summation order are not modelled.
- Time: `chrono` arithmetic is integer seconds with `start = now - days * 86400`. The overflow of `Duration::days` and the panic of `from_timestamp(...).unwrap()` are not modelled, and neither is the sub-second part of `Utc::now()`.
- `OptionSerializer`: its `None` and `Skip` forms are both `None`, and both read as an empty balance list, as in the source.
- The parsed transaction `message` is extracted but never used, so it is not modelled.
- `src/config.rs` (environment and `.env` loading, the hard-coded mint) is not part of this model. Neither is the CLI of `src/main.rs`: argument parsing, file output, JSON serialisation and every `println!` with its column widths, number and date formats.
- `async`/tokio: the loop is sequential, so nothing concurrent is modelled.
- `src/models.rs` declares only types. They are the datatypes of module `Models`.
- Summary.Shorten: counts and slices characters, whereas the source counts and slices UTF-8 bytes. The two agree on base58 addresses and `"unknown"`, which are ASCII. The source's panic on a slice inside a multi-byte character is not modelled.
