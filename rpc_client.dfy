/**
 * Reconstruction of a wallet's USDC transfers from a node's signature list and
 * transactions (src/rpc_client.rs, `SolanaRpcClient::get_usdc_transfers`).
 *
 * The two RPC calls become inputs: the signature list as a sequence of
 * entries, and `get_transaction` as a map from signature to transaction (a
 * signature the map does not hold is a failed call). The base58 parsers of
 * signatures and public keys are opaque library code and become the two
 * predicates of `KeyParsers`.
 *
 * The specification functions `Scan`, `EntryTransfers`, `AccountsTransfers` and
 * `InferRecord` say what the call returns; the method `GetUsdcTransfers`
 * computes it with the source's nested loops and is proved equal to it.
 */
module RpcClient {
  import opened Wrappers
  import opened Models

  const SecondsPerDay: int := 86400

  /** The counterparty sentinel used when no candidate balance exists. */
  const Unknown: string := "unknown"

  /** One answer of `getSignaturesForAddress`: a signature and its optional block time. */
  datatype SignatureEntry = SignatureEntry(signature: string, blockTime: Option<int>)

  /** A token-balance snapshot of one account: owner, mint and optional UI amount. */
  datatype TokenBalance = TokenBalance(owner: string, mint: string, uiAmount: Option<real>)

  /**
   * Execution metadata. The balance lists are `OptionSerializer`s in the
   * source; both their `None` and `Skip` forms are `None` here.
   */
  datatype TransactionMeta = TransactionMeta(
    preTokenBalances: Option<seq<TokenBalance>>,
    postTokenBalances: Option<seq<TokenBalance>>)

  /** The encoding variant of the returned transaction; its payload is never read. */
  datatype EncodedTransaction = LegacyBinary | Binary | Json | Accounts

  /** What `get_transaction` returns, reduced to the parts the call reads. */
  datatype Transaction = Transaction(meta: Option<TransactionMeta>, transaction: EncodedTransaction)

  /** Which strings the base58 parsers accept (`Signature::from_str`, `parse::<Pubkey>`). */
  datatype KeyParsers = KeyParsers(isSignature: string -> bool, isPubkey: string -> bool)

  /** The errors that end the call through `?`. */
  datatype Error =
    | InvalidSignature(signature: string)
    | TransactionUnavailable(signature: string)
    | NoTransactionMetadata(signature: string)
    | InvalidOwner(owner: string)

  /** One kept signature with its time and both balance lists, as the inner loop sees it. */
  datatype BalanceSnapshot = BalanceSnapshot(
    signature: string,
    timestamp: int,
    pre: seq<TokenBalance>,
    post: seq<TokenBalance>)

  /** The start of the window: `now - days`. There is no end. */
  function StartTime(config: Config, now: int): (r: int)
    ensures r <= now <==> config.daysToIndex >= 0
    ensures config.daysToIndex == 0 ==> r == now
  {
    now - config.daysToIndex * SecondsPerDay
  }

  /** An entry is kept when it has a block time at or after the start. */
  predicate InWindow(e: SignatureEntry, start: int) {
    e.blockTime.Some? && e.blockTime.value >= start
  }

  /** Rust's `Option<Vec<_>>` defaulted to the empty list. */
  function OrEmpty(balances: Option<seq<TokenBalance>>): seq<TokenBalance> {
    match balances
    case Some(bs) => bs
    case None => []
  }

  /** `iter().position(p)`: the index of the first element satisfying `p`. */
  function FindIndex<T>(s: seq<T>, p: T -> bool): (r: Option<nat>)
    ensures r.None? <==> forall j :: 0 <= j < |s| ==> !p(s[j])
    ensures r.Some? ==> r.value < |s| && p(s[r.value])
    ensures r.Some? ==> forall j :: 0 <= j < r.value ==> !p(s[j])
  {
    if s == [] then None
    else if p(s[0]) then Some(0)
    else
      match FindIndex(s[1..], p)
      case None => None
      case Some(k) => Some(k + 1)
  }

  /** The amount of a balance, absent read as 0. */
  function Amount(b: TokenBalance): real {
    b.uiAmount.GetOr(0.0)
  }

  function Abs(x: real): (r: real)
    ensures r >= 0.0 && (r == x || r == -x)
  {
    if x < 0.0 then -x else x
  }

  predicate HoldsFor(b: TokenBalance, owner: string, mint: string) {
    b.owner == owner && b.mint == mint
  }

  /** `pre[k]` is the first balance of the account `(owner, mint)`. */
  predicate FirstHolding(pre: seq<TokenBalance>, k: int, owner: string, mint: string) {
    0 <= k < |pre| && HoldsFor(pre[k], owner, mint) &&
    forall j :: 0 <= j < k ==> !HoldsFor(pre[j], owner, mint)
  }

  /** `s[k]` is the first balance of the mint. */
  predicate FirstOfMint(s: seq<TokenBalance>, k: int, mint: string) {
    0 <= k < |s| && s[k].mint == mint &&
    forall j :: 0 <= j < k ==> s[j].mint != mint
  }

  /** `s[k]` is the first balance of the mint whose owner is not `from`. */
  predicate FirstOtherOfMint(s: seq<TokenBalance>, k: int, mint: string, from: string) {
    0 <= k < |s| && s[k].mint == mint && s[k].owner != from &&
    forall j :: 0 <= j < k ==> s[j].mint != mint || s[j].owner == from
  }

  /** `position` over `holds` finds exactly the first holding of the account. */
  lemma FirstHoldingFound(pre: seq<TokenBalance>, owner: string, mint: string, holds: TokenBalance -> bool)
    requires forall b :: holds(b) == HoldsFor(b, owner, mint)
    ensures FindIndex(pre, holds).None? <==> forall j :: 0 <= j < |pre| ==> !HoldsFor(pre[j], owner, mint)
    ensures forall k :: FirstHolding(pre, k, owner, mint) ==> FindIndex(pre, holds) == Some(k)
  {
    forall k | FirstHolding(pre, k, owner, mint) ensures FindIndex(pre, holds) == Some(k) {
      assert holds(pre[k]);
      var i := FindIndex(pre, holds).value;
      assert !(i < k);
    }
  }

  /** `position` over `ofMint` finds exactly the first balance of the mint. */
  lemma FirstOfMintFound(s: seq<TokenBalance>, mint: string, ofMint: TokenBalance -> bool)
    requires forall b :: ofMint(b) == (b.mint == mint)
    ensures FindIndex(s, ofMint).None? <==> forall j :: 0 <= j < |s| ==> s[j].mint != mint
    ensures forall k :: FirstOfMint(s, k, mint) ==> FindIndex(s, ofMint) == Some(k)
  {
    forall k | FirstOfMint(s, k, mint) ensures FindIndex(s, ofMint) == Some(k) {
      assert ofMint(s[k]);
      var i := FindIndex(s, ofMint).value;
      assert !(i < k);
    }
  }

  /** `position` over `otherOfMint` finds exactly the first balance of the mint not owned by `from`. */
  lemma FirstOtherOfMintFound(s: seq<TokenBalance>, mint: string, from: string, otherOfMint: TokenBalance -> bool)
    requires forall b :: otherOfMint(b) == (b.mint == mint && b.owner != from)
    ensures FindIndex(s, otherOfMint).None? <==> forall j :: 0 <= j < |s| ==> s[j].mint != mint || s[j].owner == from
    ensures forall k :: FirstOtherOfMint(s, k, mint, from) ==> FindIndex(s, otherOfMint) == Some(k)
  {
    forall k | FirstOtherOfMint(s, k, mint, from) ensures FindIndex(s, otherOfMint) == Some(k) {
      assert otherOfMint(s[k]);
      var i := FindIndex(s, otherOfMint).value;
      assert !(i < k);
    }
  }

  /**
   * The pre-amount of the account `(owner, mint)`: the amount of the FIRST
   * pre-balance with that owner and mint, 0 when there is none or its amount
   * is absent.
   */
  function PreAmount(pre: seq<TokenBalance>, owner: string, mint: string): (r: real)
    ensures (forall j :: 0 <= j < |pre| ==> !HoldsFor(pre[j], owner, mint)) ==> r == 0.0
    ensures forall k :: FirstHolding(pre, k, owner, mint) ==> r == Amount(pre[k])
  {
    var holds := (b: TokenBalance) => HoldsFor(b, owner, mint);
    FirstHoldingFound(pre, owner, mint, holds);
    match FindIndex(pre, holds)
    case None => 0.0
    case Some(k) => Amount(pre[k])
  }

  /**
   * The presumed sender of an incoming transfer: the owner of the first
   * pre-balance of the mint, whoever it is, or `"unknown"`.
   */
  function IncomingSource(pre: seq<TokenBalance>, mint: string): (r: string)
    ensures (forall j :: 0 <= j < |pre| ==> pre[j].mint != mint) ==> r == Unknown
    ensures forall k :: FirstOfMint(pre, k, mint) ==> r == pre[k].owner
  {
    var ofMint := (b: TokenBalance) => b.mint == mint;
    FirstOfMintFound(pre, mint, ofMint);
    match FindIndex(pre, ofMint)
    case None => Unknown
    case Some(k) => pre[k].owner
  }

  /**
   * The presumed receiver of an outgoing transfer: the owner of the first
   * post-balance of the mint whose owner is not `from`, or `"unknown"`.
   */
  function OutgoingDestination(post: seq<TokenBalance>, mint: string, from: string): (r: string)
    ensures (forall j :: 0 <= j < |post| ==> post[j].mint != mint || post[j].owner == from) ==>
            r == Unknown
    ensures forall k :: FirstOtherOfMint(post, k, mint, from) ==> r == post[k].owner
  {
    var otherOfMint := (b: TokenBalance) => b.mint == mint && b.owner != from;
    FirstOtherOfMintFound(post, mint, from, otherOfMint);
    match FindIndex(post, otherOfMint)
    case None => Unknown
    case Some(k) => post[k].owner
  }

  /** The post-balances of the tracked mint, in their order. */
  function TrackedAccounts(post: seq<TokenBalance>, mint: string): (r: seq<TokenBalance>)
    ensures |r| <= |post|
    ensures forall b :: b in r <==> b in post && b.mint == mint
  {
    if post == [] then []
    else
      var rest := TrackedAccounts(post[..|post| - 1], mint);
      if post[|post| - 1].mint == mint then rest + [post[|post| - 1]] else rest
  }

  /**
   * Tracking is a filter: the tracked accounts of `a + b` are those of `a`
   * followed by those of `b`, each in its order and with its repetitions.
   */
  lemma {:induction false} TrackedAccountsAppend(a: seq<TokenBalance>, b: seq<TokenBalance>, mint: string)
    ensures TrackedAccounts(a + b, mint) == TrackedAccounts(a, mint) + TrackedAccounts(b, mint)
    decreases |b|
  {
    if b == [] {
      assert a + b == a;
    } else {
      var init, last := b[..|b| - 1], b[|b| - 1];
      assert (a + b)[..|a + b| - 1] == a + init;
      assert (a + b)[|a + b| - 1] == last;
      TrackedAccountsAppend(a, init, mint);
    }
  }

  /**
   * The record one tracked post-balance `b` produces, if any: a record exactly
   * when its amount differs from its pre-amount; Incoming exactly when its owner
   * is the wallet, whether the balance went up or down.
   */
  function InferRecord(config: Config, snap: BalanceSnapshot, b: TokenBalance): (r: Option<UsdcTransfer>)
    ensures r.Some? <==> Amount(b) != PreAmount(snap.pre, b.owner, b.mint)
    ensures r.Some? ==> r.value.amount == Abs(Amount(b) - PreAmount(snap.pre, b.owner, b.mint))
    ensures r.Some? ==> r.value.amount > 0.0
    ensures r.Some? ==> r.value.signature == snap.signature && r.value.timestamp == snap.timestamp
    ensures r.Some? ==> (r.value.direction == Incoming <==> b.owner == config.walletAddress)
    ensures r.Some? && b.owner == config.walletAddress ==>
              r.value.to == config.walletAddress &&
              r.value.from == IncomingSource(snap.pre, config.usdcMintAddress)
    ensures r.Some? && b.owner != config.walletAddress ==>
              r.value.from == config.walletAddress &&
              r.value.to == OutgoingDestination(snap.post, config.usdcMintAddress, config.walletAddress)
  {
    var wallet := config.walletAddress;
    var amount := Abs(Amount(b) - PreAmount(snap.pre, b.owner, b.mint));
    if amount > 0.0 then
      var direction := if b.owner == wallet then Incoming else Outgoing;
      var from := if direction == Incoming then IncomingSource(snap.pre, config.usdcMintAddress) else wallet;
      var to := if direction == Incoming then wallet
                else OutgoingDestination(snap.post, config.usdcMintAddress, from);
      Some(UsdcTransfer(snap.signature, snap.timestamp, from, to, amount, direction))
    else
      None
  }

  /** Running `?` over two steps: the first failure wins, otherwise the outputs are joined. */
  function Chain<T>(first: Result<seq<T>, Error>, second: Result<seq<T>, Error>): Result<seq<T>, Error> {
    match first
    case Failure(e) => Failure(e)
    case Success(xs) =>
      match second
      case Failure(e) => Failure(e)
      case Success(ys) => Success(xs + ys)
  }

  /** One pass of the inner loop: parse the owner, then infer at most one record. */
  function AccountStep(config: Config, parsers: KeyParsers, snap: BalanceSnapshot, b: TokenBalance)
    : Result<seq<UsdcTransfer>, Error>
  {
    if !parsers.isPubkey(b.owner) then Failure(InvalidOwner(b.owner))
    else
      match InferRecord(config, snap, b)
      case Some(t) => Success([t])
      case None => Success([])
  }

  /** The inner loop over the tracked accounts, defined on its last element. */
  function AccountsTransfers(config: Config, parsers: KeyParsers, snap: BalanceSnapshot, accounts: seq<TokenBalance>)
    : (r: Result<seq<UsdcTransfer>, Error>)
    ensures r.Success? ==> |r.value| <= |accounts|
  {
    if accounts == [] then Success([])
    else
      Chain(AccountsTransfers(config, parsers, snap, accounts[..|accounts| - 1]),
            AccountStep(config, parsers, snap, accounts[|accounts| - 1]))
  }

  /** One pass of the outer loop: the records, or the error, that one signature entry gives. */
  function EntryTransfers(config: Config, parsers: KeyParsers, node: map<string, Transaction>, start: int, e: SignatureEntry)
    : Result<seq<UsdcTransfer>, Error>
  {
    if !InWindow(e, start) then Success([])
    else if !parsers.isSignature(e.signature) then Failure(InvalidSignature(e.signature))
    else if e.signature !in node then Failure(TransactionUnavailable(e.signature))
    else
      var tx := node[e.signature];
      if tx.meta.None? then Failure(NoTransactionMetadata(e.signature))
      else if !tx.transaction.Json? then Success([])
      else
        var snap := BalanceSnapshot(e.signature, e.blockTime.value,
                                    OrEmpty(tx.meta.value.preTokenBalances),
                                    OrEmpty(tx.meta.value.postTokenBalances));
        AccountsTransfers(config, parsers, snap, TrackedAccounts(snap.post, config.usdcMintAddress))
  }

  /** The outer loop over the signature entries, defined on its last element. */
  function Scan(config: Config, parsers: KeyParsers, node: map<string, Transaction>, start: int, entries: seq<SignatureEntry>)
    : Result<seq<UsdcTransfer>, Error>
  {
    if entries == [] then Success([])
    else
      Chain(Scan(config, parsers, node, start, entries[..|entries| - 1]),
            EntryTransfers(config, parsers, node, start, entries[|entries| - 1]))
  }

  /** What `get_usdc_transfers` returns for the given node answers and clock reading. */
  function Transfers(config: Config, parsers: KeyParsers, node: map<string, Transaction>, now: int, signatures: seq<SignatureEntry>)
    : Result<seq<UsdcTransfer>, Error>
  {
    Scan(config, parsers, node, StartTime(config, now), signatures)
  }

  lemma ChainAssociative<T>(a: Result<seq<T>, Error>, b: Result<seq<T>, Error>, c: Result<seq<T>, Error>)
    ensures Chain(Chain(a, b), c) == Chain(a, Chain(b, c))
  {
    if a.Success? && b.Success? && c.Success? {
      assert (a.value + b.value) + c.value == a.value + (b.value + c.value);
    }
  }

  /** Scanning two sequences of entries one after the other joins their outputs in order. */
  lemma {:induction false} ScanAppend(config: Config, parsers: KeyParsers, node: map<string, Transaction>, start: int,
                                      a: seq<SignatureEntry>, b: seq<SignatureEntry>)
    ensures Scan(config, parsers, node, start, a + b) ==
            Chain(Scan(config, parsers, node, start, a), Scan(config, parsers, node, start, b))
    decreases |b|
  {
    var sa := Scan(config, parsers, node, start, a);
    if b == [] {
      assert a + b == a;
      if sa.Success? { assert sa.value + [] == sa.value; }
    } else {
      var init, last := b[..|b| - 1], b[|b| - 1];
      assert (a + b)[..|a + b| - 1] == a + init;
      assert (a + b)[|a + b| - 1] == last;
      ScanAppend(config, parsers, node, start, a, init);
      ChainAssociative(sa, Scan(config, parsers, node, start, init), EntryTransfers(config, parsers, node, start, last));
    }
  }

  /** The inner loop over two sequences of accounts joins their outputs in order. */
  lemma {:induction false} AccountsAppend(config: Config, parsers: KeyParsers, snap: BalanceSnapshot,
                                          a: seq<TokenBalance>, b: seq<TokenBalance>)
    ensures AccountsTransfers(config, parsers, snap, a + b) ==
            Chain(AccountsTransfers(config, parsers, snap, a), AccountsTransfers(config, parsers, snap, b))
    decreases |b|
  {
    var ra := AccountsTransfers(config, parsers, snap, a);
    if b == [] {
      assert a + b == a;
      if ra.Success? { assert ra.value + [] == ra.value; }
    } else {
      var init, last := b[..|b| - 1], b[|b| - 1];
      assert (a + b)[..|a + b| - 1] == a + init;
      assert (a + b)[|a + b| - 1] == last;
      AccountsAppend(config, parsers, snap, a, init);
      ChainAssociative(ra, AccountsTransfers(config, parsers, snap, init), AccountStep(config, parsers, snap, last));
    }
  }

  /** The scan succeeds exactly when every entry does: one failing entry fails the call. */
  lemma {:induction false} ScanSucceeds(config: Config, parsers: KeyParsers, node: map<string, Transaction>, start: int,
                                        entries: seq<SignatureEntry>)
    ensures Scan(config, parsers, node, start, entries).Success? <==>
            forall j :: 0 <= j < |entries| ==> EntryTransfers(config, parsers, node, start, entries[j]).Success?
    decreases |entries|
  {
    if entries != [] {
      var init := entries[..|entries| - 1];
      ScanSucceeds(config, parsers, node, start, init);
      assert forall j :: 0 <= j < |init| ==> init[j] == entries[j];
    }
  }

  /** An error met after the first `k` entries is the error of the whole scan. */
  lemma ScanFailsFrom(config: Config, parsers: KeyParsers, node: map<string, Transaction>, start: int,
                      entries: seq<SignatureEntry>, k: nat)
    requires k <= |entries|
    requires Scan(config, parsers, node, start, entries[..k]).Failure?
    ensures Scan(config, parsers, node, start, entries) == Scan(config, parsers, node, start, entries[..k])
  {
    assert entries[..k] + entries[k..] == entries;
    ScanAppend(config, parsers, node, start, entries[..k], entries[k..]);
  }

  /** An error met after the first `k` accounts is the error of the whole inner loop. */
  lemma AccountsFailFrom(config: Config, parsers: KeyParsers, snap: BalanceSnapshot, accounts: seq<TokenBalance>, k: nat)
    requires k <= |accounts|
    requires AccountsTransfers(config, parsers, snap, accounts[..k]).Failure?
    ensures AccountsTransfers(config, parsers, snap, accounts) == AccountsTransfers(config, parsers, snap, accounts[..k])
  {
    assert accounts[..k] + accounts[k..] == accounts;
    AccountsAppend(config, parsers, snap, accounts[..k], accounts[k..]);
  }

  /**
   * The inner loop of `get_usdc_transfers` for one kept transaction: for each
   * tracked post-balance, parse its owner (failing the call if it does not
   * parse) and append the record the balance change gives, if any.
   */
  method CollectTransfers(config: Config, parsers: KeyParsers, snap: BalanceSnapshot, usdcAccounts: seq<TokenBalance>)
    returns (r: Result<seq<UsdcTransfer>, Error>)
    ensures r == AccountsTransfers(config, parsers, snap, usdcAccounts)
  {
    var wallet := config.walletAddress;
    var mint := config.usdcMintAddress;
    var transfers: seq<UsdcTransfer> := [];
    for j := 0 to |usdcAccounts|
      invariant AccountsTransfers(config, parsers, snap, usdcAccounts[..j]) == Success(transfers)
    {
      var balance := usdcAccounts[j];
      assert usdcAccounts[..j + 1][..j] == usdcAccounts[..j];
      if !parsers.isPubkey(balance.owner) {
        AccountsFailFrom(config, parsers, snap, usdcAccounts, j + 1);
        return Failure(InvalidOwner(balance.owner));
      }
      var preBalance := PreAmount(snap.pre, balance.owner, balance.mint);
      var postBalance := Amount(balance);
      var amount := Abs(postBalance - preBalance);
      if amount > 0.0 {
        var direction := if balance.owner == wallet then Incoming else Outgoing;
        var from := if direction == Incoming then IncomingSource(snap.pre, mint) else wallet;
        var to := if direction == Incoming then wallet else OutgoingDestination(snap.post, mint, from);
        var record := UsdcTransfer(snap.signature, snap.timestamp, from, to, amount, direction);
        assert InferRecord(config, snap, balance).Some?;
        assert InferRecord(config, snap, balance).value == record;
        assert AccountStep(config, parsers, snap, balance) == Success([record]);
        transfers := transfers + [record];
      } else {
        assert AccountStep(config, parsers, snap, balance) == Success([]);
        assert transfers + [] == transfers;
      }
    }
    assert usdcAccounts[..|usdcAccounts|] == usdcAccounts;
    r := Success(transfers);
  }

  /**
   * `get_usdc_transfers`: walks the signature entries, skips the ones outside
   * the window and the non-JSON transactions, fails on the first unparsable
   * signature or owner, failed lookup or missing metadata, and otherwise
   * appends one record per changed tracked-mint account.
   */
  method GetUsdcTransfers(config: Config, parsers: KeyParsers, node: map<string, Transaction>, now: int,
                          signatures: seq<SignatureEntry>)
    returns (r: Result<seq<UsdcTransfer>, Error>)
    ensures r == Transfers(config, parsers, node, now, signatures)
  {
    var startTime := StartTime(config, now);
    var transfers: seq<UsdcTransfer> := [];

    for i := 0 to |signatures|
      invariant Scan(config, parsers, node, startTime, signatures[..i]) == Success(transfers)
    {
      var entry := signatures[i];
      assert signatures[..i + 1][..i] == signatures[..i];

      if !(entry.blockTime.Some? && entry.blockTime.value >= startTime) {
        assert transfers + [] == transfers;
        continue;
      }
      var timestamp := entry.blockTime.value;

      if !parsers.isSignature(entry.signature) {
        ScanFailsFrom(config, parsers, node, startTime, signatures, i + 1);
        return Failure(InvalidSignature(entry.signature));
      }
      if entry.signature !in node {
        ScanFailsFrom(config, parsers, node, startTime, signatures, i + 1);
        return Failure(TransactionUnavailable(entry.signature));
      }
      var tx := node[entry.signature];
      if tx.meta.None? {
        ScanFailsFrom(config, parsers, node, startTime, signatures, i + 1);
        return Failure(NoTransactionMetadata(entry.signature));
      }
      if !tx.transaction.Json? {
        assert transfers + [] == transfers;
        continue;
      }

      var pre := OrEmpty(tx.meta.value.preTokenBalances);
      var post := OrEmpty(tx.meta.value.postTokenBalances);
      var usdcAccounts := TrackedAccounts(post, config.usdcMintAddress);
      var found := CollectTransfers(config, parsers, BalanceSnapshot(entry.signature, timestamp, pre, post), usdcAccounts);
      match found {
        case Failure(e) =>
          ScanFailsFrom(config, parsers, node, startTime, signatures, i + 1);
          return Failure(e);
        case Success(records) =>
          transfers := transfers + records;
      }
    }
    assert signatures[..|signatures|] == signatures;
    r := Success(transfers);
  }
}
