/**
 * What `get_usdc_transfers` guarantees about its output, stated over the
 * specification functions of module RpcClient (which the method
 * `RpcClient.GetUsdcTransfers` is proved to compute).
 */
module RpcClientProperties {
  import opened Wrappers
  import opened Models
  import opened RpcClient
  import Summary

  /**
   * The record invariant: a positive amount, a time at or after the window
   * start, and the wallet on the receiving side of an Incoming record and on
   * the sending side of an Outgoing one.
   */
  predicate WellFormed(t: UsdcTransfer, config: Config, start: int) {
    && t.amount > 0.0
    && t.timestamp >= start
    && (t.direction == Incoming ==> t.to == config.walletAddress)
    && (t.direction == Outgoing ==> t.from == config.walletAddress)
  }

  /** The record carries the signature and block time of some kept entry. */
  predicate FromKeptEntry(t: UsdcTransfer, entries: seq<SignatureEntry>, start: int) {
    exists j :: 0 <= j < |entries| && InWindow(entries[j], start) &&
      t.signature == entries[j].signature && t.timestamp == entries[j].blockTime.value
  }

  /** Every owner in `accounts` parses as a public key. */
  predicate AllOwnersParse(parsers: KeyParsers, accounts: seq<TokenBalance>) {
    forall i :: 0 <= i < |accounts| ==> parsers.isPubkey(accounts[i].owner)
  }

  /**
   * A reference reading of the inner loop: the records `InferRecord` gives
   * for the accounts, in their order, one for each account whose balance
   * changed and none for the others.
   */
  function Inferred(config: Config, snap: BalanceSnapshot, accounts: seq<TokenBalance>): seq<UsdcTransfer> {
    if accounts == [] then []
    else RecordOf(config, snap, accounts[0]) + Inferred(config, snap, accounts[1..])
  }

  /** The record of one account as a list of zero or one element. */
  function RecordOf(config: Config, snap: BalanceSnapshot, b: TokenBalance): seq<UsdcTransfer> {
    match InferRecord(config, snap, b)
    case Some(t) => [t]
    case None => []
  }

  lemma {:induction false} InferredAppend(config: Config, snap: BalanceSnapshot, a: seq<TokenBalance>, b: seq<TokenBalance>)
    ensures Inferred(config, snap, a + b) == Inferred(config, snap, a) + Inferred(config, snap, b)
    decreases |a|
  {
    if a != [] {
      assert (a + b)[0] == a[0];
      assert (a + b)[1..] == a[1..] + b;
      InferredAppend(config, snap, a[1..], b);
    } else {
      assert a + b == b;
    }
  }

  /** The reference records of all but the last account, then the last one's. */
  lemma InferredSnoc(config: Config, snap: BalanceSnapshot, accounts: seq<TokenBalance>)
    requires accounts != []
    ensures Inferred(config, snap, accounts) ==
            Inferred(config, snap, accounts[..|accounts| - 1]) + RecordOf(config, snap, accounts[|accounts| - 1])
  {
    var init, last := accounts[..|accounts| - 1], accounts[|accounts| - 1];
    assert accounts == init + [last];
    InferredAppend(config, snap, init, [last]);
    assert [last][1..] == [];
    assert Inferred(config, snap, [last]) == RecordOf(config, snap, last) + [];
  }

  /** The inner loop's step for an account whose owner parses gives that account's record, if any. */
  lemma ParsedStep(config: Config, parsers: KeyParsers, snap: BalanceSnapshot, b: TokenBalance)
    requires parsers.isPubkey(b.owner)
    ensures AccountStep(config, parsers, snap, b) == Success(RecordOf(config, snap, b))
  {
  }

  /** An account's record list holds at most its `InferRecord` record, and exactly that one when there is one. */
  lemma RecordOfHolds(config: Config, snap: BalanceSnapshot, b: TokenBalance)
    ensures |RecordOf(config, snap, b)| <= 1
    ensures forall t :: t in RecordOf(config, snap, b) <==> InferRecord(config, snap, b) == Some(t)
  {
  }

  /**
   * The reference records are no more than the accounts, and each is what
   * `InferRecord` gives for one of them.
   */
  lemma {:induction false} InferredSound(config: Config, snap: BalanceSnapshot, accounts: seq<TokenBalance>)
    ensures |Inferred(config, snap, accounts)| <= |accounts|
    ensures forall t :: t in Inferred(config, snap, accounts) ==>
              exists i :: 0 <= i < |accounts| && InferRecord(config, snap, accounts[i]) == Some(t)
    decreases |accounts|
  {
    if accounts != [] {
      var rest := accounts[1..];
      InferredSound(config, snap, rest);
      RecordOfHolds(config, snap, accounts[0]);
      forall t | t in Inferred(config, snap, accounts)
        ensures exists i :: 0 <= i < |accounts| && InferRecord(config, snap, accounts[i]) == Some(t)
      {
        if t in RecordOf(config, snap, accounts[0]) {
          assert InferRecord(config, snap, accounts[0]) == Some(t);
        } else {
          var i :| 0 <= i < |rest| && InferRecord(config, snap, rest[i]) == Some(t);
          assert rest[i] == accounts[i + 1];
        }
      }
    }
  }

  /** Every account whose balance changed has its record among the reference records. */
  lemma {:induction false} InferredComplete(config: Config, snap: BalanceSnapshot, accounts: seq<TokenBalance>)
    ensures forall i :: 0 <= i < |accounts| && InferRecord(config, snap, accounts[i]).Some? ==>
              InferRecord(config, snap, accounts[i]).value in Inferred(config, snap, accounts)
    decreases |accounts|
  {
    if accounts != [] {
      var rest := accounts[1..];
      InferredComplete(config, snap, rest);
      RecordOfHolds(config, snap, accounts[0]);
      forall i | 0 <= i < |accounts| && InferRecord(config, snap, accounts[i]).Some?
        ensures InferRecord(config, snap, accounts[i]).value in Inferred(config, snap, accounts)
      {
        if i > 0 {
          assert accounts[i] == rest[i - 1];
        }
      }
    }
  }

  /** Owners parse along `accounts` exactly when they parse along all but the last, and the last one's does. */
  lemma OwnersParseSnoc(parsers: KeyParsers, accounts: seq<TokenBalance>)
    requires accounts != []
    ensures AllOwnersParse(parsers, accounts) <==>
            AllOwnersParse(parsers, accounts[..|accounts| - 1]) && parsers.isPubkey(accounts[|accounts| - 1].owner)
  {
    var init := accounts[..|accounts| - 1];
    assert forall i :: 0 <= i < |init| ==> init[i] == accounts[i];
  }

  /** The inner loop succeeds exactly when every tracked owner parses. */
  lemma {:induction false} AccountsSucceed(config: Config, parsers: KeyParsers, snap: BalanceSnapshot,
                                           accounts: seq<TokenBalance>)
    ensures AccountsTransfers(config, parsers, snap, accounts).Success? <==> AllOwnersParse(parsers, accounts)
    decreases |accounts|
  {
    if accounts != [] {
      var init, last := accounts[..|accounts| - 1], accounts[|accounts| - 1];
      AccountsSucceed(config, parsers, snap, init);
      OwnersParseSnoc(parsers, accounts);
      assert AccountStep(config, parsers, snap, last).Success? <==> parsers.isPubkey(last.owner);
    }
  }

  /**
   * When every tracked owner parses, the inner loop returns the reference
   * records: one per changed account, in post-balance order, and nothing for
   * an unchanged account.
   */
  lemma {:induction false} AccountsTransfersIsInferred(config: Config, parsers: KeyParsers, snap: BalanceSnapshot,
                                                       accounts: seq<TokenBalance>)
    requires AllOwnersParse(parsers, accounts)
    ensures AccountsTransfers(config, parsers, snap, accounts) == Success(Inferred(config, snap, accounts))
    decreases |accounts|
  {
    if accounts != [] {
      var init, last := accounts[..|accounts| - 1], accounts[|accounts| - 1];
      OwnersParseSnoc(parsers, accounts);
      AccountsTransfersIsInferred(config, parsers, snap, init);
      InferredSnoc(config, snap, accounts);
      ParsedStep(config, parsers, snap, last);
    }
  }

  /**
   * A kept, JSON-encoded transaction with metadata: its entry succeeds exactly
   * when every tracked owner parses, and then gives the reference records of
   * its tracked post-balances, so every changed tracked account has a record.
   */
  lemma KeptEntryTransfers(config: Config, parsers: KeyParsers, node: map<string, Transaction>, start: int, e: SignatureEntry)
    requires InWindow(e, start) && parsers.isSignature(e.signature) && e.signature in node
    requires node[e.signature].meta.Some? && node[e.signature].transaction.Json?
    ensures var meta := node[e.signature].meta.value;
            var snap := BalanceSnapshot(e.signature, e.blockTime.value,
                                        OrEmpty(meta.preTokenBalances), OrEmpty(meta.postTokenBalances));
            var tracked := TrackedAccounts(snap.post, config.usdcMintAddress);
            && (EntryTransfers(config, parsers, node, start, e).Success? <==> AllOwnersParse(parsers, tracked))
            && (AllOwnersParse(parsers, tracked) ==>
                  EntryTransfers(config, parsers, node, start, e) == Success(Inferred(config, snap, tracked)))
            && (AllOwnersParse(parsers, tracked) ==>
                  forall i :: 0 <= i < |tracked| && Amount(tracked[i]) != PreAmount(snap.pre, tracked[i].owner, tracked[i].mint) ==>
                    InferRecord(config, snap, tracked[i]).value in EntryTransfers(config, parsers, node, start, e).value)
  {
    var meta := node[e.signature].meta.value;
    var snap := BalanceSnapshot(e.signature, e.blockTime.value,
                                OrEmpty(meta.preTokenBalances), OrEmpty(meta.postTokenBalances));
    var tracked := TrackedAccounts(snap.post, config.usdcMintAddress);
    AccountsSucceed(config, parsers, snap, tracked);
    if AllOwnersParse(parsers, tracked) {
      AccountsTransfersIsInferred(config, parsers, snap, tracked);
      InferredComplete(config, snap, tracked);
    }
  }

  /**
   * The records of one balance snapshot come from its post-balances of the
   * tracked mint, at most one per such balance, each carrying the snapshot's
   * signature and time.
   */
  lemma SnapshotRecords(config: Config, parsers: KeyParsers, snap: BalanceSnapshot, start: int)
    requires snap.timestamp >= start
    requires AccountsTransfers(config, parsers, snap, TrackedAccounts(snap.post, config.usdcMintAddress)).Success?
    ensures var ts := AccountsTransfers(config, parsers, snap, TrackedAccounts(snap.post, config.usdcMintAddress)).value;
            |ts| <= |TrackedAccounts(snap.post, config.usdcMintAddress)| &&
            forall t :: t in ts ==>
              t.signature == snap.signature && t.timestamp == snap.timestamp && WellFormed(t, config, start)
  {
    var accounts := TrackedAccounts(snap.post, config.usdcMintAddress);
    var ts := AccountsTransfers(config, parsers, snap, accounts).value;
    AccountsSucceed(config, parsers, snap, accounts);
    AccountsTransfersIsInferred(config, parsers, snap, accounts);
    InferredSound(config, snap, accounts);
    forall t | t in ts
      ensures t.signature == snap.signature && t.timestamp == snap.timestamp && WellFormed(t, config, start)
    {
      var k :| 0 <= k < |ts| && ts[k] == t;
      var i :| 0 <= i < |accounts| && InferRecord(config, snap, accounts[i]) == Some(t);
    }
  }

  /**
   * The records of one signature entry: only a kept entry whose transaction
   * exists, has metadata and is JSON-encoded gives any, at most one per
   * tracked post-balance, each carrying the entry's signature and block time.
   */
  lemma EntryRecords(config: Config, parsers: KeyParsers, node: map<string, Transaction>, start: int, e: SignatureEntry)
    requires EntryTransfers(config, parsers, node, start, e).Success?
    ensures forall t :: t in EntryTransfers(config, parsers, node, start, e).value ==>
              InWindow(e, start) && t.signature == e.signature && t.timestamp == e.blockTime.value &&
              WellFormed(t, config, start)
    ensures EntryTransfers(config, parsers, node, start, e).value != [] ==>
              && InWindow(e, start)
              && e.signature in node
              && node[e.signature].meta.Some?
              && node[e.signature].transaction.Json?
              && var post := OrEmpty(node[e.signature].meta.value.postTokenBalances);
                 |EntryTransfers(config, parsers, node, start, e).value| <= |TrackedAccounts(post, config.usdcMintAddress)|
  {
    if InWindow(e, start) && parsers.isSignature(e.signature) && e.signature in node &&
       node[e.signature].meta.Some? && node[e.signature].transaction.Json? {
      var tx := node[e.signature];
      var snap := BalanceSnapshot(e.signature, e.blockTime.value,
                                  OrEmpty(tx.meta.value.preTokenBalances),
                                  OrEmpty(tx.meta.value.postTokenBalances));
      assert EntryTransfers(config, parsers, node, start, e) ==
             AccountsTransfers(config, parsers, snap, TrackedAccounts(snap.post, config.usdcMintAddress));
      SnapshotRecords(config, parsers, snap, start);
    }
  }

  /**
   * Every record the scan returns satisfies the record invariant and carries
   * the signature and block time of a kept entry.
   */
  lemma {:induction false} ScanRecords(config: Config, parsers: KeyParsers, node: map<string, Transaction>, start: int,
                                       entries: seq<SignatureEntry>)
    requires Scan(config, parsers, node, start, entries).Success?
    ensures forall k :: 0 <= k < |Scan(config, parsers, node, start, entries).value| ==>
              WellFormed(Scan(config, parsers, node, start, entries).value[k], config, start) &&
              FromKeptEntry(Scan(config, parsers, node, start, entries).value[k], entries, start)
    decreases |entries|
  {
    if entries != [] {
      var init, last := entries[..|entries| - 1], entries[|entries| - 1];
      var done := Scan(config, parsers, node, start, init).value;
      var ts := Scan(config, parsers, node, start, entries).value;
      ScanRecords(config, parsers, node, start, init);
      EntryRecords(config, parsers, node, start, last);
      forall k | 0 <= k < |ts|
        ensures WellFormed(ts[k], config, start) && FromKeptEntry(ts[k], entries, start)
      {
        if k < |done| {
          assert ts[k] == done[k];
          var j :| 0 <= j < |init| && InWindow(init[j], start) &&
                   done[k].signature == init[j].signature && done[k].timestamp == init[j].blockTime.value;
          assert entries[j] == init[j];
        } else {
          var mine := EntryTransfers(config, parsers, node, start, last).value;
          assert ts[k] == mine[k - |done|];
          assert mine[k - |done|] in mine;
          assert entries[|entries| - 1] == last;
        }
      }
    }
  }

  /** The returned records all satisfy the invariant; the earliest block time is the window start and there is no latest. */
  lemma TransfersWellFormed(config: Config, parsers: KeyParsers, node: map<string, Transaction>, now: int,
                            signatures: seq<SignatureEntry>)
    requires Transfers(config, parsers, node, now, signatures).Success?
    ensures forall t :: t in Transfers(config, parsers, node, now, signatures).value ==>
              WellFormed(t, config, now - config.daysToIndex * 86400) &&
              FromKeptEntry(t, signatures, now - config.daysToIndex * 86400)
  {
    var ts := Transfers(config, parsers, node, now, signatures).value;
    ScanRecords(config, parsers, node, StartTime(config, now), signatures);
    forall t | t in ts
      ensures WellFormed(t, config, now - config.daysToIndex * 86400) &&
              FromKeptEntry(t, signatures, now - config.daysToIndex * 86400)
    {
      var k :| 0 <= k < |ts| && ts[k] == t;
    }
  }

  /**
   * An entry that gives nothing (`continue` in the source) leaves the rest of
   * the scan as if it were not there: the loop goes on with the later entries.
   */
  lemma SkippedEntryContinues(config: Config, parsers: KeyParsers, node: map<string, Transaction>, start: int,
                              before: seq<SignatureEntry>, e: SignatureEntry, after: seq<SignatureEntry>)
    requires EntryTransfers(config, parsers, node, start, e) == Success([])
    ensures Scan(config, parsers, node, start, before + [e] + after) ==
            Scan(config, parsers, node, start, before + after)
  {
    ScanAppend(config, parsers, node, start, before + [e], after);
    ScanAppend(config, parsers, node, start, before, after);
    assert (before + [e])[..|before + [e]| - 1] == before;
    var sb := Scan(config, parsers, node, start, before);
    if sb.Success? {
      assert sb.value + [] == sb.value;
    }
  }

  /** An entry without a block time, or with one before the window start, produces nothing and the scan carries on. */
  lemma OutOfWindowSkipped(config: Config, parsers: KeyParsers, node: map<string, Transaction>, start: int,
                           before: seq<SignatureEntry>, e: SignatureEntry, after: seq<SignatureEntry>)
    requires e.blockTime.None? || e.blockTime.value < start
    ensures Scan(config, parsers, node, start, before + [e] + after) ==
            Scan(config, parsers, node, start, before + after)
  {
    SkippedEntryContinues(config, parsers, node, start, before, e, after);
  }

  /** A kept transaction that is not JSON-encoded is skipped silently and the scan carries on. */
  lemma NonJsonSkipped(config: Config, parsers: KeyParsers, node: map<string, Transaction>, start: int,
                       before: seq<SignatureEntry>, e: SignatureEntry, after: seq<SignatureEntry>)
    requires InWindow(e, start) && parsers.isSignature(e.signature) && e.signature in node
    requires node[e.signature].meta.Some? && !node[e.signature].transaction.Json?
    ensures Scan(config, parsers, node, start, before + [e] + after) ==
            Scan(config, parsers, node, start, before + after)
  {
    SkippedEntryContinues(config, parsers, node, start, before, e, after);
  }

  /** A failing entry fails the whole scan; if nothing failed before it, with its own error. */
  lemma EntryFailureIsFatal(config: Config, parsers: KeyParsers, node: map<string, Transaction>, start: int,
                            entries: seq<SignatureEntry>, j: nat)
    requires j < |entries|
    requires EntryTransfers(config, parsers, node, start, entries[j]).Failure?
    ensures Scan(config, parsers, node, start, entries).Failure?
    ensures Scan(config, parsers, node, start, entries[..j]).Success? ==>
              Scan(config, parsers, node, start, entries) == EntryTransfers(config, parsers, node, start, entries[j])
  {
    assert entries[..j + 1][..j] == entries[..j];
    ScanFailsFrom(config, parsers, node, start, entries, j + 1);
  }

  /**
   * A kept signature whose transaction has no metadata makes the whole call
   * fail, whatever comes before or after it; the error names that signature
   * when no earlier entry failed.
   */
  lemma MissingMetadataIsFatal(config: Config, parsers: KeyParsers, node: map<string, Transaction>, start: int,
                               entries: seq<SignatureEntry>, j: nat)
    requires j < |entries| && InWindow(entries[j], start)
    requires parsers.isSignature(entries[j].signature) && entries[j].signature in node
    requires node[entries[j].signature].meta.None?
    ensures Scan(config, parsers, node, start, entries).Failure?
    ensures Scan(config, parsers, node, start, entries[..j]).Success? ==>
              Scan(config, parsers, node, start, entries) == Failure(NoTransactionMetadata(entries[j].signature))
  {
    EntryFailureIsFatal(config, parsers, node, start, entries, j);
  }

  /**
   * A tracked account whose owner does not parse as a public key fails the
   * transaction's inner loop, even when its balance did not change.
   */
  lemma InvalidOwnerIsFatal(config: Config, parsers: KeyParsers, snap: BalanceSnapshot, accounts: seq<TokenBalance>, i: nat)
    requires i < |accounts| && !parsers.isPubkey(accounts[i].owner)
    ensures AccountsTransfers(config, parsers, snap, accounts).Failure?
  {
    var prefix := accounts[..i + 1];
    assert prefix[..i] == accounts[..i];
    assert prefix[i] == accounts[i];
    assert AccountStep(config, parsers, snap, accounts[i]).Failure?;
    assert AccountsTransfers(config, parsers, snap, prefix).Failure?;
    AccountsFailFrom(config, parsers, snap, accounts, i + 1);
  }

  /** When no tracked account's balance changed and every owner parses, the transaction gives no record. */
  lemma {:induction false} UnchangedBalancesYieldNothing(config: Config, parsers: KeyParsers, snap: BalanceSnapshot,
                                                         accounts: seq<TokenBalance>)
    requires forall i :: 0 <= i < |accounts| ==> parsers.isPubkey(accounts[i].owner)
    requires forall i :: 0 <= i < |accounts| ==> Amount(accounts[i]) == PreAmount(snap.pre, accounts[i].owner, accounts[i].mint)
    ensures AccountsTransfers(config, parsers, snap, accounts) == Success([])
    decreases |accounts|
  {
    if accounts != [] {
      var init := accounts[..|accounts| - 1];
      assert forall i :: 0 <= i < |init| ==> init[i] == accounts[i];
      UnchangedBalancesYieldNothing(config, parsers, snap, init);
      assert InferRecord(config, snap, accounts[|accounts| - 1]).None?;
      assert AccountStep(config, parsers, snap, accounts[|accounts| - 1]) == Success([]);
      var none: seq<UsdcTransfer> := [];
      assert none + none == none;
    }
  }

  /** Every reconstructed list of records has non-negative totals; each total is zero exactly when no record has its direction. */
  lemma ReconstructedTotals(config: Config, parsers: KeyParsers, node: map<string, Transaction>, now: int,
                            signatures: seq<SignatureEntry>)
    requires Transfers(config, parsers, node, now, signatures).Success?
    ensures var s := Summary.Summarize(Transfers(config, parsers, node, now, signatures).value);
            s.totalIn >= 0.0 && s.totalOut >= 0.0 && s.net == s.totalIn - s.totalOut
    ensures var ts := Transfers(config, parsers, node, now, signatures).value;
            Summary.TotalIn(ts) == 0.0 <==> forall k :: 0 <= k < |ts| ==> ts[k].direction != Incoming
    ensures var ts := Transfers(config, parsers, node, now, signatures).value;
            Summary.TotalOut(ts) == 0.0 <==> forall k :: 0 <= k < |ts| ==> ts[k].direction != Outgoing
  {
    var ts := Transfers(config, parsers, node, now, signatures).value;
    ScanRecords(config, parsers, node, StartTime(config, now), signatures);
    assert Summary.AllPositive(ts);
    Summary.TotalZeroIffNone(ts, Incoming);
    Summary.TotalZeroIffNone(ts, Outgoing);
    var s := Summary.Summarize(ts);
    Summary.TotalsPartition(ts);
    Summary.NetIsSignedSum(ts);
  }

  /*
   * Concrete scenarios. The tracked wallet is "W", the mint "M", a counterparty
   * "C"; every string parses as a key; the window is one day before `Now`.
   */

  const Now: int := 1000000
  const Day: Config := Config("rpc", "W", "M", 1)
  const AcceptAll: KeyParsers := KeyParsers((s: string) => true, (s: string) => true)

  function OneTransaction(signature: string, pre: seq<TokenBalance>, post: seq<TokenBalance>): map<string, Transaction> {
    map[signature := Transaction(Some(TransactionMeta(Some(pre), Some(post))), Json)]
  }

  /** Two tracked accounts: the first one's step, then the second one's. */
  lemma AccountsOfTwo(config: Config, parsers: KeyParsers, snap: BalanceSnapshot, b0: TokenBalance, b1: TokenBalance)
    ensures AccountsTransfers(config, parsers, snap, [b0, b1]) ==
            Chain(AccountStep(config, parsers, snap, b0), AccountStep(config, parsers, snap, b1))
  {
    assert [b0, b1] == [b0] + [b1];
    AccountsAppend(config, parsers, snap, [b0], [b1]);
    AccountsOfOne(config, parsers, snap, b0);
    AccountsOfOne(config, parsers, snap, b1);
  }

  /** When every post-balance is of the tracked mint, all of them are tracked. */
  lemma {:induction false} AllTracked(post: seq<TokenBalance>, mint: string)
    requires forall i :: 0 <= i < |post| ==> post[i].mint == mint
    ensures TrackedAccounts(post, mint) == post
  {
    if post != [] {
      var init := post[..|post| - 1];
      assert forall i :: 0 <= i < |init| ==> init[i] == post[i];
      AllTracked(init, mint);
      assert init + [post[|post| - 1]] == post;
    }
  }

  /** An out-of-window entry followed by a kept JSON one: the scan gives the latter's records. */
  lemma StaleThenKept(config: Config, parsers: KeyParsers, node: map<string, Transaction>, start: int,
                      stale: SignatureEntry, e: SignatureEntry, pre: seq<TokenBalance>, post: seq<TokenBalance>)
    requires !InWindow(stale, start)
    requires InWindow(e, start) && parsers.isSignature(e.signature)
    requires e.signature in node && node[e.signature] == Transaction(Some(TransactionMeta(Some(pre), Some(post))), Json)
    ensures Scan(config, parsers, node, start, [stale, e]) ==
            AccountsTransfers(config, parsers, BalanceSnapshot(e.signature, e.blockTime.value, pre, post),
                              TrackedAccounts(post, config.usdcMintAddress))
  {
    OutOfWindowSkipped(config, parsers, node, start, [], stale, [e]);
    assert [] + [stale] + [e] == [stale, e];
    assert [] + [e] == [e];
    KeptJsonEntry(config, parsers, node, start, e, pre, post);
  }

  lemma ScanOfOne(config: Config, parsers: KeyParsers, node: map<string, Transaction>, start: int, e: SignatureEntry)
    ensures Scan(config, parsers, node, start, [e]) == EntryTransfers(config, parsers, node, start, e)
  {
    assert [e][..0] == [];
    var r := EntryTransfers(config, parsers, node, start, e);
    if r.Success? { assert [] + r.value == r.value; }
  }

  lemma AccountsOfOne(config: Config, parsers: KeyParsers, snap: BalanceSnapshot, b: TokenBalance)
    ensures AccountsTransfers(config, parsers, snap, [b]) == AccountStep(config, parsers, snap, b)
  {
    assert [b][..0] == [];
    var r := AccountStep(config, parsers, snap, b);
    if r.Success? { assert [] + r.value == r.value; }
  }

  /** A kept JSON transaction's records are those of its tracked post-balances. */
  lemma KeptJsonEntry(config: Config, parsers: KeyParsers, node: map<string, Transaction>, start: int, e: SignatureEntry,
                      pre: seq<TokenBalance>, post: seq<TokenBalance>)
    requires InWindow(e, start) && parsers.isSignature(e.signature)
    requires e.signature in node && node[e.signature] == Transaction(Some(TransactionMeta(Some(pre), Some(post))), Json)
    ensures Scan(config, parsers, node, start, [e]) ==
            AccountsTransfers(config, parsers, BalanceSnapshot(e.signature, e.blockTime.value, pre, post),
                              TrackedAccounts(post, config.usdcMintAddress))
  {
    ScanOfOne(config, parsers, node, start, e);
  }

  /** One kept entry whose transaction is the node's only one: the call gives that transaction's records. */
  lemma SingleTransaction(config: Config, parsers: KeyParsers, now: int, signature: string, time: int,
                          pre: seq<TokenBalance>, post: seq<TokenBalance>)
    requires time >= StartTime(config, now) && parsers.isSignature(signature)
    ensures Transfers(config, parsers, OneTransaction(signature, pre, post), now, [SignatureEntry(signature, Some(time))]) ==
            AccountsTransfers(config, parsers, BalanceSnapshot(signature, time, pre, post),
                              TrackedAccounts(post, config.usdcMintAddress))
  {
    KeptJsonEntry(config, parsers, OneTransaction(signature, pre, post), StartTime(config, now),
                  SignatureEntry(signature, Some(time)), pre, post);
  }

  /** As `SingleTransaction`, when every post-balance is of the tracked mint. */
  lemma SingleTransactionAllTracked(config: Config, parsers: KeyParsers, now: int, signature: string, time: int,
                                    pre: seq<TokenBalance>, post: seq<TokenBalance>)
    requires time >= StartTime(config, now) && parsers.isSignature(signature)
    requires forall i :: 0 <= i < |post| ==> post[i].mint == config.usdcMintAddress
    ensures Transfers(config, parsers, OneTransaction(signature, pre, post), now, [SignatureEntry(signature, Some(time))]) ==
            AccountsTransfers(config, parsers, BalanceSnapshot(signature, time, pre, post), post)
  {
    SingleTransaction(config, parsers, now, signature, time, pre, post);
    AllTracked(post, config.usdcMintAddress);
  }

  /**
   * The wallet's balance goes from 100 to 150 with no other account of the
   * mint listed: one Incoming record of 50, whose sender is the wallet itself,
   * the first pre-balance of the mint.
   */
  lemma WalletOnlyIncreaseScenario()
    ensures Transfers(Day, AcceptAll,
                      OneTransaction("S1", [TokenBalance("W", "M", Some(100.0))], [TokenBalance("W", "M", Some(150.0))]),
                      Now, [SignatureEntry("S1", Some(Now - 60))])
            == Success([UsdcTransfer("S1", Now - 60, "W", "W", 50.0, Incoming)])
  {
    var pre, post := [TokenBalance("W", "M", Some(100.0))], [TokenBalance("W", "M", Some(150.0))];
    var snap := BalanceSnapshot("S1", Now - 60, pre, post);
    SingleTransaction(Day, AcceptAll, Now, "S1", Now - 60, pre, post);
    assert TrackedAccounts(post, "M") == post;
    AccountsOfOne(Day, AcceptAll, snap, post[0]);
    assert PreAmount(pre, "W", "M") == 100.0 by {
      assert FirstHolding(pre, 0, "W", "M");
    }
    assert IncomingSource(pre, "M") == "W" by {
      assert FirstOfMint(pre, 0, "M");
    }
    assert InferRecord(Day, snap, post[0]) == Some(UsdcTransfer("S1", Now - 60, "W", "W", 50.0, Incoming));
  }

  /** The balances of a send of 50 from the wallet to "C": wallet 150 -> 100, C 0 -> 50. */
  const SendPre: seq<TokenBalance> := [TokenBalance("W", "M", Some(150.0)), TokenBalance("C", "M", Some(0.0))]
  const SendPost: seq<TokenBalance> := [TokenBalance("W", "M", Some(100.0)), TokenBalance("C", "M", Some(50.0))]

  /** The wallet's own account, whose balance fell by 50, gives an Incoming record from the wallet to itself. */
  lemma SendWalletAccountRecord()
    ensures InferRecord(Day, BalanceSnapshot("S2", Now - 60, SendPre, SendPost), SendPost[0])
            == Some(UsdcTransfer("S2", Now - 60, "W", "W", 50.0, Incoming))
  {
  }

  /**
   * The same send with C's pre-balance listed first: the wallet's falling
   * balance is now reported as an Incoming record from C, the owner of the
   * first pre-balance of the mint.
   */
  lemma SendCounterpartyListedFirstRecord()
    ensures InferRecord(Day, BalanceSnapshot("S2", Now - 60, [SendPre[1], SendPre[0]], SendPost), SendPost[0])
            == Some(UsdcTransfer("S2", Now - 60, "C", "W", 50.0, Incoming))
  {
  }

  /** C's account, whose balance rose by 50, gives an Outgoing record from the wallet to C. */
  lemma SendCounterpartyRecord()
    ensures InferRecord(Day, BalanceSnapshot("S2", Now - 60, SendPre, SendPost), SendPost[1])
            == Some(UsdcTransfer("S2", Now - 60, "W", "C", 50.0, Outgoing))
  {
  }

  /** The inner loop over the send's two accounts: the wallet's record first, then C's. */
  lemma SendAccountsTransfers()
    ensures AccountsTransfers(Day, AcceptAll, BalanceSnapshot("S2", Now - 60, SendPre, SendPost), SendPost)
            == Success([UsdcTransfer("S2", Now - 60, "W", "W", 50.0, Incoming),
                        UsdcTransfer("S2", Now - 60, "W", "C", 50.0, Outgoing)])
  {
    var snap := BalanceSnapshot("S2", Now - 60, SendPre, SendPost);
    assert SendPost == [SendPost[0], SendPost[1]];
    AccountsOfTwo(Day, AcceptAll, snap, SendPost[0], SendPost[1]);
    SendWalletAccountRecord();
    SendCounterpartyRecord();
    assert [UsdcTransfer("S2", Now - 60, "W", "W", 50.0, Incoming)] + [UsdcTransfer("S2", Now - 60, "W", "C", 50.0, Outgoing)]
           == [UsdcTransfer("S2", Now - 60, "W", "W", 50.0, Incoming), UsdcTransfer("S2", Now - 60, "W", "C", 50.0, Outgoing)];
  }

  /**
   * The wallet sends 50 to "C": two records. C's account gives the expected
   * Outgoing record from W to C; the wallet's own account gives an Incoming
   * record of 50 although its balance fell.
   */
  lemma TwoPartySendScenario()
    ensures Transfers(Day, AcceptAll, OneTransaction("S2", SendPre, SendPost), Now, [SignatureEntry("S2", Some(Now - 60))])
            == Success([UsdcTransfer("S2", Now - 60, "W", "W", 50.0, Incoming),
                        UsdcTransfer("S2", Now - 60, "W", "C", 50.0, Outgoing)])
  {
    SingleTransactionAllTracked(Day, AcceptAll, Now, "S2", Now - 60, SendPre, SendPost);
    SendAccountsTransfers();
  }

  /** An account of the wallet that did not exist before and now holds 5. */
  const NewWalletAccount: TokenBalance := TokenBalance("W", "M", Some(5.0))

  /** With no pre-balances at all, the new account's record has an unknown sender. */
  lemma NewWalletAccountRecord(signature: string, time: int)
    ensures InferRecord(Day, BalanceSnapshot(signature, time, [], [NewWalletAccount]), NewWalletAccount)
            == Some(UsdcTransfer(signature, time, Unknown, "W", 5.0, Incoming))
  {
  }

  lemma NewWalletAccountTransfers(signature: string, time: int)
    ensures AccountsTransfers(Day, AcceptAll, BalanceSnapshot(signature, time, [], [NewWalletAccount]),
                              TrackedAccounts([NewWalletAccount], "M"))
            == Success([UsdcTransfer(signature, time, Unknown, "W", 5.0, Incoming)])
  {
    assert TrackedAccounts([NewWalletAccount], "M") == [NewWalletAccount] by {
      assert [NewWalletAccount][..0] == [];
    }
    AccountsOfOne(Day, AcceptAll, BalanceSnapshot(signature, time, [], [NewWalletAccount]), NewWalletAccount);
    NewWalletAccountRecord(signature, time);
  }

  /** A block time an hour after `now` is still kept: the window has no end. */
  lemma FutureBlockTimeKept()
    ensures Transfers(Day, AcceptAll, OneTransaction("S3", [], [NewWalletAccount]),
                      Now, [SignatureEntry("S3", Some(Now + 3600))])
            == Success([UsdcTransfer("S3", Now + 3600, Unknown, "W", 5.0, Incoming)])
  {
    SingleTransaction(Day, AcceptAll, Now, "S3", Now + 3600, [], [NewWalletAccount]);
    NewWalletAccountTransfers("S3", Now + 3600);
  }

  /**
   * An entry two days old, listed before a newer one, does not stop the scan:
   * the newer entry still gives its record.
   */
  lemma OldEntryDoesNotStopScan()
    ensures Transfers(Day, AcceptAll, OneTransaction("S5", [], [NewWalletAccount]),
                      Now, [SignatureEntry("S4", Some(Now - 2 * 86400)), SignatureEntry("S5", Some(Now - 60))])
            == Success([UsdcTransfer("S5", Now - 60, Unknown, "W", 5.0, Incoming)])
  {
    StaleThenKept(Day, AcceptAll, OneTransaction("S5", [], [NewWalletAccount]), StartTime(Day, Now),
                  SignatureEntry("S4", Some(Now - 2 * 86400)), SignatureEntry("S5", Some(Now - 60)),
                  [], [NewWalletAccount]);
    NewWalletAccountTransfers("S5", Now - 60);
  }
}
