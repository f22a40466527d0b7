/**
 * The computed parts of the console summary (src/main.rs, `print_summary`):
 * the direction labels, the shortening of long addresses, and the totals
 * in, out and net. The printing itself is not modelled.
 */
module Summary {
  import opened Models

  /** Addresses longer than this are shortened for display. */
  const MaxShownLength: nat := 12

  /** The label shown in the Direction column. */
  function DirectionLabel(d: TransferDirection): (r: string)
    ensures r == "IN" <==> d == Incoming
    ensures r == "OUT" <==> d == Outgoing
  {
    match d
    case Incoming => "IN"
    case Outgoing => "OUT"
  }

  /**
   * An address as shown in the From and To columns: one longer than 12
   * characters becomes its first 4 characters, "...", and its last 4;
   * anything else, the "unknown" sentinel included, is shown as it is.
   */
  function Shorten(address: string): (r: string)
    ensures |address| > MaxShownLength ==>
              |r| == 11 && r[..4] == address[..4] && r[4..7] == "..." &&
              r[7..] == address[|address| - 4..]
    ensures |address| <= MaxShownLength ==> r == address
    ensures |r| <= MaxShownLength
  {
    if |address| > MaxShownLength then
      address[..4] + "..." + address[|address| - 4..]
    else
      address
  }

  /** A shortened address is shown as it is: shortening twice is shortening once. */
  lemma ShortenIdempotent(address: string)
    ensures Shorten(Shorten(address)) == Shorten(address)
  {
  }

  /** The records of one direction, in their order (the `filter` of the totals). */
  function OfDirection(ts: seq<UsdcTransfer>, d: TransferDirection): (r: seq<UsdcTransfer>)
    ensures |r| <= |ts|
    ensures forall t :: t in r <==> t in ts && t.direction == d
  {
    if ts == [] then []
    else (if ts[0].direction == d then [ts[0]] else []) + OfDirection(ts[1..], d)
  }

  /** The `map(amount).sum()` of a list of records. */
  function SumAmounts(ts: seq<UsdcTransfer>): real {
    if ts == [] then 0.0 else ts[0].amount + SumAmounts(ts[1..])
  }

  /**
   * `total_in`: the sum of the Incoming amounts. With non-negative amounts it
   * is non-negative; with positive ones it is zero exactly when no record is
   * Incoming.
   */
  function TotalIn(ts: seq<UsdcTransfer>): (r: real)
    ensures AllNonNegative(ts) ==> r >= 0.0
    ensures AllPositive(ts) ==> (r == 0.0 <==> forall k :: 0 <= k < |ts| ==> ts[k].direction != Incoming)
  {
    DirectionalTotal(ts, Incoming);
    SumAmounts(OfDirection(ts, Incoming))
  }

  /**
   * `total_out`: the sum of the Outgoing amounts. With non-negative amounts
   * it is non-negative; with positive ones it is zero exactly when no record
   * is Outgoing.
   */
  function TotalOut(ts: seq<UsdcTransfer>): (r: real)
    ensures AllNonNegative(ts) ==> r >= 0.0
    ensures AllPositive(ts) ==> (r == 0.0 <==> forall k :: 0 <= k < |ts| ==> ts[k].direction != Outgoing)
  {
    DirectionalTotal(ts, Outgoing);
    SumAmounts(OfDirection(ts, Outgoing))
  }

  /**
   * The direction filter keeps order and repetitions: filtering `a + b` is
   * filtering `a`, then `b`.
   */
  lemma {:induction false} OfDirectionAppend(a: seq<UsdcTransfer>, b: seq<UsdcTransfer>, d: TransferDirection)
    ensures OfDirection(a + b, d) == OfDirection(a, d) + OfDirection(b, d)
  {
    if a == [] {
      assert a + b == b;
    } else {
      assert (a + b)[0] == a[0];
      assert (a + b)[1..] == a[1..] + b;
      OfDirectionAppend(a[1..], b, d);
    }
  }

  /** The amount of a record counted positively when Incoming, negatively when Outgoing. */
  function SignedAmount(t: UsdcTransfer): real {
    if t.direction == Incoming then t.amount else -t.amount
  }

  /** An independent reading of the net change: the sum of the signed amounts. */
  function SignedSum(ts: seq<UsdcTransfer>): real {
    if ts == [] then 0.0 else SignedAmount(ts[0]) + SignedSum(ts[1..])
  }

  predicate AllNonNegative(ts: seq<UsdcTransfer>) {
    forall k :: 0 <= k < |ts| ==> ts[k].amount >= 0.0
  }

  predicate AllPositive(ts: seq<UsdcTransfer>) {
    forall k :: 0 <= k < |ts| ==> ts[k].amount > 0.0
  }

  /** One step of a directional total: the head counts only when it has that direction. */
  lemma DirectionalStep(ts: seq<UsdcTransfer>, d: TransferDirection)
    requires ts != []
    ensures SumAmounts(OfDirection(ts, d)) ==
            (if ts[0].direction == d then ts[0].amount else 0.0) + SumAmounts(OfDirection(ts[1..], d))
  {
    var rest := OfDirection(ts[1..], d);
    if ts[0].direction == d {
      assert OfDirection(ts, d) == [ts[0]] + rest;
      assert ([ts[0]] + rest)[1..] == rest;
    } else {
      assert OfDirection(ts, d) == rest;
    }
  }

  /** The two filters partition the list: total in plus total out is the sum of all amounts. */
  lemma {:induction false} TotalsPartition(ts: seq<UsdcTransfer>)
    ensures TotalIn(ts) + TotalOut(ts) == SumAmounts(ts)
  {
    if ts != [] {
      TotalsPartition(ts[1..]);
      DirectionalStep(ts, Incoming);
      DirectionalStep(ts, Outgoing);
    }
  }

  /** Total in minus total out is the sum of the signed amounts. */
  lemma {:induction false} NetIsSignedSum(ts: seq<UsdcTransfer>)
    ensures TotalIn(ts) - TotalOut(ts) == SignedSum(ts)
  {
    if ts != [] {
      NetIsSignedSum(ts[1..]);
      DirectionalStep(ts, Incoming);
      DirectionalStep(ts, Outgoing);
    }
  }

  lemma {:induction false} SumNonNegative(ts: seq<UsdcTransfer>)
    requires AllNonNegative(ts)
    ensures SumAmounts(ts) >= 0.0
  {
    if ts != [] {
      assert ts[0].amount >= 0.0;
      assert AllNonNegative(ts[1..]) by {
        forall k | 0 <= k < |ts[1..]| ensures ts[1..][k].amount >= 0.0 {
          assert ts[1..][k] == ts[k + 1];
        }
      }
      SumNonNegative(ts[1..]);
    }
  }

  lemma OfDirectionNonNegative(ts: seq<UsdcTransfer>, d: TransferDirection)
    requires AllNonNegative(ts)
    ensures AllNonNegative(OfDirection(ts, d))
  {
  }

  /** With non-negative amounts, each total is non-negative and bounded by the sum of all amounts. */
  lemma TotalsNonNegative(ts: seq<UsdcTransfer>)
    ensures AllNonNegative(ts) ==> TotalIn(ts) >= 0.0 && TotalOut(ts) >= 0.0
    ensures AllNonNegative(ts) ==> TotalIn(ts) <= SumAmounts(ts) && TotalOut(ts) <= SumAmounts(ts)
  {
    if AllNonNegative(ts) {
      OfDirectionNonNegative(ts, Incoming);
      OfDirectionNonNegative(ts, Outgoing);
      SumNonNegative(OfDirection(ts, Incoming));
      SumNonNegative(OfDirection(ts, Outgoing));
      TotalsPartition(ts);
    }
  }

  lemma {:induction false} SumPositive(ts: seq<UsdcTransfer>)
    requires AllPositive(ts)
    ensures SumAmounts(ts) == 0.0 <==> ts == []
    ensures SumAmounts(ts) >= 0.0
  {
    if ts != [] {
      assert ts[0].amount > 0.0;
      assert AllPositive(ts[1..]) by {
        forall k | 0 <= k < |ts[1..]| ensures ts[1..][k].amount > 0.0 {
          assert ts[1..][k] == ts[k + 1];
        }
      }
      SumPositive(ts[1..]);
    }
  }

  /**
   * With positive amounts (as every reconstructed record has), total in is
   * zero exactly when there is no Incoming record, and likewise for total out.
   */
  lemma TotalZeroIffNone(ts: seq<UsdcTransfer>, d: TransferDirection)
    requires AllPositive(ts)
    ensures SumAmounts(OfDirection(ts, d)) == 0.0 <==> forall k :: 0 <= k < |ts| ==> ts[k].direction != d
  {
    var r := OfDirection(ts, d);
    forall k | 0 <= k < |r| ensures r[k].amount > 0.0 {
      assert r[k] in r;
      var i :| 0 <= i < |ts| && ts[i] == r[k];
    }
    SumPositive(r);
    if r == [] {
      forall k | 0 <= k < |ts| ensures ts[k].direction != d {
        assert ts[k] in ts;
      }
    } else {
      assert r[0] in r;
      var i :| 0 <= i < |ts| && ts[i] == r[0];
    }
  }

  /** The bounds of one directional total, as `TotalIn` and `TotalOut` state them. */
  lemma DirectionalTotal(ts: seq<UsdcTransfer>, d: TransferDirection)
    ensures AllNonNegative(ts) ==> SumAmounts(OfDirection(ts, d)) >= 0.0
    ensures AllPositive(ts) ==>
              (SumAmounts(OfDirection(ts, d)) == 0.0 <==> forall k :: 0 <= k < |ts| ==> ts[k].direction != d)
  {
    if AllNonNegative(ts) {
      OfDirectionNonNegative(ts, d);
      SumNonNegative(OfDirection(ts, d));
    }
    if AllPositive(ts) {
      TotalZeroIffNone(ts, d);
    }
  }

  /** The three figures of the summary. */
  datatype Totals = Totals(totalIn: real, totalOut: real, net: real)

  /**
   * The totals of `print_summary`. Net change is total in minus total out,
   * which is the sum of the signed amounts; the two totals together account
   * for every record's amount.
   */
  function Summarize(ts: seq<UsdcTransfer>): (s: Totals)
    ensures s.totalIn + s.totalOut == SumAmounts(ts)
    ensures s.net == s.totalIn - s.totalOut
    ensures s.net == SignedSum(ts)
    ensures AllPositive(ts) ==> (s.totalIn == 0.0 <==> forall k :: 0 <= k < |ts| ==> ts[k].direction != Incoming)
    ensures AllPositive(ts) ==> (s.totalOut == 0.0 <==> forall k :: 0 <= k < |ts| ==> ts[k].direction != Outgoing)
    ensures AllNonNegative(ts) ==> 0.0 <= s.totalIn <= SumAmounts(ts) && 0.0 <= s.totalOut <= SumAmounts(ts)
  {
    TotalsPartition(ts);
    NetIsSignedSum(ts);
    TotalsNonNegative(ts);
    Totals(TotalIn(ts), TotalOut(ts), TotalIn(ts) - TotalOut(ts))
  }
}
