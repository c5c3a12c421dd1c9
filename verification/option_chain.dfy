/**
  The option-chain values the dashboard works on, the strike band around a
  spot price, the expiry/band filter over the chain and the split of the kept
  rows into their call and put quotes.

  Every sequence function here is defined by taking off the last element
  (`init + [last]`). The result keeps the input's order, as a list
  comprehension's does, and this form makes the "position i of the input lands
  at position k of the output" lemmas direct.
 */
module OptionChain {

  datatype Option<+T> = None | Some(value: T)

  /** The quote of one side (call or put) of one strike: last traded price,
      open interest and change in open interest. The filter never looks
      inside it; it is only carried through. */
  datatype Quote = Quote(lastPrice: real, openInterest: int, changeInOpenInterest: int)

  /** One row of the option chain: a strike for one expiry, with its call
      (`CE`) and put (`PE`) quotes when the exchange lists that side. */
  datatype Entry = Entry(strikePrice: real, expiryDate: string, ce: Option<Quote>, pe: Option<Quote>)

  datatype Side = Call | Put

  /** The quote of the given side of a row, if the row has that side. */
  function Leg(e: Entry, side: Side): Option<Quote>
  {
    match side
    case Call => e.ce
    case Put => e.pe
  }

  /** An inclusive price interval [lower, upper]. */
  datatype Band = Band(lower: real, upper: real)

  predicate InBand(b: Band, x: real)
  {
    b.lower <= x <= b.upper
  }

  /** The band of `pct` percent either side of `spot`. It contains the spot
      price exactly when spot and pct do not have opposite signs, it is
      centred on the spot price, and a zero percentage collapses it to the
      spot price itself. */
  function BandAround(spot: real, pct: real): (b: Band)
    ensures spot >= 0.0 && pct >= 0.0 ==> b.lower <= spot <= b.upper
    ensures b.lower <= spot <==> spot * pct >= 0.0
    ensures spot <= b.upper <==> spot * pct >= 0.0
    ensures b.lower <= b.upper <==> spot * pct >= 0.0
    ensures spot - b.lower == b.upper - spot
    ensures pct == 0.0 ==> b.lower == spot && b.upper == spot
  {
    var half := spot * pct / 100.0;
    assert spot * (1.0 - pct / 100.0) == spot - half;
    assert spot * (1.0 + pct / 100.0) == spot + half;
    Band(spot * (1.0 - pct / 100.0), spot * (1.0 + pct / 100.0))
  }

  /** The filter's condition on one row: it is for the chosen expiry and
      its strike lies inside the band. */
  predicate Keep(e: Entry, expiry: string, b: Band)
  {
    e.expiryDate == expiry && InBand(b, e.strikePrice)
  }

  /** The rows of `chain` that meet `Keep`, in chain order. */
  function FilterChain(chain: seq<Entry>, expiry: string, b: Band): (r: seq<Entry>)
    ensures |r| <= |chain|
    ensures forall e :: e in r <==> e in chain && Keep(e, expiry, b)
  {
    if chain == [] then []
    else
      var init := chain[..|chain| - 1];
      var last := chain[|chain| - 1];
      assert chain == init + [last];
      var kept := FilterChain(init, expiry, b);
      if Keep(last, expiry, b) then kept + [last] else kept
  }

  /** The quotes of the given side of `entries`, in order, skipping the rows
      that do not list that side. */
  function LegsOf(entries: seq<Entry>, side: Side): (r: seq<Quote>)
    ensures |r| <= |entries|
    ensures forall q :: q in r <==> exists e :: e in entries && Leg(e, side) == Some(q)
  {
    if entries == [] then []
    else
      var init := entries[..|entries| - 1];
      var last := entries[|entries| - 1];
      assert entries == init + [last];
      var legs := LegsOf(init, side);
      match Leg(last, side)
      case Some(q) => legs + [q]
      case None => legs
  }

  /** `idx` lists positions below `n` in strictly increasing order (so
      without repetition). */
  ghost predicate IncreasingBelow(idx: seq<nat>, n: nat)
  {
    && (forall k :: 0 <= k < |idx| ==> idx[k] < n)
    && (forall k, l :: 0 <= k < l < |idx| ==> idx[k] < idx[l])
  }

  /** The positions of the rows of `chain` that meet `Keep`, in increasing
      order: exactly those positions and no others. */
  ghost function KeptPositions(chain: seq<Entry>, expiry: string, b: Band): (idx: seq<nat>)
    ensures IncreasingBelow(idx, |chain|)
    ensures forall i :: 0 <= i < |chain| ==> (i in idx <==> Keep(chain[i], expiry, b))
  {
    if chain == [] then []
    else
      var n := |chain| - 1;
      var init := KeptPositions(chain[..n], expiry, b);
      if Keep(chain[n], expiry, b) then init + [n] else init
  }

  /** The positions of the rows of `entries` that list the given side, in
      increasing order: exactly those positions and no others. */
  ghost function LegPositions(entries: seq<Entry>, side: Side): (idx: seq<nat>)
    ensures IncreasingBelow(idx, |entries|)
    ensures forall i :: 0 <= i < |entries| ==> (i in idx <==> Leg(entries[i], side).Some?)
  {
    if entries == [] then []
    else
      var n := |entries| - 1;
      var init := LegPositions(entries[..n], side);
      if Leg(entries[n], side).Some? then init + [n] else init
  }

  /** `r` is the rows of `chain` at the positions `idx`, in that order. */
  ghost predicate RowsAt(r: seq<Entry>, chain: seq<Entry>, idx: seq<nat>)
  {
    |r| == |idx| && forall k :: 0 <= k < |idx| ==> idx[k] < |chain| && r[k] == chain[idx[k]]
  }

  /** `r` is the quotes of the given side of the rows of `entries` at the
      positions `idx`, in that order. */
  ghost predicate LegsAt(r: seq<Quote>, entries: seq<Entry>, side: Side, idx: seq<nat>)
  {
    |r| == |idx| && forall k :: 0 <= k < |idx| ==> idx[k] < |entries| && Leg(entries[idx[k]], side) == Some(r[k])
  }

  /** Order preservation and completeness of the filter: its k-th row is the
      chain's row at the k-th kept position, so the result is the
      subsequence of the chain made of exactly the kept rows, each taken once. */
  lemma {:induction false} FilterIsKeptSubsequence(chain: seq<Entry>, expiry: string, b: Band)
    ensures RowsAt(FilterChain(chain, expiry, b), chain, KeptPositions(chain, expiry, b))
  {
    if chain != [] {
      var n := |chain| - 1;
      FilterIsKeptSubsequence(chain[..n], expiry, b);
    }
  }

  /** The split of one side is a projection: its k-th quote is that side of
      the row at the k-th position listing it. */
  lemma {:induction false} LegsAreProjection(entries: seq<Entry>, side: Side)
    ensures LegsAt(LegsOf(entries, side), entries, side, LegPositions(entries, side))
  {
    if entries != [] {
      var n := |entries| - 1;
      var init := entries[..n];
      LegsAreProjection(init, side);
      var idx, legs := LegPositions(init, side), LegsOf(init, side);
      assert entries == init + [entries[n]];
      forall k | 0 <= k < |idx|
        ensures Leg(entries[idx[k]], side) == Some(legs[k])
      {
        assert entries[idx[k]] == init[idx[k]];
      }
    }
  }

  /** No row is duplicated or dropped: a kept row occurs in the result as
      often as in the chain, any other row not at all. */
  lemma {:induction false} FilterCount(chain: seq<Entry>, expiry: string, b: Band, e: Entry)
    ensures multiset(FilterChain(chain, expiry, b))[e] ==
              if Keep(e, expiry, b) then multiset(chain)[e] else 0
  {
    if chain != [] {
      var n := |chain| - 1;
      assert chain == chain[..n] + [chain[n]];
      FilterCount(chain[..n], expiry, b, e);
    }
  }

  /** Filtering distributes over concatenation of chains. */
  lemma {:induction false} FilterAppend(a: seq<Entry>, c: seq<Entry>, expiry: string, b: Band)
    ensures FilterChain(a + c, expiry, b) == FilterChain(a, expiry, b) + FilterChain(c, expiry, b)
  {
    if c == [] {
      assert a + c == a;
    } else {
      var n := |c| - 1;
      assert (a + c)[..|a + c| - 1] == a + c[..n];
      FilterAppend(a, c[..n], expiry, b);
    }
  }

  /** A chain whose rows all meet the condition passes the filter unchanged. */
  lemma {:induction false} FilterKeepsAllKept(chain: seq<Entry>, expiry: string, b: Band)
    requires forall e :: e in chain ==> Keep(e, expiry, b)
    ensures FilterChain(chain, expiry, b) == chain
  {
    if chain != [] {
      var n := |chain| - 1;
      assert chain == chain[..n] + [chain[n]];
      FilterKeepsAllKept(chain[..n], expiry, b);
    }
  }

  /** Filtering twice with the same expiry and band is filtering once. */
  lemma {:induction false} FilterIdempotent(chain: seq<Entry>, expiry: string, b: Band)
    ensures FilterChain(FilterChain(chain, expiry, b), expiry, b) == FilterChain(chain, expiry, b)
  {
    FilterKeepsAllKept(FilterChain(chain, expiry, b), expiry, b);
  }

  /** The number of quotes of one side is the number of rows listing it. */
  lemma {:induction false} LegsCount(entries: seq<Entry>, side: Side)
    ensures |LegsOf(entries, side)| == |set i | 0 <= i < |entries| && Leg(entries[i], side).Some?|
  {
    LegsAreProjection(entries, side);
    var idx := LegPositions(entries, side);
    var s := set i | 0 <= i < |entries| && Leg(entries[i], side).Some?;
    assert s == set k | 0 <= k < |idx| :: idx[k];
    DistinctCardinality(idx);
  }

  /** A sequence of distinct naturals has as many elements as its set. */
  lemma {:induction false} DistinctCardinality(idx: seq<nat>)
    requires forall k, l :: 0 <= k < l < |idx| ==> idx[k] < idx[l]
    ensures |set k | 0 <= k < |idx| :: idx[k]| == |idx|
  {
    if idx != [] {
      var n := |idx| - 1;
      DistinctCardinality(idx[..n]);
      var s := set k | 0 <= k < n :: idx[..n][k];
      assert (set k | 0 <= k < |idx| :: idx[k]) == s + {idx[n]};
      assert idx[n] !in s;
    }
  }

  /** With a zero percentage a row survives exactly when it is for the chosen
      expiry and its strike equals the spot price. */
  lemma ZeroRangeKeepsOnlySpotStrike(chain: seq<Entry>, expiry: string, spot: real)
    ensures forall e :: e in FilterChain(chain, expiry, BandAround(spot, 0.0)) <==>
              e in chain && e.expiryDate == expiry && e.strikePrice == spot
  {
  }
}
