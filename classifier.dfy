/**
 * Behavioural classification of wallets from their position deltas, with a
 * per-wallet noise threshold (epsilon) derived from 24 hours of history.
 */
module Classifier {
  import opened Wrappers
  import opened Sorting
  import opened Ratios
  import opened Snapshots
  import opened Aggregator

  datatype WalletState = AdderLong | AdderShort | Reducer | Flat

  function Abs(x: real): (r: real)
    ensures r >= 0.0 && (r == x || r == -x)
  {
    if x < 0.0 then -x else x
  }

  function Max(a: real, b: real): (r: real)
    ensures r >= a && r >= b && (r == a || r == b)
  {
    if a >= b then a else b
  }

  /** Absolute epsilon floor per asset; an unknown asset gets 0.01. */
  function EpsilonAbsolute(asset: string): (floor: real)
    ensures floor > 0.0
    ensures asset != "HYPE" && asset != "BTC" && asset != "ETH" ==> floor == 0.01
  {
    if asset == "HYPE" then 0.01
    else if asset == "BTC" then 0.0001
    else if asset == "ETH" then 0.001
    else 0.01
  }

  // ---------------------------------------------------------------------
  // Median

  function Neg(x: real): real {
    -x
  }

  /** Ascending order: descending by the negated value. */
  function SortAsc(xs: seq<real>): (r: seq<real>)
    ensures |r| == |xs|
    ensures forall i, j :: 0 <= i < j < |r| ==> r[i] <= r[j]
    ensures forall x :: x in r <==> x in xs
  {
    var r := SortDesc(xs, Neg);
    SortDescSameElements(xs, Neg);
    assert forall i, j :: 0 <= i < j < |r| ==> Neg(r[i]) >= Neg(r[j]);
    r
  }

  /** The middle value of the sorted data, or the mean of the two middle values for an even count. */
  function Median(xs: seq<real>): real
    requires |xs| > 0
  {
    var t := SortAsc(xs);
    var n := |t|;
    if n % 2 == 1 then t[n / 2] else (t[n / 2 - 1] + t[n / 2]) / 2.0
  }

  /** The median lies within any bounds of the data. */
  lemma MedianWithin(xs: seq<real>, lo: real, hi: real)
    requires |xs| > 0
    requires forall x :: x in xs ==> lo <= x <= hi
    ensures lo <= Median(xs) <= hi
  {
    var t := SortAsc(xs);
    assert t[|t| / 2] in xs;
    if |t| % 2 == 0 {
      assert t[|t| / 2 - 1] in xs;
    }
  }

  // ---------------------------------------------------------------------
  // Epsilon

  /** Absolute position sizes. */
  function AbsAll(xs: seq<real>): (r: seq<real>)
    ensures |r| == |xs|
    ensures forall i :: 0 <= i < |xs| ==> r[i] == Abs(xs[i])
  {
    if xs == [] then [] else [Abs(xs[0])] + AbsAll(xs[1..])
  }

  /**
   * Minimum meaningful position change of a wallet: the asset floor when
   * there is no history or its median absolute size is zero, otherwise the
   * larger of the floor and 2% of the median absolute size.
   */
  function CalculateEpsilon(asset: string, history: seq<real>): (eps: real)
    ensures eps >= EpsilonAbsolute(asset) > 0.0
    ensures history == [] ==> eps == EpsilonAbsolute(asset)
  {
    var floor := EpsilonAbsolute(asset);
    if |history| == 0 then floor
    else
      var medianSzi := Median(AbsAll(history));
      if medianSzi == 0.0 then floor
      else Max(floor, 0.02 * medianSzi)
  }

  /** With history, epsilon is exactly max(floor, 2% of the median absolute size) — the zero case included. */
  lemma {:induction false} EpsilonIsMaxOfFloorAndRelative(asset: string, history: seq<real>)
    requires history != []
    ensures CalculateEpsilon(asset, history) == Max(EpsilonAbsolute(asset), 0.02 * Median(AbsAll(history)))
  {
    var floor := EpsilonAbsolute(asset);
    var m := Median(AbsAll(history));
    if m == 0.0 {
      assert Max(floor, 0.02 * m) == floor;
    }
  }

  lemma AbsAllNonNegative(history: seq<real>)
    ensures forall x :: x in AbsAll(history) ==> x >= 0.0
  {
    var abs := AbsAll(history);
    forall x | x in abs
      ensures x >= 0.0
    {
      var i :| 0 <= i < |abs| && abs[i] == x;
    }
  }

  lemma MedianNonNegative(xs: seq<real>)
    requires |xs| > 0 && forall x :: x in xs ==> x >= 0.0
    ensures Median(xs) >= 0.0
  {
    var top := SortAsc(xs)[|xs| - 1];
    assert top in xs;
    forall x | x in xs ensures 0.0 <= x <= top {
      var t := SortAsc(xs);
      var i :| 0 <= i < |t| && t[i] == x;
    }
    MedianWithin(xs, 0.0, top);
  }

  // ---------------------------------------------------------------------
  // Classification

  /**
   * The state of a wallet from its current and previous size: no previous
   * size is Flat; otherwise the first rule that holds among Adder (Long),
   * Adder (Short) and Reducer, else Flat.
   */
  function ClassifyWallet(cur: real, prev: Option<real>, eps: real): (s: WalletState)
    ensures prev.None? ==> s == Flat
    ensures s == AdderLong <==> prev.Some? && cur - prev.value > eps && cur > 0.0
    ensures s == AdderShort <==> prev.Some? && cur - prev.value < -eps && cur < 0.0
    ensures s == Reducer <==> prev.Some? && Abs(cur) < Abs(prev.value) - eps &&
                              !(cur - prev.value > eps && cur > 0.0) && !(cur - prev.value < -eps && cur < 0.0)
  {
    if prev.None? then Flat
    else
      var delta := cur - prev.value;
      if delta > eps && cur > 0.0 then AdderLong
      else if delta < -eps && cur < 0.0 then AdderShort
      else if Abs(cur) < Abs(prev.value) - eps then Reducer
      else Flat
  }

  /** With a non-negative threshold, each state describes the actual move. */
  lemma StatesDescribeMoves(cur: real, prev: real, eps: real)
    requires eps >= 0.0
    ensures ClassifyWallet(cur, Some(prev), eps) == AdderLong ==> cur > prev && cur > 0.0
    ensures ClassifyWallet(cur, Some(prev), eps) == AdderShort ==> cur < prev && cur < 0.0
    ensures ClassifyWallet(cur, Some(prev), eps) == Reducer ==> Abs(cur) < Abs(prev)
    ensures ClassifyWallet(cur, Some(prev), eps) == Flat ==> cur - prev <= eps || cur <= 0.0
    ensures cur == prev ==> ClassifyWallet(cur, Some(prev), eps) == Flat
  {
  }

  /** A flip from a larger short to a smaller long counts as adding long, not as reducing. */
  lemma FlipIsAdderNotReducer()
    ensures ClassifyWallet(1.0, Some(-10.0), 0.01) == AdderLong
    ensures Abs(1.0) < Abs(-10.0) - 0.01
  {
  }

  /** A classified wallet. */
  datatype Classification = Classification(
    state: WalletState,
    sziCurrent: real,
    sziPrevious: Option<real>,
    deltaSzi: real,
    epsilon: real)

  /** The classification of a wallet with a delta, given its epsilon. */
  function ClassificationOf(d: DeltaInfo, eps: real): (c: Classification)
    requires d.deltaSzi.Some?
  {
    Classification(ClassifyWallet(d.sziCurrent, d.sziPrevious, eps), d.sziCurrent, d.sziPrevious, d.deltaSzi.value, eps)
  }

  /** Every wallet with a delta, classified with the epsilon of its 24-hour history. */
  function ClassifiedWallets(deltas: map<string, DeltaInfo>, asset: string, table: seq<SnapshotRow>, now: int): map<string, Classification> {
    map w | w in ValidWallets(deltas) :: ClassificationOf(deltas[w], CalculateEpsilon(asset, Fetch24hHistory(table, w, asset, now)))
  }

  /**
   * Classify every wallet that has a delta, with its epsilon computed from
   * its clean snapshots of the asset over the 24 hours before `now`.
   */
  method ClassifyWallets(deltas: map<string, DeltaInfo>, asset: string, table: seq<SnapshotRow>, now: int)
    returns (c: map<string, Classification>)
    ensures c.Keys == ValidWallets(deltas)
    ensures forall w :: w in c ==>
              c[w] == ClassificationOf(deltas[w], CalculateEpsilon(asset, Fetch24hHistory(table, w, asset, now)))
    ensures forall w :: w in c ==> c[w].epsilon >= EpsilonAbsolute(asset)
    ensures c == ClassifiedWallets(deltas, asset, table, now)
  {
    c := map[];
    var todo := deltas.Keys;
    while todo != {}
      invariant todo <= deltas.Keys
      invariant c.Keys == ValidWallets(deltas) - todo
      invariant forall w :: w in c ==>
                  c[w] == ClassificationOf(deltas[w], CalculateEpsilon(asset, Fetch24hHistory(table, w, asset, now)))
      decreases todo
    {
      var w :| w in todo;
      todo := todo - {w};
      var info := deltas[w];
      if info.deltaSzi.None? {
        continue;
      }
      var eps := CalculateEpsilon(asset, Fetch24hHistory(table, w, asset, now));
      c := c[w := ClassificationOf(info, eps)];
    }
    ClassifiedWalletsAgree(c, deltas, asset, table, now);
  }

  /** A map holding the right classification for exactly the wallets with a delta is ClassifiedWallets. */
  lemma ClassifiedWalletsAgree(c: map<string, Classification>, deltas: map<string, DeltaInfo>, asset: string,
                               table: seq<SnapshotRow>, now: int)
    requires c.Keys == ValidWallets(deltas)
    requires forall w :: w in c ==>
               c[w] == ClassificationOf(deltas[w], CalculateEpsilon(asset, Fetch24hHistory(table, w, asset, now)))
    ensures forall w :: w in c ==> c[w].epsilon >= EpsilonAbsolute(asset)
    ensures c == ClassifiedWallets(deltas, asset, table, now)
  {
  }

  // ---------------------------------------------------------------------
  // Counts and percentages

  datatype Counts = Counts(nAdderLong: nat, nAdderShort: nat, nReducer: nat, nFlat: nat, nTotal: nat)

  /** The wallets in a state. */
  function InState(c: map<string, Classification>, s: WalletState): set<string> {
    set w | w in c && c[w].state == s
  }

  /** The wallets of `among` in a state. */
  function InStateAmong(c: map<string, Classification>, s: WalletState, among: set<string>): set<string> {
    set w | w in among && w in c && c[w].state == s
  }

  /** Count of wallets per state and in total; the four states partition the wallets. */
  method AggregateClassifications(c: map<string, Classification>) returns (counts: Counts)
    ensures counts.nAdderLong == |InState(c, AdderLong)|
    ensures counts.nAdderShort == |InState(c, AdderShort)|
    ensures counts.nReducer == |InState(c, Reducer)|
    ensures counts.nFlat == |InState(c, Flat)|
    ensures counts.nTotal == |c|
    ensures counts.nAdderLong + counts.nAdderShort + counts.nReducer + counts.nFlat == counts.nTotal
  {
    var nLong, nShort, nReducer, nFlat := 0, 0, 0, 0;
    ghost var done: set<string> := {};
    var todo := c.Keys;
    while todo != {}
      invariant done <= c.Keys && todo == c.Keys - done
      invariant nLong == |InStateAmong(c, AdderLong, done)|
      invariant nShort == |InStateAmong(c, AdderShort, done)|
      invariant nReducer == |InStateAmong(c, Reducer, done)|
      invariant nFlat == |InStateAmong(c, Flat, done)|
      invariant nLong + nShort + nReducer + nFlat == |done|
      decreases todo
    {
      var w :| w in todo;
      CountSteps(c, done, w);
      var s := c[w].state;
      if s == AdderLong {
        nLong := nLong + 1;
      } else if s == AdderShort {
        nShort := nShort + 1;
      } else if s == Reducer {
        nReducer := nReducer + 1;
      } else if s == Flat {
        nFlat := nFlat + 1;
      }
      todo := todo - {w};
      done := done + {w};
    }
    CountsComplete(c, done);
    counts := Counts(nLong, nShort, nReducer, nFlat, |c|);
  }

  lemma CountSteps(c: map<string, Classification>, done: set<string>, w: string)
    requires w in c && w !in done
    ensures |InStateAmong(c, AdderLong, done + {w})| == |InStateAmong(c, AdderLong, done)| + (if c[w].state == AdderLong then 1 else 0)
    ensures |InStateAmong(c, AdderShort, done + {w})| == |InStateAmong(c, AdderShort, done)| + (if c[w].state == AdderShort then 1 else 0)
    ensures |InStateAmong(c, Reducer, done + {w})| == |InStateAmong(c, Reducer, done)| + (if c[w].state == Reducer then 1 else 0)
    ensures |InStateAmong(c, Flat, done + {w})| == |InStateAmong(c, Flat, done)| + (if c[w].state == Flat then 1 else 0)
    ensures |done + {w}| == |done| + 1
  {
    CountStep(c, done, w, AdderLong);
    CountStep(c, done, w, AdderShort);
    CountStep(c, done, w, Reducer);
    CountStep(c, done, w, Flat);
  }

  lemma CountStep(c: map<string, Classification>, done: set<string>, w: string, s: WalletState)
    requires w in c && w !in done
    ensures |InStateAmong(c, s, done + {w})| == |InStateAmong(c, s, done)| + (if c[w].state == s then 1 else 0)
  {
    if c[w].state == s {
      assert InStateAmong(c, s, done + {w}) == InStateAmong(c, s, done) + {w};
    } else {
      assert InStateAmong(c, s, done + {w}) == InStateAmong(c, s, done);
    }
  }

  lemma CountsComplete(c: map<string, Classification>, done: set<string>)
    requires done == c.Keys
    ensures InStateAmong(c, AdderLong, done) == InState(c, AdderLong)
    ensures InStateAmong(c, AdderShort, done) == InState(c, AdderShort)
    ensures InStateAmong(c, Reducer, done) == InState(c, Reducer)
    ensures InStateAmong(c, Flat, done) == InState(c, Flat)
    ensures |done| == |c|
  {
  }

  datatype Percentages = Percentages(pctAddLong: real, pctAddShort: real, pctReducers: real, pctFlat: real)

  /** Share of wallets per state in percent; all zero when no wallet was classified. */
  function GetWalletPercentages(counts: Counts): (p: Percentages)
    ensures counts.nTotal == 0 ==> p == Percentages(0.0, 0.0, 0.0, 0.0)
    ensures counts.nTotal > 0 ==> p.pctAddLong * counts.nTotal as real == counts.nAdderLong as real * 100.0
    ensures counts.nTotal > 0 ==> p.pctAddShort * counts.nTotal as real == counts.nAdderShort as real * 100.0
    ensures counts.nTotal > 0 ==> p.pctReducers * counts.nTotal as real == counts.nReducer as real * 100.0
    ensures counts.nTotal > 0 ==> p.pctFlat * counts.nTotal as real == counts.nFlat as real * 100.0
  {
    if counts.nTotal == 0 then Percentages(0.0, 0.0, 0.0, 0.0)
    else Percentages(Percent(counts.nAdderLong, counts.nTotal), Percent(counts.nAdderShort, counts.nTotal),
                     Percent(counts.nReducer, counts.nTotal), Percent(counts.nFlat, counts.nTotal))
  }

  /** For counts that partition their total, each share is a percentage and the shares add up to 100. */
  lemma PercentagesPartition(counts: Counts)
    requires counts.nTotal > 0
    requires counts.nAdderLong + counts.nAdderShort + counts.nReducer + counts.nFlat == counts.nTotal
    ensures var p := GetWalletPercentages(counts);
            p.pctAddLong + p.pctAddShort + p.pctReducers + p.pctFlat == 100.0 &&
            0.0 <= p.pctAddLong <= 100.0 && 0.0 <= p.pctAddShort <= 100.0 &&
            0.0 <= p.pctReducers <= 100.0 && 0.0 <= p.pctFlat <= 100.0
  {
    PercentsAddUp(counts.nAdderLong, counts.nAdderShort, counts.nReducer, counts.nFlat, counts.nTotal);
    PercentBounds(counts.nAdderLong, counts.nTotal);
    PercentBounds(counts.nAdderShort, counts.nTotal);
    PercentBounds(counts.nReducer, counts.nTotal);
    PercentBounds(counts.nFlat, counts.nTotal);
  }
}
