/**
 * The four core signals of an asset for one period: Consensus Alignment
 * Score (CAS), alignment trend, Dispersion Index and Exit Cluster Score.
 */
module SignalCore {
  import opened Wrappers
  import opened Ratios
  import Classifier

  datatype Trend = Rising | Flat | Falling

  function Min(a: real, b: real): (r: real)
    ensures r <= a && r <= b && (r == a || r == b)
  {
    if a <= b then a else b
  }

  // ---------------------------------------------------------------------
  // Consensus Alignment Score

  /**
   * 50 plus half the net share of long adders over short adders, capped at
   * 60 when the exit cluster exceeds 25, bounded to [0, 100]; 50 without
   * wallets.
   */
  function ComputeCas(nAdderLong: nat, nAdderShort: nat, nTotal: nat, exitClusterScore: real): (cas: real)
    ensures 0.0 <= cas <= 100.0
    ensures nTotal == 0 ==> cas == 50.0
    ensures exitClusterScore > 25.0 ==> cas <= 60.0
  {
    if nTotal == 0 then 50.0
    else
      var raw := 50.0 + (nAdderLong as real - nAdderShort as real) / nTotal as real * 50.0;
      var penalised := if exitClusterScore > 25.0 then Min(raw, 60.0) else raw;
      Classifier.Max(0.0, Min(100.0, penalised))
  }

  /** Balanced adders give the neutral score 50, whatever the exit cluster. */
  lemma CasBalancedIsNeutral(n: nat, nTotal: nat, exitClusterScore: real)
    ensures ComputeCas(n, n, nTotal, exitClusterScore) == 50.0
  {
  }

  /** All wallets adding long scores 100 (without penalty); all adding short scores 0. */
  lemma CasExtremes(nTotal: nat, exitClusterScore: real)
    requires nTotal > 0
    ensures exitClusterScore <= 25.0 ==> ComputeCas(nTotal, 0, nTotal, exitClusterScore) == 100.0
    ensures ComputeCas(0, nTotal, nTotal, exitClusterScore) == 0.0
  {
    var n := nTotal as real;
    assert n / n == 1.0;
    assert (0.0 - n) / n == -1.0;
  }

  /** More long adders never lower the score. */
  lemma CasMonotoneInLongAdders(a: nat, b: nat, nShort: nat, nTotal: nat, exitClusterScore: real)
    requires a <= b
    ensures ComputeCas(a, nShort, nTotal, exitClusterScore) <= ComputeCas(b, nShort, nTotal, exitClusterScore)
  {
    if nTotal > 0 {
      var n := nTotal as real;
      var x, y := a as real - nShort as real, b as real - nShort as real;
      assert x <= y;
      assert x / n <= y / n by {
        assert (y - x) / n >= 0.0;
        assert y / n - x / n == (y - x) / n;
      }
    }
  }

  /** 12 long and 2 short adders of 20 wallets, no exit cluster: CAS 75. */
  lemma CasExample()
    ensures ComputeCas(12, 2, 20, 10.0) == 75.0
  {
  }

  // ---------------------------------------------------------------------
  // Alignment trend

  /**
   * The trend of the current CAS against the average of up to three past
   * values (newest first): flat with fewer than three, otherwise rising or
   * falling when it leaves the band of 5 around the average.
   */
  function ComputeAlignmentTrend(currentCas: real, historicalCas: seq<real>): (t: Trend)
    ensures |historicalCas| < 3 ==> t == Flat
    ensures |historicalCas| >= 3 ==>
              var avg := Sum(historicalCas) / |historicalCas| as real;
              (t == Rising <==> currentCas > avg + 5.0) &&
              (t == Falling <==> currentCas < avg - 5.0) &&
              (t == Flat <==> avg - 5.0 <= currentCas <= avg + 5.0)
  {
    if |historicalCas| < 3 then Flat
    else
      var avg := Sum(historicalCas) / |historicalCas| as real;
      if currentCas > avg + 5.0 then Rising
      else if currentCas < avg - 5.0 then Falling
      else Flat
  }

  function Sum(xs: seq<real>): real {
    if xs == [] then 0.0 else xs[0] + Sum(xs[1..])
  }

  /** A CAS equal to the recent average is flat, and a constant history needs a move of more than 5. */
  lemma TrendDeadZone(v: real, d: real)
    ensures ComputeAlignmentTrend(v, [v, v, v]) == Flat
    ensures ComputeAlignmentTrend(v + d, [v, v, v]) == Rising <==> d > 5.0
    ensures ComputeAlignmentTrend(v + d, [v, v, v]) == Falling <==> d < -5.0
  {
    assert Sum([v]) == v by {
      assert [v][1..] == [];
    }
    assert Sum([v, v]) == 2.0 * v by {
      assert [v, v][1..] == [v];
    }
    assert Sum([v, v, v]) == 3.0 * v by {
      assert [v, v, v][1..] == [v, v];
    }
  }

  // ---------------------------------------------------------------------
  // Dispersion Index

  /** `max(-2, min(2, x))`. */
  function Clamp(x: real): (r: real)
    ensures -2.0 <= r <= 2.0
    ensures -2.0 <= x <= 2.0 ==> r == x
  {
    Classifier.Max(-2.0, Min(2.0, x))
  }

  /** A wallet's relative change, clamped to [-2, 2]; None without a previous size. */
  function RatioOf(c: Classifier.Classification): (r: Option<real>)
    requires c.epsilon > 0.0
    ensures r.Some? <==> c.sziPrevious.Some?
    ensures r.Some? ==> -2.0 <= r.value <= 2.0
  {
    if c.sziPrevious.None? then None
    else
      var denominator := Classifier.Max(Classifier.Abs(c.sziPrevious.value), c.epsilon);
      Some(Clamp(c.deltaSzi / denominator))
  }

  predicate AllSame(xs: seq<real>) {
    forall i :: 0 <= i < |xs| ==> xs[i] == xs[0]
  }

  /**
   * Dispersion of a list of ratios: 50 for fewer than five, 0 when all are
   * identical, otherwise 100 times the sample deviation, capped at 100.
   */
  function DispersionOf(ratios: seq<real>, stdev: seq<real> -> real): (di: real)
    requires forall xs :: stdev(xs) >= 0.0
    ensures 0.0 <= di <= 100.0
    ensures |ratios| < 5 ==> di == 50.0
    ensures |ratios| >= 5 && AllSame(ratios) ==> di == 0.0
  {
    if |ratios| < 5 then 50.0
    else if AllSame(ratios) then 0.0
    else Min(stdev(ratios) * 100.0, 100.0)
  }

  /** Wallets that contribute a ratio. */
  function RatioWallets(c: map<string, Classifier.Classification>): set<string> {
    set w | w in c && c[w].sziPrevious.Some?
  }

  predicate PositiveEpsilons(c: map<string, Classifier.Classification>) {
    forall w :: w in c ==> c[w].epsilon > 0.0
  }

  /** `x` is the ratio of some contributing wallet. */
  ghost predicate RatioOfSomeWallet(c: map<string, Classifier.Classification>, x: real)
    requires PositiveEpsilons(c)
  {
    exists w :: w in RatioWallets(c) && RatioOf(c[w]) == Some(x)
  }

  /** The contributing wallets whose ratio is `x`. */
  ghost function RatioHolders(c: map<string, Classifier.Classification>, among: set<string>, x: real): set<string>
    requires PositiveEpsilons(c)
  {
    set w | w in among && w in c && c[w].sziPrevious.Some? && RatioOf(c[w]) == Some(x)
  }

  /** `rs` holds each value as often as contributing wallets (among `among`) have it as their ratio. */
  ghost predicate RatiosOf(c: map<string, Classifier.Classification>, among: set<string>, rs: seq<real>)
    requires PositiveEpsilons(c)
  {
    forall x :: multiset(rs)[x] == |RatioHolders(c, among, x)|
  }

  /**
   * The Dispersion Index of the classified wallets: computed from one
   * clamped ratio per wallet with a previous size (in map iteration order).
   * `stdev` is the sample standard deviation.
   */
  method ComputeDispersionIndex(c: map<string, Classifier.Classification>, stdev: seq<real> -> real)
    returns (di: real, ghost ratios: seq<real>)
    requires PositiveEpsilons(c)
    requires forall xs :: stdev(xs) >= 0.0
    ensures di == DispersionOf(ratios, stdev)
    ensures RatiosOf(c, c.Keys, ratios)
    ensures |ratios| == |RatioWallets(c)|
    ensures forall i :: 0 <= i < |ratios| ==> RatioOfSomeWallet(c, ratios[i])
    ensures forall w :: w in RatioWallets(c) ==> RatioOf(c[w]).value in ratios
    ensures 0.0 <= di <= 100.0
    ensures |RatioWallets(c)| < 5 ==> di == 50.0
  {
    var rs := CollectRatios(c);
    ratios := rs;
    if |rs| < 5 {
      di := 50.0;
    } else if AllSame(rs) {
      di := 0.0;
    } else {
      di := Min(stdev(rs) * 100.0, 100.0);
    }
  }

  /** One clamped ratio per wallet with a previous size. */
  method CollectRatios(c: map<string, Classifier.Classification>) returns (rs: seq<real>)
    requires PositiveEpsilons(c)
    ensures RatiosOf(c, c.Keys, rs)
    ensures |rs| == |RatioWallets(c)|
    ensures forall i :: 0 <= i < |rs| ==> RatioOfSomeWallet(c, rs[i])
    ensures forall w :: w in RatioWallets(c) ==> RatioOf(c[w]).value in rs
  {
    rs := [];
    ghost var owner: seq<string> := [];
    ghost var done: set<string> := {};
    var todo := c.Keys;
    while todo != {}
      invariant todo !! done && todo + done == c.Keys
      invariant Collected(c, done, rs, owner)
      invariant RatiosOf(c, done, rs)
      decreases todo
    {
      var w :| w in todo;
      var ratio := RatioOf(c[w]);
      CollectStep(c, done, rs, owner, w);
      BagStep(c, done, rs, w);
      if ratio.Some? {
        rs := rs + [ratio.value];
        owner := owner + [w];
      }
      todo := todo - {w};
      done := done + {w};
    }
    assert RatioWalletsAmong(c, done) == RatioWallets(c);
    OwnersCoverRatios(c, rs, owner);
  }

  /** The loop's invariant: one ratio per contributing wallet seen so far, each paired with its wallet. */
  ghost predicate Collected(c: map<string, Classifier.Classification>, done: set<string>, rs: seq<real>, owner: seq<string>)
    requires PositiveEpsilons(c)
  {
    && |rs| == |owner| == |RatioWalletsAmong(c, done)|
    && (forall i :: 0 <= i < |rs| ==> owner[i] in RatioWallets(c) && RatioOf(c[owner[i]]) == Some(rs[i]))
    && (forall v :: v in RatioWalletsAmong(c, done) ==> v in owner)
  }

  /** Visiting one more wallet keeps the invariant. */
  lemma CollectStep(c: map<string, Classifier.Classification>, done: set<string>, rs: seq<real>, owner: seq<string>, w: string)
    requires PositiveEpsilons(c)
    requires w in c && w !in done
    requires Collected(c, done, rs, owner)
    ensures RatioOf(c[w]).Some? ==> Collected(c, done + {w}, rs + [RatioOf(c[w]).value], owner + [w])
    ensures RatioOf(c[w]).None? ==> Collected(c, done + {w}, rs, owner)
  {
    RatioStep(c, done, w);
    var ratio := RatioOf(c[w]);
    if ratio.Some? {
      assert w !in RatioWalletsAmong(c, done);
      var rs', owner' := rs + [ratio.value], owner + [w];
      forall i | 0 <= i < |rs'|
        ensures owner'[i] in RatioWallets(c) && RatioOf(c[owner'[i]]) == Some(rs'[i])
      {
        if i < |rs| {
          assert owner'[i] == owner[i] && rs'[i] == rs[i];
        }
      }
    }
  }

  /** Visiting one more wallet adds its ratio, if any, to the bag once. */
  lemma BagStep(c: map<string, Classifier.Classification>, done: set<string>, rs: seq<real>, w: string)
    requires PositiveEpsilons(c)
    requires w in c && w !in done
    requires RatiosOf(c, done, rs)
    ensures RatioOf(c[w]).Some? ==> RatiosOf(c, done + {w}, rs + [RatioOf(c[w]).value])
    ensures RatioOf(c[w]).None? ==> RatiosOf(c, done + {w}, rs)
  {
    var ratio := RatioOf(c[w]);
    if ratio.Some? {
      var rs' := rs + [ratio.value];
      forall x
        ensures multiset(rs')[x] == |RatioHolders(c, done + {w}, x)|
      {
        if x == ratio.value {
          assert RatioHolders(c, done + {w}, x) == RatioHolders(c, done, x) + {w};
        } else {
          assert RatioHolders(c, done + {w}, x) == RatioHolders(c, done, x);
        }
      }
    } else {
      forall x
        ensures multiset(rs)[x] == |RatioHolders(c, done + {w}, x)|
      {
        assert RatioHolders(c, done + {w}, x) == RatioHolders(c, done, x);
      }
    }
  }

  /**
   * With a deviation that does not depend on the order of its inputs, the
   * Dispersion Index does not depend on the order the ratios were collected in.
   */
  lemma {:induction false} DispersionIndependentOfOrder(c: map<string, Classifier.Classification>, rs1: seq<real>, rs2: seq<real>,
                                                        stdev: seq<real> -> real)
    requires PositiveEpsilons(c)
    requires forall xs :: stdev(xs) >= 0.0
    requires forall xs, ys :: multiset(xs) == multiset(ys) ==> stdev(xs) == stdev(ys)
    requires RatiosOf(c, c.Keys, rs1) && RatiosOf(c, c.Keys, rs2)
    ensures DispersionOf(rs1, stdev) == DispersionOf(rs2, stdev)
  {
    forall x
      ensures multiset(rs1)[x] == multiset(rs2)[x]
    {
      assert multiset(rs1)[x] == |RatioHolders(c, c.Keys, x)|;
    }
    assert multiset(rs1) == multiset(rs2);
    assert |rs1| == |multiset(rs1)| == |rs2|;
    if AllSame(rs1) {
      SameBagAllSame(rs1, rs2);
    } else if AllSame(rs2) {
      SameBagAllSame(rs2, rs1);
    }
  }

  /** Being all equal is a property of the multiset of values. */
  lemma SameBagAllSame(xs: seq<real>, ys: seq<real>)
    requires multiset(xs) == multiset(ys)
    requires AllSame(xs)
    ensures AllSame(ys)
  {
    if |ys| > 0 {
      assert ys[0] in multiset(xs);
      forall i | 0 <= i < |ys|
        ensures ys[i] == ys[0]
      {
        assert ys[i] in multiset(xs);
      }
    }
  }

  /** Ratios paired with the wallets they came from, covering every contributing wallet. */
  lemma OwnersCoverRatios(c: map<string, Classifier.Classification>, rs: seq<real>, owner: seq<string>)
    requires PositiveEpsilons(c)
    requires |rs| == |owner|
    requires forall i :: 0 <= i < |rs| ==> owner[i] in RatioWallets(c) && RatioOf(c[owner[i]]) == Some(rs[i])
    requires forall w :: w in RatioWallets(c) ==> w in owner
    ensures forall i :: 0 <= i < |rs| ==> RatioOfSomeWallet(c, rs[i])
    ensures forall w :: w in RatioWallets(c) ==> RatioOf(c[w]).value in rs
  {
    forall w | w in RatioWallets(c)
      ensures RatioOf(c[w]).value in rs
    {
      var i :| 0 <= i < |owner| && owner[i] == w;
      assert rs[i] == RatioOf(c[w]).value;
    }
    forall i | 0 <= i < |rs|
      ensures RatioOfSomeWallet(c, rs[i])
    {
      var w := owner[i];
      assert w in RatioWallets(c) && RatioOf(c[w]) == Some(rs[i]);
    }
  }

  function RatioWalletsAmong(c: map<string, Classifier.Classification>, among: set<string>): set<string> {
    set w | w in among && w in c && c[w].sziPrevious.Some?
  }

  lemma RatioStep(c: map<string, Classifier.Classification>, done: set<string>, w: string)
    requires w in c && w !in done
    ensures c[w].sziPrevious.Some? ==> RatioWalletsAmong(c, done + {w}) == RatioWalletsAmong(c, done) + {w}
    ensures c[w].sziPrevious.None? ==> RatioWalletsAmong(c, done + {w}) == RatioWalletsAmong(c, done)
  {
  }

  /** When every contributing wallet moved by the same ratio, five or more of them give dispersion 0. */
  lemma UniformMovesHaveNoDispersion(c: map<string, Classifier.Classification>, ratios: seq<real>, stdev: seq<real> -> real, r: real)
    requires PositiveEpsilons(c)
    requires forall xs :: stdev(xs) >= 0.0
    requires |ratios| >= 5
    requires forall i :: 0 <= i < |ratios| ==> RatioOfSomeWallet(c, ratios[i])
    requires forall w :: w in RatioWallets(c) ==> RatioOf(c[w]) == Some(r)
    ensures DispersionOf(ratios, stdev) == 0.0
  {
    assert forall i :: 0 <= i < |ratios| ==> ratios[i] == r;
  }

  // ---------------------------------------------------------------------
  // Exit Cluster Score

  /** Share of reducers among the wallets, in percent; 0 without wallets. */
  function ComputeExitClusterScore(nReducer: nat, nTotal: nat): (ec: real)
    ensures nTotal == 0 ==> ec == 0.0
    ensures nTotal > 0 ==> ec == Percent(nReducer, nTotal)
  {
    if nTotal == 0 then 0.0 else Percent(nReducer, nTotal)
  }

  /** The score is a percentage, and it exceeds 25 exactly when reducers are more than a quarter of the wallets. */
  lemma ExitClusterMeaning(nReducer: nat, nTotal: nat)
    requires nReducer <= nTotal
    ensures 0.0 <= ComputeExitClusterScore(nReducer, nTotal) <= 100.0
    ensures ComputeExitClusterScore(nReducer, nTotal) > 25.0 <==> 4 * nReducer > nTotal
  {
    if nTotal > 0 {
      PercentBounds(nReducer, nTotal);
      PercentAboveQuarter(nReducer, nTotal);
    }
  }

  // ---------------------------------------------------------------------
  // All signals

  datatype CoreSignals = CoreSignals(alignmentScore: real, alignmentTrend: Trend, dispersionIndex: real, exitClusterScore: real)

  /**
   * The four signals, exit cluster first because the CAS penalty depends on
   * it; `historicalCas` are the asset's latest stored CAS values, newest first.
   */
  method ComputeAllSignals(counts: Classifier.Counts, c: map<string, Classifier.Classification>,
                           historicalCas: seq<real>, stdev: seq<real> -> real)
    returns (s: CoreSignals, ghost ratios: seq<real>)
    requires PositiveEpsilons(c)
    requires forall xs :: stdev(xs) >= 0.0
    ensures s.exitClusterScore == ComputeExitClusterScore(counts.nReducer, counts.nTotal)
    ensures s.alignmentScore == ComputeCas(counts.nAdderLong, counts.nAdderShort, counts.nTotal, s.exitClusterScore)
    ensures s.alignmentTrend == ComputeAlignmentTrend(s.alignmentScore, historicalCas)
    ensures 0.0 <= s.alignmentScore <= 100.0 && 0.0 <= s.dispersionIndex <= 100.0
    ensures |RatioWallets(c)| < 5 ==> s.dispersionIndex == 50.0
    ensures RatiosOf(c, c.Keys, ratios) && s.dispersionIndex == DispersionOf(ratios, stdev)
  {
    var ec := ComputeExitClusterScore(counts.nReducer, counts.nTotal);
    var cas := ComputeCas(counts.nAdderLong, counts.nAdderShort, counts.nTotal, ec);
    var trend := ComputeAlignmentTrend(cas, historicalCas);
    var di;
    di, ratios := ComputeDispersionIndex(c, stdev);
    s := CoreSignals(cas, trend, di, ec);
  }
}
