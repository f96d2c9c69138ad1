/** The verdict of the change-point detector, read off an asset's own values. */
module AtlasVerdict {
  import opened Prelude
  import opened Atlas
  import KS = TwoSampleKS

  /** The sample standard deviation of the values, 0 for a single one. */
  function Deviation(cfg: Config, xs: seq<real>): real
    requires xs != []
  {
    if |xs| == 1 then 0.0 else cfg.sqrt(SquaredDev(xs, Mean(xs)) / (|xs| - 1) as real)
  }

  function CusumLimit(cfg: Config, xs: seq<real>): real
    requires xs != []
  {
    cfg.cusumThreshold * Deviation(cfg, xs) + cfg.cusumK
  }

  /** Some suffix sum above the slack exceeds the limit, or some suffix sum below it is under the negative of
      the limit. */
  ghost predicate SumsExceed(cfg: Config, xs: seq<real>)
    requires xs != []
  {
    exists j: nat :: j <= |xs| && SumExceeds(xs, cfg.cusumK, CusumLimit(cfg, xs), j)
  }

  predicate SumExceeds(xs: seq<real>, slack: real, limit: real, j: nat)
    requires j <= |xs|
  {
    SuffixSum(xs, slack, j) > limit || SuffixSum(xs, -slack, j) < -limit
  }

  /** The mean exceeds the mean of some prefix by more than five times the delta. */
  ghost predicate MeanDrifted(cfg: Config, xs: seq<real>) {
    exists j: nat :: 1 <= j <= |xs| && Mean(xs) - Mean(xs[..j]) > 5.0 * cfg.phDelta
  }

  /** The distance of the two full blocks of W values just before the last one, where a block has just been
      filled and another one was before it, and 0 elsewhere. */
  function BlockDistance(w: nat, xs: seq<real>): real
    requires xs != [] && w >= 1
  {
    var n := |xs|;
    if n >= 2 * w + 1 && (n - 1) % w == 0 then KS.KS(xs[n - 1 - 2 * w..n - 1 - w], xs[n - 1 - w..n - 1]) else 0.0
  }

  lemma AlarmIs(cfg: Config, xs: seq<real>)
    requires xs != []
    ensures var st := Fold(cfg, xs);
      CusumFired(cfg, st) <==> st.cusumPos > CusumLimit(cfg, xs) || st.cusumNeg < -CusumLimit(cfg, xs)
  {
    MeansRefined(cfg, xs);
    VarianceRefined(cfg, xs);
    hide Fold;
  }

  lemma ExtremesDecide(xs: seq<real>, slack: real, pos: real, neg: real, limit: real)
    requires LargestSuffixSum(xs, slack, pos) && SmallestSuffixSum(xs, -slack, neg)
    ensures pos > limit || neg < -limit <==>
      exists j: nat :: j <= |xs| && SumExceeds(xs, slack, limit, j)
  {
    hide SuffixSum;
    var i: int :| 0 <= i <= |xs| && SuffixSum(xs, slack, i) == pos;
    var k: int :| 0 <= k <= |xs| && SuffixSum(xs, -slack, k) == neg;
    assert pos > limit ==> SumExceeds(xs, slack, limit, i);
    assert neg < -limit ==> SumExceeds(xs, slack, limit, k);
  }

  lemma CusumExactly(cfg: Config, xs: seq<real>)
    requires xs != []
    ensures CusumFired(cfg, Fold(cfg, xs)) <==> SumsExceed(cfg, xs)
  {
    hide Fold, SumExceeds, CusumFired, CusumLimit, LargestSuffixSum, SmallestSuffixSum;
    var st := Fold(cfg, xs);
    AlarmIs(cfg, xs);
    CusumRefined(cfg, xs);
    ExtremesDecide(xs, cfg.cusumK, st.cusumPos, st.cusumNeg, CusumLimit(cfg, xs));
  }

  lemma PageHinkleyExactly(cfg: Config, xs: seq<real>)
    requires xs != []
    ensures Fold(cfg, xs).phMin.Some?
    ensures PageHinkleyFired(cfg, Fold(cfg, xs)) <==> MeanDrifted(cfg, xs)
  {
    var st := Fold(cfg, xs);
    MeansRefined(cfg, xs);
    PhMinRefined(cfg, xs);
    hide Fold, Mean;
    var j: int :| 1 <= j <= |xs| && Mean(xs[..j]) == st.phMin.value;
    assert PageHinkleyFired(cfg, st) <==> Mean(xs) - st.phMin.value > 5.0 * cfg.phDelta;
  }

  lemma KsExactly(cfg: Config, ys: seq<real>, xs: seq<real>)
    requires cfg.ksWindow >= 1 && xs != [] && ys == xs[..|xs| - 1]
    ensures KsStat(cfg, Fold(cfg, ys)) == BlockDistance(cfg.ksWindow, xs)
  {
    var w, n := cfg.ksWindow, |xs|;
    KsComparesFullBlocks(cfg, ys);
    hide Fold, KS.KS;
    if n >= 2 * w + 1 {
      assert ys[n - 1 - 2 * w..n - 1 - w] == xs[n - 1 - 2 * w..n - 1 - w];
      assert ys[n - 1 - w..] == xs[n - 1 - w..n - 1];
    }
  }

  /** The layers, in order, for which the given conditions hold. */
  function Those(cusum: bool, drifted: bool, shifted: bool): seq<Layer> {
    (if cusum then [Cusum] else []) + (if drifted then [PageHinkley] else []) + (if shifted then [Ks] else [])
  }

  lemma VerdictFrom(cfg: Config, asset: string, st: Stats, value: real)
    ensures VerdictOn(cfg, asset, st, value).fired
         == Those(CusumFired(cfg, Observe(cfg, st, value)), PageHinkleyFired(cfg, Observe(cfg, st, value)),
                  KsFired(cfg, st))
    ensures var v := VerdictOn(cfg, asset, st, value);
      && v.asset == asset && v.frame == st.n + 1
      && v.transition == (v.fired != []) && v.confidence == |v.fired| as real / 3.0
  {
    hide CusumFired, PhStat, KsStat;
  }

  /** Over every run the verdict on a value is decided by the values of that asset since its last reset, the
      new one included. CUSUM has fired exactly when a suffix sum passes the limit, Page-Hinkley exactly when
      the mean has drifted from that of a prefix, and the distribution test exactly when the distance of the
      two blocks exceeds its threshold. The confidence is the number of these that hold, over 3. */
  lemma VerdictExactly(cfg: Config, ops: seq<Op>, asset: string, value: real)
    requires cfg.ksWindow >= 1
    ensures var xs := ValuesSinceReset(ops, asset) + [value];
      var v := VerdictOn(cfg, asset, StatsOf(Run(cfg, ops), asset), value);
      var sums, drift, shift := SumsExceed(cfg, xs), MeanDrifted(cfg, xs),
                                BlockDistance(cfg.ksWindow, xs) > cfg.ksThreshold;
      && v.asset == asset && v.frame == |xs|
      && (Cusum in v.fired <==> sums)
      && (PageHinkley in v.fired <==> drift)
      && (Ks in v.fired <==> shift)
      && (v.transition <==> sums || drift || shift)
      && v.confidence == ((if sums then 1 else 0) + (if drift then 1 else 0) + (if shift then 1 else 0)) as real / 3.0
  {
    var ys := ValuesSinceReset(ops, asset);
    var xs := ys + [value];
    var st := StatsOf(Run(cfg, ops), asset);
    assert xs[..|ys|] == ys;
    hide Fold, Observe, CusumFired, VerdictOn, SumsExceed, MeanDrifted, BlockDistance, ValuesSinceReset, Run, StatsOf;
    StateDependsOnOwnValues(cfg, ops, asset);
    FoldUnfold(cfg, ys, value, xs);
    MeansRefined(cfg, ys);
    VerdictFrom(cfg, asset, st, value);
    CusumExactly(cfg, xs);
    PageHinkleyExactly(cfg, xs);
    KsExactly(cfg, ys, xs);
  }
}
