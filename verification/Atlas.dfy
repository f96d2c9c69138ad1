/** The layered change-point detector: online accumulators per asset, refined to batch definitions
    over the values an asset has received since its last reset. */
module Atlas {
  import opened Prelude
  import KS = TwoSampleKS

  /** Thresholds of a detector. `sqrt` stands for the library square root: nothing is assumed of it
      except where a lemma says so. */
  datatype Config = Config(
    cusumThreshold: real,
    cusumK: real,
    phDelta: real,
    ksWindow: nat,
    ksThreshold: real,
    sqrt: real -> real)

  /** The value of one asset's accumulators. phMin is None while it is still infinite. */
  datatype Stats = Stats(
    n: nat,
    mean: real,
    variance: real,
    cusumPos: real,
    cusumNeg: real,
    phMean: real,
    phMin: Option<real>,
    windowA: seq<real>,
    windowB: seq<real>)

  datatype Layer = Cusum | PageHinkley | Ks

  datatype Verdict = Verdict(asset: string, frame: nat, transition: bool, confidence: real, fired: seq<Layer>)

  const FreshStats := Stats(0, 0.0, 0.0, 0.0, 0.0, 0.0, None, [], [])

  /** Appending to a deque of bounded length drops from the front. */
  function Push(window: seq<real>, value: real, maxlen: nat): seq<real> {
    if maxlen == 0 then []
    else if |window| < maxlen then window + [value]
    else (window + [value])[|window| + 1 - maxlen..]
  }

  function PhMinOf(phMin: Option<real>, mean: real): real {
    if phMin.Some? then Min(phMin.value, mean) else mean
  }

  function WelfordMean(mean: real, n: nat, value: real): real
    requires n > 0
  {
    mean + (value - mean) / n as real
  }

  function PhMean(mean: real, n: nat, value: real): real
    requires n > 0
  {
    (mean * (n - 1) as real + value) / n as real
  }

  function WelfordTerm(before: real, after: real, value: real): real {
    (value - before) * (value - after)
  }

  function Observe(cfg: Config, st: Stats, value: real): Stats {
    var n := st.n + 1;
    var mean := WelfordMean(st.mean, n, value);
    var phMean := PhMean(st.phMean, n, value);
    var full := |st.windowB| == cfg.ksWindow;
    Stats(n, mean,
          if n > 1 then st.variance + WelfordTerm(st.mean, mean, value) else st.variance,
          Max(0.0, st.cusumPos + value - st.mean - cfg.cusumK),
          Min(0.0, st.cusumNeg + value - st.mean + cfg.cusumK),
          phMean,
          Some(PhMinOf(st.phMin, phMean)),
          if full then st.windowB else st.windowA,
          Push(if full then [] else st.windowB, value, cfg.ksWindow))
  }

  function StdDev(cfg: Config, n: nat, variance: real): real {
    if n > 1 then cfg.sqrt(variance / (n - 1) as real) else 0.0
  }

  predicate CusumAlarm(cfg: Config, n: nat, variance: real, pos: real, neg: real) {
    var threshold := cfg.cusumThreshold * StdDev(cfg, n, variance) + cfg.cusumK;
    pos > threshold || neg < -threshold
  }

  predicate CusumFired(cfg: Config, after: Stats) {
    CusumAlarm(cfg, after.n, after.variance, after.cusumPos, after.cusumNeg)
  }

  function PhStat(cfg: Config, after: Stats): real
    requires after.phMin.Some?
  {
    after.phMean - after.phMin.value - cfg.phDelta
  }

  predicate BothFull(cfg: Config, a: seq<real>, b: seq<real>) {
    |a| == cfg.ksWindow && |b| == cfg.ksWindow
  }

  function WindowStat(cfg: Config, a: seq<real>, b: seq<real>): real {
    if BothFull(cfg, a, b) then KS.KS(a, b) else 0.0
  }

  predicate KsEvaluated(cfg: Config, before: Stats) {
    BothFull(cfg, before.windowA, before.windowB)
  }

  function KsStat(cfg: Config, before: Stats): real {
    WindowStat(cfg, before.windowA, before.windowB)
  }

  predicate PageHinkleyFired(cfg: Config, after: Stats)
    requires after.phMin.Some?
  {
    PhStat(cfg, after) > cfg.phDelta * 4.0
  }

  predicate KsFired(cfg: Config, before: Stats) {
    KsStat(cfg, before) > cfg.ksThreshold
  }

  function Votes(cfg: Config, cusum: bool, phStat: real, ksStat: real): seq<Layer> {
    (if cusum then [Cusum] else [])
    + (if phStat > cfg.phDelta * 4.0 then [PageHinkley] else [])
    + (if ksStat > cfg.ksThreshold then [Ks] else [])
  }

  /** The consensus: any layer that fires is a transition, and each contributes one third. */
  function Consensus(cfg: Config, asset: string, frame: nat, cusum: bool, phStat: real, ksStat: real): Verdict {
    var fired := Votes(cfg, cusum, phStat, ksStat);
    Verdict(asset, frame, fired != [], |fired| as real / 3.0, fired)
  }

  function VerdictOn(cfg: Config, asset: string, st: Stats, value: real): Verdict {
    var after := Observe(cfg, st, value);
    Consensus(cfg, asset, after.n, CusumFired(cfg, after), PhStat(cfg, after), KsStat(cfg, st))
  }

  /** The state after a list of values, oldest first. */
  function Fold(cfg: Config, xs: seq<real>): Stats {
    if xs == [] then FreshStats else Observe(cfg, Fold(cfg, xs[..|xs| - 1]), xs[|xs| - 1])
  }

  // ----- batch definitions

  function Sum(xs: seq<real>): real {
    if xs == [] then 0.0 else Sum(xs[..|xs| - 1]) + xs[|xs| - 1]
  }

  /** The mean, taken to be 0 before the first value. */
  function Mean(xs: seq<real>): real {
    if xs == [] then 0.0 else Sum(xs) / |xs| as real
  }

  function Square(x: real): real {
    x * x
  }

  /** Sum of squared deviations from c. */
  function SquaredDev(xs: seq<real>, c: real): real {
    if xs == [] then 0.0 else SquaredDev(xs[..|xs| - 1], c) + Square(xs[|xs| - 1] - c)
  }

  /** The sum, over the values from position j on, of value minus previous mean minus slack. */
  function SuffixSum(xs: seq<real>, slack: real, j: nat): real
    requires j <= |xs|
  {
    if j == |xs| then 0.0
    else SuffixSum(xs[..|xs| - 1], slack, j) + xs[|xs| - 1] - Mean(xs[..|xs| - 1]) - slack
  }

  ghost predicate LargestSuffixSum(xs: seq<real>, slack: real, m: real) {
    && (forall j :: 0 <= j <= |xs| ==> SuffixSum(xs, slack, j) <= m)
    && (exists j :: 0 <= j <= |xs| && SuffixSum(xs, slack, j) == m)
  }

  ghost predicate SmallestSuffixSum(xs: seq<real>, slack: real, m: real) {
    && (forall j :: 0 <= j <= |xs| ==> m <= SuffixSum(xs, slack, j))
    && (exists j :: 0 <= j <= |xs| && SuffixSum(xs, slack, j) == m)
  }

  /** m is the least mean of a nonempty prefix. */
  ghost predicate LeastPrefixMean(xs: seq<real>, m: real) {
    && (forall j :: 1 <= j <= |xs| ==> m <= Mean(xs[..j]))
    && (exists j :: 1 <= j <= |xs| && Mean(xs[..j]) == m)
  }

  /** Where the current block of a stream of n >= 1 values starts. */
  function BlockStart(n: nat, width: nat): (s: nat)
    requires n >= 1 && width >= 1
    ensures s < n <= s + width
  {
    n - 1 - (n - 1) % width
  }

  // ----- Welford and CUSUM refine them

  lemma MeanTimesCount(xs: seq<real>)
    ensures Mean(xs) * |xs| as real == Sum(xs)
  {
  }

  /** What moving the centre from c to d adds to the squared deviations of n values of the given sum. */
  function CentreShift(n: real, sum: real, c: real, d: real): real {
    n * (d * d - c * c) - 2.0 * (d - c) * sum
  }

  lemma CentreShiftStep(n: real, sum: real, c: real, d: real, x: real)
    ensures CentreShift(n + 1.0, sum + x, c, d) == CentreShift(n, sum, c, d) + Square(x - d) - Square(x - c)
  {
    var a, b := d * d - c * c, d - c;
    assert (n + 1.0) * a == n * a + a;
    assert 2.0 * b * (sum + x) == 2.0 * b * sum + 2.0 * b * x;
    assert (x - d) * (x - d) - (x - c) * (x - c) == a - 2.0 * b * x;
  }

  lemma {:induction false} SquaredDevShift(xs: seq<real>, c: real, d: real)
    ensures SquaredDev(xs, d) == SquaredDev(xs, c) + CentreShift(|xs| as real, Sum(xs), c, d)
  {
    if xs != [] {
      SquaredDevShift(xs[..|xs| - 1], c, d);
      CentreShiftStep((|xs| - 1) as real, Sum(xs[..|xs| - 1]), c, d, xs[|xs| - 1]);
      assert |xs| as real == (|xs| - 1) as real + 1.0;
    }
  }

  lemma MeanStep(m: real, p: nat, sum: real, x: real)
    requires m * p as real == sum
    ensures WelfordMean(m, p + 1, x) == (sum + x) / (p + 1) as real == PhMean(m, p + 1, x)
  {
    var n := (p + 1) as real;
    assert m * n == sum + m;
    assert WelfordMean(m, p + 1, x) * n == m * n + (x - m);
  }

  /** The algebra of one Welford step: p values of mean m and squared deviations a, then x. */
  lemma VarianceStep(m: real, p: nat, sum: real, x: real, mean: real, a: real, total: real)
    requires m * p as real == sum && mean == WelfordMean(m, p + 1, x)
    requires total == a + CentreShift(p as real, sum, m, mean) + Square(x - mean)
    ensures total == a + WelfordTerm(m, mean, x)
  {
    var d, e, q := x - m, mean - m, p as real;
    assert e * (q + 1.0) == d;
    assert d - e == q * e;
    assert CentreShift(q, sum, m, mean) == q * (e * e) by {
      assert mean * mean - m * m == e * (2.0 * m + e);
      assert q * (e * (2.0 * m + e)) == 2.0 * e * (m * q) + q * (e * e);
    }
    assert (q * e) * e == q * (e * e);
    assert (d - e) * (d - e) == d * (d - e) - e * (d - e);
    assert e * (d - e) == e * (q * e) == q * (e * e);
  }

  /** Both running means follow the batch mean. */
  lemma MeanRecurrence(ys: seq<real>, x: real, xs: seq<real>)
    requires xs != [] && ys == xs[..|xs| - 1] && x == xs[|xs| - 1]
    ensures Mean(xs) == WelfordMean(Mean(ys), |ys| + 1, x) == PhMean(Mean(ys), |ys| + 1, x)
  {
    MeanTimesCount(ys);
    MeanStep(Mean(ys), |ys|, Sum(ys), x);
  }

  lemma {:induction false} MeansRefined(cfg: Config, xs: seq<real>)
    ensures var st := Fold(cfg, xs);
      st.n == |xs| && st.mean == Mean(xs) && st.phMean == Mean(xs)
  {
    assert Mean([]) == 0.0;
    if xs != [] {
      hide WelfordMean, PhMean, WelfordTerm, Mean;
      MeansRefined(cfg, xs[..|xs| - 1]);
      MeanRecurrence(xs[..|xs| - 1], xs[|xs| - 1], xs);
    }
  }

  /** The squared deviations from the mean grow by the Welford term. */
  lemma SquaredDevRecurrence(ys: seq<real>, x: real, xs: seq<real>)
    requires xs != [] && ys == xs[..|xs| - 1] && x == xs[|xs| - 1]
    ensures SquaredDev(xs, Mean(xs)) == SquaredDev(ys, Mean(ys)) + WelfordTerm(Mean(ys), Mean(xs), x)
  {
    hide WelfordMean, PhMean, WelfordTerm, CentreShift, Square, Mean, Sum;
    MeanRecurrence(ys, x, xs);
    MeanTimesCount(ys);
    SquaredDevShift(ys, Mean(ys), Mean(xs));
    VarianceStep(Mean(ys), |ys|, Sum(ys), x, Mean(xs), SquaredDev(ys, Mean(ys)), SquaredDev(xs, Mean(xs)));
  }

  lemma {:induction false} VarianceRefined(cfg: Config, xs: seq<real>)
    ensures Fold(cfg, xs).variance == SquaredDev(xs, Mean(xs))
  {
    if xs != [] {
      var ys, x := xs[..|xs| - 1], xs[|xs| - 1];
      hide WelfordMean, PhMean, WelfordTerm, Mean;
      VarianceRefined(cfg, ys);
      MeansRefined(cfg, ys);
      MeansRefined(cfg, xs);
      SquaredDevRecurrence(ys, x, xs);
      if ys == [] {
        assert xs == [x];
        OneValueHasNoSpread(x);
      }
    }
  }

  lemma OneValueHasNoSpread(x: real)
    ensures Mean([]) == 0.0 && WelfordTerm(0.0, Mean([x]), x) == 0.0
  {
    assert [x][..0] == [];
  }

  lemma {:induction false} CusumRefined(cfg: Config, xs: seq<real>)
    ensures LargestSuffixSum(xs, cfg.cusumK, Fold(cfg, xs).cusumPos)
    ensures SmallestSuffixSum(xs, -cfg.cusumK, Fold(cfg, xs).cusumNeg)
  {
    if xs == [] {
      assert SuffixSum(xs, cfg.cusumK, 0) == 0.0 && SuffixSum(xs, -cfg.cusumK, 0) == 0.0;
    } else {
      var ys, x := xs[..|xs| - 1], xs[|xs| - 1];
      CusumRefined(cfg, ys);
      MeansRefined(cfg, ys);
      SuffixSumsExtend(ys, x, cfg.cusumK, xs);
      SuffixSumsExtend(ys, x, -cfg.cusumK, xs);
      var j :| 0 <= j <= |ys| && SuffixSum(ys, cfg.cusumK, j) == Fold(cfg, ys).cusumPos;
      var k :| 0 <= k <= |ys| && SuffixSum(ys, -cfg.cusumK, k) == Fold(cfg, ys).cusumNeg;
      assert SuffixSum(xs, cfg.cusumK, j) == Fold(cfg, ys).cusumPos + x - Mean(ys) - cfg.cusumK;
      assert SuffixSum(xs, -cfg.cusumK, k) == Fold(cfg, ys).cusumNeg + x - Mean(ys) + cfg.cusumK;
      assert SuffixSum(xs, cfg.cusumK, |xs|) == 0.0 && SuffixSum(xs, -cfg.cusumK, |xs|) == 0.0;
    }
  }

  lemma SuffixSumsExtend(ys: seq<real>, x: real, slack: real, xs: seq<real>)
    requires xs != [] && ys == xs[..|xs| - 1] && x == xs[|xs| - 1]
    ensures forall j :: 0 <= j <= |ys| ==> SuffixSum(xs, slack, j) == SuffixSum(ys, slack, j) + x - Mean(ys) - slack
  {
  }

  lemma {:induction false} PhMinRefined(cfg: Config, xs: seq<real>)
    ensures xs == [] ==> Fold(cfg, xs).phMin == None
    ensures xs != [] ==> Fold(cfg, xs).phMin.Some? && LeastPrefixMean(xs, Fold(cfg, xs).phMin.value)
  {
    if xs != [] {
      var ys := xs[..|xs| - 1];
      PhMinRefined(cfg, ys);
      MeansRefined(cfg, xs);
      assert forall j :: 0 <= j <= |ys| ==> xs[..j] == ys[..j];
      assert xs[..|xs|] == xs;
      var m := Fold(cfg, xs).phMin.value;
      if m == Mean(xs) {
        assert Mean(xs[..|xs|]) == m;
      } else {
        var j :| 1 <= j <= |ys| && Mean(ys[..j]) == m;
        assert Mean(xs[..j]) == m;
      }
    }
  }

  // ----- the windows hold consecutive blocks

  lemma ModStep(m: nat, width: nat)
    requires width >= 1
    ensures (m + 1) % width == if m % width == width - 1 then 0 else m % width + 1
  {
    var q, r := m / width, m % width;
    assert m == q * width + r;
    if r == width - 1 {
      assert m + 1 == (q + 1) * width;
      ModUnique(m + 1, width, q + 1, 0);
    } else {
      ModUnique(m + 1, width, q, r + 1);
    }
  }

  lemma ModUnique(a: nat, width: nat, q: int, r: nat)
    requires width >= 1 && r < width && a == q * width + r
    ensures a % width == r
  {
    var d := a / width - q;
    assert d * width == r - a % width;
    assert -(width as int) < d * width < width;
    assert d == 0 by {
      if d != 0 {
        MultipleIsFar(d, width);
      }
    }
  }

  lemma MultipleIsFar(d: int, width: nat)
    requires d != 0
    ensures d * width >= width || d * width <= -(width as int)
  {
    if d >= 1 {
      assert (d - 1) * width >= 0;
    } else {
      assert (-d - 1) * width >= 0;
    }
  }

  lemma BlockStartStep(n: nat, width: nat)
    requires n >= 1 && width >= 1
    ensures BlockStart(n + 1, width) == if n - BlockStart(n, width) == width then n else BlockStart(n, width)
    ensures BlockStart(n, width) % width == 0
  {
    ModStep(n - 1, width);
    ModUnique(BlockStart(n, width), width, (n - 1) / width, 0);
  }

  /** window_b is the block of xs that starts at s, and window_a the full block before it, if any. */
  ghost predicate WindowsAt(cfg: Config, st: Stats, xs: seq<real>, s: nat)
    requires s <= |xs|
  {
    && st.windowB == xs[s..]
    && st.windowA == if s >= cfg.ksWindow then xs[s - cfg.ksWindow..s] else []
  }

  /** After n >= 1 values window_b is the current block, of 1 to W values, and window_a is the full
      block before it, once there is one. */
  lemma {:induction false} WindowsAreBlocks(cfg: Config, xs: seq<real>)
    requires xs != [] && cfg.ksWindow >= 1
    ensures WindowsAt(cfg, Fold(cfg, xs), xs, BlockStart(|xs|, cfg.ksWindow))
  {
    hide *;
    if |xs| == 1 {
      FirstWindow(cfg, xs);
    } else {
      var ys, x := xs[..|xs| - 1], xs[|xs| - 1];
      FoldUnfold(cfg, ys, x, xs);
      WindowsAreBlocks(cfg, ys);
      WindowsStep(cfg, Fold(cfg, ys), ys, x, BlockStart(|ys|, cfg.ksWindow));
      BlockStartStep(|ys|, cfg.ksWindow);
    }
  }

  lemma FoldUnfold(cfg: Config, ys: seq<real>, x: real, xs: seq<real>)
    requires xs != [] && ys == xs[..|xs| - 1] && x == xs[|xs| - 1]
    ensures Fold(cfg, xs) == Observe(cfg, Fold(cfg, ys), x) && xs == ys + [x]
  {
    hide Observe;
  }

  lemma FirstWindow(cfg: Config, xs: seq<real>)
    requires |xs| == 1 && cfg.ksWindow >= 1
    ensures WindowsAt(cfg, Fold(cfg, xs), xs, BlockStart(1, cfg.ksWindow))
  {
    assert Fold(cfg, xs[..0]) == FreshStats;
    assert BlockStart(1, cfg.ksWindow) == 0;
    assert xs[0..] == [xs[0]];
  }

  /** One step of the windows when the current block of ys starts at t. */
  lemma WindowsStep(cfg: Config, st: Stats, ys: seq<real>, x: real, t: nat)
    requires cfg.ksWindow >= 1 && t < |ys| <= t + cfg.ksWindow && WindowsAt(cfg, st, ys, t)
    ensures WindowsAt(cfg, Observe(cfg, st, x), ys + [x], if |ys| - t == cfg.ksWindow then |ys| else t)
  {
    var w, xs := cfg.ksWindow, ys + [x];
    assert xs[|ys|..] == [x] && xs[t..|ys|] == ys[t..] && xs[t..] == ys[t..] + [x];
    assert t >= w ==> xs[t - w..t] == ys[t - w..t];
    if |ys| - t == w {
      assert Push([], x, w) == [x];
    } else {
      assert Push(ys[t..], x, w) == ys[t..] + [x];
    }
  }

  lemma BlockIsFullIff(n: nat, width: nat)
    requires n >= 1 && width >= 1
    ensures n - BlockStart(n, width) == width <==> n % width == 0
    ensures BlockStart(n, width) >= width <==> n > width
  {
    ModStep(n - 1, width);
    BlockStartStep(n, width);
    if n > width && BlockStart(n, width) < width {
      ModUnique(BlockStart(n, width), width, 0, BlockStart(n, width));
    }
  }

  /** The distribution test looks at update n exactly when n >= 2W + 1 and W divides n - 1, and then
      it compares the two full blocks just before the new value. */
  lemma KsComparesFullBlocks(cfg: Config, xs: seq<real>)
    requires cfg.ksWindow >= 1
    ensures var st, w := Fold(cfg, xs), cfg.ksWindow;
      var n := |xs| + 1;
      && (KsEvaluated(cfg, st) <==> n >= 2 * w + 1 && (n - 1) % w == 0)
      && (KsEvaluated(cfg, st) ==> KsStat(cfg, st) == KS.KS(xs[n - 1 - 2 * w..n - 1 - w], xs[n - 1 - w..]))
  {
    hide KS.KS;
    if xs != [] {
      hide Fold, BlockStart;
      WindowsAreBlocks(cfg, xs);
      BlockStartStep(|xs|, cfg.ksWindow);
      BlockIsFullIff(|xs|, cfg.ksWindow);
    }
  }

  // ----- assets, resets and runs

  datatype Op = Update(asset: string, value: real) | Reset(asset: string)

  function StatsOf(states: map<string, Stats>, asset: string): Stats {
    if asset in states then states[asset] else FreshStats
  }

  function ApplyOp(cfg: Config, states: map<string, Stats>, op: Op): map<string, Stats> {
    match op
    case Update(asset, value) => states[asset := Observe(cfg, StatsOf(states, asset), value)]
    case Reset(asset) => states - {asset}
  }

  function Run(cfg: Config, ops: seq<Op>): map<string, Stats> {
    if ops == [] then map[] else ApplyOp(cfg, Run(cfg, ops[..|ops| - 1]), ops[|ops| - 1])
  }

  /** The values an asset has received since its last reset. */
  function ValuesSinceReset(ops: seq<Op>, asset: string): seq<real> {
    if ops == [] then []
    else
      var before, op := ValuesSinceReset(ops[..|ops| - 1], asset), ops[|ops| - 1];
      if op.asset != asset then before
      else if op.Reset? then []
      else before + [op.value]
  }

  lemma {:induction false} StateDependsOnOwnValues(cfg: Config, ops: seq<Op>, asset: string)
    ensures StatsOf(Run(cfg, ops), asset) == Fold(cfg, ValuesSinceReset(ops, asset))
  {
    if ops != [] {
      StateDependsOnOwnValues(cfg, ops[..|ops| - 1], asset);
      var before := ValuesSinceReset(ops[..|ops| - 1], asset);
      if ops[|ops| - 1].Update? {
        assert (before + [ops[|ops| - 1].value])[..|before|] == before;
      }
    }
  }

  /** Over every run, the state of an asset is the batch form of that asset's own values since its
      last reset: nothing another asset received and nothing older matters. */
  lemma StateIsBatchForm(cfg: Config, ops: seq<Op>, asset: string)
    ensures var st, xs := StatsOf(Run(cfg, ops), asset), ValuesSinceReset(ops, asset);
      && st.n == |xs|
      && st.mean == Mean(xs)
      && st.variance == SquaredDev(xs, Mean(xs))
      && LargestSuffixSum(xs, cfg.cusumK, st.cusumPos)
      && SmallestSuffixSum(xs, -cfg.cusumK, st.cusumNeg)
      && (xs != [] ==> st.phMean == st.mean && st.phMin.Some? && LeastPrefixMean(xs, st.phMin.value))
  {
    var xs := ValuesSinceReset(ops, asset);
    StateDependsOnOwnValues(cfg, ops, asset);
    MeansRefined(cfg, xs);
    VarianceRefined(cfg, xs);
    CusumRefined(cfg, xs);
    PhMinRefined(cfg, xs);
  }

  /** The Page-Hinkley layer fires exactly when the mean exceeds the least prefix mean by more than
      five times its delta. */
  lemma PageHinkleyFiresExactly(cfg: Config, ops: seq<Op>, asset: string, value: real, least: real)
    requires LeastPrefixMean(ValuesSinceReset(ops, asset) + [value], least)
    ensures var xs := ValuesSinceReset(ops, asset) + [value];
      PageHinkley in VerdictOn(cfg, asset, StatsOf(Run(cfg, ops), asset), value).fired
      <==> Mean(xs) - least > 5.0 * cfg.phDelta
  {
    var before := ValuesSinceReset(ops, asset);
    var xs := before + [value];
    var st := StatsOf(Run(cfg, ops), asset);
    assert PageHinkley in VerdictOn(cfg, asset, st, value).fired
      <==> PageHinkleyFired(cfg, Observe(cfg, st, value)) by {
      hide CusumFired, KsStat;
    }
    assert xs[..|before|] == before;
    var m := Observe(cfg, st, value).phMin.value;
    assert LeastPrefixMean(xs, m) && Observe(cfg, st, value).phMean == Mean(xs) by {
      hide *;
      StateDependsOnOwnValues(cfg, ops, asset);
      FoldUnfold(cfg, before, value, xs);
      MeansRefined(cfg, xs);
      PhMinRefined(cfg, xs);
    }
    LeastIsUnique(xs, m, least);
    hide VerdictOn, Observe, Mean, ValuesSinceReset;
  }

  lemma LeastIsUnique(xs: seq<real>, m: real, least: real)
    requires LeastPrefixMean(xs, m) && LeastPrefixMean(xs, least)
    ensures m == least
  {
    hide Mean;
    var i :| 1 <= i <= |xs| && Mean(xs[..i]) == m;
    var j :| 1 <= j <= |xs| && Mean(xs[..j]) == least;
  }

  // ----- constant series

  function Constant(c: real, n: nat): (xs: seq<real>)
    ensures |xs| == n
  {
    if n == 0 then [] else Constant(c, n - 1) + [c]
  }

  /** n times the slack. */
  function Slack(k: real, n: nat): real {
    if n == 0 then 0.0 else Slack(k, n - 1) + k
  }

  lemma {:induction false} SlackIsProduct(k: real, n: nat)
    ensures Slack(k, n) == n as real * k
  {
    if n > 0 {
      SlackIsProduct(k, n - 1);
      assert n as real * k == (n - 1) as real * k + k;
    }
  }

  lemma ConstantUnfold(cfg: Config, c: real, m: nat)
    ensures Fold(cfg, Constant(c, m + 1)) == Observe(cfg, Fold(cfg, Constant(c, m)), c)
  {
    hide Observe;
    assert Constant(c, m + 1)[..m] == Constant(c, m) && Constant(c, m + 1)[m] == c;
  }

  lemma EqualMeans(c: real, n: nat)
    requires n >= 1
    ensures WelfordMean(c, n, c) == c == PhMean(c, n, c)
    ensures WelfordTerm(c, c, c) == 0.0
    ensures n == 1 ==> WelfordMean(0.0, n, c) == c == PhMean(0.0, n, c)
  {
    assert c * (n - 1) as real + c == c * n as real;
  }

  lemma {:induction false} ConstantStats(cfg: Config, c: real, n: nat)
    requires n >= 1 && cfg.cusumK >= 0.0
    ensures var st := Fold(cfg, Constant(c, n));
      && st.n == n && st.mean == c && st.variance == 0.0 && st.phMean == c && st.phMin == Some(c)
      && st.cusumPos == Max(0.0, c - Slack(cfg.cusumK, n))
      && st.cusumNeg == Min(0.0, c + Slack(cfg.cusumK, n))
  {
    hide WelfordMean, PhMean, WelfordTerm;
    ConstantUnfold(cfg, c, n - 1);
    EqualMeans(c, n);
    if n == 1 {
      assert Fold(cfg, Constant(c, 0)) == FreshStats;
    } else {
      ConstantStats(cfg, c, n - 1);
    }
  }

  predicate AllEqual(s: seq<real>, c: real) {
    forall i :: 0 <= i < |s| ==> s[i] == c
  }

  lemma {:induction false} ConstantWindows(cfg: Config, c: real, n: nat)
    ensures AllEqual(Fold(cfg, Constant(c, n)).windowA, c) && AllEqual(Fold(cfg, Constant(c, n)).windowB, c)
  {
    if n == 0 {
      assert Fold(cfg, Constant(c, 0)) == FreshStats;
    } else {
      hide *;
      ConstantUnfold(cfg, c, n - 1);
      ConstantWindows(cfg, c, n - 1);
      ConstantWindowsStep(cfg, Fold(cfg, Constant(c, n - 1)), c);
    }
  }

  lemma ConstantWindowsStep(cfg: Config, st: Stats, c: real)
    requires AllEqual(st.windowA, c) && AllEqual(st.windowB, c)
    ensures AllEqual(Observe(cfg, st, c).windowA, c) && AllEqual(Observe(cfg, st, c).windowB, c)
  {
    hide WelfordMean, PhMean, WelfordTerm, PhMinOf;
  }

  lemma {:induction false} ConstantMultiset(s: seq<real>, c: real, v: real)
    requires AllEqual(s, c)
    ensures multiset(s)[v] == if v == c then |s| else 0
  {
    if s != [] {
      assert s == [s[0]] + s[1..];
      ConstantMultiset(s[1..], c, v);
    }
  }

  lemma ConstantKs(a: seq<real>, b: seq<real>, c: real)
    requires AllEqual(a, c) && AllEqual(b, c)
    ensures KS.KS(a, b) == 0.0
  {
    if a != [] && b != [] {
      forall v
        ensures KS.InProportion(multiset(a)[v], |a|, multiset(b)[v], |b|)
      {
        ConstantMultiset(a, c, v);
        ConstantMultiset(b, c, v);
      }
      KS.KSZeroIffSameDistribution(a, b);
    }
  }

  lemma ThresholdWithoutSpread(cfg: Config, st: Stats)
    requires st.variance == 0.0 && cfg.sqrt(0.0) == 0.0
    ensures CusumFired(cfg, st) <==> st.cusumPos > cfg.cusumK || st.cusumNeg < -cfg.cusumK
  {
    assert StdDev(cfg, st.n, st.variance) == 0.0;
  }

  lemma TransitionIffSomeLayer(cfg: Config, asset: string, st: Stats, value: real)
    ensures VerdictOn(cfg, asset, st, value).transition <==>
      || CusumFired(cfg, Observe(cfg, st, value))
      || PageHinkleyFired(cfg, Observe(cfg, st, value))
      || KsFired(cfg, st)
  {
    hide CusumFired, PhStat, KsStat;
  }

  lemma ConstantCusum(cfg: Config, c: real, m: nat)
    requires cfg.cusumK >= 0.0 && cfg.sqrt(0.0) == 0.0
    ensures CusumFired(cfg, Observe(cfg, Fold(cfg, Constant(c, m)), c)) <==> Abs(c) > Slack(cfg.cusumK, m + 2)
  {
    hide *;
    var st := Fold(cfg, Constant(c, m + 1));
    ConstantUnfold(cfg, c, m);
    ConstantStats(cfg, c, m + 1);
    ThresholdWithoutSpread(cfg, st);
    SlackNext(cfg.cusumK, m + 1);
    SlackNonNegative(cfg.cusumK, m + 1);
    EitherSideExceeds(c, Slack(cfg.cusumK, m + 1), cfg.cusumK);
  }

  lemma SlackNext(k: real, n: nat)
    ensures Slack(k, n + 1) == Slack(k, n) + k
  {
  }

  lemma EitherSideExceeds(c: real, slack: real, k: real)
    requires slack >= 0.0 && k >= 0.0
    ensures Max(0.0, c - slack) > k || Min(0.0, c + slack) < -k <==> Abs(c) > slack + k
  {
  }

  lemma ConstantPageHinkley(cfg: Config, c: real, m: nat)
    requires cfg.cusumK >= 0.0 && cfg.phDelta >= 0.0
    ensures !PageHinkleyFired(cfg, Observe(cfg, Fold(cfg, Constant(c, m)), c))
  {
    hide Observe, Fold, Constant, Slack;
    ConstantUnfold(cfg, c, m);
    ConstantStats(cfg, c, m + 1);
  }

  lemma ConstantDistribution(cfg: Config, c: real, m: nat)
    requires cfg.ksThreshold >= 0.0
    ensures !KsFired(cfg, Fold(cfg, Constant(c, m)))
  {
    hide Fold, Constant, KS.KS, AllEqual;
    var st := Fold(cfg, Constant(c, m));
    ConstantWindows(cfg, c, m);
    ConstantKs(st.windowA, st.windowB, c);
  }

  /** A constant series is not always quiet: the first CUSUM term compares the first value with a mean
      of 0. After m equal values, the next one is reported as a transition exactly when |c| > (m + 2) k. */
  lemma ConstantSeriesFires(cfg: Config, asset: string, c: real, m: nat)
    requires cfg.cusumK >= 0.0 && cfg.phDelta >= 0.0 && cfg.ksThreshold >= 0.0 && cfg.sqrt(0.0) == 0.0
    ensures VerdictOn(cfg, asset, Fold(cfg, Constant(c, m)), c).transition <==> Abs(c) > (m + 2) as real * cfg.cusumK
  {
    hide *;
    TransitionIffSomeLayer(cfg, asset, Fold(cfg, Constant(c, m)), c);
    ConstantCusum(cfg, c, m);
    ConstantPageHinkley(cfg, c, m);
    ConstantDistribution(cfg, c, m);
    SlackIsProduct(cfg.cusumK, m + 2);
  }

  lemma {:induction false} SlackNonNegative(k: real, n: nat)
    requires k >= 0.0
    ensures Slack(k, n) >= 0.0
  {
    if n > 0 {
      SlackNonNegative(k, n - 1);
    }
  }

  /** A constant series never reports a transition exactly when |c| is at most twice the slack. */
  lemma ConstantSeriesQuietIff(cfg: Config, asset: string, c: real)
    requires cfg.cusumK >= 0.0 && cfg.phDelta >= 0.0 && cfg.ksThreshold >= 0.0 && cfg.sqrt(0.0) == 0.0
    ensures (forall n: nat :: !VerdictOn(cfg, asset, Fold(cfg, Constant(c, n)), c).transition)
       <==> Abs(c) <= 2.0 * cfg.cusumK
  {
    hide *;
    if Abs(c) <= 2.0 * cfg.cusumK {
      forall n: nat
        ensures !VerdictOn(cfg, asset, Fold(cfg, Constant(c, n)), c).transition
      {
        ConstantSeriesFires(cfg, asset, c, n);
        MoreSlack(cfg.cusumK, n);
      }
    } else {
      var zero: nat := 0;
      ConstantSeriesFires(cfg, asset, c, zero);
      assert VerdictOn(cfg, asset, Fold(cfg, Constant(c, zero)), c).transition;
    }
  }

  lemma MoreSlack(k: real, n: nat)
    requires k >= 0.0
    ensures (n + 2) as real * k >= 2.0 * k
  {
    assert (n + 2) as real * k == n as real * k + 2.0 * k;
  }

  // ----- the detector

  class AssetState {
    var cusumPos: real
    var cusumNeg: real
    var runningMean: real
    var runningVariance: real
    var n: nat
    var windowA: seq<real>
    var windowB: seq<real>
    var phRunningMean: real
    var phMin: Option<real>

    constructor ()
      ensures View() == FreshStats
    {
      cusumPos, cusumNeg, runningMean, runningVariance, n := 0.0, 0.0, 0.0, 0.0, 0;
      windowA, windowB, phRunningMean, phMin := [], [], 0.0, None;
    }

    function View(): Stats
      reads this
    {
      Stats(n, runningMean, runningVariance, cusumPos, cusumNeg, phRunningMean, phMin, windowA, windowB)
    }

    method UpdateMoments(value: real)
      modifies `n, `runningMean, `runningVariance
      ensures n == old(n) + 1
      ensures runningMean == WelfordMean(old(runningMean), n, value)
      ensures runningVariance == old(runningVariance)
                                 + if n > 1 then WelfordTerm(old(runningMean), runningMean, value) else 0.0
    {
      n := n + 1;
      var delta := value - runningMean;
      runningMean := runningMean + delta / n as real;
      if n > 1 {
        var delta2 := value - runningMean;
        runningVariance := runningVariance + delta * delta2;
      }
    }

    method UpdateCusum(cfg: Config, prevMean: real, value: real) returns (fired: bool)
      modifies `cusumPos, `cusumNeg
      ensures cusumPos == Max(0.0, old(cusumPos) + value - prevMean - cfg.cusumK)
      ensures cusumNeg == Min(0.0, old(cusumNeg) + value - prevMean + cfg.cusumK)
      ensures fired <==> CusumAlarm(cfg, n, runningVariance, cusumPos, cusumNeg)
    {
      var stddev := 0.0;
      if n > 1 {
        stddev := cfg.sqrt(runningVariance / (n - 1) as real);
      }
      var threshold := cfg.cusumThreshold * stddev + cfg.cusumK;
      cusumPos := Max(0.0, cusumPos + value - prevMean - cfg.cusumK);
      cusumNeg := Min(0.0, cusumNeg + value - prevMean + cfg.cusumK);
      fired := cusumPos > threshold || cusumNeg < -threshold;
    }

    method UpdatePageHinkley(cfg: Config, value: real) returns (stat: real)
      requires n > 0
      modifies `phRunningMean, `phMin
      ensures phRunningMean == PhMean(old(phRunningMean), n, value)
      ensures phMin == Some(PhMinOf(old(phMin), phRunningMean))
      ensures stat == PhStat(cfg, View())
    {
      phRunningMean := (phRunningMean * (n - 1) as real + value) / n as real;
      phMin := Some(if phMin.Some? then Min(phMin.value, phRunningMean) else phRunningMean);
      stat := phRunningMean - phMin.value - cfg.phDelta;
    }

    /** Compares the windows if both are full, then slides them. */
    method CompareAndSlide(cfg: Config, value: real) returns (stat: real)
      modifies `windowA, `windowB
      ensures stat == WindowStat(cfg, old(windowA), old(windowB))
      ensures windowA == if |old(windowB)| == cfg.ksWindow then old(windowB) else old(windowA)
      ensures windowB == Push(if |old(windowB)| == cfg.ksWindow then [] else old(windowB), value, cfg.ksWindow)
    {
      stat := 0.0;
      if |windowA| == cfg.ksWindow && |windowB| == cfg.ksWindow {
        stat := KS.TwoSampleStatistic(windowA, windowB);
      }
      if |windowB| == cfg.ksWindow {
        windowA := windowB;
        windowB := [];
      }
      windowB := Push(windowB, value, cfg.ksWindow);
    }
  }

  class AtlasDetector {
    const cfg: Config
    var states: map<string, AssetState>

    ghost predicate Valid()
      reads this
    {
      forall a, b :: a in states && b in states && states[a] == states[b] ==> a == b
    }

    ghost function Model(): map<string, Stats>
      reads this, states.Values
    {
      map a | a in states :: states[a].View()
    }

    constructor (cfg: Config)
      ensures Valid() && Model() == Run(cfg, []) && this.cfg == cfg
    {
      this.cfg := cfg;
      states := map[];
    }

    method Forget(asset: string)
      requires Valid()
      modifies this`states
      ensures Valid() && Model() == ApplyOp(cfg, old(Model()), Reset(asset))
    {
      states := states - {asset};
    }

    /** The accumulators of an asset, created on first use. */
    method StateFor(asset: string) returns (st: AssetState)
      requires Valid()
      modifies this`states
      ensures Valid() && asset in states && states[asset] == st
      ensures st.View() == StatsOf(old(Model()), asset)
      ensures Model() == old(Model())[asset := StatsOf(old(Model()), asset)]
      ensures fresh(states.Values - old(states.Values))
    {
      if asset !in states {
        st := new AssetState();
        states := states[asset := st];
      } else {
        st := states[asset];
      }
    }

    /** Feeds one observation to an asset. */
    method Feed(asset: string, value: real) returns (verdict: Verdict)
      requires Valid()
      modifies this`states, states.Values
      ensures Valid()
      ensures Model() == ApplyOp(cfg, old(Model()), Update(asset, value))
      ensures verdict == VerdictOn(cfg, asset, StatsOf(old(Model()), asset), value)
    {
      hide Observe, VerdictOn, AssetState.View;
      var st := StateFor(asset);
      verdict := FeedState(st, asset, value);
      assert Model() == old(Model())[asset := st.View()];
    }

    method FeedState(st: AssetState, asset: string, value: real) returns (verdict: Verdict)
      modifies st
      ensures st.View() == Observe(cfg, old(st.View()), value)
      ensures verdict == VerdictOn(cfg, asset, old(st.View()), value)
    {
      hide WelfordMean, PhMean, WelfordTerm, PhMinOf, Push, CusumAlarm, WindowStat, Consensus;
      var prevMean := st.runningMean;
      st.UpdateMoments(value);
      var cusumFired := st.UpdateCusum(cfg, prevMean, value);
      var phStat := st.UpdatePageHinkley(cfg, value);
      var ksStat := st.CompareAndSlide(cfg, value);
      verdict := Aggregate(asset, st.n, cusumFired, phStat, ksStat);
      assert st.View() == Observe(cfg, old(st.View()), value);
    }

    method Aggregate(asset: string, n: nat, cusumFired: bool, phStat: real, ksStat: real) returns (verdict: Verdict)
      ensures verdict == Consensus(cfg, asset, n, cusumFired, phStat, ksStat)
    {
      var fired: seq<Layer> := [];
      if cusumFired {
        fired := fired + [Cusum];
      }
      if phStat > cfg.phDelta * 4.0 {
        fired := fired + [PageHinkley];
      }
      if ksStat > cfg.ksThreshold {
        fired := fired + [Ks];
      }
      verdict := Verdict(asset, n, fired != [], |fired| as real / 3.0, fired);
    }
  }
}
