/** The purged walk-forward splitter, with its slices as the language defines them, negative bounds
    included, and the closed form of what its purge loop leaves. */
module PurgedFolds {
  import opened Prelude

  /** rollingBars is None for an expanding window, and the configured lookback, 0 meaning the default,
      for a rolling one. */
  datatype Config = Config(folds: nat, gap: nat, minTrain: int, rollingBars: Option<int>)

  datatype Fold = Fold(train: seq<nat>, test: seq<nat>)

  function FoldSize(cfg: Config, n: nat): nat {
    n / (cfg.folds + 1)
  }

  /** lo, lo + 1, ..., hi - 1. */
  function Range(lo: nat, hi: nat): (r: seq<nat>)
    ensures |r| == if lo <= hi then hi - lo else 0
    ensures forall i :: 0 <= i < |r| ==> r[i] == lo + i
  {
    if lo >= hi then [] else Range(lo, hi - 1) + [hi - 1]
  }

  /** s[:end]: a negative end counts from the back. */
  function Until(s: seq<nat>, end: int): seq<nat> {
    if end >= |s| then s
    else if end >= 0 then s[..end]
    else if |s| + end >= 0 then s[..|s| + end]
    else []
  }

  /** s[-bars:] for any integer, so all of s for 0 and all but the first for a negative one. */
  function LastBars(s: seq<nat>, bars: int): seq<nat> {
    var start := -bars;
    if start >= |s| then []
    else if start >= 0 then s[start..]
    else if |s| + start >= 0 then s[|s| + start..]
    else s
  }

  function Filter(s: seq<nat>, start: int, end: int): seq<nat> {
    if s == [] then []
    else
      var rest := Filter(s[..|s| - 1], start, end);
      var t := s[|s| - 1];
      if t < start || t >= end then rest + [t] else rest
  }

  function MinInt(a: int, b: int): int {
    if a <= b then a else b
  }

  function TestStart(cfg: Config, n: nat, i: nat): nat {
    i * FoldSize(cfg, n)
  }

  function TestEnd(cfg: Config, n: nat, i: nat): int {
    MinInt(TestStart(cfg, n, i) + FoldSize(cfg, n), n)
  }

  /** The training indices of fold i after purging the test folds before the j-th. */
  function Purged(cfg: Config, n: nat, i: nat, j: nat): seq<nat>
    requires j >= 1
  {
    if j == 1 then Until(Range(0, n), TestStart(cfg, n, i) - cfg.gap)
    else Filter(Purged(cfg, n, i, j - 1), TestStart(cfg, n, j - 1), MinInt(TestEnd(cfg, n, j - 1) + cfg.gap, n))
  }

  function MaxBars(cfg: Config, n: nat, bars: int): int {
    if bars == 0 then FoldSize(cfg, n) * cfg.folds else bars
  }

  function Training(cfg: Config, n: nat, i: nat): seq<nat>
    requires i >= 1
  {
    var purged := Purged(cfg, n, i, i);
    match cfg.rollingBars
    case None => purged
    case Some(bars) => LastBars(purged, MaxBars(cfg, n, bars))
  }

  function TestWindow(cfg: Config, n: nat, i: nat): seq<nat> {
    Range(TestStart(cfg, n, i), if TestEnd(cfg, n, i) >= 0 then TestEnd(cfg, n, i) else 0)
  }

  /** The folds 1..k that have enough training indices. */
  function Folds(cfg: Config, n: nat, k: nat): seq<Fold> {
    if k == 0 then []
    else
      var rest := Folds(cfg, n, k - 1);
      if |Training(cfg, n, k)| < cfg.minTrain then rest
      else rest + [Fold(Training(cfg, n, k), TestWindow(cfg, n, k))]
  }

  // ----- the code

  method FilterOut(s: seq<nat>, start: int, end: int) returns (kept: seq<nat>)
    ensures kept == Filter(s, start, end)
  {
    kept := [];
    for k := 0 to |s|
      invariant kept == Filter(s[..k], start, end)
    {
      assert s[..k + 1][..k] == s[..k];
      if s[k] < start || s[k] >= end {
        kept := kept + [s[k]];
      }
    }
    assert s[..|s|] == s;
  }

  /** The purge loop of fold i. */
  method PurgeLoop(cfg: Config, n: nat, i: nat) returns (trainIdx: seq<nat>)
    requires i >= 1
    ensures trainIdx == Purged(cfg, n, i, i)
  {
    hide Filter, Until, TestStart, TestEnd;
    trainIdx := Until(Range(0, n), TestStart(cfg, n, i) - cfg.gap);
    for j := 1 to i
      invariant trainIdx == Purged(cfg, n, i, j)
    {
      var purgeStart := TestStart(cfg, n, j);
      var purgeEnd := MinInt(TestEnd(cfg, n, j) + cfg.gap, n);
      trainIdx := FilterOut(trainIdx, purgeStart, purgeEnd);
    }
  }

  method Split(cfg: Config, n: nat) returns (folds: seq<Fold>)
    ensures folds == Folds(cfg, n, cfg.folds)
  {
    hide Purged, TestStart, TestEnd, TestWindow, LastBars, MaxBars;
    folds := [];
    for i := 1 to cfg.folds + 1
      invariant folds == Folds(cfg, n, i - 1)
    {
      var testStart, testEnd := TestStart(cfg, n, i), TestEnd(cfg, n, i);
      TestWindowInRange(cfg, n, i);
      var idx := Range(0, n);
      var trainIdx := PurgeLoop(cfg, n, i);
      if cfg.rollingBars.Some? {
        trainIdx := LastBars(trainIdx, MaxBars(cfg, n, cfg.rollingBars.value));
      }
      if |trainIdx| >= cfg.minTrain {
        folds := folds + [Fold(trainIdx, idx[testStart..testEnd])];
      }
    }
  }

  // ----- test windows

  lemma FoldsFit(f: nat, k: nat, n: nat, i: nat)
    requires f == n / (k + 1) && i <= k
    ensures i * f + f == (i + 1) * f <= n
  {
    assert (k + 1) * f <= n;
    assert (k - i) * f >= 0;
    assert (k + 1) * f == (i + 1) * f + (k - i) * f;
  }

  /** The test windows all have the fold size, lie inside the data and follow one another without gap
      or overlap. */
  lemma TestWindowInRange(cfg: Config, n: nat, i: nat)
    requires 1 <= i <= cfg.folds
    ensures TestEnd(cfg, n, i) == TestStart(cfg, n, i + 1) == TestStart(cfg, n, i) + FoldSize(cfg, n) <= n
    ensures TestWindow(cfg, n, i) == Range(0, n)[TestStart(cfg, n, i)..TestEnd(cfg, n, i)]
  {
    FoldsFit(FoldSize(cfg, n), cfg.folds, n, i);
    assert TestEnd(cfg, n, i) == TestStart(cfg, n, i + 1) == TestStart(cfg, n, i) + FoldSize(cfg, n) <= n;
    hide TestStart, TestEnd, FoldSize;
  }

  // ----- what the purge loop leaves

  /** Where the training slice of fold i ends: before the gap, or counted from the back of the data
      when the gap is longer than everything before the test window. */
  function SliceEnd(cfg: Config, n: nat, i: nat): nat {
    var end := TestStart(cfg, n, i) - cfg.gap;
    if end >= n then n else if end >= 0 then end else if n + end >= 0 then n + end else 0
  }

  lemma UntilOfRange(n: nat, end: int)
    ensures Until(Range(0, n), end)
         == Range(0, if end >= n then n else if end >= 0 then end else if n + end >= 0 then n + end else 0)
  {
  }

  lemma FilterStep(s: seq<nat>, t: nat, start: int, end: int)
    ensures Filter(s + [t], start, end) == Filter(s, start, end) + if t < start || t >= end then [t] else []
  {
    assert (s + [t])[..|s|] == s;
  }

  lemma RangeStep(lo: nat, hi: nat)
    requires lo < hi
    ensures Range(lo, hi) == Range(lo, hi - 1) + [hi - 1]
  {
  }

  lemma {:induction false} FilterPair(a: nat, lo: nat, hi: nat, start: int, end: nat)
    requires a <= start <= lo <= end
    ensures Filter(Range(0, a) + Range(lo, hi), start, end) == Range(0, a) + Range(end, hi)
  {
    hide Filter, Range;
    if lo >= hi {
      KeepsBelow(Range(0, a), start, end);
      assert Range(lo, hi) == [] && Range(end, hi) == [];
      assert Range(0, a) + [] == Range(0, a);
    } else {
      FilterPair(a, lo, hi - 1, start, end);
      FilterStep(Range(0, a) + Range(lo, hi - 1), hi - 1, start, end);
      RangeStep(lo, hi);
      assert Range(0, a) + Range(lo, hi) == Range(0, a) + Range(lo, hi - 1) + [hi - 1];
      if hi - 1 >= end {
        RangeStep(end, hi);
      } else {
        assert Range(end, hi) == [] && Range(end, hi - 1) == [];
      }
    }
  }

  lemma {:induction false} KeepsBelow(s: seq<nat>, start: int, end: int)
    requires forall i :: 0 <= i < |s| ==> s[i] < start
    ensures Filter(s, start, end) == s
  {
    if s != [] {
      KeepsBelow(s[..|s| - 1], start, end);
    }
  }

  lemma FirstPurge(e: nat, start: nat, end: nat)
    requires start <= end
    ensures Filter(Range(0, e), start, end) == Range(0, MinNat(e, start)) + Range(end, e)
  {
    if e <= start {
      KeepsBelow(Range(0, e), start, end);
      assert Range(end, e) == [];
      assert Range(0, e) + [] == Range(0, e);
    } else {
      assert Range(0, e) == Range(0, start) + Range(start, e);
      FilterPair(start, start, e, start, end);
    }
  }

  /** Where the purge before fold j ends. */
  function PurgeEnd(cfg: Config, n: nat, j: nat): nat {
    if TestStart(cfg, n, j) + cfg.gap <= n then TestStart(cfg, n, j) + cfg.gap else n
  }

  function MinNat(a: nat, b: nat): nat {
    if a <= b then a else b
  }

  lemma PurgeStep(cfg: Config, n: nat, i: nat, j: nat)
    requires 1 <= j <= cfg.folds
    ensures Purged(cfg, n, i, j + 1) == Filter(Purged(cfg, n, i, j), TestStart(cfg, n, j), PurgeEnd(cfg, n, j + 1))
  {
    hide Filter, TestStart, FoldSize;
    TestWindowInRange(cfg, n, j);
  }

  /** The purge loop removes one contiguous stretch, from the first test window on. */
  lemma {:induction false} PurgedClosedForm(cfg: Config, n: nat, i: nat, j: nat)
    requires 1 <= i <= cfg.folds && 1 <= j <= cfg.folds
    ensures var e, f := SliceEnd(cfg, n, i), FoldSize(cfg, n);
      Purged(cfg, n, i, j)
      == if j == 1 then Range(0, e) else Range(0, MinNat(e, f)) + Range(PurgeEnd(cfg, n, j), e)
  {
    hide *;
    var e, f := SliceEnd(cfg, n, i), FoldSize(cfg, n);
    if j == 1 {
      BeforePurge(cfg, n, i);
    } else {
      FirstStart(cfg, n);
      PurgedClosedForm(cfg, n, i, j - 1);
      PurgeStep(cfg, n, i, j - 1);
      StartsGrow(cfg, n, j - 1);
      if j == 2 {
        FirstPurge(e, f, PurgeEnd(cfg, n, 2));
      } else {
        LeastOfTwo(e, f);
        FilterPair(MinNat(e, f), PurgeEnd(cfg, n, j - 1), e, TestStart(cfg, n, j - 1), PurgeEnd(cfg, n, j));
      }
    }
  }

  lemma BeforePurge(cfg: Config, n: nat, i: nat)
    ensures Purged(cfg, n, i, 1) == Range(0, SliceEnd(cfg, n, i))
  {
    hide Range, TestStart;
    UntilOfRange(n, TestStart(cfg, n, i) - cfg.gap);
  }

  lemma LeastOfTwo(a: nat, b: nat)
    ensures MinNat(a, b) <= a && MinNat(a, b) <= b
  {
  }

  lemma FirstStart(cfg: Config, n: nat)
    ensures TestStart(cfg, n, 1) == FoldSize(cfg, n)
  {
  }

  lemma StartsGrow(cfg: Config, n: nat, j: nat)
    requires 1 <= j <= cfg.folds
    ensures FoldSize(cfg, n) <= TestStart(cfg, n, j) <= n
    ensures TestStart(cfg, n, j) <= PurgeEnd(cfg, n, j) <= PurgeEnd(cfg, n, j + 1)
  {
    FoldsFit(FoldSize(cfg, n), cfg.folds, n, j);
    assert (j - 1) * FoldSize(cfg, n) >= 0;
    assert TestStart(cfg, n, j) == (j - 1) * FoldSize(cfg, n) + FoldSize(cfg, n);
    assert TestStart(cfg, n, j + 1) == TestStart(cfg, n, j) + FoldSize(cfg, n);
  }

  /** For a gap of at most the fold size, the "expanding" training set never expands: fold 1 trains on
      [0, fold - gap) and every later fold on [0, fold). */
  lemma TrainingCollapses(cfg: Config, n: nat, i: nat)
    requires 1 <= i <= cfg.folds && cfg.gap <= FoldSize(cfg, n) && cfg.rollingBars.None?
    ensures Training(cfg, n, i) == Range(0, if i == 1 then FoldSize(cfg, n) - cfg.gap else FoldSize(cfg, n))
  {
    var e, f := SliceEnd(cfg, n, i), FoldSize(cfg, n);
    PurgedClosedForm(cfg, n, i, i);
    StartsGrow(cfg, n, i);
    if i == 1 {
      assert TestStart(cfg, n, 1) == f;
    } else {
      StartsGrow(cfg, n, i - 1);
      TestWindowInRange(cfg, n, i - 1);
      hide TestStart, FoldSize;
      assert Range(PurgeEnd(cfg, n, i), e) == [];
      assert Range(0, f) + [] == Range(0, f);
    }
  }

  // ----- the embargo

  /** Every training index is more than the gap before the test window. */
  ghost predicate Separated(cfg: Config, n: nat, i: nat)
    requires i >= 1
  {
    forall t :: t in Training(cfg, n, i) ==> t + cfg.gap < TestStart(cfg, n, i)
  }

  lemma PurgedWithinSlice(cfg: Config, n: nat, i: nat)
    requires 1 <= i <= cfg.folds
    ensures forall t :: t in Purged(cfg, n, i, i) ==> t < SliceEnd(cfg, n, i)
    ensures FoldSize(cfg, n) > 0 && SliceEnd(cfg, n, i) > 0 ==> 0 in Purged(cfg, n, i, i)
  {
    PurgedClosedForm(cfg, n, i, i);
    var e, f := SliceEnd(cfg, n, i), FoldSize(cfg, n);
    if f > 0 && e > 0 {
      assert Purged(cfg, n, i, i)[0] == 0;
    }
  }

  lemma LastBarsSubset(s: seq<nat>, bars: int)
    ensures forall t :: t in LastBars(s, bars) ==> t in s
  {
  }

  /** Whatever the window type, a gap of at most the fold size keeps every fold's training indices the
      gap away from its test window. */
  lemma SmallGapSeparates(cfg: Config, n: nat, i: nat)
    requires 1 <= i <= cfg.folds && cfg.gap <= FoldSize(cfg, n)
    ensures Separated(cfg, n, i)
  {
    PurgedWithinSlice(cfg, n, i);
    StartsGrow(cfg, n, i);
    if cfg.rollingBars.Some? {
      LastBarsSubset(Purged(cfg, n, i, i), MaxBars(cfg, n, cfg.rollingBars.value));
    }
  }

  /** The configured lookback of a rolling window is not negative. */
  predicate SoundLookback(cfg: Config) {
    cfg.rollingBars.Some? ==> cfg.rollingBars.value >= 0
  }

  lemma TrainingLeft(cfg: Config, n: nat, i: nat)
    requires 1 <= i <= cfg.folds && FoldSize(cfg, n) > 0 && SoundLookback(cfg)
    ensures Training(cfg, n, i) == [] <==> Purged(cfg, n, i, i) == []
    ensures forall t :: t in Training(cfg, n, i) ==> t in Purged(cfg, n, i, i)
  {
    hide Purged;
    if cfg.rollingBars.Some? {
      var bars := MaxBars(cfg, n, cfg.rollingBars.value);
      assert FoldSize(cfg, n) * cfg.folds > 0;
      LastBarsSubset(Purged(cfg, n, i, i), bars);
    }
  }

  /** For any gap, a fold of either window type is separated exactly when the gap fits before its test
      window, or is so long that the slice that wraps around is empty. */
  lemma SeparatedIff(cfg: Config, n: nat, i: nat)
    requires 1 <= i <= cfg.folds && FoldSize(cfg, n) > 0 && SoundLookback(cfg)
    ensures Separated(cfg, n, i) <==> cfg.gap <= TestStart(cfg, n, i) || cfg.gap >= n + TestStart(cfg, n, i)
  {
    PurgedWithinSlice(cfg, n, i);
    StartsGrow(cfg, n, i);
    TrainingLeft(cfg, n, i);
    hide Purged, TestStart, FoldSize, Training;
    if TestStart(cfg, n, i) < cfg.gap < n + TestStart(cfg, n, i) {
      var t := Training(cfg, n, i)[0];
      assert t in Training(cfg, n, i);
    }
  }

  /** Twelve rows, two folds and a gap of 5: the first fold is yielded, and trains on its own test window. */
  lemma WrappedFoldTrainsOnItsTest()
    ensures var cfg := Config(2, 5, 1, None);
      var folds := Folds(cfg, 12, 1);
      && |folds| == 1 && folds[0].test == Range(4, 8)
      && forall t :: t in folds[0].test ==> t in folds[0].train
  {
    var cfg := Config(2, 5, 1, None);
    BeforePurge(cfg, 12, 1);
    assert SliceEnd(cfg, 12, 1) == 11;
    var train := Training(cfg, 12, 1);
    assert train == Range(0, 11);
    assert TestWindow(cfg, 12, 1) == Range(4, 8);
    assert Folds(cfg, 12, 0) == [];
    forall t | t in Range(4, 8)
      ensures t in train
    {
      assert train[t] == t;
    }
  }

  /** Every yielded fold has its training indices more than the gap before its test indices. */
  lemma {:induction false} YieldedFoldsAreSeparated(cfg: Config, n: nat, k: nat)
    requires k <= cfg.folds && cfg.gap <= FoldSize(cfg, n)
    ensures forall fold, t, u :: fold in Folds(cfg, n, k) && t in fold.train && u in fold.test ==> t + cfg.gap < u
  {
    if k > 0 {
      YieldedFoldsAreSeparated(cfg, n, k - 1);
      SmallGapSeparates(cfg, n, k);
      hide Training, FoldSize, TestStart, TestEnd;
      assert forall u :: u in TestWindow(cfg, n, k) ==> TestStart(cfg, n, k) <= u;
    }
  }

  // ----- the folds that are yielded

  lemma MoreTimes(k: nat, a: nat, b: nat)
    requires a <= b
    ensures k * a <= k * b
  {
    var d := b - a;
    assert k * b == k * a + k * d;
  }

  lemma OneMore(k: nat, f: nat)
    ensures k * (f + 1) == k * f + k
  {
  }

  lemma Multiples(k: nat, f: nat, n: nat, size: nat)
    requires k * f <= n < k * f + k
    ensures k * size <= n <==> size <= f
  {
    OneMore(k, f);
    if size <= f {
      MoreTimes(k, size, f);
    } else {
      MoreTimes(k, f + 1, size);
    }
  }

  /** The fold size is the greatest for which the first training window and all test windows fit. */
  lemma FoldSizeIsGreatest(cfg: Config, n: nat, size: nat)
    ensures (cfg.folds + 1) * size <= n <==> size <= FoldSize(cfg, n)
  {
    assert n == (cfg.folds + 1) * FoldSize(cfg, n) + n % (cfg.folds + 1);
    hide FoldSize;
    Multiples(cfg.folds + 1, FoldSize(cfg, n), n, size);
  }

  /** Where the training indices of fold i end, for a gap of at most the fold size. */
  function TrainLength(cfg: Config, n: nat, i: nat): nat
    requires cfg.gap <= FoldSize(cfg, n)
  {
    if i == 1 then FoldSize(cfg, n) - cfg.gap else FoldSize(cfg, n)
  }

  /** The most training indices a rolling window keeps: the configured number, or as many as all the test
      windows hold together if that is 0. */
  function Lookback(cfg: Config, n: nat): nat
    requires SoundLookback(cfg)
  {
    if cfg.rollingBars.None? then n
    else if cfg.rollingBars.value == 0 then FoldSize(cfg, n) * cfg.folds
    else cfg.rollingBars.value
  }

  /** For a gap of at most the fold size a fold of either window type trains on the last indices, no more
      than the lookback, of the first block, which loses the gap for the first fold alone. */
  lemma TrainingExactly(cfg: Config, n: nat, i: nat)
    requires 1 <= i <= cfg.folds && cfg.gap <= FoldSize(cfg, n) && SoundLookback(cfg)
    ensures Training(cfg, n, i) == LastPart(TrainLength(cfg, n, i), Lookback(cfg, n))
  {
    PurgedExactly(cfg, n, i);
    LengthInData(cfg, n, i);
    hide Purged, FoldSize, TrainLength, Range, LastPart;
    if cfg.rollingBars.Some? {
      LastOfRange(TrainLength(cfg, n, i), MaxBars(cfg, n, cfg.rollingBars.value));
    } else {
      WholeOfRange(TrainLength(cfg, n, i), n);
    }
  }

  /** The last indices of 0 .. length - 1, no more than that many. */
  function LastPart(length: nat, most: nat): seq<nat> {
    Range(if length > most then length - most else 0, length)
  }

  lemma WholeOfRange(length: nat, n: nat)
    requires length <= n
    ensures LastPart(length, n) == Range(0, length)
  {
  }

  lemma LengthInData(cfg: Config, n: nat, i: nat)
    requires 1 <= i <= cfg.folds && cfg.gap <= FoldSize(cfg, n)
    ensures TrainLength(cfg, n, i) <= FoldSize(cfg, n) <= n
    ensures FoldSize(cfg, n) <= FoldSize(cfg, n) * cfg.folds
  {
    StartsGrow(cfg, n, 1);
    hide FoldSize;
    assert FoldSize(cfg, n) * (cfg.folds - 1) >= 0;
  }

  lemma PurgedExactly(cfg: Config, n: nat, i: nat)
    requires 1 <= i <= cfg.folds && cfg.gap <= FoldSize(cfg, n)
    ensures Purged(cfg, n, i, i) == Range(0, TrainLength(cfg, n, i))
  {
    var expanding := cfg.(rollingBars := None);
    assert FoldSize(expanding, n) == FoldSize(cfg, n);
    hide FoldSize, Purged;
    TrainingCollapses(expanding, n, i);
    SamePurged(cfg, expanding, n, i, i);
  }

  lemma {:induction false} SamePurged(cfg: Config, cfg': Config, n: nat, i: nat, j: nat)
    requires cfg' == cfg.(rollingBars := cfg'.rollingBars) && j >= 1
    ensures Purged(cfg, n, i, j) == Purged(cfg', n, i, j)
  {
    if j > 1 {
      hide Filter, Until;
      SamePurged(cfg, cfg', n, i, j - 1);
    }
  }

  lemma LastOfRange(length: nat, bars: nat)
    requires bars > 0 || length == 0
    ensures LastBars(Range(0, length), bars) == LastPart(length, bars)
  {
  }

  function YieldedFold(cfg: Config, n: nat, i: nat): Fold
    requires 1 <= i <= cfg.folds && cfg.gap <= FoldSize(cfg, n) && SoundLookback(cfg)
  {
    Fold(LastPart(TrainLength(cfg, n, i), Lookback(cfg, n)), Range(i * FoldSize(cfg, n), (i + 1) * FoldSize(cfg, n)))
  }

  lemma FoldIs(cfg: Config, n: nat, i: nat)
    requires 1 <= i <= cfg.folds && cfg.gap <= FoldSize(cfg, n) && SoundLookback(cfg)
    ensures Fold(Training(cfg, n, i), TestWindow(cfg, n, i)) == YieldedFold(cfg, n, i)
  {
    FoldsFit(FoldSize(cfg, n), cfg.folds, n, i);
    hide Training, LastPart, TrainLength, Range, FoldSize;
    TrainingExactly(cfg, n, i);
  }

  /** For a gap of at most the fold size the yielded folds are exactly those with enough training indices,
      the i-th testing on the i-th block after the first. */
  lemma {:induction false} YieldedExactly(cfg: Config, n: nat, k: nat, fold: Fold)
    requires k <= cfg.folds && cfg.gap <= FoldSize(cfg, n) && SoundLookback(cfg)
    ensures fold in Folds(cfg, n, k) <==>
      exists i: nat :: 1 <= i <= k && fold == YieldedFold(cfg, n, i) && |fold.train| >= cfg.minTrain
  {
    if k > 0 {
      hide Training, TestWindow, YieldedFold, FoldSize, SoundLookback;
      YieldedExactly(cfg, n, k - 1, fold);
      FoldIs(cfg, n, k);
    }
  }
}
