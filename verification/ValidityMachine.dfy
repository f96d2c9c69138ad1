/** The capital-allocation state machine: exponential smoothing, hysteresis bands and a dwell lock. */
module ValidityMachine {
  import opened Prelude

  datatype Validity = GREEN | YELLOW | RED

  datatype Config = Config(
    greenEntry: real,
    greenExit: real,
    yellowEntry: real,
    yellowExit: real,
    redExit: real,
    alpha: real,
    beta: real,
    lockPeriods: nat,
    lockWindow: nat)

  datatype Transition = Transition(from: Validity, to: Validity, time: int, raw: real, smoothed: real)

  datatype Machine = Machine(
    state: Validity,
    previous: Option<real>,
    history: seq<Transition>,
    periods: nat,
    lastTime: Option<int>)

  /** One observation, with the recent validity scores the lock looks at, newest last. */
  datatype Observation = Observation(raw: real, time: int, recent: seq<real>)

  datatype Output = Output(
    time: int, raw: real, smoothed: real, state: Validity, changed: bool, lockActive: bool, periods: nat)

  const Start := Machine(YELLOW, None, [], 0, None)

  function Smooth(cfg: Config, previous: Option<real>, raw: real): real {
    if previous.None? then raw else cfg.alpha * raw + cfg.beta * previous.value
  }

  function Propose(cfg: Config, state: Validity, smoothed: real): Validity {
    match state
    case GREEN =>
      if smoothed < cfg.greenExit then (if smoothed >= cfg.yellowEntry then YELLOW else RED) else GREEN
    case YELLOW =>
      if smoothed >= cfg.greenEntry then GREEN else if smoothed < cfg.yellowExit then RED else YELLOW
    case RED =>
      if smoothed >= cfg.redExit then (if smoothed >= cfg.greenEntry then GREEN else YELLOW) else RED
  }

  function Sum(xs: seq<real>): real {
    if xs == [] then 0.0 else xs[0] + Sum(xs[1..])
  }

  function SquaredDev(xs: seq<real>, c: real): real {
    if xs == [] then 0.0 else (xs[0] - c) * (xs[0] - c) + SquaredDev(xs[1..], c)
  }

  /** The sample standard deviation of the last lockWindow scores exceeds 0.15. It is not a number, and
      so exceeds nothing, for fewer than two scores. */
  predicate Volatile(cfg: Config, recent: seq<real>) {
    |recent| >= cfg.lockWindow >= 2 &&
    var tail := recent[|recent| - cfg.lockWindow..];
    SquaredDev(tail, Sum(tail) / cfg.lockWindow as real) / (cfg.lockWindow - 1) as real > 0.15 * 0.15
  }

  predicate Allowed(cfg: Config, m: Machine, proposed: Validity, recent: seq<real>) {
    proposed == m.state || (m.periods >= cfg.lockPeriods && !Volatile(cfg, recent))
  }

  function Step(cfg: Config, m: Machine, obs: Observation): Machine {
    var smoothed := Smooth(cfg, m.previous, obs.raw);
    var proposed := Propose(cfg, m.state, smoothed);
    if Allowed(cfg, m, proposed, obs.recent) && proposed != m.state
    then Machine(proposed, Some(smoothed), m.history + [Transition(m.state, proposed, obs.time, obs.raw, smoothed)],
                 0, Some(obs.time))
    else m.(previous := Some(smoothed), periods := m.periods + 1)
  }

  function OutputOf(cfg: Config, m: Machine, obs: Observation): Output {
    var smoothed := Smooth(cfg, m.previous, obs.raw);
    var m' := Step(cfg, m, obs);
    Output(obs.time, obs.raw, smoothed, m'.state, m'.state != m.state,
           !Allowed(cfg, m, Propose(cfg, m.state, smoothed), obs.recent), m'.periods)
  }

  function Run(cfg: Config, m: Machine, obs: seq<Observation>): Machine {
    if obs == [] then m else Step(cfg, Run(cfg, m, obs[..|obs| - 1]), obs[|obs| - 1])
  }

  /** A timeline of (score, time) rows, each row seeing all scores up to its own. */
  function Observed(rows: seq<(real, int)>, i: nat): Observation
    requires i < |rows|
  {
    Observation(rows[i].0, rows[i].1, seq(i + 1, k requires 0 <= k <= i => rows[k].0))
  }

  function TimelineMachine(cfg: Config, rows: seq<(real, int)>, i: nat): Machine
    requires i <= |rows|
  {
    if i == 0 then Start else Step(cfg, TimelineMachine(cfg, rows, i - 1), Observed(rows, i - 1))
  }

  function Timeline(cfg: Config, rows: seq<(real, int)>): seq<Output> {
    seq(|rows|, i requires 0 <= i < |rows| => OutputOf(cfg, TimelineMachine(cfg, rows, i), Observed(rows, i)))
  }

  // ----- the machine in place

  class ValidityStateMachine {
    const cfg: Config
    var currentState: Validity
    var previousSmoothed: Option<real>
    var stateHistory: seq<Transition>
    var periodsInState: nat
    var lastTransitionTime: Option<int>

    function View(): Machine
      reads this
    {
      Machine(currentState, previousSmoothed, stateHistory, periodsInState, lastTransitionTime)
    }

    constructor (cfg: Config)
      ensures View() == Start && this.cfg == cfg
    {
      this.cfg := cfg;
      currentState, previousSmoothed, stateHistory, periodsInState, lastTransitionTime := YELLOW, None, [], 0, None;
    }

    method Reset()
      modifies this
      ensures View() == Start
    {
      currentState := YELLOW;
      previousSmoothed := None;
      stateHistory := [];
      periodsInState := 0;
      lastTransitionTime := None;
    }

    method ApplyInertia(raw: real) returns (smoothed: real)
      modifies `previousSmoothed
      ensures smoothed == Smooth(cfg, old(previousSmoothed), raw) && previousSmoothed == Some(smoothed)
    {
      if previousSmoothed.None? {
        smoothed := raw;
      } else {
        smoothed := cfg.alpha * raw + cfg.beta * previousSmoothed.value;
      }
      previousSmoothed := Some(smoothed);
    }

    method CheckRegimePersistenceLock(proposed: Validity, recent: seq<real>) returns (allowed: bool)
      ensures allowed <==> Allowed(cfg, View(), proposed, recent)
    {
      if proposed == currentState {
        return true;
      }
      if periodsInState < cfg.lockPeriods {
        return false;
      }
      return !Volatile(cfg, recent);
    }

    method Transit(raw: real, time: int, recent: seq<real>) returns (out: Output)
      modifies this
      ensures View() == Step(cfg, old(View()), Observation(raw, time, recent))
      ensures out == OutputOf(cfg, old(View()), Observation(raw, time, recent))
    {
      hide Volatile, Smooth, Propose;
      var smoothed := ApplyInertia(raw);
      var proposed := Propose(cfg, currentState, smoothed);
      var allowed := CheckRegimePersistenceLock(proposed, recent);
      var final := if allowed then proposed else currentState;
      var changed := final != currentState;
      if changed {
        stateHistory := stateHistory + [Transition(currentState, final, time, raw, smoothed)];
        currentState := final;
        periodsInState := 0;
        lastTransitionTime := Some(time);
      } else {
        periodsInState := periodsInState + 1;
      }
      return Output(time, raw, smoothed, final, changed, !allowed, periodsInState);
    }

    method ProcessTimeline(rows: seq<(real, int)>) returns (results: seq<Output>)
      modifies this
      ensures results == Timeline(cfg, rows)
      ensures View() == TimelineMachine(cfg, rows, |rows|)
    {
      hide Step, OutputOf;
      results := [];
      Reset();
      for pos := 0 to |rows|
        invariant View() == TimelineMachine(cfg, rows, pos)
        invariant results == Timeline(cfg, rows)[..pos]
      {
        var obs := Observed(rows, pos);
        var result := Transit(obs.raw, obs.time, obs.recent);
        results := results + [result];
      }
    }
  }

  // ----- dwell: changes are far apart and few

  /** The i-th observation of a run changes the state. */
  predicate ChangesAt(cfg: Config, m: Machine, obs: seq<Observation>, i: nat)
    requires i < |obs|
  {
    Run(cfg, m, obs[..i + 1]).state != Run(cfg, m, obs[..i]).state
  }

  lemma RunNext(cfg: Config, m: Machine, obs: seq<Observation>, i: nat)
    requires i < |obs|
    ensures Run(cfg, m, obs[..i + 1]) == Step(cfg, Run(cfg, m, obs[..i]), obs[i])
  {
    hide Step;
    assert obs[..i + 1][..i] == obs[..i];
  }

  lemma {:induction false} PeriodsSinceChange(cfg: Config, m: Machine, obs: seq<Observation>, i: nat, j: nat)
    requires i < j <= |obs| && ChangesAt(cfg, m, obs, i)
    ensures Run(cfg, m, obs[..j]).periods <= j - i - 1
  {
    hide Step, Run;
    RunNext(cfg, m, obs, j - 1);
    StepPeriods(cfg, Run(cfg, m, obs[..j - 1]), obs[j - 1]);
    if j > i + 1 {
      PeriodsSinceChange(cfg, m, obs, i, j - 1);
    }
  }

  lemma StepPeriods(cfg: Config, m: Machine, obs: Observation)
    ensures Step(cfg, m, obs).periods == if Step(cfg, m, obs).state != m.state then 0 else m.periods + 1
  {
    hide Smooth, Propose, Allowed;
  }

  /** Any two state changes of a run are at least lockPeriods + 1 observations apart. */
  lemma ChangesAreFarApart(cfg: Config, m: Machine, obs: seq<Observation>, i: nat, j: nat)
    requires i < j < |obs| && ChangesAt(cfg, m, obs, i) && ChangesAt(cfg, m, obs, j)
    ensures j - i >= cfg.lockPeriods + 1
  {
    hide Smooth, Propose, Volatile;
    PeriodsSinceChange(cfg, m, obs, i, j);
    RunNext(cfg, m, obs, j);
  }

  lemma {:induction false} DwellBudget(cfg: Config, obs: seq<Observation>)
    ensures var m := Run(cfg, Start, obs);
      |m.history| * (cfg.lockPeriods + 1) + m.periods <= |obs|
  {
    if obs != [] {
      DwellBudget(cfg, obs[..|obs| - 1]);
      var m, m' := Run(cfg, Start, obs[..|obs| - 1]), Run(cfg, Start, obs);
      hide Smooth, Propose, Volatile, Run;
      if |m'.history| != |m.history| {
        assert |m'.history| * (cfg.lockPeriods + 1) == |m.history| * (cfg.lockPeriods + 1) + cfg.lockPeriods + 1;
      }
    }
  }

  /** N observations after a reset cause at most floor(N / (lockPeriods + 1)) changes. */
  lemma ChangesAreFew(cfg: Config, obs: seq<Observation>)
    ensures |Run(cfg, Start, obs).history| <= |obs| / (cfg.lockPeriods + 1)
  {
    DwellBudget(cfg, obs);
    hide Run;
    QuotientBound(|Run(cfg, Start, obs).history|, cfg.lockPeriods + 1, |obs|);
  }

  lemma QuotientBound(c: nat, d: nat, n: nat)
    requires d > 0 && c * d <= n
    ensures c <= n / d
  {
    var x := c - n / d;
    assert x * d == c * d - (n / d) * d <= n % d < d;
    if x >= 1 {
      MultipleIsLarge(x, d);
    }
  }

  lemma MultipleIsLarge(x: int, d: nat)
    requires x >= 1
    ensures x * d >= d
  {
    assert (x - 1) * d >= 0;
  }

  // ----- the log of transitions

  /** The log leads from YELLOW to the current state without a gap, and never to where it already is. */
  ghost predicate Chained(history: seq<Transition>, state: Validity) {
    && (forall k :: 0 <= k < |history| ==> history[k].from != history[k].to)
    && (forall k :: 0 < k < |history| ==> history[k].from == history[k - 1].to)
    && (if history == [] then state == YELLOW
        else history[0].from == YELLOW && history[|history| - 1].to == state)
  }

  /** The smoothed scores for which the thresholds name another state, for each pair of states. */
  predicate InBand(cfg: Config, from: Validity, to: Validity, score: real) {
    match (from, to)
    case (GREEN, YELLOW) => cfg.yellowEntry <= score < cfg.greenExit
    case (GREEN, RED) => score < cfg.yellowEntry && score < cfg.greenExit
    case (YELLOW, GREEN) => score >= cfg.greenEntry
    case (YELLOW, RED) => score < cfg.yellowExit && score < cfg.greenEntry
    case (RED, YELLOW) => cfg.redExit <= score < cfg.greenEntry
    case (RED, GREEN) => score >= cfg.redExit && score >= cfg.greenEntry
    case (_, _) => false
  }

  ghost predicate HonestEntries(cfg: Config, history: seq<Transition>) {
    forall k :: 0 <= k < |history| ==> InBand(cfg, history[k].from, history[k].to, history[k].smoothed)
  }

  lemma {:induction false} LogIsChained(cfg: Config, obs: seq<Observation>)
    ensures var m := Run(cfg, Start, obs);
      Chained(m.history, m.state) && HonestEntries(cfg, m.history)
  {
    if obs != [] {
      hide Smooth, Volatile;
      LogIsChained(cfg, obs[..|obs| - 1]);
    }
  }

  /** Returning to GREEN after leaving it takes a smoothed swing of more than greenEntry - greenExit. */
  lemma ReturnToGreenNeedsSwing(cfg: Config, obs: seq<Observation>, i: nat, j: nat)
    requires var h := Run(cfg, Start, obs).history;
      i < j < |h| && h[i].from == GREEN && h[j].to == GREEN
    ensures var h := Run(cfg, Start, obs).history;
      h[j].smoothed - h[i].smoothed > cfg.greenEntry - cfg.greenExit
  {
    LogIsChained(cfg, obs);
  }

  // ----- exactly when the state changes

  /** The state has not changed for lockPeriods observations, the reset included. */
  ghost predicate Settled(cfg: Config, obs: seq<Observation>, i: nat)
    requires i < |obs|
  {
    i >= cfg.lockPeriods && forall j: nat :: i - cfg.lockPeriods <= j < i ==> !ChangesAt(cfg, Start, obs, j)
  }

  lemma {:induction false} PeriodsBound(cfg: Config, obs: seq<Observation>, i: nat, l: nat)
    requires l <= i <= |obs| && forall j: nat :: i - l <= j < i ==> !ChangesAt(cfg, Start, obs, j)
    ensures l <= Run(cfg, Start, obs[..i]).periods <= i
  {
    hide Step, Run;
    if i == 0 {
      NothingObserved(cfg, obs);
    } else {
      assert l > 0 ==> !ChangesAt(cfg, Start, obs, i - 1);
      PeriodsBound(cfg, obs, i - 1, if l == 0 then 0 else l - 1);
      RunNext(cfg, Start, obs, i - 1);
      StepPeriods(cfg, Run(cfg, Start, obs[..i - 1]), obs[i - 1]);
    }
  }

  lemma NothingObserved(cfg: Config, obs: seq<Observation>)
    ensures Run(cfg, Start, obs[..0]) == Start
  {
  }

  lemma SettledIff(cfg: Config, obs: seq<Observation>, i: nat)
    requires i < |obs|
    ensures Settled(cfg, obs, i) <==> Run(cfg, Start, obs[..i]).periods >= cfg.lockPeriods
  {
    hide Run, ChangesAt;
    PeriodsBound(cfg, obs, i, 0);
    if i >= cfg.lockPeriods {
      if Settled(cfg, obs, i) {
        PeriodsBound(cfg, obs, i, cfg.lockPeriods);
      } else {
        var j: nat :| i - cfg.lockPeriods <= j < i && ChangesAt(cfg, Start, obs, j);
        PeriodsSinceChange(cfg, Start, obs, j, i);
      }
    }
  }

  /** One observation, in terms of the bands. */
  lemma StepIff(cfg: Config, m: Machine, obs: Observation, to: Validity)
    requires to != m.state
    ensures Step(cfg, m, obs).state in {m.state, to} ||
      InBand(cfg, m.state, Step(cfg, m, obs).state, Smooth(cfg, m.previous, obs.raw))
    ensures Step(cfg, m, obs).state == to <==>
      && InBand(cfg, m.state, to, Smooth(cfg, m.previous, obs.raw))
      && m.periods >= cfg.lockPeriods && !Volatile(cfg, obs.recent)
    ensures InBand(cfg, m.state, to, Smooth(cfg, m.previous, obs.raw)) ==>
      (OutputOf(cfg, m, obs).lockActive <==> !(m.periods >= cfg.lockPeriods && !Volatile(cfg, obs.recent)))
    ensures OutputOf(cfg, m, obs).lockActive ==>
      exists other :: InBand(cfg, m.state, other, Smooth(cfg, m.previous, obs.raw))
  {
    hide Smooth, Volatile;
    assert OutputOf(cfg, m, obs).lockActive ==>
      InBand(cfg, m.state, Propose(cfg, m.state, Smooth(cfg, m.previous, obs.raw)), Smooth(cfg, m.previous, obs.raw));
  }

  /** Over every run from a reset: an observation changes the state to another one exactly when its smoothed
      score is in that band, the state has not changed for lockPeriods observations and the recent scores
      are not volatile. It is reported as locked exactly when its smoothed score is in some band and one of
      the other two conditions fails. */
  lemma ChangesIff(cfg: Config, obs: seq<Observation>, i: nat, to: Validity)
    requires i < |obs| && to != Run(cfg, Start, obs[..i]).state
    ensures var m, m' := Run(cfg, Start, obs[..i]), Run(cfg, Start, obs[..i + 1]);
      && m'.previous.Some?
      && (m'.state == to <==>
            InBand(cfg, m.state, to, m'.previous.value) && Settled(cfg, obs, i) && !Volatile(cfg, obs[i].recent))
      && (OutputOf(cfg, m, obs[i]).lockActive <==>
            && (exists other :: InBand(cfg, m.state, other, m'.previous.value))
            && !(Settled(cfg, obs, i) && !Volatile(cfg, obs[i].recent)))
  {
    hide Step, Run, Volatile, Smooth, OutputOf, InBand, Settled;
    var m := Run(cfg, Start, obs[..i]);
    RunNext(cfg, Start, obs, i);
    StepSmooths(cfg, m, obs[i]);
    SettledIff(cfg, obs, i);
    StepIff(cfg, m, obs[i], to);
    var score := Smooth(cfg, m.previous, obs[i].raw);
    if exists other :: InBand(cfg, m.state, other, score) {
      var other :| InBand(cfg, m.state, other, score);
      NoBandToItself(cfg, m.state, score);
      StepIff(cfg, m, obs[i], other);
    }
  }

  lemma NoBandToItself(cfg: Config, state: Validity, score: real)
    ensures !InBand(cfg, state, state, score)
  {
  }

  // ----- what volatile means

  /** The sum of the squared distances of all ordered pairs of scores. */
  function PairSpread(xs: seq<real>, all: seq<real>): real {
    if xs == [] then 0.0 else SquaredDev(all, xs[0]) + PairSpread(xs[1..], all)
  }

  function Square(x: real): real {
    x * x
  }

  /** What moving the centre from c to d adds to the squared deviations of n scores of the given sum. */
  function CentreShift(n: real, sum: real, c: real, d: real): real {
    n * Square(d - c) - 2.0 * (d - c) * (sum - n * c)
  }

  lemma CentreShiftStep(n: real, sum: real, c: real, d: real, x: real)
    ensures CentreShift(n + 1.0, x + sum, c, d) == CentreShift(n, sum, c, d) + Square(x - d) - Square(x - c)
    ensures CentreShift(0.0, 0.0, c, d) == 0.0
  {
    var e, y := d - c, x - c;
    assert Square(x - d) == y * y - 2.0 * e * y + e * e;
    assert 2.0 * e * (x + sum - (n + 1.0) * c) == 2.0 * e * (sum - n * c) + 2.0 * e * y;
    assert (n + 1.0) * (e * e) == n * (e * e) + e * e;
  }

  lemma DevStep(xs: seq<real>, c: real)
    requires xs != []
    ensures SquaredDev(xs, c) == Square(xs[0] - c) + SquaredDev(xs[1..], c) && Sum(xs) == xs[0] + Sum(xs[1..])
    ensures |xs| as real == |xs[1..]| as real + 1.0
  {
  }

  lemma {:induction false} DevShift(xs: seq<real>, c: real, d: real)
    ensures SquaredDev(xs, d) == SquaredDev(xs, c) + CentreShift(|xs| as real, Sum(xs), c, d)
  {
    hide CentreShift, Square;
    if xs == [] {
      CentreShiftStep(0.0, 0.0, c, d, 0.0);
    } else {
      DevShift(xs[1..], c, d);
      DevStep(xs, c);
      DevStep(xs, d);
      CentreShiftStep(|xs[1..]| as real, Sum(xs[1..]), c, d, xs[0]);
      hide Sum, SquaredDev;
    }
  }

  /** A product, named so that proofs can treat it as a whole. */
  function Product(x: real, y: real): real {
    x * y
  }

  lemma DevFromMean(all: seq<real>, mean: real, x: real)
    requires Sum(all) == |all| as real * mean
    ensures SquaredDev(all, x) == SquaredDev(all, mean) + Product(|all| as real, Square(x - mean))
  {
    hide Sum, SquaredDev;
    DevShift(all, mean, x);
    NothingOff(2.0 * (x - mean), Sum(all) - |all| as real * mean);
  }

  lemma NothingOff(x: real, off: real)
    requires off == 0.0
    ensures x * off == 0.0
  {
  }

  lemma ProductAdds(n: real, x: real, y: real)
    ensures Product(n, x + y) == Product(n, x) + Product(n, y)
    ensures Product(n + 1.0, x) == Product(n, x) + x
    ensures Product(n, 0.0) == 0.0 == Product(0.0, x)
  {
  }

  lemma {:induction false} PairsFromMean(xs: seq<real>, all: seq<real>, mean: real)
    requires Sum(all) == |all| as real * mean
    ensures PairSpread(xs, all)
         == Product(|xs| as real, SquaredDev(all, mean)) + Product(|all| as real, SquaredDev(xs, mean))
  {
    hide Product, Sum, Square;
    if xs == [] {
      ProductAdds(|all| as real, 0.0, 0.0);
      ProductAdds(0.0, SquaredDev(all, mean), 0.0);
    } else {
      PairStep(xs, all, mean);
      hide SquaredDev, PairSpread;
      PairsFromMean(xs[1..], all, mean);
      DevFromMean(all, mean, xs[0]);
      ProductAdds(|all| as real, Square(xs[0] - mean), SquaredDev(xs[1..], mean));
      ProductAdds(|xs[1..]| as real, SquaredDev(all, mean), 0.0);
      assert |xs| as real == |xs[1..]| as real + 1.0;
    }
  }

  lemma PairStep(xs: seq<real>, all: seq<real>, mean: real)
    requires xs != []
    ensures PairSpread(xs, all) == SquaredDev(all, xs[0]) + PairSpread(xs[1..], all)
    ensures SquaredDev(xs, mean) == Square(xs[0] - mean) + SquaredDev(xs[1..], mean)
  {
  }

  lemma MeanTimes(sum: real, n: real)
    requires n > 0.0
    ensures sum == n * (sum / n)
  {
  }

  lemma SpreadBound(n: real, dev: real, spread: real, limit: real)
    requires n > 1.0 && spread == Product(n, dev) + Product(n, dev)
    ensures dev / (n - 1.0) > limit <==> spread > 2.0 * limit * (n * (n - 1.0))
  {
    var q := dev / (n - 1.0);
    assert q * (n - 1.0) == dev;
    var e, k := q - limit, n * (n - 1.0);
    assert k > 0.0;
    assert n * dev == q * k;
    assert spread - 2.0 * limit * k == 2.0 * (e * k);
    if e > 0.0 {
      assert e * k > 0.0;
    } else {
      assert (-e) * k >= 0.0;
    }
  }

  /** The last w scores, w at least 2, are volatile exactly when the squared distances of their pairs add
      up to more than 0.045 w (w - 1), that is, when they exceed 0.045 on average. */
  lemma VolatileIff(cfg: Config, recent: seq<real>)
    requires |recent| >= cfg.lockWindow >= 2
    ensures var w := cfg.lockWindow as real;
      var tail := recent[|recent| - cfg.lockWindow..];
      Volatile(cfg, recent) <==> PairSpread(tail, tail) > 0.045 * (w * (w - 1.0))
  {
    var tail := recent[|recent| - cfg.lockWindow..];
    hide SquaredDev, Sum, PairSpread;
    PairsDecide(tail, cfg.lockWindow);
  }

  lemma PairsDecide(tail: seq<real>, window: nat)
    requires |tail| == window >= 2
    ensures var w := window as real;
      SquaredDev(tail, Sum(tail) / w) / (window - 1) as real > 0.15 * 0.15
      <==> PairSpread(tail, tail) > 0.045 * (w * (w - 1.0))
  {
    hide *;
    var w := window as real;
    MeanTimes(Sum(tail), w);
    PairsFromMean(tail, tail, Sum(tail) / w);
    SpreadBound(w, SquaredDev(tail, Sum(tail) / w), PairSpread(tail, tail), 0.0225);
  }

  // ----- a timeline is a run, and does not look ahead

  function ObservedUpTo(rows: seq<(real, int)>, i: nat): (obs: seq<Observation>)
    requires i <= |rows|
    ensures |obs| == i && forall k :: 0 <= k < i ==> obs[k] == Observed(rows, k)
  {
    if i == 0 then [] else ObservedUpTo(rows, i - 1) + [Observed(rows, i - 1)]
  }

  /** Row i of a timeline is the output of observation i of the run from a reset. */
  lemma {:induction false} TimelineIsRun(cfg: Config, rows: seq<(real, int)>, i: nat)
    requires i <= |rows|
    ensures TimelineMachine(cfg, rows, i) == Run(cfg, Start, ObservedUpTo(rows, i))
    ensures i < |rows| ==>
      Timeline(cfg, rows)[i] == OutputOf(cfg, Run(cfg, Start, ObservedUpTo(rows, i)), Observed(rows, i))
  {
    hide Step, Observed, OutputOf;
    if i > 0 {
      TimelineIsRun(cfg, rows, i - 1);
      assert ObservedUpTo(rows, i)[..i - 1] == ObservedUpTo(rows, i - 1);
    }
  }

  lemma {:induction false} PrefixMachine(cfg: Config, rows: seq<(real, int)>, k: nat, i: nat)
    requires i <= k <= |rows|
    ensures TimelineMachine(cfg, rows[..k], i) == TimelineMachine(cfg, rows, i)
  {
    if i > 0 {
      PrefixMachine(cfg, rows, k, i - 1);
      PrefixObserved(rows, k, i - 1);
    }
  }

  lemma PrefixObserved(rows: seq<(real, int)>, k: nat, i: nat)
    requires i < k <= |rows|
    ensures Observed(rows[..k], i) == Observed(rows, i)
  {
    assert Observed(rows[..k], i).recent == Observed(rows, i).recent;
  }

  /** The output on a prefix of a timeline is a prefix of its output. */
  lemma TimelineOfPrefix(cfg: Config, rows: seq<(real, int)>, k: nat)
    requires k <= |rows|
    ensures Timeline(cfg, rows[..k]) == Timeline(cfg, rows)[..k]
  {
    hide OutputOf, Observed, TimelineMachine;
    forall i: nat | i < k
      ensures Timeline(cfg, rows[..k])[i] == Timeline(cfg, rows)[i]
    {
      PrefixMachine(cfg, rows, k, i);
      PrefixObserved(rows, k, i);
    }
  }

  // ----- good scores lead to GREEN

  function Pow(b: real, k: nat): real {
    if k == 0 then 1.0 else b * Pow(b, k - 1)
  }

  /** What the smoothed score has at least reached after k scores of at least v. */
  function Reached(cfg: Config, v: real, start: real, k: nat): real {
    v - Pow(cfg.beta, k) * (v - start)
  }

  /** The smoothed score the run starts from; with no previous one the first score is taken as it is. */
  function StartScore(m: Machine, v: real): real {
    if m.previous.Some? then m.previous.value else v
  }

  predicate GoodScores(cfg: Config, obs: seq<Observation>, v: real) {
    forall i :: 0 <= i < |obs| ==> obs[i].raw >= v && !Volatile(cfg, obs[i].recent)
  }

  predicate Smoothing(cfg: Config) {
    cfg.alpha >= 0.0 && cfg.beta >= 0.0 && cfg.alpha + cfg.beta == 1.0
  }

  lemma Mix(alpha: real, beta: real, v: real, raw: real, q: real, before: real)
    requires alpha >= 0.0 && beta >= 0.0 && alpha + beta == 1.0
    requires raw >= v && before >= v - q
    ensures alpha * raw + beta * before >= v - beta * q
  {
    var e, f := raw - v, before - (v - q);
    assert alpha * e >= 0.0 && beta * f >= 0.0;
    assert alpha * (v + e) + beta * (v - q + f) == (alpha + beta) * v + alpha * e + beta * f - beta * q;
  }

  lemma ReachedStep(cfg: Config, v: real, start: real, k: nat)
    ensures Reached(cfg, v, start, k + 1) == v - cfg.beta * (v - Reached(cfg, v, start, k))
    ensures start == v ==> Reached(cfg, v, start, k) == v
  {
    var b, p, d := cfg.beta, Pow(cfg.beta, k), v - start;
    assert b * (p * d) == (b * p) * d;
  }

  lemma ReachedZero(cfg: Config, v: real, start: real)
    ensures Reached(cfg, v, start, 0) == start
  {
  }

  lemma StepSmooths(cfg: Config, m: Machine, obs: Observation)
    ensures Step(cfg, m, obs).previous == Some(Smooth(cfg, m.previous, obs.raw))
  {
    hide Smooth;
  }

  lemma {:induction false} SmoothedReaches(cfg: Config, m: Machine, obs: seq<Observation>, v: real)
    requires Smoothing(cfg) && GoodScores(cfg, obs, v)
    ensures StartScore(Run(cfg, m, obs), v) >= Reached(cfg, v, StartScore(m, v), |obs|)
    ensures obs != [] ==> Run(cfg, m, obs).previous.Some?
  {
    hide Reached, Pow, Volatile, Step;
    var start := StartScore(m, v);
    if obs == [] {
      ReachedZero(cfg, v, start);
    } else {
      var before, last := Run(cfg, m, obs[..|obs| - 1]), obs[|obs| - 1];
      SmoothedReaches(cfg, m, obs[..|obs| - 1], v);
      ReachedStep(cfg, v, start, |obs| - 1);
      StepSmooths(cfg, before, last);
      if before.previous.None? {
        NoneOnlyAtStart(cfg, m, obs[..|obs| - 1]);
        ReachedStep(cfg, v, start, |obs|);
      } else {
        Mix(cfg.alpha, cfg.beta, v, last.raw, v - Reached(cfg, v, start, |obs| - 1), before.previous.value);
      }
    }
  }

  lemma NoneOnlyAtStart(cfg: Config, m: Machine, obs: seq<Observation>)
    requires Run(cfg, m, obs).previous.None?
    ensures obs == [] && m.previous.None?
  {
  }

  lemma Shrink(b: real, p: real)
    requires 0.0 <= b <= 1.0 && 0.0 <= p
    ensures 0.0 <= b * p <= p
  {
  }

  lemma PowStep(b: real, n: nat)
    requires 0.0 <= b <= 1.0 && Pow(b, n) >= 0.0
    ensures 0.0 <= Pow(b, n + 1) <= Pow(b, n)
  {
    Shrink(b, Pow(b, n));
  }

  lemma {:induction false} PowShrinks(b: real, k: nat, n: nat)
    requires 0.0 <= b <= 1.0 && k <= n
    ensures 0.0 <= Pow(b, n) <= Pow(b, k)
  {
    if n > 0 {
      hide Pow;
      PowShrinks(b, if k == n then k - 1 else k, n - 1);
      PowStep(b, n - 1);
    }
  }

  lemma ReachedStays(cfg: Config, v: real, start: real, k: nat, n: nat)
    requires Smoothing(cfg) && k <= n && v > cfg.greenEntry && Reached(cfg, v, start, k) >= cfg.greenEntry
    ensures Reached(cfg, v, start, n) >= cfg.greenEntry
  {
    PowShrinks(cfg.beta, k, n);
    var p, q, d := Pow(cfg.beta, k), Pow(cfg.beta, n), v - start;
    if d <= 0.0 {
      assert q * d <= 0.0;
    } else {
      assert q * d <= p * d;
    }
  }

  predicate OrderedThresholds(cfg: Config) {
    cfg.greenExit <= cfg.greenEntry && cfg.redExit <= cfg.greenEntry
  }

  /** With a smoothed score at green entry and no volatility lock, only the dwell lock stands between
      the machine and GREEN. */
  lemma GoodStep(cfg: Config, m: Machine, obs: Observation)
    requires OrderedThresholds(cfg) && !Volatile(cfg, obs.recent)
    requires Smooth(cfg, m.previous, obs.raw) >= cfg.greenEntry
    ensures var m' := Step(cfg, m, obs);
      if m.state == GREEN || m.periods >= cfg.lockPeriods then m'.state == GREEN else m'.periods == m.periods + 1
  {
    hide Smooth, Volatile;
  }

  function FirstHigh(k: nat): nat {
    if k == 0 then 1 else k
  }

  /** From the first observation whose smoothed score is high, the dwell lock counts down. */
  lemma {:induction false} LockRunsOut(cfg: Config, m: Machine, obs: seq<Observation>, v: real, k: nat)
    requires Smoothing(cfg) && OrderedThresholds(cfg) && GoodScores(cfg, obs, v) && v > cfg.greenEntry
    requires Reached(cfg, v, StartScore(m, v), k) >= cfg.greenEntry
    requires |obs| >= FirstHigh(k)
    ensures var t := Run(cfg, m, obs);
      t.state == GREEN || (t.periods >= |obs| - FirstHigh(k) + 1 && |obs| - FirstHigh(k) < cfg.lockPeriods)
  {
    var before, last := obs[..|obs| - 1], obs[|obs| - 1];
    SmoothedReaches(cfg, m, obs, v);
    ReachedStays(cfg, v, StartScore(m, v), k, |obs|);
    var s := Run(cfg, m, before);
    assert Run(cfg, m, obs) == Step(cfg, s, last);
    StepSmooths(cfg, s, last);
    hide Step, Run, Smooth, Reached, Volatile, Propose;
    GoodStep(cfg, s, last);
    if |before| >= FirstHigh(k) {
      LockRunsOut(cfg, m, before, v, k);
    }
  }

  /** If the raw score stays at or above some v above green entry and k scores suffice for the smoothed
      score to reach green entry, the machine is GREEN after max(k, 1) + lockPeriods observations, so
      within k + lockPeriods + 1, and is GREEN after every later one. */
  lemma GreenAndStaysGreen(cfg: Config, m: Machine, obs: seq<Observation>, v: real, k: nat)
    requires Smoothing(cfg) && OrderedThresholds(cfg) && GoodScores(cfg, obs, v) && v > cfg.greenEntry
    requires Reached(cfg, v, StartScore(m, v), k) >= cfg.greenEntry
    requires |obs| >= FirstHigh(k) + cfg.lockPeriods
    ensures Run(cfg, m, obs).state == GREEN
  {
    hide Run, Reached, Volatile;
    LockRunsOut(cfg, m, obs, v, k);
  }

  // ----- bad scores lead to RED

  predicate BadScores(cfg: Config, obs: seq<Observation>, v: real) {
    forall i :: 0 <= i < |obs| ==> obs[i].raw <= v && !Volatile(cfg, obs[i].recent)
  }

  lemma MixBelow(alpha: real, beta: real, v: real, raw: real, q: real, before: real)
    requires alpha >= 0.0 && beta >= 0.0 && alpha + beta == 1.0
    requires raw <= v && before <= v - q
    ensures alpha * raw + beta * before <= v - beta * q
  {
    var e, f := v - raw, v - q - before;
    assert alpha * e >= 0.0 && beta * f >= 0.0;
    assert alpha * (v - e) + beta * (v - q - f) == (alpha + beta) * v - alpha * e - beta * f - beta * q;
  }

  /** The smoothed score is at most v - beta^k (v - start) after k scores of at most v. */
  lemma {:induction false} SmoothedFalls(cfg: Config, m: Machine, obs: seq<Observation>, v: real)
    requires Smoothing(cfg) && BadScores(cfg, obs, v)
    ensures StartScore(Run(cfg, m, obs), v) <= Reached(cfg, v, StartScore(m, v), |obs|)
    ensures obs != [] ==> Run(cfg, m, obs).previous.Some?
  {
    hide Reached, Pow, Volatile, Step;
    var start := StartScore(m, v);
    if obs == [] {
      ReachedZero(cfg, v, start);
    } else {
      var before, last := Run(cfg, m, obs[..|obs| - 1]), obs[|obs| - 1];
      SmoothedFalls(cfg, m, obs[..|obs| - 1], v);
      ReachedStep(cfg, v, start, |obs| - 1);
      StepSmooths(cfg, before, last);
      if before.previous.None? {
        NoneOnlyAtStart(cfg, m, obs[..|obs| - 1]);
        ReachedStep(cfg, v, start, |obs|);
      } else {
        MixBelow(cfg.alpha, cfg.beta, v, last.raw, v - Reached(cfg, v, start, |obs| - 1), before.previous.value);
      }
    }
  }

  /** A score below all four thresholds on the way to RED. */
  predicate Low(cfg: Config, score: real) {
    score < cfg.yellowExit && score < cfg.yellowEntry && score < cfg.greenExit && score < cfg.redExit
  }

  lemma Between(v: real, d: real, p: real, q: real)
    requires 0.0 <= q <= p
    ensures v - q * d <= Max(v, v - p * d)
  {
    if d >= 0.0 {
      assert q * d >= 0.0;
    } else {
      var e := -d;
      assert (p - q) * e >= 0.0;
      assert (p - q) * e == q * d - p * d;
    }
  }

  lemma ReachedBetween(cfg: Config, v: real, start: real, k: nat, n: nat)
    requires Smoothing(cfg) && k <= n
    ensures Reached(cfg, v, start, n) <= Max(v, Reached(cfg, v, start, k))
  {
    PowShrinks(cfg.beta, k, n);
    hide Pow, Max;
    Between(v, v - start, Pow(cfg.beta, k), Pow(cfg.beta, n));
  }

  lemma ReachedStaysLow(cfg: Config, v: real, start: real, k: nat, n: nat)
    requires Smoothing(cfg) && k <= n && Low(cfg, v) && Low(cfg, Reached(cfg, v, start, k))
    ensures Low(cfg, Reached(cfg, v, start, n))
  {
    hide Reached;
    ReachedBetween(cfg, v, start, k, n);
  }

  /** With a low smoothed score and no volatility lock, only the dwell lock stands between the machine and
      RED. */
  lemma BadStep(cfg: Config, m: Machine, obs: Observation)
    requires OrderedThresholds(cfg) && !Volatile(cfg, obs.recent) && Low(cfg, Smooth(cfg, m.previous, obs.raw))
    ensures var m' := Step(cfg, m, obs);
      if m.state == RED || m.periods >= cfg.lockPeriods then m'.state == RED else m'.periods == m.periods + 1
  {
    hide Smooth, Volatile;
  }

  lemma {:induction false} RedLockRunsOut(cfg: Config, m: Machine, obs: seq<Observation>, v: real, k: nat)
    requires Smoothing(cfg) && OrderedThresholds(cfg) && BadScores(cfg, obs, v) && Low(cfg, v)
    requires Low(cfg, Reached(cfg, v, StartScore(m, v), k))
    requires |obs| >= FirstHigh(k)
    ensures var t := Run(cfg, m, obs);
      t.state == RED || (t.periods >= |obs| - FirstHigh(k) + 1 && |obs| - FirstHigh(k) < cfg.lockPeriods)
  {
    var before, last := obs[..|obs| - 1], obs[|obs| - 1];
    SmoothedFalls(cfg, m, obs, v);
    ReachedStaysLow(cfg, v, StartScore(m, v), k, |obs|);
    var s := Run(cfg, m, before);
    assert Run(cfg, m, obs) == Step(cfg, s, last);
    StepSmooths(cfg, s, last);
    hide Step, Run, Smooth, Reached, Volatile, Propose;
    BadStep(cfg, s, last);
    if |before| >= FirstHigh(k) {
      RedLockRunsOut(cfg, m, before, v, k);
    }
  }

  /** The counterpart: if the raw score stays at or below some low v and k scores suffice for the smoothed
      score to be low, the machine is RED after max(k, 1) + lockPeriods observations and after every later
      one. */
  lemma RedAndStaysRed(cfg: Config, m: Machine, obs: seq<Observation>, v: real, k: nat)
    requires Smoothing(cfg) && OrderedThresholds(cfg) && BadScores(cfg, obs, v) && Low(cfg, v)
    requires Low(cfg, Reached(cfg, v, StartScore(m, v), k))
    requires |obs| >= FirstHigh(k) + cfg.lockPeriods
    ensures Run(cfg, m, obs).state == RED
  {
    hide Run, Reached, Volatile;
    RedLockRunsOut(cfg, m, obs, v, k);
  }
}
