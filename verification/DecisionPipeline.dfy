/** One asset's decision pipeline: a fixed list of stages over a context made afresh each cycle and an
    engine that lives across cycles. Prices, gate readings and the answers of the services a stage calls
    are inputs of the cycle. */
module DecisionPipeline {
  import opened Prelude

  datatype Side = Long | Short

  datatype Signal = Buy | Sell | Flat

  datatype Action = Enter | Defer | Skip

  /** What a polled deferred entry does: it waits, is dropped, or is to be entered and would be filled or
      not. */
  datatype PollReply = Wait | Drop | Trigger(filled: bool)

  datatype Stage =
    | FirstCycleSuppression | BarJumpSuppression | StorePredictionMetadata | UpdateMaeMfe | ResolveSignal
    | RiskOffSuppression | VixGate | SellOnlyFilter | SpreadGate | SessionGate | AdxEntryGate | ConfidenceGate
    | SignalHysteresis | MetaLabelAdvisory | RegimeBarCounter | ConvictionGate | KellySizing | ManagePosition
    | EntryArtifacts | RouteExecutionPolicy | PollDeferredEntries | ProbHistory

  const DEFAULT_STAGES: seq<Stage> := [
    FirstCycleSuppression, BarJumpSuppression, StorePredictionMetadata, UpdateMaeMfe, ResolveSignal,
    RiskOffSuppression, VixGate, SellOnlyFilter, SpreadGate, SessionGate, AdxEntryGate, ConfidenceGate,
    SignalHysteresis, MetaLabelAdvisory, RegimeBarCounter, ConvictionGate, KellySizing, ManagePosition,
    EntryArtifacts, RouteExecutionPolicy, PollDeferredEntries, ProbHistory]

  const STAGE_COUNT := 22

  function StageNo(k: nat): Stage
    requires k < STAGE_COUNT
  {
    DEFAULT_STAGES[k]
  }

  const HYSTERESIS_WINDOW := 3
  const HYSTERESIS_MIN_AGREE := 2
  const GATE_MIN_OBSERVE_CYCLES := 720
  const VIX_GATE_THRESHOLD := 30.0

  datatype AdxGate = AdxGate(threshold: real, observeOnly: bool)

  datatype Config = Config(
    name: string, sellOnly: bool, minConfidence: real, spreadGate: bool, spreadLimit: real,
    window: Option<(int, int)>, adxGate: Option<AdxGate>, kelly: bool, stacking: bool, profitLockPct: real)

  /** A cycle's readings, then the answers it gets. vix and spread are fresh readings; kelly is a
      multiplier from calibrated probabilities. stopped says the position was closed since the last cycle. */
  datatype Inputs = Inputs(
    signal: Signal, closePrice: real, currentPrice: Option<real>, confidence: real, pnl: real,
    jumpActive: bool, riskOff: bool, vix: Option<real>, spread: Option<real>, hour: int, adx: Option<real>,
    kelly: Option<real>, stopped: bool,
    flipGate: bool, mayEnter: bool, stackOk: bool, closeOk: bool, artifactsOk: bool,
    policy: Action, hasPlan: bool, fillOk: bool, cancelAll: bool, longPoll: PollReply, shortPoll: PollReply)

  /** What happened, in order: a signal reaching the hysteresis stage, and every trade or queueing. */
  datatype Event =
    | Reached(side: Side)
    | Flattened
    | Flipped(held: Side, into: Side)
    | Stacked(side: Side)
    | Routed(side: Side, before: Option<Side>, flipAllowed: bool)
    | Queued(side: Side)
    | Triggered(side: Side, before: Option<Side>)

  datatype Engine = Engine(
    position: Option<Side>, pending: seq<Side>, chain: seq<Side>, blocked: map<Stage, nat>, cycles: nat,
    log: seq<Event>)

  datatype Context = Context(newSide: Option<Side>, flipAllowed: bool, abort: bool, currentSide: Option<Side>)

  datatype State = State(e: Engine, x: Context)

  // ----- the stages

  function Clear(s: State): State {
    s.(x := s.x.(newSide := None))
  }

  function ClearIf(s: State, blocks: bool): State {
    if blocks then Clear(s) else s
  }

  function SideOf(signal: Signal): Option<Side> {
    match signal
    case Buy => Some(Long)
    case Sell => Some(Short)
    case Flat => None
  }

  /** The simple gates, each of which clears the side or does nothing. */
  predicate Blocks(c: Config, i: Inputs, stage: Stage, cycles: nat) {
    if stage == BarJumpSuppression then i.jumpActive
    else if stage == RiskOffSuppression then c.name == "AUDUSD" && i.riskOff
    else if stage == VixGate then c.name == "CL" && i.vix.Some? && i.vix.value > VIX_GATE_THRESHOLD
    else if stage == SpreadGate then
      c.spreadGate && cycles >= GATE_MIN_OBSERVE_CYCLES && (i.spread.None? || i.spread.value > c.spreadLimit)
    else if stage == SessionGate then
      c.window.Some? && !(c.window.value.0 <= i.hour < c.window.value.1) && cycles >= GATE_MIN_OBSERVE_CYCLES
    else if stage == AdxEntryGate then
      c.adxGate.Some? && i.adx.Some? && i.adx.value < c.adxGate.value.threshold && !c.adxGate.value.observeOnly
    else if stage == ConfidenceGate then i.confidence < c.minConfidence
    else if stage == KellySizing then c.kelly && i.kelly.Some? && i.kelly.value <= 0.0
    else stage == EntryArtifacts && !i.artifactsOk
  }

  /** The decision's close price, or the current price when that is zero. */
  function FlattenPrice(i: Inputs): Option<real> {
    if i.closePrice != 0.0 then Some(i.closePrice) else i.currentPrice
  }

  predicate Positive(price: Option<real>) {
    price.Some? && price.value > 0.0
  }

  function SellOnly(c: Config, i: Inputs, s: State): State {
    if !c.sellOnly then s
    else if s.e.position == Some(Long) && Positive(FlattenPrice(i)) then
      Clear(if i.closeOk then s.(e := s.e.(position := None, log := s.e.log + [Flattened])) else s)
    else ClearIf(s, s.x.newSide == Some(Long))
  }

  function Appended(chain: seq<Side>, side: Side): seq<Side> {
    var longer := chain + [side];
    if |longer| > HYSTERESIS_WINDOW then longer[1..] else longer
  }

  function Agreeing(chain: seq<Side>, side: Side): nat {
    if chain == [] then 0 else (if chain[0] == side then 1 else 0) + Agreeing(chain[1..], side)
  }

  function Hysteresis(s: State): State {
    if s.x.newSide.None? then s
    else
      var side := s.x.newSide.value;
      var chain := Appended(s.e.chain, side);
      var s' := s.(e := s.e.(chain := chain, log := s.e.log + [Reached(side)]));
      ClearIf(s',
        && s.e.position.Some? && s.x.newSide != s.x.currentSide
        && |chain| >= HYSTERESIS_WINDOW && Agreeing(chain, side) < HYSTERESIS_MIN_AGREE)
  }

  function Conviction(i: Inputs, s: State): State {
    if s.x.newSide.None? || s.x.newSide == s.x.currentSide || s.e.position.None? then s
    else s.(x := s.x.(flipAllowed := i.flipGate))
  }

  /** The entry gate's answer; it never lets in a side that is already queued. */
  predicate CanEnter(i: Inputs, pending: seq<Side>, side: Side) {
    i.mayEnter && side !in pending
  }

  predicate ProfitLocked(c: Config, i: Inputs) {
    Positive(i.currentPrice) && i.pnl > c.profitLockPct
  }

  function Manage(c: Config, i: Inputs, s: State): State {
    var held := s.e.position;
    if held.Some? && s.x.newSide == s.x.currentSide then
      var stacks := c.stacking && i.stackOk && s.x.newSide.Some?;
      Clear(if stacks then s.(e := s.e.(log := s.e.log + [Stacked(s.x.newSide.value)])) else s)
    else
      var s' := ClearIf(s, s.x.newSide.Some? && !CanEnter(i, s.e.pending, s.x.newSide.value));
      if held.Some? && s'.x.flipAllowed && s'.x.newSide.Some? then
        if ProfitLocked(c, i) || !i.closeOk then Clear(s')
        else s'.(e := s'.e.(position := None, log := s'.e.log + [Flipped(held.value, s'.x.newSide.value)]))
      else s'
  }

  function Queue(pending: seq<Side>, side: Side): seq<Side> {
    if side in pending then pending else pending + [side]
  }

  function Route(i: Inputs, s: State): State {
    if s.x.newSide.None? then s
    else
      var side := s.x.newSide.value;
      match i.policy
      case Enter =>
        if i.fillOk then
          s.(e := s.e.(position := Some(side), log := s.e.log + [Routed(side, s.e.position, s.x.flipAllowed)]))
        else s
      case Defer =>
        if i.hasPlan then s.(e := s.e.(pending := Queue(s.e.pending, side), log := s.e.log + [Queued(side)])) else s
      case Skip => s
  }

  function ReplyTo(c: Config, i: Inputs, side: Side): PollReply {
    if c.sellOnly && side == Long then Drop else if side == Long then i.longPoll else i.shortPoll
  }

  /** One queued entry: to be entered it must pass the entry gate, while still queued itself. */
  function PollOne(c: Config, i: Inputs, e: Engine, side: Side): Engine {
    match ReplyTo(c, i, side)
    case Trigger(filled) =>
      if CanEnter(i, e.pending, side) && filled
      then e.(position := Some(side), log := e.log + [Triggered(side, e.position)])
      else e
    case _ => e
  }

  function PollFrom(c: Config, i: Inputs, e: Engine, queue: seq<Side>): Engine
    decreases |queue|
  {
    if queue == [] then e else PollFrom(c, i, PollOne(c, i, e, queue[0]), queue[1..])
  }

  /** The entries that stay queued: those that wait. */
  function Waiting(c: Config, i: Inputs, queue: seq<Side>): seq<Side> {
    if queue == [] then []
    else
      var before := Waiting(c, i, queue[..|queue| - 1]);
      if ReplyTo(c, i, queue[|queue| - 1]).Wait? then before + [queue[|queue| - 1]] else before
  }

  function Poll(c: Config, i: Inputs, e: Engine): Engine {
    if i.cancelAll then e.(pending := [])
    else PollFrom(c, i, e, e.pending).(pending := Waiting(c, i, e.pending))
  }

  function Step(c: Config, i: Inputs, stage: Stage, s: State): State {
    if stage == FirstCycleSuppression then if s.e.cycles <= 1 then s.(x := s.x.(abort := true)) else s
    else if stage == ResolveSignal then s.(x := s.x.(newSide := SideOf(i.signal)))
    else if stage == SellOnlyFilter then SellOnly(c, i, s)
    else if stage == SignalHysteresis then Hysteresis(s)
    else if stage == ConvictionGate then Conviction(i, s)
    else if stage == ManagePosition then Manage(c, i, s)
    else if stage == RouteExecutionPolicy then Route(i, s)
    else if stage == PollDeferredEntries then s.(e := Poll(c, i, s.e))
    else ClearIf(s, Blocks(c, i, stage, s.e.cycles))
  }

  /** The stages that call a service, the two that set the context, and all others, which are gates. */
  lemma StepIs(c: Config, i: Inputs, stage: Stage, s: State)
    ensures stage == FirstCycleSuppression ==>
      Step(c, i, stage, s) == s.(x := s.x.(abort := s.x.abort || s.e.cycles <= 1))
    ensures stage == ResolveSignal ==> Step(c, i, stage, s) == s.(x := s.x.(newSide := SideOf(i.signal)))
    ensures stage == SellOnlyFilter ==> Step(c, i, stage, s) == SellOnly(c, i, s)
    ensures stage == SignalHysteresis ==> Step(c, i, stage, s) == Hysteresis(s)
    ensures stage == ConvictionGate ==> Step(c, i, stage, s) == Conviction(i, s)
    ensures stage == ManagePosition ==> Step(c, i, stage, s) == Manage(c, i, s)
    ensures stage == RouteExecutionPolicy ==> Step(c, i, stage, s) == Route(i, s)
    ensures stage == PollDeferredEntries ==> Step(c, i, stage, s) == s.(e := Poll(c, i, s.e))
    ensures IsGate(stage) ==> Step(c, i, stage, s) == ClearIf(s, Blocks(c, i, stage, s.e.cycles))
  {
    hide SellOnly, Hysteresis, Conviction, Manage, Route, Poll, Blocks;
  }

  predicate IsGate(stage: Stage) {
    && stage != FirstCycleSuppression && stage != ResolveSignal && stage != SellOnlyFilter
    && stage != SignalHysteresis && stage != ConvictionGate && stage != ManagePosition
    && stage != RouteExecutionPolicy && stage != PollDeferredEntries
  }

  lemma {:induction false} PollFromIs(c: Config, i: Inputs, e: Engine, queue: seq<Side>)
    requires forall side :: side in queue ==> side in e.pending
    ensures PollFrom(c, i, e, queue) == e
    decreases |queue|
  {
    if queue != [] {
      assert queue[0] in queue;
      PollFromIs(c, i, e, queue[1..]);
    }
  }

  lemma {:induction false} WaitingIs(c: Config, i: Inputs, queue: seq<Side>)
    ensures forall side :: side in Waiting(c, i, queue) <==> side in queue && ReplyTo(c, i, side).Wait?
  {
    if queue != [] {
      WaitingIs(c, i, queue[..|queue| - 1]);
    }
  }

  /** Polling only ever shortens the queue. Every entry is still queued when the entry gate is asked about
      it, and the gate lets in no side that is queued, so none is ever entered. */
  lemma PollOnlyDrops(c: Config, i: Inputs, e: Engine)
    ensures Poll(c, i, e) == e.(pending := if i.cancelAll then [] else Waiting(c, i, e.pending))
    ensures forall side :: side in Poll(c, i, e).pending <==>
      !i.cancelAll && side in e.pending && ReplyTo(c, i, side).Wait?
  {
    PollFromIs(c, i, e, e.pending);
    WaitingIs(c, i, e.pending);
  }

  // ----- a cycle and a run

  function BlockedAt(blocked: map<Stage, nat>, stage: Stage): nat {
    if stage in blocked then blocked[stage] else 0
  }

  function Count(s: State, stage: Stage): State {
    s.(e := s.e.(blocked := s.e.blocked[stage := BlockedAt(s.e.blocked, stage) + 1]))
  }

  /** A stage took the signal out: it aborted the cycle or cleared the side. */
  predicate TakesOut(s: State, s': State) {
    s'.x.abort || (s.x.newSide.Some? && s'.x.newSide.None?)
  }

  /** One turn of the loop: the stage, and a count against it if it took the signal out. */
  function Turn(c: Config, i: Inputs, stage: Stage, s: State): State {
    var s' := Step(c, i, stage, s);
    if TakesOut(s, s') then Count(s', stage) else s'
  }

  function RunStages(c: Config, i: Inputs, s: State, k: nat): State
    requires k <= STAGE_COUNT
    decreases STAGE_COUNT - k
  {
    if k == STAGE_COUNT then s
    else
      var s' := Turn(c, i, StageNo(k), s);
      if s'.x.abort then s' else RunStages(c, i, s', k + 1)
  }

  function Fresh(e: Engine): State {
    State(e, Context(None, true, false, e.position))
  }

  function Begin(e: Engine, i: Inputs): State {
    Fresh(e.(position := if i.stopped then None else e.position, cycles := e.cycles + 1))
  }

  function After(c: Config, e: Engine, i: Inputs): State {
    RunStages(c, i, Begin(e, i), 0)
  }

  function Result(x: Context): Signal {
    if x.abort || x.newSide.None? then Flat else if x.newSide == Some(Long) then Buy else Sell
  }

  function Run(c: Config, e: Engine, cycles: seq<Inputs>): Engine
    decreases |cycles|
  {
    if cycles == [] then e else Run(c, After(c, e, cycles[0]).e, cycles[1..])
  }

  // ----- the engine, in place

  class AssetEngine {
    const config: Config
    var position: Option<Side>
    var pending: seq<Side>
    var chain: seq<Side>
    var blocked: map<Stage, nat>
    var cycles: nat
    ghost var log: seq<Event>

    ghost function View(): Engine
      reads this
    {
      Engine(position, pending, chain, blocked, cycles, log)
    }

    constructor (config: Config)
      ensures this.config == config
      ensures View() == Engine(None, [], [], map[], 0, [])
    {
      this.config := config;
      position, pending, chain, blocked, cycles, log := None, [], [], map[], 0, [];
    }

    /** A close is the service's to accept. */
    method ClosePosition(accepted: bool, ghost event: Event) returns (ok: bool)
      modifies this
      ensures ok == accepted
      ensures View() == if ok then old(View()).(position := None, log := old(log) + [event]) else old(View())
    {
      ok := accepted;
      if ok {
        position := None;
        log := log + [event];
      }
    }

    method OpenPosition(side: Side, filled: bool, ghost event: Event)
      modifies this
      ensures View() == if filled then old(View()).(position := Some(side), log := old(log) + [event]) else old(View())
    {
      if filled {
        position := Some(side);
        log := log + [event];
      }
    }

    /** Entries leave the queue only after all of them have been polled. */
    method PollPendingEntries(i: Inputs)
      modifies this
      ensures View() == Poll(config, i, old(View()))
    {
      if i.cancelAll {
        pending := [];
        return;
      }
      var queue, kept: seq<Side> := pending, [];
      ghost var start := View();
      assert queue[..0] == [];
      for k := 0 to |queue|
        invariant pending == queue
        invariant PollFrom(config, i, View(), queue[k..]) == PollFrom(config, i, start, queue)
        invariant kept == Waiting(config, i, queue[..k])
      {
        assert queue[k..][0] == queue[k] && queue[k..][1..] == queue[k + 1..];
        assert queue[..k + 1][..k] == queue[..k];
        var reply := ReplyTo(config, i, queue[k]);
        match reply {
          case Wait => kept := kept + [queue[k]];
          case Drop =>
          case Trigger(filled) =>
            var mayEnter := CanEnter(i, pending, queue[k]);
            OpenPosition(queue[k], mayEnter && filled, Triggered(queue[k], position));
        }
      }
      assert queue[|queue|..] == [] && queue[..|queue|] == queue;
      pending := kept;
    }

    /** A cycle: the counter, then the pipeline. */
    method ApplyDecision(i: Inputs) returns (result: Signal)
      modifies this
      ensures View() == After(config, old(View()), i).e
      ensures result == Result(After(config, old(View()), i).x)
    {
      hide RunStages;
      if i.stopped {
        position := None;
      }
      cycles := cycles + 1;
      result := RunDecisionPipeline(this, i);
    }
  }

  class DecisionContext {
    const engine: AssetEngine
    const currentSide: Option<Side>
    var newSide: Option<Side>
    var flipAllowed: bool
    var abort: bool

    ghost function View(): State
      reads this, engine
    {
      State(engine.View(), Context(newSide, flipAllowed, abort, currentSide))
    }

    constructor (engine: AssetEngine)
      ensures this.engine == engine
      ensures View() == Fresh(engine.View())
    {
      this.engine := engine;
      currentSide := engine.position;
      newSide, flipAllowed, abort := None, true, false;
    }
  }

  method ApplySellOnlyFilter(ctx: DecisionContext, i: Inputs)
    modifies ctx, ctx.engine
    ensures ctx.View() == SellOnly(ctx.engine.config, i, old(ctx.View()))
  {
    var engine := ctx.engine;
    if !engine.config.sellOnly {
      return;
    }
    if engine.position == Some(Long) {
      var closePrice := FlattenPrice(i);
      if Positive(closePrice) {
        var _ := engine.ClosePosition(i.closeOk, Flattened);
        ctx.newSide := None;
        return;
      }
    }
    if ctx.newSide == Some(Long) {
      ctx.newSide := None;
    }
  }

  method ApplySignalHysteresis(ctx: DecisionContext)
    modifies ctx, ctx.engine
    ensures ctx.View() == Hysteresis(old(ctx.View()))
  {
    if ctx.newSide.None? {
      return;
    }
    var engine := ctx.engine;
    engine.chain := engine.chain + [ctx.newSide.value];
    engine.log := engine.log + [Reached(ctx.newSide.value)];
    if |engine.chain| > HYSTERESIS_WINDOW {
      engine.chain := engine.chain[1..];
    }
    if engine.position.None? || ctx.newSide == ctx.currentSide {
      return;
    }
    if |engine.chain| < HYSTERESIS_WINDOW {
      return;
    }
    var agree := 0;
    for k := 0 to |engine.chain|
      invariant agree + Agreeing(engine.chain[k..], ctx.newSide.value) == Agreeing(engine.chain, ctx.newSide.value)
    {
      assert engine.chain[k..][1..] == engine.chain[k + 1..];
      if engine.chain[k] == ctx.newSide.value {
        agree := agree + 1;
      }
    }
    if agree < HYSTERESIS_MIN_AGREE {
      ctx.newSide := None;
    }
  }

  method EvaluateConvictionGate(ctx: DecisionContext, i: Inputs)
    modifies ctx
    ensures ctx.View() == Conviction(i, old(ctx.View()))
  {
    if ctx.newSide.None? || ctx.newSide == ctx.currentSide || ctx.engine.position.None? {
      return;
    }
    ctx.flipAllowed := i.flipGate;
  }

  method ManagePositionStage(ctx: DecisionContext, i: Inputs)
    modifies ctx, ctx.engine
    ensures ctx.View() == Manage(ctx.engine.config, i, old(ctx.View()))
  {
    var engine := ctx.engine;
    var held := engine.position;
    if held.Some? && ctx.newSide == ctx.currentSide {
      if engine.config.stacking && i.stackOk && ctx.newSide.Some? {
        engine.log := engine.log + [Stacked(ctx.newSide.value)];
      }
      ctx.newSide := None;
      return;
    }
    if ctx.newSide.Some? && !CanEnter(i, engine.pending, ctx.newSide.value) {
      ctx.newSide := None;
    }
    if held.Some? && ctx.flipAllowed && ctx.newSide.Some? {
      if ProfitLocked(engine.config, i) {
        ctx.newSide := None;
        return;
      }
      var ok := engine.ClosePosition(i.closeOk, Flipped(held.value, ctx.newSide.value));
      if !ok {
        ctx.newSide := None;
      }
    }
  }

  method RouteExecutionPolicyStage(ctx: DecisionContext, i: Inputs)
    modifies ctx.engine
    ensures ctx.View() == Route(i, old(ctx.View()))
  {
    if ctx.newSide.None? {
      return;
    }
    var engine, side := ctx.engine, ctx.newSide.value;
    match i.policy {
      case Enter => engine.OpenPosition(side, i.fillOk, Routed(side, engine.position, ctx.flipAllowed));
      case Defer =>
        if i.hasPlan {
          engine.pending := Queue(engine.pending, side);
          engine.log := engine.log + [Queued(side)];
        }
      case Skip =>
    }
  }

  method RunStage(stage: Stage, ctx: DecisionContext, i: Inputs)
    modifies ctx, ctx.engine
    ensures ctx.View() == Step(ctx.engine.config, i, stage, old(ctx.View()))
  {
    hide SellOnly, Hysteresis, Conviction, Manage, Route, Poll, Blocks, Step;
    StepIs(ctx.engine.config, i, stage, ctx.View());
    if stage == FirstCycleSuppression {
      if ctx.engine.cycles <= 1 {
        ctx.abort := true;
      }
    } else if stage == ResolveSignal {
      ctx.newSide := SideOf(i.signal);
    } else if stage == SellOnlyFilter {
      ApplySellOnlyFilter(ctx, i);
    } else if stage == SignalHysteresis {
      ApplySignalHysteresis(ctx);
    } else if stage == ConvictionGate {
      EvaluateConvictionGate(ctx, i);
    } else if stage == ManagePosition {
      ManagePositionStage(ctx, i);
    } else if stage == RouteExecutionPolicy {
      RouteExecutionPolicyStage(ctx, i);
    } else if stage == PollDeferredEntries {
      ctx.engine.PollPendingEntries(i);
    } else if Blocks(ctx.engine.config, i, stage, ctx.engine.cycles) {
      ctx.newSide := None;
    }
  }

  /** Runs a stage and counts it if it aborted the cycle or cleared the side. */
  method RunAndCount(stage: Stage, ctx: DecisionContext, i: Inputs)
    modifies ctx, ctx.engine
    ensures ctx.View() == Turn(ctx.engine.config, i, stage, old(ctx.View()))
  {
    hide Step;
    var engine, prevNewSide := ctx.engine, ctx.newSide;
    RunStage(stage, ctx, i);
    if ctx.abort || (prevNewSide.Some? && ctx.newSide.None?) {
      engine.blocked := engine.blocked[stage := BlockedAt(engine.blocked, stage) + 1];
    }
  }

  lemma StagesStep(c: Config, i: Inputs, s: State, k: nat)
    requires k < STAGE_COUNT
    ensures var s' := Turn(c, i, StageNo(k), s);
      RunStages(c, i, s, k) == if s'.x.abort then s' else RunStages(c, i, s', k + 1)
  {
    hide Turn;
  }

  lemma StagesEnd(c: Config, i: Inputs, s: State)
    ensures RunStages(c, i, s, STAGE_COUNT) == s
  {
  }

  method RunDecisionPipeline(engine: AssetEngine, i: Inputs) returns (result: Signal)
    modifies engine
    ensures engine.View() == RunStages(engine.config, i, Fresh(old(engine.View())), 0).e
    ensures result == Result(RunStages(engine.config, i, Fresh(old(engine.View())), 0).x)
  {
    hide Turn, RunStages;
    var ctx := new DecisionContext(engine);
    ghost var end := RunStages(engine.config, i, ctx.View(), 0);
    var k := 0;
    while k < |DEFAULT_STAGES| && !ctx.abort
      invariant k <= STAGE_COUNT
      invariant if ctx.abort then ctx.View() == end else RunStages(engine.config, i, ctx.View(), k) == end
    {
      StagesStep(engine.config, i, ctx.View(), k);
      RunAndCount(DEFAULT_STAGES[k], ctx, i);
      k := k + 1;
    }
    StagesEnd(engine.config, i, ctx.View());
    result := if ctx.abort || ctx.newSide.None? then Flat else if ctx.newSide == Some(Long) then Buy else Sell;
  }

  // ----- the order of the stages

  function Position(stage: Stage): nat {
    match stage
    case FirstCycleSuppression => 0 case BarJumpSuppression => 1 case StorePredictionMetadata => 2
    case UpdateMaeMfe => 3 case ResolveSignal => 4 case RiskOffSuppression => 5 case VixGate => 6
    case SellOnlyFilter => 7 case SpreadGate => 8 case SessionGate => 9 case AdxEntryGate => 10
    case ConfidenceGate => 11 case SignalHysteresis => 12 case MetaLabelAdvisory => 13
    case RegimeBarCounter => 14 case ConvictionGate => 15 case KellySizing => 16 case ManagePosition => 17
    case EntryArtifacts => 18 case RouteExecutionPolicy => 19 case PollDeferredEntries => 20
    case ProbHistory => 21
  }

  lemma StageAt(k: nat)
    requires k < STAGE_COUNT
    ensures Position(StageNo(k)) == k
  {
  }

  lemma AtStage(stage: Stage)
    ensures Position(stage) < STAGE_COUNT && StageNo(Position(stage)) == stage
  {
  }

  lemma Places(stage: Stage)
    ensures Position(stage) == 0 <==> stage == FirstCycleSuppression
    ensures Position(stage) == 4 <==> stage == ResolveSignal
    ensures Position(stage) == 7 <==> stage == SellOnlyFilter
    ensures Position(stage) == 12 <==> stage == SignalHysteresis
    ensures Position(stage) == 15 <==> stage == ConvictionGate
    ensures Position(stage) == 17 <==> stage == ManagePosition
    ensures Position(stage) == 19 <==> stage == RouteExecutionPolicy
    ensures Position(stage) == 20 <==> stage == PollDeferredEntries
  {
  }

  lemma SameStage(stage: Stage, k: nat)
    requires k < STAGE_COUNT
    ensures stage == StageNo(k) <==> Position(stage) == k
  {
    AtStage(stage);
    StageAt(k);
  }

  /** Where a cycle ends: after the first stage when that aborts it. */
  function End(s: State): nat {
    if s.x.abort then 1 else 22
  }

  // ----- the side

  /** Before the signal is resolved there is no side; after it, the signal's or none. */
  ghost predicate SideKept(i: Inputs, k: nat, s: State) {
    && (k <= 4 ==> s.x.newSide.None?)
    && (s.x.newSide.Some? ==> s.x.newSide == SideOf(i.signal))
    && (s.x.abort ==> k == 1)
  }

  /** No service sets the side: it keeps it or clears it. */
  ghost predicate OnlyClears(x: Context, y: Context) {
    (y.newSide == x.newSide || y.newSide.None?) && y.abort == x.abort
  }

  lemma ServicesOnlyClear(c: Config, i: Inputs, s: State)
    ensures OnlyClears(s.x, SellOnly(c, i, s).x) && OnlyClears(s.x, Hysteresis(s).x)
    ensures OnlyClears(s.x, Conviction(i, s).x) && OnlyClears(s.x, Manage(c, i, s).x) && OnlyClears(s.x, Route(i, s).x)
  {
    hide Appended, Agreeing, CanEnter, Queue, FlattenPrice, ProfitLocked;
  }

  lemma StepOnlyClears(c: Config, i: Inputs, stage: Stage, s: State)
    requires Position(stage) !in {0, 4}
    ensures OnlyClears(s.x, Step(c, i, stage, s).x)
  {
    hide Blocks, Poll, SellOnly, Hysteresis, Conviction, Manage, Route;
    ServicesOnlyClear(c, i, s);
  }

  lemma TurnOnlyClears(c: Config, i: Inputs, stage: Stage, s: State)
    ensures Position(stage) !in {0, 4} ==> OnlyClears(s.x, Turn(c, i, stage, s).x)
    ensures Position(stage) == 4 ==> Turn(c, i, stage, s).x == s.x.(newSide := SideOf(i.signal))
    ensures Position(stage) == 0 ==> Turn(c, i, stage, s).x == s.x.(abort := s.x.abort || s.e.cycles <= 1)
  {
    AtStage(stage);
    if Position(stage) == 4 {
      assert stage == ResolveSignal;
    } else if Position(stage) == 0 {
      assert stage == FirstCycleSuppression;
    } else {
      StepOnlyClears(c, i, stage, s);
      hide Step, Position;
    }
  }

  lemma TurnSide(c: Config, i: Inputs, stage: Stage, s: State)
    requires SideKept(i, Position(stage), s) && !s.x.abort
    ensures SideKept(i, Position(stage) + 1, Turn(c, i, stage, s))
    ensures Position(stage) > 4 ==> Turn(c, i, stage, s).x.newSide in {s.x.newSide, None}
    ensures Turn(c, i, stage, s).x.abort <==> Position(stage) == 0 && s.e.cycles <= 1
  {
    hide Turn, Position;
    TurnOnlyClears(c, i, stage, s);
  }

  lemma {:induction false} StagesSide(c: Config, i: Inputs, s: State, k: nat)
    requires k <= STAGE_COUNT && SideKept(i, k, s) && !s.x.abort
    ensures var t := RunStages(c, i, s, k); SideKept(i, End(t), t)
    ensures RunStages(c, i, s, k).x.abort <==> k == 0 && s.e.cycles <= 1
    decreases STAGE_COUNT - k
  {
    if k < STAGE_COUNT {
      hide Turn, SideKept;
      StageAt(k);
      TurnSide(c, i, StageNo(k), s);
      if !Turn(c, i, StageNo(k), s).x.abort {
        StagesSide(c, i, Turn(c, i, StageNo(k), s), k + 1);
      }
    }
  }

  /** A cycle ends flat or with exactly the incoming signal; the first cycle of an engine is aborted,
      and no other. */
  lemma ResultIsSignalOrFlat(c: Config, e: Engine, i: Inputs)
    ensures Result(After(c, e, i).x) in {i.signal, Flat}
    ensures After(c, e, i).x.abort <==> e.cycles == 0
  {
    StagesSide(c, i, Begin(e, i), 0);
    hide RunStages;
  }

  // ----- the bar-jump timer

  ghost predicate SameButJump(i: Inputs, j: Inputs) {
    j == i.(jumpActive := j.jumpActive)
  }

  lemma ServicesReadNoJump(c: Config, i: Inputs, j: Inputs, s: State)
    requires SameButJump(i, j)
    ensures SellOnly(c, i, s) == SellOnly(c, j, s) && Conviction(i, s) == Conviction(j, s)
    ensures Manage(c, i, s) == Manage(c, j, s) && Route(i, s) == Route(j, s)
  {
    hide Queue;
  }

  lemma GatesReadNoJump(c: Config, i: Inputs, j: Inputs, stage: Stage, cycles: nat)
    requires SameButJump(i, j) && stage != BarJumpSuppression
    ensures Blocks(c, i, stage, cycles) == Blocks(c, j, stage, cycles)
  {
  }

  lemma StepReadsNoJump(c: Config, i: Inputs, j: Inputs, stage: Stage, s: State)
    requires SameButJump(i, j) && (stage == BarJumpSuppression ==> s.x.newSide.None?)
    ensures Step(c, i, stage, s) == Step(c, j, stage, s)
  {
    hide SellOnly, Hysteresis, Conviction, Manage, Route, Poll, Blocks;
    if stage == PollDeferredEntries {
      PollIgnoresJump(c, i, j, s.e);
    } else if stage == BarJumpSuppression {
      assert Clear(s) == s;
    } else {
      GatesReadNoJump(c, i, j, stage, s.e.cycles);
      ServicesReadNoJump(c, i, j, s);
      hide SameButJump;
      StepIs(c, i, stage, s);
      StepIs(c, j, stage, s);
    }
  }

  lemma TurnIgnoresJump(c: Config, i: Inputs, j: Inputs, stage: Stage, s: State)
    requires SameButJump(i, j) && SideKept(i, Position(stage), s) && !s.x.abort
    ensures Turn(c, i, stage, s) == Turn(c, j, stage, s)
  {
    AtStage(stage);
    assert stage == BarJumpSuppression ==> Position(stage) == 1;
    hide Step, Position;
    StepReadsNoJump(c, i, j, stage, s);
  }

  lemma {:induction false} WaitingIgnoresJump(c: Config, i: Inputs, j: Inputs, queue: seq<Side>)
    requires SameButJump(i, j)
    ensures Waiting(c, i, queue) == Waiting(c, j, queue)
  {
    if queue != [] {
      WaitingIgnoresJump(c, i, j, queue[..|queue| - 1]);
    }
  }

  lemma PollIgnoresJump(c: Config, i: Inputs, j: Inputs, e: Engine)
    requires SameButJump(i, j)
    ensures Poll(c, i, e) == Poll(c, j, e)
  {
    hide Poll, Waiting;
    PollOnlyDrops(c, i, e);
    PollOnlyDrops(c, j, e);
    WaitingIgnoresJump(c, i, j, e.pending);
  }

  lemma {:induction false} StagesIgnoreJump(c: Config, i: Inputs, j: Inputs, s: State, k: nat)
    requires SameButJump(i, j) && k <= STAGE_COUNT && SideKept(i, k, s) && !s.x.abort
    ensures RunStages(c, i, s, k) == RunStages(c, j, s, k)
    decreases STAGE_COUNT - k
  {
    if k < STAGE_COUNT {
      hide Turn, SideKept, SameButJump;
      StageAt(k);
      TurnIgnoresJump(c, i, j, StageNo(k), s);
      TurnSide(c, i, StageNo(k), s);
      if !Turn(c, i, StageNo(k), s).x.abort {
        StagesIgnoreJump(c, i, j, Turn(c, i, StageNo(k), s), k + 1);
      }
    }
  }

  /** The bar-jump timer changes nothing: not the result, the trades or the counters of any cycle. */
  lemma JumpTimerIsIgnored(c: Config, e: Engine, i: Inputs, j: Inputs)
    requires SameButJump(i, j)
    ensures After(c, e, i) == After(c, e, j)
  {
    hide RunStages;
    StagesIgnoreJump(c, i, j, Begin(e, i), 0);
  }

  lemma {:induction false} JumpTimerIsIgnoredInRuns(c: Config, e: Engine, a: seq<Inputs>, b: seq<Inputs>)
    requires |a| == |b| && forall k :: 0 <= k < |a| ==> SameButJump(a[k], b[k])
    ensures Run(c, e, a) == Run(c, e, b)
    decreases |a|
  {
    if a != [] {
      hide After, SameButJump;
      JumpTimerIsIgnored(c, e, a[0], b[0]);
      JumpTimerIsIgnoredInRuns(c, After(c, e, a[0]).e, a[1..], b[1..]);
    }
  }

  // ----- the counters

  function TotalFrom(blocked: map<Stage, nat>, k: nat): nat
    requires k <= STAGE_COUNT
    decreases STAGE_COUNT - k
  {
    if k == STAGE_COUNT then 0 else BlockedAt(blocked, StageNo(k)) + TotalFrom(blocked, k + 1)
  }

  /** The sum of the block counters. */
  function Total(blocked: map<Stage, nat>): nat {
    TotalFrom(blocked, 0)
  }

  lemma BlockedAfter(blocked: map<Stage, nat>, stage: Stage, other: Stage)
    ensures BlockedAt(blocked[stage := BlockedAt(blocked, stage) + 1], other)
         == BlockedAt(blocked, other) + if other == stage then 1 else 0
  {
  }

  lemma {:induction false} CountAdds(blocked: map<Stage, nat>, stage: Stage, k: nat)
    requires k <= STAGE_COUNT
    ensures TotalFrom(blocked[stage := BlockedAt(blocked, stage) + 1], k)
         == TotalFrom(blocked, k) + if Position(stage) >= k then 1 else 0
    decreases STAGE_COUNT - k
  {
    AtStage(stage);
    if k < STAGE_COUNT {
      SameStage(stage, k);
      BlockedAfter(blocked, stage, StageNo(k));
      hide Position, StageNo, BlockedAt;
      CountAdds(blocked, stage, k + 1);
    }
  }

  lemma ServicesKeepBlocked(c: Config, i: Inputs, s: State)
    ensures SellOnly(c, i, s).e.blocked == Hysteresis(s).e.blocked == Conviction(i, s).e.blocked == s.e.blocked
    ensures Manage(c, i, s).e.blocked == Route(i, s).e.blocked == Poll(c, i, s.e).blocked == s.e.blocked
  {
    hide Poll, Waiting, Appended, Agreeing, CanEnter, Queue, ProfitLocked, FlattenPrice;
    PollOnlyDrops(c, i, s.e);
  }

  lemma StepKeepsBlocked(c: Config, i: Inputs, stage: Stage, s: State)
    ensures Step(c, i, stage, s).e.blocked == s.e.blocked
  {
    StepIs(c, i, stage, s);
    ServicesKeepBlocked(c, i, s);
    hide Step, SellOnly, Hysteresis, Conviction, Manage, Route, Poll, Blocks;
  }

  /** Whether a count is due by stage k: the cycle was aborted, or its signal has been cleared. */
  ghost predicate Lost(i: Inputs, k: nat, s: State) {
    s.x.abort || (k > 4 && i.signal != Flat && s.x.newSide.None?)
  }

  lemma LostOnce(c: Config, i: Inputs, stage: Stage, s: State)
    requires SideKept(i, Position(stage), s) && !s.x.abort
    ensures var k, t := Position(stage), Step(c, i, stage, s);
      (if Lost(i, k + 1, t) then 1 else 0) == (if Lost(i, k, s) then 1 else 0) + (if TakesOut(s, t) then 1 else 0)
  {
    hide SellOnly, Hysteresis, Conviction, Manage, Route, Poll, Blocks;
    TurnSide(c, i, stage, s);
    AtStage(stage);
    assert Position(stage) == 4 ==> stage == ResolveSignal;
  }

  lemma TurnCounts(c: Config, i: Inputs, stage: Stage, s: State)
    requires SideKept(i, Position(stage), s) && !s.x.abort
    ensures var k, t := Position(stage), Turn(c, i, stage, s);
      Total(t.e.blocked) - Total(s.e.blocked)
      == (if Lost(i, k + 1, t) then 1 else 0) - (if Lost(i, k, s) then 1 else 0)
  {
    hide Step, Position, TotalFrom, SideKept, BlockedAt;
    var t := Step(c, i, stage, s);
    StepKeepsBlocked(c, i, stage, s);
    LostOnce(c, i, stage, s);
    CountAdds(t.e.blocked, stage, 0);
  }

  lemma {:induction false} StagesCount(c: Config, i: Inputs, s: State, k: nat)
    requires k <= STAGE_COUNT && SideKept(i, k, s) && !s.x.abort
    ensures var t := RunStages(c, i, s, k);
      Total(t.e.blocked) - Total(s.e.blocked) == (if Lost(i, 22, t) then 1 else 0) - (if Lost(i, k, s) then 1 else 0)
    decreases STAGE_COUNT - k
  {
    hide Turn, SideKept, Total, Position, StageNo, RunStages;
    if k == STAGE_COUNT {
      StagesEnd(c, i, s);
    } else {
      StagesStep(c, i, s, k);
      StageAt(k);
      TurnCounts(c, i, StageNo(k), s);
      TurnSide(c, i, StageNo(k), s);
      if !Turn(c, i, StageNo(k), s).x.abort {
        StagesCount(c, i, Turn(c, i, StageNo(k), s), k + 1);
      }
    }
  }

  /** The cycles of a run that were aborted, or whose BUY or SELL ended flat. */
  function LostCycles(c: Config, e: Engine, cycles: seq<Inputs>): nat
    decreases |cycles|
  {
    if cycles == [] then 0
    else
      var t := After(c, e, cycles[0]);
      (if t.x.abort || (cycles[0].signal != Flat && Result(t.x) == Flat) then 1 else 0)
      + LostCycles(c, t.e, cycles[1..])
  }

  lemma CycleCounts(c: Config, e: Engine, i: Inputs)
    ensures Total(After(c, e, i).e.blocked) == Total(e.blocked) + LostCycles(c, e, [i])
  {
    StagesCount(c, i, Begin(e, i), 0);
    hide RunStages, Total;
    assert LostCycles(c, After(c, e, i).e, [i][1..]) == 0;
  }

  /** Every lost signal is counted once: over any run the counters grow by the number of aborted cycles
      plus the number of cycles whose BUY or SELL ended flat. */
  lemma {:induction false} CountersBalance(c: Config, e: Engine, cycles: seq<Inputs>)
    ensures Total(Run(c, e, cycles).blocked) == Total(e.blocked) + LostCycles(c, e, cycles)
    decreases |cycles|
  {
    if cycles != [] {
      hide After, Total;
      CycleCounts(c, e, cycles[0]);
      CountersBalance(c, After(c, e, cycles[0]).e, cycles[1..]);
    }
  }

  // ----- sell-only assets

  predicate TakesLong(event: Event) {
    match event
    case Stacked(side) => side == Long
    case Routed(side, _, _) => side == Long
    case Queued(side) => side == Long
    case Triggered(side, _) => side == Long
    case _ => false
  }

  /** Since the first from events, nothing was opened, added to or queued long. */
  ghost predicate NoLongSince(log: seq<Event>, from: nat) {
    from <= |log| && forall j :: from <= j < |log| ==> !TakesLong(log[j])
  }

  /** No long since the start: none taken, and none held or queued that was not there then. */
  ghost predicate NoNewLong(start: Engine, e: Engine) {
    && NoLongSince(e.log, |start.log|)
    && (e.position == Some(Long) ==> start.position == Some(Long))
    && (Long in e.pending ==> Long in start.pending)
  }

  /** From the filter on there is no long side either. */
  ghost predicate SellOnlyKept(start: Engine, k: nat, s: State) {
    NoNewLong(start, s.e) && (k > 7 ==> s.x.newSide != Some(Long))
  }

  lemma EventTakesNoLong(start: Engine, e: Engine, event: Event)
    requires NoNewLong(start, e) && !TakesLong(event)
    ensures NoLongSince(e.log + [event], |start.log|)
  {
  }

  lemma FilterSellOnly(c: Config, i: Inputs, start: Engine, s: State)
    requires c.sellOnly && NoNewLong(start, s.e)
    ensures NoNewLong(start, SellOnly(c, i, s).e) && SellOnly(c, i, s).x.newSide != Some(Long)
  {
    EventTakesNoLong(start, s.e, Flattened);
    hide NoLongSince;
  }

  lemma ServicesSellOnly(c: Config, i: Inputs, start: Engine, s: State)
    requires NoNewLong(start, s.e) && s.x.newSide != Some(Long)
    ensures NoNewLong(start, Hysteresis(s).e) && NoNewLong(start, Manage(c, i, s).e) && NoNewLong(start, Route(i, s).e)
    ensures Route(i, s).e.position == Some(Long) ==> s.e.position == Some(Long)
    ensures Hysteresis(s).e.position == s.e.position
    ensures Manage(c, i, s).e.position == Some(Long) ==> s.e.position == Some(Long)
  {
    hide NoLongSince, Appended, Agreeing, Queue;
    if s.x.newSide.Some? {
      var side := s.x.newSide.value;
      QueueAddsOne(s.e.pending, side);
      EventTakesNoLong(start, s.e, Queued(side));
      EventTakesNoLong(start, s.e, Stacked(side));
      EventTakesNoLong(start, s.e, Routed(side, s.e.position, s.x.flipAllowed));
      EventTakesNoLong(start, s.e, Reached(side));
      if s.e.position.Some? {
        EventTakesNoLong(start, s.e, Flipped(s.e.position.value, side));
      }
    }
  }

  lemma TurnSellOnly(c: Config, i: Inputs, start: Engine, stage: Stage, s: State)
    requires c.sellOnly && SellOnlyKept(start, Position(stage), s) && SideKept(i, Position(stage), s) && !s.x.abort
    ensures SellOnlyKept(start, Position(stage) + 1, Turn(c, i, stage, s))
    ensures Turn(c, i, stage, s).e.position == Some(Long) ==> s.e.position == Some(Long)
  {
    TurnSide(c, i, stage, s);
    StepSellOnly(c, i, start, stage, s);
    hide Step, NoLongSince, Position, SideKept;
  }

  lemma PollSellOnly(c: Config, i: Inputs, start: Engine, e: Engine)
    requires c.sellOnly && NoNewLong(start, e)
    ensures NoNewLong(start, Poll(c, i, e)) && (Poll(c, i, e).position == Some(Long) ==> e.position == Some(Long))
  {
    hide NoLongSince, Poll, Waiting;
    PollOnlyDrops(c, i, e);
  }

  lemma StepSellOnly(c: Config, i: Inputs, start: Engine, stage: Stage, s: State)
    requires c.sellOnly && SellOnlyKept(start, Position(stage), s) && SideKept(i, Position(stage), s) && !s.x.abort
    ensures NoNewLong(start, Step(c, i, stage, s).e)
    ensures stage == SellOnlyFilter ==> Step(c, i, stage, s).x.newSide != Some(Long)
    ensures Step(c, i, stage, s).e.position == Some(Long) ==> s.e.position == Some(Long)
  {
    StepIs(c, i, stage, s);
    Places(stage);
    if stage == SellOnlyFilter {
      FilterSellOnly(c, i, start, s);
      hide *;
    } else if stage == PollDeferredEntries {
      PollSellOnly(c, i, start, s.e);
      hide *;
    } else if stage == SignalHysteresis || stage == ManagePosition || stage == RouteExecutionPolicy {
      ServicesSellOnly(c, i, start, s);
      hide *;
    } else {
      hide NoNewLong, Blocks, Poll, Route, Hysteresis, Manage, SellOnly, SideKept, Step, Position;
      assert Step(c, i, stage, s).e == s.e;
    }
  }

  lemma QueueAddsOne(pending: seq<Side>, side: Side)
    ensures forall other :: other in Queue(pending, side) <==> other in pending || other == side
  {
  }

  /** A long position at a positive price, with a close that is accepted, does not outlive the filter. */
  lemma TurnFlattens(c: Config, i: Inputs, s: State)
    requires c.sellOnly && Positive(FlattenPrice(i)) && i.closeOk
    ensures Turn(c, i, SellOnlyFilter, s).e.position != Some(Long)
  {
  }

  lemma {:induction false} StagesSellOnly(c: Config, i: Inputs, start: Engine, s: State, k: nat)
    requires c.sellOnly && k <= STAGE_COUNT
    requires SellOnlyKept(start, k, s) && SideKept(i, k, s) && !s.x.abort
    ensures NoNewLong(start, RunStages(c, i, s, k).e)
    ensures RunStages(c, i, s, k).e.position == Some(Long) ==> s.e.position == Some(Long)
    ensures k <= 7 && !RunStages(c, i, s, k).x.abort && Positive(FlattenPrice(i)) && i.closeOk ==>
      RunStages(c, i, s, k).e.position != Some(Long)
    decreases STAGE_COUNT - k
  {
    if k < STAGE_COUNT {
      hide Turn, SideKept, NoNewLong, FlattenPrice;
      StageAt(k);
      AtStage(SellOnlyFilter);
      var stage := StageNo(k);
      TurnSellOnly(c, i, start, stage, s);
      TurnSide(c, i, stage, s);
      if Positive(FlattenPrice(i)) && i.closeOk {
        TurnFlattens(c, i, s);
      }
      if !Turn(c, i, stage, s).x.abort {
        StagesSellOnly(c, i, start, Turn(c, i, stage, s), k + 1);
      }
    }
  }

  lemma CycleSellOnly(c: Config, start: Engine, e: Engine, i: Inputs)
    requires c.sellOnly && NoNewLong(start, e)
    ensures NoNewLong(start, After(c, e, i).e)
    ensures After(c, e, i).e.position == Some(Long) ==> e.position == Some(Long)
  {
    StagesSellOnly(c, i, start, Begin(e, i), 0);
    hide RunStages;
  }

  /** On a sell-only asset no run opens, adds to or queues a long, whatever it starts with; it is long
      afterwards only if it was long before. */
  lemma {:induction false} SellOnlyTakesNoLong(c: Config, start: Engine, e: Engine, cycles: seq<Inputs>)
    requires c.sellOnly && NoNewLong(start, e)
    ensures NoNewLong(start, Run(c, e, cycles))
    decreases |cycles|
  {
    if cycles != [] {
      hide After, NoNewLong;
      CycleSellOnly(c, start, e, cycles[0]);
      SellOnlyTakesNoLong(c, start, After(c, e, cycles[0]).e, cycles[1..]);
    }
  }

  lemma NoNewLongAtStart(e: Engine)
    ensures NoNewLong(e, e)
  {
  }

  /** From the second cycle on, a cycle with a positive close price and an accepted close ends not long,
      and so does every cycle after it. */
  lemma SellOnlyEndsNotLong(c: Config, e: Engine, i: Inputs, rest: seq<Inputs>)
    requires c.sellOnly && e.cycles >= 1 && Positive(FlattenPrice(i)) && i.closeOk
    ensures Run(c, e, [i] + rest).position != Some(Long)
  {
    ResultIsSignalOrFlat(c, e, i);
    StagesSellOnly(c, i, e, Begin(e, i), 0);
    hide RunStages;
    var e' := After(c, e, i).e;
    assert ([i] + rest)[1..] == rest;
    NoNewLongAtStart(e');
    SellOnlyTakesNoLong(c, e', e', rest);
  }

  // ----- routing

  /** Every entry since then was routed, over a position held exactly when the conviction gate had refused
      the flip, then onto the other side; and never if gateOpen. No deferred entry was ever entered. */
  ghost predicate RoutesSince(log: seq<Event>, from: nat, gateOpen: bool) {
    from <= |log| && forall j :: from <= j < |log| ==> RouteFits(log[j], gateOpen)
  }

  predicate RouteFits(event: Event, gateOpen: bool) {
    && !event.Triggered?
    && (event.Routed? ==>
          && (event.before.Some? <==> !event.flipAllowed)
          && event.before != Some(event.side)
          && (gateOpen ==> event.flipAllowed))
  }

  ghost predicate RouteKept(i: Inputs, k: nat, s: State) {
    && (s.x.flipAllowed || (!i.flipGate && k > 15))
    && (k <= 7 || (k <= 17 && s.x.newSide.Some?) ==> s.e.position == s.x.currentSide)
    && (!s.x.flipAllowed && s.x.newSide.Some? && k <= 17 ==> s.e.position.Some? && s.x.newSide != s.e.position)
    && (18 <= k <= 19 && s.x.newSide.Some? ==>
          (s.e.position.Some? <==> !s.x.flipAllowed) && s.x.newSide != s.e.position)
  }

  lemma EventRoutesNothing(log: seq<Event>, event: Event, from: nat, gateOpen: bool)
    requires RoutesSince(log, from, gateOpen) && RouteFits(event, gateOpen)
    ensures RoutesSince(log + [event], from, gateOpen)
  {
  }

  lemma FilterRoutes(c: Config, i: Inputs, s: State, from: nat, gateOpen: bool)
    requires RouteKept(i, 7, s) && RoutesSince(s.e.log, from, gateOpen)
    ensures RouteKept(i, 8, SellOnly(c, i, s)) && RoutesSince(SellOnly(c, i, s).e.log, from, gateOpen)
  {
    EventRoutesNothing(s.e.log, Flattened, from, gateOpen);
    hide RoutesSince, FlattenPrice;
  }

  lemma HysteresisRoutes(i: Inputs, s: State, from: nat, gateOpen: bool)
    requires RouteKept(i, 12, s) && RoutesSince(s.e.log, from, gateOpen)
    ensures RouteKept(i, 13, Hysteresis(s)) && RoutesSince(Hysteresis(s).e.log, from, gateOpen)
  {
    if s.x.newSide.Some? {
      EventRoutesNothing(s.e.log, Reached(s.x.newSide.value), from, gateOpen);
      hide RoutesSince, Appended, Agreeing;
    }
  }

  lemma ManageRoutes(c: Config, i: Inputs, s: State, from: nat, gateOpen: bool)
    requires RouteKept(i, 17, s) && RoutesSince(s.e.log, from, gateOpen)
    ensures RouteKept(i, 18, Manage(c, i, s)) && RoutesSince(Manage(c, i, s).e.log, from, gateOpen)
  {
    hide ProfitLocked, CanEnter;
    if s.x.newSide.Some? && s.e.position.Some? {
      EventRoutesNothing(s.e.log, Stacked(s.x.newSide.value), from, gateOpen);
      EventRoutesNothing(s.e.log, Flipped(s.e.position.value, s.x.newSide.value), from, gateOpen);
      hide RoutesSince;
    }
  }

  lemma PolicyRoutes(i: Inputs, s: State, from: nat, gateOpen: bool)
    requires RouteKept(i, 19, s) && RoutesSince(s.e.log, from, gateOpen) && (gateOpen ==> i.flipGate)
    ensures RouteKept(i, 20, Route(i, s)) && RoutesSince(Route(i, s).e.log, from, gateOpen)
  {
    hide Queue;
    if s.x.newSide.Some? {
      EventRoutesNothing(s.e.log, Queued(s.x.newSide.value), from, gateOpen);
      EventRoutesNothing(s.e.log, Routed(s.x.newSide.value, s.e.position, s.x.flipAllowed), from, gateOpen);
      hide RoutesSince;
    }
  }

  lemma StepRoute(c: Config, i: Inputs, stage: Stage, s: State, from: nat, gateOpen: bool)
    requires RouteKept(i, Position(stage), s) && SideKept(i, Position(stage), s)
    requires RoutesSince(s.e.log, from, gateOpen) && (gateOpen ==> i.flipGate)
    ensures RouteKept(i, Position(stage) + 1, Step(c, i, stage, s))
    ensures RoutesSince(Step(c, i, stage, s).e.log, from, gateOpen)
  {
    StepIs(c, i, stage, s);
    Places(stage);
    hide SellOnly, Hysteresis, Manage, Route, Poll, Blocks, RoutesSince, Step, Position;
    if stage == SellOnlyFilter {
      FilterRoutes(c, i, s, from, gateOpen);
    } else if stage == SignalHysteresis {
      HysteresisRoutes(i, s, from, gateOpen);
    } else if stage == ManagePosition {
      ManageRoutes(c, i, s, from, gateOpen);
    } else if stage == RouteExecutionPolicy {
      PolicyRoutes(i, s, from, gateOpen);
    } else if stage == PollDeferredEntries {
      PollOnlyDrops(c, i, s.e);
    }
  }

  lemma TurnRoute(c: Config, i: Inputs, stage: Stage, s: State, from: nat, gateOpen: bool)
    requires RouteKept(i, Position(stage), s) && SideKept(i, Position(stage), s) && !s.x.abort
    requires RoutesSince(s.e.log, from, gateOpen) && (gateOpen ==> i.flipGate)
    ensures RouteKept(i, Position(stage) + 1, Turn(c, i, stage, s))
    ensures RoutesSince(Turn(c, i, stage, s).e.log, from, gateOpen)
  {
    StepRoute(c, i, stage, s, from, gateOpen);
    hide Step, Position, RoutesSince, SideKept;
  }

  lemma {:induction false} StagesRoute(c: Config, i: Inputs, s: State, k: nat, from: nat, gateOpen: bool)
    requires k <= STAGE_COUNT && RouteKept(i, k, s) && SideKept(i, k, s) && !s.x.abort
    requires RoutesSince(s.e.log, from, gateOpen) && (gateOpen ==> i.flipGate)
    ensures RoutesSince(RunStages(c, i, s, k).e.log, from, gateOpen)
    decreases STAGE_COUNT - k
  {
    if k < STAGE_COUNT {
      hide Turn, SideKept, RouteKept, RoutesSince;
      StageAt(k);
      TurnRoute(c, i, StageNo(k), s, from, gateOpen);
      TurnSide(c, i, StageNo(k), s);
      if !Turn(c, i, StageNo(k), s).x.abort {
        StagesRoute(c, i, Turn(c, i, StageNo(k), s), k + 1, from, gateOpen);
      }
    }
  }

  /** Over any run an entry is routed while a position is held exactly in the cycles where the conviction
      gate refused the flip; in a run whose gate never refuses, only when flat. */
  lemma {:induction false} RoutesOnlyWhenFlatIff(c: Config, e: Engine, cycles: seq<Inputs>, from: nat, gateOpen: bool)
    requires RoutesSince(e.log, from, gateOpen)
    requires gateOpen ==> forall j :: 0 <= j < |cycles| ==> cycles[j].flipGate
    ensures RoutesSince(Run(c, e, cycles).log, from, gateOpen)
    decreases |cycles|
  {
    if cycles != [] {
      StagesRoute(c, cycles[0], Begin(e, cycles[0]), 0, from, gateOpen);
      hide RunStages, RoutesSince;
      RoutesOnlyWhenFlatIff(c, After(c, e, cycles[0]).e, cycles[1..], from, gateOpen);
    }
  }

  /** No run enters a deferred entry. */
  lemma DeferredEntriesNeverFire(c: Config, e: Engine, cycles: seq<Inputs>)
    ensures var log := Run(c, e, cycles).log;
      |e.log| <= |log| && forall j :: |e.log| <= j < |log| ==> !log[j].Triggered?
  {
    RoutesOnlyWhenFlatIff(c, e, cycles, |e.log|, false);
    hide Run;
  }

  // ----- hysteresis

  /** The sides that reached the hysteresis stage. */
  function Signals(log: seq<Event>): seq<Side> {
    if log == [] then []
    else
      var before, last := Signals(log[..|log| - 1]), log[|log| - 1];
      if last.Reached? then before + [last.side] else before
  }

  lemma SignalsGrow(log: seq<Event>, event: Event)
    ensures Signals(log + [event]) == if event.Reached? then Signals(log) + [event.side] else Signals(log)
  {
    assert (log + [event])[..|log|] == log;
  }

  function LastThree(sides: seq<Side>): seq<Side> {
    if |sides| > 3 then sides[|sides| - 3..] else sides
  }

  /** The last side is the given one and, once there are three, so is one of the two before it. */
  predicate Agreed(sides: seq<Side>, side: Side) {
    && sides != [] && sides[|sides| - 1] == side
    && (|sides| >= 3 ==> sides[|sides| - 2] == side || sides[|sides| - 3] == side)
  }

  lemma ThreeAgree(chain: seq<Side>, side: Side)
    requires |chain| == 3 && chain[2] == side
    ensures Agreeing(chain, side) >= 2 <==> chain[0] == side || chain[1] == side
  {
    assert chain[1..][1..] == [chain[2]] && [chain[2]][1..] == [];
    assert Agreeing([chain[2]], side) == 1;
    assert Agreeing(chain[1..], side) == (if chain[1] == side then 1 else 0) + 1;
  }

  /** With a position held on the other side, the stage clears the signal exactly when two signals
      came before it and neither of them agrees. */
  lemma HysteresisBlocksIff(s: State)
    requires s.x.newSide.Some? && s.e.position.Some? && s.x.newSide != s.x.currentSide && |s.e.chain| <= 3
    ensures var n, chain, side := |s.e.chain|, s.e.chain, s.x.newSide.value;
      Hysteresis(s).x.newSide.None? <==> n >= 2 && chain[n - 1] != side && chain[n - 2] != side
  {
    var side := s.x.newSide.value;
    var chain := Appended(s.e.chain, side);
    if |chain| == 3 {
      ThreeAgree(chain, side);
    }
  }

  lemma AppendedIsLastThree(sides: seq<Side>, side: Side)
    ensures Appended(LastThree(sides), side) == LastThree(sides + [side])
  {
  }

  lemma AgreedInChain(sides: seq<Side>, side: Side)
    ensures Agreed(LastThree(sides), side) <==> Agreed(sides, side)
  {
  }

  /** The chain holds the last three signals of the whole history, those before the log included. */
  ghost predicate ChainKept(prior: seq<Side>, e: Engine) {
    e.chain == LastThree(prior + Signals(e.log))
  }

  /** The event turns a held position to the other side, by a close first or over it. */
  function TurnsTo(event: Event): Option<Side> {
    match event
    case Flipped(_, into) => Some(into)
    case Routed(side, before, _) => if before.Some? then Some(side) else None
    case Triggered(side, before) => if before.Some? then Some(side) else None
    case _ => None
  }

  ghost predicate FlipAgreed(prior: seq<Side>, log: seq<Event>, j: nat)
    requires j < |log|
  {
    TurnsTo(log[j]).Some? ==> Agreed(prior + Signals(log[..j]), TurnsTo(log[j]).value)
  }

  ghost predicate FlipsAgreed(prior: seq<Side>, log: seq<Event>) {
    forall j :: 0 <= j < |log| ==> FlipAgreed(prior, log, j)
  }

  lemma EventKeeps(prior: seq<Side>, e: Engine, event: Event)
    requires ChainKept(prior, e) && FlipsAgreed(prior, e.log) && !event.Reached?
    requires TurnsTo(event).Some? ==> Agreed(e.chain, TurnsTo(event).value)
    ensures prior + Signals(e.log + [event]) == prior + Signals(e.log)
    ensures FlipsAgreed(prior, e.log + [event])
  {
    SignalsGrow(e.log, event);
    AgreedInChain(prior + Signals(e.log), if TurnsTo(event).Some? then TurnsTo(event).value else Long);
    hide Signals, Agreed, LastThree;
    var log := e.log + [event];
    forall j | 0 <= j < |log|
      ensures FlipAgreed(prior, log, j)
    {
      if j < |e.log| {
        assert FlipAgreed(prior, e.log, j);
        assert log[..j] == e.log[..j];
      } else {
        assert log[..j] == e.log;
      }
    }
  }

  lemma ReachedKeeps(prior: seq<Side>, e: Engine, side: Side)
    requires ChainKept(prior, e) && FlipsAgreed(prior, e.log)
    ensures Appended(e.chain, side) == LastThree(prior + Signals(e.log + [Reached(side)]))
    ensures FlipsAgreed(prior, e.log + [Reached(side)])
  {
    var sides := prior + Signals(e.log);
    SignalsGrow(e.log, Reached(side));
    AppendedIsLastThree(sides, side);
    hide Signals, LastThree, Agreed, Appended;
    assert sides + [side] == prior + (Signals(e.log) + [side]);
    var log := e.log + [Reached(side)];
    forall j | 0 <= j < |log|
      ensures FlipAgreed(prior, log, j)
    {
      if j < |e.log| {
        assert FlipAgreed(prior, e.log, j);
        assert log[..j] == e.log[..j];
      }
    }
  }

  ghost predicate FlipKept(prior: seq<Side>, k: nat, s: State) {
    && ChainKept(prior, s.e) && FlipsAgreed(prior, s.e.log)
    && (13 <= k <= 19 && s.x.newSide.Some? && s.e.position.Some? && s.x.newSide != s.x.currentSide ==>
          Agreed(s.e.chain, s.x.newSide.value))
    && (18 <= k <= 19 && s.x.newSide.Some? && s.e.position.Some? ==> s.x.newSide != s.x.currentSide)
  }

  lemma HysteresisAgrees(s: State)
    requires s.x.newSide.Some? && |s.e.chain| <= 3
    ensures var t := Hysteresis(s);
      t.x.newSide.Some? && s.e.position.Some? && s.x.newSide != s.x.currentSide ==> Agreed(t.e.chain, s.x.newSide.value)
  {
    var side := s.x.newSide.value;
    var chain := Appended(s.e.chain, side);
    assert chain[|chain| - 1] == side;
    if |chain| == 3 {
      ThreeAgree(chain, side);
      hide Agreeing, Appended;
    }
  }

  lemma HysteresisKeeps(prior: seq<Side>, s: State)
    requires FlipKept(prior, 12, s)
    ensures FlipKept(prior, 13, Hysteresis(s))
  {
    hide Signals, FlipsAgreed, Appended, Agreed, Agreeing;
    if s.x.newSide.Some? {
      ReachedKeeps(prior, s.e, s.x.newSide.value);
      HysteresisAgrees(s);
    }
  }

  lemma SellOnlyFlipKept(c: Config, i: Inputs, prior: seq<Side>, s: State)
    requires FlipKept(prior, 7, s)
    ensures FlipKept(prior, 8, SellOnly(c, i, s))
  {
    EventKeeps(prior, s.e, Flattened);
    hide Signals, LastThree, Agreed, FlipsAgreed;
  }

  lemma ManageFlipKept(c: Config, i: Inputs, prior: seq<Side>, s: State)
    requires FlipKept(prior, 17, s)
    ensures FlipKept(prior, 18, Manage(c, i, s))
  {
    hide Signals, LastThree, Agreed, FlipsAgreed;
    if s.e.position.Some? && s.x.newSide.Some? {
      var side := s.x.newSide.value;
      EventKeeps(prior, s.e, Stacked(side));
      if s.x.newSide != s.x.currentSide {
        EventKeeps(prior, s.e, Flipped(s.e.position.value, side));
      }
    }
  }

  lemma RouteFlipKept(i: Inputs, prior: seq<Side>, s: State)
    requires FlipKept(prior, 19, s)
    ensures FlipKept(prior, 20, Route(i, s))
  {
    hide Signals, LastThree, Agreed, FlipsAgreed, Queue;
    if s.x.newSide.Some? {
      var side := s.x.newSide.value;
      EventKeeps(prior, s.e, Queued(side));
      EventKeeps(prior, s.e, Routed(side, s.e.position, s.x.flipAllowed));
    }
  }

  lemma StepFlip(c: Config, i: Inputs, prior: seq<Side>, stage: Stage, s: State)
    requires FlipKept(prior, Position(stage), s)
    ensures FlipKept(prior, Position(stage) + 1, Step(c, i, stage, s))
  {
    StepIs(c, i, stage, s);
    Places(stage);
    hide SellOnly, Hysteresis, Manage, Route, Poll, Blocks, Signals, LastThree, Agreed, FlipsAgreed, Step, Position;
    if stage == SellOnlyFilter {
      SellOnlyFlipKept(c, i, prior, s);
    } else if stage == SignalHysteresis {
      HysteresisKeeps(prior, s);
    } else if stage == ManagePosition {
      ManageFlipKept(c, i, prior, s);
    } else if stage == RouteExecutionPolicy {
      RouteFlipKept(i, prior, s);
    } else if stage == PollDeferredEntries {
      PollOnlyDrops(c, i, s.e);
    }
  }

  lemma TurnFlip(c: Config, i: Inputs, prior: seq<Side>, stage: Stage, s: State)
    requires FlipKept(prior, Position(stage), s)
    ensures FlipKept(prior, Position(stage) + 1, Turn(c, i, stage, s))
  {
    StepFlip(c, i, prior, stage, s);
    hide Step, Position, Signals, LastThree, Agreed, FlipsAgreed;
  }

  lemma {:induction false} StagesFlip(c: Config, i: Inputs, prior: seq<Side>, s: State, k: nat)
    requires k <= STAGE_COUNT && FlipKept(prior, k, s) && SideKept(i, k, s) && !s.x.abort
    ensures var t := RunStages(c, i, s, k); FlipKept(prior, End(t), t)
    decreases STAGE_COUNT - k
  {
    if k < STAGE_COUNT {
      hide Turn, SideKept, FlipKept;
      StageAt(k);
      TurnFlip(c, i, prior, StageNo(k), s);
      TurnSide(c, i, StageNo(k), s);
      if !Turn(c, i, StageNo(k), s).x.abort {
        StagesFlip(c, i, prior, Turn(c, i, StageNo(k), s), k + 1);
      }
    }
  }

  lemma CycleFlip(c: Config, prior: seq<Side>, e: Engine, i: Inputs)
    requires ChainKept(prior, e) && FlipsAgreed(prior, e.log)
    ensures ChainKept(prior, After(c, e, i).e) && FlipsAgreed(prior, After(c, e, i).e.log)
  {
    hide Signals, LastThree, Agreed, FlipsAgreed, RunStages;
    StagesFlip(c, i, prior, Begin(e, i), 0);
  }

  /** Over any run every turn of a held position agrees with the last signal and, once three have reached
      the stage, with one of the two before it: after two equal signals a single opposite one never
      turns a position. prior is the history the engine was started with. */
  lemma {:induction false} FlipsNeedAgreement(c: Config, prior: seq<Side>, e: Engine, cycles: seq<Inputs>)
    requires ChainKept(prior, e) && FlipsAgreed(prior, e.log)
    ensures ChainKept(prior, Run(c, e, cycles)) && FlipsAgreed(prior, Run(c, e, cycles).log)
    decreases |cycles|
  {
    if cycles != [] {
      hide After, ChainKept, FlipsAgreed;
      CycleFlip(c, prior, e, cycles[0]);
      FlipsNeedAgreement(c, prior, After(c, e, cycles[0]).e, cycles[1..]);
    }
  }

  /** Since then an event turned a held position to this side. */
  ghost predicate Turned(log: seq<Event>, from: nat, side: Side) {
    exists j :: from <= j < |log| && TurnsTo(log[j]) == Some(side)
  }

  /** A cycle that starts with side a held has it still, or has closed it, or has logged a turn to the side
      it holds or is about to open. */
  ghost predicate TurnKept(a: Side, from: nat, k: nat, s: State) {
    && from <= |s.e.log|
    && (k <= 7 ==> s.e.position == Some(a))
    && (k <= 17 ==> s.e.position == Some(a) || (s.e.position.None? && s.x.newSide.None?))
    && (18 <= k <= 19 && s.e.position != Some(a) ==>
          s.e.position.None? && (s.x.newSide.Some? ==> Turned(s.e.log, from, s.x.newSide.value)))
    && (k >= 20 && s.e.position.Some? && s.e.position != Some(a) ==> Turned(s.e.log, from, s.e.position.value))
  }

  lemma TurnedStays(log: seq<Event>, event: Event, from: nat, side: Side)
    requires from <= |log| && (Turned(log, from, side) || TurnsTo(event) == Some(side))
    ensures Turned(log + [event], from, side)
  {
    var longer := log + [event];
    if Turned(log, from, side) {
      var j :| from <= j < |log| && TurnsTo(log[j]) == Some(side);
      assert longer[j] == log[j];
    } else {
      assert longer[|log|] == event;
    }
  }

  lemma ManageTurns(c: Config, i: Inputs, a: Side, from: nat, s: State)
    requires TurnKept(a, from, 17, s)
    ensures TurnKept(a, from, 18, Manage(c, i, s))
  {
    hide ProfitLocked, CanEnter, Turned;
    if s.x.newSide.Some? {
      TurnedStays(s.e.log, Flipped(a, s.x.newSide.value), from, s.x.newSide.value);
    }
  }

  lemma RouteTurns(i: Inputs, a: Side, from: nat, s: State)
    requires TurnKept(a, from, 19, s)
    ensures TurnKept(a, from, 20, Route(i, s))
  {
    hide Queue, Turned;
    if s.x.newSide.Some? {
      var side := s.x.newSide.value;
      if s.e.position == Some(a) || Turned(s.e.log, from, side) {
        TurnedStays(s.e.log, Routed(side, s.e.position, s.x.flipAllowed), from, side);
      }
    }
  }

  lemma StepTurns(c: Config, i: Inputs, a: Side, from: nat, stage: Stage, s: State)
    requires TurnKept(a, from, Position(stage), s)
    ensures TurnKept(a, from, Position(stage) + 1, Step(c, i, stage, s))
  {
    StepIs(c, i, stage, s);
    Places(stage);
    hide Manage, Route, Poll, Blocks, Step, Position, Turned, Appended, Agreeing, FlattenPrice;
    if stage == ManagePosition {
      ManageTurns(c, i, a, from, s);
    } else if stage == RouteExecutionPolicy {
      RouteTurns(i, a, from, s);
    } else if stage == PollDeferredEntries {
      PollOnlyDrops(c, i, s.e);
    }
  }

  lemma {:induction false} StagesTurn(c: Config, i: Inputs, a: Side, from: nat, s: State, k: nat)
    requires k <= STAGE_COUNT && TurnKept(a, from, k, s) && SideKept(i, k, s) && !s.x.abort
    ensures var t := RunStages(c, i, s, k); TurnKept(a, from, End(t), t)
    decreases STAGE_COUNT - k
  {
    if k < STAGE_COUNT {
      hide Step, SideKept, Turned, Position;
      StageAt(k);
      StepTurns(c, i, a, from, StageNo(k), s);
      TurnSide(c, i, StageNo(k), s);
      if !Turn(c, i, StageNo(k), s).x.abort {
        StagesTurn(c, i, a, from, Turn(c, i, StageNo(k), s), k + 1);
      }
    }
  }

  /** Nothing else turns a position: a cycle that starts with one side held and ends with the other has
      logged a turn to it. */
  lemma OnlyTurnsTurn(c: Config, e: Engine, i: Inputs, a: Side)
    requires Begin(e, i).e.position == Some(a)
    ensures var t := After(c, e, i).e;
      t.position.Some? && t.position != Some(a) ==> Turned(t.log, |e.log|, t.position.value)
  {
    hide RunStages, Turned;
    StagesTurn(c, i, a, |e.log|, Begin(e, i), 0);
  }

  // ----- two runs worth knowing

  /** A two-way asset with every optional gate off. */
  const PLAIN := Config("EURUSD", false, 0.0, false, 0.0, None, None, false, false, 15.0)

  /** A SELL that every service lets through and fills, but for the conviction gate's answer. */
  function PlainSell(flipGate: bool): Inputs {
    Inputs(Sell, 1.0, None, 60.0, 0.0, false, false, None, None, 12, None, None, false,
           flipGate, true, false, true, true, Enter, false, true, false, Wait, Wait)
  }

  lemma {:induction false} SkipQuiet(c: Config, i: Inputs, s: State, a: nat, b: nat)
    requires a <= b <= STAGE_COUNT && !s.x.abort
    requires forall k :: a <= k < b ==> Turn(c, i, StageNo(k), s) == s
    ensures RunStages(c, i, s, a) == RunStages(c, i, s, b)
    decreases b - a
  {
    hide Turn, RunStages, StageNo;
    if a < b {
      StagesStep(c, i, s, a);
      SkipQuiet(c, i, s, a + 1, b);
    }
  }

  /** Stages a to b - 1 are none of the five that matter in such a cycle. */
  predicate IsQuiet(a: nat, b: nat) {
    && !(a <= 4 < b) && !(a <= 12 < b) && !(a <= 15 < b) && !(a <= 17 < b) && !(a <= 19 < b)
  }

  predicate IsReady(s: State) {
    !s.x.abort && s.e.cycles > 1 && s.e.pending == []
  }

  lemma NoFilter(i: Inputs, s: State)
    ensures SellOnly(PLAIN, i, s) == s
  {
  }

  lemma NoGate(flipGate: bool, stage: Stage, cycles: nat)
    ensures !Blocks(PLAIN, PlainSell(flipGate), stage, cycles)
  {
  }

  lemma NoPoll(flipGate: bool, e: Engine)
    requires e.pending == []
    ensures Poll(PLAIN, PlainSell(flipGate), e) == e
  {
  }

  lemma QuietTurn(flipGate: bool, stage: Stage, s: State)
    requires IsQuiet(Position(stage), Position(stage) + 1) && IsReady(s)
    ensures Turn(PLAIN, PlainSell(flipGate), stage, s) == s
  {
    var c, i := PLAIN, PlainSell(flipGate);
    Places(stage);
    StepIs(c, i, stage, s);
    NoFilter(i, s);
    NoGate(flipGate, stage, s.e.cycles);
    NoPoll(flipGate, s.e);
    hide Position, Step, PlainSell, Blocks, Poll, SellOnly, Hysteresis, Manage, Route;
    assert Step(c, i, stage, s) == s;
  }

  lemma QuietStages(flipGate: bool, s: State, a: nat, b: nat)
    requires a <= b <= STAGE_COUNT && IsQuiet(a, b) && IsReady(s)
    ensures RunStages(PLAIN, PlainSell(flipGate), s, a) == RunStages(PLAIN, PlainSell(flipGate), s, b)
  {
    hide Turn, Position, RunStages;
    forall k | a <= k < b
      ensures Turn(PLAIN, PlainSell(flipGate), StageNo(k), s) == s
    {
      StageAt(k);
      QuietTurn(flipGate, StageNo(k), s);
    }
    SkipQuiet(PLAIN, PlainSell(flipGate), s, a, b);
  }

  /** A stage that matters, and the quiet ones up to the next. */
  lemma StageThenQuiet(flipGate: bool, s: State, s': State, stage: Stage, next: nat)
    requires Turn(PLAIN, PlainSell(flipGate), stage, s) == s' && IsReady(s')
    requires Position(stage) < next <= STAGE_COUNT && IsQuiet(Position(stage) + 1, next)
    ensures RunStages(PLAIN, PlainSell(flipGate), s, Position(stage)) == RunStages(PLAIN, PlainSell(flipGate), s', next)
  {
    AtStage(stage);
    StagesStep(PLAIN, PlainSell(flipGate), s, Position(stage));
    QuietStages(flipGate, s', Position(stage) + 1, next);
  }

  lemma PlainStages(flipGate: bool, s0: State, s1: State, s2: State, s3: State, s4: State, s5: State)
    requires IsReady(s0) && IsReady(s1) && IsReady(s2) && IsReady(s3) && IsReady(s4) && IsReady(s5)
    requires Turn(PLAIN, PlainSell(flipGate), ResolveSignal, s0) == s1
    requires Turn(PLAIN, PlainSell(flipGate), SignalHysteresis, s1) == s2
    requires Turn(PLAIN, PlainSell(flipGate), ConvictionGate, s2) == s3
    requires Turn(PLAIN, PlainSell(flipGate), ManagePosition, s3) == s4
    requires Turn(PLAIN, PlainSell(flipGate), RouteExecutionPolicy, s4) == s5
    ensures RunStages(PLAIN, PlainSell(flipGate), s0, 0) == s5
  {
    hide Turn, RunStages, IsReady, PlainSell, StageNo;
    QuietStages(flipGate, s0, 0, 4);
    StageThenQuiet(flipGate, s0, s1, ResolveSignal, 12);
    StageThenQuiet(flipGate, s1, s2, SignalHysteresis, 15);
    StageThenQuiet(flipGate, s2, s3, ConvictionGate, 17);
    StageThenQuiet(flipGate, s3, s4, ManagePosition, 19);
    StageThenQuiet(flipGate, s4, s5, RouteExecutionPolicy, STAGE_COUNT);
    StagesEnd(PLAIN, PlainSell(flipGate), s5);
  }

  lemma PlainSignal(flipGate: bool, s: State)
    requires IsReady(s) && s.x.newSide.None?
    ensures Turn(PLAIN, PlainSell(flipGate), ResolveSignal, s) == s.(x := s.x.(newSide := Some(Short)))
  {
  }

  lemma PlainHysteresis(flipGate: bool, s: State)
    requires IsReady(s) && s.x.newSide == Some(Short) && s.e.position == s.x.currentSide == Some(Long)
    requires |s.e.chain| <= 3
    requires var n := |s.e.chain|; n < 2 || s.e.chain[n - 1] == Short || s.e.chain[n - 2] == Short
    ensures Turn(PLAIN, PlainSell(flipGate), SignalHysteresis, s)
         == s.(e := s.e.(chain := Appended(s.e.chain, Short), log := s.e.log + [Reached(Short)]))
  {
    StepIs(PLAIN, PlainSell(flipGate), SignalHysteresis, s);
    HysteresisBlocksIff(s);
    hide Step, Appended, Agreeing;
  }

  lemma PlainConviction(flipGate: bool, s: State)
    requires IsReady(s) && s.x.newSide == Some(Short) && s.e.position == s.x.currentSide == Some(Long)
    ensures Turn(PLAIN, PlainSell(flipGate), ConvictionGate, s) == s.(x := s.x.(flipAllowed := flipGate))
  {
  }

  lemma PlainPosition(flipGate: bool, s: State)
    requires IsReady(s) && s.x == Context(Some(Short), flipGate, false, Some(Long)) && s.e.position == Some(Long)
    ensures Turn(PLAIN, PlainSell(flipGate), ManagePosition, s)
         == if flipGate then s.(e := s.e.(position := None, log := s.e.log + [Flipped(Long, Short)])) else s
  {
  }

  lemma PlainRoute(flipGate: bool, s: State)
    requires IsReady(s) && s.x.newSide == Some(Short)
    ensures Turn(PLAIN, PlainSell(flipGate), RouteExecutionPolicy, s)
         == s.(e := s.e.(position := Some(Short),
                         log := s.e.log + [Routed(Short, s.e.position, s.x.flipAllowed)]))
  {
  }

  /** Such a SELL against a long position: with the gate's consent it closes the long and opens a short;
      refused, it opens the short all the same, and the long is never closed. */
  lemma SellAgainstLong(e: Engine, flipGate: bool)
    requires e.position == Some(Long) && e.pending == [] && e.cycles >= 1 && |e.chain| <= 3
    requires var n := |e.chain|; n < 2 || e.chain[n - 1] == Short || e.chain[n - 2] == Short
    ensures After(PLAIN, e, PlainSell(flipGate)).e.log
         == e.log + [Reached(Short)]
            + if flipGate then [Flipped(Long, Short), Routed(Short, None, true)] else [Routed(Short, Some(Long), false)]
  {
    var c, i := PLAIN, PlainSell(flipGate);
    var s0 := Begin(e, i);
    var s1 := s0.(x := s0.x.(newSide := Some(Short)));
    hide Turn, RunStages, Appended;
    PlainSignal(flipGate, s0);
    PlainHysteresis(flipGate, s1);
    var s2 := Turn(c, i, SignalHysteresis, s1);
    PlainConviction(flipGate, s2);
    var s3 := Turn(c, i, ConvictionGate, s2);
    PlainPosition(flipGate, s3);
    var s4 := Turn(c, i, ManagePosition, s3);
    PlainRoute(flipGate, s4);
    PlainStages(flipGate, s0, s1, s2, s3, s4, Turn(c, i, RouteExecutionPolicy, s4));
  }
}
