/** What one decision cycle does, read off its inputs and the engine it starts with: which signals are let
    through, which trades are logged and what is held and queued at the end. */
module CycleOutcome {
  import opened Prelude
  import opened DecisionPipeline

  // ----- conditions on the inputs and the starting engine

  function SideAsked(i: Inputs): Side {
    if i.signal == Buy then Long else Short
  }

  /** What the engine holds when the cycle starts. */
  function HeldAtStart(e: Engine, i: Inputs): Option<Side> {
    if i.stopped then None else e.position
  }

  predicate QuotedPositive(i: Inputs) {
    if i.closePrice != 0.0 then i.closePrice > 0.0 else i.currentPrice.Some? && i.currentPrice.value > 0.0
  }

  /** A long on a sell-only asset with a usable price: the filter acts on it, whatever the signal. */
  predicate MustFlatten(c: Config, e: Engine, i: Inputs) {
    c.sellOnly && HeldAtStart(e, i) == Some(Long) && QuotedPositive(i)
  }

  predicate LoneSignal(chain: seq<Side>, side: Side) {
    |chain| >= 2 && chain[|chain| - 1] != side && chain[|chain| - 2] != side
  }

  predicate AgainstHeld(e: Engine, i: Inputs) {
    HeldAtStart(e, i).Some? && HeldAtStart(e, i) != Some(SideAsked(i))
  }

  predicate TakesProfit(c: Config, i: Inputs) {
    i.currentPrice.Some? && i.currentPrice.value > 0.0 && i.pnl > c.profitLockPct
  }

  predicate Admitted(e: Engine, i: Inputs) {
    i.mayEnter && SideAsked(i) !in e.pending
  }

  /** A BUY or SELL that comes to the hysteresis stage. */
  predicate PassesFilters(c: Config, e: Engine, i: Inputs) {
    && e.cycles >= 1 && i.signal != Flat
    && !(c.name == "AUDUSD" && i.riskOff)
    && !(c.name == "CL" && i.vix.Some? && i.vix.value > 30.0)
    && !(c.sellOnly && (i.signal == Buy || MustFlatten(c, e, i)))
    && (c.spreadGate && e.cycles + 1 >= 720 ==> i.spread.Some? && i.spread.value <= c.spreadLimit)
    && (c.window.Some? && e.cycles + 1 >= 720 ==> c.window.value.0 <= i.hour < c.window.value.1)
    && (c.adxGate.Some? && !c.adxGate.value.observeOnly && i.adx.Some? ==> i.adx.value >= c.adxGate.value.threshold)
    && i.confidence >= c.minConfidence
  }

  /** It comes to position management. */
  predicate ComesToManagement(c: Config, e: Engine, i: Inputs) {
    && PassesFilters(c, e, i)
    && !(AgainstHeld(e, i) && LoneSignal(e.chain, SideAsked(i)))
    && (c.kelly && i.kelly.Some? ==> i.kelly.value > 0.0)
  }

  /** The position on the other side is closed for it. */
  predicate Flips(c: Config, e: Engine, i: Inputs) {
    && ComesToManagement(c, e, i) && AgainstHeld(e, i)
    && i.flipGate && Admitted(e, i) && !TakesProfit(c, i) && i.closeOk
  }

  /** It comes to the execution policy: nothing is held, or the other side is held and either closed for it
      or, with the conviction gate against the flip, left open. */
  predicate LetThrough(c: Config, e: Engine, i: Inputs) {
    && ComesToManagement(c, e, i) && Admitted(e, i) && i.artifactsOk
    && (HeldAtStart(e, i).None? || (AgainstHeld(e, i) && (i.flipGate ==> Flips(c, e, i))))
  }

  predicate Stacks(c: Config, e: Engine, i: Inputs) {
    ComesToManagement(c, e, i) && HeldAtStart(e, i) == Some(SideAsked(i)) && c.stacking && i.stackOk
  }

  predicate Flattens(c: Config, e: Engine, i: Inputs) {
    e.cycles >= 1 && MustFlatten(c, e, i) && i.closeOk
  }

  predicate Routes(c: Config, e: Engine, i: Inputs) {
    LetThrough(c, e, i) && i.policy == Enter && i.fillOk
  }

  predicate Queues(c: Config, e: Engine, i: Inputs) {
    LetThrough(c, e, i) && i.policy == Defer && i.hasPlan
  }

  // ----- the state before each stage

  /** The signal is still there before stage k > 4. */
  predicate Alive(c: Config, e: Engine, i: Inputs, k: nat) {
    && i.signal != Flat
    && (k > 5 ==> !(c.name == "AUDUSD" && i.riskOff))
    && (k > 6 ==> !(c.name == "CL" && i.vix.Some? && i.vix.value > 30.0))
    && (k > 7 ==> !(c.sellOnly && (i.signal == Buy || MustFlatten(c, e, i))))
    && (k > 8 ==> c.spreadGate && e.cycles + 1 >= 720 ==> i.spread.Some? && i.spread.value <= c.spreadLimit)
    && (k > 9 ==> c.window.Some? && e.cycles + 1 >= 720 ==> c.window.value.0 <= i.hour < c.window.value.1)
    && (k > 10 ==> c.adxGate.Some? && !c.adxGate.value.observeOnly && i.adx.Some? ==>
          i.adx.value >= c.adxGate.value.threshold)
    && (k > 11 ==> i.confidence >= c.minConfidence)
    && (k > 12 ==> !(AgainstHeld(e, i) && LoneSignal(e.chain, SideAsked(i))))
    && (k > 16 ==> c.kelly && i.kelly.Some? ==> i.kelly.value > 0.0)
    && (k > 17 ==> Admitted(e, i) && HeldAtStart(e, i) != Some(SideAsked(i))
                   && (AgainstHeld(e, i) && i.flipGate ==> !TakesProfit(c, i) && i.closeOk))
    && (k > 18 ==> i.artifactsOk)
  }

  function SideAt(c: Config, e: Engine, i: Inputs, k: nat): Option<Side> {
    if k > 4 && Alive(c, e, i, k) then Some(SideAsked(i)) else None
  }

  function FlipAllowedAt(c: Config, e: Engine, i: Inputs, k: nat): bool {
    k > 15 && Alive(c, e, i, 15) && AgainstHeld(e, i) ==> i.flipGate
  }

  function PositionAt(c: Config, e: Engine, i: Inputs, k: nat): Option<Side> {
    if k > 7 && Flattens(c, e, i) then None
    else if k > 19 && Routes(c, e, i) then Some(SideAsked(i))
    else if k > 17 && Flips(c, e, i) then None
    else HeldAtStart(e, i)
  }

  function QueueAt(c: Config, e: Engine, i: Inputs, k: nat): seq<Side> {
    if k > 19 && Queues(c, e, i) then e.pending + [SideAsked(i)] else e.pending
  }

  function PendingAt(c: Config, e: Engine, i: Inputs, k: nat): seq<Side> {
    if k <= 20 then QueueAt(c, e, i, k) else if i.cancelAll then [] else Waiting(c, i, QueueAt(c, e, i, k))
  }

  function ChainAt(c: Config, e: Engine, i: Inputs, k: nat): seq<Side> {
    if k > 12 && Alive(c, e, i, 12) then LastThree(e.chain + [SideAsked(i)]) else e.chain
  }

  function With(log: seq<Event>, event: Event, when: bool): seq<Event> {
    if when then log + [event] else log
  }

  /** The entry that is logged when the order is filled. */
  function RoutedEvent(c: Config, e: Engine, i: Inputs): Event {
    Routed(SideAsked(i), if Flips(c, e, i) then None else HeldAtStart(e, i), AgainstHeld(e, i) ==> i.flipGate)
  }

  function FlippedEvent(e: Engine, i: Inputs): Event {
    Flipped(if SideAsked(i) == Long then Short else Long, SideAsked(i))
  }

  function EarlyLogAt(c: Config, e: Engine, i: Inputs, k: nat): seq<Event> {
    With(With(e.log, Flattened, k > 7 && Flattens(c, e, i)),
         Reached(SideAsked(i)), k > 12 && PassesFilters(c, e, i))
  }

  function ManagedLogAt(c: Config, e: Engine, i: Inputs, k: nat): seq<Event> {
    With(With(EarlyLogAt(c, e, i, k), Stacked(SideAsked(i)), k > 17 && Stacks(c, e, i)),
         FlippedEvent(e, i), k > 17 && Flips(c, e, i))
  }

  function LogAt(c: Config, e: Engine, i: Inputs, k: nat): seq<Event> {
    With(With(ManagedLogAt(c, e, i, k), RoutedEvent(c, e, i), k > 19 && Routes(c, e, i)),
         Queued(SideAsked(i)), k > 19 && Queues(c, e, i))
  }

  /** The state before stage k, counters aside. */
  function StateAt(c: Config, e: Engine, i: Inputs, k: nat, blocked: map<Stage, nat>): State {
    State(Engine(PositionAt(c, e, i, k), PendingAt(c, e, i, k), ChainAt(c, e, i, k), blocked, e.cycles + 1,
                 LogAt(c, e, i, k)),
          Context(SideAt(c, e, i, k), FlipAllowedAt(c, e, i, k), false, HeldAtStart(e, i)))
  }

  // ----- stage by stage

  lemma GateStage(c: Config, e: Engine, i: Inputs, stage: Stage, b: map<Stage, nat>)
    requires e.cycles >= 1 && IsGate(stage)
    ensures Step(c, i, stage, StateAt(c, e, i, Position(stage), b)) == StateAt(c, e, i, Position(stage) + 1, b)
  {
    hide Step, Blocks, SideAt, PositionAt, PendingAt, ChainAt, LogAt, FlipAllowedAt, Position, HeldAtStart;
    StepIs(c, i, stage, StateAt(c, e, i, Position(stage), b));
    GatePlaces(stage);
    GateSide(c, e, i, stage);
    SameElsewhere(c, e, i, Position(stage));
  }

  lemma GatePlaces(stage: Stage)
    requires IsGate(stage)
    ensures Position(stage) !in {0, 4, 7, 12, 15, 17, 19, 20}
  {
    Places(stage);
    hide Position;
  }

  lemma GateSide(c: Config, e: Engine, i: Inputs, stage: Stage)
    requires e.cycles >= 1 && IsGate(stage)
    ensures SideAt(c, e, i, Position(stage) + 1)
         == if Blocks(c, i, stage, e.cycles + 1) then None else SideAt(c, e, i, Position(stage))
  {
    hide MustFlatten, AgainstHeld, LoneSignal, Admitted, TakesProfit, HeldAtStart, SideAsked, SideAt;
    GateAlive(c, e, i, stage);
    SideFromAlive(c, e, i, Position(stage));
  }

  lemma SideFromAlive(c: Config, e: Engine, i: Inputs, k: nat)
    ensures k <= 4 ==> SideAt(c, e, i, k) == None
    ensures k >= 4 ==> SideAt(c, e, i, k + 1) == if Alive(c, e, i, k + 1) then Some(SideAsked(i)) else None
    ensures k > 4 ==> SideAt(c, e, i, k) == if Alive(c, e, i, k) then Some(SideAsked(i)) else None
    ensures k < 4 ==> SideAt(c, e, i, k + 1) == None
  {
    hide Alive;
  }

  lemma GateAlive(c: Config, e: Engine, i: Inputs, stage: Stage)
    requires e.cycles >= 1 && IsGate(stage)
    ensures Position(stage) != 4
    ensures Position(stage) > 4 ==>
      (Alive(c, e, i, Position(stage) + 1) <==>
        Alive(c, e, i, Position(stage)) && !Blocks(c, i, stage, e.cycles + 1))
  {
    hide MustFlatten, AgainstHeld, LoneSignal, Admitted, TakesProfit, HeldAtStart, SideAsked;
  }

  lemma SameElsewhere(c: Config, e: Engine, i: Inputs, k: nat)
    ensures k !in {7, 17, 19} ==> PositionAt(c, e, i, k + 1) == PositionAt(c, e, i, k)
    ensures k !in {19, 20} ==> PendingAt(c, e, i, k + 1) == PendingAt(c, e, i, k)
    ensures k != 12 ==> ChainAt(c, e, i, k + 1) == ChainAt(c, e, i, k)
    ensures k != 15 ==> FlipAllowedAt(c, e, i, k + 1) == FlipAllowedAt(c, e, i, k)
    ensures k !in {7, 12, 17, 19} ==> LogAt(c, e, i, k + 1) == LogAt(c, e, i, k)
  {
    hide Flattens, Routes, Queues, Flips, Stacks, PassesFilters, Alive, Waiting, RoutedEvent, AgainstHeld, LastThree;
  }

  lemma FilterStage(c: Config, e: Engine, i: Inputs, b: map<Stage, nat>)
    requires e.cycles >= 1
    ensures SellOnly(c, i, StateAt(c, e, i, 7, b)) == StateAt(c, e, i, 8, b)
  {
    hide PassesFilters, Flips, LetThrough, Stacks, Waiting, LastThree, LoneSignal, Admitted, TakesProfit;
  }

  lemma AliveIs(c: Config, e: Engine, i: Inputs)
    requires e.cycles >= 1
    ensures Alive(c, e, i, 12) <==> PassesFilters(c, e, i)
    ensures Alive(c, e, i, 17) <==> ComesToManagement(c, e, i)
    ensures Alive(c, e, i, 19) <==> LetThrough(c, e, i)
    ensures Flattens(c, e, i) ==> !Alive(c, e, i, 8)
  {
    hide LoneSignal, TakesProfit, Admitted, QuotedPositive;
  }

  lemma Earlier(c: Config, e: Engine, i: Inputs, k: nat, l: nat)
    requires k <= l && Alive(c, e, i, l)
    ensures Alive(c, e, i, k)
  {
    hide MustFlatten, AgainstHeld, LoneSignal, Admitted, TakesProfit, HeldAtStart, SideAsked;
  }

  /** The position before the hysteresis stage and up to management, while the signal is there. */
  lemma HeldWhileAlive(c: Config, e: Engine, i: Inputs, k: nat)
    requires e.cycles >= 1 && 8 <= k <= 17 && Alive(c, e, i, k)
    ensures PositionAt(c, e, i, k) == HeldAtStart(e, i) && QueueAt(c, e, i, k) == e.pending
  {
    AliveIs(c, e, i);
    Earlier(c, e, i, 8, k);
    hide Alive, Flattens, HeldAtStart;
  }

  lemma HysteresisStage(c: Config, e: Engine, i: Inputs, b: map<Stage, nat>)
    requires e.cycles >= 1 && |e.chain| <= 3
    ensures Hysteresis(StateAt(c, e, i, 12, b)) == StateAt(c, e, i, 13, b)
  {
    var s, side := StateAt(c, e, i, 12, b), SideAsked(i);
    AliveIs(c, e, i);
    SameElsewhere(c, e, i, 12);
    HysteresisSide(c, e, i);
    hide PassesFilters, Flips, LetThrough, Stacks, Waiting, Flattens, Routes, Queues;
    if Alive(c, e, i, 12) {
      HeldWhileAlive(c, e, i, 12);
      if s.e.position.Some? && s.x.newSide != s.x.currentSide {
        HysteresisBlocksIff(s);
      }
      AppendedIsLastThree(e.chain, side);
      hide Alive, PositionAt, PendingAt, FlipAllowedAt, Agreeing, Appended, LastThree, ManagedLogAt, LogAt;
      HysteresisLog(c, e, i);
    } else {
      hide Alive, PositionAt, PendingAt, FlipAllowedAt;
      HysteresisLog(c, e, i);
    }
  }

  lemma HysteresisSide(c: Config, e: Engine, i: Inputs)
    ensures Alive(c, e, i, 13) <==> Alive(c, e, i, 12) && !(AgainstHeld(e, i) && LoneSignal(e.chain, SideAsked(i)))
  {
    hide MustFlatten, AgainstHeld, LoneSignal, Admitted, TakesProfit, HeldAtStart, SideAsked;
  }

  lemma HysteresisLog(c: Config, e: Engine, i: Inputs)
    ensures LogAt(c, e, i, 13) == With(LogAt(c, e, i, 12), Reached(SideAsked(i)), PassesFilters(c, e, i))
  {
    hide PassesFilters, Flips, Stacks, Flattens, Routes, Queues;
  }

  lemma ConvictionStage(c: Config, e: Engine, i: Inputs, b: map<Stage, nat>)
    requires e.cycles >= 1
    ensures Conviction(i, StateAt(c, e, i, 15, b)) == StateAt(c, e, i, 16, b)
  {
    SameElsewhere(c, e, i, 15);
    ConvictionSide(c, e, i);
    hide PositionAt, PendingAt, ChainAt, LogAt;
    if Alive(c, e, i, 15) {
      HeldWhileAlive(c, e, i, 15);
    }
    hide Alive;
  }

  lemma ConvictionSide(c: Config, e: Engine, i: Inputs)
    ensures SideAt(c, e, i, 16) == SideAt(c, e, i, 15)
  {
    hide MustFlatten, AgainstHeld, LoneSignal, Admitted, TakesProfit, HeldAtStart, SideAsked;
  }

  lemma ManagementSide(c: Config, e: Engine, i: Inputs)
    ensures Alive(c, e, i, 18) <==>
      && Alive(c, e, i, 17) && Admitted(e, i) && HeldAtStart(e, i) != Some(SideAsked(i))
      && (AgainstHeld(e, i) && i.flipGate ==> !TakesProfit(c, i) && i.closeOk)
  {
    hide MustFlatten, AgainstHeld, LoneSignal, Admitted, TakesProfit, HeldAtStart, SideAsked;
  }

  lemma ManagementElsewhere(c: Config, e: Engine, i: Inputs)
    ensures PositionAt(c, e, i, 18)
         == if !Flattens(c, e, i) && Flips(c, e, i) then None else PositionAt(c, e, i, 17)
    ensures LogAt(c, e, i, 18)
         == With(With(LogAt(c, e, i, 17), Stacked(SideAsked(i)), Stacks(c, e, i)), FlippedEvent(e, i), Flips(c, e, i))
  {
    hide PassesFilters, Flips, Stacks, Flattens, Routes, Queues;
  }

  /** Management, for a signal that has come to it. */
  lemma ManageSignal(c: Config, e: Engine, i: Inputs, s: State)
    requires ComesToManagement(c, e, i) && s.e.position == HeldAtStart(e, i) && s.e.pending == e.pending
    requires s.x == Context(Some(SideAsked(i)), AgainstHeld(e, i) ==> i.flipGate, false, HeldAtStart(e, i))
    ensures var stays := Admitted(e, i) && HeldAtStart(e, i) != Some(SideAsked(i))
                         && (AgainstHeld(e, i) && i.flipGate ==> !TakesProfit(c, i) && i.closeOk);
      var log := With(With(s.e.log, Stacked(SideAsked(i)), Stacks(c, e, i)), FlippedEvent(e, i), Flips(c, e, i));
      Manage(c, i, s) == State(s.e.(position := if Flips(c, e, i) then None else s.e.position, log := log),
                               s.x.(newSide := if stays then Some(SideAsked(i)) else None))
  {
    OtherSideHeld(e, i);
    hide ComesToManagement, HeldAtStart, SideAsked;
  }

  lemma ManageStage(c: Config, e: Engine, i: Inputs, b: map<Stage, nat>)
    requires e.cycles >= 1
    ensures Manage(c, i, StateAt(c, e, i, 17, b)) == StateAt(c, e, i, 18, b)
  {
    SameElsewhere(c, e, i, 17);
    ManagementSide(c, e, i);
    ManagementElsewhere(c, e, i);
    AliveIs(c, e, i);
    if Alive(c, e, i, 17) {
      HeldWhileAlive(c, e, i, 17);
      Earlier(c, e, i, 15, 17);
      Earlier(c, e, i, 8, 17);
      hide Manage, Alive, PositionAt, ChainAt, LogAt, PassesFilters, ComesToManagement, Flattens, MustFlatten, Flips,
        Stacks, AgainstHeld, Admitted, TakesProfit, HeldAtStart, SideAsked, With;
      ManageSignal(c, e, i, StateAt(c, e, i, 17, b));
    } else {
      NoPositionNoSide(c, e, i, 17);
      hide Alive, PositionAt, ChainAt, LogAt, PassesFilters, ComesToManagement, Flattens, MustFlatten;
    }
  }

  lemma OtherSideHeld(e: Engine, i: Inputs)
    ensures AgainstHeld(e, i) <==> HeldAtStart(e, i) == Some(if SideAsked(i) == Long then Short else Long)
  {
    assert HeldAtStart(e, i).Some? ==> HeldAtStart(e, i).value == Long || HeldAtStart(e, i).value == Short;
  }

  lemma NoPositionNoSide(c: Config, e: Engine, i: Inputs, k: nat)
    requires 8 <= k <= 17 && !Alive(c, e, i, k)
    ensures SideAt(c, e, i, k) == None && (PositionAt(c, e, i, k).Some? ==> PositionAt(c, e, i, k) == HeldAtStart(e, i))
  {
    hide Alive, Flattens;
  }

  lemma RouteElsewhere(c: Config, e: Engine, i: Inputs)
    ensures PositionAt(c, e, i, 20)
         == if !Flattens(c, e, i) && Routes(c, e, i) then Some(SideAsked(i)) else PositionAt(c, e, i, 19)
    ensures LogAt(c, e, i, 20)
         == With(With(LogAt(c, e, i, 19), RoutedEvent(c, e, i), Routes(c, e, i)), Queued(SideAsked(i)), Queues(c, e, i))
    ensures PendingAt(c, e, i, 19) == e.pending
    ensures PendingAt(c, e, i, 20) == if Queues(c, e, i) then e.pending + [SideAsked(i)] else e.pending
    ensures SideAt(c, e, i, 20) == SideAt(c, e, i, 19)
  {
    hide PassesFilters, Flips, Stacks, Flattens, Routes, Queues, RoutedEvent;
  }

  lemma RouteStage(c: Config, e: Engine, i: Inputs, b: map<Stage, nat>)
    requires e.cycles >= 1
    ensures Route(i, StateAt(c, e, i, 19, b)) == StateAt(c, e, i, 20, b)
  {
    SameElsewhere(c, e, i, 19);
    RouteElsewhere(c, e, i);
    AliveIs(c, e, i);
    if Alive(c, e, i, 19) {
      Earlier(c, e, i, 15, 19);
      Earlier(c, e, i, 8, 19);
      PositionLetThrough(c, e, i);
    }
    hide Alive, PositionAt, ChainAt, LogAt, PassesFilters, ComesToManagement, Flattens, MustFlatten, PendingAt;
  }

  lemma PositionLetThrough(c: Config, e: Engine, i: Inputs)
    requires e.cycles >= 1 && LetThrough(c, e, i)
    ensures !Flattens(c, e, i) && PositionAt(c, e, i, 19) == if Flips(c, e, i) then None else HeldAtStart(e, i)
  {
    hide Flips;
  }

  lemma PollStage(c: Config, e: Engine, i: Inputs, b: map<Stage, nat>)
    ensures var s := StateAt(c, e, i, 20, b); s.(e := Poll(c, i, s.e)) == StateAt(c, e, i, 21, b)
  {
    var s := StateAt(c, e, i, 20, b);
    PollOnlyDrops(c, i, s.e);
    SameElsewhere(c, e, i, 20);
    LastSide(c, e, i);
    hide Alive, PositionAt, ChainAt, LogAt, QueueAt, Poll, Waiting, SideAt;
  }

  lemma LastSide(c: Config, e: Engine, i: Inputs)
    ensures SideAt(c, e, i, 21) == SideAt(c, e, i, 20)
  {
    hide MustFlatten, AgainstHeld, LoneSignal, Admitted, TakesProfit, HeldAtStart, SideAsked;
  }

  lemma SignalStage(c: Config, e: Engine, i: Inputs, b: map<Stage, nat>)
    ensures var s := StateAt(c, e, i, 4, b); s.(x := s.x.(newSide := SideOf(i.signal))) == StateAt(c, e, i, 5, b)
  {
    SameElsewhere(c, e, i, 4);
    hide PositionAt, ChainAt, LogAt, PendingAt, FlipAllowedAt;
  }

  lemma StepGoesOn(c: Config, e: Engine, i: Inputs, stage: Stage, b: map<Stage, nat>)
    requires e.cycles >= 1 && |e.chain| <= 3
    ensures Step(c, i, stage, StateAt(c, e, i, Position(stage), b)) == StateAt(c, e, i, Position(stage) + 1, b)
  {
    Places(stage);
    StepIs(c, i, stage, StateAt(c, e, i, Position(stage), b));
    hide *;
    if stage == FirstCycleSuppression {
      FirstStage(c, e, i, b);
    } else if stage == ResolveSignal {
      SignalStage(c, e, i, b);
    } else if stage == SellOnlyFilter {
      FilterStage(c, e, i, b);
    } else if stage == SignalHysteresis {
      HysteresisStage(c, e, i, b);
    } else if stage == ConvictionGate {
      ConvictionStage(c, e, i, b);
    } else if stage == ManagePosition {
      ManageStage(c, e, i, b);
    } else if stage == RouteExecutionPolicy {
      RouteStage(c, e, i, b);
    } else if stage == PollDeferredEntries {
      PollStage(c, e, i, b);
    } else {
      NoService(stage);
      GateStage(c, e, i, stage, b);
    }
  }

  lemma NoService(stage: Stage)
    requires stage != FirstCycleSuppression && stage != ResolveSignal && stage != SellOnlyFilter
    requires stage != SignalHysteresis && stage != ConvictionGate && stage != ManagePosition
    requires stage != RouteExecutionPolicy && stage != PollDeferredEntries
    ensures IsGate(stage)
  {
  }

  lemma FirstStage(c: Config, e: Engine, i: Inputs, b: map<Stage, nat>)
    requires e.cycles >= 1
    ensures var s := StateAt(c, e, i, 0, b);
      s.(x := s.x.(abort := s.x.abort || s.e.cycles <= 1)) == StateAt(c, e, i, 1, b)
  {
    SameElsewhere(c, e, i, 0);
    hide PositionAt, ChainAt, LogAt, PendingAt, FlipAllowedAt;
  }

  /** The signal is there before stage k and not after it. */
  predicate EndsAt(c: Config, e: Engine, i: Inputs, k: nat) {
    k > 4 && Alive(c, e, i, k) && !Alive(c, e, i, k + 1)
  }

  lemma TurnGoesOn(c: Config, e: Engine, i: Inputs, stage: Stage, b: map<Stage, nat>)
    requires e.cycles >= 1 && |e.chain| <= 3
    ensures var t := Turn(c, i, stage, StateAt(c, e, i, Position(stage), b));
      && t == StateAt(c, e, i, Position(stage) + 1, t.e.blocked)
      && t.e.blocked == if EndsAt(c, e, i, Position(stage)) then b[stage := BlockedAt(b, stage) + 1] else b
  {
    StepGoesOn(c, e, i, stage, b);
    SideEnds(c, e, i, Position(stage));
    hide *;
    TurnFrom(c, i, stage, StateAt(c, e, i, Position(stage), b), StateAt(c, e, i, Position(stage) + 1, b));
    StateIs(c, e, i, Position(stage), b);
    StateIs(c, e, i, Position(stage) + 1, b);
  }

  lemma TurnFrom(c: Config, i: Inputs, stage: Stage, s: State, t: State)
    requires Step(c, i, stage, s) == t && !t.x.abort
    ensures Turn(c, i, stage, s) == if s.x.newSide.Some? && t.x.newSide.None?
      then t.(e := t.e.(blocked := t.e.blocked[stage := BlockedAt(t.e.blocked, stage) + 1])) else t
  {
    hide Step, BlockedAt;
  }

  lemma StateIs(c: Config, e: Engine, i: Inputs, k: nat, b: map<Stage, nat>)
    ensures var s := StateAt(c, e, i, k, b);
      && s.x.newSide == SideAt(c, e, i, k) && !s.x.abort && s.e.blocked == b
      && forall b' :: StateAt(c, e, i, k, b') == s.(e := s.e.(blocked := b'))
  {
    hide PositionAt, ChainAt, LogAt, PendingAt, FlipAllowedAt, SideAt;
  }

  lemma SideEnds(c: Config, e: Engine, i: Inputs, k: nat)
    ensures EndsAt(c, e, i, k) <==> SideAt(c, e, i, k).Some? && SideAt(c, e, i, k + 1).None?
  {
    hide Alive;
  }

  /** The counters of the stages from k on grow by one for the stage that ends the signal. */
  ghost predicate CountedFrom(c: Config, e: Engine, i: Inputs, k: nat, b: map<Stage, nat>, b': map<Stage, nat>) {
    forall stage :: BlockedAt(b', stage)
      == BlockedAt(b, stage) + if Position(stage) >= k && EndsAt(c, e, i, Position(stage)) then 1 else 0
  }

  lemma CountedStep(c: Config, e: Engine, i: Inputs, stage: Stage, b: map<Stage, nat>, b1: map<Stage, nat>,
                    b': map<Stage, nat>)
    requires b1 == if EndsAt(c, e, i, Position(stage)) then b[stage := BlockedAt(b, stage) + 1] else b
    requires CountedFrom(c, e, i, Position(stage) + 1, b1, b')
    ensures CountedFrom(c, e, i, Position(stage), b, b')
  {
    AtStage(stage);
    forall other
      ensures BlockedAt(b', other) == BlockedAt(b, other)
        + if Position(other) >= Position(stage) && EndsAt(c, e, i, Position(other)) then 1 else 0
    {
      BlockedAfter(b, stage, other);
      SameStage(other, Position(stage));
      hide EndsAt, Position, BlockedAt;
    }
  }

  lemma {:induction false} StagesGoOn(c: Config, e: Engine, i: Inputs, k: nat, b: map<Stage, nat>)
    requires e.cycles >= 1 && |e.chain| <= 3 && k <= STAGE_COUNT
    ensures var t := RunStages(c, i, StateAt(c, e, i, k, b), k);
      t == StateAt(c, e, i, 22, t.e.blocked) && CountedFrom(c, e, i, k, b, t.e.blocked)
    decreases STAGE_COUNT - k
  {
    hide Turn, Position, PositionAt, ChainAt, LogAt, PendingAt, FlipAllowedAt, SideAt, StageNo, RunStages, EndsAt;
    var s := StateAt(c, e, i, k, b);
    if k == STAGE_COUNT {
      StagesEnd(c, i, s);
      NothingCounted(c, e, i, b);
    } else {
      hide CountedFrom;
      StageAt(k);
      StagesStep(c, i, s, k);
      TurnGoesOn(c, e, i, StageNo(k), b);
      StagesGoOn(c, e, i, k + 1, Turn(c, i, StageNo(k), s).e.blocked);
      CountedStep(c, e, i, StageNo(k), b, Turn(c, i, StageNo(k), s).e.blocked,
                  RunStages(c, i, StateAt(c, e, i, k, b), k).e.blocked);
    }
  }

  lemma NothingCounted(c: Config, e: Engine, i: Inputs, b: map<Stage, nat>)
    ensures CountedFrom(c, e, i, STAGE_COUNT, b, b)
  {
    forall stage
      ensures Position(stage) < STAGE_COUNT
    {
      AtStage(stage);
    }
  }

  lemma StartIs(c: Config, e: Engine, i: Inputs)
    ensures Begin(e, i) == StateAt(c, e, i, 0, e.blocked)
  {
  }

  /** The first cycle of an engine ends with its first stage. */
  lemma FirstCycle(c: Config, e: Engine, i: Inputs)
    requires e.cycles == 0
    ensures var t := After(c, e, i);
      && t.x.abort && t.e.position == HeldAtStart(e, i)
      && t.e.blocked == e.blocked[FirstCycleSuppression := BlockedAt(e.blocked, FirstCycleSuppression) + 1]
      && t.e.log == e.log && t.e.chain == e.chain && t.e.pending == e.pending
  {
    var s := Begin(e, i);
    StagesStep(c, i, s, 0);
    hide RunStages;
  }

  // ----- the outcome

  /** What one cycle does, whatever the settings, the engine and the inputs. It ends with its signal exactly
      when that is let through; it holds what was opened, nothing after a close alone, and otherwise what it
      held; an entry is left in the queue exactly when it was there or has been queued, the poll does not
      cancel everything, and it is to wait. */
  lemma CycleIs(c: Config, e: Engine, i: Inputs)
    requires |e.chain| <= 3
    ensures var t := After(c, e, i);
      && Result(t.x) == (if LetThrough(c, e, i) then i.signal else Flat)
      && t.e.position == (if Routes(c, e, i) then Some(SideAsked(i))
                          else if Flattens(c, e, i) || Flips(c, e, i) then None
                          else HeldAtStart(e, i))
      && t.e.chain == (if PassesFilters(c, e, i) then LastThree(e.chain + [SideAsked(i)]) else e.chain)
      && t.e.log == LogAt(c, e, i, 22)
      && (e.cycles == 0 ==> t.e.pending == e.pending)
      && (e.cycles >= 1 ==> forall side :: side in t.e.pending <==>
            && (side in e.pending || (Queues(c, e, i) && side == SideAsked(i)))
            && !i.cancelAll && (if side == Long then !c.sellOnly && i.longPoll.Wait? else i.shortPoll.Wait?))
  {
    if e.cycles == 0 {
      FirstCycle(c, e, i);
      hide After;
    } else {
      StagesGoOn(c, e, i, 0, e.blocked);
      StartIs(c, e, i);
      EndIs(c, e, i);
      hide RunStages, PositionAt, ChainAt, LogAt, PendingAt, SideAt, Routes, Flips, Flattens, PassesFilters, LetThrough,
        Begin;
    }
  }

  lemma EndIs(c: Config, e: Engine, i: Inputs)
    requires e.cycles >= 1
    ensures SideAt(c, e, i, 22) == if LetThrough(c, e, i) then Some(SideAsked(i)) else None
    ensures LetThrough(c, e, i) ==> i.signal == if SideAsked(i) == Long then Buy else Sell
    ensures PositionAt(c, e, i, 22)
         == if Routes(c, e, i) then Some(SideAsked(i))
            else if Flattens(c, e, i) || Flips(c, e, i) then None
            else HeldAtStart(e, i)
    ensures ChainAt(c, e, i, 22)
         == if PassesFilters(c, e, i) then LastThree(e.chain + [SideAsked(i)]) else e.chain
    ensures forall side :: side in PendingAt(c, e, i, 22) <==>
      && (side in e.pending || (Queues(c, e, i) && side == SideAsked(i)))
      && !i.cancelAll && (if side == Long then !c.sellOnly && i.longPoll.Wait? else i.shortPoll.Wait?)
  {
    AliveIs(c, e, i);
    LastSide(c, e, i);
    Stays(c, e, i);
    WaitingIs(c, i, QueueAt(c, e, i, 22));
    hide Alive, LastThree, Queues, PassesFilters, Flips, ComesToManagement, Waiting, AgainstHeld;
    if Routes(c, e, i) {
      PositionLetThrough(c, e, i);
    }
  }

  lemma Stays(c: Config, e: Engine, i: Inputs)
    ensures SideAt(c, e, i, 22) == SideAt(c, e, i, 19)
    ensures Alive(c, e, i, 19) ==> i.signal != Flat
  {
    hide MustFlatten, AgainstHeld, LoneSignal, Admitted, TakesProfit, HeldAtStart, SideAsked;
  }

  /** The stage that takes the signal of a cycle out, if any: the first stage in the first cycle of an engine,
      and otherwise the one before which the signal is still there and after which it is not. */
  predicate TakenOutBy(c: Config, e: Engine, i: Inputs, stage: Stage) {
    if e.cycles == 0 then stage == FirstCycleSuppression else EndsAt(c, e, i, Position(stage))
  }

  /** Each cycle adds one to the counter of the stage that takes its signal out, and nothing to any other. */
  lemma CountersExactly(c: Config, e: Engine, i: Inputs, stage: Stage)
    requires |e.chain| <= 3
    ensures BlockedAt(After(c, e, i).e.blocked, stage)
         == BlockedAt(e.blocked, stage) + if TakenOutBy(c, e, i, stage) then 1 else 0
  {
    if e.cycles == 0 {
      FirstCycle(c, e, i);
      BlockedAfter(e.blocked, FirstCycleSuppression, stage);
      hide After, BlockedAt;
    } else {
      StagesGoOn(c, e, i, 0, e.blocked);
      StartIs(c, e, i);
      hide RunStages, PositionAt, ChainAt, LogAt, PendingAt, SideAt, FlipAllowedAt, Begin, EndsAt, Position, BlockedAt;
    }
  }

  // ----- the events of a cycle

  /** The cycle has added the event to the log. */
  ghost predicate Logged(before: seq<Event>, log: seq<Event>, event: Event) {
    |before| <= |log| && event in log[|before|..]
  }

  lemma WithLogs(before: seq<Event>, log: seq<Event>, event: Event, when: bool)
    requires |before| <= |log| && log[..|before|] == before
    ensures var longer := With(log, event, when);
      && |before| <= |longer| && longer[..|before|] == before
      && forall other :: Logged(before, longer, other) <==> Logged(before, log, other) || (when && other == event)
  {
    assert (log + [event])[|before|..] == log[|before|..] + [event];
  }

  /** Exactly these events are logged. An entry is routed if and only if the signal is let through, the policy
      is to enter and the order is filled; queued if and only if it is let through, the policy is to defer and
      there is a plan; and a position is flipped if and only if the other side is held, the conviction gate
      consents, the entry gate admits the side, profit is not locked in and the close is accepted. */
  lemma EventsExactly(c: Config, e: Engine, i: Inputs)
    requires |e.chain| <= 3
    ensures var log := After(c, e, i).e.log;
      && |e.log| <= |log| && log[..|e.log|] == e.log
      && forall event :: Logged(e.log, log, event) <==>
           || (event == Flattened && Flattens(c, e, i))
           || (event == Reached(SideAsked(i)) && PassesFilters(c, e, i))
           || (event == Stacked(SideAsked(i)) && Stacks(c, e, i))
           || (event == FlippedEvent(e, i) && Flips(c, e, i))
           || (event == RoutedEvent(c, e, i) && LetThrough(c, e, i) && i.policy == Enter && i.fillOk)
           || (event == Queued(SideAsked(i)) && LetThrough(c, e, i) && i.policy == Defer && i.hasPlan)
  {
    CycleIs(c, e, i);
    hide After, Flattens, PassesFilters, Stacks, Flips, LetThrough, With, Logged, RoutedEvent, FlippedEvent;
    var l0, side := e.log, SideAsked(i);
    var l1 := With(l0, Flattened, Flattens(c, e, i));
    var l2 := With(l1, Reached(side), PassesFilters(c, e, i));
    var l3 := With(l2, Stacked(side), Stacks(c, e, i));
    var l4 := With(l3, FlippedEvent(e, i), Flips(c, e, i));
    var l5 := With(l4, RoutedEvent(c, e, i), Routes(c, e, i));
    NothingLogged(l0);
    WithLogs(l0, l0, Flattened, Flattens(c, e, i));
    WithLogs(l0, l1, Reached(side), PassesFilters(c, e, i));
    WithLogs(l0, l2, Stacked(side), Stacks(c, e, i));
    WithLogs(l0, l3, FlippedEvent(e, i), Flips(c, e, i));
    WithLogs(l0, l4, RoutedEvent(c, e, i), Routes(c, e, i));
    WithLogs(l0, l5, Queued(side), Queues(c, e, i));
  }

  lemma NothingLogged(log: seq<Event>)
    ensures log[..|log|] == log && forall event :: !Logged(log, log, event)
  {
    assert log[|log|..] == [];
  }

  /** No run makes the chain longer than three, so the two results hold for every cycle of every run. */
  lemma {:induction false} ChainStaysShort(c: Config, e: Engine, cycles: seq<Inputs>)
    requires |e.chain| <= 3
    ensures |Run(c, e, cycles).chain| <= 3
    decreases |cycles|
  {
    if cycles != [] {
      hide After, LogAt;
      CycleIs(c, e, cycles[0]);
      ChainStaysShort(c, After(c, e, cycles[0]).e, cycles[1..]);
    }
  }
}
