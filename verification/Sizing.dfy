/** Position sizing: the guardrail chain from equity to notional, and the broker's volume grid. */
module Sizing {
  import opened Prelude

  datatype Input = Input(
    equity: real,
    drawdown: real,
    sizeScalar: real,
    kelly: real,
    maxPositionPct: real,
    maxRiskPct: real,
    minViablePct: real,
    taperStart: real,
    taperEnd: real,
    taperMin: real,
    entryPrice: real,
    slDistance: real,
    isMt5: bool)

  datatype Result = Accepted(notional: real, quantity: real) | BelowMinViable

  const MIN_QUANTITY := 0.000001

  function DrawdownTaper(dd: real, start: real, end: real, minSize: real): real {
    if dd >= start then 1.0
    else if dd <= end then minSize
    else Max(1.0 - (dd - start) / (end - start) * (1.0 - minSize), minSize)
  }

  function StartNotional(inp: Input): real {
    if inp.isMt5
    then inp.equity * Max(inp.maxPositionPct, 1.0)
         * DrawdownTaper(inp.drawdown, inp.taperStart, inp.taperEnd, inp.taperMin) * inp.kelly
    else inp.equity * inp.sizeScalar
  }

  /** None stands for an infinite cap. */
  function PositionCap(inp: Input): Option<real> {
    if inp.equity <= 0.0 then None
    else if inp.isMt5 then Some(Max(inp.maxPositionPct, 1.0) * inp.equity)
    else Some(inp.maxPositionPct * inp.equity)
  }

  function CappedNotional(inp: Input): real {
    if PositionCap(inp).Some? then Min(StartNotional(inp), PositionCap(inp).value) else StartNotional(inp)
  }

  function MaxRisk(inp: Input): real {
    inp.maxRiskPct / 100.0 * inp.equity
  }

  /** What the stop loss costs on a notional. */
  function StopLoss(inp: Input, notional: real): real {
    if inp.slDistance > 0.0 && inp.entryPrice > 0.0 then inp.slDistance * (notional / inp.entryPrice) else 0.0
  }

  predicate RiskCapBinds(inp: Input) {
    inp.equity > 0.0 && StopLoss(inp, CappedNotional(inp)) > MaxRisk(inp)
  }

  function RiskCappedNotional(inp: Input): real {
    (if inp.slDistance > 0.0 then MaxRisk(inp) / inp.slDistance else 0.0) * inp.entryPrice
  }

  function Quantity(inp: Input, notional: real): real {
    if inp.entryPrice > 0.0 then Max(notional / inp.entryPrice, MIN_QUANTITY) else 0.0
  }

  function Size(inp: Input): Result {
    if !RiskCapBinds(inp) then Accepted(CappedNotional(inp), Quantity(inp, CappedNotional(inp)))
    else if RiskCappedNotional(inp) < inp.minViablePct * inp.equity then BelowMinViable
    else Accepted(RiskCappedNotional(inp), Quantity(inp, RiskCappedNotional(inp)))
  }

  method Compute(inp: Input) returns (res: Result)
    ensures res == Size(inp)
  {
    hide DrawdownTaper, MaxRisk;
    var notional := StartNotional(inp);
    var cap := PositionCap(inp);
    if cap.Some? && notional > cap.value {
      notional := cap.value;
    }
    assert notional == CappedNotional(inp);
    var maxRisk := MaxRisk(inp);
    hide StartNotional, PositionCap, CappedNotional, RiskCappedNotional;
    var risk := StopLoss(inp, notional);
    if inp.equity > 0.0 && risk > maxRisk {
      var capped := RiskCappedNotional(inp);
      if capped < inp.minViablePct * inp.equity {
        return BelowMinViable;
      }
      notional := capped;
    }
    return Accepted(notional, Quantity(inp, notional));
  }

  // ----- caps

  lemma Order(k: real, x: real, y: real)
    requires k > 0.0
    ensures k * x <= k * y <==> x <= y
  {
    if x > y {
      assert k * (x - y) > 0.0;
    } else {
      assert k * (y - x) >= 0.0;
    }
  }

  lemma RiskCapIsExact(inp: Input)
    requires inp.slDistance > 0.0 && inp.entryPrice > 0.0
    ensures StopLoss(inp, RiskCappedNotional(inp)) == MaxRisk(inp)
  {
    hide MaxRisk;
    var q := MaxRisk(inp) / inp.slDistance;
    assert q * inp.slDistance == MaxRisk(inp);
    assert (q * inp.entryPrice) / inp.entryPrice == q;
  }

  lemma StopLossMonotone(inp: Input, a: real, b: real)
    requires StopLoss(inp, a) <= StopLoss(inp, b) && inp.slDistance > 0.0 && inp.entryPrice > 0.0
    ensures a <= b
  {
    var x, y := a / inp.entryPrice, b / inp.entryPrice;
    assert inp.entryPrice * x == a && inp.entryPrice * y == b;
    Order(inp.slDistance, x, y);
    Order(inp.entryPrice, x, y);
  }

  /** An accepted notional is within the position cap, and its stop loss within the risk cap. */
  lemma AcceptedIsWithinCaps(inp: Input)
    requires inp.equity > 0.0 && inp.entryPrice > 0.0 && Size(inp).Accepted?
    requires inp.slDistance > 0.0 || inp.maxRiskPct >= 0.0
    ensures Size(inp).notional <= PositionCap(inp).value
    ensures inp.slDistance > 0.0 ==> StopLoss(inp, Size(inp).notional) <= MaxRisk(inp)
  {
    assert CappedNotional(inp) <= PositionCap(inp).value;
    assert inp.maxRiskPct >= 0.0 ==> MaxRisk(inp) >= 0.0;
    if RiskCapBinds(inp) {
      RiskCapIsExact(inp);
      hide MaxRisk, StartNotional, CappedNotional, RiskCappedNotional, PositionCap;
      StopLossMonotone(inp, RiskCappedNotional(inp), CappedNotional(inp));
    }
  }

  /** At the same rate, the floored quantity stays within a cap that holds for the quantity bought exactly
      when the floor does. */
  lemma FloorDecides(rate: real, bought: real, quantity: real, cap: real)
    requires rate > 0.0 && rate * bought <= cap && quantity == Max(bought, MIN_QUANTITY)
    ensures rate * quantity <= cap <==> rate * MIN_QUANTITY <= cap
  {
    Order(rate, bought, MIN_QUANTITY);
  }

  lemma NothingAtStake(sl: real, quantity: real)
    requires sl == 0.0
    ensures sl * quantity == 0.0
  {
  }

  /** An accepted notional is within the risk cap, but the quantity has a floor. Its stop loss is within
      the risk cap exactly when that of the smallest quantity is. */
  lemma QuantityWithinRiskCapIff(inp: Input)
    requires inp.equity > 0.0 && inp.entryPrice > 0.0 && inp.slDistance >= 0.0 && Size(inp).Accepted?
    ensures inp.slDistance * Size(inp).quantity <= MaxRisk(inp) <==> inp.slDistance * MIN_QUANTITY <= MaxRisk(inp)
  {
    hide *;
    var bought := QuantityIs(inp);
    if inp.slDistance > 0.0 {
      AcceptedIsWithinCaps(inp);
      FloorDecides(inp.slDistance, bought, Size(inp).quantity, MaxRisk(inp));
    } else {
      NothingAtStake(inp.slDistance, Size(inp).quantity);
      NothingAtStake(inp.slDistance, MIN_QUANTITY);
    }
  }

  lemma QuantityIs(inp: Input) returns (bought: real)
    requires inp.entryPrice > 0.0 && Size(inp).Accepted?
    ensures Size(inp).quantity == Max(bought, MIN_QUANTITY)
    ensures inp.slDistance > 0.0 ==> StopLoss(inp, Size(inp).notional) == inp.slDistance * bought
    ensures inp.entryPrice * bought == Size(inp).notional
  {
    QuotientTimes(Size(inp).notional, inp.entryPrice);
    hide CappedNotional, RiskCappedNotional, RiskCapBinds;
    bought := Size(inp).notional / inp.entryPrice;
  }

  /** The floor can exceed the position cap as well: what the accepted quantity costs is within it exactly
      when what the smallest quantity costs is. */
  lemma QuantityWithinPositionCapIff(inp: Input)
    requires inp.equity > 0.0 && inp.entryPrice > 0.0 && Size(inp).Accepted?
    requires inp.slDistance > 0.0 || inp.maxRiskPct >= 0.0
    ensures inp.entryPrice * Size(inp).quantity <= PositionCap(inp).value
       <==> inp.entryPrice * MIN_QUANTITY <= PositionCap(inp).value
  {
    assert PositionCap(inp).Some?;
    hide *;
    AcceptedIsWithinCaps(inp);
    var bought := QuantityIs(inp);
    FloorDecides(inp.entryPrice, bought, Size(inp).quantity, PositionCap(inp).value);
  }

  /** With the default settings, an equity of 1 and a stop 50000 away: accepted, and the smallest quantity
      risks 0.05 where the cap is 0.02. */
  lemma SmallestQuantityExceedsCap()
    ensures var inp := Input(1.0, 0.0, 1.0, 1.0, 0.15, 2.0, 0.01, -0.05, -0.15, 0.5, 100000.0, 50000.0, false);
      && Size(inp).Accepted? && MaxRisk(inp) == 0.02
      && inp.slDistance * Size(inp).quantity == 0.05
  {
    var inp := Input(1.0, 0.0, 1.0, 1.0, 0.15, 2.0, 0.01, -0.05, -0.15, 0.5, 100000.0, 50000.0, false);
    assert CappedNotional(inp) == 0.15;
    assert StopLoss(inp, 0.15) == 0.075;
    assert RiskCappedNotional(inp) == 0.04;
    assert Quantity(inp, 0.04) == MIN_QUANTITY;
  }

  // ----- the drawdown taper

  /** Between the end and the start of the taper, how far the drawdown is from the end, from 0 to 1. */
  function Recovered(dd: real, start: real, end: real): real
    requires end < start
  {
    (dd - end) / (start - end)
  }

  lemma QuotientIs(y: real, e: real, q: real)
    requires e != 0.0 && y == q * e
    ensures y / e == q
  {
    var z := y / e;
    assert (z - q) * e == 0.0;
  }

  lemma Fraction(x: real, y: real, e: real)
    requires e > 0.0
    ensures x < y ==> x / e < y / e
    ensures x == y ==> x / e == y / e
    ensures 0.0 / e == 0.0 && e / e == 1.0
  {
    var p, q := x / e, y / e;
    assert p * e == x && q * e == y;
    Order(e, q, p);
    QuotientIs(0.0, e, 0.0);
    QuotientIs(e, e, 1.0);
  }

  lemma RecoveredRange(dd: real, dd': real, start: real, end: real)
    requires end < dd <= dd' < start
    ensures 0.0 < Recovered(dd, start, end) <= Recovered(dd', start, end) < 1.0
    ensures (dd - start) / (end - start) == 1.0 - Recovered(dd, start, end)
  {
    var e := start - end;
    Fraction(0.0, dd - end, e);
    Fraction(dd - end, dd' - end, e);
    Fraction(dd' - end, e, e);
    Turned(dd - end, e);
  }

  lemma Turned(x: real, e: real)
    requires e != 0.0
    ensures (x - e) / (-e) == 1.0 - x / e
  {
    var p := x / e;
    assert p * e == x;
    assert (1.0 - p) * (-e) == x - e;
    QuotientIs(x - e, -e, 1.0 - p);
  }

  /** The taper is 1 from its start on and the smallest size up to its end, and on the way between them it
      rises in a straight line. */
  lemma TaperIs(dd: real, start: real, end: real, minSize: real)
    requires minSize <= 1.0
    ensures dd >= start ==> DrawdownTaper(dd, start, end, minSize) == 1.0
    ensures dd < start && dd <= end ==> DrawdownTaper(dd, start, end, minSize) == minSize
    ensures end < dd < start ==>
      DrawdownTaper(dd, start, end, minSize) == minSize + Recovered(dd, start, end) * (1.0 - minSize)
  {
    if end < dd < start {
      RecoveredRange(dd, dd, start, end);
      var p := Recovered(dd, start, end);
      assert p * (1.0 - minSize) >= 0.0;
      assert 1.0 - (1.0 - p) * (1.0 - minSize) == minSize + p * (1.0 - minSize);
    }
  }

  /** It never falls as the drawdown recovers, and stays between the smallest size and 1. */
  lemma TaperMonotone(dd: real, dd': real, start: real, end: real, minSize: real)
    requires minSize <= 1.0 && dd <= dd'
    ensures minSize <= DrawdownTaper(dd, start, end, minSize) <= DrawdownTaper(dd', start, end, minSize) <= 1.0
  {
    TaperIs(dd, start, end, minSize);
    TaperIs(dd', start, end, minSize);
    TaperRange(dd, start, end, minSize);
    TaperRange(dd', start, end, minSize);
    if end < dd <= dd' < start {
      RecoveredRange(dd, dd', start, end);
      hide DrawdownTaper, Recovered;
      TimesKeepsOrder(Recovered(dd, start, end), Recovered(dd', start, end), 1.0 - minSize);
    }
  }

  lemma TaperRange(dd: real, start: real, end: real, minSize: real)
    requires minSize <= 1.0
    ensures minSize <= DrawdownTaper(dd, start, end, minSize) <= 1.0
  {
    TaperIs(dd, start, end, minSize);
    if end < dd < start {
      RecoveredRange(dd, dd, start, end);
      hide DrawdownTaper, Recovered;
      TimesKeepsOrder(0.0, Recovered(dd, start, end), 1.0 - minSize);
      TimesKeepsOrder(Recovered(dd, start, end), 1.0, 1.0 - minSize);
    }
  }

  lemma TimesKeepsOrder(x: real, y: real, c: real)
    requires x <= y && c >= 0.0
    ensures x * c <= y * c
  {
    assert (y - x) * c >= 0.0;
  }

  /** The same input at another drawdown. */
  function AtDrawdown(inp: Input, dd: real): Input {
    inp.(drawdown := dd)
  }

  /** The notional before the taper and the caps: on the leveraged broker the whole equity, or the position
      percentage if that is more, times the Kelly multiplier. */
  function Untapered(inp: Input): real {
    inp.equity * (if inp.maxPositionPct >= 1.0 then inp.maxPositionPct else 1.0) * inp.kelly
  }

  /** The taper of an input's own settings. */
  function TaperOf(inp: Input): real {
    DrawdownTaper(inp.drawdown, inp.taperStart, inp.taperEnd, inp.taperMin)
  }

  lemma StartFromUntapered(inp: Input)
    ensures inp.isMt5 ==> StartNotional(inp) == Untapered(inp) * TaperOf(inp)
    ensures !inp.isMt5 ==> StartNotional(inp) == inp.equity * inp.sizeScalar
  {
    hide DrawdownTaper;
    var t, m := TaperOf(inp), Max(inp.maxPositionPct, 1.0);
    assert inp.equity * m * t * inp.kelly == inp.equity * m * inp.kelly * t;
  }

  lemma UncappedIs(inp: Input)
    requires inp.equity > 0.0 && StartNotional(inp) <= PositionCap(inp).value && !RiskCapBinds(inp)
    ensures Size(inp).Accepted? && Size(inp).notional == StartNotional(inp)
  {
    assert PositionCap(inp).Some?;
    hide StartNotional, PositionCap, RiskCapBinds, Quantity, RiskCappedNotional;
  }

  /** Where no cap binds, the notional on the leveraged broker is the untapered one times the taper, so it lies
      between taperMin times and once the untapered one. Elsewhere it is the equity times the size scalar,
      whatever the drawdown and the Kelly multiplier. */
  lemma UncappedNotional(inp: Input)
    requires inp.equity > 0.0 && StartNotional(inp) <= PositionCap(inp).value && !RiskCapBinds(inp)
    ensures Size(inp).Accepted?
    ensures !inp.isMt5 ==> Size(inp).notional == inp.equity * inp.sizeScalar
    ensures inp.isMt5 ==> Size(inp).notional == Untapered(inp) * TaperOf(inp)
    ensures inp.isMt5 && inp.kelly >= 0.0 && inp.taperMin <= 1.0 ==>
      Untapered(inp) * inp.taperMin <= Size(inp).notional <= Untapered(inp)
  {
    hide StartNotional, PositionCap, RiskCapBinds, Size, Untapered, TaperOf;
    UncappedIs(inp);
    StartFromUntapered(inp);
    StartRange(inp);
  }

  lemma StartRange(inp: Input)
    requires inp.equity > 0.0
    ensures inp.isMt5 && inp.kelly >= 0.0 && inp.taperMin <= 1.0 ==>
      Untapered(inp) * inp.taperMin <= StartNotional(inp) <= Untapered(inp)
  {
    StartFromUntapered(inp);
    hide *;
    if inp.isMt5 && inp.kelly >= 0.0 && inp.taperMin <= 1.0 {
      TaperOfRange(inp);
      UntaperedNonNegative(inp);
      PartOf(Untapered(inp), inp.taperMin, TaperOf(inp));
    }
  }

  lemma PartOf(whole: real, least: real, share: real)
    requires whole >= 0.0 && least <= share <= 1.0
    ensures whole * least <= whole * share <= whole
  {
    TimesKeepsOrder(least, share, whole);
    TimesKeepsOrder(share, 1.0, whole);
  }

  lemma TaperOfRange(inp: Input)
    requires inp.taperMin <= 1.0
    ensures inp.taperMin <= TaperOf(inp) <= 1.0
  {
    TaperRange(inp.drawdown, inp.taperStart, inp.taperEnd, inp.taperMin);
  }

  lemma UntaperedNonNegative(inp: Input)
    requires inp.equity > 0.0 && inp.kelly >= 0.0
    ensures Untapered(inp) >= 0.0
  {
    var m := if inp.maxPositionPct >= 1.0 then inp.maxPositionPct else 1.0;
    assert inp.equity * m > 0.0;
  }

  lemma NotionalIs(inp: Input)
    requires Size(inp).Accepted?
    ensures Size(inp).notional == if RiskCapBinds(inp) then RiskCappedNotional(inp) else CappedNotional(inp)
  {
    hide RiskCapBinds, RiskCappedNotional, CappedNotional;
  }

  lemma BindsIff(inp: Input)
    requires inp.equity > 0.0
    ensures RiskCapBinds(inp) <==> StopLoss(inp, CappedNotional(inp)) > MaxRisk(inp)
  {
    hide StopLoss, CappedNotional, MaxRisk;
  }

  lemma SameCaps(inp: Input, dd: real, notional: real)
    ensures MaxRisk(AtDrawdown(inp, dd)) == MaxRisk(inp) && PositionCap(AtDrawdown(inp, dd)) == PositionCap(inp)
    ensures RiskCappedNotional(AtDrawdown(inp, dd)) == RiskCappedNotional(inp)
    ensures StopLoss(AtDrawdown(inp, dd), notional) == StopLoss(inp, notional)
  {
    var low := AtDrawdown(inp, dd);
    assert low.equity == inp.equity && low.maxRiskPct == inp.maxRiskPct && low.maxPositionPct == inp.maxPositionPct;
    assert MaxRisk(low) == MaxRisk(inp) && low.isMt5 == inp.isMt5;
    hide MaxRisk, PositionCap;
    SamePositionCap(inp, low);
  }

  lemma SamePositionCap(inp: Input, low: Input)
    requires low.equity == inp.equity && low.maxPositionPct == inp.maxPositionPct && low.isMt5 == inp.isMt5
    ensures PositionCap(low) == PositionCap(inp)
  {
    var e, p := inp.equity, inp.maxPositionPct;
    var m := Max(p, 1.0);
    hide Max;
    if e > 0.0 {
      assert PositionCap(inp).value == if inp.isMt5 then m * e else p * e;
      assert PositionCap(low).value == if inp.isMt5 then m * e else p * e;
    }
  }

  /** A deeper drawdown never gives a larger notional, whichever caps bind. */
  lemma NotionalMonotoneInDrawdown(inp: Input, dd: real)
    requires inp.equity > 0.0 && inp.entryPrice > 0.0 && inp.kelly >= 0.0 && inp.taperMin <= 1.0
    requires dd <= inp.drawdown && Size(inp).Accepted? && Size(AtDrawdown(inp, dd)).Accepted?
    requires inp.slDistance > 0.0 || inp.maxRiskPct >= 0.0
    ensures Size(AtDrawdown(inp, dd)).notional <= Size(inp).notional
  {
    var low := AtDrawdown(inp, dd);
    assert low.equity == inp.equity;
    CappedMonotone(inp, dd);
    NoStopNoRisk(inp);
    hide *;
    var a, b := CappedNotional(low), CappedNotional(inp);
    NotionalIs(inp);
    NotionalIs(low);
    BindsIff(inp);
    BindsIff(low);
    SameCaps(inp, dd, a);
    if inp.slDistance > 0.0 {
      StopLossKeepsOrder(inp, a, b);
      RiskCapIsExact(inp);
      if RiskCapBinds(inp) && !RiskCapBinds(low) {
        StopLossMonotone(inp, a, RiskCappedNotional(inp));
      }
    }
  }

  lemma NoStopNoRisk(inp: Input)
    requires inp.equity > 0.0
    ensures inp.slDistance <= 0.0 ==> forall notional :: StopLoss(inp, notional) == 0.0
    ensures inp.maxRiskPct >= 0.0 ==> MaxRisk(inp) >= 0.0
  {
  }

  lemma CappedMonotone(inp: Input, dd: real)
    requires inp.equity > 0.0 && inp.kelly >= 0.0 && inp.taperMin <= 1.0 && dd <= inp.drawdown
    ensures CappedNotional(AtDrawdown(inp, dd)) <= CappedNotional(inp)
  {
    StartMonotone(inp, dd);
    SameCaps(inp, dd, 0.0);
    hide StartNotional, PositionCap;
  }

  lemma StopLossKeepsOrder(inp: Input, a: real, b: real)
    requires a <= b && inp.slDistance > 0.0 && inp.entryPrice > 0.0
    ensures StopLoss(inp, a) <= StopLoss(inp, b)
  {
    var x, y := a / inp.entryPrice, b / inp.entryPrice;
    assert inp.entryPrice * x == a && inp.entryPrice * y == b;
    Order(inp.slDistance, x, y);
    Order(inp.entryPrice, x, y);
  }

  lemma StartMonotone(inp: Input, dd: real)
    requires inp.equity > 0.0 && inp.kelly >= 0.0 && inp.taperMin <= 1.0 && dd <= inp.drawdown
    ensures StartNotional(AtDrawdown(inp, dd)) <= StartNotional(inp)
  {
    var low := AtDrawdown(inp, dd);
    StartFromUntapered(inp);
    StartFromUntapered(low);
    UntaperedNonNegative(inp);
    TaperMonotone(dd, inp.drawdown, inp.taperStart, inp.taperEnd, inp.taperMin);
    assert TaperOf(low) <= TaperOf(inp) && Untapered(low) == Untapered(inp);
    assert low.equity == inp.equity && low.sizeScalar == inp.sizeScalar && low.isMt5 == inp.isMt5;
    hide *;
    TimesKeepsOrder(TaperOf(low), TaperOf(inp), Untapered(inp));
  }

  // ----- the notional is the greatest that fits

  /** The notional asked for before the caps. */
  function Asked(inp: Input): real {
    if inp.isMt5 then Untapered(inp) * TaperOf(inp) else inp.equity * inp.sizeScalar
  }

  /** The position cap of an account with equity: at least the equity on the leveraged broker. */
  function CapOf(inp: Input): real {
    (if inp.isMt5 && inp.maxPositionPct < 1.0 then 1.0 else inp.maxPositionPct) * inp.equity
  }

  /** A notional is no more than was asked for and within both caps. */
  predicate Fits(inp: Input, notional: real)
    requires inp.entryPrice > 0.0
  {
    && notional <= Asked(inp) && notional <= CapOf(inp)
    && (inp.slDistance > 0.0 ==> inp.slDistance * (notional / inp.entryPrice) <= inp.maxRiskPct / 100.0 * inp.equity)
  }

  lemma CappedIs(inp: Input)
    requires inp.equity > 0.0
    ensures CappedNotional(inp) == Min(Asked(inp), CapOf(inp))
  {
    StartFromUntapered(inp);
    CapIs(inp);
    hide StartNotional, Untapered, TaperOf, CapOf, PositionCap;
  }

  lemma CapIs(inp: Input)
    requires inp.equity > 0.0
    ensures PositionCap(inp) == Some(CapOf(inp))
  {
    var e, p := inp.equity, inp.maxPositionPct;
    var m, l := Max(p, 1.0), if p < 1.0 then 1.0 else p;
    assert m == l;
    hide Max;
    assert PositionCap(inp).value == if inp.isMt5 then m * e else p * e;
    assert CapOf(inp) == if inp.isMt5 then l * e else p * e;
  }

  lemma FitsIff(inp: Input, notional: real)
    requires inp.equity > 0.0 && inp.entryPrice > 0.0 && (inp.slDistance > 0.0 || inp.maxRiskPct >= 0.0)
    ensures Fits(inp, notional) <==> notional <= CappedNotional(inp) && StopLoss(inp, notional) <= MaxRisk(inp)
  {
    CappedIs(inp);
    NoStopNoRisk(inp);
    hide CappedNotional, Asked, CapOf;
    assert MaxRisk(inp) == inp.maxRiskPct / 100.0 * inp.equity;
  }

  /** The notional is the greatest that fits; the trade is skipped exactly when the risk cap is what binds and
      that greatest notional is below the smallest viable one. */
  lemma NotionalIsGreatest(inp: Input) returns (best: real)
    requires inp.equity > 0.0 && inp.entryPrice > 0.0 && (inp.slDistance > 0.0 || inp.maxRiskPct >= 0.0)
    ensures Fits(inp, best) && forall x :: Fits(inp, x) ==> x <= best
    ensures Size(inp).BelowMinViable? <==>
      best < Min(Asked(inp), CapOf(inp)) && best < inp.minViablePct * inp.equity
    ensures Size(inp).Accepted? ==> Size(inp).notional == best
  {
    BindsIff(inp);
    CappedIs(inp);
    NoStopNoRisk(inp);
    hide CappedNotional, MaxRisk, Asked, CapOf, StopLoss, Fits, RiskCappedNotional, RiskCapBinds, Quantity;
    var capped := CappedNotional(inp);
    best := if RiskCapBinds(inp) then RiskCappedNotional(inp) else capped;
    forall x
      ensures Fits(inp, x) <==> x <= capped && StopLoss(inp, x) <= MaxRisk(inp)
    {
      FitsIff(inp, x);
    }
    if RiskCapBinds(inp) {
      RiskCapIsExact(inp);
      StopLossMonotone(inp, best, capped);
      forall x | Fits(inp, x)
        ensures x <= best
      {
        StopLossMonotone(inp, x, best);
      }
    }
  }

  // ----- scaling

  function Scaled(inp: Input, k: real): Input {
    inp.(equity := k * inp.equity)
  }

  lemma ScaleMin(k: real, x: real, y: real)
    requires k > 0.0
    ensures Min(k * x, k * y) == k * Min(x, y)
  {
    Order(k, x, y);
  }

  lemma Reassociate(k: real, e: real, m: real, t: real, g: real)
    ensures k * e * m * t * g == k * (e * m * t * g)
    ensures m * (k * e) == k * (m * e) && k * e * m == k * (e * m)
  {
  }

  lemma StartScales(inp: Input, k: real)
    ensures StartNotional(Scaled(inp, k)) == k * StartNotional(inp)
  {
    hide DrawdownTaper, Max;
    Reassociate(k, inp.equity, Max(inp.maxPositionPct, 1.0),
                DrawdownTaper(inp.drawdown, inp.taperStart, inp.taperEnd, inp.taperMin), inp.kelly);
    Reassociate(k, inp.equity, inp.sizeScalar, 1.0, 1.0);
  }

  lemma CapScales(inp: Input, k: real)
    requires inp.equity > 0.0 && k * inp.equity > 0.0
    ensures PositionCap(Scaled(inp, k)).value == k * PositionCap(inp).value
  {
    hide Max;
    Reassociate(k, inp.equity, Max(inp.maxPositionPct, 1.0), 1.0, 1.0);
    Reassociate(k, inp.equity, inp.maxPositionPct, 1.0, 1.0);
  }

  lemma NotionalScales(inp: Input, k: real)
    requires k > 0.0 && inp.equity > 0.0
    ensures CappedNotional(Scaled(inp, k)) == k * CappedNotional(inp) && (k * inp.equity) > 0.0
  {
    assert k * inp.equity > 0.0;
    assert PositionCap(inp).Some? && PositionCap(Scaled(inp, k)).Some?;
    hide StartNotional, PositionCap;
    StartScales(inp, k);
    CapScales(inp, k);
    ScaleMin(k, StartNotional(inp), PositionCap(inp).value);
  }

  lemma StopLossScales(inp: Input, k: real, notional: real, scaled: real)
    requires scaled == k * notional
    ensures StopLoss(Scaled(inp, k), scaled) == k * StopLoss(inp, notional)
  {
    if inp.slDistance > 0.0 && inp.entryPrice > 0.0 {
      var q := notional / inp.entryPrice;
      assert q * inp.entryPrice == notional;
      assert (k * q) * inp.entryPrice == scaled;
      assert scaled / inp.entryPrice == k * q;
    }
  }

  lemma RiskScales(inp: Input, k: real)
    ensures MaxRisk(Scaled(inp, k)) == k * MaxRisk(inp)
    ensures RiskCappedNotional(Scaled(inp, k)) == k * RiskCappedNotional(inp)
  {
    assert MaxRisk(Scaled(inp, k)) == k * MaxRisk(inp);
    hide MaxRisk;
    if inp.slDistance > 0.0 {
      var q := MaxRisk(inp) / inp.slDistance;
      assert q * inp.slDistance == MaxRisk(inp);
      assert (k * q) * inp.slDistance == k * MaxRisk(inp);
      assert (k * MaxRisk(inp)) / inp.slDistance == k * q;
      assert (k * q) * inp.entryPrice == k * (q * inp.entryPrice);
    }
  }

  lemma DecisionScales(inp: Input, k: real)
    requires k > 0.0 && inp.equity > 0.0
    ensures RiskCapBinds(Scaled(inp, k)) <==> RiskCapBinds(inp)
    ensures RiskCappedNotional(Scaled(inp, k)) < Scaled(inp, k).minViablePct * Scaled(inp, k).equity
       <==> RiskCappedNotional(inp) < inp.minViablePct * inp.equity
  {
    hide MaxRisk, CappedNotional, RiskCappedNotional, StopLoss;
    var s, risk, cap := Scaled(inp, k), StopLoss(inp, CappedNotional(inp)), MaxRisk(inp);
    var min, capped := inp.minViablePct * inp.equity, RiskCappedNotional(inp);
    NotionalScales(inp, k);
    StopLossScales(inp, k, CappedNotional(inp), CappedNotional(s));
    RiskScales(inp, k);
    Order(k, risk, cap);
    Order(k, min, capped);
    assert RiskCapBinds(s) <==> k * risk > k * cap;
    assert s.minViablePct * s.equity == k * min;
  }

  /** Scaling equity by k > 0 scales the notional by k, with the same decision to accept or skip. */
  lemma SizeScales(inp: Input, k: real)
    requires k > 0.0 && inp.equity > 0.0
    ensures Size(Scaled(inp, k)).Accepted? <==> Size(inp).Accepted?
    ensures Size(inp).Accepted? ==> Size(Scaled(inp, k)).notional == k * Size(inp).notional
  {
    hide MaxRisk, CappedNotional, RiskCappedNotional, StopLoss, Quantity, RiskCapBinds;
    NotionalScales(inp, k);
    RiskScales(inp, k);
    DecisionScales(inp, k);
  }

  // ----- the broker's volume grid

  datatype SymbolInfo = SymbolInfo(contractSize: real, step: real, minVolume: real, maxVolume: real)

  /** int(x): towards zero. */
  function Truncate(x: real): int {
    if x >= 0.0 then x.Floor else -((-x).Floor)
  }

  /** round(x): to nearest, ties to even. */
  function Round(x: real): int {
    var f := x.Floor;
    if x - f as real < 0.5 || (x - f as real == 0.5 && f % 2 == 0) then f else f + 1
  }

  /** The m-th volume of the grid. */
  function Grid(i: SymbolInfo, m: int): real {
    m as real * i.step
  }

  function Limited(info: SymbolInfo, lots: real): real {
    if lots < info.minVolume || lots <= 0.0 then 0.0 else Min(lots, info.maxVolume)
  }

  /** normalize_volume; without symbol information the quantity is returned as it is. */
  function NormalizeVolume(info: Option<SymbolInfo>, quantity: real): real
    requires info.Some? ==> info.value.contractSize > 0.0 && info.value.step > 0.0
  {
    match info
    case None => quantity
    case Some(i) => Limited(i, Grid(i, Truncate(quantity / i.contractSize / i.step))) * i.contractSize
  }

  /** _quantity_to_lots */
  function QuantityToLots(info: Option<SymbolInfo>, quantity: real): real
    requires info.Some? ==> info.value.contractSize > 0.0 && info.value.step > 0.0
  {
    match info
    case None => quantity
    case Some(i) => Limited(i, Grid(i, Round(quantity / i.contractSize / i.step)))
  }

  /** _lots_to_quantity */
  function LotsToQuantity(info: Option<SymbolInfo>, lots: real): real {
    match info
    case None => lots * 100000.0
    case Some(i) => lots * i.contractSize
  }

  predicate Sound(i: SymbolInfo) {
    i.contractSize > 0.0 && i.step > 0.0 && i.maxVolume > 0.0 && i.minVolume <= i.maxVolume
  }

  ghost predicate OnGrid(i: SymbolInfo, lots: real) {
    exists m: nat :: lots == Grid(i, m)
  }

  /** The lots an order may have. */
  ghost predicate Tradable(i: SymbolInfo, lots: real) {
    OnGrid(i, lots) && 0.0 < lots && i.minVolume <= lots <= i.maxVolume
  }

  function NormalLots(i: SymbolInfo, lots: real): real
    requires i.step > 0.0
  {
    Limited(i, Grid(i, Truncate(lots / i.step)))
  }

  lemma QuotientTimes(x: real, y: real)
    requires y > 0.0
    ensures x / y * y == x && (x * y) / y == x
  {
  }

  lemma GridOrder(i: SymbolInfo, m: int, x: real)
    requires i.step > 0.0
    ensures Grid(i, m) <= x * i.step <==> m as real <= x
  {
    Order(i.step, m as real, x);
  }

  lemma GridQuotient(i: SymbolInfo, m: int)
    requires i.step > 0.0
    ensures Grid(i, m) / i.step == m as real
  {
    QuotientTimes(m as real, i.step);
  }

  lemma GridPoint(i: SymbolInfo, m: nat)
    requires i.step > 0.0
    ensures Truncate(Grid(i, m) / i.step) == m == Round(Grid(i, m) / i.step)
  {
    hide *;
    GridQuotient(i, m);
    WholeNumber(m);
  }

  lemma WholeNumber(m: nat)
    ensures Truncate(m as real) == m == Round(m as real)
  {
    assert (m as real).Floor == m;
  }

  lemma TruncateMonotone(x: real, y: real)
    requires x <= y
    ensures Truncate(x) <= Truncate(y)
  {
  }

  lemma BelowIsFloor(i: SymbolInfo, lots: real)
    requires i.step > 0.0 && lots >= 0.0
    ensures Truncate(lots / i.step) >= 0 && Grid(i, Truncate(lots / i.step)) <= lots
    ensures forall m: nat :: Grid(i, m) <= lots ==> Grid(i, m) <= Grid(i, Truncate(lots / i.step))
  {
    var x := lots / i.step;
    QuotientTimes(lots, i.step);
    assert x >= 0.0;
    var f := Truncate(x);
    GridOrder(i, f, x);
    hide Grid;
    forall m: nat | Grid(i, m) <= lots
      ensures Grid(i, m) <= Grid(i, f)
    {
      GridOrder(i, m, x);
      GridIncreases(i, m, f);
    }
  }

  lemma GridIncreases(i: SymbolInfo, m: int, n: int)
    requires i.step > 0.0
    ensures Grid(i, m) <= Grid(i, n) <==> m <= n
  {
    Order(i.step, m as real, n as real);
  }

  lemma NegativeLots(i: SymbolInfo, lots: real)
    requires i.step > 0.0 && lots <= 0.0
    ensures NormalLots(i, lots) == 0.0
  {
    var x := lots / i.step;
    QuotientTimes(lots, i.step);
    assert x <= 0.0;
    assert Truncate(x) <= 0;
    GridIncreases(i, Truncate(x), 0);
    assert Grid(i, 0) == 0.0;
  }

  ghost predicate GreatestTradable(i: SymbolInfo, lots: real, v: real) {
    if v == 0.0 then forall w :: Tradable(i, w) ==> w > lots
    else Tradable(i, v) && v <= lots && forall w :: Tradable(i, w) && w <= lots ==> w <= v
  }

  /** When the maximum volume is on the grid, normalising picks the greatest tradable volume that does
      not exceed the lots asked for, and 0 when there is none. */
  lemma NormalIsGreatest(i: SymbolInfo, lots: real)
    requires Sound(i) && OnGrid(i, i.maxVolume)
    ensures GreatestTradable(i, lots, NormalLots(i, lots))
  {
    if lots <= 0.0 {
      NegativeLots(i, lots);
    } else {
      BelowIsFloor(i, lots);
      hide Grid, Truncate;
    }
  }

  lemma GreatestIsUnique(i: SymbolInfo, lots: real, v: real, w: real)
    requires GreatestTradable(i, lots, v) && GreatestTradable(i, lots, w)
    ensures v == w
  {
    hide OnGrid;
  }

  lemma NormalizeInLots(i: SymbolInfo, quantity: real)
    requires Sound(i)
    ensures NormalizeVolume(Some(i), quantity) == NormalLots(i, quantity / i.contractSize) * i.contractSize
    ensures NormalizeVolume(Some(i), quantity) / i.contractSize == NormalLots(i, quantity / i.contractSize)
  {
    hide Limited, Truncate;
    QuotientTimes(NormalLots(i, quantity / i.contractSize), i.contractSize);
  }

  lemma NormalLotsIdempotent(i: SymbolInfo, lots: real)
    requires Sound(i) && OnGrid(i, i.maxVolume)
    ensures NormalLots(i, NormalLots(i, lots)) == NormalLots(i, lots)
  {
    hide NormalLots;
    var v := NormalLots(i, lots);
    NormalIsGreatest(i, lots);
    NormalIsGreatest(i, v);
    assert GreatestTradable(i, v, v) by {
      hide OnGrid;
    }
    GreatestIsUnique(i, v, NormalLots(i, v), v);
  }

  /** An order above a maximum volume off the grid is cut to that maximum, and the maximum itself to
      something less. */
  lemma OffGridMaximum(i: SymbolInfo)
    requires Sound(i) && !OnGrid(i, i.maxVolume)
    ensures exists lots :: NormalLots(i, lots) == i.maxVolume && NormalLots(i, i.maxVolume) < i.maxVolume
  {
    var x := i.maxVolume / i.step;
    QuotientTimes(i.maxVolume, i.step);
    assert x >= 0.0;
    var m: nat := Truncate(x) + 1;
    BelowIsFloor(i, i.maxVolume);
    assert Grid(i, Truncate(x)) < i.maxVolume;
    assert NormalLots(i, i.maxVolume) < i.maxVolume;
    GridOrder(i, m, x);
    GridPoint(i, m);
    assert NormalLots(i, Grid(i, m)) == i.maxVolume;
  }

  /** Normalising twice is normalising once, for every quantity, exactly when the maximum volume is on
      the grid. */
  lemma NormalizeIdempotentIff(info: Option<SymbolInfo>)
    requires info.Some? ==> Sound(info.value)
    ensures (forall q :: NormalizeVolume(info, NormalizeVolume(info, q)) == NormalizeVolume(info, q))
       <==> info.None? || OnGrid(info.value, info.value.maxVolume)
  {
    if info.Some? {
      KnownIdempotentIff(info.value);
      assert info == Some(info.value);
    }
    hide OnGrid;
  }

  lemma KnownIdempotentIff(i: SymbolInfo)
    requires Sound(i)
    ensures (forall q :: NormalizeVolume(Some(i), NormalizeVolume(Some(i), q)) == NormalizeVolume(Some(i), q))
       <==> OnGrid(i, i.maxVolume)
  {
    hide NormalizeVolume, NormalLots, OnGrid;
    if OnGrid(i, i.maxVolume) {
      forall q
        ensures NormalizeVolume(Some(i), NormalizeVolume(Some(i), q)) == NormalizeVolume(Some(i), q)
      {
        NormalizeInLots(i, q);
        NormalizeInLots(i, NormalizeVolume(Some(i), q));
        NormalLotsIdempotent(i, q / i.contractSize);
      }
    } else {
      OffGridMaximum(i);
      var lots :| NormalLots(i, lots) == i.maxVolume && NormalLots(i, i.maxVolume) < i.maxVolume;
      var q := lots * i.contractSize;
      QuotientTimes(lots, i.contractSize);
      NormalizeInLots(i, q);
      var cut := NormalizeVolume(Some(i), q);
      NormalizeInLots(i, cut);
      assert q / i.contractSize == lots && cut / i.contractSize == i.maxVolume;
      assert NormalizeVolume(Some(i), cut) == NormalLots(i, i.maxVolume) * i.contractSize;
      Order(i.contractSize, i.maxVolume, NormalLots(i, i.maxVolume));
      assert NormalizeVolume(Some(i), NormalizeVolume(Some(i), q)) != NormalizeVolume(Some(i), q);
    }
  }

  lemma QuotientOrder(x: real, y: real, c: real)
    requires c > 0.0
    ensures x / c <= y / c <==> x <= y
  {
    QuotientTimes(x, c);
    QuotientTimes(y, c);
    Order(c, x / c, y / c);
  }

  lemma NormalLotsMonotone(i: SymbolInfo, a: real, b: real)
    requires Sound(i) && a <= b
    ensures NormalLots(i, a) <= NormalLots(i, b)
  {
    QuotientOrder(a, b, i.step);
    TruncateMonotone(a / i.step, b / i.step);
    hide Truncate, Grid;
    GridIncreases(i, Truncate(a / i.step), Truncate(b / i.step));
  }

  /** Normalising is monotone. */
  lemma NormalizeMonotone(info: Option<SymbolInfo>, q: real, r: real)
    requires (info.Some? ==> Sound(info.value)) && q <= r
    ensures NormalizeVolume(info, q) <= NormalizeVolume(info, r)
  {
    if info.Some? {
      hide NormalizeVolume, Sound;
      KnownMonotone(info.value, q, r);
      assert info == Some(info.value);
    }
  }

  lemma KnownMonotone(i: SymbolInfo, q: real, r: real)
    requires Sound(i) && q <= r
    ensures NormalizeVolume(Some(i), q) <= NormalizeVolume(Some(i), r)
  {
    hide NormalizeVolume, NormalLots;
    var a, b := q / i.contractSize, r / i.contractSize;
    QuotientOrder(q, r, i.contractSize);
    NormalLotsMonotone(i, a, b);
    NormalizeInLots(i, q);
    NormalizeInLots(i, r);
    Order(i.contractSize, NormalLots(i, a), NormalLots(i, b));
  }

  lemma RoundedLotsWithin(i: SymbolInfo, lots: real)
    requires Sound(i) && lots >= 0.0
    ensures LotsSent(i, lots) <= NormalLots(i, lots) <= lots
  {
    BelowIsFloor(i, lots);
    GridPoint(i, Truncate(lots / i.step));
    GridPoint(i, 0);
    assert Grid(i, 0) == 0.0;
    hide Grid, Truncate, Round;
  }

  /** The lots sent for a quantity that has been normalised. */
  function LotsSent(i: SymbolInfo, lots: real): real
    requires i.step > 0.0
  {
    Limited(i, Grid(i, Round(NormalLots(i, lots) / i.step)))
  }

  lemma OrderInLots(i: SymbolInfo, quantity: real)
    requires Sound(i) && quantity >= 0.0
    ensures QuantityToLots(Some(i), NormalizeVolume(Some(i), quantity)) == LotsSent(i, quantity / i.contractSize)
    ensures quantity / i.contractSize >= 0.0
  {
    QuotientTimes(quantity, i.contractSize);
    hide NormalizeVolume, NormalLots, Limited, Round, Grid;
    NormalizeInLots(i, quantity);
  }

  /** For a known symbol, normalising a quantity and converting it to lots never orders more than the
      quantity. */
  lemma OrderNeverExceedsQuantity(i: SymbolInfo, quantity: real)
    requires Sound(i) && quantity >= 0.0
    ensures LotsToQuantity(Some(i), QuantityToLots(Some(i), NormalizeVolume(Some(i), quantity))) <= quantity
  {
    hide LotsSent, QuantityToLots, NormalizeVolume, NormalLots;
    var lots := quantity / i.contractSize;
    OrderInLots(i, quantity);
    assert LotsSent(i, lots) <= lots by {
      RoundedLotsWithin(i, lots);
    }
    CostWithin(LotsSent(i, lots), lots, i.contractSize, quantity);
  }

  /** What an order for a quantity comes to in the end, with or without symbol information. */
  function Ordered(info: Option<SymbolInfo>, quantity: real): real
    requires info.Some? ==> info.value.contractSize > 0.0 && info.value.step > 0.0
  {
    LotsToQuantity(info, QuantityToLots(info, NormalizeVolume(info, quantity)))
  }

  /** Without symbol information the quantity is taken for lots. */
  lemma UnknownSymbolOrder(quantity: real)
    ensures Ordered(None, quantity) == 100000.0 * quantity
  {
  }

  /** So an order stays within the quantity exactly when the symbol is known or there is nothing to order. */
  lemma OrderWithinQuantityIff(info: Option<SymbolInfo>, quantity: real)
    requires quantity >= 0.0 && (info.Some? ==> Sound(info.value))
    ensures Ordered(info, quantity) <= quantity <==> info.Some? || quantity == 0.0
  {
    match info
    case None => UnknownSymbolOrder(quantity);
    case Some(i) => OrderNeverExceedsQuantity(i, quantity);
  }

  lemma CostWithin(sent: real, lots: real, c: real, quantity: real)
    requires c > 0.0 && sent <= lots && lots == quantity / c
    ensures sent * c <= quantity
  {
    QuotientTimes(quantity, c);
    Order(c, sent, lots);
  }
}
