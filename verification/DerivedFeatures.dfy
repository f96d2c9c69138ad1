/** What each derived macro feature shows on a day, in terms of the raw daily columns. */
module DerivedFeatures {
  import opened Prelude
  import opened PublicationLags

  // ----- every assignment holds in the final frame

  predicate AssignedFrom(c: string, k: nat) {
    exists l: nat :: k <= l < |STEPS| && STEPS[l].0 == c
  }

  /** A column that is not assigned any more stays as it is. */
  lemma {:induction false} DeriveKeeps(m: Columns, n: nat, k: nat, c: string)
    requires k <= |STEPS| && !AssignedFrom(c, k)
    ensures c in Derive(m, n, k) <==> c in m
    ensures c in m ==> Derive(m, n, k)[c] == m[c]
    decreases |STEPS| - k
  {
    if k < |STEPS| {
      assert STEPS[k].0 != c;
      assert !AssignedFrom(c, k + 1);
      hide AssignedFrom, CellOf;
      DeriveKeeps(Put(m, n, STEPS[k].0, STEPS[k].1), n, k + 1, c);
    }
  }

  /** No name is assigned twice, and no input is assigned after its use. */
  lemma AssignedOnce(l: nat)
    requires l < |STEPS|
    ensures !AssignedFrom(STEPS[l].0, l + 1)
    ensures forall c :: c in Inputs(STEPS[l].1) ==> !AssignedFrom(c, l)
    ensures forall c :: c in Inputs(STEPS[l].1) && c !in RAW_INPUTS ==> exists k: nat :: k < l && STEPS[k].0 == c
  {
    assert STEPS[0].0 == "rate_diff" && STEPS[7].0 == "ca_jp_10y_spread";
  }

  /** The raw columns and the first k derived ones are there. */
  ghost predicate Ready(m: Columns, k: nat)
    requires k <= |STEPS|
  {
    RAW_INPUTS <= m.Keys && forall l: nat :: l < k ==> STEPS[l].0 in m
  }

  ghost predicate Holds(m: Columns, n: nat, name: string, f: Formula) {
    && name in m && Inputs(f) <= m.Keys && |m[name]| == n
    && forall j: nat :: j < n ==> m[name][j] == CellOf(m, f, j)
  }

  lemma InputsReady(m: Columns, k: nat)
    requires k < |STEPS| && Ready(m, k)
    ensures Inputs(STEPS[k].1) <= m.Keys
    ensures k + 1 <= |STEPS| && forall n :: Ready(Put(m, n, STEPS[k].0, STEPS[k].1), k + 1)
  {
    AssignedOnce(k);
    hide STEPS, CellOf, RAW_INPUTS;
  }

  lemma SameInputs(m: Columns, m': Columns, f: Formula, j: nat)
    requires Inputs(f) <= m.Keys && Inputs(f) <= m'.Keys && forall c :: c in Inputs(f) ==> m[c] == m'[c]
    ensures CellOf(m, f, j) == CellOf(m', f, j)
  {
    hide Minus, Over, WindowSum;
  }

  lemma InputsStay(m: Columns, n: nat, k: nat, c: string)
    requires k < |STEPS| && Ready(m, k) && c in Inputs(STEPS[k].1)
    ensures c in m && c in Derive(m, n, k) && Derive(m, n, k)[c] == m[c]
  {
    hide Derive, STEPS, Ready;
    InputsReady(m, k);
    AssignedOnce(k);
    DeriveKeeps(m, n, k, c);
  }

  lemma NewColumn(m: Columns, n: nat, k: nat)
    requires k < |STEPS| && Ready(m, k)
    ensures var last := Derive(m, n, k);
      && Inputs(STEPS[k].1) <= m.Keys && STEPS[k].0 in last
      && last[STEPS[k].0] == Put(m, n, STEPS[k].0, STEPS[k].1)[STEPS[k].0]
  {
    var (name, f) := STEPS[k];
    InputsReady(m, k);
    AssignedOnce(k);
    var m1 := Put(m, n, name, f);
    assert Derive(m, n, k) == Derive(m1, n, k + 1);
    hide Derive, STEPS, Ready, CellOf, Inputs, AssignedFrom;
    DeriveKeeps(m1, n, k + 1, name);
  }

  /** An assignment holds in the frame it is made in, and in the final one. */
  lemma AssignmentHolds(m: Columns, n: nat, k: nat)
    requires k < |STEPS| && Ready(m, k)
    ensures Holds(Derive(m, n, k), n, STEPS[k].0, STEPS[k].1)
  {
    hide Derive, STEPS, Ready, CellOf, Inputs;
    var (name, f) := STEPS[k];
    var last := Derive(m, n, k);
    NewColumn(m, n, k);
    forall c | c in Inputs(f)
      ensures c in last && last[c] == m[c]
    {
      InputsStay(m, n, k, c);
    }
    forall j: nat | j < n
      ensures last[name][j] == CellOf(last, f, j)
    {
      SameInputs(m, last, f, j);
    }
  }

  lemma {:induction false} AllHold(m: Columns, n: nat, k: nat, l: nat)
    requires k <= l < |STEPS| && Ready(m, k)
    ensures Holds(Derive(m, n, k), n, STEPS[l].0, STEPS[l].1)
    decreases l - k
  {
    if k == l {
      AssignmentHolds(m, n, k);
    } else {
      InputsReady(m, k);
      hide Put, Holds, STEPS, Ready;
      AllHold(Put(m, n, STEPS[k].0, STEPS[k].1), n, k + 1, l);
    }
  }

  // ----- the raw columns by day

  /** What a raw column shows on day j, nothing outside the calendar. */
  function RawOn(frame: Frame, c: string, j: int): Option<real>
    requires frame.Valid() && c in frame.columns
  {
    if 0 <= j < Days(frame.dates) then Daily(frame.dates, frame.columns[c], LagOf(PUBLICATION_LAGS_RAW, c))[j]
    else None
  }

  /** The difference of two values, if both are there. */
  function Gap(x: Option<real>, y: Option<real>): Option<real> {
    if x.Some? && y.Some? then Some(x.value - y.value) else None
  }

  /** The relative change from y to x, if both are there. From 0 it is infinite, and missing from 0 to 0. */
  function Growth(x: Option<real>, y: Option<real>): Cell {
    if x.None? || y.None? then None
    else if y.value != 0.0 then Some(Val((x.value - y.value) / y.value))
    else if x.value == 0.0 then None
    else Some(Inf(x.value > 0.0))
  }

  function Total(xs: seq<real>): real {
    if xs == [] then 0.0 else Total(xs[..|xs| - 1]) + xs[|xs| - 1]
  }

  /** The k days up to j all have a value. */
  ghost predicate AllThere(frame: Frame, c: string, j: int, k: nat)
    requires frame.Valid() && c in frame.columns
  {
    forall i: int :: j - k < i <= j ==> RawOn(frame, c, i).Some?
  }

  /** The values of the last |xs| days up to j, latest last. */
  ghost predicate IsWindow(frame: Frame, c: string, j: int, xs: seq<real>)
    requires frame.Valid() && c in frame.columns
  {
    forall i: int :: j - |xs| < i <= j ==> RawOn(frame, c, i) == Some(xs[i - j + |xs| - 1])
  }

  /** The cell is the mean of the values of the k days up to j, and missing unless all of them are there. */
  ghost predicate IsMean(frame: Frame, c: string, j: nat, k: nat, cell: Cell)
    requires frame.Valid() && c in frame.columns && k > 0
  {
    && (cell.Some? <==> AllThere(frame, c, j, k))
    && (cell.Some? ==>
          exists xs :: |xs| == k && IsWindow(frame, c, j, xs) && cell.value == Val(Total(xs) / k as real))
  }

  lemma RawColumn(frame: Frame, c: string, j: int)
    requires frame.Valid() && RAW_INPUTS <= frame.columns.Keys && c in RAW_INPUTS
    ensures c in MacroFeatures(frame) && At(MacroFeatures(frame)[c], j) == ToCell(RawOn(frame, c, j))
  {
    RawNotAssigned(c);
    var m := DailyFrame(frame);
    assert c in m && m[c] == DailyCells(frame, c);
    hide Derive, Daily, Days;
    DeriveKeeps(m, Days(frame.dates), 0, c);
  }

  lemma RawNotAssigned(c: string)
    requires c in RAW_INPUTS
    ensures !AssignedFrom(c, 0)
  {
  }

  lemma GapIs(x: Option<real>, y: Option<real>)
    ensures Minus(ToCell(x), ToCell(y)) == ToCell(Gap(x, y))
  {
  }

  lemma GrowthIs(x: Option<real>, y: Option<real>)
    ensures Minus(Over(ToCell(x), ToCell(y)), Some(Val(1.0))) == Growth(x, y)
  {
    if x.Some? && y.Some? && y.value != 0.0 {
      LessOne(x.value, y.value);
    }
  }

  lemma LessOne(x: real, y: real)
    requires y != 0.0
    ensures (x - y) / y == x / y - 1.0
  {
    var p := x / y;
    assert p * y == x;
    QuotientIs(x - y, y, p - 1.0);
  }

  lemma QuotientIs(y: real, e: real, q: real)
    requires e != 0.0 && y == q * e
    ensures y / e == q
  {
    var z := y / e;
    assert (z - q) * e == 0.0;
  }

  lemma OneMore(frame: Frame, c: string, j: int, rest: seq<real>, x: real)
    requires frame.Valid() && c in frame.columns
    requires IsWindow(frame, c, j - 1, rest) && RawOn(frame, c, j) == Some(x)
    ensures IsWindow(frame, c, j, rest + [x]) && Total(rest + [x]) == Total(rest) + x
  {
    hide RawOn;
    assert (rest + [x])[..|rest|] == rest;
  }

  lemma {:induction false} WindowIs(frame: Frame, c: string, a: seq<Cell>, j: int, k: nat)
    returns (xs: seq<real>)
    requires frame.Valid() && c in frame.columns && forall i: int :: At(a, i) == ToCell(RawOn(frame, c, i))
    ensures WindowSum(a, j, k).Some? <==> AllThere(frame, c, j, k)
    ensures WindowSum(a, j, k).Some? ==> |xs| == k && IsWindow(frame, c, j, xs) && WindowSum(a, j, k).value == Total(xs)
    decreases k
  {
    xs := [];
    if k > 0 {
      hide RawOn, At, IsWindow, Total;
      var rest := WindowIs(frame, c, a, j - 1, k - 1);
      assert AllThere(frame, c, j, k) <==> AllThere(frame, c, j - 1, k - 1) && RawOn(frame, c, j).Some?;
      if WindowSum(a, j, k).Some? {
        xs := rest + [RawOn(frame, c, j).value];
        OneMore(frame, c, j, rest, RawOn(frame, c, j).value);
      }
    }
  }

  // ----- the features

  lemma FeatureHolds(frame: Frame, l: nat)
    requires frame.Valid() && RAW_INPUTS <= frame.columns.Keys && l < |STEPS|
    ensures Holds(MacroFeatures(frame), Days(frame.dates), STEPS[l].0, STEPS[l].1)
  {
    hide Derive, Holds, STEPS, Days;
    AllHold(DailyFrame(frame), Days(frame.dates), 0, l);
  }

  /** A derived column that is a difference of raw ones. */
  lemma DifferenceOn(frame: Frame, l: nat, j: nat, left: string, right: string)
    requires frame.Valid() && RAW_INPUTS <= frame.columns.Keys && l < |STEPS| && j < Days(frame.dates)
    requires STEPS[l].1 == Difference(left, right) && left in RAW_INPUTS && right in RAW_INPUTS
    ensures var m, name := MacroFeatures(frame), STEPS[l].0;
      name in m && j < |m[name]| && m[name][j] == ToCell(Gap(RawOn(frame, left, j), RawOn(frame, right, j)))
  {
    hide MacroFeatures, STEPS, RawOn, ToCell, Gap, Minus, RAW_INPUTS, Days, At;
    FeatureHolds(frame, l);
    RawColumn(frame, left, j);
    RawColumn(frame, right, j);
    GapIs(RawOn(frame, left, j), RawOn(frame, right, j));
  }

  /** A derived column that is the change of a raw one. */
  lemma DeltaOn(frame: Frame, l: nat, j: nat, c: string, k: nat)
    requires frame.Valid() && RAW_INPUTS <= frame.columns.Keys && l < |STEPS| && j < Days(frame.dates)
    requires STEPS[l].1 == Delta(c, k) && c in RAW_INPUTS
    ensures var m, name := MacroFeatures(frame), STEPS[l].0;
      name in m && j < |m[name]| && m[name][j] == ToCell(Gap(RawOn(frame, c, j), RawOn(frame, c, j - k)))
  {
    hide MacroFeatures, STEPS, RawOn, ToCell, Gap, Minus, RAW_INPUTS, Days, At;
    FeatureHolds(frame, l);
    RawColumn(frame, c, j);
    RawColumn(frame, c, j - k);
    GapIs(RawOn(frame, c, j), RawOn(frame, c, j - k));
  }

  lemma GrowthOn(frame: Frame, l: nat, j: nat, c: string, k: nat)
    requires frame.Valid() && RAW_INPUTS <= frame.columns.Keys && l < |STEPS| && j < Days(frame.dates)
    requires STEPS[l].1 == PctChange(c, k) && c in RAW_INPUTS
    ensures var m, name := MacroFeatures(frame), STEPS[l].0;
      name in m && j < |m[name]| && m[name][j] == Growth(RawOn(frame, c, j), RawOn(frame, c, j - k))
  {
    hide MacroFeatures, STEPS, RawOn, ToCell, Growth, Minus, Over, RAW_INPUTS, Days, At;
    FeatureHolds(frame, l);
    RawColumn(frame, c, j);
    RawColumn(frame, c, j - k);
    GrowthIs(RawOn(frame, c, j), RawOn(frame, c, j - k));
  }

  lemma MeanOn(frame: Frame, l: nat, j: nat, c: string, k: nat)
    requires frame.Valid() && RAW_INPUTS <= frame.columns.Keys && l < |STEPS| && j < Days(frame.dates) && k > 0
    requires STEPS[l].1 == RollingMean(c, k) && c in RAW_INPUTS
    ensures var m, name := MacroFeatures(frame), STEPS[l].0;
      name in m && j < |m[name]| && IsMean(frame, c, j, k, m[name][j])
  {
    hide MacroFeatures, STEPS, RawOn, ToCell, RAW_INPUTS, Days, At, WindowSum, IsWindow, AllThere, Total;
    FeatureHolds(frame, l);
    forall i: int
      ensures c in MacroFeatures(frame) && At(MacroFeatures(frame)[c], i) == ToCell(RawOn(frame, c, i))
    {
      RawColumn(frame, c, i);
    }
    var xs := WindowIs(frame, c, MacroFeatures(frame)[c], j, k);
  }

  /** The change of a derived difference of two raw columns. */
  lemma DeltaOfDifferenceOn(frame: Frame, l: nat, from: nat, j: nat, left: string, right: string, k: nat)
    requires frame.Valid() && RAW_INPUTS <= frame.columns.Keys && l < |STEPS| && from < |STEPS| && j < Days(frame.dates)
    requires STEPS[from].1 == Difference(left, right) && left in RAW_INPUTS && right in RAW_INPUTS
    requires STEPS[l].1 == Delta(STEPS[from].0, k)
    ensures var m, name := MacroFeatures(frame), STEPS[l].0;
      && name in m && j < |m[name]|
      && m[name][j] == ToCell(Gap(Gap(RawOn(frame, left, j), RawOn(frame, right, j)),
                                  Gap(RawOn(frame, left, j - k), RawOn(frame, right, j - k))))
  {
    hide MacroFeatures, STEPS, ToCell, Gap, Minus, RAW_INPUTS, Daily, LagOf, Days;
    FeatureHolds(frame, l);
    FeatureHolds(frame, from);
    DifferenceOn(frame, from, j, left, right);
    if j >= k {
      DifferenceOn(frame, from, j - k, left, right);
    } else {
      NothingBefore(RawOn(frame, left, j - k), RawOn(frame, right, j - k));
    }
    GapIs(Gap(RawOn(frame, left, j), RawOn(frame, right, j)),
          Gap(RawOn(frame, left, j - k), RawOn(frame, right, j - k)));
  }

  lemma NothingBefore(x: Option<real>, y: Option<real>)
    requires x.None? && y.None?
    ensures ToCell(Gap(x, y)) == None
  {
  }

  /** A cell of the derived frame, for columns and days that are there. */
  ghost predicate Shows(frame: Frame, name: string, j: nat, cell: Cell)
    requires frame.Valid()
  {
    name in MacroFeatures(frame) && j < |MacroFeatures(frame)[name]| && MacroFeatures(frame)[name][j] == cell
  }

  /** What every derived feature shows on day j: differences of raw columns on that day, changes over 5, 21
      or 63 days of raw columns and of two of the differences, two relative changes and one mean. */
  lemma FeaturesOn(frame: Frame, j: nat)
    requires frame.Valid() && RAW_INPUTS <= frame.columns.Keys && j < Days(frame.dates)
    ensures var raw := (c: string, i: int) requires c in RAW_INPUTS => RawOn(frame, c, i);
      && Shows(frame, "rate_diff", j, ToCell(Gap(raw("fed_funds", j), raw("ecb_rate", j))))
      && Shows(frame, "us_jp_10y_spread", j, ToCell(Gap(raw("us_10y", j), raw("jp_10y", j))))
      && Shows(frame, "ca_jp_10y_spread", j, ToCell(Gap(raw("ca_10y", j), raw("jp_10y", j))))
      && Shows(frame, "yield_slope", j, ToCell(Gap(raw("us_10y", j), raw("us_2y", j))))
      && Shows(frame, "2y_yield_delta_63", j, ToCell(Gap(raw("us_2y", j), raw("us_2y", j - 63))))
      && Shows(frame, "vix_delta_5", j, ToCell(Gap(raw("vix", j), raw("vix", j - 5))))
      && Shows(frame, "real_yield_delta_63", j, ToCell(Gap(raw("real_yield_10y", j), raw("real_yield_10y", j - 63))))
      && Shows(frame, "breakeven_delta_63", j, ToCell(Gap(raw("breakeven_10y", j), raw("breakeven_10y", j - 63))))
      && Shows(frame, "fed_funds_delta_3m", j, ToCell(Gap(raw("fed_funds", j), raw("fed_funds", j - 63))))
      && Shows(frame, "dxy_mom_63", j, Growth(raw("dxy", j), raw("dxy", j - 63)))
      && Shows(frame, "dxy_mom_21", j, Growth(raw("dxy", j), raw("dxy", j - 21)))
      && Shows(frame, "rate_diff_delta_3m", j,
               ToCell(Gap(Gap(raw("fed_funds", j), raw("ecb_rate", j)),
                          Gap(raw("fed_funds", j - 63), raw("ecb_rate", j - 63)))))
      && Shows(frame, "ca_jp_spread_mom_21", j,
               ToCell(Gap(Gap(raw("ca_10y", j), raw("jp_10y", j)), Gap(raw("ca_10y", j - 21), raw("jp_10y", j - 21)))))
      && Shows(frame, "ca_jp_spread_mom_5", j,
               ToCell(Gap(Gap(raw("ca_10y", j), raw("jp_10y", j)), Gap(raw("ca_10y", j - 5), raw("jp_10y", j - 5)))))
      && exists mean :: Shows(frame, "vix_ma21", j, mean) && IsMean(frame, "vix", j, 21, mean)
  {
    hide MacroFeatures, RawOn, ToCell, Gap, Growth, Days, IsMean;
    DifferenceOn(frame, 0, j, "fed_funds", "ecb_rate");
    DifferenceOn(frame, 6, j, "us_10y", "jp_10y");
    DifferenceOn(frame, 7, j, "ca_10y", "jp_10y");
    DifferenceOn(frame, 13, j, "us_10y", "us_2y");
    DeltaOn(frame, 1, j, "us_2y", 63);
    DeltaOn(frame, 5, j, "vix", 5);
    DeltaOn(frame, 10, j, "real_yield_10y", 63);
    DeltaOn(frame, 11, j, "breakeven_10y", 63);
    DeltaOn(frame, 14, j, "fed_funds", 63);
    GrowthOn(frame, 2, j, "dxy", 63);
    GrowthOn(frame, 3, j, "dxy", 21);
    MeanOn(frame, 4, j, "vix", 21);
    DeltaOfDifferenceOn(frame, 12, 0, j, "fed_funds", "ecb_rate", 63);
    DeltaOfDifferenceOn(frame, 8, 7, j, "ca_10y", "jp_10y", 21);
    DeltaOfDifferenceOn(frame, 9, 7, j, "ca_10y", "jp_10y", 5);
    assert Shows(frame, "vix_ma21", j, MacroFeatures(frame)["vix_ma21"][j]);
  }

  // ----- what the raw columns show, and the features once more lagged

  /** The rows by which a raw input is held back. */
  function RowsHeldBack(c: string): nat {
    if c in {"jp_10y", "ca_10y"} then 30 else if c in {"ecb_rate", "vix", "dxy"} then 0 else 1
  }

  /** On day j a raw input shows its most recent value at or before the row so many rows before the latest
      one of that day. */
  lemma RawOnIs(frame: Frame, c: string, j: nat)
    requires frame.Valid() && c in frame.columns && c in RAW_INPUTS && j < Days(frame.dates)
    ensures RawOn(frame, c, j)
         == LastSeen(frame.columns[c], RowsUpTo(frame.dates, frame.dates[0] + j) - 1 - RowsHeldBack(c))
  {
    assert LagOf(PUBLICATION_LAGS_RAW, c) == RowsHeldBack(c);
    hide Daily, RowsUpTo, LastSeen, Days, LagOf;
    DailyRowOf(frame, c, RowsHeldBack(c), j);
  }

  /** The days by which a derived feature is held back in the end. */
  function DaysHeldBack(c: string): nat {
    if c in {"rate_diff", "2y_yield_delta_63", "real_yield_delta_63", "breakeven_delta_63"} then 1
    else if c in {"us_jp_10y_spread", "ca_jp_10y_spread", "ca_jp_spread_mom_21", "ca_jp_spread_mom_5"} then 30
    else 0
  }

  lemma HeldBackIs(c: string)
    ensures LagOf(DERIVED_FEATURE_LAGS, c) == DaysHeldBack(c)
    ensures c in RATIOS ==> DaysHeldBack(c) == 0
  {
  }

  lemma SteadyLagged(col: Column<Value>, lag: nat, t: nat)
    requires t < |col| && (lag > 0 ==> Steady(col))
    ensures Lagged(col, lag)[t] == if t < lag then None else col[t - lag]
  {
    if lag > 0 {
      LaggedAt(col, lag, t);
      hide Lagged, LastSeen, HoleAt, Steady;
      LastSeenHere(col, t - lag);
      if t >= lag {
        SteadyHasNoHole(col, 0, t - lag);
        assert !HoleAt(col, t - lag);
      }
    }
  }

  /** Row t of the final frame is day 90 + t of the derived one, held back by the feature's own lag: the
      second lagging fills nothing in. */
  lemma FinalFeatureOn(frame: Frame, c: string, t: nat)
    requires frame.Valid() && frame.dates[|frame.dates| - 1] - frame.dates[0] >= 90 + t && c in MacroFeatures(frame)
    ensures LaggedFeatures(frame).Some? && c in LaggedFeatures(frame).value
    ensures var m, days := MacroFeatures(frame), frame.dates[|frame.dates| - 1] - frame.dates[0] + 1;
      && |m[c]| == days && |LaggedFeatures(frame).value[c]| == days - 90
      && LaggedFeatures(frame).value[c][t] == if t < DaysHeldBack(c) then None else m[c][90 + t - DaysHeldBack(c)]
  {
    FeaturesSteady(frame);
    var days := frame.dates[|frame.dates| - 1] - frame.dates[0] + 1;
    assert Days(frame.dates) == days;
    hide MacroFeatures, AllSteady, Days;
    FinalColumn(MacroFeatures(frame), days, c, t);
  }

  lemma FinalColumn(m: Columns, n: nat, c: string, t: nat)
    requires AllSteady(m) && AllOfLength(m, n) && n > 90 + t && c in m
    ensures CanLag(DropWarmup(m), DERIVED_FEATURE_LAGS)
    ensures var last := LaggedColumns(DropWarmup(m), DERIVED_FEATURE_LAGS);
      && c in last && |last[c]| == n - 90
      && last[c][t] == if t < DaysHeldBack(c) then None else m[c][90 + t - DaysHeldBack(c)]
  {
    HeldBackIs(c);
    hide Steady, Lagged, LagOf, DaysHeldBack, DERIVED_FEATURE_LAGS;
    var col := m[c][90..];
    assert DropWarmup(m)[c] == col;
    if c !in RATIOS {
      DropSteady(m[c]);
    }
    hide RATIOS, AllSteady;
    SteadyLagged(col, DaysHeldBack(c), t);
  }
}
