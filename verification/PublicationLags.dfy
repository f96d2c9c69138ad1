/** Publication lags and the macro features derived from the lagged series: what is visible on a day,
    and that nothing later can change it. A cell of None is a missing value; a date is a day number. */
module PublicationLags {
  import opened Prelude

  type Column<T> = seq<Option<T>>

  /** A frame with one row per observation date, in date order. */
  datatype Frame = Frame(dates: seq<int>, columns: map<string, Column<real>>) {
    ghost predicate Valid() {
      && dates != []
      && (forall i, j :: 0 <= i < j < |dates| ==> dates[i] < dates[j])
      && (forall c :: c in columns ==> |columns[c]| == |dates|)
    }
  }

  const PUBLICATION_LAGS_RAW: map<string, int> := map[
    "us_2y" := 1, "us_10y" := 1, "breakeven_10y" := 1, "real_yield_10y" := 1, "fed_funds" := 1,
    "ecb_rate" := 0, "vix" := 0, "dxy" := 0, "baa_spread" := 1,
    "jp_10y" := 30, "de_10y" := 30, "gb_10y" := 30, "ca_10y" := 30, "au_10y" := 30]

  const DERIVED_FEATURE_LAGS: map<string, int> := map[
    "rate_diff" := 1, "2y_yield_delta_63" := 1, "vix_ma21" := 0, "vix_delta_5" := 0,
    "dxy_mom_21" := 0, "dxy_mom_63" := 0, "real_yield_delta_63" := 1, "breakeven_delta_63" := 1,
    "us_jp_10y_spread" := 30, "ca_jp_10y_spread" := 30, "ca_jp_spread_mom_21" := 30, "ca_jp_spread_mom_5" := 30]

  function LagOf(lags: map<string, int>, name: string): int {
    if name in lags then lags[name] else 0
  }

  /** The rows moved k places down. */
  function Shift<T>(col: Column<T>, k: nat): (r: Column<T>)
    ensures |r| == |col| && forall t :: 0 <= t < |col| ==> r[t] == if t < k then None else col[t - k]
  {
    seq(|col|, t requires 0 <= t < |col| => if t < k then None else col[t - k])
  }

  /** The most recent value at or before row t. */
  function LastSeen<T>(col: Column<T>, t: int): Option<T>
    requires t < |col|
    decreases t
  {
    if t < 0 then None else if col[t].Some? then col[t] else LastSeen(col, t - 1)
  }

  function ForwardFill<T>(col: Column<T>): (r: Column<T>)
    ensures |r| == |col| && forall t :: 0 <= t < |col| ==> r[t] == LastSeen(col, t)
  {
    seq(|col|, t requires 0 <= t < |col| => LastSeen(col, t))
  }

  function Lagged<T>(col: Column<T>, lag: int): (r: Column<T>)
    requires lag > 0 ==> col != []
    ensures |r| == |col|
  {
    if lag <= 0 then col
    else if col[|col| - 1].Some? then ForwardFill(Shift(col, lag))
    else Shift(col, lag)
  }

  /** The last value of a column that is to be lagged is looked at first. */
  predicate CanLag<T>(columns: map<string, Column<T>>, lags: map<string, int>) {
    forall c :: c in columns && LagOf(lags, c) > 0 ==> columns[c] != []
  }

  function LaggedColumns<T>(columns: map<string, Column<T>>, lags: map<string, int>): map<string, Column<T>>
    requires CanLag(columns, lags)
  {
    map c | c in columns :: Lagged(columns[c], LagOf(lags, c))
  }

  /** The columns of a copied frame are overwritten one after another. An empty column that is to be
      lagged is an error. */
  method LagColumns<T>(given: map<string, Column<T>>, lags: map<string, int>)
    returns (result: Option<map<string, Column<T>>>)
    ensures result == if CanLag(given, lags) then Some(LaggedColumns(given, lags)) else None
  {
    var columns := given;
    var todo := columns.Keys;
    while todo != {}
      invariant todo <= columns.Keys == given.Keys
      invariant forall c :: c in columns && c !in todo && LagOf(lags, c) > 0 ==> given[c] != []
      invariant forall c :: c in columns ==>
        columns[c] == if c in todo then given[c] else Lagged(given[c], LagOf(lags, c))
      decreases todo
    {
      var c :| c in todo;
      var lag := LagOf(lags, c);
      if lag > 0 {
        if columns[c] == [] {
          return None;
        }
        var originalLast := columns[c][|columns[c]| - 1];
        var column := Shift(columns[c], lag);
        if originalLast.Some? {
          column := ForwardFill(column);
        }
        columns := columns[c := column];
      }
      todo := todo - {c};
    }
    assert CanLag(given, lags);
    assert columns == LaggedColumns(given, lags);
    result := Some(columns);
  }

  /** No table, or an empty one, means the default one. */
  function Resolved(lags: Option<map<string, int>>): map<string, int> {
    if lags.Some? && lags.value != map[] then lags.value else PUBLICATION_LAGS_RAW
  }

  method ApplyPublicationLags(frame: Frame, lags: Option<map<string, int>>) returns (result: Frame)
    requires frame.Valid()
    ensures CanLag(frame.columns, Resolved(lags))
    ensures result == Frame(frame.dates, LaggedColumns(frame.columns, Resolved(lags))) && result.Valid()
  {
    var columns := LagColumns(frame.columns, Resolved(lags));
    result := Frame(frame.dates, columns.value);
  }

  // ----- what a lagged column holds

  lemma {:induction false} LastSeenShift<T>(col: Column<T>, k: nat, t: int)
    requires t < |col|
    ensures LastSeen(Shift(col, k), t) == LastSeen(col, t - k)
    decreases t
  {
    if t >= 0 {
      LastSeenShift(col, k, t - 1);
    }
  }

  lemma {:induction false} LastSeenFilled<T>(col: Column<T>, t: int)
    requires t < |col|
    ensures LastSeen(ForwardFill(col), t) == LastSeen(col, t)
    decreases t
  {
    if t >= 0 {
      LastSeenFilled(col, t - 1);
    }
  }

  /** A column whose last raw value is present becomes, at row t, the most recent raw value at or before
      row t - lag. */
  lemma LaggedRow<T>(col: Column<T>, lag: int, t: nat)
    requires lag > 0 && t < |col| && col[|col| - 1].Some?
    ensures Lagged(col, lag)[t] == LastSeen(col, t - lag)
  {
    LastSeenShift(col, lag, t);
  }

  /** Whether or not it was filled, the most recent value of a lagged column at row t is the most
      recent raw value at or before row t - lag. */
  lemma LastSeenLagged<T>(col: Column<T>, lag: int, t: int)
    requires lag >= 0 && col != [] && t < |col|
    ensures LastSeen(Lagged(col, lag), t) == LastSeen(col, t - lag)
  {
    if lag > 0 {
      LastSeenShift(col, lag, t);
      LastSeenFilled(Shift(col, lag), t);
    }
  }

  /** Two columns, of possibly different lengths, have the same rows up to t. */
  ghost predicate AgreeUpTo<T>(a: seq<T>, b: seq<T>, t: int) {
    t < |a| && t < |b| && forall i :: 0 <= i <= t ==> a[i] == b[i]
  }

  lemma {:induction false} LastSeenAgrees<T>(a: Column<T>, b: Column<T>, t: int)
    requires AgreeUpTo(a, b, t)
    ensures LastSeen(a, t) == LastSeen(b, t)
    decreases t
  {
    if t >= 0 {
      LastSeenAgrees(a, b, t - 1);
    }
  }

  /** A missing value that filling would replace. */
  predicate HoleAt<T>(col: Column<T>, i: nat)
    requires i < |col|
  {
    col[i].None? && LastSeen(col, i).Some?
  }

  /** The lag makes a hole visible by row t. */
  ghost predicate HasHole<T>(col: Column<T>, lag: nat, t: nat)
    requires t < |col|
  {
    exists i: nat :: i + lag <= t && HoleAt(col, i)
  }

  lemma LaggedAt<T>(col: Column<T>, lag: nat, s: nat)
    requires lag > 0 && s < |col|
    ensures Lagged(col, lag)[s]
         == if col[|col| - 1].Some? then LastSeen(col, s - lag) else if s < lag then None else col[s - lag]
  {
    LastSeenShift(col, lag, s);
  }

  /** Lagging alone can look ahead, through the test of the last raw value: for two columns with the
      same rows up to t, the lagged rows up to t are the same exactly when the last values are both
      present or both missing, or there is no hole to fill. */
  lemma LaggedAgreesIff<T>(a: Column<T>, b: Column<T>, lag: nat, t: nat)
    requires lag > 0 && AgreeUpTo(a, b, t)
    ensures AgreeUpTo(Lagged(a, lag), Lagged(b, lag), t)
       <==> (a[|a| - 1].Some? <==> b[|b| - 1].Some?) || !HasHole(a, lag, t)
  {
    hide Lagged, LastSeen, HoleAt;
    forall s: nat | s <= t
      ensures s < lag ==> Lagged(a, lag)[s] == Lagged(b, lag)[s]
      ensures s >= lag ==>
        (Lagged(a, lag)[s] == Lagged(b, lag)[s] <==> (a[|a| - 1].Some? <==> b[|b| - 1].Some?) || !HoleAt(a, s - lag))
    {
      LaggedAt(a, lag, s);
      LaggedAt(b, lag, s);
      LastSeenAgrees(a, b, s - lag);
      LastSeenHere(a, s - lag);
    }
    if HasHole(a, lag, t) {
      var i: nat :| i + lag <= t && HoleAt(a, i);
      assert Lagged(a, lag)[i + lag] == Lagged(b, lag)[i + lag] <==> (a[|a| - 1].Some? <==> b[|b| - 1].Some?);
    }
  }

  /** Two columns with the same first three rows, one of which ends with a missing value: lagged by one
      row, they differ in the third. */
  lemma LastValueIsSeenEarly()
    ensures var a, b := [Some(1.0), None, Some(2.0), Some(3.0)], [Some(1.0), None, Some(2.0), None];
      && AgreeUpTo(a, b, 2)
      && Lagged(a, 1)[2] == Some(1.0) && Lagged(b, 1)[2] == None
  {
    var a, b := [Some(1.0), None, Some(2.0), Some(3.0)], [Some(1.0), None, Some(2.0), None];
    LaggedAt(a, 1, 2);
    LaggedAt(b, 1, 2);
    assert LastSeen(a, 1) == LastSeen(a, 0);
  }

  lemma LastSeenHere<T>(col: Column<T>, i: int)
    requires i < |col|
    ensures i < 0 ==> LastSeen(col, i) == None
    ensures i >= 0 && col[i].Some? ==> LastSeen(col, i) == col[i]
    ensures i >= 0 ==> (HoleAt(col, i) <==> LastSeen(col, i) != col[i])
  {
  }

  // ----- daily columns

  /** The number of rows dated d or earlier. */
  function RowsUpTo(dates: seq<int>, d: int): (r: nat)
    ensures r <= |dates|
  {
    if dates == [] then 0
    else if dates[|dates| - 1] <= d then |dates|
    else RowsUpTo(dates[..|dates| - 1], d)
  }

  lemma {:induction false} RowsUpToIs(dates: seq<int>, d: int)
    requires forall i, j :: 0 <= i < j < |dates| ==> dates[i] < dates[j]
    ensures var r := RowsUpTo(dates, d);
      && (forall i :: 0 <= i < r ==> dates[i] <= d)
      && (forall i :: r <= i < |dates| ==> dates[i] > d)
  {
    if dates != [] && dates[|dates| - 1] > d {
      RowsUpToIs(dates[..|dates| - 1], d);
    }
  }

  lemma {:induction false} RowsUpToUnique(dates: seq<int>, d: int, r: nat)
    requires r <= |dates|
    requires forall i :: 0 <= i < r ==> dates[i] <= d
    requires forall i :: r <= i < |dates| ==> dates[i] > d
    ensures RowsUpTo(dates, d) == r
  {
    if dates != [] && dates[|dates| - 1] > d {
      RowsUpToUnique(dates[..|dates| - 1], d, r);
    }
  }

  lemma {:induction false} RowsUpToBound(dates: seq<int>, d: int, t: nat)
    requires t < |dates| && d <= dates[t]
    requires forall i, j :: 0 <= i < j < |dates| ==> dates[i] < dates[j]
    ensures RowsUpTo(dates, d) <= t + 1
  {
    if t + 1 < |dates| {
      RowsUpToBound(dates[..|dates| - 1], d, t);
    }
  }

  /** The cell of day d when the column is put on a daily calendar: a day without a row is missing. */
  function CellOn(dates: seq<int>, col: Column<real>, d: int): Option<real>
    requires |col| == |dates|
  {
    var r := RowsUpTo(dates, d);
    if r > 0 && dates[r - 1] == d then col[r - 1] else None
  }

  function Days(dates: seq<int>): nat
    requires dates != []
  {
    if dates[0] <= dates[|dates| - 1] then dates[|dates| - 1] - dates[0] + 1 else 0
  }

  function Reindex(dates: seq<int>, col: Column<real>): (r: Column<real>)
    requires dates != [] && |col| == |dates|
    ensures |r| == Days(dates) && forall j :: 0 <= j < |r| ==> r[j] == CellOn(dates, col, dates[0] + j)
  {
    seq(Days(dates), j requires 0 <= j < Days(dates) => CellOn(dates, col, dates[0] + j))
  }

  /** A raw column after lagging, reindexing to days and filling. */
  function Daily(dates: seq<int>, col: Column<real>, lag: int): (r: Column<real>)
    requires dates != [] && |col| == |dates|
    ensures |r| == Days(dates)
  {
    ForwardFill(Reindex(dates, Lagged(col, lag)))
  }

  lemma {:induction false} FilledReindex(dates: seq<int>, col: Column<real>, j: nat)
    requires dates != [] && |col| == |dates| && j < Days(dates)
    requires forall i, k :: 0 <= i < k < |dates| ==> dates[i] < dates[k]
    ensures LastSeen(Reindex(dates, col), j) == LastSeen(col, RowsUpTo(dates, dates[0] + j) - 1)
  {
    hide RowsUpTo, Reindex;
    var d := dates[0] + j;
    var r := RowsUpTo(dates, d);
    RowsUpToIs(dates, d);
    if j == 0 {
      RowsUpToUnique(dates, d, 1);
      assert Reindex(dates, col)[0] == col[0];
      assert LastSeen(Reindex(dates, col), -1) == None == LastSeen(col, -1);
    } else {
      FilledReindex(dates, col, j - 1);
      if r > 0 && dates[r - 1] == d {
        RowsUpToUnique(dates, d - 1, r - 1);
      } else {
        RowsUpToUnique(dates, d - 1, r);
      }
    }
  }

  /** On day j the column shows the most recent raw value at or before the lag-th row before the latest
      row of that day, whatever the last raw value is. */
  lemma DailyRow(dates: seq<int>, col: Column<real>, lag: int, j: nat)
    requires lag >= 0 && dates != [] && |col| == |dates| && j < Days(dates)
    requires forall i, k :: 0 <= i < k < |dates| ==> dates[i] < dates[k]
    ensures Daily(dates, col, lag)[j] == LastSeen(col, RowsUpTo(dates, dates[0] + j) - 1 - lag)
  {
    FilledReindex(dates, Lagged(col, lag), j);
    LastSeenLagged(col, lag, RowsUpTo(dates, dates[0] + j) - 1);
  }

  lemma {:induction false} LastSeenFrom<T>(col: Column<T>, t: int) returns (s: int)
    requires t < |col| && LastSeen(col, t).Some?
    ensures 0 <= s <= t && col[s] == LastSeen(col, t)
    decreases t
  {
    if col[t].Some? {
      s := t;
    } else {
      s := LastSeenFrom(col, t - 1);
    }
  }

  lemma {:induction false} DatesSpread(dates: seq<int>, i: nat, j: nat)
    requires forall a, b :: 0 <= a < b < |dates| ==> dates[a] < dates[b]
    requires i <= j < |dates|
    ensures dates[j] - dates[i] >= j - i
  {
    if i < j {
      DatesSpread(dates, i, j - 1);
      assert dates[j - 1] < dates[j];
    }
  }

  /** The lag counts rows, but it also holds in calendar days: a value visible on day d was observed on
      or before day d - lag. */
  lemma VisibleValueIsOldEnough(dates: seq<int>, col: Column<real>, lag: int, j: nat) returns (row: int)
    requires lag >= 0 && dates != [] && |col| == |dates| && j < Days(dates)
    requires forall i, k :: 0 <= i < k < |dates| ==> dates[i] < dates[k]
    requires Daily(dates, col, lag)[j].Some?
    ensures 0 <= row < |dates| && col[row] == Daily(dates, col, lag)[j]
    ensures dates[row] <= dates[0] + j - lag
  {
    hide Daily, RowsUpTo, LastSeen, Days;
    var d := dates[0] + j;
    DailyRow(dates, col, lag, j);
    row := LastSeenFrom(col, RowsUpTo(dates, d) - 1 - lag);
    RowsUpToIs(dates, d);
    DatesSpread(dates, row, RowsUpTo(dates, d) - 1);
  }

  // ----- derived features

  /** A value of a derived frame, with the infinities a ratio to zero gives, which are not missing. */
  datatype Value = Val(v: real) | Inf(positive: bool)

  type Cell = Option<Value>

  function ToCell(x: Option<real>): Cell {
    if x.Some? then Some(Val(x.value)) else None
  }

  function Minus(x: Cell, y: Cell): Cell {
    match (x, y)
    case (Some(Val(a)), Some(Val(b))) => Some(Val(a - b))
    case (Some(Inf(p)), Some(Val(_))) => Some(Inf(p))
    case (Some(Val(_)), Some(Inf(q))) => Some(Inf(!q))
    case (Some(Inf(p)), Some(Inf(q))) => if p == q then None else Some(Inf(p))
    case (_, _) => None
  }

  function Over(x: Cell, y: Cell): Cell {
    match (x, y)
    case (Some(Val(a)), Some(Val(b))) =>
      if b != 0.0 then Some(Val(a / b)) else if a == 0.0 then None else Some(Inf(a > 0.0))
    case (Some(Inf(p)), Some(Val(b))) => Some(Inf(p == (b >= 0.0)))
    case (Some(Val(_)), Some(Inf(_))) => Some(Val(0.0))
    case (_, _) => None
  }

  function At(a: seq<Cell>, j: int): Cell {
    if 0 <= j < |a| then a[j] else None
  }

  /** The sum of the k cells up to j, if all of them are numbers. */
  function WindowSum(a: seq<Cell>, j: int, k: nat): Option<real>
    decreases k
  {
    if k == 0 then Some(0.0)
    else
      var rest, last := WindowSum(a, j - 1, k - 1), At(a, j);
      if rest.Some? && last.Some? && last.value.Val? then Some(rest.value + last.value.v) else None
  }

  datatype Formula =
    | Difference(left: string, right: string)
    | Delta(of: string, days: nat)
    | PctChange(of: string, days: nat)
    | RollingMean(of: string, days: nat)

  type Columns = map<string, Column<Value>>

  function Inputs(f: Formula): set<string> {
    match f
    case Difference(l, r) => {l, r}
    case Delta(c, _) => {c}
    case PctChange(c, _) => {c}
    case RollingMean(c, _) => {c}
  }

  function CellOf(m: Columns, f: Formula, j: nat): Cell
    requires Inputs(f) <= m.Keys
  {
    match f
    case Difference(l, r) => Minus(At(m[l], j), At(m[r], j))
    case Delta(c, k) => Minus(At(m[c], j), At(m[c], j - k))
    case PctChange(c, k) => Minus(Over(At(m[c], j), At(m[c], j - k)), Some(Val(1.0)))
    case RollingMean(c, k) =>
      var sum := WindowSum(m[c], j, k);
      if sum.Some? && k > 0 then Some(Val(sum.value / k as real)) else None
  }

  /** Assigns one derived column of n days. The inputs are there whenever the raw ones are. */
  function Put(m: Columns, n: nat, name: string, f: Formula): Columns {
    if Inputs(f) <= m.Keys then m[name := seq(n, j requires 0 <= j < n => CellOf(m, f, j))] else m
  }

  const STEPS: seq<(string, Formula)> := [
    ("rate_diff", Difference("fed_funds", "ecb_rate")),
    ("2y_yield_delta_63", Delta("us_2y", 63)),
    ("dxy_mom_63", PctChange("dxy", 63)),
    ("dxy_mom_21", PctChange("dxy", 21)),
    ("vix_ma21", RollingMean("vix", 21)),
    ("vix_delta_5", Delta("vix", 5)),
    ("us_jp_10y_spread", Difference("us_10y", "jp_10y")),
    ("ca_jp_10y_spread", Difference("ca_10y", "jp_10y")),
    ("ca_jp_spread_mom_21", Delta("ca_jp_10y_spread", 21)),
    ("ca_jp_spread_mom_5", Delta("ca_jp_10y_spread", 5)),
    ("real_yield_delta_63", Delta("real_yield_10y", 63)),
    ("breakeven_delta_63", Delta("breakeven_10y", 63)),
    ("rate_diff_delta_3m", Delta("rate_diff", 63)),
    ("yield_slope", Difference("us_10y", "us_2y")),
    ("fed_funds_delta_3m", Delta("fed_funds", 63))]

  const RAW_INPUTS: set<string> := {"fed_funds", "ecb_rate", "us_2y", "us_10y", "jp_10y", "ca_10y", "dxy", "vix",
                                    "real_yield_10y", "breakeven_10y"}

  /** The columns after the assignments from the k-th on. */
  function Derive(m: Columns, n: nat, k: nat): Columns
    requires k <= |STEPS|
    decreases |STEPS| - k
  {
    if k == |STEPS| then m else Derive(Put(m, n, STEPS[k].0, STEPS[k].1), n, k + 1)
  }

  function DailyCells(frame: Frame, c: string): (r: seq<Cell>)
    requires frame.Valid() && c in frame.columns
    ensures |r| == Days(frame.dates)
  {
    var daily := Daily(frame.dates, frame.columns[c], LagOf(PUBLICATION_LAGS_RAW, c));
    seq(|daily|, j requires 0 <= j < |daily| => ToCell(daily[j]))
  }

  function DailyFrame(frame: Frame): Columns
    requires frame.Valid()
  {
    map c | c in frame.columns :: DailyCells(frame, c)
  }

  /** The derived frame, before the first 90 days are dropped. Row j is day j after the first raw date. */
  function MacroFeatures(frame: Frame): Columns
    requires frame.Valid()
  {
    Derive(DailyFrame(frame), Days(frame.dates), 0)
  }

  const WARMUP_DAYS := 90

  method Assign(m: Columns, n: nat, k: nat, name: string, f: Formula) returns (m': Columns)
    requires k < |STEPS| && STEPS[k] == (name, f)
    ensures Derive(m', n, k + 1) == Derive(m, n, k)
  {
    m' := Put(m, n, name, f);
  }

  function DropWarmup(m: Columns): Columns {
    map c | c in m :: if |m[c]| >= WARMUP_DAYS then m[c][WARMUP_DAYS..] else []
  }

  /** The derived columns are assigned one after another, and the first 90 days dropped. A frame without
      one of the raw columns is an error. */
  method ComputeMacroDerived(frame: Frame) returns (derived: Option<Columns>)
    requires frame.Valid()
    ensures derived == if RAW_INPUTS <= frame.columns.Keys then Some(DropWarmup(MacroFeatures(frame))) else None
  {
    hide Derive, Put, DailyFrame, DropWarmup;
    if !(RAW_INPUTS <= frame.columns.Keys) {
      return None;
    }
    var n := Days(frame.dates);
    var m := DailyFrame(frame);
    m := AssignRatesAndDollar(m, n);
    m := AssignVixAndSpreads(m, n);
    m := AssignMomenta(m, n);
    derived := Some(DropWarmup(m));
  }

  method AssignRatesAndDollar(frame: Columns, n: nat) returns (m: Columns)
    ensures Derive(m, n, 4) == Derive(frame, n, 0)
  {
    hide Derive, Put;
    m := Assign(frame, n, 0, "rate_diff", Difference("fed_funds", "ecb_rate"));
    m := Assign(m, n, 1, "2y_yield_delta_63", Delta("us_2y", 63));
    m := Assign(m, n, 2, "dxy_mom_63", PctChange("dxy", 63));
    m := Assign(m, n, 3, "dxy_mom_21", PctChange("dxy", 21));
  }

  method AssignVixAndSpreads(frame: Columns, n: nat) returns (m: Columns)
    ensures Derive(m, n, 8) == Derive(frame, n, 4)
  {
    hide Derive, Put;
    m := Assign(frame, n, 4, "vix_ma21", RollingMean("vix", 21));
    m := Assign(m, n, 5, "vix_delta_5", Delta("vix", 5));
    m := Assign(m, n, 6, "us_jp_10y_spread", Difference("us_10y", "jp_10y"));
    m := Assign(m, n, 7, "ca_jp_10y_spread", Difference("ca_10y", "jp_10y"));
  }

  method AssignMomenta(frame: Columns, n: nat) returns (m: Columns)
    ensures m == Derive(frame, n, 8)
  {
    hide Derive, Put;
    m := Assign(frame, n, 8, "ca_jp_spread_mom_21", Delta("ca_jp_10y_spread", 21));
    m := Assign(m, n, 9, "ca_jp_spread_mom_5", Delta("ca_jp_10y_spread", 5));
    m := Assign(m, n, 10, "real_yield_delta_63", Delta("real_yield_10y", 63));
    m := Assign(m, n, 11, "breakeven_delta_63", Delta("breakeven_10y", 63));
    m := Assign(m, n, 12, "rate_diff_delta_3m", Delta("rate_diff", 63));
    m := Assign(m, n, 13, "yield_slope", Difference("us_10y", "us_2y"));
    m := Assign(m, n, 14, "fed_funds_delta_3m", Delta("fed_funds", 63));
    NothingLeft(m, n);
  }

  lemma NothingLeft(m: Columns, n: nat)
    ensures Derive(m, n, 15) == m
  {
  }

  // ----- no look-ahead

  /** The raw rows up to row t, dates included, are the same in both runs. */
  ghost predicate SameRowsUpTo(f: Frame, g: Frame, t: nat) {
    && f.Valid() && g.Valid() && f.columns.Keys == g.columns.Keys
    && AgreeUpTo(f.dates, g.dates, t)
    && forall c :: c in f.columns ==> AgreeUpTo(f.columns[c], g.columns[c], t)
  }

  lemma RowsUpToAgrees(f: Frame, g: Frame, t: nat, d: int)
    requires SameRowsUpTo(f, g, t) && d <= f.dates[t]
    ensures RowsUpTo(f.dates, d) == RowsUpTo(g.dates, d) <= t + 1
  {
    var r := RowsUpTo(f.dates, d);
    RowsUpToBound(f.dates, d, t);
    RowsUpToIs(f.dates, d);
    forall i | r <= i < |g.dates|
      ensures g.dates[i] > d
    {
      if i > t {
        assert g.dates[t] < g.dates[i];
      } else {
        assert f.dates[i] > d;
      }
    }
    RowsUpToUnique(g.dates, d, r);
  }

  lemma DayInRange(f: Frame, t: nat, j: nat)
    requires f.Valid() && t < |f.dates| && j <= f.dates[t] - f.dates[0]
    ensures j < Days(f.dates)
  {
    assert f.dates[t] <= f.dates[|f.dates| - 1];
  }

  lemma AgreeLess<T>(a: seq<T>, b: seq<T>, t: int, s: int)
    requires AgreeUpTo(a, b, t) && s <= t
    ensures AgreeUpTo(a, b, s)
  {
  }

  lemma SameRowSeen(f: Frame, g: Frame, t: nat, c: string, lag: nat, d: int)
    requires SameRowsUpTo(f, g, t) && c in f.columns && d <= f.dates[t]
    ensures c in g.columns && |f.columns[c]| == |f.dates| && |g.columns[c]| == |g.dates|
    ensures RowsUpTo(f.dates, d) - 1 - lag < |f.columns[c]| && RowsUpTo(g.dates, d) - 1 - lag < |g.columns[c]|
    ensures LastSeen(f.columns[c], RowsUpTo(f.dates, d) - 1 - lag)
         == LastSeen(g.columns[c], RowsUpTo(g.dates, d) - 1 - lag)
  {
    hide LastSeen, RowsUpTo;
    RowsUpToAgrees(f, g, t, d);
    var s := RowsUpTo(f.dates, d) - 1 - lag;
    AgreeLess(f.columns[c], g.columns[c], t, s);
    hide *;
    LastSeenAgrees(f.columns[c], g.columns[c], s);
  }

  lemma SameStart(f: Frame, g: Frame, t: nat, c: string, j: nat)
    requires SameRowsUpTo(f, g, t) && c in f.columns && j <= f.dates[t] - f.dates[0]
    ensures j < Days(f.dates) && j < Days(g.dates) && f.dates[0] == g.dates[0] && f.dates[0] + j <= f.dates[t]
    ensures f.Valid() && g.Valid() && c in g.columns
  {
    hide Days;
    DayInRange(f, t, j);
    DayInRange(g, t, j);
  }

  lemma ColumnAgrees(f: Frame, g: Frame, t: nat, c: string, lag: nat, j: nat)
    requires SameRowsUpTo(f, g, t) && c in f.columns && j <= f.dates[t] - f.dates[0]
    ensures j < Days(f.dates) && j < Days(g.dates)
    ensures Daily(f.dates, f.columns[c], lag)[j] == Daily(g.dates, g.columns[c], lag)[j]
  {
    hide Daily, RowsUpTo, LastSeen, Days, AgreeUpTo;
    SameStart(f, g, t, c, j);
    SameRowSeen(f, g, t, c, lag, f.dates[0] + j);
    DailyRowOf(f, c, lag, j);
    DailyRowOf(g, c, lag, j);
  }

  lemma DailyRowOf(f: Frame, c: string, lag: nat, j: nat)
    requires f.Valid() && c in f.columns && j < Days(f.dates)
    ensures Daily(f.dates, f.columns[c], lag)[j] == LastSeen(f.columns[c], RowsUpTo(f.dates, f.dates[0] + j) - 1 - lag)
  {
    hide Daily, RowsUpTo, LastSeen, Days;
    DailyRow(f.dates, f.columns[c], lag, j);
  }

  lemma LagsNonNegative(c: string)
    ensures LagOf(PUBLICATION_LAGS_RAW, c) >= 0
  {
  }

  /** Two derived frames have the same columns, with the same cells up to day j. */
  ghost predicate SameDaysUpTo(m: Columns, m': Columns, j: int) {
    m.Keys == m'.Keys && forall c :: c in m ==> AgreeUpTo(m[c], m'[c], j)
  }

  lemma CellsAgree(f: Frame, g: Frame, t: nat, c: string, i: nat)
    requires SameRowsUpTo(f, g, t) && c in f.columns && i <= f.dates[t] - f.dates[0]
    ensures i < Days(f.dates) && i < Days(g.dates)
    ensures DailyCells(f, c)[i] == DailyCells(g, c)[i]
  {
    hide Daily, LagOf, Days, SameRowsUpTo;
    LagsNonNegative(c);
    ColumnAgrees(f, g, t, c, LagOf(PUBLICATION_LAGS_RAW, c), i);
  }

  lemma DailyFramesAgree(f: Frame, g: Frame, t: nat)
    requires SameRowsUpTo(f, g, t)
    ensures SameDaysUpTo(DailyFrame(f), DailyFrame(g), f.dates[t] - f.dates[0])
  {
    hide DailyCells, Days;
    var j := f.dates[t] - f.dates[0];
    DayInRange(f, t, j);
    DayInRange(g, t, j);
    forall c | c in f.columns
      ensures AgreeUpTo(DailyFrame(f)[c], DailyFrame(g)[c], j)
    {
      forall i | 0 <= i <= j
        ensures i < Days(f.dates) && i < Days(g.dates) && DailyCells(f, c)[i] == DailyCells(g, c)[i]
      {
        CellsAgree(f, g, t, c, i);
      }
    }
  }

  lemma {:induction false} WindowSumAgrees(a: seq<Cell>, b: seq<Cell>, t: int, j: int, k: nat)
    requires AgreeUpTo(a, b, t) && j <= t
    ensures WindowSum(a, j, k) == WindowSum(b, j, k)
    decreases k
  {
    if k > 0 {
      WindowSumAgrees(a, b, t, j - 1, k - 1);
    }
  }

  lemma CellAgrees(m: Columns, m': Columns, f: Formula, t: int, j: nat)
    requires SameDaysUpTo(m, m', t) && j <= t && Inputs(f) <= m.Keys
    ensures CellOf(m, f, j) == CellOf(m', f, j)
  {
    hide WindowSum, Minus, Over;
    if f.RollingMean? {
      WindowSumAgrees(m[f.of], m'[f.of], t, j, f.days);
    }
  }

  lemma PutAgrees(m: Columns, m': Columns, n: nat, n': nat, name: string, f: Formula, t: int)
    requires SameDaysUpTo(m, m', t) && t < n && t < n'
    ensures SameDaysUpTo(Put(m, n, name, f), Put(m', n', name, f), t)
  {
    if Inputs(f) <= m.Keys {
      forall j: nat | j <= t
        ensures CellOf(m, f, j) == CellOf(m', f, j)
      {
        CellAgrees(m, m', f, t, j);
      }
    }
  }

  lemma {:induction false} DeriveAgrees(m: Columns, m': Columns, n: nat, n': nat, k: nat, t: int)
    requires SameDaysUpTo(m, m', t) && t < n && t < n' && k <= |STEPS|
    ensures SameDaysUpTo(Derive(m, n, k), Derive(m', n', k), t)
    decreases |STEPS| - k
  {
    if k < |STEPS| {
      hide Put, SameDaysUpTo;
      PutAgrees(m, m', n, n', STEPS[k].0, STEPS[k].1, t);
      DeriveAgrees(Put(m, n, STEPS[k].0, STEPS[k].1), Put(m', n', STEPS[k].0, STEPS[k].1), n, n', k + 1, t);
    }
  }

  /** No look-ahead: two raw frames with the same rows up to row t, and anything after it, different
      dates and lengths included, have the same derived rows up to the date of row t. */
  lemma NoLookAhead(f: Frame, g: Frame, t: nat)
    requires SameRowsUpTo(f, g, t)
    ensures SameDaysUpTo(MacroFeatures(f), MacroFeatures(g), f.dates[t] - f.dates[0])
  {
    var j := f.dates[t] - f.dates[0];
    DailyFramesAgree(f, g, t);
    DayInRange(f, t, j);
    DayInRange(g, t, j);
    hide DailyFrame, Derive, SameDaysUpTo;
    DeriveAgrees(DailyFrame(f), DailyFrame(g), Days(f.dates), Days(g.dates), 0, j);
  }

  // ----- the derived features lagged once more

  /** A column of numbers that is never missing again once it is there. */
  ghost predicate Steady(col: Column<Value>) {
    && (forall i :: 0 <= i < |col| && col[i].Some? ==> col[i].value.Val?)
    && (forall i, j :: 0 <= i < j < |col| && col[i].Some? ==> col[j].Some?)
  }

  const RATIOS: set<string> := {"dxy_mom_63", "dxy_mom_21", "vix_ma21"}

  ghost predicate AllSteady(m: Columns) {
    forall c :: c in m && c !in RATIOS ==> Steady(m[c])
  }

  lemma {:induction false} SeenStays<T>(col: Column<T>, i: int, j: int)
    requires i <= j < |col| && LastSeen(col, i).Some?
    ensures LastSeen(col, j).Some?
    decreases j
  {
    if i < j {
      SeenStays(col, i, j - 1);
    }
  }

  lemma FilledIsSteady(frame: Frame, c: string)
    requires frame.Valid() && c in frame.columns
    ensures Steady(DailyCells(frame, c))
  {
    var raw := Reindex(frame.dates, Lagged(frame.columns[c], LagOf(PUBLICATION_LAGS_RAW, c)));
    var daily := Daily(frame.dates, frame.columns[c], LagOf(PUBLICATION_LAGS_RAW, c));
    assert daily == ForwardFill(raw);
    hide Reindex, Lagged, Daily, LagOf;
    forall i, j | 0 <= i < j < |daily| && daily[i].Some?
      ensures daily[j].Some?
    {
      SeenStays(raw, i, j);
    }
  }

  /** Every assignment but those of the ratios is a difference of columns that are not ratios. */
  lemma StepIsDifference(k: nat)
    requires k < |STEPS| && STEPS[k].0 !in RATIOS
    ensures STEPS[k].1.Difference? || STEPS[k].1.Delta?
    ensures forall c :: c in Inputs(STEPS[k].1) ==> c !in RATIOS
  {
  }

  lemma AtStays(col: Column<Value>, i: int, j: int)
    requires Steady(col) && i <= j < |col| && At(col, i).Some?
    ensures At(col, j).Some? && At(col, j).value.Val?
  {
  }

  lemma DifferenceStays(m: Columns, f: Formula, n: nat, i: nat, j: nat)
    requires f.Difference? || f.Delta?
    requires Inputs(f) <= m.Keys && forall c :: c in Inputs(f) ==> Steady(m[c]) && |m[c]| == n
    requires i <= j < n && CellOf(m, f, i).Some?
    ensures CellOf(m, f, j).Some? && CellOf(m, f, j).value.Val?
  {
    hide Steady, At;
    match f
    case Difference(l, r) =>
      AtStays(m[l], i, j);
      AtStays(m[r], i, j);
    case Delta(c, k) =>
      AtStays(m[c], i, j);
      AtStays(m[c], i - k, j - k);
  }

  ghost predicate AllOfLength(m: Columns, n: nat) {
    forall c :: c in m ==> |m[c]| == n
  }

  lemma PutSteady(m: Columns, n: nat, k: nat)
    requires AllSteady(m) && AllOfLength(m, n) && k < |STEPS|
    ensures AllSteady(Put(m, n, STEPS[k].0, STEPS[k].1)) && AllOfLength(Put(m, n, STEPS[k].0, STEPS[k].1), n)
  {
    var (name, f) := STEPS[k];
    if Inputs(f) <= m.Keys && name !in RATIOS {
      StepIsDifference(k);
      hide CellOf, Inputs, STEPS;
      var col := Put(m, n, name, f)[name];
      forall i: nat, j: nat | i <= j < n && CellOf(m, f, i).Some?
        ensures CellOf(m, f, j).Some? && CellOf(m, f, j).value.Val?
      {
        DifferenceStays(m, f, n, i, j);
      }
      assert Steady(col);
    }
  }

  lemma {:induction false} DeriveSteady(m: Columns, n: nat, k: nat)
    requires AllSteady(m) && AllOfLength(m, n) && k <= |STEPS|
    ensures AllSteady(Derive(m, n, k)) && AllOfLength(Derive(m, n, k), n)
    decreases |STEPS| - k
  {
    if k < |STEPS| {
      hide Put, AllSteady, AllOfLength;
      PutSteady(m, n, k);
      DeriveSteady(Put(m, n, STEPS[k].0, STEPS[k].1), n, k + 1);
    }
  }

  lemma FeaturesSteady(frame: Frame)
    requires frame.Valid()
    ensures AllSteady(MacroFeatures(frame)) && AllOfLength(MacroFeatures(frame), Days(frame.dates))
  {
    forall c | c in frame.columns
      ensures Steady(DailyCells(frame, c))
    {
      FilledIsSteady(frame, c);
    }
    hide DailyCells, Derive, Days;
    DeriveSteady(DailyFrame(frame), Days(frame.dates), 0);
  }

  lemma SteadyHasNoHole(col: Column<Value>, lag: nat, t: nat)
    requires Steady(col) && t < |col|
    ensures !HasHole(col, lag, t)
  {
    forall i: nat | i + lag <= t
      ensures !HoleAt(col, i)
    {
      if LastSeen(col, i).Some? {
        var s := LastSeenFrom(col, i);
      }
    }
  }

  lemma LaggedSteadyAgrees(a: Column<Value>, b: Column<Value>, lag: int, t: nat)
    requires AgreeUpTo(a, b, t) && (lag > 0 ==> Steady(a))
    ensures AgreeUpTo(Lagged(a, lag), Lagged(b, lag), t)
  {
    if lag > 0 {
      SteadyHasNoHole(a, lag, t);
      hide Lagged, HasHole, Steady;
      LaggedAgreesIff(a, b, lag, t);
    }
  }

  lemma RatiosAreNotLagged(c: string)
    requires c in RATIOS
    ensures LagOf(DERIVED_FEATURE_LAGS, c) == 0
  {
  }

  /** What is built from the raw frame: the derived frame without its first days, its derived columns
      lagged. */
  function LaggedFeatures(frame: Frame): Option<Columns>
    requires frame.Valid()
  {
    var derived := DropWarmup(MacroFeatures(frame));
    if CanLag(derived, DERIVED_FEATURE_LAGS) then Some(LaggedColumns(derived, DERIVED_FEATURE_LAGS)) else None
  }

  method ApplyLagToMacroDerived(frame: Frame) returns (features: Option<Columns>)
    requires frame.Valid()
    ensures features == if RAW_INPUTS <= frame.columns.Keys then LaggedFeatures(frame) else None
  {
    hide MacroFeatures, DropWarmup;
    var derived := ComputeMacroDerived(frame);
    if derived.None? {
      return None;
    }
    features := LagColumns(derived.value, DERIVED_FEATURE_LAGS);
  }

  lemma DropAgrees(a: Column<Value>, b: Column<Value>, j: int)
    requires AgreeUpTo(a, b, j) && j >= WARMUP_DAYS
    ensures |a| >= WARMUP_DAYS && |b| >= WARMUP_DAYS
    ensures AgreeUpTo(a[WARMUP_DAYS..], b[WARMUP_DAYS..], j - WARMUP_DAYS)
  {
  }

  lemma DropSteady(a: Column<Value>)
    requires Steady(a) && |a| >= WARMUP_DAYS
    ensures Steady(a[WARMUP_DAYS..])
  {
  }

  lemma ColumnDropped(f: Frame, g: Frame, t: nat, c: string)
    requires SameRowsUpTo(f, g, t) && f.dates[t] - f.dates[0] >= WARMUP_DAYS && c in MacroFeatures(f)
    ensures c in MacroFeatures(g)
    ensures var a, b, j := MacroFeatures(f)[c], MacroFeatures(g)[c], f.dates[t] - f.dates[0];
      && AgreeUpTo(a, b, j) && (c !in RATIOS ==> Steady(a))
  {
    NoLookAhead(f, g, t);
    FeaturesSteady(f);
    hide MacroFeatures, Steady, AgreeUpTo, AllOfLength, SameRowsUpTo;
  }

  lemma DroppedLaggedAgrees(a: Column<Value>, b: Column<Value>, c: string, j: int)
    requires AgreeUpTo(a, b, j) && j >= WARMUP_DAYS && (c !in RATIOS ==> Steady(a))
    ensures |a| > WARMUP_DAYS && |b| > WARMUP_DAYS
    ensures var lag := LagOf(DERIVED_FEATURE_LAGS, c);
      AgreeUpTo(Lagged(a[WARMUP_DAYS..], lag), Lagged(b[WARMUP_DAYS..], lag), j - WARMUP_DAYS)
  {
    hide Steady, Lagged, LagOf, DERIVED_FEATURE_LAGS;
    DropAgrees(a, b, j);
    if c in RATIOS {
      RatiosAreNotLagged(c);
    } else {
      DropSteady(a);
    }
    LaggedSteadyAgrees(a[WARMUP_DAYS..], b[WARMUP_DAYS..], LagOf(DERIVED_FEATURE_LAGS, c), j - WARMUP_DAYS);
  }

  lemma DroppedFramesAgree(m: Columns, m': Columns, j: int)
    requires m.Keys == m'.Keys && j >= WARMUP_DAYS
    requires forall c :: c in m ==> AgreeUpTo(m[c], m'[c], j) && (c !in RATIOS ==> Steady(m[c]))
    ensures CanLag(DropWarmup(m), DERIVED_FEATURE_LAGS) && CanLag(DropWarmup(m'), DERIVED_FEATURE_LAGS)
    ensures SameDaysUpTo(LaggedColumns(DropWarmup(m), DERIVED_FEATURE_LAGS),
                         LaggedColumns(DropWarmup(m'), DERIVED_FEATURE_LAGS), j - WARMUP_DAYS)
  {
    hide Steady, Lagged, LagOf, AgreeUpTo;
    forall c | c in m
      ensures |m[c]| > WARMUP_DAYS && |m'[c]| > WARMUP_DAYS
      ensures var lag := LagOf(DERIVED_FEATURE_LAGS, c);
        AgreeUpTo(Lagged(m[c][WARMUP_DAYS..], lag), Lagged(m'[c][WARMUP_DAYS..], lag), j - WARMUP_DAYS)
    {
      DroppedLaggedAgrees(m[c], m'[c], c, j);
    }
  }

  /** No look-ahead through to the end: the lagged features of two raw frames with the same rows up to row
      t are the same up to the date of row t, from the first day that is kept. */
  lemma NoLookAheadLagged(f: Frame, g: Frame, t: nat)
    requires SameRowsUpTo(f, g, t) && f.dates[t] - f.dates[0] >= WARMUP_DAYS
    ensures LaggedFeatures(f).Some? && LaggedFeatures(g).Some?
    ensures SameDaysUpTo(LaggedFeatures(f).value, LaggedFeatures(g).value, f.dates[t] - f.dates[0] - WARMUP_DAYS)
  {
    NoLookAhead(f, g, t);
    hide MacroFeatures, DropWarmup, LaggedColumns, CanLag, Steady, AgreeUpTo;
    forall c | c in MacroFeatures(f)
      ensures AgreeUpTo(MacroFeatures(f)[c], MacroFeatures(g)[c], f.dates[t] - f.dates[0])
      ensures c !in RATIOS ==> Steady(MacroFeatures(f)[c])
    {
      ColumnDropped(f, g, t, c);
    }
    DroppedFramesAgree(MacroFeatures(f), MacroFeatures(g), f.dates[t] - f.dates[0]);
    hide SameDaysUpTo;
  }
}
