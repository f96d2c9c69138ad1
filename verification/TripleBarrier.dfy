/** Triple-barrier labels: the vectorised, the loop and the trend-adjusted form, each proved against
    one first-touch specification. A volatility of None is not a number. */
module TripleBarrier {
  import opened Prelude

  /** Profit and stop multiples of one row. */
  datatype Multiples = Multiples(tp: real, sl: real)

  function Upper(price: real, vol: real, m: Multiples): real {
    price * (1.0 + vol * m.tp)
  }

  function Lower(price: real, vol: real, m: Multiples): real {
    price * (1.0 - vol * m.sl)
  }

  // ----- the first-touch specification

  /** Some price reaches the upper barrier while none up to it has reached the lower. */
  ghost predicate UpperFirst(future: seq<real>, upper: real, lower: real) {
    exists k :: 0 <= k < |future| && future[k] >= upper && forall j :: 0 <= j <= k ==> future[j] > lower
  }

  ghost predicate LowerFirst(future: seq<real>, upper: real, lower: real) {
    exists k :: 0 <= k < |future| && future[k] <= lower && forall j :: 0 <= j <= k ==> future[j] < upper
  }

  ghost function TouchLabel(future: seq<real>, upper: real, lower: real): int {
    if UpperFirst(future, upper, lower) then 1 else if LowerFirst(future, upper, lower) then -1 else 0
  }

  /** The label of row i. The last `vertical` rows have no full lookahead window, and no price reaches
      a barrier that is not a number. */
  ghost function FirstTouch(close: seq<real>, vol: seq<Option<real>>, m: Multiples, vertical: nat, i: nat): int
    requires |vol| == |close| && i < |close|
  {
    if i + vertical >= |close| || vol[i].None? then 0
    else TouchLabel(close[i + 1..i + 1 + vertical], Upper(close[i], vol[i].value, m), Lower(close[i], vol[i].value, m))
  }

  lemma NotBothFirst(future: seq<real>, upper: real, lower: real)
    ensures !(UpperFirst(future, upper, lower) && LowerFirst(future, upper, lower))
  {
  }

  // ----- first hits, as the array library finds them

  /** The position of the first true, or 0 if there is none. */
  function ArgMax(flags: seq<bool>): (k: nat)
    requires flags != []
    ensures k < |flags|
    ensures true in flags ==> flags[k] && forall j :: 0 <= j < k ==> !flags[j]
  {
    if flags[0] || |flags| == 1 then 0
    else
      assert flags == [flags[0]] + flags[1..];
      var k := ArgMax(flags[1..]);
      if flags[1..][k] then k + 1 else 0
  }

  function AtLeast(future: seq<real>, barrier: Option<real>): (flags: seq<bool>)
    ensures |flags| == |future|
    ensures forall k :: 0 <= k < |flags| ==> (flags[k] <==> barrier.Some? && future[k] >= barrier.value)
  {
    seq(|future|, k requires 0 <= k < |future| => barrier.Some? && future[k] >= barrier.value)
  }

  function AtMost(future: seq<real>, barrier: Option<real>): (flags: seq<bool>)
    ensures |flags| == |future|
    ensures forall k :: 0 <= k < |flags| ==> (flags[k] <==> barrier.Some? && future[k] <= barrier.value)
  {
    seq(|future|, k requires 0 <= k < |future| => barrier.Some? && future[k] <= barrier.value)
  }

  /** ArgMax with the no-hit rows replaced by the sentinel. */
  function FirstHit(flags: seq<bool>): (k: nat)
    requires flags != []
    ensures k <= |flags| && (k < |flags| ==> flags[k]) && forall j :: 0 <= j < k ==> !flags[j]
  {
    if true in flags then ArgMax(flags)
    else
      assert forall j :: 0 <= j < |flags| ==> flags[j] in flags;
      |flags|
  }

  /** Comparing first hits decides the first touch. */
  lemma HitsDecideLabel(future: seq<real>, upper: real, lower: real)
    requires future != []
    ensures var up, down := FirstHit(AtLeast(future, Some(upper))), FirstHit(AtMost(future, Some(lower)));
      TouchLabel(future, upper, lower) == EarlierHit(up, down)
  {
    var up, down := FirstHit(AtLeast(future, Some(upper))), FirstHit(AtMost(future, Some(lower)));
    hide FirstHit, AtLeast, AtMost;
    NotBothFirst(future, upper, lower);
    if up < down {
      assert future[up] >= upper && forall j :: 0 <= j <= up ==> future[j] > lower;
    } else if down < up {
      assert future[down] <= lower && forall j :: 0 <= j <= down ==> future[j] < upper;
    }
  }

  // ----- the vectorised form, with one pair of multiples per row

  function UpperAt(close: seq<real>, vol: seq<Option<real>>, multiples: seq<Multiples>, i: nat): Option<real>
    requires |vol| == |multiples| == |close| && i < |close|
  {
    if vol[i].None? then None else Some(Upper(close[i], vol[i].value, multiples[i]))
  }

  function LowerAt(close: seq<real>, vol: seq<Option<real>>, multiples: seq<Multiples>, i: nat): Option<real>
    requires |vol| == |multiples| == |close| && i < |close|
  {
    if vol[i].None? then None else Some(Lower(close[i], vol[i].value, multiples[i]))
  }

  function UpperHit(close: seq<real>, vol: seq<Option<real>>, multiples: seq<Multiples>, vertical: nat, i: nat): nat
    requires |vol| == |multiples| == |close| && vertical >= 1 && i + vertical < |close|
  {
    FirstHit(AtLeast(close[i + 1..i + 1 + vertical], UpperAt(close, vol, multiples, i)))
  }

  function LowerHit(close: seq<real>, vol: seq<Option<real>>, multiples: seq<Multiples>, vertical: nat, i: nat): nat
    requires |vol| == |multiples| == |close| && vertical >= 1 && i + vertical < |close|
  {
    FirstHit(AtMost(close[i + 1..i + 1 + vertical], LowerAt(close, vol, multiples, i)))
  }

  /** The first hit of one row: the first true, then the sentinel where there is none. */
  method HitOrSentinel(flags: seq<bool>) returns (hit: nat)
    requires flags != []
    ensures hit == FirstHit(flags)
  {
    hit := ArgMax(flags);
    if true !in flags {
      hit := |flags|;
    }
  }

  method UpperHits(close: seq<real>, vol: seq<Option<real>>, multiples: seq<Multiples>, vertical: nat)
    returns (hits: array<nat>)
    requires |vol| == |multiples| == |close| && 1 <= vertical < |close|
    ensures fresh(hits) && hits.Length == |close| - vertical
    ensures forall k :: 0 <= k < hits.Length ==> hits[k] == UpperHit(close, vol, multiples, vertical, k)
  {
    hide FirstHit, AtLeast, UpperAt;
    hits := new nat[|close| - vertical];
    for i := 0 to hits.Length
      invariant forall k :: 0 <= k < i ==> hits[k] == UpperHit(close, vol, multiples, vertical, k)
    {
      hits[i] := HitOrSentinel(AtLeast(close[i + 1..i + 1 + vertical], UpperAt(close, vol, multiples, i)));
    }
  }

  method LowerHits(close: seq<real>, vol: seq<Option<real>>, multiples: seq<Multiples>, vertical: nat)
    returns (hits: array<nat>)
    requires |vol| == |multiples| == |close| && 1 <= vertical < |close|
    ensures fresh(hits) && hits.Length == |close| - vertical
    ensures forall k :: 0 <= k < hits.Length ==> hits[k] == LowerHit(close, vol, multiples, vertical, k)
  {
    hide FirstHit, AtMost, LowerAt;
    hits := new nat[|close| - vertical];
    for i := 0 to hits.Length
      invariant forall k :: 0 <= k < i ==> hits[k] == LowerHit(close, vol, multiples, vertical, k)
    {
      hits[i] := HitOrSentinel(AtMost(close[i + 1..i + 1 + vertical], LowerAt(close, vol, multiples, i)));
    }
  }

  function EarlierHit(up: nat, down: nat): int {
    if up < down then 1 else if down < up then -1 else 0
  }

  /** The two masked assignments into the labels of the rows with a full window. */
  method MarkEarlier(labels: array<int>, hitUpper: array<nat>, hitLower: array<nat>)
    requires hitUpper.Length == hitLower.Length <= labels.Length
    requires forall k :: 0 <= k < labels.Length ==> labels[k] == 0
    modifies labels
    ensures forall k :: 0 <= k < labels.Length ==>
      labels[k] == if k < hitUpper.Length then EarlierHit(hitUpper[k], hitLower[k]) else 0
  {
    for i := 0 to hitUpper.Length
      invariant forall k :: 0 <= k < i ==> labels[k] == EarlierHit(hitUpper[k], hitLower[k])
      invariant forall k :: i <= k < labels.Length ==> labels[k] == 0
    {
      if hitUpper[i] < hitLower[i] {
        labels[i] := 1;
      }
      if hitLower[i] < hitUpper[i] {
        labels[i] := -1;
      }
    }
  }

  method LabelWindows(close: seq<real>, vol: seq<Option<real>>, multiples: seq<Multiples>, vertical: nat)
    returns (labels: array<int>)
    requires |vol| == |multiples| == |close| && vertical >= 1
    ensures fresh(labels) && labels.Length == |close|
    ensures forall i :: 0 <= i < |close| ==> labels[i] == FirstTouch(close, vol, multiples[i], vertical, i)
  {
    hide EarlierHit, UpperHit, LowerHit, TouchLabel, Upper, Lower;
    var n := |close|;
    labels := new int[n](_ => 0);
    if n <= vertical {
      return;
    }
    var hitUpper := UpperHits(close, vol, multiples, vertical);
    var hitLower := LowerHits(close, vol, multiples, vertical);
    MarkEarlier(labels, hitUpper, hitLower);
    forall i | 0 <= i < n
      ensures labels[i] == FirstTouch(close, vol, multiples[i], vertical, i)
    {
      if i + vertical < n {
        hide FirstTouch;
        RowLabel(close, vol, multiples, vertical, i);
      }
    }
  }

  lemma RowLabel(close: seq<real>, vol: seq<Option<real>>, multiples: seq<Multiples>, vertical: nat, i: nat)
    requires |vol| == |multiples| == |close| && vertical >= 1 && i + vertical < |close|
    ensures var up, down := UpperHit(close, vol, multiples, vertical, i), LowerHit(close, vol, multiples, vertical, i);
      FirstTouch(close, vol, multiples[i], vertical, i) == EarlierHit(up, down)
  {
    var future := close[i + 1..i + 1 + vertical];
    if vol[i].Some? {
      HitsDecideLabel(future, Upper(close[i], vol[i].value, multiples[i]), Lower(close[i], vol[i].value, multiples[i]));
    } else {
      assert true !in AtLeast(future, None) && true !in AtMost(future, None);
    }
  }

  /** The labels of the vectorised form are the first touches. */
  method ApplyTripleBarrier(close: seq<real>, vol: seq<Option<real>>, m: Multiples, vertical: nat)
    returns (labels: array<int>)
    requires |vol| == |close| && vertical >= 1
    ensures fresh(labels) && labels.Length == |close|
    ensures forall i :: 0 <= i < |close| ==> labels[i] == FirstTouch(close, vol, m, vertical, i)
  {
    labels := LabelWindows(close, vol, seq(|close|, _ => m), vertical);
  }

  // ----- the loop form

  predicate StrictlyIncreasing(index: seq<int>) {
    forall i, j :: 0 <= i < j < |index| ==> index[i] < index[j]
  }

  /** What the loop writes into row i, when it runs. */
  ghost function LoopLabel(close: seq<real>, vol: seq<Option<real>>, m: Multiples, vertical: nat, i: nat): int
    requires |vol| == |close| && i < |close|
  {
    if vol[i].Some? && vol[i].value > 0.0 then FirstTouch(close, vol, m, vertical, i) else 0
  }

  /** The first position from `from` on whose price is on the far side of the barrier. */
  method FirstBeyond(close: seq<real>, from: nat, to: nat, barrier: real, above: bool) returns (hit: Option<nat>)
    requires from <= to <= |close|
    ensures IsFirst(close, from, to, barrier, above, hit)
  {
    hit := None;
    for k := from to to
      invariant IsFirst(close, from, k, barrier, above, hit)
    {
      if hit.None? && Beyond(close[k], barrier, above) {
        hit := Some(k);
      }
    }
  }

  predicate Beyond(price: real, barrier: real, above: bool) {
    if above then price >= barrier else price <= barrier
  }

  /** What the loop writes into row i: it compares the index labels of the first hits, which any index
      may have in any order. */
  function IndexLabel(close: seq<real>, vol: seq<Option<real>>, index: seq<int>, m: Multiples, vertical: nat,
                      i: nat): int
    requires |vol| == |index| == |close| && i < |close|
  {
    if vertical == 0 || i + vertical >= |close| || vol[i].None? || vol[i].value <= 0.0 then 0
    else
      var future := close[i + 1..i + 1 + vertical];
      var up := FirstHit(AtLeast(future, Some(Upper(close[i], vol[i].value, m))));
      var down := FirstHit(AtMost(future, Some(Lower(close[i], vol[i].value, m))));
      EarlierByIndex(index[i + 1..i + 1 + vertical], up, down)
  }

  /** The label from the positions of two first hits, the length standing for none, with rows compared by
      their index labels. */
  function EarlierByIndex(index: seq<int>, up: int, down: int): int {
    if 0 <= up < |index| && (!(0 <= down < |index|) || index[up] < index[down]) then 1
    else if 0 <= down < |index| && (!(0 <= up < |index|) || index[down] < index[up]) then -1
    else 0
  }

  /** The row loop. */
  method LoopLabels(close: seq<real>, vol: seq<Option<real>>, index: seq<int>, m: Multiples, vertical: nat,
                    minSamples: int)
    returns (labels: array<int>)
    requires |vol| == |index| == |close|
    ensures fresh(labels) && labels.Length == |close|
    ensures |close| < minSamples ==> forall i :: 0 <= i < |close| ==> labels[i] == 0
    ensures |close| >= minSamples ==>
      forall i :: 0 <= i < |close| ==> labels[i] == IndexLabel(close, vol, index, m, vertical, i)
    ensures |close| >= minSamples && StrictlyIncreasing(index) ==>
      forall i :: 0 <= i < |close| ==> labels[i] == LoopLabel(close, vol, m, vertical, i)
  {
    var n := |close|;
    labels := new int[n](_ => 0);
    if n >= minSamples {
      for i := 0 to if n > vertical then n - vertical else 0
        invariant forall k :: 0 <= k < i ==> labels[k] == IndexLabel(close, vol, index, m, vertical, k)
        invariant forall k :: i <= k < n ==> labels[k] == 0
      {
        hide IndexLabel;
        labels[i] := LoopRow(close, vol, index, m, vertical, i);
      }
      if StrictlyIncreasing(index) {
        forall i | 0 <= i < n
          ensures IndexLabel(close, vol, index, m, vertical, i) == LoopLabel(close, vol, m, vertical, i)
        {
          IncreasingIndex(close, vol, index, m, vertical, i);
        }
      }
    }
  }

  /** The body of the loop: what it writes into row i, 0 being what is there already. */
  method LoopRow(close: seq<real>, vol: seq<Option<real>>, index: seq<int>, m: Multiples, vertical: nat, i: nat)
    returns (written: int)
    requires |vol| == |index| == |close| && i + vertical < |close|
    ensures written == IndexLabel(close, vol, index, m, vertical, i)
  {
    hide Upper, Lower, IndexLabel, IsFirst;
    written := 0;
    if vol[i].Some? && vol[i].value > 0.0 {
      var tp, sl := Upper(close[i], vol[i].value, m), Lower(close[i], vol[i].value, m);
      var hitTp := FirstBeyond(close, i + 1, i + 1 + vertical, tp, true);
      var hitSl := FirstBeyond(close, i + 1, i + 1 + vertical, sl, false);
      RowFromHits(close, vol, index, m, vertical, i, hitTp, hitSl);
      if hitTp.Some? && (hitSl.None? || index[hitTp.value] < index[hitSl.value]) {
        written := 1;
      } else if hitSl.Some? && (hitTp.None? || index[hitSl.value] < index[hitTp.value]) {
        written := -1;
      }
    } else {
      SkippedRow(close, vol, index, m, vertical, i);
    }
  }

  lemma SkippedRow(close: seq<real>, vol: seq<Option<real>>, index: seq<int>, m: Multiples, vertical: nat, i: nat)
    requires |vol| == |index| == |close| && i < |close| && (vol[i].None? || vol[i].value <= 0.0)
    ensures IndexLabel(close, vol, index, m, vertical, i) == 0
  {
  }

  lemma RowFromHits(close: seq<real>, vol: seq<Option<real>>, index: seq<int>, m: Multiples, vertical: nat, i: nat,
                    hitTp: Option<nat>, hitSl: Option<nat>)
    requires |vol| == |index| == |close| && i + vertical < |close| && vol[i].Some? && vol[i].value > 0.0
    requires IsFirst(close, i + 1, i + 1 + vertical, Upper(close[i], vol[i].value, m), true, hitTp)
    requires IsFirst(close, i + 1, i + 1 + vertical, Lower(close[i], vol[i].value, m), false, hitSl)
    ensures hitTp.Some? ==> i + 1 <= hitTp.value <= i + vertical
    ensures hitSl.Some? ==> i + 1 <= hitSl.value <= i + vertical
    ensures IndexLabel(close, vol, index, m, vertical, i)
         == EarlierByIndex(index[i + 1..i + 1 + vertical],
                           PositionOf(hitTp, i + 1, i + 1 + vertical), PositionOf(hitSl, i + 1, i + 1 + vertical))
  {
    hide *;
    FirstInRange(close, i + 1, i + 1 + vertical, Upper(close[i], vol[i].value, m), true, hitTp);
    FirstInRange(close, i + 1, i + 1 + vertical, Lower(close[i], vol[i].value, m), false, hitSl);
    IndexLabelIs(close, vol, index, m, vertical, i);
    if vertical > 0 {
      FirstIsHit(close, i + 1, i + 1 + vertical, Upper(close[i], vol[i].value, m), true, hitTp);
      FirstIsHit(close, i + 1, i + 1 + vertical, Lower(close[i], vol[i].value, m), false, hitSl);
    } else {
      NoRows(index[i + 1..i + 1 + vertical], PositionOf(hitTp, i + 1, i + 1 + vertical),
             PositionOf(hitSl, i + 1, i + 1 + vertical));
    }
  }

  /** The position of a hit in the window, or the window's length. */
  function PositionOf(hit: Option<nat>, from: nat, to: nat): int {
    if hit.Some? then hit.value - from else to - from
  }

  lemma FirstInRange(close: seq<real>, from: nat, to: nat, barrier: real, above: bool, hit: Option<nat>)
    requires from <= to <= |close| && IsFirst(close, from, to, barrier, above, hit)
    ensures hit.Some? ==> from <= hit.value < to
    ensures PositionOf(hit, from, to) >= 0
  {
  }

  lemma IndexLabelIs(close: seq<real>, vol: seq<Option<real>>, index: seq<int>, m: Multiples, vertical: nat, i: nat)
    requires |vol| == |index| == |close| && i + vertical < |close| && vol[i].Some? && vol[i].value > 0.0
    ensures vertical == 0 ==> IndexLabel(close, vol, index, m, vertical, i) == 0
    ensures vertical > 0 ==>
      IndexLabel(close, vol, index, m, vertical, i)
      == EarlierByIndex(index[i + 1..i + 1 + vertical],
                        FirstHit(AtLeast(close[i + 1..i + 1 + vertical], Some(Upper(close[i], vol[i].value, m)))),
                        FirstHit(AtMost(close[i + 1..i + 1 + vertical], Some(Lower(close[i], vol[i].value, m)))))
  {
    hide Upper, Lower, FirstHit, AtLeast, AtMost, EarlierByIndex;
  }

  lemma NoRows(index: seq<int>, up: int, down: int)
    requires index == []
    ensures EarlierByIndex(index, up, down) == 0
  {
  }

  ghost predicate IsFirst(close: seq<real>, from: nat, to: nat, barrier: real, above: bool, hit: Option<nat>)
    requires from <= to <= |close|
  {
    match hit
    case None => forall k :: from <= k < to ==> !Beyond(close[k], barrier, above)
    case Some(h) =>
      && from <= h < to && Beyond(close[h], barrier, above)
      && forall k :: from <= k < h ==> !Beyond(close[k], barrier, above)
  }

  /** The first price beyond a barrier is at the first true of the array form. */
  lemma FirstIsHit(close: seq<real>, from: nat, to: nat, barrier: real, above: bool, hit: Option<nat>)
    requires from < to <= |close| && IsFirst(close, from, to, barrier, above, hit)
    ensures above ==> FirstHit(AtLeast(close[from..to], Some(barrier))) == PositionOf(hit, from, to)
    ensures !above ==> FirstHit(AtMost(close[from..to], Some(barrier))) == PositionOf(hit, from, to)
  {
    var future := close[from..to];
    var flags := if above then AtLeast(future, Some(barrier)) else AtMost(future, Some(barrier));
    assert forall k :: 0 <= k < |future| ==> (flags[k] <==> Beyond(close[from + k], barrier, above));
    hide FirstHit, AtLeast, AtMost;
    var k := FirstHit(flags);
    assert hit.Some? ==> flags[hit.value - from];
    assert hit.None? ==> forall j :: 0 <= j < |flags| ==> !flags[j];
  }

  /** The rows that are not skipped get the first-touch label exactly when the index orders the two first
      hits, if there are two at different rows, as the rows are ordered. */
  lemma IndexLabelIff(close: seq<real>, vol: seq<Option<real>>, index: seq<int>, m: Multiples, vertical: nat, i: nat,
                      up: nat, down: nat)
    requires |vol| == |index| == |close| && vertical >= 1 && i + vertical < |close|
    requires vol[i].Some? && vol[i].value > 0.0
    requires var future := close[i + 1..i + 1 + vertical];
      && up == FirstHit(AtLeast(future, Some(Upper(close[i], vol[i].value, m))))
      && down == FirstHit(AtMost(future, Some(Lower(close[i], vol[i].value, m))))
    ensures IndexLabel(close, vol, index, m, vertical, i) == FirstTouch(close, vol, m, vertical, i)
       <==> (up < down < vertical ==> index[i + 1 + up] < index[i + 1 + down])
            && (down < up < vertical ==> index[i + 1 + down] < index[i + 1 + up])
  {
    hide TouchLabel, FirstHit, Upper, Lower;
    HitsDecideLabel(close[i + 1..i + 1 + vertical], Upper(close[i], vol[i].value, m), Lower(close[i], vol[i].value, m));
  }

  /** An index that inverts the two first hits inverts the label: the upper barrier is reached in the first
      row ahead and the lower in the second, but the index puts the second before the first. */
  lemma InvertedIndexInvertsLabel()
    ensures var close, vol, m := [1.0, 3.0, 0.0], [Some(1.0), None, None], Multiples(1.0, 1.0);
      IndexLabel(close, vol, [0, 2, 1], m, 2, 0) == -1 && FirstTouch(close, vol, m, 2, 0) == 1
  {
    var close, vol, m := [1.0, 3.0, 0.0], [Some(1.0), None, None], Multiples(1.0, 1.0);
    var future := close[1..3];
    var flagsUp, flagsDown := AtLeast(future, Some(2.0)), AtMost(future, Some(0.0));
    assert flagsUp[0] && flagsDown[1];
    var up, down := FirstHit(flagsUp), FirstHit(flagsDown);
    HitsDecideLabel(future, 2.0, 0.0);
  }

  lemma IncreasingIndex(close: seq<real>, vol: seq<Option<real>>, index: seq<int>, m: Multiples, vertical: nat, i: nat)
    requires |vol| == |index| == |close| && StrictlyIncreasing(index) && i < |close|
    ensures IndexLabel(close, vol, index, m, vertical, i) == LoopLabel(close, vol, m, vertical, i)
  {
    if vol[i].Some? && vol[i].value > 0.0 && i + vertical < |close| {
      if vertical == 0 {
        assert close[i + 1..i + 1 + vertical] == [];
      } else {
        var future := close[i + 1..i + 1 + vertical];
        IndexLabelIff(close, vol, index, m, vertical, i,
                      FirstHit(AtLeast(future, Some(Upper(close[i], vol[i].value, m)))),
                      FirstHit(AtMost(future, Some(Lower(close[i], vol[i].value, m)))));
      }
    }
  }

  /** With the barriers on the wrong sides of each other, the next price alone decides: it is beyond one
      of them, and beyond both exactly when it is between them. */
  lemma CrossedBarriersTieIff(future: seq<real>, upper: real, lower: real)
    requires future != [] && upper <= lower
    ensures TouchLabel(future, upper, lower) == 0 <==> upper <= future[0] <= lower
  {
    assert LowerFirst(future, upper, lower) <==> future[0] < upper by {
      if future[0] < upper {
        assert future[0] <= lower && forall j :: 0 <= j <= 0 ==> future[j] < upper;
      }
    }
    assert UpperFirst(future, upper, lower) <==> future[0] > lower by {
      if future[0] > lower {
        assert future[0] >= upper && forall j :: 0 <= j <= 0 ==> future[j] > lower;
      }
    }
  }

  /** The sign of a volatility decides the order of the two barriers. */
  lemma BarriersCross(price: real, vol: real, m: Multiples)
    requires price > 0.0 && vol <= 0.0 && m.tp >= 0.0 && m.sl >= 0.0
    ensures Upper(price, vol, m) <= price <= Lower(price, vol, m)
    ensures vol == 0.0 ==> Upper(price, vol, m) == price == Lower(price, vol, m)
  {
    assert vol * m.tp <= 0.0 && vol * m.sl <= 0.0;
    Scales(price, 1.0 + vol * m.tp, 1.0);
    Scales(price, 1.0, 1.0 - vol * m.sl);
  }

  /** On the same volatilities the loop and the vectorised form give a row the same label exactly when
      its volatility is positive or missing, it has no full lookahead window, or the next close lies
      between its barriers; for a volatility of 0, when the next close equals this one. */
  lemma FormsAgreeIff(close: seq<real>, vol: seq<Option<real>>, m: Multiples, vertical: nat, i: nat)
    requires |vol| == |close| && i < |close| && vertical >= 1
    requires close[i] > 0.0 && m.tp >= 0.0 && m.sl >= 0.0
    ensures LoopLabel(close, vol, m, vertical, i) == FirstTouch(close, vol, m, vertical, i)
       <==> vol[i].None? || vol[i].value > 0.0 || i + vertical >= |close|
            || Upper(close[i], vol[i].value, m) <= close[i + 1] <= Lower(close[i], vol[i].value, m)
    ensures vol[i].Some? && vol[i].value == 0.0 && i + vertical < |close| ==>
      (LoopLabel(close, vol, m, vertical, i) == FirstTouch(close, vol, m, vertical, i) <==> close[i + 1] == close[i])
  {
    if vol[i].Some? && vol[i].value <= 0.0 && i + vertical < |close| {
      hide TouchLabel, Upper, Lower;
      BarriersCross(close[i], vol[i].value, m);
      CrossedBarriersTieIff(close[i + 1..i + 1 + vertical], Upper(close[i], vol[i].value, m),
                            Lower(close[i], vol[i].value, m));
    }
  }

  /** They can differ: with volatility 0 both barriers sit on the current price. */
  lemma ZeroVolatilityDiffers(m: Multiples)
    ensures var close, vol := [1.0, 2.0], [Some(0.0), None];
      FirstTouch(close, vol, m, 1, 0) == 1 && LoopLabel(close, vol, m, 1, 0) == 0
  {
    var close := [1.0, 2.0];
    assert Upper(1.0, 0.0, m) == 1.0 && Lower(1.0, 0.0, m) == 1.0;
    var future := close[1..2];
    assert future[0] >= 1.0 && forall j :: 0 <= j <= 0 ==> future[j] > 1.0;
  }

  // ----- trend adjustment

  datatype Trend = Trend(slope: real, strength: real)

  datatype TrendConfig = TrendConfig(base: Multiples, threshold: real, widen: real, narrow: real)

  predicate Uptrend(cfg: TrendConfig, t: Trend) {
    t.slope > 0.0 && t.strength > cfg.threshold
  }

  predicate Downtrend(cfg: TrendConfig, t: Trend) {
    t.slope < 0.0 && t.strength > cfg.threshold
  }

  function Adjusted(cfg: TrendConfig, t: Trend): Multiples {
    if Uptrend(cfg, t) then Multiples(cfg.base.tp * cfg.narrow, cfg.base.sl * cfg.widen)
    else if Downtrend(cfg, t) then Multiples(cfg.base.tp * cfg.widen, cfg.base.sl * cfg.narrow)
    else cfg.base
  }

  method TrendAdjustedMultiples(cfg: TrendConfig, trends: seq<Trend>) returns (adjusted: array<Multiples>)
    ensures fresh(adjusted) && adjusted.Length == |trends|
    ensures forall i :: 0 <= i < |trends| ==> adjusted[i] == Adjusted(cfg, trends[i])
  {
    adjusted := new Multiples[|trends|](_ => cfg.base);
    for i := 0 to |trends|
      invariant forall k :: 0 <= k < i ==>
        adjusted[k] == if Uptrend(cfg, trends[k]) then Adjusted(cfg, trends[k]) else cfg.base
      invariant forall k :: i <= k < |trends| ==> adjusted[k] == cfg.base
    {
      if trends[i].slope > 0.0 && trends[i].strength > cfg.threshold {
        adjusted[i] := Multiples(cfg.base.tp * cfg.narrow, cfg.base.sl * cfg.widen);
      }
    }
    for i := 0 to |trends|
      invariant forall k :: 0 <= k < i ==> adjusted[k] == Adjusted(cfg, trends[k])
      invariant forall k :: i <= k < |trends| ==>
        adjusted[k] == if Uptrend(cfg, trends[k]) then Adjusted(cfg, trends[k]) else cfg.base
    {
      if trends[i].slope < 0.0 && trends[i].strength > cfg.threshold {
        adjusted[i] := Multiples(cfg.base.tp * cfg.widen, cfg.base.sl * cfg.narrow);
      }
    }
  }

  ghost function TrendLabel(close: seq<real>, vol: seq<Option<real>>, cfg: TrendConfig, trends: seq<Trend>,
                            vertical: nat, i: nat)
    : int
    requires |vol| == |trends| == |close| && i < |close|
  {
    if |close| < vertical + 5 then 0 else FirstTouch(close, vol, Adjusted(cfg, trends[i]), vertical, i)
  }

  method TrendAdjustedLabels(close: seq<real>, vol: seq<Option<real>>, cfg: TrendConfig, trends: seq<Trend>,
                             vertical: nat)
    returns (labels: array<int>)
    requires |vol| == |trends| == |close| && vertical >= 1
    ensures fresh(labels) && labels.Length == |close|
    ensures forall i :: 0 <= i < |close| ==> labels[i] == TrendLabel(close, vol, cfg, trends, vertical, i)
  {
    if |close| < vertical + 5 {
      labels := new int[|close|](_ => 0);
      return;
    }
    var adjusted := TrendAdjustedMultiples(cfg, trends);
    labels := LabelWindows(close, vol, adjusted[..], vertical);
  }

  /** Lowering both barriers can only raise the label. */
  lemma LabelMonotone(future: seq<real>, upper: real, lower: real, upper': real, lower': real)
    requires upper' <= upper && lower' <= lower
    ensures TouchLabel(future, upper, lower) <= TouchLabel(future, upper', lower')
  {
    NotBothFirst(future, upper', lower');
    if UpperFirst(future, upper, lower) {
      var k :| 0 <= k < |future| && future[k] >= upper && forall j :: 0 <= j <= k ==> future[j] > lower;
      assert future[k] >= upper' && forall j :: 0 <= j <= k ==> future[j] > lower';
    } else if LowerFirst(future, upper', lower') {
      var k :| 0 <= k < |future| && future[k] <= lower' && forall j :: 0 <= j <= k ==> future[j] < upper';
      assert future[k] <= lower && forall j :: 0 <= j <= k ==> future[j] < upper;
    }
  }

  lemma BarriersFollow(price: real, vol: real, m: Multiples, m': Multiples)
    requires price > 0.0 && vol >= 0.0 && m'.tp <= m.tp && m'.sl >= m.sl
    ensures Upper(price, vol, m') <= Upper(price, vol, m) && Lower(price, vol, m') <= Lower(price, vol, m)
  {
    Scales(vol, m'.tp, m.tp);
    Scales(vol, m.sl, m'.sl);
    Scales(price, 1.0 + vol * m'.tp, 1.0 + vol * m.tp);
    Scales(price, 1.0 - vol * m'.sl, 1.0 - vol * m.sl);
  }

  lemma Scales(c: real, x: real, y: real)
    requires c >= 0.0 && x <= y
    ensures c * x <= c * y
  {
  }

  /** An uptrend can only raise a row's label, a downtrend only lower it, and without a trend the row
      keeps the label it has without adjustment. */
  lemma TrendMovesLabelItsWay(close: seq<real>, vol: seq<Option<real>>, cfg: TrendConfig, trends: seq<Trend>,
                              vertical: nat, i: nat)
    requires |vol| == |trends| == |close| && i < |close| && |close| >= vertical + 5
    requires close[i] > 0.0 && (vol[i].Some? ==> vol[i].value >= 0.0)
    requires cfg.base.tp >= 0.0 && cfg.base.sl >= 0.0 && cfg.narrow <= 1.0 <= cfg.widen
    ensures var base := FirstTouch(close, vol, cfg.base, vertical, i);
      var moved := TrendLabel(close, vol, cfg, trends, vertical, i);
      if Uptrend(cfg, trends[i]) then base <= moved
      else if Downtrend(cfg, trends[i]) then moved <= base
      else moved == base
  {
    if i + vertical < |close| && vol[i].Some? {
      var future, price, v := close[i + 1..i + 1 + vertical], close[i], vol[i].value;
      var m, m' := cfg.base, Adjusted(cfg, trends[i]);
      AdjustmentMovesMultiples(cfg, trends[i]);
      hide Adjusted, Upper, Lower, TouchLabel;
      if Uptrend(cfg, trends[i]) {
        BarriersFollow(price, v, m, m');
        LabelMonotone(future, Upper(price, v, m), Lower(price, v, m), Upper(price, v, m'), Lower(price, v, m'));
      } else if Downtrend(cfg, trends[i]) {
        BarriersFollow(price, v, m', m);
        LabelMonotone(future, Upper(price, v, m'), Lower(price, v, m'), Upper(price, v, m), Lower(price, v, m));
      }
    }
  }

  lemma AdjustmentMovesMultiples(cfg: TrendConfig, t: Trend)
    requires cfg.base.tp >= 0.0 && cfg.base.sl >= 0.0 && cfg.narrow <= 1.0 <= cfg.widen
    ensures var m, m' := cfg.base, Adjusted(cfg, t);
      if Uptrend(cfg, t) then m'.tp <= m.tp && m'.sl >= m.sl
      else if Downtrend(cfg, t) then m'.tp >= m.tp && m'.sl <= m.sl
      else m' == m
  {
    Shrinks(cfg.base.tp, cfg.narrow);
    Shrinks(cfg.base.sl, cfg.narrow);
    Grows(cfg.base.tp, cfg.widen);
    Grows(cfg.base.sl, cfg.widen);
  }

  lemma Shrinks(c: real, x: real)
    requires c >= 0.0 && x <= 1.0
    ensures c * x <= c
  {
    assert c * (1.0 - x) >= 0.0;
  }

  lemma Grows(c: real, x: real)
    requires c >= 0.0 && x >= 1.0
    ensures c * x >= c
  {
    assert c * (x - 1.0) >= 0.0;
  }

  // ----- labels in terms of returns

  /** The return from row i to the k-th row of its window. */
  function ReturnAhead(close: seq<real>, i: nat, k: nat): real
    requires i + 1 + k < |close| && close[i] > 0.0
  {
    close[i + 1 + k] / close[i] - 1.0
  }

  /** Within the window a return of at least `gain` comes before any return of at most -loss. */
  ghost predicate GainsFirst(close: seq<real>, i: nat, vertical: nat, gain: real, loss: real)
    requires i + vertical < |close| && close[i] > 0.0
  {
    exists k :: 0 <= k < vertical && ReturnAhead(close, i, k) >= gain
                && forall j :: 0 <= j <= k ==> ReturnAhead(close, i, j) > -loss
  }

  ghost predicate LosesFirst(close: seq<real>, i: nat, vertical: nat, gain: real, loss: real)
    requires i + vertical < |close| && close[i] > 0.0
  {
    exists k :: 0 <= k < vertical && ReturnAhead(close, i, k) <= -loss
                && forall j :: 0 <= j <= k ==> ReturnAhead(close, i, j) < gain
  }

  /** A product, named so that proofs can treat it as a whole. */
  function Times(x: real, y: real): real {
    x * y
  }

  lemma PriceIsReturn(p: real, q: real, v: real, tp: real, sl: real)
    requires p > 0.0
    ensures q >= p * (1.0 + v * tp) <==> q / p - 1.0 >= Times(tp, v)
    ensures q <= p * (1.0 - v * sl) <==> q / p - 1.0 <= -Times(sl, v)
  {
    var r := q / p;
    assert r * p == q;
    Compares(p, r, 1.0 + v * tp);
    Compares(p, r, 1.0 - v * sl);
  }

  lemma Compares(p: real, x: real, y: real)
    requires p > 0.0
    ensures x * p >= p * y <==> x >= y
    ensures x * p <= p * y <==> x <= y
  {
    if x >= y {
      Scales(p, y, x);
    }
    if x <= y {
      Scales(p, x, y);
    }
    if x * p == p * y {
      assert (x - y) * p == 0.0;
    }
  }

  lemma TouchInReturns(close: seq<real>, v: real, m: Multiples, vertical: nat, i: nat)
    requires i + vertical < |close| && close[i] > 0.0
    ensures var future, upper, lower := close[i + 1..i + 1 + vertical], Upper(close[i], v, m), Lower(close[i], v, m);
      && (UpperFirst(future, upper, lower) <==> GainsFirst(close, i, vertical, Times(m.tp, v), Times(m.sl, v)))
      && (LowerFirst(future, upper, lower) <==> LosesFirst(close, i, vertical, Times(m.tp, v), Times(m.sl, v)))
  {
    forall k | 0 <= k < vertical
      ensures close[i + 1 + k] >= Upper(close[i], v, m) <==> ReturnAhead(close, i, k) >= Times(m.tp, v)
      ensures close[i + 1 + k] <= Lower(close[i], v, m) <==> ReturnAhead(close, i, k) <= -Times(m.sl, v)
    {
      PriceIsReturn(close[i], close[i + 1 + k], v, m.tp, m.sl);
    }
    hide *;
    SameOrder(close, i, vertical, Upper(close[i], v, m), Lower(close[i], v, m), Times(m.tp, v), Times(m.sl, v));
  }

  lemma SameOrder(close: seq<real>, i: nat, vertical: nat, upper: real, lower: real, gain: real, loss: real)
    requires i + vertical < |close| && close[i] > 0.0
    requires forall k :: 0 <= k < vertical ==>
      && (close[i + 1 + k] >= upper <==> ReturnAhead(close, i, k) >= gain)
      && (close[i + 1 + k] <= lower <==> ReturnAhead(close, i, k) <= -loss)
    ensures UpperFirst(close[i + 1..i + 1 + vertical], upper, lower) <==> GainsFirst(close, i, vertical, gain, loss)
    ensures LowerFirst(close[i + 1..i + 1 + vertical], upper, lower) <==> LosesFirst(close, i, vertical, gain, loss)
  {
    var future := close[i + 1..i + 1 + vertical];
    assert |future| == vertical;
    forall k | 0 <= k < vertical
      ensures future[k] >= upper <==> ReturnAhead(close, i, k) >= gain
      ensures future[k] <= lower <==> ReturnAhead(close, i, k) <= -loss
    {
      assert future[k] == close[i + 1 + k];
    }
    hide ReturnAhead;
  }

  /** The label is 1 exactly when a return of at least tp volatilities comes before one of at most -sl
      volatilities, -1 exactly when it is the other way round, and 0 otherwise, which includes a missing
      volatility and a window that is not full. */
  ghost predicate MarksReturns(close: seq<real>, vol: seq<Option<real>>, m: Multiples, vertical: nat, i: nat,
                               mark: int)
    requires |vol| == |close| && i < |close| && close[i] > 0.0
  {
    var full := i + vertical < |close| && vol[i].Some?;
    && (mark == 1 <==> full && GainsFirst(close, i, vertical, Times(m.tp, vol[i].value), Times(m.sl, vol[i].value)))
    && (mark == -1 <==> full && LosesFirst(close, i, vertical, Times(m.tp, vol[i].value), Times(m.sl, vol[i].value)))
    && mark in {-1, 0, 1}
  }

  /** What the label of a row with a positive price says about returns. */
  lemma FirstTouchInReturns(close: seq<real>, vol: seq<Option<real>>, m: Multiples, vertical: nat, i: nat)
    requires |vol| == |close| && i < |close| && close[i] > 0.0
    ensures MarksReturns(close, vol, m, vertical, i, FirstTouch(close, vol, m, vertical, i))
  {
    if i + vertical < |close| && vol[i].Some? {
      var v := vol[i].value;
      NotBothFirst(close[i + 1..i + 1 + vertical], Upper(close[i], v, m), Lower(close[i], v, m));
      TouchInReturns(close, v, m, vertical, i);
      hide UpperFirst, LowerFirst, GainsFirst, LosesFirst, Upper, Lower, Times;
    }
  }

  /** An uptrend narrows the way to a gain and widens that to a loss, a downtrend the other way round. */
  function TrendMultiples(cfg: TrendConfig, t: Trend): Multiples {
    var up := t.strength > cfg.threshold && t.slope > 0.0;
    var down := t.strength > cfg.threshold && t.slope < 0.0;
    Multiples(cfg.base.tp * (if up then cfg.narrow else if down then cfg.widen else 1.0),
              cfg.base.sl * (if up then cfg.widen else if down then cfg.narrow else 1.0))
  }

  lemma AdjustedIs(cfg: TrendConfig, t: Trend)
    ensures Adjusted(cfg, t) == TrendMultiples(cfg, t)
  {
  }

  /** What the trend-adjusted label of such a row says about returns. */
  lemma TrendLabelInReturns(close: seq<real>, vol: seq<Option<real>>, cfg: TrendConfig, trends: seq<Trend>,
                            vertical: nat, i: nat)
    requires |vol| == |trends| == |close| && i < |close| && close[i] > 0.0
    ensures |close| < vertical + 5 ==> TrendLabel(close, vol, cfg, trends, vertical, i) == 0
    ensures |close| >= vertical + 5 ==>
      MarksReturns(close, vol, TrendMultiples(cfg, trends[i]), vertical, i,
                   TrendLabel(close, vol, cfg, trends, vertical, i))
  {
    hide FirstTouch, MarksReturns, Adjusted, TrendMultiples;
    AdjustedIs(cfg, trends[i]);
    FirstTouchInReturns(close, vol, Adjusted(cfg, trends[i]), vertical, i);
  }
}
