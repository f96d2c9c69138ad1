/** The metric registry: named counters and gauges, each with one sample a label set, changed in place
    and rendered as text. Calls are one at a time; a sample value is a real with a given text. */
module Metrics {
  import opened Prelude
  import opened Dictionaries
  import opened ExpositionText

  datatype Metric = Metric(kind: Kind, help: string, labelNames: seq<string>, samples: seq<Entry<Labels, real>>)

  type MetricTable = seq<Entry<string, Metric>>

  datatype Error = InvalidName | UnknownMetric | UnexpectedLabels | NegativeIncrement

  /** Python's character classes: what they say of an ASCII character is known. */
  datatype Alphabet = Alphabet(isAlpha: char -> bool, isAlnum: char -> bool) {
    ghost predicate Valid() {
      forall c: char :: c < 128 as char ==>
        && (isAlpha(c) <==> AsciiLetter(c))
        && (isAlnum(c) <==> AsciiLetter(c) || '0' <= c <= '9')
    }
  }

  predicate IsMetricName(ab: Alphabet, name: string) {
    && name != []
    && (ab.isAlpha(name[0]) || name[0] == '_' || name[0] == ':')
    && forall i :: 1 <= i < |name| ==> ab.isAlnum(name[i]) || name[i] == '_' || name[i] == ':'
  }

  /** The name test lets through the convention's names, and any others only with non-ASCII characters. */
  lemma NameTestIsConventionInAscii(ab: Alphabet, name: string)
    requires ab.Valid()
    ensures InConvention(name) <==> IsMetricName(ab, name) && forall i :: 0 <= i < |name| ==> name[i] < 128 as char
  {
    if name != [] {
      assert ab.isAlpha(name[0]) ==> name[0] >= 128 as char || AsciiLetter(name[0]);
      assert forall i :: 1 <= i < |name| ==> ab.isAlnum(name[i]) ==>
        name[i] >= 128 as char || AsciiLetter(name[i]) || '0' <= name[i] <= '9';
    }
  }

  /** Any letter outside ASCII passes as a metric name that the convention does not have. */
  lemma ForeignLetterPasses(ab: Alphabet, c: char)
    requires ab.isAlpha(c) && c >= 128 as char
    ensures IsMetricName(ab, [c]) && !InConvention([c])
  {
    assert [c][0] == c;
  }

  /** The keyword arguments of a call, in a fixed order. */
  function LabelTuple(labels: Labels): Labels {
    Sort(StringLess, labels)
  }

  predicate Accepts(m: Metric, labels: Labels) {
    forall i :: 0 <= i < |labels| ==> labels[i].key in m.labelNames
  }

  ghost predicate ValidMetric(m: Metric) {
    && Distinct(m.samples)
    && forall s :: s in m.samples ==> Ascending(StringLess, s.key) && Accepts(m, s.key)
  }

  ghost predicate ValidMetrics(ab: Alphabet, metrics: MetricTable) {
    && Distinct(metrics)
    && forall e :: e in metrics ==> IsMetricName(ab, e.key) && ValidMetric(e.value)
  }

  // ----- what a call does

  datatype Call =
    | Register(name: string, kind: Kind, help: string, labelNames: seq<string>)
    | SetTo(name: string, value: real, labels: Labels)
    | Add(name: string, value: real, labels: Labels)
    | Clear

  function WithSet(m: Metric, key: Labels, value: real): Metric {
    m.(samples := Without(m.samples, key) + [Entry(key, value)])
  }

  function WithAdded(m: Metric, key: Labels, amount: real): Metric {
    var before := Get(m.samples, key);
    m.(samples := Put(m.samples, key, if before.Some? then before.value + amount else amount))
  }

  function Cleared(metrics: MetricTable): (r: MetricTable)
    ensures |r| == |metrics|
  {
    seq(|metrics|, i requires 0 <= i < |metrics| => Entry(metrics[i].key, metrics[i].value.(samples := [])))
  }

  function ErrorOf(ab: Alphabet, metrics: MetricTable, call: Call): Option<Error> {
    match call
    case Register(name, _, _, _) => if IsMetricName(ab, name) then None else Some(InvalidName)
    case Clear => None
    case _ =>
      var m := Get(metrics, call.name);
      if m.None? then Some(UnknownMetric)
      else if !Accepts(m.value, call.labels) then Some(UnexpectedLabels)
      else None
  }

  function Apply(ab: Alphabet, metrics: MetricTable, call: Call): MetricTable {
    if ErrorOf(ab, metrics, call).Some? then metrics
    else match call
      case Register(name, kind, help, labelNames) =>
        if Get(metrics, name).Some? then metrics else Put(metrics, name, Metric(kind, help, labelNames, []))
      case SetTo(name, value, labels) =>
        Put(metrics, name, WithSet(Get(metrics, name).value, LabelTuple(labels), value))
      case Add(name, value, labels) =>
        Put(metrics, name, WithAdded(Get(metrics, name).value, LabelTuple(labels), value))
      case Clear => Cleared(metrics)
  }

  /** Keyword arguments have distinct names. */
  predicate Callable(call: Call) {
    call.SetTo? || call.Add? ==> Distinct(call.labels)
  }

  /** The current value of one sample of one metric. */
  function Value(metrics: MetricTable, name: string, key: Labels): Option<real> {
    var m := Get(metrics, name);
    if m.None? then None else Get(m.value.samples, key)
  }

  // ----- the label sets

  /** Two calls address the same sample exactly when they give the same labels, in whatever order. */
  lemma SameSampleIff(a: Labels, b: Labels)
    requires Distinct(a) && Distinct(b)
    ensures LabelTuple(a) == LabelTuple(b) <==> SameContents(a, b)
  {
    StringLessIsOrder();
    if SameContents(a, b) {
      SortIsCanonical(StringLess, a, b);
    }
    if LabelTuple(a) == LabelTuple(b) {
      forall k
        ensures Get(a, k) == Get(b, k)
      {
        GetIs(a, k);
        GetIs(b, k);
        if Get(a, k).Some? {
          SortElements(StringLess, a, Entry(k, Get(a, k).value));
          SortElements(StringLess, b, Entry(k, Get(a, k).value));
        }
        if Get(b, k).Some? {
          SortElements(StringLess, a, Entry(k, Get(b, k).value));
          SortElements(StringLess, b, Entry(k, Get(b, k).value));
        }
      }
    }
  }

  lemma TupleAccepted(m: Metric, labels: Labels)
    requires Distinct(labels) && Accepts(m, labels)
    ensures Ascending(StringLess, LabelTuple(labels)) && Accepts(m, LabelTuple(labels))
  {
    StringLessIsOrder();
    SortAscends(StringLess, labels);
    forall i | 0 <= i < |LabelTuple(labels)|
      ensures LabelTuple(labels)[i].key in m.labelNames
    {
      SortElements(StringLess, labels, LabelTuple(labels)[i]);
    }
  }

  lemma SampleStaysValid(m: Metric, labels: Labels, value: real)
    requires ValidMetric(m) && Distinct(labels) && Accepts(m, labels)
    ensures ValidMetric(WithSet(m, LabelTuple(labels), value))
    ensures ValidMetric(WithAdded(m, LabelTuple(labels), value))
  {
    hide Ascending, Accepts, Put, Without, LabelTuple, Get;
    var key := LabelTuple(labels);
    TupleAccepted(m, labels);
    AppendWithoutKeeps(m.samples, key, value, key);
    var amount := WithAddedAmount(m, key, value);
    PutDistinct(m.samples, key, amount);
    PutElements(m.samples, key, amount);
    assert forall ls :: Accepts(m, ls) ==>
      Accepts(WithSet(m, key, value), ls) && Accepts(WithAdded(m, key, value), ls) by {
      SameNames(m, WithSet(m, key, value));
      SameNames(m, WithAdded(m, key, value));
    }
  }

  lemma SameNames(m: Metric, m': Metric)
    requires m.labelNames == m'.labelNames
    ensures forall ls :: Accepts(m, ls) ==> Accepts(m', ls)
  {
  }

  lemma WithAddedAmount(m: Metric, key: Labels, amount: real) returns (total: real)
    ensures WithAdded(m, key, amount) == m.(samples := Put(m.samples, key, total))
    ensures total == if Get(m.samples, key).Some? then Get(m.samples, key).value + amount else amount
  {
    var before := Get(m.samples, key);
    total := if before.Some? then before.value + amount else amount;
  }

  /** Every call keeps one sample a label set, under its metric's declared names. */
  lemma ApplyKeepsValid(ab: Alphabet, metrics: MetricTable, call: Call)
    requires ValidMetrics(ab, metrics) && Callable(call)
    ensures ValidMetrics(ab, Apply(ab, metrics, call))
  {
    hide ValidMetric, WithSet, WithAdded, Put, Get, Accepts, LabelTuple, IsMetricName;
    if ErrorOf(ab, metrics, call).None? {
      match call
      case Register(name, kind, help, labelNames) =>
        var m := Metric(kind, help, labelNames, []);
        assert ValidMetric(m) by { NewMetricIsValid(kind, help, labelNames); }
        PutDistinct(metrics, name, m);
        PutElements(metrics, name, m);
      case Clear =>
        forall e | e in Cleared(metrics)
          ensures IsMetricName(ab, e.key) && ValidMetric(e.value)
        {
          var i :| 0 <= i < |metrics| && e == Cleared(metrics)[i];
          assert metrics[i] in metrics;
          NewMetricIsValid(e.value.kind, e.value.help, e.value.labelNames);
        }
      case SetTo(name, value, labels) =>
        GetIs(metrics, name);
        var m := Get(metrics, name).value;
        SampleStaysValid(m, labels, value);
        PutDistinct(metrics, name, WithSet(m, LabelTuple(labels), value));
        PutElements(metrics, name, WithSet(m, LabelTuple(labels), value));
      case Add(name, value, labels) =>
        GetIs(metrics, name);
        var m := Get(metrics, name).value;
        SampleStaysValid(m, labels, value);
        PutDistinct(metrics, name, WithAdded(m, LabelTuple(labels), value));
        PutElements(metrics, name, WithAdded(m, LabelTuple(labels), value));
    }
  }

  lemma NewMetricIsValid(kind: Kind, help: string, labelNames: seq<string>)
    ensures ValidMetric(Metric(kind, help, labelNames, []))
  {
  }

  /** A successful set or addition changes one sample, and no other sample of any metric. */
  lemma OneSampleChanges(ab: Alphabet, metrics: MetricTable, call: Call, name: string, key: Labels)
    requires ValidMetrics(ab, metrics) && (call.SetTo? || call.Add?) && Callable(call)
    requires ErrorOf(ab, metrics, call).None?
    ensures var before, after := Value(metrics, name, key), Value(Apply(ab, metrics, call), name, key);
      after == if name != call.name || key != LabelTuple(call.labels) then before
               else if call.SetTo? || before.None? then Some(call.value)
               else Some(before.value + call.value)
  {
    hide LabelTuple, Accepts, ValidMetric;
    var tuple, m := LabelTuple(call.labels), Get(metrics, call.name).value;
    GetIs(metrics, call.name);
    assert ValidMetric(m);
    assert Distinct(m.samples) by { SamplesDistinct(m); }
    hide Put, Get, Without;
    if call.SetTo? {
      PutGets(metrics, call.name, WithSet(m, tuple, call.value), name);
      AppendWithoutKeeps(m.samples, tuple, call.value, key);
    } else {
      PutGets(metrics, call.name, WithAdded(m, tuple, call.value), name);
      var total := WithAddedAmount(m, tuple, call.value);
      PutGets(m.samples, tuple, total, key);
    }
  }

  lemma SamplesDistinct(m: Metric)
    requires ValidMetric(m)
    ensures Distinct(m.samples)
  {
  }

  // ----- registration

  datatype Description = Description(kind: Kind, help: string, labelNames: seq<string>)

  function DescriptionOf(metrics: MetricTable, name: string): Option<Description> {
    var m := Get(metrics, name);
    if m.None? then None else Some(Description(m.value.kind, m.value.help, m.value.labelNames))
  }

  /** The call registers this name, and is let through. */
  predicate Registers(ab: Alphabet, call: Call, name: string) {
    call.Register? && call.name == name && IsMetricName(ab, name)
  }

  lemma DescriptionStep(ab: Alphabet, metrics: MetricTable, call: Call, name: string)
    requires ValidMetrics(ab, metrics)
    ensures DescriptionOf(Apply(ab, metrics, call), name)
         == if DescriptionOf(metrics, name).Some? then DescriptionOf(metrics, name)
            else if Registers(ab, call, name) then Some(Description(call.kind, call.help, call.labelNames))
            else None
  {
    hide ValidMetric, IsMetricName, Accepts, LabelTuple, Put, Get, Without;
    if ErrorOf(ab, metrics, call).None? {
      match call
      case Register(other, kind, help, labelNames) =>
        PutGets(metrics, other, Metric(kind, help, labelNames, []), name);
      case Clear =>
        ClearedGets(metrics, name);
      case SetTo(other, value, labels) =>
        PutGets(metrics, other, WithSet(Get(metrics, other).value, LabelTuple(labels), value), name);
      case Add(other, value, labels) =>
        PutGets(metrics, other, WithAdded(Get(metrics, other).value, LabelTuple(labels), value), name);
    }
  }

  /** No registration of the name among the first k calls is let through. */
  ghost predicate Unregistered(ab: Alphabet, calls: seq<Call>, name: string, k: nat)
    requires k <= |calls|
  {
    forall i :: 0 <= i < k ==> !Registers(ab, calls[i], name)
  }

  /** Over any run a name keeps the kind, the help text and the label names of its first registration that is
      let through, whatever is called later, and has none before it. */
  lemma {:induction false} FirstRegistrationStays(ab: Alphabet, metrics: MetricTable, calls: seq<Call>, name: string,
                                                  k: nat)
    requires ValidMetrics(ab, metrics) && forall i :: 0 <= i < |calls| ==> Callable(calls[i])
    requires k <= |calls| && Unregistered(ab, calls, name, k)
    ensures var d := DescriptionOf(Run(ab, metrics, calls), name);
      && (DescriptionOf(metrics, name).Some? ==> d == DescriptionOf(metrics, name))
      && (DescriptionOf(metrics, name).None? && k == |calls| ==> d == None)
      && (DescriptionOf(metrics, name).None? && k < |calls| && Registers(ab, calls[k], name) ==>
            d == Some(Description(calls[k].kind, calls[k].help, calls[k].labelNames)))
    decreases |calls|
  {
    if calls != [] {
      hide Apply, Registers, DescriptionOf, ValidMetrics, Callable;
      ApplyKeepsValid(ab, metrics, calls[0]);
      DescriptionStep(ab, metrics, calls[0], name);
      FirstRegistrationStays(ab, Apply(ab, metrics, calls[0]), calls[1..], name,
                             if k == 0 then 0 else k - 1);
    }
  }

  /** After any run a set or an addition goes through exactly when its name has been registered and every
      label given is one of those that its first registration, the k-th call, has declared; otherwise it
      fails with the first of the two reasons. */
  lemma GoesThroughIff(ab: Alphabet, calls: seq<Call>, call: Call, k: nat)
    requires (forall i :: 0 <= i < |calls| ==> Callable(calls[i])) && (call.SetTo? || call.Add?)
    requires k <= |calls| && Unregistered(ab, calls, call.name, k)
    requires k < |calls| ==> Registers(ab, calls[k], call.name)
    ensures ErrorOf(ab, Run(ab, [], calls), call)
         == if k == |calls| then Some(UnknownMetric)
            else if exists i :: 0 <= i < |call.labels| && call.labels[i].key !in calls[k].labelNames
            then Some(UnexpectedLabels)
            else None
  {
    FirstRegistrationStays(ab, [], calls, call.name, k);
    assert DescriptionOf([], call.name) == None;
    hide Run, Unregistered, Registers, IsMetricName;
  }

  // ----- counters

  function Run(ab: Alphabet, metrics: MetricTable, calls: seq<Call>): MetricTable
    decreases |calls|
  {
    if calls == [] then metrics else Run(ab, Apply(ab, metrics, calls[0]), calls[1..])
  }

  /** What a counter handle of the given name lets through, and what touches other metrics. */
  predicate CounterCall(call: Call, name: string) {
    match call
    case Clear => false
    case SetTo(other, _, _) => other != name
    case Add(other, amount, _) => other != name || amount >= 0.0
    case Register(_, _, _, _) => true
  }

  ghost predicate NotBelow(before: Option<real>, after: Option<real>) {
    before.Some? ==> after.Some? && after.value >= before.value
  }

  /** The call goes through and takes the sample lower, or away. */
  predicate Lowers(ab: Alphabet, metrics: MetricTable, call: Call, name: string, key: Labels) {
    && Value(metrics, name, key).Some? && ErrorOf(ab, metrics, call).None?
    && match call
       case Register(_, _, _, _) => false
       case Clear => true
       case SetTo(other, value, labels) =>
         other == name && LabelTuple(labels) == key && value < Value(metrics, name, key).value
       case Add(other, amount, labels) => other == name && LabelTuple(labels) == key && amount < 0.0
  }

  lemma {:induction false} ClearedGets(metrics: MetricTable, name: string)
    ensures var m := Get(metrics, name);
      Get(Cleared(metrics), name) == if m.Some? then Some(m.value.(samples := [])) else None
  {
    if metrics != [] {
      ClearedGets(metrics[1..], name);
      assert Cleared(metrics)[1..] == Cleared(metrics[1..]);
    }
  }

  /** A call keeps a sample from falling exactly when it does not lower it. */
  lemma FallsIff(ab: Alphabet, metrics: MetricTable, call: Call, name: string, key: Labels)
    requires ValidMetrics(ab, metrics) && Callable(call)
    ensures NotBelow(Value(metrics, name, key), Value(Apply(ab, metrics, call), name, key))
       <==> !Lowers(ab, metrics, call, name, key)
  {
    if ErrorOf(ab, metrics, call).None? {
      if call.Register? {
        PutGets(metrics, call.name, Metric(call.kind, call.help, call.labelNames, []), name);
      } else if call.Clear? {
        ClearedGets(metrics, name);
      } else {
        OneSampleChanges(ab, metrics, call, name, key);
        hide Apply, LabelTuple, ValidMetrics;
      }
    }
  }

  /** The table after the first k calls of a run. */
  function TableAt(ab: Alphabet, metrics: MetricTable, calls: seq<Call>, k: nat): MetricTable
    requires k <= |calls|
  {
    Run(ab, metrics, calls[..k])
  }

  lemma {:induction false} TableNext(ab: Alphabet, metrics: MetricTable, calls: seq<Call>, k: nat)
    requires k < |calls|
    ensures TableAt(ab, metrics, calls, k + 1) == Apply(ab, TableAt(ab, metrics, calls, k), calls[k])
    decreases k
  {
    hide Apply;
    var rest := calls[1..];
    if k > 0 {
      TableNext(ab, Apply(ab, metrics, calls[0]), rest, k - 1);
      assert calls[..k + 1][1..] == rest[..k] && calls[..k][1..] == rest[..k - 1];
    } else {
      assert calls[..1][1..] == [] && calls[..0] == [];
      assert Run(ab, metrics, calls[..1]) == Run(ab, Apply(ab, metrics, calls[0]), calls[..1][1..]);
    }
  }

  lemma {:induction false} TableIsValid(ab: Alphabet, metrics: MetricTable, calls: seq<Call>, k: nat)
    requires ValidMetrics(ab, metrics) && k <= |calls| && forall i :: 0 <= i < |calls| ==> Callable(calls[i])
    ensures ValidMetrics(ab, TableAt(ab, metrics, calls, k))
  {
    hide Apply, ValidMetrics;
    if k == 0 {
      assert calls[..0] == [];
    } else {
      TableIsValid(ab, metrics, calls, k - 1);
      TableNext(ab, metrics, calls, k - 1);
      ApplyKeepsValid(ab, TableAt(ab, metrics, calls, k - 1), calls[k - 1]);
    }
  }

  ghost predicate KeptBetween(ab: Alphabet, metrics: MetricTable, calls: seq<Call>, name: string, key: Labels,
                              j: nat, k: nat)
    requires j <= k <= |calls|
  {
    NotBelow(Value(TableAt(ab, metrics, calls, j), name, key), Value(TableAt(ab, metrics, calls, k), name, key))
  }

  ghost predicate LowersAt(ab: Alphabet, metrics: MetricTable, calls: seq<Call>, name: string, key: Labels, k: nat)
    requires k < |calls|
  {
    Lowers(ab, TableAt(ab, metrics, calls, k), calls[k], name, key)
  }

  lemma KeptOnceIff(ab: Alphabet, metrics: MetricTable, calls: seq<Call>, name: string, key: Labels, k: nat)
    requires ValidMetrics(ab, metrics) && k < |calls| && forall i :: 0 <= i < |calls| ==> Callable(calls[i])
    ensures KeptBetween(ab, metrics, calls, name, key, k, k + 1) <==> !LowersAt(ab, metrics, calls, name, key, k)
  {
    hide Apply, ValidMetrics, Value, TableAt, Lowers, NotBelow;
    TableIsValid(ab, metrics, calls, k);
    TableNext(ab, metrics, calls, k);
    FallsIff(ab, TableAt(ab, metrics, calls, k), calls[k], name, key);
  }

  lemma {:induction false} KeptFrom(ab: Alphabet, metrics: MetricTable, calls: seq<Call>, name: string, key: Labels,
                                    j: nat, k: nat)
    requires ValidMetrics(ab, metrics) && j <= k <= |calls| && forall i :: 0 <= i < |calls| ==> Callable(calls[i])
    requires forall i: nat :: i < |calls| ==> !LowersAt(ab, metrics, calls, name, key, i)
    ensures KeptBetween(ab, metrics, calls, name, key, j, k)
    decreases k
  {
    if j < k {
      KeptFrom(ab, metrics, calls, name, key, j, k - 1);
      KeptOnceIff(ab, metrics, calls, name, key, k - 1);
      hide Value, TableAt, LowersAt;
    }
  }

  /** Over any run a sample never falls, from any moment to any later one, exactly when no call of the run
      lowers it as it stands. */
  lemma NeverFallsIff(ab: Alphabet, metrics: MetricTable, calls: seq<Call>, name: string, key: Labels)
    requires ValidMetrics(ab, metrics) && forall i :: 0 <= i < |calls| ==> Callable(calls[i])
    ensures (forall j: nat, k: nat :: j <= k <= |calls| ==> KeptBetween(ab, metrics, calls, name, key, j, k))
       <==> (forall k: nat :: k < |calls| ==> !LowersAt(ab, metrics, calls, name, key, k))
  {
    hide KeptBetween, LowersAt, ValidMetrics;
    if forall k: nat :: k < |calls| ==> !LowersAt(ab, metrics, calls, name, key, k) {
      forall j: nat, k: nat | j <= k <= |calls|
        ensures KeptBetween(ab, metrics, calls, name, key, j, k)
      {
        KeptFrom(ab, metrics, calls, name, key, j, k);
      }
    } else {
      var k: nat :| k < |calls| && LowersAt(ab, metrics, calls, name, key, k);
      KeptOnceIff(ab, metrics, calls, name, key, k);
      assert !KeptBetween(ab, metrics, calls, name, key, k, k + 1);
    }
  }

  lemma CounterCallsLowerNothing(ab: Alphabet, metrics: MetricTable, call: Call, name: string, key: Labels)
    requires CounterCall(call, name)
    ensures !Lowers(ab, metrics, call, name, key)
  {
  }

  /** So a counter whose calls all come from counter handles never falls. */
  lemma CounterNeverFalls(ab: Alphabet, metrics: MetricTable, calls: seq<Call>, name: string, key: Labels)
    requires ValidMetrics(ab, metrics)
    requires forall i :: 0 <= i < |calls| ==> Callable(calls[i]) && CounterCall(calls[i], name)
    ensures forall j: nat, k: nat :: j <= k <= |calls| ==> KeptBetween(ab, metrics, calls, name, key, j, k)
  {
    hide KeptBetween, ValidMetrics, Lowers, CounterCall;
    forall k: nat | k < |calls|
      ensures !LowersAt(ab, metrics, calls, name, key, k)
    {
      CounterCallsLowerNothing(ab, TableAt(ab, metrics, calls, k), calls[k], name, key);
    }
    NeverFallsIff(ab, metrics, calls, name, key);
  }

  /** Registering a counter's name again as a gauge is accepted, keeps the counter, and gives a handle
      that sets it: the counter falls from 2 to 1. */
  lemma GaugeHandleLowersCounter(ab: Alphabet)
    requires ab.Valid()
    ensures var t := Apply(ab, Apply(ab, [], Register("a", Counter, "", [])), Add("a", 2.0, []));
      && Value(t, "a", []) == Some(2.0)
      && ErrorOf(ab, t, Register("a", Gauge, "", [])).None?
      && var u := Apply(ab, Apply(ab, t, Register("a", Gauge, "", [])), SetTo("a", 1.0, []));
           Get(u, "a").Some? && Get(u, "a").value.kind == Counter && Value(u, "a", []) == Some(1.0)
  {
    assert ab.isAlpha('a');
    assert LabelTuple([]) == [];
    var m := Metric(Counter, "", [], []);
    assert Put([], "a", m) == [Entry("a", m)];
    assert Get([Entry("a", m)], "a") == Some(m);
    var m2 := WithAdded(m, [], 2.0);
    assert m2 == m.(samples := [Entry([], 2.0)]);
    assert Put([Entry("a", m)], "a", m2) == [Entry("a", m2)];
    assert Get([Entry("a", m2)], "a") == Some(m2);
    var m3 := WithSet(m2, [], 1.0);
    assert m3 == m.(samples := [Entry([], 1.0)]);
    assert Put([Entry("a", m2)], "a", m3) == [Entry("a", m3)];
  }

  // ----- rendering

  function SampleLines(name: string, samples: seq<Entry<Labels, real>>, show: real -> string): (r: seq<Line>)
    ensures |r| == |samples|
  {
    seq(|samples|, i requires 0 <= i < |samples| => Reading(name, samples[i].key, show(samples[i].value)))
  }

  function MetricLines(name: string, m: Metric, show: real -> string): seq<Line> {
    [Help(name, m.help), Type(name, m.kind)]
    + if m.samples == [] then [Reading(name, [], "0")] else SampleLines(name, Sort(LabelsLess, m.samples), show)
  }

  function AllLines(ordered: MetricTable, show: real -> string): seq<Line> {
    if ordered == [] then []
    else MetricLines(ordered[0].key, ordered[0].value, show) + AllLines(ordered[1..], show)
  }

  function RenderedLines(metrics: MetricTable, show: real -> string): seq<Line> {
    AllLines(Sort(StringLess, metrics), show)
  }

  lemma {:induction false} AllLinesHave(ordered: MetricTable, show: real -> string, l: Line)
    ensures l in AllLines(ordered, show) <==> exists e :: e in ordered && l in MetricLines(e.key, e.value, show)
  {
    if ordered != [] {
      hide MetricLines;
      AllLinesHave(ordered[1..], show, l);
      assert ordered == [ordered[0]] + ordered[1..];
    }
  }

  /** What a scrape finds for one metric: each of its samples, or a bare zero when it has none. */
  lemma MetricLinesHave(name: string, m: Metric, show: real -> string, key: Labels, text: string)
    requires Distinct(m.samples)
    ensures Reading(name, key, text) in MetricLines(name, m, show)
       <==> if m.samples == [] then key == [] && text == "0"
            else Get(m.samples, key).Some? && text == show(Get(m.samples, key).value)
    ensures forall l :: l in MetricLines(name, m, show) ==> l.name == name
  {
    var l := Reading(name, key, text);
    if m.samples != [] {
      var s := Sort(LabelsLess, m.samples);
      GetIs(m.samples, key);
      if l in MetricLines(name, m, show) {
        var i :| 0 <= i < |s| && l == Reading(name, s[i].key, show(s[i].value));
        SortElements(LabelsLess, m.samples, s[i]);
        assert s[i] == Entry(key, s[i].value);
      }
      if Get(m.samples, key).Some? && text == show(Get(m.samples, key).value) {
        var e := Entry(key, Get(m.samples, key).value);
        SortElements(LabelsLess, m.samples, e);
        var i :| 0 <= i < |s| && s[i] == e;
        assert SampleLines(name, s, show)[i] == l;
      }
    }
  }

  /** The readings rendered are exactly the samples held. */
  lemma RenderedReadings(ab: Alphabet, metrics: MetricTable, show: real -> string, name: string, key: Labels,
                         text: string)
    requires ValidMetrics(ab, metrics)
    ensures Reading(name, key, text) in RenderedLines(metrics, show)
       <==> var m := Get(metrics, name);
            && m.Some?
            && if m.value.samples == [] then key == [] && text == "0"
               else Value(metrics, name, key).Some? && text == show(Value(metrics, name, key).value)
  {
    hide MetricLines, Sort, Get, StringLess;
    var l := Reading(name, key, text);
    AllLinesHave(Sort(StringLess, metrics), show, l);
    GetIs(metrics, name);
    if l in RenderedLines(metrics, show) {
      var e :| e in Sort(StringLess, metrics) && l in MetricLines(e.key, e.value, show);
      SortElements(StringLess, metrics, e);
      SamplesDistinct(e.value);
      MetricLinesHave(e.key, e.value, show, key, text);
      assert e == Entry(name, e.value);
    }
    if Get(metrics, name).Some? {
      var e := Entry(name, Get(metrics, name).value);
      SortElements(StringLess, metrics, e);
      SamplesDistinct(e.value);
      MetricLinesHave(name, e.value, show, key, text);
    }
  }

  /** A value prints as a text without blanks. */
  ghost predicate ShowsPlainly(show: real -> string) {
    forall v :: show(v) != [] && Free(show(v), {' ', '\t', '\n'})
  }

  /** What nothing checks fully when a metric is registered: that its name, its documentation and the
      label names in use are the format's. */
  ghost predicate PlainMetric(name: string, m: Metric) {
    InConvention(name) && PlainHelp(m.help) && forall s :: s in m.samples ==> PlainNames(s.key)
  }

  lemma NameIsPlain(ab: Alphabet, name: string)
    requires ab.Valid() && IsMetricName(ab, name)
    ensures name != [] && Free(name, {' ', '{', '#', '\n'})
  {
    forall c | c in {' ', '{', '#', '\n'}
      ensures !ab.isAlpha(c) && !ab.isAlnum(c)
    {
      assert c < 128 as char;
    }
  }

  lemma ShownPlainly(show: real -> string, v: real)
    requires ShowsPlainly(show)
    ensures show(v) != [] && Free(show(v), {' ', '\t', '\n'})
  {
  }

  lemma MetricLinesPrintable(ab: Alphabet, e: Entry<string, Metric>, show: real -> string)
    requires ab.Valid() && IsMetricName(ab, e.key) && ShowsPlainly(show)
    ensures forall l :: l in MetricLines(e.key, e.value, show) ==> Printable(l)
  {
    NameIsPlain(ab, e.key);
    forall l | l in MetricLines(e.key, e.value, show)
      ensures Printable(l)
    {
      if l.Reading? && e.value.samples != [] {
        var s := Sort(LabelsLess, e.value.samples);
        var i :| 0 <= i < |s| && l == Reading(e.key, s[i].key, show(s[i].value));
        ShownPlainly(show, s[i].value);
      } else if l.Reading? {
        assert l.value == "0" && |l.value| == 1;
      }
    }
  }

  lemma MetricLinesPlainIff(e: Entry<string, Metric>, show: real -> string)
    ensures (forall l :: l in MetricLines(e.key, e.value, show) ==> Plain(l)) <==> PlainMetric(e.key, e.value)
  {
    var lines, s := MetricLines(e.key, e.value, show), Sort(LabelsLess, e.value.samples);
    assert lines[0] == Help(e.key, e.value.help) && lines[0] in lines;
    forall l | l in lines && PlainMetric(e.key, e.value)
      ensures Plain(l)
    {
      if l.Reading? && e.value.samples != [] {
        var i :| 0 <= i < |s| && l == Reading(e.key, s[i].key, show(s[i].value));
        SortElements(LabelsLess, e.value.samples, s[i]);
      }
    }
    forall x | x in e.value.samples && forall l :: l in lines ==> Plain(l)
      ensures PlainNames(x.key)
    {
      SortElements(LabelsLess, e.value.samples, x);
      var i :| 0 <= i < |s| && s[i] == x;
      assert SampleLines(e.key, s, show)[i] in lines;
    }
  }

  /** The rendered text of any valid registry reads back as exactly its lines, and so by
      RenderedReadings as exactly its samples, if and only if every metric name and every label name in
      use is one of the format's and every documentation text is free of backslashes, line feeds and
      outer blanks. Label values may hold anything. */
  lemma RenderReadsBackIff(ab: Alphabet, metrics: MetricTable, show: real -> string)
    requires ab.Valid() && ValidMetrics(ab, metrics) && ShowsPlainly(show)
    ensures ParseText(PrintText(RenderedLines(metrics, show))) == Some(RenderedLines(metrics, show))
       <==> forall e :: e in metrics ==> PlainMetric(e.key, e.value)
  {
    hide MetricLines, Sort, StringLess, ParseText, PrintText, Printable, Plain, IsMetricName, ValidMetric;
    hide ShowsPlainly, PlainMetric;
    var lines := RenderedLines(metrics, show);
    forall l | l in lines
      ensures Printable(l)
      ensures (forall e :: e in metrics ==> PlainMetric(e.key, e.value)) ==> Plain(l)
    {
      AllLinesHave(Sort(StringLess, metrics), show, l);
      var e :| e in Sort(StringLess, metrics) && l in MetricLines(e.key, e.value, show);
      SortElements(StringLess, metrics, e);
      MetricLinesPrintable(ab, e, show);
      MetricLinesPlainIff(e, show);
    }
    forall e | e in metrics && forall l :: l in lines ==> Plain(l)
      ensures PlainMetric(e.key, e.value)
    {
      SortElements(StringLess, metrics, e);
      forall l | l in MetricLines(e.key, e.value, show)
        ensures Plain(l)
      {
        AllLinesHave(Sort(StringLess, metrics), show, l);
      }
      MetricLinesPlainIff(e, show);
    }
    assert forall i :: 0 <= i < |lines| ==> lines[i] in lines;
    TextReadsIff(lines);
  }

  /** A documentation text of two lines is accepted, and what is rendered does not read back. */
  lemma TwoLineHelpMisreads(ab: Alphabet, show: real -> string)
    requires ab.Valid() && ShowsPlainly(show)
    ensures var t := Apply(ab, [], Register("a", Counter, "x\ny", []));
      && ErrorOf(ab, [], Register("a", Counter, "x\ny", [])).None? && ValidMetrics(ab, t)
      && ParseText(PrintText(RenderedLines(t, show))) != Some(RenderedLines(t, show))
  {
    var call, m := Register("a", Counter, "x\ny", []), Metric(Counter, "x\ny", [], []);
    assert ab.isAlpha('a');
    var t := Apply(ab, [], call);
    assert t == [Entry("a", m)];
    assert t[0] in t && m.help[1] == '\n';
    hide ParseText, PrintText, RenderedLines, ShowsPlainly, Apply;
    ApplyKeepsValid(ab, [], call);
    RenderReadsBackIff(ab, t, show);
  }

  // ----- two registries with the same readings

  /** The same type and documentation, and the same samples in whatever order they came about. */
  ghost predicate SameMetric(a: Option<Metric>, b: Option<Metric>) {
    && (a.Some? <==> b.Some?)
    && (a.Some? ==>
          && a.value.kind == b.value.kind && a.value.help == b.value.help
          && SameContents(a.value.samples, b.value.samples))
  }

  function Normal(m: Metric): Metric {
    Metric(m.kind, m.help, [], Sort(LabelsLess, m.samples))
  }

  function NormalTable(metrics: MetricTable): MetricTable {
    if metrics == [] then []
    else [Entry(metrics[0].key, Normal(metrics[0].value))] + NormalTable(metrics[1..])
  }

  lemma {:induction false} NormalGets(metrics: MetricTable, name: string)
    ensures var m := Get(metrics, name);
      Get(NormalTable(metrics), name) == if m.Some? then Some(Normal(m.value)) else None
  {
    if metrics != [] {
      hide Normal;
      NormalGets(metrics[1..], name);
    }
  }

  lemma {:induction false} NormalKeys(metrics: MetricTable)
    ensures |NormalTable(metrics)| == |metrics|
    ensures forall i :: 0 <= i < |metrics| ==> NormalTable(metrics)[i].key == metrics[i].key
  {
    if metrics != [] {
      NormalKeys(metrics[1..]);
    }
  }

  lemma {:induction false} InsertNormal(x: Entry<string, Metric>, s: MetricTable)
    ensures Insert(StringLess, Entry(x.key, Normal(x.value)), NormalTable(s)) == NormalTable(Insert(StringLess, x, s))
  {
    hide Normal, StringLess;
    if s != [] && StringLess(s[0].key, x.key) {
      InsertNormal(x, s[1..]);
      assert NormalTable(s)[1..] == NormalTable(s[1..]);
    }
  }

  lemma {:induction false} SortNormal(metrics: MetricTable)
    ensures Sort(StringLess, NormalTable(metrics)) == NormalTable(Sort(StringLess, metrics))
  {
    if metrics != [] {
      hide Normal, StringLess, Insert;
      SortNormal(metrics[1..]);
      InsertNormal(metrics[0], Sort(StringLess, metrics[1..]));
      assert NormalTable(metrics)[1..] == NormalTable(metrics[1..]);
    }
  }

  lemma SortedSame<K(!new), V(!new)>(less: (K, K) -> bool, s: seq<Entry<K, V>>)
    requires StrictOrder(less) && Distinct(s)
    ensures Sort(less, Sort(less, s)) == Sort(less, s)
  {
    SortAscends(less, s);
    assert Distinct(Sort(less, s));
    forall k
      ensures Get(s, k) == Get(Sort(less, s), k)
    {
      GetIs(s, k);
      GetIs(Sort(less, s), k);
      if Get(s, k).Some? {
        SortElements(less, s, Entry(k, Get(s, k).value));
      }
      if Get(Sort(less, s), k).Some? {
        SortElements(less, s, Entry(k, Get(Sort(less, s), k).value));
      }
    }
    SortIsCanonical(less, s, Sort(less, s));
  }

  lemma NormalLines(name: string, m: Metric, show: real -> string)
    requires Distinct(m.samples)
    ensures MetricLines(name, Normal(m), show) == MetricLines(name, m, show)
  {
    LabelsLessIsOrder();
    SortedSame(LabelsLess, m.samples);
    SortKeepsLength(LabelsLess, m.samples);
  }

  lemma {:induction false} AllNormalLines(ordered: MetricTable, show: real -> string)
    requires forall e :: e in ordered ==> Distinct(e.value.samples)
    ensures AllLines(NormalTable(ordered), show) == AllLines(ordered, show)
  {
    if ordered != [] {
      hide MetricLines, Normal, Distinct;
      AllNormalLines(ordered[1..], show);
      assert ordered[0] in ordered;
      NormalLines(ordered[0].key, ordered[0].value, show);
      assert NormalTable(ordered)[1..] == NormalTable(ordered[1..]);
    }
  }

  lemma RenderedFromNormal(ab: Alphabet, metrics: MetricTable, show: real -> string)
    requires ValidMetrics(ab, metrics)
    ensures AllLines(Sort(StringLess, NormalTable(metrics)), show) == RenderedLines(metrics, show)
  {
    hide Sort, NormalTable, AllLines, StringLess, Distinct, IsMetricName;
    SortNormal(metrics);
    forall e | e in Sort(StringLess, metrics)
      ensures Distinct(e.value.samples)
    {
      SortElements(StringLess, metrics, e);
      SamplesDistinct(e.value);
    }
    AllNormalLines(Sort(StringLess, metrics), show);
  }

  /** The text depends on the readings only: not on the order in which metrics were registered or
      samples written, nor on how the values were reached. */
  lemma RenderDependsOnReadings(ab: Alphabet, a: MetricTable, b: MetricTable, show: real -> string)
    requires ValidMetrics(ab, a) && ValidMetrics(ab, b)
    requires forall name :: SameMetric(Get(a, name), Get(b, name))
    ensures RenderedLines(a, show) == RenderedLines(b, show)
  {
    forall name
      ensures Get(NormalTable(a), name) == Get(NormalTable(b), name)
    {
      hide Sort, NormalTable, LabelsLess, IsMetricName;
      NormalGets(a, name);
      NormalGets(b, name);
      assert SameMetric(Get(a, name), Get(b, name));
      GetIs(a, name);
      GetIs(b, name);
      if Get(a, name).Some? {
        SamplesDistinct(Get(a, name).value);
        SamplesDistinct(Get(b, name).value);
        LabelsLessIsOrder();
        SortIsCanonical(LabelsLess, Get(a, name).value.samples, Get(b, name).value.samples);
      }
    }
    NormalKeys(a);
    NormalKeys(b);
    hide Sort, NormalTable, AllLines, StringLess, IsMetricName, ValidMetric, RenderedLines;
    StringLessIsOrder();
    SortIsCanonical(StringLess, NormalTable(a), NormalTable(b));
    RenderedFromNormal(ab, a, show);
    RenderedFromNormal(ab, b, show);
  }

  // ----- the registry

  class MetricsRegistry {
    const ab: Alphabet
    var metrics: MetricTable

    ghost predicate Valid()
      reads this
    {
      ab.Valid() && ValidMetrics(ab, metrics)
    }

    constructor (ab: Alphabet)
      requires ab.Valid()
      ensures Valid() && metrics == [] && this.ab == ab
    {
      this.ab := ab;
      metrics := [];
    }

    method AddMetric(name: string, kind: Kind, help: string, labelNames: seq<string>) returns (error: Option<Error>)
      requires Valid()
      modifies `metrics
      ensures Valid()
      ensures error == ErrorOf(ab, old(metrics), Register(name, kind, help, labelNames))
      ensures metrics == Apply(ab, old(metrics), Register(name, kind, help, labelNames))
    {
      if !IsMetricName(ab, name) {
        return Some(InvalidName);
      }
      ApplyKeepsValid(ab, metrics, Register(name, kind, help, labelNames));
      if Get(metrics, name).None? {
        metrics := Put(metrics, name, Metric(kind, help, labelNames, []));
      }
      error := None;
    }

    /** The sample of these labels is dropped and a new one appended. */
    method SetValue(name: string, value: real, labels: Labels) returns (error: Option<Error>)
      requires Valid() && Distinct(labels)
      modifies `metrics
      ensures Valid()
      ensures error == ErrorOf(ab, old(metrics), SetTo(name, value, labels))
      ensures metrics == Apply(ab, old(metrics), SetTo(name, value, labels))
    {
      var found := Get(metrics, name);
      if found.None? {
        return Some(UnknownMetric);
      }
      var metric := found.value;
      if !Accepts(metric, labels) {
        return Some(UnexpectedLabels);
      }
      ApplyKeepsValid(ab, metrics, SetTo(name, value, labels));
      var key := LabelTuple(labels);
      metric := metric.(samples := Without(metric.samples, key));
      metric := metric.(samples := metric.samples + [Entry(key, value)]);
      metrics := Put(metrics, name, metric);
      error := None;
    }

    /** The first sample of these labels is added to in place; without one, a sample is appended. */
    method Increase(name: string, amount: real, labels: Labels) returns (error: Option<Error>)
      requires Valid() && Distinct(labels)
      modifies `metrics
      ensures Valid()
      ensures error == ErrorOf(ab, old(metrics), Add(name, amount, labels))
      ensures metrics == Apply(ab, old(metrics), Add(name, amount, labels))
    {
      var lookup := Get(metrics, name);
      if lookup.None? {
        return Some(UnknownMetric);
      }
      var metric := lookup.value;
      if !Accepts(metric, labels) {
        return Some(UnexpectedLabels);
      }
      ApplyKeepsValid(ab, metrics, Add(name, amount, labels));
      var key := LabelTuple(labels);
      var samples := AddTo(metric.samples, key, amount);
      metrics := Put(metrics, name, metric.(samples := samples));
      error := None;
    }

    /** A counter handle refuses a negative amount before it looks anything up. */
    method CounterInc(name: string, amount: real, labels: Labels) returns (error: Option<Error>)
      requires Valid() && Distinct(labels)
      modifies `metrics
      ensures Valid()
      ensures amount < 0.0 ==> error == Some(NegativeIncrement) && metrics == old(metrics)
      ensures amount >= 0.0 ==> CounterCall(Add(name, amount, labels), name)
      ensures amount >= 0.0 ==> error == ErrorOf(ab, old(metrics), Add(name, amount, labels))
      ensures amount >= 0.0 ==> metrics == Apply(ab, old(metrics), Add(name, amount, labels))
    {
      if amount < 0.0 {
        return Some(NegativeIncrement);
      }
      error := Increase(name, amount, labels);
    }

    method Reset()
      requires Valid()
      modifies `metrics
      ensures Valid() && metrics == Cleared(old(metrics))
    {
      ApplyKeepsValid(ab, metrics, Clear);
      ghost var before := metrics;
      for k := 0 to |metrics|
        invariant |metrics| == |before|
        invariant forall i :: 0 <= i < k ==> metrics[i] == Cleared(before)[i]
        invariant forall i :: k <= i < |metrics| ==> metrics[i] == before[i]
      {
        metrics := metrics[k := Entry(metrics[k].key, metrics[k].value.(samples := []))];
      }
    }

    method Render(show: real -> string) returns (text: string)
      ensures text == PrintText(RenderedLines(metrics, show))
    {
      var ordered := Sort(StringLess, metrics);
      var out: seq<string> := [];
      assert AllLines(ordered[..0], show) == [];
      for k := 0 to |ordered|
        invariant out == Printed(AllLines(ordered[..k], show))
      {
        var lines := RenderMetric(ordered[k].key, ordered[k].value, show);
        out := out + lines;
        AllLinesGrow(ordered, k, show);
        PrintedConcat(AllLines(ordered[..k], show), MetricLines(ordered[k].key, ordered[k].value, show));
      }
      assert ordered[..|ordered|] == ordered;
      text := Join(out) + "\n";
    }
  }

  lemma PrintedConcat(a: seq<Line>, b: seq<Line>)
    ensures Printed(a + b) == Printed(a) + Printed(b)
  {
  }

  lemma {:induction false} AllLinesGrow(ordered: MetricTable, k: nat, show: real -> string)
    requires k < |ordered|
    ensures AllLines(ordered[..k + 1], show)
         == AllLines(ordered[..k], show) + MetricLines(ordered[k].key, ordered[k].value, show)
  {
    hide MetricLines;
    if k == 0 {
      assert ordered[..1] == [ordered[0]] && ordered[..1][1..] == [];
    } else {
      AllLinesGrow(ordered[1..], k - 1, show);
      assert ordered[..k + 1][1..] == ordered[1..][..k];
      assert ordered[..k][1..] == ordered[1..][..k - 1];
    }
  }

  method RenderMetric(name: string, m: Metric, show: real -> string) returns (out: seq<string>)
    ensures out == Printed(MetricLines(name, m, show))
  {
    ghost var head := [Help(name, m.help), Type(name, m.kind)];
    out := ["# HELP " + name + " " + m.help];
    out := out + ["# TYPE " + name + " " + KindText(m.kind)];
    assert out == Printed(head);
    if m.samples == [] {
      out := out + [name + " " + "0"];
      assert [name + " " + "0"] == Printed([Reading(name, [], "0")]);
      PrintedConcat(head, [Reading(name, [], "0")]);
    } else {
      hide Printed, PrintLine, SampleLines;
      var lines := RenderSamples(name, Sort(LabelsLess, m.samples), show);
      out := out + lines;
      PrintedConcat(head, SampleLines(name, Sort(LabelsLess, m.samples), show));
    }
  }

  method RenderSamples(name: string, samples: seq<Entry<Labels, real>>, show: real -> string)
    returns (out: seq<string>)
    ensures out == Printed(SampleLines(name, samples, show))
  {
    hide Escape, PrintLabels;
    out := [];
    for k := 0 to |samples|
      invariant |out| == k
      invariant forall i :: 0 <= i < k ==> out[i] == PrintLine(Reading(name, samples[i].key, show(samples[i].value)))
    {
      var labels, value := samples[k].key, show(samples[k].value);
      if labels != [] {
        out := out + [name + "{" + PrintLabels(labels) + "} " + value];
      } else {
        out := out + [name + " " + value];
      }
    }
  }

  method AddTo(samples: seq<Entry<Labels, real>>, key: Labels, amount: real) returns (r: seq<Entry<Labels, real>>)
    ensures r == Put(samples, key, if Get(samples, key).Some? then Get(samples, key).value + amount else amount)
  {
    r := samples;
    for k := 0 to |samples|
      invariant forall i :: 0 <= i < k ==> samples[i].key != key
    {
      if samples[k].key == key {
        r := samples[k := Entry(key, samples[k].value + amount)];
        FoundAt(samples, key, k, r[k].value);
        return;
      }
    }
    r := samples + [Entry(key, amount)];
    NotFound(samples, key, amount);
  }
}
