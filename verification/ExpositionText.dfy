/** The text a registry prints, against a parser written from the Prometheus text exposition format,
    version 0.0.4, "Text format details". */
module ExpositionText {
  import opened Prelude
  import opened Dictionaries

  // ----- label values

  type Label = Entry<string, string>
  type Labels = seq<Label>

  predicate LabelLess(a: Label, b: Label) {
    StringLess(a.key, b.key) || (a.key == b.key && StringLess(a.value, b.value))
  }

  predicate LabelsLess(a: Labels, b: Labels) { LexLess(LabelLess, a, b) }

  lemma LabelLessIsOrder()
    ensures StrictOrder(LabelLess)
  {
    StringLessIsOrder();
    hide StringLess;
    assert forall a, b :: StringLess(a, b) ==> !StringLess(b, a) && a != b;
    assert forall a, b :: StringLess(a, b) || a == b || StringLess(b, a);
  }

  lemma LabelsLessIsOrder()
    ensures StrictOrder(LabelsLess)
  {
    LabelLessIsOrder();
    forall a, b ensures LabelsLess(a, b) || a == b || LabelsLess(b, a)
                ensures LabelsLess(a, b) ==> !LabelsLess(b, a) && a != b
    {
      LexTotal(LabelLess, a, b);
    }
    forall a, b, c | LabelsLess(a, b) && LabelsLess(b, c) ensures LabelsLess(a, c) {
      LexTransitive(LabelLess, a, b, c);
    }
  }

  /** Every occurrence of one character replaced by a string. */
  function Replace(s: string, c: char, sub: string): string {
    if s == [] then [] else (if s[0] == c then sub else [s[0]]) + Replace(s[1..], c, sub)
  }

  function Escape(value: string): string {
    Replace(Replace(Replace(value, '\\', "\\\\"), '\"', "\\\""), '\n', "\\n")
  }

  function EscapeChar(c: char): string {
    if c == '\\' then "\\\\" else if c == '\"' then "\\\"" else if c == '\n' then "\\n" else [c]
  }

  lemma Assoc(x: string, y: string, z: string)
    ensures (x + y) + z == x + (y + z)
  {
  }

  lemma ReplaceStep(s: string, rest: string, c: char, sub: string)
    requires s != []
    ensures Replace(s, c, sub) == (if s[0] == c then sub else [s[0]]) + Replace(s[1..], c, sub)
    ensures Replace(s + rest, c, sub) == (if s[0] == c then sub else [s[0]]) + Replace(s[1..] + rest, c, sub)
  {
    assert (s + rest)[1..] == s[1..] + rest;
  }

  lemma {:induction false} ReplaceConcat(a: string, b: string, c: char, sub: string)
    ensures Replace(a + b, c, sub) == Replace(a, c, sub) + Replace(b, c, sub)
  {
    if a == [] {
      assert a + b == b;
    } else {
      hide Replace;
      ReplaceStep(a, b, c, sub);
      ReplaceConcat(a[1..], b, c, sub);
      Assoc(if a[0] == c then sub else [a[0]], Replace(a[1..], c, sub), Replace(b, c, sub));
    }
  }

  lemma ReplaceOne(x: char, c: char, sub: string)
    ensures Replace([x], c, sub) == if x == c then sub else [x]
  {
    assert [x][1..] == [];
  }

  lemma EscapeOne(x: char)
    ensures Escape([x]) == EscapeChar(x)
  {
    ReplaceOne(x, '\\', "\\\\");
    if x == '\\' {
      assert "\\\\" == ['\\'] + ['\\'];
      ReplaceConcat(['\\'], ['\\'], '\"', "\\\"");
      ReplaceOne('\\', '\"', "\\\"");
      ReplaceConcat(['\\'], ['\\'], '\n', "\\n");
      ReplaceOne('\\', '\n', "\\n");
    } else {
      ReplaceOne(x, '\"', "\\\"");
      if x == '\"' {
        assert "\\\"" == ['\\'] + ['\"'];
        ReplaceConcat(['\\'], ['\"'], '\n', "\\n");
        ReplaceOne('\\', '\n', "\\n");
        ReplaceOne('\"', '\n', "\\n");
      } else {
        ReplaceOne(x, '\n', "\\n");
      }
    }
  }

  /** The three passes escape every character exactly once: no pass touches what another has written. */
  lemma EscapeStep(v: string)
    requires v != []
    ensures Escape(v) == EscapeChar(v[0]) + Escape(v[1..])
  {
    var x, t := [v[0]], v[1..];
    assert v == x + t;
    ReplaceConcat(x, t, '\\', "\\\\");
    ReplaceConcat(Replace(x, '\\', "\\\\"), Replace(t, '\\', "\\\\"), '\"', "\\\"");
    ReplaceConcat(Replace(Replace(x, '\\', "\\\\"), '\"', "\\\""),
                  Replace(Replace(t, '\\', "\\\\"), '\"', "\\\""), '\n', "\\n");
    EscapeOne(v[0]);
  }

  /** The character an escape sequence stands for, in a label value. */
  function Unescaped(c: char): Option<char> {
    if c == 'n' then Some('\n') else if c == '\\' || c == '\"' then Some(c) else None
  }

  function Before(c: char, r: Option<(string, string)>): (p: Option<(string, string)>)
    ensures p.Some? <==> r.Some?
    ensures r.Some? ==> p.value == ([c] + r.value.0, r.value.1)
  {
    if r.Some? then Some(([c] + r.value.0, r.value.1)) else None
  }

  /** Reads a label value after its opening quote: the value, and what follows the closing quote. */
  function ParseQuoted(s: string): (r: Option<(string, string)>)
    ensures r.Some? ==> |r.value.1| < |s|
  {
    if s == [] || s[0] == '\n' then None
    else if s[0] == '\"' then Some(([], s[1..]))
    else if s[0] != '\\' then Before(s[0], ParseQuoted(s[1..]))
    else if |s| > 1 && Unescaped(s[1]).Some? then Before(Unescaped(s[1]).value, ParseQuoted(s[2..]))
    else None
  }

  function Quoted(v: string, rest: string): string {
    Escape(v) + "\"" + rest
  }

  lemma QuotedStep(v: string, rest: string)
    requires v != []
    ensures Quoted(v, rest) == EscapeChar(v[0]) + Quoted(v[1..], rest)
  {
    EscapeStep(v);
  }

  lemma {:induction false} QuotedReads(v: string, rest: string)
    ensures ParseQuoted(Quoted(v, rest)) == Some((v, rest))
  {
    if v == [] {
      assert Quoted(v, rest) == "\"" + rest;
      assert Quoted(v, rest)[1..] == rest;
    } else {
      QuotedStep(v, rest);
      QuotedReads(v[1..], rest);
      hide Quoted;
      var s, e := Quoted(v, rest), EscapeChar(v[0]);
      assert s[|e|..] == Quoted(v[1..], rest);
      assert [v[0]] + v[1..] == v;
    }
  }

  lemma {:induction false} OnlyQuotedReads(s: string)
    requires ParseQuoted(s).Some?
    ensures s == Quoted(ParseQuoted(s).value.0, ParseQuoted(s).value.1)
  {
    var (v, rest) := ParseQuoted(s).value;
    if s[0] == '\"' {
      assert s == "\"" + s[1..];
    } else {
      QuotedStep(v, rest);
      if s[0] != '\\' {
        OnlyQuotedReads(s[1..]);
        assert v[1..] == ParseQuoted(s[1..]).value.0;
        assert s == [s[0]] + s[1..];
      } else {
        OnlyQuotedReads(s[2..]);
        assert v[1..] == ParseQuoted(s[2..]).value.0;
        assert s == [s[0], s[1]] + s[2..];
      }
    }
  }

  /** The printer and the parser of label values are inverse to each other: a text reads as the value v
      followed by rest exactly when it is what v prints as, followed by rest. */
  lemma QuotedIff(s: string, v: string, rest: string)
    ensures ParseQuoted(s) == Some((v, rest)) <==> s == Escape(v) + "\"" + rest
  {
    QuotedReads(v, rest);
    if ParseQuoted(s) == Some((v, rest)) {
      OnlyQuotedReads(s);
    }
  }

  // ----- lines

  datatype Kind = Counter | Gauge

  datatype Line =
    | Help(name: string, text: string)
    | Type(name: string, kind: Kind)
    | Reading(name: string, labels: Labels, value: string)

  function KindText(k: Kind): string {
    if k.Counter? then "counter" else "gauge"
  }

  function PrintLabel(l: Label): string {
    l.key + "=\"" + Escape(l.value) + "\""
  }

  function PrintLabels(labels: Labels): string {
    if labels == [] then ""
    else if |labels| == 1 then PrintLabel(labels[0])
    else PrintLabel(labels[0]) + "," + PrintLabels(labels[1..])
  }

  function PrintLine(l: Line): string {
    match l
    case Help(name, text) => "# HELP " + name + " " + text
    case Type(name, kind) => "# TYPE " + name + " " + KindText(kind)
    case Reading(name, labels, value) =>
      if labels != [] then name + "{" + PrintLabels(labels) + "} " + value else name + " " + value
  }

  /** The texts joined by line feeds. */
  function Join(texts: seq<string>): string {
    if texts == [] then "" else if |texts| == 1 then texts[0] else texts[0] + "\n" + Join(texts[1..])
  }

  function Printed(lines: seq<Line>): (r: seq<string>)
    ensures |r| == |lines|
  {
    seq(|lines|, i requires 0 <= i < |lines| => PrintLine(lines[i]))
  }

  function PrintText(lines: seq<Line>): string {
    Join(Printed(lines)) + "\n"
  }

  // ----- reading them back

  /** The position of the first of the given characters, or the length. */
  function Find(s: string, stops: set<char>): (i: nat)
    ensures i <= |s|
    ensures i < |s| ==> s[i] in stops
    ensures forall j :: 0 <= j < i ==> s[j] !in stops
  {
    if s == [] || s[0] in stops then 0 else 1 + Find(s[1..], stops)
  }

  predicate AsciiLetter(c: char) {
    'a' <= c <= 'z' || 'A' <= c <= 'Z'
  }

  /** Metric names: [a-zA-Z_:][a-zA-Z0-9_:]*. */
  predicate InConvention(name: string) {
    && name != []
    && !('0' <= name[0] <= '9')
    && forall i :: 0 <= i < |name| ==>
         AsciiLetter(name[i]) || '0' <= name[i] <= '9' || name[i] == '_' || name[i] == ':'
  }

  /** Label names: [a-zA-Z_][a-zA-Z0-9_]*. */
  predicate IsLabelName(name: string) {
    InConvention(name) && ':' !in name
  }

  predicate IsBlank(c: char) {
    c == ' ' || c == '\t'
  }

  function StripLeft(s: string): string {
    if s != [] && IsBlank(s[0]) then StripLeft(s[1..]) else s
  }

  function StripRight(s: string): string {
    if s != [] && IsBlank(s[|s| - 1]) then StripRight(s[..|s| - 1]) else s
  }

  /** Without the blanks and tabs around it, which the format ignores. */
  function Strip(s: string): string {
    StripRight(StripLeft(s))
  }

  /** Labels up to the closing brace, and what follows it. */
  function ParseLabels(s: string): Option<(Labels, string)>
    decreases |s|
  {
    var i := Find(s, {'='});
    if i + 1 < |s| && s[i + 1] == '\"' && IsLabelName(s[..i]) then
      var quoted := ParseQuoted(s[i + 2..]);
      if quoted.None? || quoted.value.1 == [] then None
      else
        var head, rest := Entry(s[..i], quoted.value.0), quoted.value.1;
        if rest[0] == '}' then Some(([head], rest[1..]))
        else if rest[0] == ',' then
          var more := ParseLabels(rest[1..]);
          if more.Some? then Some(([head] + more.value.0, more.value.1)) else None
        else None
    else None
  }

  /** The documentation of a metric: only a backslash and a line feed are escaped there. */
  function UnescapeHelp(s: string): Option<string> {
    if s == [] then Some([])
    else if s[0] != '\\' then
      var r := UnescapeHelp(s[1..]);
      if r.Some? then Some([s[0]] + r.value) else None
    else if |s| > 1 && (s[1] == '\\' || s[1] == 'n') then
      var r := UnescapeHelp(s[2..]);
      if r.Some? then Some([if s[1] == 'n' then '\n' else '\\'] + r.value) else None
    else None
  }

  predicate StartsWith(s: string, prefix: string) {
    |prefix| <= |s| && s[..|prefix|] == prefix
  }

  function ParseHelp(s: string): Option<Line> {
    var i := Find(s, {' '});
    if i == |s| || !InConvention(s[..i]) then None
    else
      var text := UnescapeHelp(Strip(s[i + 1..]));
      if text.Some? then Some(Help(s[..i], text.value)) else None
  }

  function ParseType(s: string): Option<Line> {
    var i := Find(s, {' '});
    if i == |s| || !InConvention(s[..i]) then None
    else if s[i + 1..] == "counter" then Some(Type(s[..i], Counter))
    else if s[i + 1..] == "gauge" then Some(Type(s[..i], Gauge))
    else None
  }

  /** A value with nothing after it; a blank would announce a timestamp, which is never printed. */
  function ParseValue(name: string, labels: Labels, s: string): Option<Line> {
    if s != [] && ' ' !in s && '\t' !in s then Some(Reading(name, labels, s)) else None
  }

  function ParseReading(s: string): Option<Line> {
    var i := Find(s, {' ', '{'});
    if i == |s| || !InConvention(s[..i]) then None
    else if s[i] == ' ' then ParseValue(s[..i], [], s[i + 1..])
    else
      var labels := ParseLabels(s[i + 1..]);
      if labels.None? || labels.value.1 == [] || labels.value.1[0] != ' ' then None
      else ParseValue(s[..i], labels.value.0, labels.value.1[1..])
  }

  function ParseLine(s: string): Option<Line> {
    if StartsWith(s, "# HELP ") then ParseHelp(s[7..])
    else if StartsWith(s, "# TYPE ") then ParseType(s[7..])
    else ParseReading(s)
  }

  function AndThen(first: Option<Line>, rest: Option<seq<Line>>): (r: Option<seq<Line>>)
    ensures r.Some? <==> first.Some? && rest.Some?
    ensures r.Some? ==> r.value == [first.value] + rest.value
  {
    if first.Some? && rest.Some? then Some([first.value] + rest.value) else None
  }

  /** Every line ends with a line feed, and an empty line is skipped. */
  function ParseText(s: string): Option<seq<Line>>
    decreases |s|
  {
    if s == [] then Some([])
    else
      var i := Find(s, {'\n'});
      if i == |s| then None
      else if i == 0 then ParseText(s[1..])
      else AndThen(ParseLine(s[..i]), ParseText(s[i + 1..]))
  }

  // ----- the round trip of one line

  predicate Free(s: string, chars: set<char>) {
    forall i :: 0 <= i < |s| ==> s[i] !in chars
  }

  /** What the printer is always given: a metric name without blank, brace or comment sign and a value
      text without blank or tab, neither with line feeds. */
  predicate Printable(l: Line) {
    && l.name != [] && Free(l.name, {' ', '{', '#', '\n'})
    && (l.Reading? ==> l.value != [] && Free(l.value, {' ', '\t', '\n'}))
  }

  predicate PlainNames(labels: Labels) {
    forall i :: 0 <= i < |labels| ==> IsLabelName(labels[i].key)
  }

  /** A documentation text without backslash or line feed, and without blanks around it. */
  predicate PlainHelp(text: string) {
    Free(text, {'\\', '\n'}) && (text != [] ==> !IsBlank(text[0]) && !IsBlank(text[|text| - 1]))
  }

  /** What nothing checks fully: the format's own rules for names and documentation texts. */
  predicate Plain(l: Line) {
    && InConvention(l.name)
    && (l.Help? ==> PlainHelp(l.text))
    && (l.Reading? ==> PlainNames(l.labels))
  }

  lemma LabelNameIsFree(name: string)
    requires IsLabelName(name)
    ensures Free(name, {'=', '\n'})
  {
  }

  lemma {:induction false} FindAt(a: string, c: char, b: string, stops: set<char>)
    requires Free(a, stops) && c in stops
    ensures Find(a + [c] + b, stops) == |a|
    ensures (a + [c] + b)[..|a|] == a && (a + [c] + b)[|a| + 1..] == b
  {
    if a != [] {
      FindAt(a[1..], c, b, stops);
      assert (a + [c] + b)[1..] == a[1..] + [c] + b;
    }
  }

  lemma Regroup(a: string, b: string, c: string, d: string, e: string)
    ensures a + b + c + d + e == a + (b + (c + d + e))
  {
    Assoc(a + b, c, d);
    Assoc(a + b, c + d, e);
    Assoc(a, b, c + d + e);
  }

  lemma LabelText(l: Label, rest: string)
    ensures PrintLabel(l) + rest == l.key + ['='] + (['\"'] + Quoted(l.value, rest))
  {
    var k, e := l.key, Escape(l.value);
    assert PrintLabel(l) == k + "=\"" + e + "\"";
    assert Quoted(l.value, rest) == e + "\"" + rest;
    hide *;
    assert "=\"" == ['='] + ['\"'] && "\"" == ['\"'];
    Assoc(k, ['='], ['\"']);
    Regroup(k + ['='], ['\"'], e, ['\"'], rest);
  }

  lemma LabelsText(labels: Labels, rest: string)
    requires labels != []
    ensures |labels| == 1 ==> PrintLabels(labels) + "}" + rest == PrintLabel(labels[0]) + ("}" + rest)
    ensures |labels| > 1 ==>
      PrintLabels(labels) + "}" + rest == PrintLabel(labels[0]) + ("," + (PrintLabels(labels[1..]) + "}" + rest))
  {
    hide PrintLabel;
    if |labels| == 1 {
      Assoc(PrintLabel(labels[0]), "}", rest);
    } else {
      Regroup(PrintLabel(labels[0]), ",", PrintLabels(labels[1..]), "}", rest);
    }
  }

  lemma LabelReads(l: Label, rest: string)
    requires Free(l.key, {'=', '\n'})
    ensures var s, i := PrintLabel(l) + rest, |l.key|;
      && Find(s, {'='}) == i && i + 1 < |s| && s[i + 1] == '\"' && s[..i] == l.key
      && ParseQuoted(s[i + 2..]) == Some((l.value, rest))
  {
    hide *;
    var s, tail := PrintLabel(l) + rest, ['\"'] + Quoted(l.value, rest);
    LabelText(l, rest);
    FreeLess(l.key, {'=', '\n'}, {'='});
    FindAt(l.key, '=', tail, {'='});
    QuotedReads(l.value, rest);
    assert s[|l.key| + 2..] == tail[1..] == Quoted(l.value, rest);
  }

  lemma FreeLess(s: string, chars: set<char>, fewer: set<char>)
    requires Free(s, chars) && fewer <= chars
    ensures Free(s, fewer)
  {
  }

  lemma FirstLabelReads(s: string, l: Label, rest: string)
    requires IsLabelName(l.key) && s == PrintLabel(l) + rest && rest != []
    ensures rest[0] == '}' ==> ParseLabels(s) == Some(([l], rest[1..]))
    ensures rest[0] == ',' && ParseLabels(rest[1..]).Some?
        ==> ParseLabels(s) == Some(([l] + ParseLabels(rest[1..]).value.0, ParseLabels(rest[1..]).value.1))
  {
    LabelNameIsFree(l.key);
    hide Find, ParseQuoted, PrintLabel, IsLabelName;
    LabelReads(l, rest);
    assert Entry(l.key, l.value) == l;
  }

  lemma {:induction false} LabelsRead(labels: Labels, rest: string)
    requires labels != [] && PlainNames(labels)
    ensures ParseLabels(PrintLabels(labels) + "}" + rest) == Some((labels, rest))
    decreases |labels|
  {
    assert IsLabelName(labels[0].key) && PlainNames(labels[1..]);
    hide *;
    LabelsText(labels, rest);
    var s := PrintLabels(labels) + "}" + rest;
    if |labels| == 1 {
      assert ("}" + rest)[1..] == rest;
      FirstLabelReads(s, labels[0], "}" + rest);
      assert labels == [labels[0]];
    } else {
      var after := PrintLabels(labels[1..]) + "}" + rest;
      assert ("," + after)[1..] == after;
      LabelsRead(labels[1..], rest);
      FirstLabelReads(s, labels[0], "," + after);
      assert labels == [labels[0]] + labels[1..];
    }
  }

  lemma TypeReads(name: string, kind: Kind)
    requires Printable(Type(name, kind)) && InConvention(name)
    ensures ParseLine(PrintLine(Type(name, kind))) == Some(Type(name, kind))
  {
    hide InConvention;
    var s := "# TYPE " + name + " " + KindText(kind);
    Regroup("# TYPE ", name, " ", KindText(kind), "");
    var t := name + [' '] + KindText(kind);
    assert " " == [' '] && KindText(kind) + "" == KindText(kind);
    assert s == "# TYPE " + t;
    assert s[..7] == "# TYPE " && s[7..] == t;
    FreeLess(name, {' ', '{', '#', '\n'}, {' '});
    FindAt(name, ' ', KindText(kind), {' '});
    assert s[2] == 'T';
  }

  /** A documentation line, whatever its text is. */
  lemma HelpLineReads(name: string, s: string)
    requires Printable(Help(name, s))
    ensures ParseLine(PrintLine(Help(name, s)))
         == if InConvention(name) && UnescapeHelp(Strip(s)).Some? then Some(Help(name, UnescapeHelp(Strip(s)).value))
            else None
  {
    hide InConvention, Strip;
    var all := "# HELP " + name + " " + s;
    Regroup("# HELP ", name, " ", s, "");
    var t := name + [' '] + s;
    assert " " == [' '] && s + "" == s;
    assert all == "# HELP " + t;
    assert all[..7] == "# HELP " && all[7..] == t;
    FreeLess(name, {' ', '{', '#', '\n'}, {' '});
    FindAt(name, ' ', s, {' '});
    hide UnescapeHelp;
  }

  lemma StartsLike(s: string, prefix: string)
    requires StartsWith(s, prefix) && prefix != []
    ensures s != [] && s[0] == prefix[0]
  {
    assert s[..|prefix|][0] == s[0];
  }

  lemma NoComment(s: string)
    requires s != [] && s[0] != '#'
    ensures ParseLine(s) == ParseReading(s)
  {
    hide ParseReading, ParseHelp, ParseType, StartsWith;
    if StartsWith(s, "# HELP ") {
      StartsLike(s, "# HELP ");
    }
    if StartsWith(s, "# TYPE ") {
      StartsLike(s, "# TYPE ");
    }
  }

  lemma ReadingSplits(name: string, c: char, t: string)
    requires name != [] && Free(name, {' ', '{', '#', '\n'}) && InConvention(name) && c in {' ', '{'}
    ensures ParseLine(name + [c] + t) == ParseReading(name + [c] + t)
    ensures c == ' ' ==> ParseReading(name + [c] + t) == ParseValue(name, [], t)
    ensures c == '{' && ParseLabels(t).Some? && ParseLabels(t).value.1 != [] && ParseLabels(t).value.1[0] == ' '
        ==> ParseReading(name + [c] + t) == ParseValue(name, ParseLabels(t).value.0, ParseLabels(t).value.1[1..])
  {
    hide ParseLabels, ParseValue, ParseLine, InConvention;
    FreeLess(name, {' ', '{', '#', '\n'}, {' ', '{'});
    FindAt(name, c, t, {' ', '{'});
    NoComment(name + [c] + t);
  }

  lemma LabelledText(name: string, labels: Labels, value: string)
    requires labels != []
    ensures PrintLine(Reading(name, labels, value)) == name + ['{'] + (PrintLabels(labels) + "}" + (" " + value))
  {
    hide PrintLabels;
    var p := PrintLabels(labels);
    assert PrintLine(Reading(name, labels, value)) == name + "{" + p + "} " + value;
    hide *;
    assert "{" == ['{'] && "} " == "}" + " ";
    Assoc(name + ['{'] + p, "}" + " ", value);
    Assoc("}", " ", value);
    Assoc(name + ['{'], p, "}" + (" " + value));
    Assoc(p, "}", " " + value);
  }

  lemma ReadingReads(l: Line)
    requires l.Reading? && Printable(l) && Plain(l)
    ensures ParseLine(PrintLine(l)) == Some(l)
  {
    hide PrintLabels, ParseLabels, ParseLine, ParseReading, InConvention;
    if l.labels == [] {
      assert " " == [' '];
      ReadingSplits(l.name, ' ', l.value);
    } else {
      LabelsRead(l.labels, " " + l.value);
      LabelledText(l.name, l.labels, l.value);
      hide PrintLine;
      assert (" " + l.value)[1..] == l.value;
      ReadingSplits(l.name, '{', PrintLabels(l.labels) + "}" + (" " + l.value));
    }
  }

  // ----- the round trip of a text

  lemma FreeConcat(a: string, b: string, chars: set<char>)
    ensures Free(a + b, chars) <==> Free(a, chars) && Free(b, chars)
  {
    assert forall i :: 0 <= i < |a| ==> (a + b)[i] == a[i];
    assert forall i :: 0 <= i < |b| ==> (a + b)[|a| + i] == b[i];
  }

  lemma {:induction false} EscapeOneLine(v: string)
    ensures Free(Escape(v), {'\n'})
  {
    if v != [] {
      EscapeStep(v);
      EscapeOneLine(v[1..]);
      hide Escape;
      FreeConcat(EscapeChar(v[0]), Escape(v[1..]), {'\n'});
    }
  }

  lemma {:induction false} LabelsOneLine(labels: Labels)
    requires PlainNames(labels)
    ensures Free(PrintLabels(labels), {'\n'})
  {
    if labels != [] {
      var k, e := labels[0].key, Escape(labels[0].value);
      EscapeOneLine(labels[0].value);
      LabelsOneLine(labels[1..]);
      LabelNameIsFree(k);
      hide Escape, IsLabelName;
      FreeLess(k, {'=', '\n'}, {'\n'});
      FreeConcat(k, "=\"", {'\n'});
      FreeConcat(k + "=\"", e, {'\n'});
      FreeConcat(k + "=\"" + e, "\"", {'\n'});
      FreeConcat(PrintLabel(labels[0]), ",", {'\n'});
      FreeConcat(PrintLabel(labels[0]) + ",", PrintLabels(labels[1..]), {'\n'});
    }
  }

  lemma LineOneLine(l: Line)
    requires Printable(l) && Plain(l)
    ensures Free(PrintLine(l), {'\n'}) && PrintLine(l) != []
  {
    hide PrintLabels, InConvention, IsBlank;
    FreeLess(l.name, {' ', '{', '#', '\n'}, {'\n'});
    match l
    case Help(name, text) =>
      FreeLess(text, {'\\', '\n'}, {'\n'});
      FreeConcat("# HELP ", name, {'\n'});
      FreeConcat("# HELP " + name, " ", {'\n'});
      FreeConcat("# HELP " + name + " ", text, {'\n'});
    case Type(name, kind) =>
      FreeConcat("# TYPE ", name, {'\n'});
      FreeConcat("# TYPE " + name, " ", {'\n'});
      FreeConcat("# TYPE " + name + " ", KindText(kind), {'\n'});
    case Reading(name, labels, value) =>
      FreeLess(value, {' ', '\t', '\n'}, {'\n'});
      LabelsOneLine(labels);
      FreeConcat(name, "{", {'\n'});
      FreeConcat(name + "{", PrintLabels(labels), {'\n'});
      FreeConcat(name + "{" + PrintLabels(labels), "} ", {'\n'});
      FreeConcat(name + "{" + PrintLabels(labels) + "} ", value, {'\n'});
      FreeConcat(name, " ", {'\n'});
      FreeConcat(name + " ", value, {'\n'});
  }

  lemma {:induction false} PlainHelpReads(s: string)
    requires Free(s, {'\\'})
    ensures UnescapeHelp(s) == Some(s)
  {
    if s != [] {
      PlainHelpReads(s[1..]);
      assert s == [s[0]] + s[1..];
    }
  }

  lemma {:induction false} UnescapeShortens(s: string)
    requires UnescapeHelp(s).Some?
    ensures |UnescapeHelp(s).value| <= |s|
    ensures !Free(s, {'\\'}) ==> |UnescapeHelp(s).value| < |s|
  {
    if s != [] {
      UnescapeShortens(if s[0] != '\\' then s[1..] else s[2..]);
    }
  }

  lemma {:induction false} StripLeftIs(s: string)
    ensures |StripLeft(s)| <= |s| && (StripLeft(s) == s || |StripLeft(s)| < |s|)
    ensures StripLeft(s) == s <==> s == [] || !IsBlank(s[0])
  {
    if s != [] && IsBlank(s[0]) {
      StripLeftIs(s[1..]);
    }
  }

  lemma {:induction false} StripRightIs(s: string)
    ensures |StripRight(s)| <= |s| && (StripRight(s) == s || |StripRight(s)| < |s|)
    ensures StripRight(s) == s <==> s == [] || !IsBlank(s[|s| - 1])
  {
    if s != [] && IsBlank(s[|s| - 1]) {
      StripRightIs(s[..|s| - 1]);
    }
  }

  /** Stripping shortens a text exactly when there are blanks around it. */
  lemma StripIs(s: string)
    ensures |Strip(s)| <= |s| && (Strip(s) == s || |Strip(s)| < |s|)
    ensures Strip(s) == s <==> (s != [] ==> !IsBlank(s[0]) && !IsBlank(s[|s| - 1]))
  {
    StripLeftIs(s);
    StripRightIs(StripLeft(s));
    hide StripLeft, StripRight, IsBlank;
  }

  lemma LineReads(l: Line)
    requires Printable(l) && Plain(l)
    ensures ParseLine(PrintLine(l)) == Some(l)
  {
    hide ParseLine, PrintLine, InConvention;
    match l
    case Help(name, text) =>
      FreeLess(text, {'\\', '\n'}, {'\\'});
      StripIs(text);
      PlainHelpReads(text);
      HelpLineReads(name, text);
    case Type(name, kind) =>
      TypeReads(name, kind);
    case Reading(_, _, _) =>
      ReadingReads(l);
  }

  lemma TextSplits(line: string, after: string)
    requires line != [] && Free(line, {'\n'})
    ensures ParseText(line + ['\n'] + after) == AndThen(ParseLine(line), ParseText(after))
  {
    hide ParseLine;
    FindAt(line, '\n', after, {'\n'});
  }

  /** The first line of such a text, read: the documentation up to the first line feed, stripped. */
  lemma HelpFirstLine(name: string, text: string, after: string) returns (k: nat)
    requires Printable(Help(name, text))
    ensures k <= |text| && (k == |text| <==> Free(text, {'\n'}))
    ensures var r := ParseText(PrintLine(Help(name, text)) + ['\n'] + after);
      r.Some? ==>
        && r.value != [] && UnescapeHelp(Strip(text[..k])).Some?
        && r.value[0] == Help(name, UnescapeHelp(Strip(text[..k])).value)
  {
    k := Find(text, {'\n'});
    var line, rest := PrintLine(Help(name, text[..k])), if k == |text| then after else text[k + 1..] + ['\n'] + after;
    assert PrintLine(Help(name, text)) + ['\n'] + after == line + ['\n'] + rest by {
      HelpCut(name, text, k, after);
    }
    HelpHead(name, text[..k]);
    hide PrintLine, ParseLine, Strip, UnescapeHelp, InConvention;
    TextSplits(line, rest);
    HelpLineReads(name, text[..k]);
  }

  /** A documentation text with a line feed, a backslash or blanks around it is read back as something
      shorter. */
  lemma BadHelpMisreads(name: string, text: string, after: string)
    requires Printable(Help(name, text)) && !PlainHelp(text)
    ensures var r := ParseText(PrintLine(Help(name, text)) + ['\n'] + after);
      r.Some? ==> r.value != [] && r.value[0] != Help(name, text)
  {
    hide ParseText, PrintLine, Strip, UnescapeHelp, IsBlank;
    var k := HelpFirstLine(name, text, after);
    var raw := Strip(text[..k]);
    StripIs(text[..k]);
    if UnescapeHelp(raw).Some? {
      UnescapeShortens(raw);
      if k == |text| {
        assert text[..k] == text;
        NotBoth(text);
      }
    }
  }

  lemma NotBoth(text: string)
    ensures Free(text, {'\\', '\n'}) <==> Free(text, {'\\'}) && Free(text, {'\n'})
  {
  }

  lemma HelpHead(name: string, text: string)
    requires Printable(Help(name, text)) && Free(text, {'\n'})
    ensures Free(PrintLine(Help(name, text)), {'\n'}) && PrintLine(Help(name, text)) != []
  {
    FreeLess(name, {' ', '{', '#', '\n'}, {'\n'});
    FreeConcat("# HELP ", name, {'\n'});
    FreeConcat("# HELP " + name, " ", {'\n'});
    FreeConcat("# HELP " + name + " ", text, {'\n'});
  }

  lemma HelpCut(name: string, text: string, k: nat, after: string)
    requires k <= |text| && (k < |text| ==> text[k] == '\n')
    ensures PrintLine(Help(name, text)) + ['\n'] + after
         == PrintLine(Help(name, text[..k])) + ['\n'] + if k == |text| then after else text[k + 1..] + ['\n'] + after
  {
    if k == |text| {
      assert text[..k] == text;
    } else {
      var head, a, b := "# HELP " + name + " ", text[..k], text[k + 1..];
      assert text == a + ['\n'] + b;
      assert PrintLine(Help(name, text)) == head + text && PrintLine(Help(name, a)) == head + a;
      hide *;
      Assoc(head, a + ['\n'], b);
      Assoc(head, a, ['\n']);
      Assoc(head + a + ['\n'], b, ['\n']);
      Assoc(head + a + ['\n'], b + ['\n'], after);
    }
  }

  lemma TextSteps(lines: seq<Line>)
    requires lines != []
    ensures PrintText(lines)
         == PrintLine(lines[0]) + ['\n'] + if |lines| == 1 then "" else PrintText(lines[1..])
  {
    hide PrintLine;
    assert Printed(lines)[1..] == Printed(lines[1..]);
    if |lines| > 1 {
      Regroup(PrintLine(lines[0]), "\n", Join(Printed(lines[1..])), "\n", "");
    }
  }

  /** Whatever is read has label names and a metric name of the format. */
  lemma {:induction false} LabelsReadPlain(s: string)
    requires ParseLabels(s).Some?
    ensures PlainNames(ParseLabels(s).value.0)
    decreases |s|
  {
    var i := Find(s, {'='});
    var rest := ParseQuoted(s[i + 2..]).value.1;
    hide ParseQuoted, IsLabelName, Find;
    if rest[0] == ',' {
      LabelsReadPlain(rest[1..]);
    }
  }

  lemma LineReadPlain(s: string)
    requires ParseLine(s).Some?
    ensures InConvention(ParseLine(s).value.name)
    ensures ParseLine(s).value.Reading? ==> PlainNames(ParseLine(s).value.labels)
  {
    hide InConvention, UnescapeHelp, ParseLabels, Strip, StartsWith, PlainNames;
    if !StartsWith(s, "# HELP ") && !StartsWith(s, "# TYPE ") {
      var i := Find(s, {' ', '{'});
      if s[i] == '{' {
        LabelsReadPlain(s[i + 1..]);
      } else {
        NoLabels();
      }
    }
  }

  lemma NoLabels()
    ensures PlainNames([])
  {
  }

  /** A line with a name outside the format is read back as something else. */
  lemma BadNamesMisread(l: Line, after: string)
    requires Printable(l) && (!InConvention(l.name) || (l.Reading? && !PlainNames(l.labels)))
    ensures var r := ParseText(PrintLine(l) + ['\n'] + after);
      r.Some? ==> r.value != [] && r.value[0] != l
  {
    var s := PrintLine(l) + ['\n'] + after;
    assert s[0] != '\n' && s[|PrintLine(l)|] == '\n' by { NoEmptyLine(l); }
    hide PrintLine, ParseLine, InConvention, PlainNames;
    var i := Find(s, {'\n'});
    if ParseText(s).Some? {
      LineReadPlain(s[..i]);
    }
  }

  lemma NoEmptyLine(l: Line)
    requires Printable(l)
    ensures PrintLine(l) != [] && PrintLine(l)[0] != '\n'
  {
    hide PrintLabels;
    if l.Reading? {
      assert PrintLine(l)[0] == l.name[0];
    } else {
      assert PrintLine(l)[0] == '#';
    }
  }

  lemma PlainLineReads(l: Line, after: string)
    requires Printable(l) && Plain(l)
    ensures ParseText(PrintLine(l) + ['\n'] + after) == AndThen(Some(l), ParseText(after))
  {
    hide *;
    LineOneLine(l);
    LineReads(l);
    TextSplits(PrintLine(l), after);
  }

  lemma OtherLineMisreads(l: Line, after: string)
    requires Printable(l) && !Plain(l)
    ensures var r := ParseText(PrintLine(l) + ['\n'] + after);
      r.Some? ==> r.value != [] && r.value[0] != l
  {
    hide PrintLine, ParseText, InConvention, PlainNames, PlainHelp, Printable;
    if !InConvention(l.name) || (l.Reading? && !PlainNames(l.labels)) {
      BadNamesMisread(l, after);
    } else {
      BadHelpMisreads(l.name, l.text, after);
    }
  }

  /** A printed text reads back as the lines that were printed exactly when every metric and label name is
      one of the format's and no documentation text holds a line feed or a backslash, which the format
      wants escaped there too, or has blanks around it, which it ignores. */
  lemma {:induction false} TextReadsIff(lines: seq<Line>)
    requires forall i :: 0 <= i < |lines| ==> Printable(lines[i])
    ensures ParseText(PrintText(lines)) == Some(lines) <==> forall i :: 0 <= i < |lines| ==> Plain(lines[i])
  {
    if lines == [] {
      assert PrintText(lines) == "\n";
    } else {
      hide PrintText, PrintLine, ParseText, Printable, Plain;
      var l, after := lines[0], if |lines| == 1 then "" else PrintText(lines[1..]);
      TextSteps(lines);
      EmptyReads();
      TextReadsIff(lines[1..]);
      assert lines == [l] + lines[1..];
      if Plain(l) {
        PlainLineReads(l, after);
      } else {
        OtherLineMisreads(l, after);
      }
    }
  }

  lemma EmptyReads()
    ensures ParseText("") == Some([])
  {
  }
}
