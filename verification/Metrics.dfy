/** src/observability/metrics.ts: histograms against all observations, the keys that tell series apart, and
    label values that can be read back. Sums are exact reals. */
module Metrics {
  import opened Common
  import opened Text
  import opened Sorting

  datatype Label = Label(name: string, value: string)

  /** A JavaScript number. */
  datatype Number = Finite(value: real) | NotFinite

  // ---------------------------------------------------------------------------------------------
  // Names and labels
  // ---------------------------------------------------------------------------------------------

  predicate IsLabelChar(c: char) {
    'a' <= c <= 'z' || 'A' <= c <= 'Z' || '0' <= c <= '9' || c == '_'
  }

  /** Digits, letters and the underscore, by their codes. */
  lemma LabelCharCodes(c: char)
    ensures IsLabelChar(c) <==> var n := c as int; 48 <= n <= 57 || 65 <= n <= 90 || n == 95 || 97 <= n <= 122
  {
  }

  predicate IsNameChar(c: char) {
    IsLabelChar(c) || c == ':'
  }

  function SanitizeMetricName(name: string): (r: string)
    ensures |r| == |name| && forall i :: 0 <= i < |r| ==> r[i] == if IsNameChar(name[i]) then name[i] else '_'
    ensures forall c :: c in r ==> IsNameChar(c)
  {
    if name == "" then "" else [if IsNameChar(name[0]) then name[0] else '_'] + SanitizeMetricName(name[1..])
  }

  function SanitizeLabelName(name: string): (r: string)
    ensures |r| == |name| && forall i :: 0 <= i < |r| ==> r[i] == if IsLabelChar(name[i]) then name[i] else '_'
    ensures forall c :: c in r ==> IsLabelChar(c)
  {
    if name == "" then "" else [if IsLabelChar(name[0]) then name[0] else '_'] + SanitizeLabelName(name[1..])
  }

  ghost predicate HasDistinctNames(labels: seq<Label>) {
    forall i, j :: 0 <= i < j < |labels| ==> labels[i].name != labels[j].name
  }

  /** Assignment to a property: in place when it is there, else at the end. */
  function PutLabel(labels: seq<Label>, entry: Label): (r: seq<Label>)
    ensures forall l :: l in r ==> l == entry || l in labels
    ensures HasDistinctNames(labels) ==>
              HasDistinctNames(r) && forall l :: l in r <==> l == entry || (l in labels && l.name != entry.name)
  {
    if labels == [] then [entry]
    else
      assert labels == [labels[0]] + labels[1..];
      if labels[0].name == entry.name then [entry] + labels[1..]
      else [labels[0]] + PutLabel(labels[1..], entry)
  }

  /** Undefined values are dropped; names that sanitise alike share one label, the last value winning. */
  function NormalizeLabels(entries: seq<(string, Option<string>)>): (r: seq<Label>)
    ensures HasDistinctNames(r)
  {
    if entries == [] then []
    else
      var rest := NormalizeLabels(entries[..|entries| - 1]);
      var (name, value) := entries[|entries| - 1];
      if value.None? then rest else PutLabel(rest, Label(SanitizeLabelName(name), value.value))
  }

  /** The last defined value given under a sanitised name. */
  function LastValue(entries: seq<(string, Option<string>)>, name: string): Option<string> {
    if entries == [] then None
    else
      var last := entries[|entries| - 1];
      if last.1.Some? && SanitizeLabelName(last.0) == name then last.1
      else LastValue(entries[..|entries| - 1], name)
  }

  /** A label is there exactly when it is the last defined value of its sanitised name. */
  lemma {:induction false} NormalizedLabelIff(entries: seq<(string, Option<string>)>, l: Label)
    ensures l in NormalizeLabels(entries) <==> LastValue(entries, l.name) == Some(l.value)
  {
    if entries != [] {
      NormalizedLabelIff(entries[..|entries| - 1], l);
    }
  }

  predicate LabelLe(a: Label, b: Label) {
    StringLe(a.name, b.name)
  }

  function LabelText(l: Label): string {
    l.name + "=" + l.value
  }

  function LabelTexts(labels: seq<Label>): (r: seq<string>)
    ensures |r| == |labels| && forall i :: 0 <= i < |labels| ==> r[i] == LabelText(labels[i])
  {
    if labels == [] then [] else [LabelText(labels[0])] + LabelTexts(labels[1..])
  }

  const NUL: char := '\0'
  const SOH: char := '\U{0001}'

  function LabelKey(labels: seq<Label>): string {
    JoinBy(LabelTexts(Sort(labels, LabelLe)), NUL)
  }

  function SeriesKey(name: string, labels: seq<Label>): string {
    SanitizeMetricName(name) + [SOH] + LabelKey(labels)
  }

  // ---------------------------------------------------------------------------------------------
  // Keys tell series apart
  // ---------------------------------------------------------------------------------------------

  /** What the sanitised names give, and what the values must give. */
  predicate IsClean(l: Label) {
    '=' !in l.name && NUL !in l.name && NUL !in l.value
  }

  predicate AreClean(labels: seq<Label>) {
    forall l :: l in labels ==> IsClean(l)
  }

  lemma LabelOrderIsTotal()
    ensures IsTotalOrder(LabelLe)
  {
    forall a: Label, b: Label ensures LabelLe(a, b) || LabelLe(b, a) {
      StringLeTotal(a.name, b.name);
    }
    forall a: Label, b: Label, c: Label | LabelLe(a, b) && LabelLe(b, c) ensures LabelLe(a, c) {
      StringLeTransitive(a.name, b.name, c.name);
    }
  }

  lemma DistinctNamesDoNotTie(labels: seq<Label>)
    requires HasDistinctNames(labels)
    ensures TiesNothing(LabelLe, labels)
  {
    forall a, b | a in labels && b in labels && LabelLe(a, b) && LabelLe(b, a) ensures a == b {
      StringLeTotal(a.name, b.name);
      var i :| 0 <= i < |labels| && labels[i] == a;
      var j :| 0 <= j < |labels| && labels[j] == b;
    }
  }

  lemma SortKeepsClean(labels: seq<Label>)
    requires AreClean(labels)
    ensures AreClean(Sort(labels, LabelLe)) && multiset(Sort(labels, LabelLe)) == multiset(labels)
  {
    LabelOrderIsTotal();
    SortSorts(labels, LabelLe);
    forall l | l in Sort(labels, LabelLe) ensures l in labels {
      assert l in multiset(Sort(labels, LabelLe));
    }
  }

  lemma LabelTextsAreParts(labels: seq<Label>)
    requires AreClean(labels)
    ensures forall t :: t in LabelTexts(labels) ==> IsPart(t, NUL)
  {
    forall t | t in LabelTexts(labels) ensures IsPart(t, NUL) {
      var i :| 0 <= i < |labels| && LabelTexts(labels)[i] == t;
      assert labels[i] in labels;
    }
  }

  lemma SameTextsSameLabels(a: seq<Label>, b: seq<Label>)
    requires AreClean(a) && AreClean(b) && LabelTexts(a) == LabelTexts(b)
    ensures a == b
  {
    assert |a| == |LabelTexts(a)| == |b|;
    forall i | 0 <= i < |a| ensures a[i] == b[i] {
      assert a[i] in a && b[i] in b;
      assert LabelTexts(a)[i] == LabelTexts(b)[i];
      SplitAtFirst(a[i].name, a[i].value, b[i].name, b[i].value, '=');
    }
  }

  /** Two sets of labels have the same key exactly when they have the same labels, in any order. */
  lemma SameLabelKeyIff(a: seq<Label>, b: seq<Label>)
    requires AreClean(a) && AreClean(b) && HasDistinctNames(a)
    ensures LabelKey(a) == LabelKey(b) <==> multiset(a) == multiset(b)
  {
    var sa, sb := Sort(a, LabelLe), Sort(b, LabelLe);
    SortKeepsClean(a);
    SortKeepsClean(b);
    if LabelKey(a) == LabelKey(b) {
      LabelTextsAreParts(sa);
      LabelTextsAreParts(sb);
      JoinByIsInjective(LabelTexts(sa), LabelTexts(sb), NUL);
      SameTextsSameLabels(sa, sb);
    }
    if multiset(a) == multiset(b) {
      LabelOrderIsTotal();
      DistinctNamesDoNotTie(a);
      SortForgetsOrder(a, b, LabelLe);
    }
  }

  lemma SeriesKeySplits(nameA: string, a: seq<Label>, nameB: string, b: seq<Label>)
    ensures SeriesKey(nameA, a) == SeriesKey(nameB, b) <==>
            SanitizeMetricName(nameA) == SanitizeMetricName(nameB) && LabelKey(a) == LabelKey(b)
  {
    assert SOH !in SanitizeMetricName(nameA) && SOH !in SanitizeMetricName(nameB);
    if SeriesKey(nameA, a) == SeriesKey(nameB, b) {
      SplitAtFirst(SanitizeMetricName(nameA), LabelKey(a), SanitizeMetricName(nameB), LabelKey(b), SOH);
    }
  }

  /** A series key belongs to one sanitised name and one set of labels. */
  lemma SameSeriesKeyIff(nameA: string, a: seq<Label>, nameB: string, b: seq<Label>)
    requires AreClean(a) && AreClean(b) && HasDistinctNames(a)
    ensures SeriesKey(nameA, a) == SeriesKey(nameB, b) <==>
            SanitizeMetricName(nameA) == SanitizeMetricName(nameB) && multiset(a) == multiset(b)
  {
    SeriesKeySplits(nameA, a, nameB, b);
    SameLabelKeyIff(a, b);
  }

  /** No value handed in holds a NUL. */
  predicate HoldNoNul(entries: seq<(string, Option<string>)>) {
    forall e :: e in entries && e.1.Some? ==> NUL !in e.1.value
  }

  lemma {:induction false} NormalizedAreClean(entries: seq<(string, Option<string>)>)
    requires HoldNoNul(entries)
    ensures AreClean(NormalizeLabels(entries))
  {
    if entries != [] {
      var init, last := entries[..|entries| - 1], entries[|entries| - 1];
      assert last in entries;
      NormalizedAreClean(init);
      assert !IsLabelChar('=') && !IsLabelChar(NUL);
      assert forall c :: c in SanitizeLabelName(last.0) ==> IsLabelChar(c);
    }
  }

  ghost predicate HaveSameLabels(a: seq<Label>, b: seq<Label>) {
    forall l :: l in a <==> l in b
  }

  /** Every sanitised name has the same last value. */
  ghost predicate HaveSameValues(a: seq<(string, Option<string>)>, b: seq<(string, Option<string>)>) {
    forall name :: LastValue(a, name) == LastValue(b, name)
  }

  lemma SameMultisetIff(a: seq<Label>, b: seq<Label>)
    requires HasDistinctNames(a) && HasDistinctNames(b)
    ensures multiset(a) == multiset(b) <==> HaveSameLabels(a, b)
  {
    assert NoDuplicates(a) && NoDuplicates(b);
    forall l ensures l in a <==> multiset(a)[l] > 0 {
    }
    forall l ensures l in b <==> multiset(b)[l] > 0 {
    }
    if HaveSameLabels(a, b) {
      forall l ensures multiset(a)[l] == multiset(b)[l] {
        DistinctCount(a, l);
        DistinctCount(b, l);
      }
      assert multiset(a) == multiset(b);
    }
  }

  lemma SameLabelsSameValue(a: seq<(string, Option<string>)>, b: seq<(string, Option<string>)>, name: string)
    requires HaveSameLabels(NormalizeLabels(a), NormalizeLabels(b))
    ensures LastValue(a, name) == LastValue(b, name)
  {
    var value := LastValue(a, name).OrElse(LastValue(b, name));
    if value.Some? {
      var l := Label(name, value.value);
      NormalizedLabelIff(a, l);
      NormalizedLabelIff(b, l);
      assert l in NormalizeLabels(a) <==> l in NormalizeLabels(b);
    }
  }

  lemma SameValuesSameLabel(a: seq<(string, Option<string>)>, b: seq<(string, Option<string>)>, l: Label)
    requires HaveSameValues(a, b)
    ensures l in NormalizeLabels(a) <==> l in NormalizeLabels(b)
  {
    NormalizedLabelIff(a, l);
    NormalizedLabelIff(b, l);
    assert LastValue(a, l.name) == LastValue(b, l.name);
  }

  lemma SameLabelsIff(a: seq<(string, Option<string>)>, b: seq<(string, Option<string>)>)
    ensures HaveSameLabels(NormalizeLabels(a), NormalizeLabels(b)) <==> HaveSameValues(a, b)
  {
    if HaveSameLabels(NormalizeLabels(a), NormalizeLabels(b)) {
      forall name ensures LastValue(a, name) == LastValue(b, name) {
        SameLabelsSameValue(a, b, name);
      }
    }
    if HaveSameValues(a, b) {
      forall l ensures l in NormalizeLabels(a) <==> l in NormalizeLabels(b) {
        SameValuesSameLabel(a, b, l);
      }
    }
  }

  /** Whatever labels are handed in: two points fall into one series exactly when their sanitised metric names
      agree and every sanitised label name has the same last value. */
  lemma SameSeriesIff(
    nameA: string, a: seq<(string, Option<string>)>, nameB: string, b: seq<(string, Option<string>)>)
    requires HoldNoNul(a) && HoldNoNul(b)
    ensures SeriesKey(nameA, NormalizeLabels(a)) == SeriesKey(nameB, NormalizeLabels(b)) <==>
            SanitizeMetricName(nameA) == SanitizeMetricName(nameB) && HaveSameValues(a, b)
  {
    NormalizedAreClean(a);
    NormalizedAreClean(b);
    SameSeriesKeyIff(nameA, NormalizeLabels(a), nameB, NormalizeLabels(b));
    SameMultisetIff(NormalizeLabels(a), NormalizeLabels(b));
    SameLabelsIff(a, b);
  }

  /** Without the condition on values two different label sets share a key. */
  lemma NulInValueCollides()
    ensures var a := [Label("a", "1" + [NUL] + "b=2")];
            var b := [Label("a", "1"), Label("b", "2")];
            multiset(a) != multiset(b) && SeriesKey("m", a) == SeriesKey("m", b)
  {
    var a := [Label("a", "1" + [NUL] + "b=2")];
    var l, m := Label("a", "1"), Label("b", "2");
    var b := [l, m];
    assert l in multiset(b) && l !in multiset(a) by { assert |a[0].value| == 5; }
    assert b[1..] == [m] && b[1..][1..] == [];
    assert LabelLe(l, m) && Sort([m], LabelLe) == [m];
    assert Sort(b, LabelLe) == b;
    assert a[1..] == [];
    assert Sort(a, LabelLe) == a;
    assert LabelTexts(b) == [LabelText(l), LabelText(m)];
    assert LabelTexts(a) == [LabelText(a[0])];
    assert LabelTexts(b)[1..] == [LabelText(m)];
    assert JoinBy(LabelTexts(b), NUL) == LabelText(l) + [NUL] + LabelText(m);
    assert LabelText(l) + [NUL] + LabelText(m) == LabelText(a[0]);
  }

  // ---------------------------------------------------------------------------------------------
  // Label values in the exposition format
  // ---------------------------------------------------------------------------------------------

  /** `value.replace(/c/g, with)`. */
  function ReplaceAll(s: string, c: char, with: string): string {
    if s == "" then "" else (if s[0] == c then with else [s[0]]) + ReplaceAll(s[1..], c, with)
  }

  function EscapeLabelValue(value: string): string {
    ReplaceAll(ReplaceAll(ReplaceAll(value, '\\', "\\\\"), '\n', "\\n"), '\"', "\\\"")
  }

  function EscapeChar(c: char): string {
    if c == '\\' then "\\\\" else if c == '\n' then "\\n" else if c == '\"' then "\\\"" else [c]
  }

  /** Backslash, line feed and double quote escaped in one pass: section "Text format details" of the
      Prometheus exposition formats, text format 0.0.4. */
  function Escape(value: string): string {
    if value == "" then "" else EscapeChar(value[0]) + Escape(value[1..])
  }

  lemma {:induction false} ReplaceAllConcat(a: string, b: string, c: char, with: string)
    ensures ReplaceAll(a + b, c, with) == ReplaceAll(a, c, with) + ReplaceAll(b, c, with)
  {
    if a == "" {
      assert a + b == b;
    } else {
      assert (a + b)[1..] == a[1..] + b;
      ReplaceAllConcat(a[1..], b, c, with);
    }
  }

  lemma EscapeOneChar(c: char)
    ensures ReplaceAll(ReplaceAll(ReplaceAll([c], '\\', "\\\\"), '\n', "\\n"), '\"', "\\\"") == EscapeChar(c)
  {
    var back, line, quote := "\\\\", "\\n", "\\\"";
    assert [c][1..] == "" && back[1..] == "\\" && line[1..] == "n" && back[1..][1..] == "" && line[1..][1..] == "";
    assert ReplaceAll("\\", '\n', line) == "\\" && ReplaceAll("\\", '\"', quote) == "\\" && ReplaceAll("n", '\"', quote) == "n";
  }

  /** The three passes are one pass: a later pass never touches what an earlier one wrote. */
  lemma {:induction false} ThreePassesAreOne(value: string)
    ensures EscapeLabelValue(value) == Escape(value)
  {
    if value != "" {
      var first, rest := [value[0]], value[1..];
      assert value == first + rest;
      ReplaceAllConcat(first, rest, '\\', "\\\\");
      var f1, r1 := ReplaceAll(first, '\\', "\\\\"), ReplaceAll(rest, '\\', "\\\\");
      ReplaceAllConcat(f1, r1, '\n', "\\n");
      ReplaceAllConcat(ReplaceAll(f1, '\n', "\\n"), ReplaceAll(r1, '\n', "\\n"), '\"', "\\\"");
      EscapeOneChar(value[0]);
      ThreePassesAreOne(rest);
    }
  }

  /** Reads a quoted value up to its closing quote: the value and the text after the quote. */
  function ReadQuoted(text: string): Option<(string, string)> {
    if text == "" || text[0] == '\n' then None
    else if text[0] == '\"' then Some(("", text[1..]))
    else if text[0] != '\\' then Prepend(text[0], ReadQuoted(text[1..]))
    else if |text| < 2 then None
    else if text[1] == '\\' then Prepend('\\', ReadQuoted(text[2..]))
    else if text[1] == 'n' then Prepend('\n', ReadQuoted(text[2..]))
    else if text[1] == '\"' then Prepend('\"', ReadQuoted(text[2..]))
    else None
  }

  function Prepend(c: char, read: Option<(string, string)>): Option<(string, string)> {
    if read.None? then None else Some(([c] + read.value.0, read.value.1))
  }

  /** A rendered value is read back, wherever it stands. */
  lemma {:induction false} QuotedValueReadsBack(value: string, after: string)
    ensures ReadQuoted(EscapeLabelValue(value) + "\"" + after) == Some((value, after))
  {
    ThreePassesAreOne(value);
    if value == "" {
      assert Escape(value) + "\"" + after == "\"" + after;
      assert ("\"" + after)[1..] == after;
    } else {
      var rest := value[1..];
      ThreePassesAreOne(rest);
      QuotedValueReadsBack(rest, after);
      var tail := Escape(rest) + "\"" + after;
      var text := Escape(value) + "\"" + after;
      assert text == EscapeChar(value[0]) + tail;
      assert text[|EscapeChar(value[0])|..] == tail;
      assert value == [value[0]] + rest;
    }
  }

  // ---------------------------------------------------------------------------------------------
  // Histograms
  // ---------------------------------------------------------------------------------------------

  const TASK_DURATION_BUCKETS: seq<real> := [30.0, 60.0, 120.0, 300.0, 600.0, 1200.0, 1800.0, 3600.0, 7200.0]
  const CODEX_DURATION_BUCKETS: seq<real> := [10.0, 30.0, 60.0, 120.0, 300.0, 600.0, 1200.0, 1800.0]
  const GATE_DURATION_BUCKETS: seq<real> := [1.0, 5.0, 10.0, 30.0, 60.0, 120.0, 300.0, 600.0]
  const DEFAULT_BUCKETS: seq<real> := [1.0, 5.0, 10.0, 30.0, 60.0, 120.0, 300.0, 600.0, 1200.0]

  predicate Includes(s: string, part: string) {
    part <= s || (s != "" && Includes(s[1..], part))
  }

  predicate OccursAt(s: string, part: string, i: int) {
    0 <= i <= |s| - |part| && s[i..i + |part|] == part
  }

  lemma {:induction false} IncludesIff(s: string, part: string)
    ensures Includes(s, part) <==> exists i :: OccursAt(s, part, i)
  {
    assert part <= s <==> OccursAt(s, part, 0);
    if s != "" {
      IncludesIff(s[1..], part);
      forall i ensures OccursAt(s[1..], part, i) ==> OccursAt(s, part, i + 1) {
        assert 0 <= i <= |s| - 1 - |part| ==> s[1..][i..i + |part|] == s[i + 1..i + 1 + |part|];
      }
      forall i ensures OccursAt(s, part, i) && i != 0 ==> OccursAt(s[1..], part, i - 1) {
        assert 1 <= i <= |s| - |part| ==> s[1..][i - 1..i - 1 + |part|] == s[i..i + |part|];
      }
    }
  }

  function HistogramBucketsFor(name: string): (r: seq<real>)
    ensures forall i, j :: 0 <= i < j < |r| ==> r[i] < r[j]
  {
    if Includes(name, "task_duration") then TASK_DURATION_BUCKETS
    else if Includes(name, "codex_duration") then CODEX_DURATION_BUCKETS
    else if Includes(name, "validation_gate_duration") then GATE_DURATION_BUCKETS
    else DEFAULT_BUCKETS
  }

  ghost predicate Names(name: string, part: string) {
    exists i :: OccursAt(name, part, i)
  }

  lemma BucketsByName(name: string)
    ensures Names(name, "task_duration") ==> HistogramBucketsFor(name) == TASK_DURATION_BUCKETS
    ensures !Names(name, "task_duration") && Names(name, "codex_duration") ==>
              HistogramBucketsFor(name) == CODEX_DURATION_BUCKETS
    ensures !Names(name, "task_duration") && !Names(name, "codex_duration") ==>
              HistogramBucketsFor(name) ==
              if Names(name, "validation_gate_duration") then GATE_DURATION_BUCKETS else DEFAULT_BUCKETS
  {
    IncludesIff(name, "task_duration");
    IncludesIff(name, "codex_duration");
    IncludesIff(name, "validation_gate_duration");
  }

  datatype HistogramPoint = HistogramPoint(labels: seq<Label>, buckets: seq<nat>, sum: real, count: nat)

  function CountAtMost(values: seq<real>, bound: real): nat {
    if values == [] then 0
    else CountAtMost(values[..|values| - 1], bound) + if values[|values| - 1] <= bound then 1 else 0
  }

  function Sum(values: seq<real>): real {
    if values == [] then 0.0 else Sum(values[..|values| - 1]) + values[|values| - 1]
  }

  lemma {:induction false} CountsAreCumulative(values: seq<real>, low: real, high: real)
    requires low <= high
    ensures CountAtMost(values, low) <= CountAtMost(values, high) <= |values|
  {
    if values != [] {
      CountsAreCumulative(values[..|values| - 1], low, high);
    }
  }

  /** The point says of its series exactly what all its observations say. */
  ghost predicate Summarizes(p: HistogramPoint, values: seq<real>, bounds: seq<real>) {
    && |p.buckets| == |bounds|
    && (forall i :: 0 <= i < |bounds| ==> p.buckets[i] == CountAtMost(values, bounds[i]))
    && p.count == |values| && p.sum == Sum(values)
  }

  /** So its buckets are cumulative, and none exceeds the count that stands for the infinite bound. */
  lemma BucketsAreCumulative(p: HistogramPoint, values: seq<real>, name: string)
    requires Summarizes(p, values, HistogramBucketsFor(name))
    ensures forall i, j :: 0 <= i < j < |p.buckets| ==> p.buckets[i] <= p.buckets[j]
    ensures forall i :: 0 <= i < |p.buckets| ==> p.buckets[i] <= p.count
  {
    var bounds := HistogramBucketsFor(name);
    forall i, j | 0 <= i < j < |p.buckets| ensures p.buckets[i] <= p.buckets[j] {
      CountsAreCumulative(values, bounds[i], bounds[j]);
    }
    forall i | 0 <= i < |p.buckets| ensures p.buckets[i] <= p.count {
      CountsAreCumulative(values, bounds[i], bounds[i]);
    }
  }

  lemma ObserveStep(values: seq<real>, v: real)
    ensures forall bound :: CountAtMost(values + [v], bound) == CountAtMost(values, bound) + if v <= bound then 1 else 0
    ensures Sum(values + [v]) == Sum(values) + v
  {
    assert (values + [v])[..|values|] == values;
  }

  lemma NothingObserved(bounds: seq<real>, labels: seq<Label>)
    ensures Summarizes(HistogramPoint(labels, seq(|bounds|, _ => 0), 0.0, 0), [], bounds)
  {
  }

  /** `key.split("\u0001")[0]`. */
  function NameOfKey(key: string): string {
    if key == "" || key[0] == SOH then "" else [key[0]] + NameOfKey(key[1..])
  }

  lemma {:induction false} NameComesFirst(name: string, rest: string)
    requires SOH !in name
    ensures NameOfKey(name + [SOH] + rest) == name
  {
    var key := name + [SOH] + rest;
    if name != "" {
      NameComesFirst(name[1..], rest);
      assert key[1..] == name[1..] + [SOH] + rest;
    }
  }

  lemma {:induction false} SanitizeTwice(name: string)
    ensures SanitizeMetricName(SanitizeMetricName(name)) == SanitizeMetricName(name)
  {
    if name != "" {
      SanitizeTwice(name[1..]);
      var s := SanitizeMetricName(name);
      assert s[1..] == SanitizeMetricName(name[1..]) && s[0] in s;
    }
  }

  /** The name a key was made from can be read off it again. */
  lemma NameOfSeriesKey(name: string, labels: seq<Label>)
    ensures NameOfKey(SeriesKey(SanitizeMetricName(name), labels)) == SanitizeMetricName(name)
  {
    SanitizeTwice(name);
    NameComesFirst(SanitizeMetricName(name), LabelKey(labels));
  }

  class InMemoryMetricsRegistry {
    var histograms: map<string, HistogramPoint>
    ghost var observed: map<string, seq<real>>  // every finite value observed, by series

    constructor ()
      ensures Valid() && observed == map[]
    {
      histograms, observed := map[], map[];
    }

    ghost predicate Valid()
      reads this
    {
      && histograms.Keys == observed.Keys
      && forall key :: key in histograms ==> Summarizes(histograms[key], observed[key], HistogramBucketsFor(NameOfKey(key)))
    }

    /** One more value in one series; every other series is untouched. */
    method ObserveHistogram(name: string, entries: seq<(string, Option<string>)>, value: Number)
      requires Valid()
      modifies this
      ensures Valid()
      ensures var key := SeriesKey(SanitizeMetricName(name), NormalizeLabels(entries));
              observed == if value.NotFinite? then old(observed)
                          else old(observed)[key := (if key in old(observed) then old(observed)[key] else []) + [value.value]]
      ensures var key := SeriesKey(SanitizeMetricName(name), NormalizeLabels(entries));
              forall other :: other in old(histograms) && (other != key || value.NotFinite?) ==>
                other in histograms && histograms[other] == old(histograms)[other]
    {
      if value.NotFinite? {
        return;
      }
      NameOfSeriesKey(name, NormalizeLabels(entries));
      ObserveSeries(SeriesKey(SanitizeMetricName(name), NormalizeLabels(entries)), NormalizeLabels(entries), value.value);
    }

    /** The series under a key, created when it is not there. */
    method ObserveSeries(key: string, labels: seq<Label>, value: real)
      requires Valid()
      modifies this
      ensures Valid()
      ensures observed == old(observed)[key := (if key in old(observed) then old(observed)[key] else []) + [value]]
      ensures forall other :: other in old(histograms) && other != key ==>
                other in histograms && histograms[other] == old(histograms)[other]
    {
      var bounds := HistogramBucketsFor(NameOfKey(key));
      ghost var values := if key in observed then observed[key] else [];
      NothingObserved(bounds, labels);
      var current := if key in histograms then histograms[key]
                     else HistogramPoint(labels, seq(|bounds|, _ => 0), 0.0, 0);
      var point := Observe(current, bounds, value, values);
      histograms := histograms[key := point];
      observed := observed[key := values + [value]];
    }

    /** `buckets.forEach(...)`, and the sum and the count. */
    static method Observe(current: HistogramPoint, bounds: seq<real>, value: real, ghost values: seq<real>)
      returns (point: HistogramPoint)
      requires Summarizes(current, values, bounds)
      ensures Summarizes(point, values + [value], bounds) && point.labels == current.labels
    {
      ObserveStep(values, value);
      var buckets := current.buckets;
      for i := 0 to |bounds|
        invariant |buckets| == |bounds|
        invariant forall j :: 0 <= j < i ==> buckets[j] == CountAtMost(values + [value], bounds[j])
        invariant forall j :: i <= j < |bounds| ==> buckets[j] == current.buckets[j]
      {
        if value <= bounds[i] {
          buckets := buckets[i := buckets[i] + 1];
        }
      }
      point := HistogramPoint(current.labels, buckets, current.sum + value, current.count + 1);
    }
  }
}
