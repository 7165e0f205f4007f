/** exporter.go: the `Exporter`, which groups metrics by `MetricName` and
    prints them in the Prometheus text exposition format. It stores the
    metrics of metric.go. Go's map iteration order, for the groups and
    for each label map, is an argument. */
module Export {
  import opened Text
  import opened Labels
  import Convert
  import Metrics

  type MetricValue = Metrics.MetricValue

  const Uint64Limit: int := 0x1_0000_0000_0000_0000

  /** Go's `uint64`. */
  type Uint64 = x: int | 0 <= x < Uint64Limit

  /** The `Metrics` field: groups keyed by metric name. */
  type Groups = map<string, seq<MetricValue>>

  /** Every metric of group `k` is named `k`. */
  predicate Grouped(groups: Groups) {
    forall k :: k in groups ==> forall i :: 0 <= i < |groups[k]| ==> groups[k][i].metricName == k
  }

  // ---------------------------------------------------------------------
  // NewExporter

  /** The per-group sample hint of `NewExporter`: the integer quotient of
      the total by the metric count, or 8 when that quotient is 0. It is
      never 0, and when there are at least as many samples as metrics it
      is the largest `h` with `h * metricCount <= totalSampleCount`. */
  function SampleHint(metricCount: Uint64, totalSampleCount: Uint64): (h: Uint64)
    requires metricCount > 0
    ensures h >= 1
    ensures totalSampleCount < metricCount ==> h == 8
    ensures totalSampleCount >= metricCount ==>
              h * metricCount <= totalSampleCount < (h + 1) * metricCount
  {
    var preMetric := totalSampleCount / metricCount;
    if preMetric < 1 then 8 else preMetric
  }

  // ---------------------------------------------------------------------
  // AddMetric

  function GroupOf(groups: Groups, k: string): seq<MetricValue> {
    if k in groups then groups[k] else []
  }

  /** One pass of `AddMetric`'s loop: `m` goes at the end of its group,
      which is created when absent. */
  function AddOne(groups: Groups, m: MetricValue): Groups {
    groups[m.metricName := GroupOf(groups, m.metricName) + [m]]
  }

  /** `AddMetric(ms...)` on the groups. */
  function AddAll(groups: Groups, ms: seq<MetricValue>): Groups {
    if ms == [] then groups else AddOne(AddAll(groups, ms[..|ms| - 1]), ms[|ms| - 1])
  }

  /** The metrics of `ms` named `k`, in order. */
  function Named(ms: seq<MetricValue>, k: string): (r: seq<MetricValue>)
    ensures |r| <= |ms|
  {
    if ms == [] then []
    else
      var last := ms[|ms| - 1];
      Named(ms[..|ms| - 1], k) + (if last.metricName == k then [last] else [])
  }

  /** After `AddMetric(ms...)`, group `k` exists iff it existed or some
      argument is named `k`, and it is the old group followed by the
      arguments named `k`, in argument order; so a group no argument is
      named after is unchanged. */
  lemma {:induction false} AddAllGroup(groups: Groups, ms: seq<MetricValue>, k: string)
    ensures k in AddAll(groups, ms) <==> k in groups || exists i :: 0 <= i < |ms| && ms[i].metricName == k
    ensures GroupOf(AddAll(groups, ms), k) == GroupOf(groups, k) + Named(ms, k)
  {
    AddAllKeys(groups, ms, k);
    AddAllNamed(groups, ms, k);
  }

  lemma {:induction false} AddAllKeys(groups: Groups, ms: seq<MetricValue>, k: string)
    ensures k in AddAll(groups, ms) <==> k in groups || exists i :: 0 <= i < |ms| && ms[i].metricName == k
  {
    if ms != [] {
      var n := |ms| - 1;
      var init := ms[..n];
      AddAllKeys(groups, init, k);
      AddOneGroup(AddAll(groups, init), ms[n], k);
      assert forall i :: 0 <= i < n ==> init[i] == ms[i];
    }
  }

  lemma {:induction false} AddAllNamed(groups: Groups, ms: seq<MetricValue>, k: string)
    ensures GroupOf(AddAll(groups, ms), k) == GroupOf(groups, k) + Named(ms, k)
  {
    if ms != [] {
      var n := |ms| - 1;
      var init := ms[..n];
      var last := ms[n];
      AddAllNamed(groups, init, k);
      AddOneGroup(AddAll(groups, init), last, k);
      var g := GroupOf(groups, k);
      var named := Named(init, k);
      if last.metricName == k {
        assert Named(ms, k) == named + [last];
        assert (g + named) + [last] == g + (named + [last]);
      } else {
        assert Named(ms, k) == named + [];
        assert named + [] == named;
      }
    }
  }

  /** One pass of the loop adds `m` to its own group and touches no other. */
  lemma AddOneGroup(groups: Groups, m: MetricValue, k: string)
    ensures k in AddOne(groups, m) <==> k in groups || m.metricName == k
    ensures GroupOf(AddOne(groups, m), k) == GroupOf(groups, k) + (if m.metricName == k then [m] else [])
  {
    if m.metricName != k {
      assert GroupOf(groups, k) + [] == GroupOf(groups, k);
    }
  }

  /** `AddMetric` keeps every metric in the group of its own name. */
  lemma {:induction false} AddAllGrouped(groups: Groups, ms: seq<MetricValue>)
    requires Grouped(groups)
    ensures Grouped(AddAll(groups, ms))
  {
    if ms != [] {
      AddAllGrouped(groups, ms[..|ms| - 1]);
    }
  }

  /** Arguments that all carry the name of an existing group are appended
      to that group and nothing else changes. */
  lemma {:induction false} AddAllSameName(groups: Groups, ms: seq<MetricValue>, k: string)
    requires k in groups
    requires forall i :: 0 <= i < |ms| ==> ms[i].metricName == k
    ensures AddAll(groups, ms) == groups[k := groups[k] + ms]
  {
    if ms != [] {
      var init := ms[..|ms| - 1];
      AddAllSameName(groups, init, k);
      assert init + [ms[|ms| - 1]] == ms;
      var last := ms[|ms| - 1];
      assert GroupOf(AddAll(groups, init), k) == groups[k] + init;
      assert groups[k] + init + [last] == groups[k] + ms;
      assert AddAll(groups, ms) == groups[k := groups[k] + init][k := groups[k] + ms];
      assert groups[k := groups[k] + init][k := groups[k] + ms] == groups[k := groups[k] + ms];
    } else {
      assert groups[k] + ms == groups[k];
    }
  }

  /** The places of stored metrics: group name and position. */
  ghost function Slots(groups: Groups): set<(string, int)> {
    set k, i | k in groups && 0 <= i < |groups[k]| :: (k, i)
  }

  /** The number of stored metrics over all groups. */
  ghost function Total(groups: Groups): nat {
    |Slots(groups)|
  }

  lemma SlotsMember(groups: Groups, k: string, i: int)
    ensures (k, i) in Slots(groups) <==> k in groups && 0 <= i < |groups[k]|
  {
  }

  /** One added metric takes exactly the next place of its group. */
  lemma AddOneSlots(groups: Groups, m: MetricValue)
    ensures Slots(AddOne(groups, m)) == Slots(groups) + {(m.metricName, |GroupOf(groups, m.metricName)|)}
  {
    var slot := (m.metricName, |GroupOf(groups, m.metricName)|);
    var after := AddOne(groups, m);
    forall p | p in Slots(after) ensures p in Slots(groups) + {slot} {
      SlotsMember(after, p.0, p.1);
      SlotsMember(groups, p.0, p.1);
    }
    forall p | p in Slots(groups) + {slot} ensures p in Slots(after) {
      SlotsMember(after, p.0, p.1);
      SlotsMember(groups, p.0, p.1);
    }
  }

  lemma AddOneTotal(groups: Groups, m: MetricValue)
    ensures Total(AddOne(groups, m)) == Total(groups) + 1
  {
    AddOneSlots(groups, m);
    SlotsMember(groups, m.metricName, |GroupOf(groups, m.metricName)|);
  }

  /** `AddMetric(ms...)` stores exactly `|ms|` more metrics. */
  lemma {:induction false} AddAllTotal(groups: Groups, ms: seq<MetricValue>)
    ensures Total(AddAll(groups, ms)) == Total(groups) + |ms|
  {
    if ms != [] {
      AddAllTotal(groups, ms[..|ms| - 1]);
      AddOneTotal(AddAll(groups, ms[..|ms| - 1]), ms[|ms| - 1]);
    }
  }

  // ---------------------------------------------------------------------
  // Merge

  /** The inner loop of `Merge` on an exporter whose groups are by name:
      each group is added to its own exporter again, so it is doubled. */
  function DoubleOnce(groups: Groups): (r: Groups)
    ensures r.Keys == groups.Keys
  {
    map k | k in groups :: groups[k] + groups[k]
  }

  /** `s` written `n` times in a row. */
  function Repeat(s: seq<MetricValue>, n: nat): seq<MetricValue> {
    if n == 0 then [] else Repeat(s, n - 1) + s
  }

  function Pow2(n: nat): nat {
    if n == 0 then 1 else 2 * Pow2(n - 1)
  }

  /** The groups after `c` passes of the inner loop of `Merge`. */
  function Doubled(groups: Groups, c: nat): Groups {
    if c == 0 then groups else DoubleOnce(Doubled(groups, c - 1))
  }

  lemma {:induction false} RepeatAppend(s: seq<MetricValue>, a: nat, b: nat)
    ensures Repeat(s, a) + Repeat(s, b) == Repeat(s, a + b)
    decreases b
  {
    if b > 0 {
      RepeatAppend(s, a, b - 1);
    }
  }

  /** After `c` passes, the groups have the same names, each group is the
      old one written `2^c` times over, and the groups stay by name. */
  lemma {:induction false} DoubledGroups(groups: Groups, c: nat)
    ensures Doubled(groups, c).Keys == groups.Keys
    ensures forall k :: k in groups ==> Doubled(groups, c)[k] == Repeat(groups[k], Pow2(c))
    ensures Grouped(groups) ==> Grouped(Doubled(groups, c))
  {
    if c == 0 {
      forall k | k in groups ensures groups[k] == Repeat(groups[k], 1) {
        assert Repeat(groups[k], 1) == [] + groups[k];
      }
    } else {
      DoubledGroups(groups, c - 1);
      forall k | k in groups ensures Doubled(groups, c)[k] == Repeat(groups[k], Pow2(c)) {
        RepeatAppend(groups[k], Pow2(c - 1), Pow2(c - 1));
      }
      if Grouped(groups) {
        var prev := Doubled(groups, c - 1);
        forall k | k in prev ensures forall i :: 0 <= i < |DoubleOnce(prev)[k]| ==> DoubleOnce(prev)[k][i].metricName == k {
          forall i | 0 <= i < |DoubleOnce(prev)[k]| ensures DoubleOnce(prev)[k][i].metricName == k {
            if i >= |prev[k]| {
              assert DoubleOnce(prev)[k][i] == prev[k][i - |prev[k]|];
            }
          }
        }
      }
    }
  }

  /** One pass of `Merge`'s outer loop, on the exporters' groups: the
      listed exporter doubles its groups, so everything it holds has been
      doubled once more per time it was listed so far. */
  lemma MergeStep(es: seq<Exporter>, i: nat, olds: seq<Groups>, before: seq<Groups>)
    requires i < |es| && |olds| == |es| && |before| == |es|
    requires forall j :: 0 <= j < |es| ==> before[j] == Doubled(olds[j], multiset(es[..i])[es[j]])
    requires forall j :: 0 <= j < |es| ==> es[j].metrics == if es[j] == es[i] then DoubleOnce(before[j]) else before[j]
    ensures forall j :: 0 <= j < |es| ==> es[j].metrics == Doubled(olds[j], multiset(es[..i + 1])[es[j]])
  {
    assert es[..i + 1] == es[..i] + [es[i]];
    var seen := multiset(es[..i]);
    assert multiset(es[..i + 1]) == seen + multiset{es[i]};
    forall j | 0 <= j < |es| ensures es[j].metrics == Doubled(olds[j], multiset(es[..i + 1])[es[j]]) {
      if es[j] == es[i] {
        assert multiset(es[..i + 1])[es[j]] == seen[es[j]] + 1;
      } else {
        assert multiset(es[..i + 1])[es[j]] == seen[es[j]];
      }
    }
  }

  // ---------------------------------------------------------------------
  // String

  /** The first header line of a group: no space after `# HELP`. */
  function HelpLine(m: MetricValue): string {
    "# HELP" + m.metricName + " " + m.help + "\n"
  }

  /** The second header line of a group: `# TYPEs`, again with no space. */
  function TypeLine(m: MetricValue): string {
    "# TYPEs" + m.metricName + " " + m.typ + "\n"
  }

  /** The label order given for `m` lists each of its labels once. */
  predicate LabelOrderFits(labelOrder: LabelSet -> seq<string>, m: MetricValue) {
    Convert.IsOrderOf(labelOrder(m.labels), m.labels)
  }

  /** One sample line: name, label block, a space, the formatted value. */
  function SampleLine(m: MetricValue, labelOrder: LabelSet -> seq<string>, formatFloat: (real, int) -> string): string {
    m.metricName + Convert.LabelBlock(m.labels, labelOrder(m.labels)) + " " + formatFloat(m.value, m.valuePrecision) + "\n"
  }

  function SampleLines(ms: seq<MetricValue>, labelOrder: LabelSet -> seq<string>, formatFloat: (real, int) -> string): string {
    if ms == [] then ""
    else SampleLines(ms[..|ms| - 1], labelOrder, formatFloat) + SampleLine(ms[|ms| - 1], labelOrder, formatFloat)
  }

  /** A group's text: nothing for an empty group, else the two headers
      taken from its first metric and one line per metric. */
  function GroupText(ms: seq<MetricValue>, labelOrder: LabelSet -> seq<string>, formatFloat: (real, int) -> string): string {
    if ms == [] then "" else HelpLine(ms[0]) + TypeLine(ms[0]) + SampleLines(ms, labelOrder, formatFloat)
  }

  /** Every stored metric has a fitting label order. */
  predicate LabelOrdersFit(groups: Groups, labelOrder: LabelSet -> seq<string>) {
    forall k :: k in groups ==> forall j :: 0 <= j < |groups[k]| ==> LabelOrderFits(labelOrder, groups[k][j])
  }

  /** The exposition text of the groups listed in `order`. */
  function Render(groups: Groups, order: seq<string>, labelOrder: LabelSet -> seq<string>, formatFloat: (real, int) -> string): string {
    if order == [] then ""
    else
      var n := |order| - 1;
      Render(groups, order[..n], labelOrder, formatFloat) + GroupText(GroupOf(groups, order[n]), labelOrder, formatFloat)
  }

  /** The text grows by one group per listed name. */
  lemma RenderStep(groups: Groups, order: seq<string>, i: nat, labelOrder: LabelSet -> seq<string>, formatFloat: (real, int) -> string)
    requires i < |order|
    ensures Render(groups, order[..i + 1], labelOrder, formatFloat) ==
              Render(groups, order[..i], labelOrder, formatFloat) + GroupText(GroupOf(groups, order[i]), labelOrder, formatFloat)
  {
    assert order[..i + 1][..i] == order[..i];
  }

  /** Listed groups that are all empty or absent write nothing. */
  lemma {:induction false} RenderEmpty(groups: Groups, order: seq<string>, labelOrder: LabelSet -> seq<string>, formatFloat: (real, int) -> string)
    requires forall i :: 0 <= i < |order| ==> GroupOf(groups, order[i]) == []
    ensures Render(groups, order, labelOrder, formatFloat) == ""
  {
    if order != [] {
      var n := |order| - 1;
      RenderEmpty(groups, order[..n], labelOrder, formatFloat);
    }
  }

  /** No text field of `m`, no label and not its formatted value holds a newline. */
  predicate NoNewline(m: MetricValue, formatFloat: (real, int) -> string) {
    && '\n' !in m.metricName && '\n' !in m.help && '\n' !in m.typ
    && '\n' !in formatFloat(m.value, m.valuePrecision)
    && forall k :: k in m.labels ==> '\n' !in k && '\n' !in m.labels[k]
  }

  /** How many of the listed groups are non-empty. */
  function NonEmptyIn(groups: Groups, order: seq<string>): nat {
    if order == [] then 0
    else
      var n := |order| - 1;
      NonEmptyIn(groups, order[..n]) + (if GroupOf(groups, order[n]) == [] then 0 else 1)
  }

  /** How many metrics the listed groups hold. */
  function TotalIn(groups: Groups, order: seq<string>): nat {
    if order == [] then 0
    else
      var n := |order| - 1;
      TotalIn(groups, order[..n]) + |GroupOf(groups, order[n])|
  }

  lemma {:induction false} LinesNewlines(ms: seq<MetricValue>, labelOrder: LabelSet -> seq<string>, formatFloat: (real, int) -> string)
    requires forall j :: 0 <= j < |ms| ==> LabelOrderFits(labelOrder, ms[j]) && NoNewline(ms[j], formatFloat)
    ensures Count(SampleLines(ms, labelOrder, formatFloat), '\n') == |ms|
  {
    if ms != [] {
      var init := ms[..|ms| - 1];
      var m := ms[|ms| - 1];
      LinesNewlines(init, labelOrder, formatFloat);
      var block := Convert.LabelBlock(m.labels, labelOrder(m.labels));
      Convert.BlockAvoids(m.labels, labelOrder(m.labels), '\n');
      var text := formatFloat(m.value, m.valuePrecision);
      CountAbsent(m.metricName + block + " " + text, '\n');
      CountAppend(m.metricName + block + " " + text, "\n", '\n');
      CountAppend(SampleLines(init, labelOrder, formatFloat), SampleLine(m, labelOrder, formatFloat), '\n');
    }
  }

  lemma GroupNewlines(ms: seq<MetricValue>, labelOrder: LabelSet -> seq<string>, formatFloat: (real, int) -> string)
    requires forall j :: 0 <= j < |ms| ==> LabelOrderFits(labelOrder, ms[j]) && NoNewline(ms[j], formatFloat)
    ensures Count(GroupText(ms, labelOrder, formatFloat), '\n') == if ms == [] then 0 else 2 + |ms|
  {
    if ms != [] {
      var m := ms[0];
      LinesNewlines(ms, labelOrder, formatFloat);
      CountAbsent("# HELP" + m.metricName + " " + m.help, '\n');
      CountAppend("# HELP" + m.metricName + " " + m.help, "\n", '\n');
      CountAbsent("# TYPEs" + m.metricName + " " + m.typ, '\n');
      CountAppend("# TYPEs" + m.metricName + " " + m.typ, "\n", '\n');
      CountAppend(HelpLine(m), TypeLine(m), '\n');
      CountAppend(HelpLine(m) + TypeLine(m), SampleLines(ms, labelOrder, formatFloat), '\n');
    }
  }

  /** When no field holds a newline, the text has two header lines per
      non-empty group and one line per metric. */
  lemma {:induction false} RenderNewlines(groups: Groups, order: seq<string>, labelOrder: LabelSet -> seq<string>, formatFloat: (real, int) -> string)
    requires LabelOrdersFit(groups, labelOrder)
    requires forall k :: k in groups ==> forall j :: 0 <= j < |groups[k]| ==> NoNewline(groups[k][j], formatFloat)
    ensures Count(Render(groups, order, labelOrder, formatFloat), '\n') ==
              2 * NonEmptyIn(groups, order) + TotalIn(groups, order)
  {
    if order != [] {
      var n := |order| - 1;
      var init := order[..n];
      var ms := GroupOf(groups, order[n]);
      var before := Render(groups, init, labelOrder, formatFloat);
      var text := GroupText(ms, labelOrder, formatFloat);
      assert Render(groups, order, labelOrder, formatFloat) == before + text;
      RenderNewlines(groups, init, labelOrder, formatFloat);
      GroupNewlines(ms, labelOrder, formatFloat);
      CountAppend(before, text, '\n');
    }
  }

  /** The groups whose names the listed keys avoid are all that the
      listing reads. */
  lemma {:induction false} TotalInAgree(groups: Groups, other: Groups, order: seq<string>)
    requires forall i :: 0 <= i < |order| ==> GroupOf(groups, order[i]) == GroupOf(other, order[i])
    ensures TotalIn(groups, order) == TotalIn(other, order)
    ensures NonEmptyIn(groups, order) == NonEmptyIn(other, order)
  {
    if order != [] {
      TotalInAgree(groups, other, order[..|order| - 1]);
    }
  }

  /** The places in one group of `n` metrics. */
  ghost function Column(k: string, n: nat): set<(string, int)> {
    set i | 0 <= i < n :: (k, i)
  }

  lemma {:induction false} ColumnSize(k: string, n: nat)
    ensures |Column(k, n)| == n
  {
    if n > 0 {
      ColumnSize(k, n - 1);
      assert Column(k, n) == Column(k, n - 1) + {(k, n - 1)};
    }
  }

  lemma RemoveGroupTotal(groups: Groups, k: string)
    requires k in groups
    ensures Total(groups) == Total(groups - {k}) + |groups[k]|
  {
    var rest := groups - {k};
    forall p | p in Slots(groups) ensures p in Slots(rest) + Column(k, |groups[k]|) {
      var (k', i) := p;
      if k' != k {
        assert k' in rest;
      }
    }
    assert Slots(groups) == Slots(rest) + Column(k, |groups[k]|);
    assert Slots(rest) !! Column(k, |groups[k]|);
    ColumnSize(k, |groups[k]|);
  }

  /** Over an order of all the groups, the listed total is the number of
      stored metrics. */
  lemma {:induction false} TotalInOrder(groups: Groups, order: seq<string>)
    requires Convert.IsOrderOf(order, groups)
    ensures TotalIn(groups, order) == Total(groups)
  {
    if order == [] {
      assert Slots(groups) == {};
    } else {
      var n := |order| - 1;
      var rest := groups - {order[n]};
      Convert.OrderInit(order, groups);
      TotalInOrder(rest, order[..n]);
      TotalInAgree(groups, rest, order[..n]);
      RemoveGroupTotal(groups, order[n]);
    }
  }

  /** The names of the non-empty groups. */
  ghost function NonEmptyGroups(groups: Groups): set<string> {
    set k | k in groups && groups[k] != []
  }

  /** Over an order of all the groups, the listed count of non-empty
      groups is the number of non-empty groups. */
  lemma {:induction false} NonEmptyInOrder(groups: Groups, order: seq<string>)
    requires Convert.IsOrderOf(order, groups)
    ensures NonEmptyIn(groups, order) == |NonEmptyGroups(groups)|
  {
    if order == [] {
      assert NonEmptyGroups(groups) == {};
    } else {
      var n := |order| - 1;
      var k := order[n];
      var rest := groups - {k};
      Convert.OrderInit(order, groups);
      NonEmptyInOrder(rest, order[..n]);
      TotalInAgree(groups, rest, order[..n]);
      RemoveNonEmpty(groups, k);
    }
  }

  lemma RemoveNonEmpty(groups: Groups, k: string)
    requires k in groups
    ensures |NonEmptyGroups(groups)| == |NonEmptyGroups(groups - {k})| + (if groups[k] == [] then 0 else 1)
  {
    var rest := groups - {k};
    if groups[k] == [] {
      assert NonEmptyGroups(groups) == NonEmptyGroups(rest);
    } else {
      assert NonEmptyGroups(groups) == NonEmptyGroups(rest) + {k};
    }
  }

  /** So, whatever the order, the printed text has `2 × (non-empty groups)
      + (stored metrics)` newlines when no field holds one. */
  lemma StringNewlines(groups: Groups, order: seq<string>, labelOrder: LabelSet -> seq<string>, formatFloat: (real, int) -> string)
    requires Convert.IsOrderOf(order, groups)
    requires LabelOrdersFit(groups, labelOrder)
    requires forall k :: k in groups ==> forall j :: 0 <= j < |groups[k]| ==> NoNewline(groups[k][j], formatFloat)
    ensures Count(Render(groups, order, labelOrder, formatFloat), '\n') ==
              2 * |NonEmptyGroups(groups)| + Total(groups)
  {
    RenderNewlines(groups, order, labelOrder, formatFloat);
    TotalInOrder(groups, order);
    NonEmptyInOrder(groups, order);
  }

  /** The body of `String`'s outer loop for one group: nothing for an empty
      group, else the headers from its first metric followed by one line
      per metric, its labels rendered by `mapToStr`. */
  method WriteGroup(ms: seq<MetricValue>, labelOrder: LabelSet -> seq<string>, formatFloat: (real, int) -> string)
    returns (text: string)
    requires forall j :: 0 <= j < |ms| ==> LabelOrderFits(labelOrder, ms[j])
    ensures text == GroupText(ms, labelOrder, formatFloat)
  {
    if |ms| == 0 {
      return "";
    }
    text := HelpLine(ms[0]) + TypeLine(ms[0]);
    ghost var head := text;
    for j := 0 to |ms|
      invariant text == head + SampleLines(ms[..j], labelOrder, formatFloat)
    {
      SampleLinesStep(ms, head, j, labelOrder, formatFloat);
      var line := WriteSample(ms[j], labelOrder, formatFloat);
      text := text + line;
    }
    assert ms[..|ms|] == ms;
  }

  /** One pass of the inner loop: the metric's name, its label block from
      `mapToStr`, a space, the formatted value and a newline. */
  method WriteSample(m: MetricValue, labelOrder: LabelSet -> seq<string>, formatFloat: (real, int) -> string)
    returns (line: string)
    requires LabelOrderFits(labelOrder, m)
    ensures line == SampleLine(m, labelOrder, formatFloat)
  {
    var block := Convert.MapToStr(m.labels, labelOrder(m.labels));
    line := m.metricName + block + " " + formatFloat(m.value, m.valuePrecision) + "\n";
  }

  /** The group text grows by one sample line per metric. */
  lemma SampleLinesStep(ms: seq<MetricValue>, head: string, j: nat, labelOrder: LabelSet -> seq<string>, formatFloat: (real, int) -> string)
    requires j < |ms|
    ensures head + SampleLines(ms[..j + 1], labelOrder, formatFloat) ==
              head + SampleLines(ms[..j], labelOrder, formatFloat) + SampleLine(ms[j], labelOrder, formatFloat)
  {
    assert ms[..j + 1][..j] == ms[..j];
  }

  // ---------------------------------------------------------------------
  // The exporter

  class Exporter {
    var metricCount: Uint64
    var sampleCount: Uint64
    var metrics: Groups

    /** Every metric sits in the group of its own name. */
    ghost predicate Valid()
      reads this
    {
      Grouped(metrics)
    }

    /** `NewExporter`: Go divides by `metricCount`, so it must not be 0. */
    constructor (metricCount: Uint64, totalSampleCount: Uint64)
      requires metricCount > 0
      ensures this.metricCount == metricCount
      ensures sampleCount == SampleHint(metricCount, totalSampleCount)
      ensures metrics == map[] && Valid()
    {
      var preMetric := totalSampleCount / metricCount;
      if preMetric < 1 {
        preMetric := 8;
      }
      this.metricCount := metricCount;
      sampleCount := preMetric;
      metrics := map[];
    }

    /** `AddMetric(ms...)`: each metric in turn is appended to its group. */
    method AddMetric(ms: seq<MetricValue>)
      modifies this`metrics
      ensures metrics == AddAll(old(metrics), ms)
      ensures old(Valid()) ==> Valid()
    {
      for i := 0 to |ms|
        invariant metrics == AddAll(old(metrics), ms[..i])
      {
        assert ms[..i + 1][..i] == ms[..i];
        var m := ms[i];
        if m.metricName in metrics {
          metrics := metrics[m.metricName := metrics[m.metricName] + [m]];
        } else {
          metrics := metrics[m.metricName := []];
          metrics := metrics[m.metricName := metrics[m.metricName] + [m]];
        }
      }
      assert ms[..|ms|] == ms;
      if old(Valid()) {
        AddAllGrouped(old(metrics), ms);
      }
    }

    /** The inner loop of `Merge`: every group of this exporter is added to
        this exporter again, in an order Go leaves open. */
    method ReAddGroups()
      requires Valid()
      modifies this`metrics
      ensures Valid() && metrics == DoubleOnce(old(metrics))
    {
      var todo := metrics.Keys;
      while todo != {}
        invariant todo <= old(metrics).Keys && metrics.Keys == old(metrics).Keys
        invariant forall k :: k in metrics ==> metrics[k] == if k in todo then old(metrics)[k] else old(metrics)[k] + old(metrics)[k]
        invariant Valid()
        decreases todo
      {
        var k :| k in todo;
        var ms := metrics[k];
        AddAllSameName(metrics, ms, k);
        AddMetric(ms);
        todo := todo - {k};
      }
    }

    /** One pass of the loop in `Merge`: `es[i]` re-adds its own groups,
        which doubles every exporter that is the same object. */
    static method MergeOne(es: seq<Exporter>, i: nat, ghost olds: seq<Groups>)
      requires i < |es| && |olds| == |es| && Grouped(olds[i])
      requires forall j :: 0 <= j < |es| ==> es[j].metrics == Doubled(olds[j], multiset(es[..i])[es[j]])
      modifies es`metrics
      ensures forall j :: 0 <= j < |es| ==> es[j].metrics == Doubled(olds[j], multiset(es[..i + 1])[es[j]])
    {
      var x := es[i];
      ghost var before := seq(|es|, j reads es requires 0 <= j < |es| => es[j].metrics);
      DoubledGroups(olds[i], multiset(es[..i])[x]);
      x.ReAddGroups();
      MergeStep(es, i, olds, before);
    }

    /** `Merge(es...)` as written: the loop variable `e` shadows the
        receiver, so each listed exporter adds its own groups to itself
        once per time it is listed, and the receiver is left alone unless
        it is listed. Only the groups change. */
    method Merge(es: seq<Exporter>)
      requires forall i :: 0 <= i < |es| ==> es[i].Valid()
      modifies es`metrics
      ensures forall i :: 0 <= i < |es| ==>
                es[i].Valid() && es[i].metrics == Doubled(old(es[i].metrics), multiset(es)[es[i]])
      ensures forall i :: 0 <= i < |es| ==>
                es[i].metricCount == old(es[i].metricCount) && es[i].sampleCount == old(es[i].sampleCount)
      ensures this !in es ==> metrics == old(metrics)
    {
      ghost var olds := seq(|es|, j reads es requires 0 <= j < |es| => es[j].metrics);
      for i := 0 to |es|
        invariant forall j :: 0 <= j < |es| ==> es[j].metrics == Doubled(olds[j], multiset(es[..i])[es[j]])
      {
        MergeOne(es, i, olds);
      }
      assert es[..|es|] == es;
      forall j | 0 <= j < |es| ensures es[j].Valid() {
        DoubledGroups(olds[j], multiset(es)[es[j]]);
      }
    }

    /** `String`: the groups in the order given, each non-empty one with
        its two headers and one line per metric. */
    method String(order: seq<string>, labelOrder: LabelSet -> seq<string>, formatFloat: (real, int) -> string)
      returns (s: string)
      requires Convert.IsOrderOf(order, metrics)
      requires LabelOrdersFit(metrics, labelOrder)
      ensures s == Render(metrics, order, labelOrder, formatFloat)
    {
      var builder := "";
      for i := 0 to |order|
        invariant builder == Render(metrics, order[..i], labelOrder, formatFloat)
      {
        var ms := metrics[order[i]];
        RenderStep(metrics, order, i, labelOrder, formatFloat);
        var text := WriteGroup(ms, labelOrder, formatFloat);
        builder := builder + text;
      }
      assert order[..|order|] == order;
      s := builder;
    }
  }
}
