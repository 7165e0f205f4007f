/** metric.go, the older version of the extractor: the `metric` record,
    a tag parser with its own cache and precision rule, and
    `ParseMetricer`. The rules it shares word for word with parser.go
    (`validateName`, the `;`/`:` segment syntax, the metric kinds) are
    taken from `Parser`. */
module Metrics {
  import opened Wrappers
  import opened Text
  import opened Strconv
  import opened Labels
  import Parser

  type PromTag = Parser.PromTag
  type Field = Parser.Field
  type Entry = Parser.Entry

  /** The `uint8` of `ValuePrecision`. */
  type Uint8 = x: int | 0 <= x < 256

  // ---------------------------------------------------------------------
  // The metric record

  /** What a metric holds, as a value; a nil label map reads as empty. */
  datatype MetricValue = MetricValue(
    help: string,
    typ: string,
    metricName: string,
    labels: LabelSet,
    value: real,
    valuePrecision: int)

  class Metric {
    var help: string
    var typ: string
    var metricName: string
    var labels: MaybeLabels
    var value: real
    var valuePrecision: Uint8

    function LabelsOrEmpty(): LabelSet
      reads this
    {
      labels.GetOr(map[])
    }

    function View(): MetricValue
      reads this
    {
      MetricValue(help, typ, metricName, LabelsOrEmpty(), value, valuePrecision)
    }

    /** `NewMetric(help, mName, mType, labels, value, valuePrecision)`: the
        fields as given, with a copy of `labels` (empty when nil). */
    constructor (help: string, mName: string, mType: string, labels: MaybeLabels, value: real, valuePrecision: Uint8)
      ensures this.help == help && this.metricName == mName && this.typ == mType
      ensures this.value == value && this.valuePrecision == valuePrecision
      ensures this.labels == Some(labels.GetOr(map[]))
    {
      this.help := help;
      this.typ := mType;
      this.metricName := mName;
      this.labels := None;
      this.value := value;
      this.valuePrecision := valuePrecision;
      new;
      ExtendLabel([labels]);
      assert [labels][..0] == [];
      assert MergeAll(map[], [labels]) == map[] + labels.GetOr(map[]);
      assert map[] + labels.GetOr(map[]) == labels.GetOr(map[]);
    }

    /** The inner loop of `extendLabel`: every pair of `m` is written into
        the label map, overwriting an existing key. */
    method CopyLabels(m: LabelSet)
      requires labels.Some?
      modifies this`labels
      ensures labels == Some(old(labels.value) + m)
    {
      ghost var start := labels.value;
      var todo := m.Keys;
      while todo != {}
        invariant todo <= m.Keys
        invariant labels.Some?
        invariant labels.value == start + (map k | k in m.Keys - todo :: m[k])
        decreases todo
      {
        var k :| k in todo;
        labels := Some(labels.value[k := m[k]]);
        todo := todo - {k};
      }
      assert (map k | k in m.Keys - {} :: m[k]) == m;
    }

    /** `extendLabel`: copies every non-nil argument map over the labels, in
        order; afterwards the label map is never nil, and nothing else changes. */
    method ExtendLabel(maps: seq<MaybeLabels>)
      modifies this`labels
      ensures labels == Some(MergeAll(old(LabelsOrEmpty()), maps))
      ensures help == old(help) && typ == old(typ) && metricName == old(metricName)
      ensures value == old(value) && valuePrecision == old(valuePrecision)
    {
      if labels.None? {
        labels := Some(map[]);
      }
      ghost var base := labels.value;
      for i := 0 to |maps|
        invariant labels == Some(MergeAll(base, maps[..i]))
      {
        assert maps[..i + 1][..i] == maps[..i];
        if maps[i].Some? {
          CopyLabels(maps[i].value);
        } else {
          assert MergeAll(base, maps[..i]) + map[] == MergeAll(base, maps[..i]);
        }
        assert MergeAll(base, maps[..i + 1]) == MergeAll(base, maps[..i]) + maps[i].GetOr(map[]);
      }
      assert maps[..|maps|] == maps;
    }
  }

  // ---------------------------------------------------------------------
  // Label values

  /** `tidyLabelValue` of this version: illegal values become "ingnore";
      the result never holds an illegal character. */
  function TidyLabelValue(value: string): (r: string)
    ensures ContainsAny(value, Parser.IllegalChars) ==> r == "ingnore"
    ensures !ContainsAny(value, Parser.IllegalChars) ==> r == value
    ensures !ContainsAny(r, Parser.IllegalChars)
  {
    assert !ContainsAny("ingnore", Parser.IllegalChars) by {
      forall i | 0 <= i < |"ingnore"| ensures "ingnore"[i] !in Parser.IllegalChars {
      }
    }
    Parser.Sanitize(value, "ingnore")
  }

  // ---------------------------------------------------------------------
  // Tags

  /** The `valuePrecision` rule as written: the error test is inverted, so a
      value that parses as a uint8 leaves the precision as it was, and a
      failed parse stores the value `ParseUint` returns with its error
      (0 for a syntax error, 255 for a range error). */
  function PrecisionAfter(current: int, text: string): (p: int)
    ensures ParseUint8(text).NumOk? ==> p == current
    ensures ParseUint8(text).SyntaxError? ==> p == 0
    ensures ParseUint8(text).RangeError? ==> p == 255
  {
    var r := ParseUint8(text);
    if r.NumOk? then current else r.Returned()
  }

  /** The precision after one `valuePrecision` segment, by the shape of its
      text: kept for a non-empty decimal of at most 255 (`valuePrecision: 3`),
      255 when the digits pass 255 before any non-digit, and 0 otherwise. */
  lemma PrecisionAfterClasses(current: int, text: string)
    ensures PrecisionAfter(current, text) ==
              if text != [] && AllDigits(text) && Decimal(text) <= 255 then current
              else if Overflows(text, 255) then 255
              else 0
  {
    ParseUint8Digits(text);
  }

  /** The effect of one well-formed `key: value` segment. */
  function ApplyPair(pt: PromTag, key: string, value: string): PromTag {
      if key == "help" then pt.(help := value)
      else if key == "type" then (if value in Parser.KnownTypes then pt.(typ := value) else pt)
      else if key == "metricName" then
        (if Parser.ValidateName(value) then pt.(metricName := value, isMetric := true) else pt)
      else if key == "labelName" then
        (if Parser.ValidateName(value) then pt.(labelName := value, isLabel := true) else pt)
      else if key == "valuePrecision" then pt.(valuePrecision := PrecisionAfter(pt.valuePrecision, value))
      else pt
  }

  /** One pass of the `switch` in `parseTag`. */
  function ApplySegment(pt: PromTag, segment: string): PromTag {
    match Parser.Pair(segment)
    case None => pt
    case Some((key, value)) => ApplyPair(pt, key, value)
  }

  function FoldSegments(pt: PromTag, segments: seq<string>): PromTag
    decreases segments
  {
    if segments == [] then pt else FoldSegments(ApplySegment(pt, segments[0]), segments[1..])
  }

  /** What the flags promise about the names, and the ranges of kind and precision. */
  predicate WellFormed(pt: PromTag) {
    && (pt.isMetric ==> Parser.ValidateName(pt.metricName))
    && (pt.isLabel ==> Parser.ValidateName(pt.labelName))
    && pt.typ in Parser.KnownTypes
    && 0 <= pt.valuePrecision < 256
  }

  lemma ApplyPairWellFormed(pt: PromTag, key: string, value: string)
    requires WellFormed(pt)
    ensures WellFormed(ApplyPair(pt, key, value))
  {
  }

  lemma ApplyWellFormed(pt: PromTag, segment: string)
    requires WellFormed(pt)
    ensures WellFormed(ApplySegment(pt, segment))
  {
    if Parser.Pair(segment).Some? {
      ApplyPairWellFormed(pt, Parser.Pair(segment).value.0, Parser.Pair(segment).value.1);
    }
  }

  lemma {:induction false} FoldWellFormed(pt: PromTag, segments: seq<string>)
    requires WellFormed(pt)
    ensures WellFormed(FoldSegments(pt, segments))
    decreases segments
  {
    if segments != [] {
      ApplyWellFormed(pt, segments[0]);
      FoldWellFormed(ApplySegment(pt, segments[0]), segments[1..]);
    }
  }

  /** `parseTag` of this version without the cache. A metric always has
      help text and a valid name, a label a valid name; the kind is one of
      the four and the precision a uint8. */
  function TagOf(raw: string): (pt: PromTag)
    ensures pt.isMetric ==> pt.help != "" && Parser.ValidateName(pt.metricName)
    ensures pt.isLabel ==> Parser.ValidateName(pt.labelName)
    ensures pt.help == "" ==> !pt.isMetric
    ensures pt.typ in Parser.KnownTypes
    ensures 0 <= pt.valuePrecision < 256
  {
    FoldWellFormed(Parser.InitialTag, Parser.Segments(raw));
    Parser.RequireHelp(FoldSegments(Parser.InitialTag, Parser.Segments(raw)))
  }

  /** A `valuePrecision` segment whose value parses as a uint8 changes
      nothing, like every segment with another key leaves the precision. */
  lemma ApplyKeepsPrecision(pt: PromTag, segment: string)
    requires Parser.HasKey(segment, "valuePrecision") ==> ParseUint8(Parser.Pair(segment).value.1).NumOk?
    ensures ApplySegment(pt, segment).valuePrecision == pt.valuePrecision
  {
    if Parser.Pair(segment).Some? {
      var (key, value) := Parser.Pair(segment).value;
      assert ApplySegment(pt, segment) == ApplyPair(pt, key, value);
    }
  }

  /** A segment list in which every `valuePrecision` value parses as a
      uint8 (or which has none) leaves the precision where it started. */
  lemma {:induction false} FoldKeepsPrecision(pt: PromTag, segments: seq<string>)
    requires forall i :: 0 <= i < |segments| && Parser.HasKey(segments[i], "valuePrecision") ==>
               ParseUint8(Parser.Pair(segments[i]).value.1).NumOk?
    ensures FoldSegments(pt, segments).valuePrecision == pt.valuePrecision
    decreases segments
  {
    if segments != [] {
      ApplyKeepsPrecision(pt, segments[0]);
      assert forall i :: 1 <= i < |segments| ==> segments[1..][i - 1] == segments[i];
      FoldKeepsPrecision(ApplySegment(pt, segments[0]), segments[1..]);
    }
  }

  /** So a tag whose precision values all parse (`valuePrecision: 3`, say)
      has precision 0, the same as a tag with no precision at all. */
  lemma ValidPrecisionIgnored(raw: string)
    requires forall s :: s in Parser.Segments(raw) && Parser.HasKey(s, "valuePrecision") ==>
               ParseUint8(Parser.Pair(s).value.1).NumOk?
    ensures TagOf(raw).valuePrecision == 0
  {
    FoldKeepsPrecision(Parser.InitialTag, Parser.Segments(raw));
  }

  /** The same, stated on the text: every `valuePrecision` value is a digit
      string of value at most 255. */
  lemma DigitPrecisionIgnored(raw: string)
    requires forall s :: s in Parser.Segments(raw) && Parser.HasKey(s, "valuePrecision") ==>
               var v := Parser.Pair(s).value.1; v != [] && AllDigits(v) && Decimal(v) <= 255
    ensures TagOf(raw).valuePrecision == 0
  {
    forall s | s in Parser.Segments(raw) && Parser.HasKey(s, "valuePrecision")
      ensures ParseUint8(Parser.Pair(s).value.1).NumOk?
    {
      ParseUint8Digits(Parser.Pair(s).value.1);
    }
    ValidPrecisionIgnored(raw);
  }

  /** The last `valuePrecision` segment that fails to parse decides the
      precision, provided every later one parses: 0 for a value that is not
      a number, 255 for one above the uint8 range. */
  lemma {:induction false} LastFailedPrecisionWins(pt: PromTag, segments: seq<string>, j: nat)
    requires j < |segments| && Parser.HasKey(segments[j], "valuePrecision")
    requires !ParseUint8(Parser.Pair(segments[j]).value.1).NumOk?
    requires forall i :: j < i < |segments| && Parser.HasKey(segments[i], "valuePrecision") ==>
               ParseUint8(Parser.Pair(segments[i]).value.1).NumOk?
    ensures FoldSegments(pt, segments).valuePrecision == ParseUint8(Parser.Pair(segments[j]).value.1).Returned()
    decreases segments
  {
    assert forall i :: 1 <= i < |segments| ==> segments[1..][i - 1] == segments[i];
    if j == 0 {
      FoldKeepsPrecision(ApplySegment(pt, segments[0]), segments[1..]);
    } else {
      LastFailedPrecisionWins(ApplySegment(pt, segments[0]), segments[1..], j - 1);
    }
  }

  /** This version's `promTagCache`: it only ever holds tags parsed by this
      version's rules, keyed by their raw text. */
  class TagCache {
    var entries: map<string, PromTag>

    ghost predicate Valid()
      reads this
    {
      forall raw :: raw in entries ==> entries[raw] == TagOf(raw)
    }

    constructor ()
      ensures Valid() && entries == map[]
    {
      entries := map[];
    }

    /** `parseTag`: a cached tag is returned as is; otherwise the segments
        are parsed one by one and the result is cached under the raw text.
        Either way the result is `TagOf(raw)` and the cache gains only `raw`. */
    method ParseTag(raw: string) returns (pt: PromTag)
      requires Valid()
      modifies this
      ensures Valid()
      ensures pt == TagOf(raw)
      ensures entries == old(entries)[raw := pt]
      ensures entries.Keys == old(entries).Keys + {raw}
      ensures raw in old(entries) ==> entries == old(entries) && pt == old(entries)[raw]
    {
      if raw in entries {
        pt := entries[raw];
        return;
      }
      var p := Parser.InitialTag;
      var segments := Split(TrimSpace(raw), ';');
      for i := 0 to |segments|
        invariant FoldSegments(p, segments[i..]) == FoldSegments(Parser.InitialTag, segments)
      {
        assert segments[i..][1..] == segments[i + 1..];
        ghost var before := p;
        var segment := TrimSpace(segments[i]);
        var kv := Split(segment, ':');
        if |kv| == 2 {
          var value := TrimSpace(kv[1]);
          if kv[0] == "help" {
            p := p.(help := value);
          } else if kv[0] == "type" {
            if value in Parser.KnownTypes {
              p := p.(typ := value);
            }
          } else if kv[0] == "metricName" {
            if Parser.ValidateName(value) {
              p := p.(metricName := value, isMetric := true);
            }
          } else if kv[0] == "labelName" {
            if Parser.ValidateName(value) {
              p := p.(labelName := value, isLabel := true);
            }
          } else if kv[0] == "valuePrecision" {
            var n := ParseUint8(value);
            if !n.NumOk? {
              p := p.(valuePrecision := n.Returned());
            }
          }
        }
        assert p == ApplySegment(before, segments[i]);
      }
      if p.help == "" {
        p := p.(isMetric := false);
      }
      entries := entries[raw := p];
      pt := p;
    }
  }

  // ---------------------------------------------------------------------
  // ParseMetricer

  /** The `metricer` argument of this version: a nil interface, a value
      that is not a struct, or a struct with its name prefix and its fields
      in declaration order. */
  datatype Metricer =
    | NilMetricer
    | NonStruct
    | Struct(prefix: string, fields: seq<Field>)

  /** How a call ends: with a Go panic, or returning a result. */
  datatype Outcome<T> = Panic | Return(result: Result<T>)

  /** A field with this version's tag and label value. */
  function EntryOf(f: Field): Entry {
    Parser.Entry(f, TagOf(f.tag), TidyLabelValue(f.text))
  }

  /** The fields with their tags, in declaration order. */
  function Entries(fields: seq<Field>): (entries: seq<Entry>)
    ensures |entries| == |fields|
    ensures forall i :: 0 <= i < |fields| ==> entries[i].field == fields[i]
  {
    if fields == [] then [] else Entries(fields[..|fields| - 1]) + [EntryOf(fields[|fields| - 1])]
  }

  /** One more field gives one more entry. */
  lemma EntriesStep(fields: seq<Field>, i: nat)
    requires i < |fields|
    ensures Entries(fields[..i + 1]) == Entries(fields[..i]) + [EntryOf(fields[i])]
  {
    assert fields[..i + 1][..i] == fields[..i];
  }

  /** The entries of a prefix are a prefix of the entries. */
  lemma {:induction false} EntriesPrefix(fields: seq<Field>, n: nat)
    requires n <= |fields|
    ensures Entries(fields)[..n] == Entries(fields[..n])
    decreases |fields|
  {
    if n == |fields| {
      assert fields[..n] == fields;
    } else {
      var init := fields[..|fields| - 1];
      assert init[..n] == fields[..n];
      EntriesPrefix(init, n);
      assert Entries(fields)[..|fields| - 1] == Entries(init);
    }
  }

  /** `strings.Join([]string{prefix, fragment}, "")`. */
  function ComposeName(prefix: string, fragment: string): (name: string)
    ensures name == prefix + fragment
  {
    assert [prefix, fragment][1..] == [fragment];
    assert Join([fragment], "") == fragment;
    Join([prefix, fragment], "")
  }

  /** The metric a metric field gives before labels are attached. The
      call passes the tag's kind where `NewMetric` expects the name and the
      composed name where it expects the kind, so the two end up swapped. */
  function RawMetric(prefix: string, e: Entry, v: real): MetricValue {
    var t := e.tag;
    MetricValue(t.help, ComposeName(prefix, t.metricName), t.typ, map[], v, t.valuePrecision)
  }

  /** The first loop of `ParseMetricer` over a prefix of the fields: the
      metrics so far, or the error of the first metric field that cannot be
      coerced. */
  function Collect(prefix: string, fields: seq<Entry>, parseFloat: string -> Option<real>): Result<seq<MetricValue>>
  {
    if fields == [] then Ok([])
    else
      match Collect(prefix, fields[..|fields| - 1], parseFloat)
      case Err(e) => Err(e)
      case Ok(metrics) =>
        var f := fields[|fields| - 1];
        if !Parser.IsMetricField(f) then Ok(metrics)
        else
          match Parser.Coerce(f.field.text, parseFloat)
          case None => Err(Parser.CoercionError(f.field))
          case Some(v) => Ok(metrics + [RawMetric(prefix, f, v)])
  }

  /** The second loop on one metric: the record's labels, then the
      external map, are merged into its empty label map. */
  function Finish(raw: MetricValue, labels: LabelSet, external: MaybeLabels): MetricValue {
    raw.(labels := MergeAll(raw.labels, [Some(labels), external]))
  }

  /** What `ParseMetricer` does. A nil metricer reaches `NumField` on a nil
      type and panics. */
  function ParseSpec(metricer: Metricer, external: MaybeLabels, parseFloat: string -> Option<real>): Outcome<seq<MetricValue>> {
    match metricer
    case NilMetricer => Panic
    case NonStruct => Return(Err(Parser.NotStructError))
    case Struct(prefix, fields) =>
      var entries := Entries(fields);
      match Collect(prefix, entries, parseFloat)
      case Err(e) => Return(Err(e))
      case Ok(raws) =>
        var labels := Parser.LabelsOf(entries);
        Return(Ok(seq(|raws|, i requires 0 <= i < |raws| => Finish(raws[i], labels, external))))
  }

  /** The first loop fails iff some metric field cannot be coerced, and
      then with the error of the first such field. */
  lemma {:induction false} CollectFails(prefix: string, fields: seq<Entry>, parseFloat: string -> Option<real>)
    ensures Collect(prefix, fields, parseFloat).Err? <==>
              exists j :: 0 <= j < |fields| && Parser.IsBadField(fields[j], parseFloat)
    ensures Collect(prefix, fields, parseFloat).Err? ==>
              exists j :: 0 <= j < |fields| && Parser.IsBadField(fields[j], parseFloat)
                && (forall i :: 0 <= i < j ==> !Parser.IsBadField(fields[i], parseFloat))
                && Collect(prefix, fields, parseFloat).error == Parser.CoercionError(fields[j].field)
  {
    if fields != [] {
      var n := |fields| - 1;
      var init := fields[..n];
      CollectFails(prefix, init, parseFloat);
      assert forall i :: 0 <= i < n ==> init[i] == fields[i];
      var r := Collect(prefix, init, parseFloat);
      var c := Collect(prefix, fields, parseFloat);
      if r.Err? {
        assert c == r;
        var j :| 0 <= j < n && Parser.IsBadField(init[j], parseFloat)
          && (forall i :: 0 <= i < j ==> !Parser.IsBadField(init[i], parseFloat))
          && r.error == Parser.CoercionError(init[j].field);
        assert Parser.IsBadField(fields[j], parseFloat);
      } else if Parser.IsBadField(fields[n], parseFloat) {
        assert c == Err(Parser.CoercionError(fields[n].field));
        assert forall i :: 0 <= i < n ==> !Parser.IsBadField(fields[i], parseFloat);
      } else {
        assert c.Ok?;
        forall j | 0 <= j < |fields| ensures !Parser.IsBadField(fields[j], parseFloat) {
          if j < n {
            assert !Parser.IsBadField(init[j], parseFloat);
          }
        }
      }
    }
  }

  /** A successful first loop yields one metric per metric field, in field
      order, with the composed name `prefix + fragment` in its kind, the
      tag's kind in its name, the coerced value and the tag's help and
      precision. */
  lemma {:induction false} CollectMetrics(prefix: string, fields: seq<Entry>, parseFloat: string -> Option<real>)
    requires Collect(prefix, fields, parseFloat).Ok?
    ensures var metrics := Collect(prefix, fields, parseFloat).value;
            var sources := Parser.MetricFields(fields);
            && |metrics| == |sources|
            && forall j :: 0 <= j < |metrics| ==>
                 Parser.Coerce(sources[j].field.text, parseFloat).Some?
                 && metrics[j] == RawMetric(prefix, sources[j], Parser.Coerce(sources[j].field.text, parseFloat).value)
  {
    if fields != [] {
      var init := fields[..|fields| - 1];
      CollectMetrics(prefix, init, parseFloat);
    }
  }

  /** Once the first loop has failed on a prefix, it fails with that error. */
  lemma {:induction false} CollectPrefixErr(prefix: string, fields: seq<Entry>, parseFloat: string -> Option<real>, n: nat)
    requires n <= |fields| && Collect(prefix, fields[..n], parseFloat).Err?
    ensures Collect(prefix, fields, parseFloat) == Collect(prefix, fields[..n], parseFloat)
    decreases |fields|
  {
    if n == |fields| {
      assert fields[..n] == fields;
    } else {
      var init := fields[..|fields| - 1];
      assert init[..n] == fields[..n];
      CollectPrefixErr(prefix, init, parseFloat, n);
    }
  }

  /** `ParseMetricer` panics on a nil metricer and fails on a non-struct; on
      a struct, a failure names the first metric field whose value is
      neither a float nor a bool, and a success gives one metric per metric
      field, in field order, whose `MetricName` is the tag's kind and whose
      `Type` is `prefix + fragment`. */
  lemma ParseOutcome(metricer: Metricer, external: MaybeLabels, parseFloat: string -> Option<real>)
    ensures metricer.NilMetricer? ==> ParseSpec(metricer, external, parseFloat) == Panic
    ensures metricer.NonStruct? ==> ParseSpec(metricer, external, parseFloat) == Return(Err(Parser.NotStructError))
    ensures metricer.Struct? ==>
      var o := ParseSpec(metricer, external, parseFloat);
      var entries := Entries(metricer.fields);
      var sources := Parser.MetricFields(entries);
      && o.Return?
      && (o.result.Err? <==> exists j :: 0 <= j < |entries| && Parser.IsBadField(entries[j], parseFloat))
      && (o.result.Err? ==>
            exists j :: 0 <= j < |entries| && Parser.IsBadField(entries[j], parseFloat)
              && (forall i :: 0 <= i < j ==> !Parser.IsBadField(entries[i], parseFloat))
              && o.result.error == Parser.CoercionError(metricer.fields[j]))
      && (o.result.Ok? ==> |o.result.value| == |sources| && forall j :: 0 <= j < |sources| ==>
            && o.result.value[j].metricName == sources[j].tag.typ
            && o.result.value[j].typ == metricer.prefix + sources[j].tag.metricName
            && Parser.Coerce(sources[j].field.text, parseFloat) == Some(o.result.value[j].value)
            && o.result.value[j].help == sources[j].tag.help
            && o.result.value[j].valuePrecision == sources[j].tag.valuePrecision)
  {
    if metricer.Struct? {
      var entries := Entries(metricer.fields);
      CollectFails(metricer.prefix, entries, parseFloat);
      var c := Collect(metricer.prefix, entries, parseFloat);
      if c.Ok? {
        CollectMetrics(metricer.prefix, entries, parseFloat);
      }
    }
  }

  /** The labels of the `j`-th metric: a key is present iff the external
      map or the record holds it; the external map wins over the record,
      and nothing is excluded, so even a field's own label stays. */
  lemma ParseLabels(metricer: Metricer, external: MaybeLabels, parseFloat: string -> Option<real>, j: nat, k: string)
    requires metricer.Struct? && ParseSpec(metricer, external, parseFloat).Return?
    requires ParseSpec(metricer, external, parseFloat).result.Ok?
    requires j < |ParseSpec(metricer, external, parseFloat).result.value|
    ensures var m := ParseSpec(metricer, external, parseFloat).result.value[j];
            var labels := Parser.LabelsOf(Entries(metricer.fields));
            && (k in m.labels <==> k in labels || Has(external, k))
            && (Has(external, k) ==> m.labels[k] == external.value[k])
            && (k in labels && !Has(external, k) ==> m.labels[k] == labels[k])
  {
    var entries := Entries(metricer.fields);
    CollectMetrics(metricer.prefix, entries, parseFloat);
    var raws := Collect(metricer.prefix, entries, parseFloat).value;
    var labels := Parser.LabelsOf(entries);
    var maps := [Some(labels), external];
    assert raws[j].labels == map[];
    MergeAllLastWins(map[], maps, k);
  }

  // ---------------------------------------------------------------------
  // The loops of ParseMetricer

  /** One pass of the first loop: the field's tag goes through the cache, a
      label field records its value and a metric field gives a metric.
      Stated against the loop's state so far (`prev`, `raws`). */
  method VisitField(cache: TagCache, prefix: string, f: Field, parseFloat: string -> Option<real>,
                    ghost prev: seq<Entry>, raws: seq<MetricValue>, recordLabels: LabelSet)
    returns (e: Entry, failed: bool, raws': seq<MetricValue>, labels: LabelSet)
    requires cache.Valid()
    requires Collect(prefix, prev, parseFloat) == Ok(raws) && recordLabels == Parser.LabelsOf(prev)
    modifies cache
    ensures cache.Valid() && old(cache.entries).Keys <= cache.entries.Keys
    ensures cache.entries.Keys == old(cache.entries).Keys + {f.tag}
    ensures e == EntryOf(f)
    ensures var c := Collect(prefix, prev + [e], parseFloat);
            && (failed <==> c.Err?)
            && (c.Err? ==> c.error == Parser.CoercionError(f))
            && (c.Ok? ==> c.value == raws' && labels == Parser.LabelsOf(prev + [e]))
  {
    var pt := cache.ParseTag(f.tag);
    e := Parser.Entry(f, pt, TidyLabelValue(f.text));
    ghost var next := prev + [e];
    assert next[..|prev|] == prev;
    failed, raws', labels := false, raws, recordLabels;
    if pt.isLabel || pt.isMetric {
      if pt.isLabel {
        labels := labels[pt.labelName := e.labelValue];
      }
      if pt.isMetric {
        var v := Parser.CoerceValue(f.text, parseFloat);
        if v.None? {
          return e, true, raws', labels;
        }
        var name := Join([prefix, pt.metricName], "");
        assert name == ComposeName(prefix, pt.metricName);
        raws' := raws' + [MetricValue(pt.help, name, pt.typ, map[], v.value, pt.valuePrecision)];
      }
    }
  }

  /** The first loop of `ParseMetricer`. */
  method CollectFields(cache: TagCache, prefix: string, fields: seq<Field>, parseFloat: string -> Option<real>)
    returns (r: Result<seq<MetricValue>>, recordLabels: LabelSet)
    requires cache.Valid()
    modifies cache
    ensures cache.Valid() && old(cache.entries).Keys <= cache.entries.Keys
    ensures r == Collect(prefix, Entries(fields), parseFloat)
    ensures r.Ok? ==> recordLabels == Parser.LabelsOf(Entries(fields))
  {
    ghost var entries: seq<Entry> := [];
    var raws: seq<MetricValue> := [];
    recordLabels := map[];
    for i := 0 to |fields|
      invariant cache.Valid() && old(cache.entries).Keys <= cache.entries.Keys
      invariant entries == Entries(fields[..i])
      invariant Collect(prefix, entries, parseFloat) == Ok(raws)
      invariant recordLabels == Parser.LabelsOf(entries)
    {
      var e, failed;
      e, failed, raws, recordLabels := VisitField(cache, prefix, fields[i], parseFloat, entries, raws, recordLabels);
      EntriesStep(fields, i);
      if failed {
        EntriesPrefix(fields, i + 1);
        CollectPrefixErr(prefix, Entries(fields), parseFloat, i + 1);
        r := Err(Parser.CoercionError(fields[i]));
        return;
      }
      entries := entries + [e];
    }
    assert fields[..|fields|] == fields;
    r := Ok(raws);
  }

  /** The second loop of `ParseMetricer`: each metric gets the record's
      labels and then the external map. The metric objects are allocated
      here, one per collected metric, in order. */
  method AttachLabels(raws: seq<MetricValue>, recordLabels: LabelSet, external: MaybeLabels)
    returns (metrics: seq<Metric>)
    requires forall j :: 0 <= j < |raws| ==> raws[j].labels == map[] && 0 <= raws[j].valuePrecision < 256
    ensures |metrics| == |raws|
    ensures forall j :: 0 <= j < |metrics| ==>
              && fresh(metrics[j]) && metrics[j].labels.Some?
              && metrics[j].View() == Finish(raws[j], recordLabels, external)
    ensures forall i, j :: 0 <= i < j < |metrics| ==> metrics[i] != metrics[j]
  {
    metrics := [];
    for k := 0 to |raws|
      invariant |metrics| == k
      invariant forall j :: 0 <= j < k ==>
                  && fresh(metrics[j]) && metrics[j].labels.Some?
                  && metrics[j].View() == Finish(raws[j], recordLabels, external)
      invariant forall i, j :: 0 <= i < j < k ==> metrics[i] != metrics[j]
    {
      var m := FinishMetric(raws[k], recordLabels, external);
      metrics := metrics + [m];
    }
  }

  /** One pass of the second loop: a new metric from the raw one, with the
      record's labels and then the external map merged in. */
  method FinishMetric(raw: MetricValue, recordLabels: LabelSet, external: MaybeLabels) returns (m: Metric)
    requires raw.labels == map[] && 0 <= raw.valuePrecision < 256
    ensures fresh(m) && m.labels.Some? && m.View() == Finish(raw, recordLabels, external)
  {
    m := new Metric(raw.help, raw.metricName, raw.typ, None, raw.value, raw.valuePrecision);
    m.ExtendLabel([Some(recordLabels), external]);
  }

  /** `ParseMetricer`: the outcome is `ParseSpec`'s. */
  method ParseMetricer(cache: TagCache, metricer: Metricer, external: MaybeLabels, parseFloat: string -> Option<real>)
    returns (o: Outcome<seq<Metric>>)
    requires cache.Valid()
    modifies cache
    ensures cache.Valid() && old(cache.entries).Keys <= cache.entries.Keys
    ensures !metricer.Struct? ==> cache.entries == old(cache.entries)
    ensures var spec := ParseSpec(metricer, external, parseFloat);
            && (o.Panic? <==> spec.Panic?)
            && (o.Return? ==>
                  && (o.result.Err? <==> spec.result.Err?)
                  && (o.result.Err? ==> o.result.error == spec.result.error)
                  && (o.result.Ok? ==>
                        && |o.result.value| == |spec.result.value|
                        && (forall i :: 0 <= i < |o.result.value| ==>
                              fresh(o.result.value[i]) && o.result.value[i].labels.Some?
                              && o.result.value[i].View() == spec.result.value[i])
                        && (forall i, j :: 0 <= i < j < |o.result.value| ==> o.result.value[i] != o.result.value[j])))
  {
    match metricer {
      case NilMetricer =>
        o := Panic;
      case NonStruct =>
        o := Return(Err(Parser.NotStructError));
      case Struct(prefix, fields) =>
        var raws, recordLabels := CollectFields(cache, prefix, fields, parseFloat);
        if raws.Err? {
          o := Return(Err(raws.error));
        } else {
          var metrics := BuildMetrics(prefix, fields, raws.value, recordLabels, external, parseFloat);
          o := Return(Ok(metrics));
        }
    }
  }

  /** The success path of `ParseMetricer`: the metrics built from what the
      field loop collected are `ParseSpec`'s, as fresh, distinct objects. */
  method BuildMetrics(prefix: string, fields: seq<Field>, raws: seq<MetricValue>, recordLabels: LabelSet,
                      external: MaybeLabels, parseFloat: string -> Option<real>)
    returns (metrics: seq<Metric>)
    requires Collect(prefix, Entries(fields), parseFloat) == Ok(raws)
    requires recordLabels == Parser.LabelsOf(Entries(fields))
    ensures var spec := ParseSpec(Struct(prefix, fields), external, parseFloat);
            && spec == Return(Ok(spec.result.value))
            && |metrics| == |spec.result.value|
            && (forall i :: 0 <= i < |metrics| ==>
                  fresh(metrics[i]) && metrics[i].labels.Some? && metrics[i].View() == spec.result.value[i])
            && (forall i, j :: 0 <= i < j < |metrics| ==> metrics[i] != metrics[j])
  {
    RawsFit(prefix, fields, raws, parseFloat);
    metrics := AttachLabels(raws, recordLabels, external);
  }

  /** Every metric the field loop collects has no labels yet and a precision
      taken from a parsed tag, so within the `uint8` range. */
  lemma RawsFit(prefix: string, fields: seq<Field>, raws: seq<MetricValue>, parseFloat: string -> Option<real>)
    requires Collect(prefix, Entries(fields), parseFloat) == Ok(raws)
    ensures forall j :: 0 <= j < |raws| ==> raws[j].labels == map[] && 0 <= raws[j].valuePrecision < 256
  {
    var entries := Entries(fields);
    CollectMetrics(prefix, entries, parseFloat);
    forall j | 0 <= j < |raws| ensures raws[j].labels == map[] && 0 <= raws[j].valuePrecision < 256 {
      var e := Parser.MetricFields(entries)[j];
      MetricFieldsIn(entries, e);
      EntriesTags(fields, e);
    }
  }

  lemma {:induction false} MetricFieldsIn(entries: seq<Entry>, e: Entry)
    requires e in Parser.MetricFields(entries)
    ensures e in entries
  {
    if entries != [] {
      var init := entries[..|entries| - 1];
      if e in Parser.MetricFields(init) {
        MetricFieldsIn(init, e);
        assert init <= entries;
      }
    }
  }

  lemma {:induction false} EntriesTags(fields: seq<Field>, e: Entry)
    requires e in Entries(fields)
    ensures e.tag == TagOf(e.field.tag)
  {
    if fields != [] {
      var init := fields[..|fields| - 1];
      if e in Entries(init) {
        EntriesTags(init, e);
      }
    }
  }
}
