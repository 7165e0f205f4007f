/** parser.go, the current version of the extractor: the name and
    label-value rules, the tag parser with its process-wide cache, and
    `Parse`, which turns one record into labelled samples. */
module Parser {
  import opened Wrappers
  import opened Text
  import opened Strconv
  import opened Labels
  import opened Samples

  /** The metric kinds of `mTypeMapping`; any other `type` value is ignored. */
  const KnownTypes: set<string> := {"gauge", "counter", "histogram", "summary"}

  /** The characters that make a label value illegal: `{`, `}`, `"` and `\`. */
  const IllegalChars: set<char> := {'{', '}', '"', '\\'}

  predicate IsNameChar(c: char) {
    ('A' <= c <= 'Z') || ('a' <= c <= 'z') || ('0' <= c <= '9') || c == '_' || c == '-'
  }

  /** The body `[A-Za-z0-9_-]*` of the name regexp, matched character by character. */
  predicate NameChars(s: string) {
    s == [] || (IsNameChar(s[0]) && NameChars(s[1..]))
  }

  /** `validateName`: a full match of `^[A-Za-z0-9_-]{2,}$`. */
  function ValidateName(name: string): (ok: bool)
    ensures ok <==> |name| >= 2 && forall i :: 0 <= i < |name| ==> IsNameChar(name[i])
  {
    NameCharsAll(name);
    |name| >= 2 && NameChars(name)
  }

  lemma {:induction false} NameCharsAll(s: string)
    ensures NameChars(s) <==> forall i :: 0 <= i < |s| ==> IsNameChar(s[i])
  {
    if s != [] {
      NameCharsAll(s[1..]);
      assert forall i :: 1 <= i < |s| ==> s[i] == s[1..][i - 1];
    }
  }

  /** A search for `[{}"\\]+` anywhere in `s`. */
  predicate HasIllegalChar(s: string) {
    s != [] && (s[0] in IllegalChars || HasIllegalChar(s[1..]))
  }

  lemma {:induction false} HasIllegalCharAny(s: string)
    ensures HasIllegalChar(s) <==> ContainsAny(s, IllegalChars)
  {
    if s != [] {
      HasIllegalCharAny(s[1..]);
      assert forall i :: 1 <= i < |s| ==> s[i] == s[1..][i - 1];
      if ContainsAny(s, IllegalChars) && s[0] !in IllegalChars {
        var i :| 0 <= i < |s| && s[i] in IllegalChars;
        assert s[1..][i - 1] in IllegalChars;
      }
    }
  }

  /** The label-value rule with a given sentinel: a value holding an illegal
      character is replaced as a whole, any other value is kept. */
  function Sanitize(value: string, sentinel: string): (r: string)
    ensures ContainsAny(value, IllegalChars) ==> r == sentinel
    ensures !ContainsAny(value, IllegalChars) ==> r == value
  {
    HasIllegalCharAny(value);
    if HasIllegalChar(value) then sentinel else value
  }

  /** `tidyLabelValue`: illegal values become "illegal"; the result never
      holds an illegal character. */
  function TidyLabelValue(value: string): (r: string)
    ensures ContainsAny(value, IllegalChars) ==> r == "illegal"
    ensures !ContainsAny(value, IllegalChars) ==> r == value
    ensures !ContainsAny(r, IllegalChars)
  {
    assert !ContainsAny("illegal", IllegalChars) by {
      forall i | 0 <= i < |"illegal"| ensures "illegal"[i] !in IllegalChars {
      }
    }
    Sanitize(value, "illegal")
  }

  /** `promTag`: the parsed form of one field's `prom` tag. */
  datatype PromTag = PromTag(
    isMetric: bool,
    isLabel: bool,
    help: string,
    typ: string,
    metricName: string,
    labelName: string,
    valuePrecision: int)

  /** The tag before any segment is read: gauge, precision 0, neither flag. */
  const InitialTag := PromTag(false, false, "", "gauge", "", "", 0)

  /** A segment, trimmed and split at `:`, when that gives exactly two parts:
      the untrimmed key and the trimmed value. */
  function Pair(segment: string): Option<(string, string)> {
    var kv := Split(TrimSpace(segment), ':');
    if |kv| != 2 then None else Some((kv[0], TrimSpace(kv[1])))
  }

  /** The segment is a well-formed pair whose key is `key`. */
  predicate HasKey(segment: string, key: string) {
    Pair(segment).Some? && Pair(segment).value.0 == key
  }

  /** The `valuePrecision` rule as written: the error test is inverted, so a
      value that parses as an int8 gives 2 and a failed parse gives the value
      `ParseInt` returns with its error (0, or the clamped bound). */
  function PrecisionOf(text: string): (p: int)
    ensures ParseInt8(text).NumOk? ==> p == 2
    ensures ParseInt8(text).SyntaxError? ==> p == 0
    ensures ParseInt8(text).RangeError? ==> p == 127 || p == -128
  {
    var r := ParseInt8(text);
    if r.NumOk? then 2 else r.Returned()
  }

  /** Which texts give which precision: 2 exactly for a well-formed signed
      decimal in the int8 range; the clamped bound exactly for a decimal
      outside it or digits passing 255 before a non-digit, so
      `valuePrecision: 1000x` gives 127; 0 for everything else. */
  lemma PrecisionOfClasses(text: string)
    ensures var digits := Unsigned(text);
            var bound := if Negative(text) then 128 else 127;
            && (PrecisionOf(text) == 2 <==> text != [] && digits != [] && AllDigits(digits) && Decimal(digits) <= bound)
            && (PrecisionOf(text) == (if Negative(text) then -128 else 127) <==>
                  text != [] && ((digits != [] && AllDigits(digits) && Decimal(digits) > bound) || Overflows(digits, MaxUint8)))
            && (PrecisionOf(text) == 0 <==>
                  text == [] || (!(digits != [] && AllDigits(digits)) && !Overflows(digits, MaxUint8)))
    ensures PrecisionOf("1000x") == 127 && PrecisionOf("-1000x") == -128
  {
    if text != [] {
      ParseInt8Classes(text);
    }
    ParseInt8LateJunk();
  }

  /** One pass of the `switch` in `parseTag`. */
  function ApplySegment(pt: PromTag, segment: string): PromTag {
    match Pair(segment)
    case None => pt
    case Some((key, value)) => ApplyPair(pt, key, value)
  }

  /** The effect of one well-formed `key: value` segment. */
  function ApplyPair(pt: PromTag, key: string, value: string): PromTag {
      if key == "help" then pt.(help := value)
      else if key == "type" then (if value in KnownTypes then pt.(typ := value) else pt)
      else if key == "metricName" then
        (if ValidateName(value) then pt.(metricName := value, isMetric := true) else pt)
      else if key == "labelName" then
        (if ValidateName(value) then pt.(labelName := value, isLabel := true) else pt)
      else if key == "valuePrecision" then pt.(valuePrecision := PrecisionOf(value))
      else pt
  }

  /** The segments of a raw tag: trimmed, then split at `;`. */
  function Segments(raw: string): seq<string> {
    Split(TrimSpace(raw), ';')
  }

  function FoldSegments(pt: PromTag, segments: seq<string>): PromTag
    decreases segments
  {
    if segments == [] then pt else FoldSegments(ApplySegment(pt, segments[0]), segments[1..])
  }

  /** A tag with no help text is not a metric. */
  function RequireHelp(pt: PromTag): PromTag {
    if pt.help == "" then pt.(isMetric := false) else pt
  }

  /** What the flags promise about the names, and the ranges of kind and precision. */
  predicate WellFormed(pt: PromTag) {
    && (pt.isMetric ==> ValidateName(pt.metricName))
    && (pt.isLabel ==> ValidateName(pt.labelName))
    && pt.typ in KnownTypes
    && pt.valuePrecision in {0, 2, 127, -128}
  }

  lemma ApplyPairWellFormed(pt: PromTag, key: string, value: string)
    requires WellFormed(pt)
    ensures WellFormed(ApplyPair(pt, key, value))
  {
    var r := ApplyPair(pt, key, value);
    if key == "help" || key == "type" {
      assert r.isMetric == pt.isMetric && r.metricName == pt.metricName;
      assert r.isLabel == pt.isLabel && r.labelName == pt.labelName;
    } else if key == "valuePrecision" {
      var p := PrecisionOf(value);
      assert p == 2 || p == 0 || p == 127 || p == -128;
    }
  }

  lemma ApplyWellFormed(pt: PromTag, segment: string)
    requires WellFormed(pt)
    ensures WellFormed(ApplySegment(pt, segment))
  {
    if Pair(segment).Some? {
      ApplyPairWellFormed(pt, Pair(segment).value.0, Pair(segment).value.1);
    }
  }

  lemma {:induction false} FoldWellFormed(pt: PromTag, segments: seq<string>)
    requires WellFormed(pt)
    ensures WellFormed(FoldSegments(pt, segments))
    decreases segments
  {
    if segments != [] {
      ApplyWellFormed(pt, segments[0]);
      FoldWellFormed(ApplySegment(pt, segments[0]), segments[1..]);
    }
  }

  /** `parseTag` without the cache. A metric always has help text and a valid
      name, a label a valid name; the kind is one of the four, and the
      precision is one of the values the inverted rule can give. */
  function TagOf(raw: string): (pt: PromTag)
    ensures pt.isMetric ==> pt.help != "" && ValidateName(pt.metricName)
    ensures pt.isLabel ==> ValidateName(pt.labelName)
    ensures pt.help == "" ==> !pt.isMetric
    ensures pt.typ in KnownTypes
    ensures pt.valuePrecision in {0, 2, 127, -128}
  {
    FoldWellFormed(InitialTag, Segments(raw));
    RequireHelp(FoldSegments(InitialTag, Segments(raw)))
  }

  /** A segment whose trimmed text does not hold exactly one `:` is skipped,
      so a help text with a colon in it is dropped. */
  lemma SegmentNeedsOneColon(pt: PromTag, segment: string)
    requires Count(TrimSpace(segment), ':') != 1
    ensures ApplySegment(pt, segment) == pt
  {
    SplitLength(TrimSpace(segment), ':');
  }

  /** Segments with an unknown key, and `type` values outside the four kinds, change nothing. */
  lemma UnknownKeyIgnored(pt: PromTag, segment: string)
    requires Pair(segment).Some?
    requires Pair(segment).value.0 !in {"help", "type", "metricName", "labelName", "valuePrecision"}
      || (Pair(segment).value.0 == "type" && Pair(segment).value.1 !in KnownTypes)
    ensures ApplySegment(pt, segment) == pt
  {
  }

  lemma ApplyUntouched(pt: PromTag, segment: string)
    ensures !HasKey(segment, "valuePrecision") ==> ApplySegment(pt, segment).valuePrecision == pt.valuePrecision
    ensures !HasKey(segment, "help") ==> ApplySegment(pt, segment).help == pt.help
  {
    if Pair(segment).Some? {
      var (key, value) := Pair(segment).value;
      assert ApplySegment(pt, segment) == ApplyPair(pt, key, value);
    }
  }

  /** A field no segment names keeps its initial value. */
  lemma {:induction false} FoldUntouched(pt: PromTag, segments: seq<string>)
    ensures (forall i :: 0 <= i < |segments| ==> !HasKey(segments[i], "valuePrecision")) ==>
              FoldSegments(pt, segments).valuePrecision == pt.valuePrecision
    ensures (forall i :: 0 <= i < |segments| ==> !HasKey(segments[i], "help")) ==>
              FoldSegments(pt, segments).help == pt.help
    decreases segments
  {
    if segments != [] {
      ApplyUntouched(pt, segments[0]);
      FoldUntouched(ApplySegment(pt, segments[0]), segments[1..]);
      assert forall i :: 1 <= i < |segments| ==> segments[1..][i - 1] == segments[i];
    }
  }

  /** A tag without a `help` segment is never a metric, and without a
      `valuePrecision` segment its precision is 0. */
  lemma MissingKeys(raw: string)
    ensures (forall s :: s in Segments(raw) ==> !HasKey(s, "help")) ==>
              TagOf(raw).help == "" && !TagOf(raw).isMetric
    ensures (forall s :: s in Segments(raw) ==> !HasKey(s, "valuePrecision")) ==>
              TagOf(raw).valuePrecision == 0
  {
    FoldUntouched(InitialTag, Segments(raw));
  }

  /** The last `valuePrecision` segment decides the precision: 2 when its
      value parses as an int8, 0 when it is not a number. */
  lemma {:induction false} LastPrecisionWins(pt: PromTag, segments: seq<string>, j: nat)
    requires j < |segments| && HasKey(segments[j], "valuePrecision")
    requires forall i :: j < i < |segments| ==> !HasKey(segments[i], "valuePrecision")
    ensures FoldSegments(pt, segments).valuePrecision == PrecisionOf(Pair(segments[j]).value.1)
    decreases segments
  {
    if j == 0 {
      FoldUntouched(ApplySegment(pt, segments[0]), segments[1..]);
      assert forall i :: 1 <= i < |segments| ==> segments[1..][i - 1] == segments[i];
    } else {
      LastPrecisionWins(ApplySegment(pt, segments[0]), segments[1..], j - 1);
    }
  }

  /** The process-wide `promTagCache`: it only ever holds parsed tags keyed
      by their raw text. */
  class TagCache {
    var entries: map<string, PromTag>

    ghost predicate Valid()
      reads this
    {
      forall raw :: raw in entries ==> entries[raw] == TagOf(raw)
    }

    constructor ()
      ensures Valid() && entries == map[]
    {
      entries := map[];
    }

    /** `parseTag`: a cached tag is returned as is; otherwise the segments
        are parsed one by one and the result is cached under the raw text.
        Either way the result is `TagOf(raw)` and the cache gains only `raw`. */
    method ParseTag(raw: string) returns (pt: PromTag)
      requires Valid()
      modifies this
      ensures Valid()
      ensures pt == TagOf(raw)
      ensures entries == old(entries)[raw := pt]
      ensures entries.Keys == old(entries).Keys + {raw}
      ensures raw in old(entries) ==> entries == old(entries) && pt == old(entries)[raw]
    {
      if raw in entries {
        pt := entries[raw];
        return;
      }
      var p := InitialTag;
      var segments := Split(TrimSpace(raw), ';');
      for i := 0 to |segments|
        invariant FoldSegments(p, segments[i..]) == FoldSegments(InitialTag, segments)
      {
        assert segments[i..][1..] == segments[i + 1..];
        ghost var before := p;
        var segment := TrimSpace(segments[i]);
        var kv := Split(segment, ':');
        if |kv| == 2 {
          var value := TrimSpace(kv[1]);
          if kv[0] == "help" {
            p := p.(help := value);
          } else if kv[0] == "type" {
            if value in KnownTypes {
              p := p.(typ := value);
            }
          } else if kv[0] == "metricName" {
            if ValidateName(value) {
              p := p.(metricName := value, isMetric := true);
            }
          } else if kv[0] == "labelName" {
            if ValidateName(value) {
              p := p.(labelName := value, isLabel := true);
            }
          } else if kv[0] == "valuePrecision" {
            var n := ParseInt8(value);
            if n.NumOk? {
              p := p.(valuePrecision := 2);
            } else {
              p := p.(valuePrecision := n.Returned());
            }
          }
        }
        assert p == ApplySegment(before, segments[i]);
      }
      if p.help == "" {
        p := p.(isMetric := false);
      }
      entries := entries[raw := p];
      pt := p;
    }
  }

  // ---------------------------------------------------------------------
  // Parse

  /** One struct field: its Go name, its `prom` tag text, and its value as
      `fmt.Sprint` prints it. */
  datatype Field = Field(name: string, tag: string, text: string)

  /** The `metricer` argument: a nil interface, a value that is not a
      struct, or a struct with its naming contract and its fields in
      declaration order. */
  datatype Metricer =
    | NilMetricer
    | NonStruct
    | Struct(prefix: string, suffix: string, separator: string, fields: seq<Field>)

  /** A field as `Parse` sees it: with its parsed tag and its value as a
      label would hold it. */
  datatype Entry = Entry(field: Field, tag: PromTag, labelValue: string)

  /** A field with its parsed tag and its sanitized label value. */
  function EntryOf(f: Field): Entry {
    Entry(f, TagOf(f.tag), TidyLabelValue(f.text))
  }

  /** The fields with their tags, in declaration order. */
  function Entries(fields: seq<Field>): (entries: seq<Entry>)
    ensures |entries| == |fields|
    ensures forall i :: 0 <= i < |fields| ==> entries[i].field == fields[i]
  {
    if fields == [] then [] else Entries(fields[..|fields| - 1]) + [EntryOf(fields[|fields| - 1])]
  }

  /** One more field gives one more entry. */
  lemma EntriesStep(fields: seq<Field>, i: nat)
    requires i < |fields|
    ensures Entries(fields[..i + 1]) == Entries(fields[..i]) + [EntryOf(fields[i])]
  {
    assert fields[..i + 1][..i] == fields[..i];
  }

  /** The entries of a prefix are a prefix of the entries. */
  lemma {:induction false} EntriesPrefix(fields: seq<Field>, n: nat)
    requires n <= |fields|
    ensures Entries(fields)[..n] == Entries(fields[..n])
    decreases |fields|
  {
    if n == |fields| {
      assert fields[..n] == fields;
    } else {
      var init := fields[..|fields| - 1];
      assert init[..n] == fields[..n];
      EntriesPrefix(init, n);
      assert Entries(fields)[..|fields| - 1] == Entries(init);
    }
  }

  /** The `i`-th entry is the `i`-th field's. */
  lemma {:induction false} EntriesAt(fields: seq<Field>, i: nat)
    requires i < |fields|
    ensures Entries(fields)[i] == EntryOf(fields[i])
    decreases |fields|
  {
    if i < |fields| - 1 {
      EntriesAt(fields[..|fields| - 1], i);
    }
  }

  /** The error for a metricer that is not a struct. */
  const NotStructError := PromError("metricer 必须是一个 struct!")

  /** The error for a metric field whose value is neither a float nor a bool;
      it names the field and its value. */
  function CoercionError(f: Field): (e: PromError)
    ensures Contains(e.msg, f.name) && Contains(e.msg, f.text)
  {
    var before := "不可用的指标字段(";
    var middle := ")的值(";
    var after := ") 必须是一个可float/bool的字段";
    var msg := before + f.name + middle + f.text + after;
    ContainsInfix(before, f.name, middle + f.text + after);
    assert msg == before + f.name + (middle + f.text + after);
    ContainsInfix(before + f.name + middle, f.text, after);
    PromError(msg)
  }

  /** `strings.Join([prefix, fragment, suffix], separator)`. */
  function ComposeName(prefix: string, fragment: string, suffix: string, separator: string): (name: string)
    ensures name == prefix + separator + fragment + separator + suffix
  {
    assert [prefix, fragment, suffix][1..] == [fragment, suffix];
    assert [fragment, suffix][1..] == [suffix];
    assert Join([suffix], separator) == suffix;
    assert Join([fragment, suffix], separator) == fragment + separator + suffix;
    assert Join([prefix, fragment, suffix], separator) == prefix + separator + (fragment + separator + suffix);
    Join([prefix, fragment, suffix], separator)
  }

  /** The value of a metric field: its float parse, else its bool parse
      with true as 1 and false as 0, else nothing. */
  function Coerce(text: string, parseFloat: string -> Option<real>): (v: Option<real>)
    ensures parseFloat(text).Some? ==> v == parseFloat(text)
    ensures parseFloat(text).None? && ParseBool(text) == Some(true) ==> v == Some(1.0)
    ensures parseFloat(text).None? && ParseBool(text) == Some(false) ==> v == Some(0.0)
    ensures v.None? <==> parseFloat(text).None? && ParseBool(text).None?
  {
    match parseFloat(text)
    case Some(f) => Some(f)
    case None =>
      match ParseBool(text)
      case Some(b) => Some(if b then 1.0 else 0.0)
      case None => None
  }

  predicate IsMetricField(e: Entry) { e.tag.isMetric }
  predicate IsLabelField(e: Entry) { e.tag.isLabel }

  /** A metric field whose value cannot be coerced: it aborts `Parse`. */
  predicate IsBadField(e: Entry, parseFloat: string -> Option<real>) {
    IsMetricField(e) && Coerce(e.field.text, parseFloat).None?
  }

  /** The fields that produce samples, in declaration order. */
  function MetricFields(fields: seq<Entry>): seq<Entry> {
    if fields == [] then []
    else MetricFields(fields[..|fields| - 1]) + (if IsMetricField(fields[|fields| - 1]) then [fields[|fields| - 1]] else [])
  }

  /** The sample a metric field gives before labels are attached. */
  function RawSample(prefix: string, suffix: string, separator: string, e: Entry, v: real): SampleValue {
    var t := e.tag;
    SampleValue(t.help, t.typ, ComposeName(prefix, t.metricName, suffix, separator), map[], v, t.valuePrecision)
  }

  /** The first loop of `Parse` over a prefix of the fields: the samples so
      far, or the error of the first metric field that cannot be coerced. */
  function Collect(prefix: string, suffix: string, separator: string, fields: seq<Entry>,
                   parseFloat: string -> Option<real>): Result<seq<SampleValue>>
  {
    if fields == [] then Ok([])
    else
      match Collect(prefix, suffix, separator, fields[..|fields| - 1], parseFloat)
      case Err(e) => Err(e)
      case Ok(samples) =>
        var f := fields[|fields| - 1];
        if !IsMetricField(f) then Ok(samples)
        else
          match Coerce(f.field.text, parseFloat)
          case None => Err(CoercionError(f.field))
          case Some(v) => Ok(samples + [RawSample(prefix, suffix, separator, f, v)])
  }

  /** The per-record label map: each label field's sanitised value under its
      label name, later fields overwriting earlier ones. */
  function LabelsOf(fields: seq<Entry>): LabelSet {
    if fields == [] then map[]
    else
      var f := fields[|fields| - 1];
      var init := LabelsOf(fields[..|fields| - 1]);
      if IsLabelField(f) then init[f.tag.labelName := f.labelValue] else init
  }

  /** `excludeLabel`: for every field that is both a metric and a label, its
      composed metric name mapped to its own label name. */
  function ExcludesOf(prefix: string, suffix: string, separator: string, fields: seq<Entry>): map<string, string> {
    if fields == [] then map[]
    else
      var t := fields[|fields| - 1].tag;
      var init := ExcludesOf(prefix, suffix, separator, fields[..|fields| - 1]);
      if t.isMetric && t.isLabel then init[ComposeName(prefix, t.metricName, suffix, separator) := t.labelName]
      else init
  }

  /** `excludeLabel[name]`, which is "" for a name with no entry. */
  function ExcludedKey(excludes: map<string, string>, name: string): string {
    if name in excludes then excludes[name] else ""
  }

  /** The second loop of `Parse` on one sample: the external maps, then the
      record's labels, are merged in; then the excluded key is deleted. */
  function Finish(raw: SampleValue, external: seq<MaybeLabels>, labels: LabelSet, excludes: map<string, string>): SampleValue {
    raw.(labels := Deleted(MergeAll(raw.labels, external + [Some(labels)]), [ExcludedKey(excludes, raw.metricName)]))
  }

  /** What `Parse` returns. */
  function ParseSpec(metricer: Metricer, external: seq<MaybeLabels>, parseFloat: string -> Option<real>): Result<seq<SampleValue>> {
    match metricer
    case NilMetricer => Ok([])
    case NonStruct => Err(NotStructError)
    case Struct(prefix, suffix, separator, fields) =>
      var entries := Entries(fields);
      match Collect(prefix, suffix, separator, entries, parseFloat)
      case Err(e) => Err(e)
      case Ok(raws) =>
        var labels := LabelsOf(entries);
        var excludes := ExcludesOf(prefix, suffix, separator, entries);
        Ok(seq(|raws|, i requires 0 <= i < |raws| => Finish(raws[i], external, labels, excludes)))
  }

  /** `Parse` fails iff some metric field cannot be coerced, and then with
      the error of the first such field. */
  lemma {:induction false} CollectFails(prefix: string, suffix: string, separator: string, fields: seq<Entry>,
                                        parseFloat: string -> Option<real>)
    ensures Collect(prefix, suffix, separator, fields, parseFloat).Err? <==>
              exists j :: 0 <= j < |fields| && IsBadField(fields[j], parseFloat)
    ensures Collect(prefix, suffix, separator, fields, parseFloat).Err? ==>
              exists j :: 0 <= j < |fields| && IsBadField(fields[j], parseFloat)
                && (forall i :: 0 <= i < j ==> !IsBadField(fields[i], parseFloat))
                && Collect(prefix, suffix, separator, fields, parseFloat).error == CoercionError(fields[j].field)
  {
    if fields != [] {
      var n := |fields| - 1;
      var init := fields[..n];
      CollectFails(prefix, suffix, separator, init, parseFloat);
      assert forall i :: 0 <= i < n ==> init[i] == fields[i];
      var r := Collect(prefix, suffix, separator, init, parseFloat);
      var c := Collect(prefix, suffix, separator, fields, parseFloat);
      if r.Err? {
        assert c == r;
        var j :| 0 <= j < n && IsBadField(init[j], parseFloat)
          && (forall i :: 0 <= i < j ==> !IsBadField(init[i], parseFloat)) && r.error == CoercionError(init[j].field);
        assert IsBadField(fields[j], parseFloat);
      } else if IsBadField(fields[n], parseFloat) {
        assert c == Err(CoercionError(fields[n].field));
        assert forall i :: 0 <= i < n ==> !IsBadField(fields[i], parseFloat);
      } else {
        assert c.Ok?;
        forall j | 0 <= j < |fields| ensures !IsBadField(fields[j], parseFloat) {
          if j < n {
            assert !IsBadField(init[j], parseFloat);
          }
        }
      }
    }
  }

  /** A successful first loop yields one sample per metric field, in field
      order, named `prefix + separator + fragment + separator + suffix` and
      holding the coerced value and the tag's help, kind and precision. */
  lemma {:induction false} CollectSamples(prefix: string, suffix: string, separator: string, fields: seq<Entry>,
                                          parseFloat: string -> Option<real>)
    requires Collect(prefix, suffix, separator, fields, parseFloat).Ok?
    ensures var samples := Collect(prefix, suffix, separator, fields, parseFloat).value;
            var metrics := MetricFields(fields);
            && |samples| == |metrics|
            && forall j :: 0 <= j < |samples| ==>
                 Coerce(metrics[j].field.text, parseFloat).Some?
                 && samples[j] == RawSample(prefix, suffix, separator, metrics[j], Coerce(metrics[j].field.text, parseFloat).value)
  {
    if fields != [] {
      var init := fields[..|fields| - 1];
      CollectSamples(prefix, suffix, separator, init, parseFloat);
    }
  }

  /** The field `f` is a label field named `k`. */
  predicate NamesLabel(e: Entry, k: string) {
    IsLabelField(e) && e.tag.labelName == k
  }

  /** The record's label `k` exists iff some label field is named `k`, and
      it holds the sanitised value of the last such field. */
  lemma {:induction false} LabelsOfLastWins(fields: seq<Entry>, k: string)
    ensures k in LabelsOf(fields) <==> exists j :: 0 <= j < |fields| && NamesLabel(fields[j], k)
    ensures forall j :: 0 <= j < |fields| && NamesLabel(fields[j], k)
                        && (forall i :: j < i < |fields| ==> !NamesLabel(fields[i], k)) ==>
              k in LabelsOf(fields) && LabelsOf(fields)[k] == fields[j].labelValue
  {
    if fields != [] {
      var n := |fields| - 1;
      var init := fields[..n];
      var f := fields[n];
      LabelsOfLastWins(init, k);
      assert forall i :: 0 <= i < |init| ==> init[i] == fields[i];
      var v := f.labelValue;
      assert LabelsOf(fields) == if IsLabelField(f) then LabelsOf(init)[f.tag.labelName := v] else LabelsOf(init);
      forall j | 0 <= j < |fields| && NamesLabel(fields[j], k) && (forall i :: j < i < |fields| ==> !NamesLabel(fields[i], k))
        ensures k in LabelsOf(fields) && LabelsOf(fields)[k] == fields[j].labelValue
      {
        if j < n {
          assert !NamesLabel(f, k);
          assert NamesLabel(init[j], k);
        }
      }
    }
  }

  /** No label value of a record holds `{`, `}`, `"` or `\`. */
  lemma {:induction false} LabelsOfSanitized(fields: seq<Entry>)
    requires forall i :: 0 <= i < |fields| ==> !ContainsAny(fields[i].labelValue, IllegalChars)
    ensures forall k :: k in LabelsOf(fields) ==> !ContainsAny(LabelsOf(fields)[k], IllegalChars)
  {
    if fields != [] {
      LabelsOfSanitized(fields[..|fields| - 1]);
    }
  }

  /** The field `f` is both a metric and a label, and its metric is named `name`. */
  predicate ExcludesFrom(prefix: string, suffix: string, separator: string, e: Entry, name: string) {
    var t := e.tag;
    t.isMetric && t.isLabel && ComposeName(prefix, t.metricName, suffix, separator) == name
  }

  /** A metric name has an exclusion entry iff a self-labelling field
      produces it; the entry is the label name of the last such field. */
  lemma {:induction false} ExcludesOfLastWins(prefix: string, suffix: string, separator: string, fields: seq<Entry>, name: string)
    ensures var ex := ExcludesOf(prefix, suffix, separator, fields);
            name in ex <==> exists j :: 0 <= j < |fields| && ExcludesFrom(prefix, suffix, separator, fields[j], name)
    ensures forall j :: 0 <= j < |fields| && ExcludesFrom(prefix, suffix, separator, fields[j], name)
                        && (forall i :: j < i < |fields| ==> !ExcludesFrom(prefix, suffix, separator, fields[i], name)) ==>
              var ex := ExcludesOf(prefix, suffix, separator, fields);
              name in ex && ex[name] == fields[j].tag.labelName
  {
    if fields != [] {
      var init := fields[..|fields| - 1];
      ExcludesOfLastWins(prefix, suffix, separator, init, name);
      assert forall i :: 0 <= i < |init| ==> init[i] == fields[i];
    }
  }

  /** Once the first loop has failed on a prefix, it fails with that error. */
  lemma {:induction false} CollectPrefixErr(prefix: string, suffix: string, separator: string, fields: seq<Entry>,
                                            parseFloat: string -> Option<real>, n: nat)
    requires n <= |fields| && Collect(prefix, suffix, separator, fields[..n], parseFloat).Err?
    ensures Collect(prefix, suffix, separator, fields, parseFloat) == Collect(prefix, suffix, separator, fields[..n], parseFloat)
    decreases |fields|
  {
    if n == |fields| {
      assert fields[..n] == fields;
    } else {
      var init := fields[..|fields| - 1];
      assert init[..n] == fields[..n];
      CollectPrefixErr(prefix, suffix, separator, init, parseFloat, n);
    }
  }

  /** `Parse` on a nil metricer, on a non-struct, and on a struct: a failure
      names the first metric field whose value is neither a float nor a
      bool; a success gives one sample per metric field, in field order,
      with the composed name, the coerced value and the tag's help, kind and
      precision. */
  lemma ParseOutcome(metricer: Metricer, external: seq<MaybeLabels>, parseFloat: string -> Option<real>)
    ensures metricer.NilMetricer? ==> ParseSpec(metricer, external, parseFloat) == Ok([])
    ensures metricer.NonStruct? ==> ParseSpec(metricer, external, parseFloat) == Err(NotStructError)
    ensures metricer.Struct? ==>
      var r := ParseSpec(metricer, external, parseFloat);
      var entries := Entries(metricer.fields);
      var metrics := MetricFields(entries);
      && (r.Err? <==> exists j :: 0 <= j < |entries| && IsBadField(entries[j], parseFloat))
      && (r.Err? ==> exists j :: 0 <= j < |entries| && IsBadField(entries[j], parseFloat)
                       && (forall i :: 0 <= i < j ==> !IsBadField(entries[i], parseFloat))
                       && r.error == CoercionError(metricer.fields[j]))
      && (r.Ok? ==> |r.value| == |metrics| && forall j :: 0 <= j < |metrics| ==>
            && r.value[j].metricName == ComposeName(metricer.prefix, metrics[j].tag.metricName, metricer.suffix, metricer.separator)
            && Coerce(metrics[j].field.text, parseFloat) == Some(r.value[j].value)
            && r.value[j].help == metrics[j].tag.help
            && r.value[j].typ == metrics[j].tag.typ
            && r.value[j].valuePrecision == metrics[j].tag.valuePrecision)
  {
    if metricer.Struct? {
      var entries := Entries(metricer.fields);
      CollectFails(metricer.prefix, metricer.suffix, metricer.separator, entries, parseFloat);
      var c := Collect(metricer.prefix, metricer.suffix, metricer.separator, entries, parseFloat);
      if c.Ok? {
        CollectSamples(metricer.prefix, metricer.suffix, metricer.separator, entries, parseFloat);
      }
    }
  }

  /** The labels of the `j`-th sample: a key is present iff some external map
      or the record holds it and it is not the sample's excluded key; the
      record's own labels win over every external map, and among the
      external maps the last one holding the key wins. */
  lemma ParseLabels(metricer: Metricer, external: seq<MaybeLabels>, parseFloat: string -> Option<real>, j: nat, k: string)
    requires metricer.Struct? && ParseSpec(metricer, external, parseFloat).Ok?
    requires j < |ParseSpec(metricer, external, parseFloat).value|
    ensures var s := ParseSpec(metricer, external, parseFloat).value[j];
            var entries := Entries(metricer.fields);
            var labels := LabelsOf(entries);
            var excluded := ExcludedKey(ExcludesOf(metricer.prefix, metricer.suffix, metricer.separator, entries), s.metricName);
            && (k in s.labels <==> k != excluded && (k in labels || exists i :: 0 <= i < |external| && Has(external[i], k)))
            && (k in s.labels && k in labels ==> s.labels[k] == labels[k])
            && (forall i :: (0 <= i < |external| && Has(external[i], k) && k !in labels && k != excluded
                              && (forall i2 :: i < i2 < |external| ==> !Has(external[i2], k))) ==>
                  k in s.labels && s.labels[k] == external[i].value[k])
  {
    var entries := Entries(metricer.fields);
    var (p, x, sep) := (metricer.prefix, metricer.suffix, metricer.separator);
    CollectSamples(p, x, sep, entries, parseFloat);
    var raws := Collect(p, x, sep, entries, parseFloat).value;
    var labels := LabelsOf(entries);
    var excludes := ExcludesOf(p, x, sep, entries);
    assert ParseSpec(metricer, external, parseFloat).value[j] == Finish(raws[j], external, labels, excludes);
    FinishLabels(raws[j], external, labels, excludes, k);
  }

  /** The labels of one finished sample: the external maps and the record's
      labels merged, the record's winning, minus the excluded key. */
  lemma FinishLabels(raw: SampleValue, external: seq<MaybeLabels>, labels: LabelSet, excludes: map<string, string>, k: string)
    requires raw.labels == map[]
    ensures var s := Finish(raw, external, labels, excludes);
            var excluded := ExcludedKey(excludes, s.metricName);
            && (k in s.labels <==> k != excluded && (k in labels || exists i :: 0 <= i < |external| && Has(external[i], k)))
            && (k in s.labels && k in labels ==> s.labels[k] == labels[k])
            && (forall i :: (0 <= i < |external| && Has(external[i], k) && k !in labels && k != excluded
                              && (forall i2 :: i < i2 < |external| ==> !Has(external[i2], k))) ==>
                  k in s.labels && s.labels[k] == external[i].value[k])
  {
    var maps := external + [Some(labels)];
    MergeAllLastWins(map[], maps, k);
    assert forall i :: 0 <= i < |external| ==> maps[i] == external[i];
    assert maps[|external|] == Some(labels);
  }

  /** A field that is both a metric and a label never labels the samples of
      the metric it produces (when it is the last such field for that name);
      a sample with no exclusion entry loses only a label keyed "". */
  lemma ParseExclusion(metricer: Metricer, external: seq<MaybeLabels>, parseFloat: string -> Option<real>, t: nat, j: nat)
    requires metricer.Struct? && ParseSpec(metricer, external, parseFloat).Ok?
    requires j < |ParseSpec(metricer, external, parseFloat).value|
    ensures var entries := Entries(metricer.fields);
            var s := ParseSpec(metricer, external, parseFloat).value[j];
            var (p, x, sep) := (metricer.prefix, metricer.suffix, metricer.separator);
            && (t < |entries| && ExcludesFrom(p, x, sep, entries[t], s.metricName)
                && (forall i :: t < i < |entries| ==> !ExcludesFrom(p, x, sep, entries[i], s.metricName)) ==>
                  entries[t].tag.labelName !in s.labels)
            && ((forall i :: 0 <= i < |entries| ==> !ExcludesFrom(p, x, sep, entries[i], s.metricName)) ==>
                  s.labels == Deleted(MergeAll(map[], external + [Some(LabelsOf(entries))]), [""]))
  {
    var entries := Entries(metricer.fields);
    var (p, x, sep) := (metricer.prefix, metricer.suffix, metricer.separator);
    CollectSamples(p, x, sep, entries, parseFloat);
    var raws := Collect(p, x, sep, entries, parseFloat).value;
    ExcludesOfLastWins(p, x, sep, entries, raws[j].metricName);
  }

  /** The value of a metric field as the first loop of `Parse` computes it:
      the float parse, else the bool parse with true as 1 and false as 0. */
  method CoerceValue(text: string, parseFloat: string -> Option<real>) returns (v: Option<real>)
    ensures v == Coerce(text, parseFloat)
  {
    var fv := parseFloat(text);
    if fv.Some? {
      return fv;
    }
    var bv := ParseBool(text);
    if bv.None? {
      return None;
    }
    var value := 0.0;
    if bv.value {
      value := 1.0;
    }
    v := Some(value);
  }

  /** One pass of the first loop of `Parse`: the field's tag goes through the
      cache, a label field records its value, and a metric field gives a
      sample and, when it is a label too, an exclusion entry. Stated against
      the loop's state so far (`prev`, `raws`): the new state is what the
      spec functions give for one more entry. */
  method VisitField(cache: TagCache, prefix: string, suffix: string, separator: string, f: Field,
                    parseFloat: string -> Option<real>, ghost prev: seq<Entry>, raws: seq<SampleValue>,
                    recordLabels: LabelSet, excludeLabel: map<string, string>)
    returns (e: Entry, failed: bool, raws': seq<SampleValue>, labels: LabelSet, excludes: map<string, string>)
    requires cache.Valid()
    requires Collect(prefix, suffix, separator, prev, parseFloat) == Ok(raws)
    requires recordLabels == LabelsOf(prev) && excludeLabel == ExcludesOf(prefix, suffix, separator, prev)
    modifies cache
    ensures cache.Valid() && old(cache.entries).Keys <= cache.entries.Keys
    ensures cache.entries.Keys == old(cache.entries).Keys + {f.tag}
    ensures e == EntryOf(f)
    ensures var c := Collect(prefix, suffix, separator, prev + [e], parseFloat);
            && (failed <==> c.Err?)
            && (c.Err? ==> c.error == CoercionError(f))
            && (c.Ok? ==>
                  && c.value == raws'
                  && labels == LabelsOf(prev + [e])
                  && excludes == ExcludesOf(prefix, suffix, separator, prev + [e]))
  {
    var pt := cache.ParseTag(f.tag);
    e := Entry(f, pt, TidyLabelValue(f.text));
    ghost var next := prev + [e];
    assert next[..|prev|] == prev;
    failed, raws', labels, excludes := false, raws, recordLabels, excludeLabel;
    if pt.isLabel || pt.isMetric {
      if pt.isLabel {
        labels := labels[pt.labelName := e.labelValue];
      }
      if pt.isMetric {
        var name := Join([prefix, pt.metricName, suffix], separator);
        assert name == ComposeName(prefix, pt.metricName, suffix, separator);
        var v := CoerceValue(f.text, parseFloat);
        if v.None? {
          return e, true, raws', labels, excludes;
        }
        raws' := raws' + [SampleValue(pt.help, pt.typ, name, map[], v.value, pt.valuePrecision)];
        if pt.isLabel {
          excludes := excludes[name := pt.labelName];
        }
      }
    }
  }

  /** The first loop of `Parse`: each field's tag is parsed through the
      cache; label fields fill the record's label map, metric fields give
      samples with no labels yet, and self-labelling fields fill the
      exclusion map. The first field that cannot be coerced ends the loop. */
  method CollectFields(cache: TagCache, prefix: string, suffix: string, separator: string, fields: seq<Field>,
                       parseFloat: string -> Option<real>)
    returns (r: Result<seq<SampleValue>>, recordLabels: LabelSet, excludeLabel: map<string, string>)
    requires cache.Valid()
    modifies cache
    ensures cache.Valid() && old(cache.entries).Keys <= cache.entries.Keys
    ensures var entries := Entries(fields);
            && r == Collect(prefix, suffix, separator, entries, parseFloat)
            && (r.Ok? ==>
                  && recordLabels == LabelsOf(entries)
                  && excludeLabel == ExcludesOf(prefix, suffix, separator, entries))
  {
    ghost var entries: seq<Entry> := [];
    var raws: seq<SampleValue> := [];
    recordLabels := map[];
    excludeLabel := map[];
    for i := 0 to |fields|
      invariant cache.Valid() && old(cache.entries).Keys <= cache.entries.Keys
      invariant entries == Entries(fields[..i])
      invariant Collect(prefix, suffix, separator, entries, parseFloat) == Ok(raws)
      invariant recordLabels == LabelsOf(entries)
      invariant excludeLabel == ExcludesOf(prefix, suffix, separator, entries)
    {
      var e, failed;
      e, failed, raws, recordLabels, excludeLabel :=
        VisitField(cache, prefix, suffix, separator, fields[i], parseFloat, entries, raws, recordLabels, excludeLabel);
      EntriesStep(fields, i);
      if failed {
        EntriesPrefix(fields, i + 1);
        CollectPrefixErr(prefix, suffix, separator, Entries(fields), parseFloat, i + 1);
        r := Err(CoercionError(fields[i]));
        return;
      }
      entries := entries + [e];
    }
    assert fields[..|fields|] == fields;
    r := Ok(raws);
  }

  /** The second loop of `Parse`: each sample gets the external maps and
      then the record's labels, and loses its excluded key. The sample
      objects are allocated here, one per collected sample, in order. */
  method AttachLabels(raws: seq<SampleValue>, external: seq<MaybeLabels>, recordLabels: LabelSet,
                      excludeLabel: map<string, string>)
    returns (samples: seq<Sample>)
    requires forall j :: 0 <= j < |raws| ==> raws[j].labels == map[]
    ensures |samples| == |raws|
    ensures forall j :: 0 <= j < |samples| ==>
              && fresh(samples[j]) && samples[j].labels.Some?
              && samples[j].View() == Finish(raws[j], external, recordLabels, excludeLabel)
    ensures forall i, j :: 0 <= i < j < |samples| ==> samples[i] != samples[j]
  {
    var labels := external + [Some(recordLabels)];
    samples := [];
    for k := 0 to |raws|
      invariant |samples| == k
      invariant forall j :: 0 <= j < k ==>
                  && fresh(samples[j]) && samples[j].labels.Some?
                  && samples[j].View() == Finish(raws[j], external, recordLabels, excludeLabel)
      invariant forall i, j :: 0 <= i < j < k ==> samples[i] != samples[j]
    {
      var s := FinishSample(raws[k], labels, external, recordLabels, excludeLabel);
      samples := samples + [s];
    }
  }

  /** One pass of the second loop: a new sample from the raw one, the
      labels merged in and the excluded key deleted. */
  method FinishSample(raw: SampleValue, labels: seq<MaybeLabels>, ghost external: seq<MaybeLabels>, ghost recordLabels: LabelSet,
                      excludeLabel: map<string, string>)
    returns (s: Sample)
    requires raw.labels == map[] && labels == external + [Some(recordLabels)]
    ensures fresh(s) && s.labels.Some? && s.View() == Finish(raw, external, recordLabels, excludeLabel)
  {
    s := new Sample(raw.help, raw.typ, raw.metricName, None, raw.value, raw.valuePrecision);
    s.AddLabel(labels);
    var excluded := if raw.metricName in excludeLabel then excludeLabel[raw.metricName] else "";
    s.DeleteLabel([excluded]);
  }

  /** `Parse`: a nil metricer gives no samples, a non-struct an error;
      otherwise the two loops above, with the result equal to `ParseSpec`. */
  method Parse(cache: TagCache, metricer: Metricer, external: seq<MaybeLabels>, parseFloat: string -> Option<real>)
    returns (r: Result<seq<Sample>>)
    requires cache.Valid()
    modifies cache
    ensures cache.Valid() && old(cache.entries).Keys <= cache.entries.Keys
    ensures !metricer.Struct? ==> cache.entries == old(cache.entries)
    ensures var spec := ParseSpec(metricer, external, parseFloat);
            && (r.Err? <==> spec.Err?)
            && (r.Err? ==> r.error == spec.error)
            && (r.Ok? ==>
                  && |r.value| == |spec.value|
                  && (forall i :: 0 <= i < |r.value| ==>
                        fresh(r.value[i]) && r.value[i].labels.Some? && r.value[i].View() == spec.value[i])
                  && (forall i, j :: 0 <= i < j < |r.value| ==> r.value[i] != r.value[j]))
  {
    match metricer {
      case NilMetricer =>
        r := Ok([]);
      case NonStruct =>
        r := Err(NotStructError);
      case Struct(prefix, suffix, separator, fields) =>
        var raws, recordLabels, excludeLabel := CollectFields(cache, prefix, suffix, separator, fields, parseFloat);
        if raws.Err? {
          r := Err(raws.error);
        } else {
          CollectSamples(prefix, suffix, separator, Entries(fields), parseFloat);
          var samples := AttachLabels(raws.value, external, recordLabels, excludeLabel);
          r := Ok(samples);
        }
    }
  }
}
