# prom-exporter in Dafny

prom-exporter turns a Go struct whose fields carry `prom:"…"` tags into
Prometheus samples, and prints collected samples in the Prometheus text
exposition format. A tag is a `;`-separated list of `key: value` pairs
(`help`, `type`, `metricName`, `labelName`, `valuePrecision`). A field
whose tag names a metric becomes one sample. A field whose tag names a
label adds that label to every sample of the record.

The repository holds two versions of this code, and each is a module here:

- **Current version**: `parser.go` and `sample.go`, modelled in `Parser` and `Samples`.
  - `validateName` and `tidyLabelValue` check names and clean label values.
  - `parseTag` parses a tag and keeps a process-wide cache of results.
  - `Parse` composes each name as `prefix + sep + fragment + sep + suffix`.
  - It coerces a field's text to a float, and failing that to a bool.
  - Each sample's labels are the external label maps followed by the record's own labels.
  - A field that is both a metric and a label has its own label removed from its sample.
- **Old version**: `metric.go`, `exporter.go` and `convert.go`, modelled in `Metrics`, `Export` and `Convert`.
  - `ParseMetricer` in `metric.go` is an earlier variant of the same parser, and `NewMetric` builds its metrics.
  - The `Exporter` groups metrics by name, merges exporters, and renders the exposition text.
  - `mapToStr` renders the `{k="v",…}` label block.

Shared pieces live in their own modules:

- `Text`: `strings.TrimSpace`, `Split`, `Join`, and character counting.
- `Strconv`: `ParseBool`, and `ParseInt`/`ParseUint` with bit size 8, including Go's range errors and clamped values. `ParseInt` passes its bit size on to `ParseUint`, so both digit loops stop as soon as the value passes 255.
- `Labels`: the label-map merge shared by `addLabel` and `extendLabel`.
- `Wrappers`: `Option`, `Result` and `PromError`.

The model follows the code as written, including these behaviours:

- **Inverted precision checks.** In `parser.go`, a `valuePrecision` that parses as an int8 gives precision 2. A syntax error gives 0, and a range error gives the clamped bound. In `metric.go`, a value that parses as a uint8 leaves the precision as it was; a failed parse stores what `ParseUint` returned (0 or 255).
- **Merge.** The shadowed `e` in `Exporter.Merge` makes every argument exporter re-add its own groups. So each argument's groups double once per time it appears in the list, and the receiver is unchanged unless it is itself an argument.
- **Headers.** They are written `# HELP<name> <help>` and `# TYPEs<name> <type>`, with no space before the name.
- **Swapped arguments.** `ParseMetricer` passes the tag's type where `NewMetric` expects the name. So a metric's name is the tag's `type` string, and its type is `prefix + fragment`.
- **Nil metricer.** It gives an empty result in `Parse`. In `ParseMetricer` it reaches `reflect.TypeOf(nil).NumField()`, which panics; the model returns the outcome `Panic`.

Input the model cannot compute is passed in instead:

- a struct is its fields in declaration order: Go name, tag text and `fmt.Sprint` text;
- `strconv.ParseFloat` and `strconv.FormatFloat` are function parameters;
- Go's map iteration order, in `String` and in `mapToStr`, is a key-order argument. A key order is any sequence that lists every key exactly once (`Convert.IsOrderOf`).

Each imperative operation is a method with loops. It is proved equal to a specification function, and the listed properties are proved about those functions:

- `parseTag` against `TagOf`;
- `Parse` and `ParseMetricer` against `ParseSpec`;
- `AddMetric` against `AddAll`;
- `Merge` against `Doubled`;
- `String` against `Render`;
- `mapToStr` against `LabelBlock`.

## Model

| member | source | states |
|---|---|---|
| Parser.ValidateName | parser.go:24-32 | a name is valid iff it has at least two characters and each is a letter, a digit, `_` or `-` |
| Parser.TidyLabelValue | parser.go:27-41 | a value holding `{`, `}`, `"` or `\` becomes `"illegal"`, any other value is kept; the result never holds one of those characters |
| Parser.PrecisionOf | parser.go:102-107 | a `valuePrecision` that parses as an int8 gives 2, a syntax error gives 0, a range error gives the clamped bound 127 or -128 |
| Parser.PrecisionOfClasses | parser.go:102-107 | the precision is 2 iff the text is a signed digit string within the int8 bound, the clamped bound (127, or -128 when negative) iff it is a signed digit string beyond the bound or a digit prefix passes 255, and 0 iff the text is empty or is neither; `1000x` gives 127 and `-1000x` gives -128 |
| Parser.TagOf | parser.go:62-117 | a parsed tag marked as a metric has a non-empty help and a valid metric name; one marked as a label has a valid label name; an empty help is never a metric; the type is one of the four known kinds; the precision is 0, 2, 127 or -128 |
| Parser.FoldWellFormed | parser.go:76-109 | folding any segments over a well-formed tag keeps it well formed: the metric and label flags imply valid names |
| Parser.SegmentNeedsOneColon | parser.go:77-81 | a segment without exactly one `:` leaves the tag unchanged, so a help text holding `:` is dropped |
| Parser.UnknownKeyIgnored | parser.go:82-89 | a segment with an unknown key, or a `type` outside the four known kinds, leaves the tag unchanged (the type stays `gauge`) |
| Parser.FoldUntouched | parser.go:76-109 | segments without a `valuePrecision` key keep the precision; segments without a `help` key keep the help |
| Parser.MissingKeys | parser.go:66-113 | a tag without a `help` segment has an empty help and is not a metric; a tag without a `valuePrecision` segment has precision 0 |
| Parser.LastPrecisionWins | parser.go:102-107 | the precision is decided by the last `valuePrecision` segment alone |
| Parser.TagCache.ParseTag | parser.go:62-117 | the result is `TagOf(raw)`; the cache gains exactly the key `raw`; a cached key returns the cached tag and leaves the cache unchanged |
| Parser.TagCache.constructor | parser.go:11 | the cache starts empty |
| Parser.Entries | parser.go:139-142 | one parsed entry per struct field, in field order |
| Parser.CoercionError | parser.go:176-179 | the error message names the field and holds its value |
| Parser.ComposeName | parser.go:155-162 | the sample name is prefix, separator, fragment, separator, suffix |
| Parser.Coerce | parser.go:166-179 | a float parse wins; otherwise true gives 1 and false gives 0; there is no value exactly when both parses fail |
| Parser.CollectFails | parser.go:139-185 | the field loop fails iff some metric field coerces to nothing, and the error is the first such field's |
| Parser.CollectSamples | parser.go:153-175 | without failure there is one sample per metric field, in field order, with that field's coerced value |
| Parser.CollectPrefixErr | parser.go:176-179 | once a prefix of the fields fails, more fields do not change the error |
| Parser.LabelsOfLastWins | parser.go:149-151 | the record has label `k` iff some label field names `k`, and its value comes from the last such field |
| Parser.LabelsOfSanitized | parser.go:150 | record labels built from cleaned values hold no illegal character |
| Parser.ExcludesOfLastWins | parser.go:180-183 | a sample name has an exclusion entry iff some metric-and-label field composes that name; the last such field's label name wins |
| Parser.ParseOutcome | parser.go:120-195 | a nil metricer gives an empty list; a non-struct gives the struct error; otherwise the call fails iff some metric field is not coercible, with the first one's error, and succeeds with one sample per metric field carrying its composed name, coerced value, help, type and precision |
| Parser.ParseLabels | parser.go:186-193 | a sample's label `k` exists iff `k` is not its excluded key and the record or some external map has it; the record's labels override the external maps, and among external maps the last one wins |
| Parser.FinishLabels | parser.go:187-191 | the same label facts for one sample finished from an unlabelled raw sample |
| Parser.ParseExclusion | parser.go:180-191 | the label named by the last metric-and-label field composing a sample's name is absent from that sample; a sample with no exclusion entry only loses a label keyed `""` |
| Parser.CoerceValue | parser.go:166-175 | computes `Coerce` |
| Parser.VisitField | parser.go:139-185 | one pass of the field loop extends the samples, the record labels and the exclusion map exactly as the specification does for one more field, and reports failure when that field is not coercible; the cache gains exactly the field's raw tag |
| Parser.CollectFields | parser.go:139-185 | the field loop yields the specified samples or error, and on success the specified record labels and exclusion map; the tag cache only grows |
| Parser.AttachLabels | parser.go:186-193 | one fresh, distinct sample per raw sample, each with the specified merged and pruned labels |
| Parser.FinishSample | parser.go:188-191 | one sample gets the external maps and the record labels, then loses its excluded key |
| Parser.Parse | parser.go:120-195 | the result is the specified outcome: the same error, or one fresh, distinct sample per specified sample with the specified state; a nil or non-struct metricer leaves the tag cache unchanged |
| Samples.Deleted | sample.go:59-61 | exactly the listed keys are removed and every other entry is kept |
| Samples.DeletedIdempotent | sample.go:56-61 | deleting twice is deleting once; deleting absent keys changes nothing |
| Samples.Sample.constructor | sample.go:22-33 | stores help, type, name, value and precision as given; the labels are a copy of the argument, or empty for nil |
| Samples.Sample.CopyLabels | sample.go:44-46 | copies every entry of one map into the labels, overriding equal keys |
| Samples.Sample.AddLabel | sample.go:36-49 | the labels become non-nil and equal to the old labels merged with the argument maps in order; no other field changes |
| Samples.Sample.DeleteLabel | sample.go:52-62 | the labels become non-nil with exactly the listed keys removed; no other field changes |
| Labels.MergeAllLastWins | sample.go:40-48 | after merging, key `k` is present iff it was or some argument holds it; it takes the last argument map holding it, else keeps its old value |
| Labels.MergeAllSkipsNil | sample.go:41-42 | a nil map among the arguments has no effect |
| Text.TrimSpaceEnds | parser.go:75-77 | a trimmed string is empty or starts and ends with a non-space |
| Text.TrimSpaceDrops | parser.go:75-77 | trimming returns a contiguous part of the string and drops only spaces before and after it |
| Text.TrimSpaceTrimmed | parser.go:75-77 | trimming an already trimmed string changes nothing |
| Text.SplitLength | parser.go:75-79 | splitting on a character gives one more part than the string has occurrences of it |
| Text.SplitJoin | parser.go:75-78 | no part holds the separator, and joining the parts with it gives back the string |
| Text.JoinSnoc | parser.go:155-162 | joining one more part adds the separator and that part |
| Text.JoinEnds | convert.go:8-20 | a join of one or more parts starts with the first part and ends with the last |
| Strconv.ParseBool | parser.go:170 | exactly `1 t T TRUE true True` parse as true and exactly `0 f F FALSE false False` as false |
| Strconv.ParseInt8 | parser.go:103 | one sign is stripped and the rest goes to the 8-bit unsigned parse; a successful parse is in -128..127; a range error clamps to 127 or -128; the empty string is a syntax error |
| Strconv.ParseInt8Classes | parser.go:103 | on a non-empty string: success iff the text after the sign is a digit string of value at most 127 (128 when negative), with the signed value; a range error iff it is such a digit string above the bound or a digit prefix of it exceeds 255; otherwise a syntax error |
| Strconv.ParseInt8LateJunk | parser.go:103-104 | `1000x` and `256x` are int8 range errors clamped to 127 and `-1000x` one clamped to -128, since the 8-bit digit loop stops before the `x`; `256x` is a uint8 range error with 255 |
| Strconv.ParseInt8Digits | parser.go:103 | a digit string of value at most 127 parses to that value |
| Strconv.ParseUint8 | metric.go:146 | a successful parse is a digit string's value at most 255; a range error clamps to 255; the empty string is a syntax error |
| Strconv.ParseUnsignedClasses | metric.go:146 | success iff the string is a non-empty digit string within the bound; a range error iff some digit prefix exceeds the bound; a syntax error iff the string is empty or neither all digits nor overflowing |
| Strconv.ParseUint8Digits | metric.go:146 | a uint8 parse succeeds iff the string is a non-empty digit string of value at most 255, and is a range error iff some digit prefix exceeds 255 |
| Metrics.Metric.constructor | metric.go:32-43 | stores help, name, type, value and precision as given; the labels are a copy of the argument, or empty for nil |
| Metrics.Metric.CopyLabels | metric.go:54-56 | copies every entry of one map into the labels, overriding equal keys |
| Metrics.Metric.ExtendLabel | metric.go:46-59 | the labels become non-nil and equal to the old labels merged with the argument maps in order; no other field changes |
| Metrics.TidyLabelValue | metric.go:70-84 | a value holding `{`, `}`, `"` or `\` becomes `"ingnore"`, any other value is kept; the result holds none of them |
| Metrics.PrecisionAfter | metric.go:145-148 | a value that parses as a uint8 keeps the current precision; a syntax error sets 0, a range error 255 |
| Metrics.PrecisionAfterClasses | metric.go:145-148 | a digit string of value at most 255 keeps the current precision; otherwise a text with a digit prefix beyond 255 sets 255, and any other text sets 0 |
| Metrics.TagOf | metric.go:105-158 | metric and label flags imply valid names and a metric has a help; an empty help is never a metric; the type is a known kind; the precision fits a uint8 |
| Metrics.FoldWellFormed | metric.go:119-150 | folding segments keeps a tag well formed |
| Metrics.FoldKeepsPrecision | metric.go:145-148 | segments whose precision values all parse leave the precision unchanged |
| Metrics.ValidPrecisionIgnored | metric.go:145-148 | a tag whose precision values all parse as uint8 has precision 0 |
| Metrics.DigitPrecisionIgnored | metric.go:145-148 | a tag whose precision values are all digit strings of value at most 255 (`3`, say) has precision 0 |
| Metrics.LastFailedPrecisionWins | metric.go:145-148 | the precision is what `ParseUint` returned for the last value that failed to parse |
| Metrics.TagCache.ParseTag | metric.go:105-158 | the result is `TagOf(raw)`; the cache gains exactly `raw`; a cached key returns the cached tag unchanged |
| Metrics.TagCache.constructor | metric.go:11 | the cache starts empty |
| Metrics.Entries | metric.go:175-178 | one parsed entry per struct field, in field order |
| Metrics.ComposeName | metric.go:193 | the old name is the prefix followed by the fragment, with no separator or suffix |
| Metrics.CollectFails | metric.go:175-209 | the field loop fails iff some metric field is not coercible, with the first such field's error |
| Metrics.CollectMetrics | metric.go:190-202 | without failure there is one metric per metric field, in field order, with its coerced value |
| Metrics.CollectPrefixErr | metric.go:203-206 | once a prefix fails, more fields do not change the error |
| Metrics.ParseOutcome | metric.go:161-215 | a nil metricer panics; a non-struct gives the struct error; otherwise the call fails iff some metric field is not coercible, and succeeds with one metric per metric field whose name is the tag's type and whose type is `prefix + fragment` |
| Metrics.ParseLabels | metric.go:210-213 | a metric's label `k` exists iff the record or the external map has it; the external map overrides the record; nothing is excluded |
| Metrics.VisitField | metric.go:176-207 | one pass of the field loop extends the metrics and record labels as the specification does for one more field, or reports the failure; the cache gains exactly the field's raw tag |
| Metrics.CollectFields | metric.go:175-209 | the field loop yields the specified metrics or error and, on success, the specified record labels; the tag cache only grows |
| Metrics.AttachLabels | metric.go:210-213 | one fresh, distinct metric per raw metric, each with the specified labels |
| Metrics.FinishMetric | metric.go:193-212 | one metric is built with swapped name and type and then extended with the record labels and the external map |
| Metrics.BuildMetrics | metric.go:210-214 | after a successful field loop, the specification's outcome is a success, and the metrics built are one fresh, distinct object per specified metric, with its value |
| Metrics.ParseMetricer | metric.go:161-215 | the result is the specified outcome: a panic, the same error, or one fresh, distinct metric per specified metric; a metricer that is not a struct leaves the tag cache unchanged |
| Convert.RenderLabel | convert.go:15-19 | a label renders as `key="value"`, three characters longer than key and value |
| Convert.LabelBlock | convert.go:5-23 | the block starts with `{` and ends with `}` |
| Convert.MapToStr | convert.go:5-23 | the builder's output is the label block of the map in the given key order |
| Convert.EmptyBlock | convert.go:7-21 | an empty map renders as `{}` |
| Convert.SingleBlock | convert.go:5-23 | a one-label map renders as `{k="v"}` |
| Convert.OrderLength | convert.go:9 | a key order of a map lists as many keys as the map has |
| Convert.BlockLength | convert.go:5-23 | the block length is 2, plus `|k|+|v|+3` per label, plus one comma per gap |
| Convert.BlockEnds | convert.go:7-21 | a non-empty block ends with `"}` and its second character is the first key's first character, or `=` for an empty key |
| Convert.BlockCommas | convert.go:8-14 | with no comma in keys or values, `n` labels give exactly `n-1` commas, none leading or trailing |
| Convert.BlockAvoids | convert.go:5-23 | a character other than `{}=",` that no key and no value holds does not occur in the block |
| Export.SampleHint | exporter.go:19-25 | the per-group hint is `total / metricCount`, or 8 when that is 0 |
| Export.Exporter.constructor | exporter.go:19-25 | the exporter keeps the metric count, the computed hint and an empty, grouped map of metrics |
| Export.AddAllGroup | exporter.go:60-71 | after adding, group `k` exists iff it existed or some argument is named `k`; it is the old group followed by the arguments named `k`, in argument order, so other groups are unchanged |
| Export.AddAllKeys | exporter.go:60-71 | the group-existence half of the above |
| Export.AddAllNamed | exporter.go:60-71 | the group-contents half of the above |
| Export.AddOneGroup | exporter.go:62-70 | one pass adds the metric to its own group and touches no other |
| Export.AddAllGrouped | exporter.go:60-71 | adding keeps every metric in the group of its own name |
| Export.AddAllSameName | exporter.go:62-64 | adding metrics all named after an existing group appends them to that group |
| Export.AddAllTotal | exporter.go:60-71 | adding `n` metrics increases the stored total by `n` |
| Export.Exporter.AddMetric | exporter.go:60-71 | the groups become `AddAll` of the old groups and the arguments; grouping is kept |
| Export.DoubledGroups | exporter.go:74-80 | after `c` re-adds, every group is its old sequence written `2^c` times; names and grouping are kept |
| Export.Exporter.ReAddGroups | exporter.go:76-78 | re-adding every group of a grouped exporter to itself writes each group twice and keeps grouping |
| Export.Exporter.MergeOne | exporter.go:75-79 | one pass of the outer loop doubles the groups of the exporter it visits, and every exporter in the list matches the count of its occurrences so far |
| Export.Exporter.Merge | exporter.go:74-80 | each argument's groups double once per occurrence of it in the list, and its metric and sample counts are unchanged; the receiver is unchanged unless it is an argument |
| Export.RenderEmpty | exporter.go:29-32 | listed groups that are all empty or absent write nothing, so an exporter with no non-empty group renders the empty text |
| Export.GroupNewlines | exporter.go:30-54 | with newline-free fields a non-empty group writes two header lines plus one line per metric, and an empty group writes nothing |
| Export.RenderNewlines | exporter.go:27-57 | the text of listed groups has two newlines per non-empty group plus one per metric |
| Export.StringNewlines | exporter.go:27-57 | the whole text has `2 × non-empty groups + total metrics` newlines |
| Export.TotalInOrder | exporter.go:29 | a key order of the groups covers every stored metric once |
| Export.NonEmptyInOrder | exporter.go:29 | a key order of the groups covers every non-empty group once |
| Export.WriteGroup | exporter.go:30-54 | one group's text: headers from its first metric, `# HELP<name> <help>` and `# TYPEs<name> <type>`, then one line per metric in group order |
| Export.WriteSample | exporter.go:48-53 | one line: name, label block, a space, the formatted value, a newline |
| Export.Exporter.String | exporter.go:27-57 | the builder's output is the groups' text in the given order |

## Left out

- Reflection (`reflect.TypeOf`, `ValueOf`, `NumField`, `FieldByName`, `Tag.Get`) is replaced by a given sequence of fields. The only non-struct value is the `NonStruct` case, and the struct's naming methods are its `prefix`, `suffix` and `separator` fields.
- `fmt.Sprint` is replaced by each field's text being an input.
- `strconv.ParseFloat` and `strconv.FormatFloat` are function parameters, so the exact float syntax and formatting are not modelled. Values are `real`.
- `strings.TrimSpace` uses the ASCII space set (space, tab, newline, vertical tab, form feed, carriage return), not Unicode white space.
- Go's map iteration order is an argument; the model does not capture that it may differ between runs.
- `Export.Exporter.String` takes each metric's label order from a function `labelOrder` of its label map. So two metrics with equal label maps render their labels in the same order; Go may order each `range` differently, even within one `String` call.
- Parser.CollectFields, Parser.Parse, Metrics.CollectFields and Metrics.ParseMetricer: the tag cache's keys are stated only to grow. That each pass adds exactly its field's raw tag is stated per pass, by `VisitField` and `TagCache.ParseTag`, and is not summed over the loop.
- There is no thread safety for the process-wide tag cache. It is an explicit `TagCache` object passed to `Parse` and `ParseMetricer`. The cache returns the tag by value, so callers sharing one `*promTag` through the cache is not modelled.
- Slice capacity hints are left out. So is the aliasing of the caller's slice by `append(externalLabels, label)` in `Parse`.
- `Parse` and `ParseMetricer` allocate their sample objects after the field loop, not inside it; nothing observes the objects before the call returns.
- `Export.Exporter` stores metric values (`Metrics.MetricValue`), not `*metric` pointers, so two groups sharing one metric object is not modelled.
- `err.go` is modelled as `PromError(msg)`, and its `Error` method is the message itself. The two messages are reproduced word for word: `Parser.NotStructError` is the text at parser.go:135, and `Parser.CoercionError` is the format string at parser.go:177 with the field name and value filled in.
- The `package prom` / `package prometheus` mismatch and the declarations duplicated between `parser.go` and `metric.go` are build-level issues. `metric.go`'s `validateName` has the same text as `parser.go`'s, so `Parser.ValidateName` serves both.
- Export.Exporter.Merge: requires every argument exporter to keep each metric in the group of its own name. Every exporter built with `NewExporter` and `AddMetric` does. Without that, Go would add keys to a map while iterating over it, and the outcome would be unspecified.
- Export.SampleHint: requires `metricCount > 0`, since Go divides by it; `uint64` values are integers bounded to 64 bits, and unsigned wrap-around does not arise in the division.
- Metrics.MetricValue: the `uint8` precision is an `int` bounded by 0..255 where a metric is built.
- The Prometheus text format puts a space after `# HELP` and `# TYPE`. exporter.go:34-35 and 41-42 call `builder.WriteString("# HELP")` and `builder.WriteString("# TYPEs")` and then write the name right after, so the text is `# HELP<name>` and `# TYPEs<name>`, and the model writes the same. `Merge` never changes its receiver unless the receiver is one of its arguments.
