/** sample.go: the Sample record of the current version, whose label map is
    edited in place by `addLabel` and `deleteLabel`. */
module Samples {
  import opened Wrappers
  import opened Labels

  /** What a Sample holds, as a value; a nil label map reads as empty. */
  datatype SampleValue = SampleValue(
    help: string,
    typ: string,
    metricName: string,
    labels: LabelSet,
    value: real,
    valuePrecision: int)

  /** `labels` without the keys listed in `names`. */
  function Deleted(labels: LabelSet, names: seq<string>): (r: LabelSet)
    ensures forall k :: k in r <==> k in labels && k !in names
    ensures forall k :: k in r ==> r[k] == labels[k]
  {
    labels - set n | n in names
  }

  /** Deleting is idempotent, and deleting an absent key changes nothing. */
  lemma DeletedIdempotent(labels: LabelSet, names: seq<string>)
    ensures Deleted(Deleted(labels, names), names) == Deleted(labels, names)
    ensures (forall n :: n in names ==> n !in labels) ==> Deleted(labels, names) == labels
  {
  }

  class Sample {
    var help: string
    var typ: string
    var metricName: string
    var labels: MaybeLabels
    var value: real
    var valuePrecision: int

    function LabelsOrEmpty(): LabelSet
      reads this
    {
      labels.GetOr(map[])
    }

    function View(): SampleValue
      reads this
    {
      SampleValue(help, typ, metricName, LabelsOrEmpty(), value, valuePrecision)
    }

    /** `NewSample`: the given fields, and a copy of `labels` (empty when nil). */
    constructor (help: string, mType: string, mName: string, labels: MaybeLabels, value: real, valuePrecision: int)
      ensures this.help == help && this.typ == mType && this.metricName == mName
      ensures this.value == value && this.valuePrecision == valuePrecision
      ensures this.labels == Some(labels.GetOr(map[]))
    {
      this.help := help;
      this.typ := mType;
      this.metricName := mName;
      this.labels := None;
      this.value := value;
      this.valuePrecision := valuePrecision;
      new;
      AddLabel([labels]);
      assert [labels][..0] == [];
      assert MergeAll(map[], [labels]) == map[] + labels.GetOr(map[]);
      assert map[] + labels.GetOr(map[]) == labels.GetOr(map[]);
    }

    /** The inner loop of `addLabel`: every pair of `m` is written into the
        label map, overwriting an existing key. */
    method CopyLabels(m: LabelSet)
      requires labels.Some?
      modifies this`labels
      ensures labels == Some(old(labels.value) + m)
    {
      ghost var start := labels.value;
      var todo := m.Keys;
      while todo != {}
        invariant todo <= m.Keys
        invariant labels.Some?
        invariant labels.value == start + (map k | k in m.Keys - todo :: m[k])
        decreases todo
      {
        var k :| k in todo;
        labels := Some(labels.value[k := m[k]]);
        todo := todo - {k};
      }
      assert (map k | k in m.Keys - {} :: m[k]) == m;
    }

    /** `addLabel`: copies every non-nil argument map over the labels, in
        order; afterwards the label map is never nil. */
    method AddLabel(maps: seq<MaybeLabels>)
      modifies this`labels
      ensures labels == Some(MergeAll(old(LabelsOrEmpty()), maps))
      ensures help == old(help) && typ == old(typ) && metricName == old(metricName)
      ensures value == old(value) && valuePrecision == old(valuePrecision)
    {
      if labels.None? {
        labels := Some(map[]);
      }
      ghost var base := labels.value;
      for i := 0 to |maps|
        invariant labels == Some(MergeAll(base, maps[..i]))
      {
        assert maps[..i + 1][..i] == maps[..i];
        if maps[i].Some? {
          CopyLabels(maps[i].value);
        } else {
          assert MergeAll(base, maps[..i]) + map[] == MergeAll(base, maps[..i]);
        }
        assert MergeAll(base, maps[..i + 1]) == MergeAll(base, maps[..i]) + maps[i].GetOr(map[]);
      }
      assert maps[..|maps|] == maps;
    }

    /** `deleteLabel`: removes exactly the listed keys; a nil map becomes empty. */
    method DeleteLabel(names: seq<string>)
      modifies this`labels
      ensures labels == Some(Deleted(old(LabelsOrEmpty()), names))
      ensures help == old(help) && typ == old(typ) && metricName == old(metricName)
      ensures value == old(value) && valuePrecision == old(valuePrecision)
    {
      if labels.None? {
        labels := Some(map[]);
      }
      if |names| == 0 {
        assert (set n | n in names) == {};
        assert labels.value - {} == labels.value;
        return;
      }
      ghost var base := labels.value;
      assert Deleted(base, names[..0]) == base;
      for i := 0 to |names|
        invariant labels == Some(Deleted(base, names[..i]))
      {
        assert Deleted(base, names[..i + 1]) == Deleted(base, names[..i]) - {names[i]};
        labels := Some(labels.value - {names[i]});
      }
      assert names[..|names|] == names;
    }
  }
}
