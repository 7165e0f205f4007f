/** Label sets and the merge that `Sample.addLabel` (sample.go) and
    `metric.extendLabel` (metric.go) perform: every argument map in turn is
    copied over the current labels, skipping nil maps. */
module Labels {
  import opened Wrappers

  type LabelSet = map<string, string>

  /** A Go `map[string]string` argument, which may be nil. */
  type MaybeLabels = Option<LabelSet>

  /** The argument map `m` is non-nil and holds key `k`. */
  predicate Has(m: MaybeLabels, k: string) {
    m.Some? && k in m.value
  }

  /** `base` with every map of `maps` copied over it, in order. */
  function MergeAll(base: LabelSet, maps: seq<MaybeLabels>): LabelSet {
    if maps == [] then base
    else MergeAll(base, maps[..|maps| - 1]) + maps[|maps| - 1].GetOr(map[])
  }

  /** A key is present after the merge iff it was present before or some
      argument map holds it; its value comes from the last argument map
      holding it, and a key no argument holds keeps its old value. */
  lemma {:induction false} MergeAllLastWins(base: LabelSet, maps: seq<MaybeLabels>, k: string)
    ensures k in MergeAll(base, maps) <==> k in base || exists i :: 0 <= i < |maps| && Has(maps[i], k)
    ensures (forall i :: 0 <= i < |maps| ==> !Has(maps[i], k)) && k in base ==>
              MergeAll(base, maps)[k] == base[k]
    ensures forall i :: 0 <= i < |maps| && Has(maps[i], k) && (forall j :: i < j < |maps| ==> !Has(maps[j], k)) ==>
              k in MergeAll(base, maps) && MergeAll(base, maps)[k] == maps[i].value[k]
  {
    if maps != [] {
      var init := maps[..|maps| - 1];
      MergeAllLastWins(base, init, k);
      assert forall i :: 0 <= i < |init| ==> init[i] == maps[i];
    }
  }

  /** A nil map anywhere among the arguments has no effect. */
  lemma {:induction false} MergeAllSkipsNil(base: LabelSet, a: seq<MaybeLabels>, b: seq<MaybeLabels>)
    ensures MergeAll(base, a + [None] + b) == MergeAll(base, a + b)
  {
    if b == [] {
      assert a + [None] + b == a + [None];
      assert (a + [None])[..|a|] == a;
      assert a + b == a;
    } else {
      var b' := b[..|b| - 1];
      MergeAllSkipsNil(base, a, b');
      assert (a + [None] + b)[..|a + [None] + b| - 1] == a + [None] + b';
      assert (a + b)[..|a + b| - 1] == a + b';
    }
  }
}
