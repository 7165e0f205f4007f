/** convert.go: `mapToStr`, the `{k="v",…}` label block of an exposition
    line. Go visits a map in an unspecified order, so the order is an
    argument: any sequence that lists every key of the map exactly once. */
module Convert {
  import opened Text
  import opened Labels

  /** `keys` lists each key of `m` once and nothing else: one of the orders
      in which Go may visit the map. */
  predicate IsOrderOf<V>(keys: seq<string>, m: map<string, V>) {
    && (forall k :: k in m ==> k in keys)
    && (forall i :: 0 <= i < |keys| ==> keys[i] in m)
    && (forall i, j :: 0 <= i < j < |keys| ==> keys[i] != keys[j])
  }

  /** One label as the builder writes it: the key, `=`, and the value in
      double quotes, with no escaping. */
  function RenderLabel(key: string, value: string): (s: string)
    ensures |s| == |key| + |value| + 3
  {
    key + "=\"" + value + "\""
  }

  /** The value of `k`, for a key the map holds; an order of the map lists
      no other key. */
  function Lookup(m: LabelSet, k: string): string {
    if k in m then m[k] else ""
  }

  /** The rendered labels in the given key order. */
  function RenderLabels(m: LabelSet, keys: seq<string>): (parts: seq<string>)
    ensures |parts| == |keys|
  {
    if keys == [] then []
    else
      var n := |keys| - 1;
      RenderLabels(m, keys[..n]) + [RenderLabel(keys[n], Lookup(m, keys[n]))]
  }

  /** The label block: the rendered labels joined by commas, in braces. */
  function LabelBlock(m: LabelSet, keys: seq<string>): (s: string)
    ensures |s| >= 2 && s[0] == '{' && s[|s| - 1] == '}'
  {
    "{" + Join(RenderLabels(m, keys), ",") + "}"
  }

  /** `mapToStr`: a builder that opens the brace, writes a comma before
      every label but the first, and closes the brace. */
  method MapToStr(m: LabelSet, keys: seq<string>) returns (s: string)
    requires IsOrderOf(keys, m)
    ensures s == LabelBlock(m, keys)
  {
    var builder := "{";
    var first := true;
    for i := 0 to |keys|
      invariant first <==> i == 0
      invariant builder == "{" + Join(RenderLabels(m, keys[..i]), ",")
    {
      var key := keys[i];
      var value := m[key];
      OpenBlockStep(m, keys, i);
      if first {
        first := false;
      } else {
        builder := builder + ",";
      }
      builder := builder + RenderLabel(key, value);
    }
    assert keys[..|keys|] == keys;
    s := builder + "}";
  }

  /** The label block grows by one comma (if it is not the first label)
      and the next rendered label. */
  lemma BlockStep(m: LabelSet, keys: seq<string>, i: nat)
    requires i < |keys|
    ensures var next := RenderLabel(keys[i], Lookup(m, keys[i]));
            Join(RenderLabels(m, keys[..i + 1]), ",") ==
              if i == 0 then next else Join(RenderLabels(m, keys[..i]), ",") + "," + next
  {
    assert keys[..i + 1][..i] == keys[..i];
    JoinSnoc(RenderLabels(m, keys[..i]), RenderLabel(keys[i], Lookup(m, keys[i])), ",");
  }

  /** The same step for the builder, which already holds the opening brace. */
  lemma OpenBlockStep(m: LabelSet, keys: seq<string>, i: nat)
    requires i < |keys|
    ensures var next := RenderLabel(keys[i], Lookup(m, keys[i]));
            var open := "{" + Join(RenderLabels(m, keys[..i]), ",");
            "{" + Join(RenderLabels(m, keys[..i + 1]), ",") ==
              if i == 0 then open + next else open + "," + next
  {
    BlockStep(m, keys, i);
  }

  /** An empty map renders as `{}`. */
  lemma EmptyBlock(m: LabelSet, keys: seq<string>)
    requires IsOrderOf(keys, m) && m == map[]
    ensures LabelBlock(m, keys) == "{}"
  {
  }

  /** A map with one label renders as `{key="value"}`. */
  lemma SingleBlock(m: LabelSet, keys: seq<string>, k: string)
    requires IsOrderOf(keys, m) && m.Keys == {k}
    ensures LabelBlock(m, keys) == "{" + k + "=\"" + m[k] + "\"}"
  {
    OrderLength(keys, m);
    assert keys[0] in m;
    assert keys == [k];
  }

  /** Without its last key, an order is an order of the rest of the map. */
  lemma OrderInit<V>(keys: seq<string>, m: map<string, V>)
    requires IsOrderOf(keys, m) && keys != []
    ensures IsOrderOf(keys[..|keys| - 1], m - {keys[|keys| - 1]})
  {
    var n := |keys| - 1;
    forall x | x in m - {keys[n]} ensures x in keys[..n] {
      var i :| 0 <= i < |keys| && keys[i] == x;
      assert i != n;
    }
  }

  /** An order of a map lists as many keys as the map has. */
  lemma {:induction false} OrderLength<V>(keys: seq<string>, m: map<string, V>)
    requires IsOrderOf(keys, m)
    ensures |keys| == |m|
  {
    if keys == [] {
      assert m.Keys == {};
    } else {
      OrderInit(keys, m);
      OrderLength(keys[..|keys| - 1], m - {keys[|keys| - 1]});
    }
  }

  /** The summed lengths of the rendered labels: `|k| + |v| + 3` each. */
  function LabelSizes(m: LabelSet, keys: seq<string>): nat
  {
    if keys == [] then 0
    else
      var n := |keys| - 1;
      LabelSizes(m, keys[..n]) + |keys[n]| + |Lookup(m, keys[n])| + 3
  }

  lemma {:induction false} RenderedLength(m: LabelSet, keys: seq<string>)
    ensures TotalLength(RenderLabels(m, keys)) == LabelSizes(m, keys)
  {
    if keys != [] {
      var n := |keys| - 1;
      RenderedLength(m, keys[..n]);
      assert RenderLabels(m, keys)[..n] == RenderLabels(m, keys[..n]);
    }
  }

  /** The block is two braces, every label with its `=` and quotes, and one
      comma per gap between labels. */
  lemma BlockLength(m: LabelSet, keys: seq<string>)
    requires IsOrderOf(keys, m)
    ensures |LabelBlock(m, keys)| == 2 + LabelSizes(m, keys) + (if keys == [] then 0 else |keys| - 1)
  {
    JoinLength(RenderLabels(m, keys), ",");
    RenderedLength(m, keys);
  }

  /** The `i`-th rendered label is the `i`-th key's. */
  lemma {:induction false} RenderLabelsAt(m: LabelSet, keys: seq<string>, i: nat)
    requires i < |keys|
    ensures RenderLabels(m, keys)[i] == RenderLabel(keys[i], Lookup(m, keys[i]))
  {
    var n := |keys| - 1;
    if i < n {
      RenderLabelsAt(m, keys[..n], i);
    }
  }

  /** When no key and no value holds a comma, the block holds exactly one
      comma between each pair of labels and none before the first or after
      the last. */
  lemma BlockCommas(m: LabelSet, keys: seq<string>)
    requires IsOrderOf(keys, m)
    requires forall k :: k in m ==> ',' !in k && ',' !in m[k]
    ensures Count(LabelBlock(m, keys), ',') == if keys == [] then 0 else |keys| - 1
    ensures var b := LabelBlock(m, keys); keys != [] ==> b[1] != ',' && b[|b| - 2] != ','
  {
    var parts := RenderLabels(m, keys);
    forall i | 0 <= i < |parts| ensures ',' !in parts[i] {
      RenderLabelsAt(m, keys, i);
      var k := keys[i];
      assert parts[i] == k + "=\"" + m[k] + "\"";
    }
    if keys != [] {
      BlockEnds(m, keys);
    }
    JoinCount(parts, ',');
    var body := Join(parts, ",");
    CountAppend("{" + body, "}", ',');
    CountAppend("{", body, ',');
  }

  /** A non-empty block starts with the first key and ends with the closing
      quote of the last value. */
  lemma BlockEnds(m: LabelSet, keys: seq<string>)
    requires keys != []
    ensures var b := LabelBlock(m, keys); |b| >= 4 && b[|b| - 2] == '"'
    ensures var b := LabelBlock(m, keys); keys[0] != [] ==> b[1] == keys[0][0]
    ensures var b := LabelBlock(m, keys); keys[0] == [] ==> b[1] == '='
  {
    var parts := RenderLabels(m, keys);
    var n := |keys| - 1;
    RenderLabelsAt(m, keys, 0);
    RenderLabelsAt(m, keys, n);
    JoinEnds(parts, ",");
  }

  /** A character other than the braces, `=`, `"` and `,` that no key and
      no value holds does not occur in the block. */
  lemma BlockAvoids(m: LabelSet, keys: seq<string>, c: char)
    requires forall i :: 0 <= i < |keys| ==> keys[i] in m
    requires c !in "{}=\","
    requires forall k :: k in m ==> c !in k && c !in m[k]
    ensures c !in LabelBlock(m, keys)
  {
    var parts := RenderLabels(m, keys);
    forall i | 0 <= i < |parts| ensures c !in parts[i] {
      RenderLabelsAt(m, keys, i);
    }
    JoinAvoids(parts, ",", c);
  }
}
