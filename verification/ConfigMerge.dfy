/** Layered configuration: the recursive merge of a YAML override into a base. Everything that is
    not a mapping (null, numbers, strings, sequences, tags) is an opaque scalar. */
module ConfigMerge {
  import opened Runs

  type Key = string

  datatype Value = Scalar(content: int) | Mapping(entries: map<Key, Value>)

  function Merge(base: Value, over: Value): Value
    decreases over
  {
    if base.Mapping? && over.Mapping? then
      var (b, o) := (base.entries, over.entries);
      Mapping(map k | k in b.Keys + o.Keys ::
                if k !in o then b[k] else if k !in b then o[k] else Merge(b[k], o[k]))
    else over
  }

  /** `merge_yaml`: the override's entries are consumed in an arbitrary order, each one merged into
      the base's entry or inserted. Whatever the order, the outcome is the same. */
  method MergeYaml(base: Value, over: Value) returns (merged: Value)
    ensures merged == Merge(base, over)
    decreases over
  {
    if !(base.Mapping? && over.Mapping?) { return over; }
    var b, o := base.entries, over.entries;
    var result, rest := b, o.Keys;
    while rest != {}
      invariant rest <= o.Keys && result.Keys == b.Keys + (o.Keys - rest)
      invariant forall k :: k in b && (k !in o || k in rest) ==> result[k] == b[k]
      invariant forall k :: k in o && k !in rest ==> result[k] == if k in b then Merge(b[k], o[k]) else o[k]
      decreases rest
    {
      var key := Pick(rest);
      if key in result {
        var v := MergeYaml(result[key], o[key]);
        result := result[key := v];
      } else {
        result := result[key := o[key]];
      }
      rest := rest - {key};
    }
    return Mapping(result);
  }

  // ---- Paths ----

  datatype Shape = Absent | Leaf(content: int) | Node

  /** What a value holds at a path. */
  function At(v: Value, path: seq<Key>): Shape
    decreases path
  {
    if |path| == 0 then (if v.Mapping? then Node else Leaf(v.content))
    else if v.Mapping? && path[0] in v.entries then At(v.entries[path[0]], path[1..])
    else Absent
  }

  /** The override takes over the whole subtree at some proper prefix of the path: it has a scalar
      there, or a mapping where the base has none. */
  ghost predicate Replaced(base: Value, over: Value, path: seq<Key>) {
    exists n: nat :: n < |path| && TakesOver(base, over, path[..n])
  }

  predicate TakesOver(base: Value, over: Value, at: seq<Key>) {
    At(over, at).Leaf? || (At(over, at) == Node && At(base, at) != Node)
  }

  lemma ReplacedBelow(base: Value, over: Value, path: seq<Key>)
    requires base.Mapping? && over.Mapping? && |path| > 0
    requires path[0] in base.entries && path[0] in over.entries
    ensures Replaced(base, over, path) <==> Replaced(base.entries[path[0]], over.entries[path[0]], path[1..])
  {
    var b, o, rest := base.entries[path[0]], over.entries[path[0]], path[1..];
    forall n: nat | n < |rest| ensures TakesOver(b, o, rest[..n]) <==> TakesOver(base, over, path[..n + 1]) {
      assert path[..n + 1][1..] == rest[..n] && path[..n + 1][0] == path[0];
    }
    assert !TakesOver(base, over, path[..0]);
    if Replaced(base, over, path) {
      var n: nat :| n < |path| && TakesOver(base, over, path[..n]);
      assert n > 0;
      assert TakesOver(b, o, rest[..n - 1]);
    }
    if Replaced(b, o, rest) {
      var n: nat :| n < |rest| && TakesOver(b, o, rest[..n]);
      assert TakesOver(base, over, path[..n + 1]);
    }
  }

  /** The merge path by path: the override decides wherever it says something or has taken over;
      everywhere else the base shows through. */
  lemma {:induction false} MergeAt(base: Value, over: Value, path: seq<Key>)
    ensures At(Merge(base, over), path) ==
            if At(over, path) != Absent || Replaced(base, over, path) then At(over, path) else At(base, path)
    decreases path
  {
    if |path| == 0 {
    } else if base.Mapping? && over.Mapping? {
      var k := path[0];
      if k in base.entries && k in over.entries {
        ReplacedBelow(base, over, path);
        MergeAt(base.entries[k], over.entries[k], path[1..]);
      } else if k in base.entries {
        forall n: nat | n < |path| ensures !TakesOver(base, over, path[..n]) {
          assert n > 0 ==> path[..n][0] == k;
        }
      }
    } else {
      assert TakesOver(base, over, path[..0]);
    }
  }

  /** Paths tell values apart, so the path description determines the merge. */
  lemma {:induction false} PathsDetermine(v: Value, w: Value)
    requires forall path :: At(v, path) == At(w, path)
    ensures v == w
  {
    assert At(v, []) == At(w, []);
    if v.Mapping? {
      var a, b := v.entries, w.entries;
      forall k | k in a || k in b ensures k in a && k in b && a[k] == b[k] {
        assert At(v, [k]) == At(w, [k]);
        assert k in a ==> At(a[k], [k][1..]) != Absent;
        assert k in b ==> At(b[k], [k][1..]) != Absent;
        forall path ensures At(a[k], path) == At(b[k], path) {
          assert ([k] + path)[1..] == path;
          assert At(v, [k] + path) == At(w, [k] + path);
        }
        PathsDetermine(a[k], b[k]);
      }
      assert a == b;
    }
  }

  // ---- Laws ----

  lemma {:induction false} MergeSelf(v: Value)
    ensures Merge(v, v) == v
  {
    if v.Mapping? {
      forall k | k in v.entries ensures Merge(v.entries[k], v.entries[k]) == v.entries[k] {
        MergeSelf(v.entries[k]);
      }
      assert Merge(v, v).entries == v.entries;
    }
  }

  /** Applying an override twice is applying it once. */
  lemma {:induction false} MergeIdempotent(base: Value, over: Value)
    ensures Merge(Merge(base, over), over) == Merge(base, over)
    decreases over
  {
    if base.Mapping? && over.Mapping? {
      var b, o, m := base.entries, over.entries, Merge(base, over);
      forall k | k in o ensures Merge(m.entries[k], o[k]) == m.entries[k] {
        if k in b { MergeIdempotent(b[k], o[k]); } else { MergeSelf(o[k]); }
      }
      assert Merge(m, over).entries == m.entries;
    } else {
      MergeSelf(over);
    }
  }

  /** Everything in `v` that could show through `over` is already set by `over`. */
  predicate Covered(v: Value, over: Value)
    decreases over
  {
    v.Mapping? && over.Mapping? ==>
      forall k :: k in v.entries ==> k in over.entries && Covered(v.entries[k], over.entries[k])
  }

  lemma {:induction false} CoveredAddsNothing(v: Value, over: Value)
    ensures Merge(v, over) == over <==> Covered(v, over)
    decreases over
  {
    if v.Mapping? && over.Mapping? {
      var a, o, m := v.entries, over.entries, Merge(v, over).entries;
      forall k | k in a && k in o ensures m[k] == o[k] <==> Covered(a[k], o[k]) {
        CoveredAddsNothing(a[k], o[k]);
      }
      if Covered(v, over) { assert m == o; }
      if m == o {
        forall k | k in a ensures k in o && Covered(a[k], o[k]) {
          assert k in m;
        }
      }
    }
  }

  /** Wherever a scalar of the middle layer separates mappings of the outer two, the upper one
      covers the lower one. */
  predicate Regroupable(a: Value, b: Value, c: Value)
    decreases c
  {
    if !a.Mapping? || !c.Mapping? then true
    else if b.Scalar? then Covered(a, c)
    else forall k :: k in a.entries && k in b.entries && k in c.entries ==>
           Regroupable(a.entries[k], b.entries[k], c.entries[k])
  }

  /** Three layers may be merged in either grouping exactly when they are regroupable. */
  lemma {:induction false} MergeAssociates(a: Value, b: Value, c: Value)
    ensures Merge(Merge(a, b), c) == Merge(a, Merge(b, c)) <==> Regroupable(a, b, c)
    decreases c
  {
    if c.Mapping? && b.Scalar? {
      CoveredAddsNothing(a, c);
    } else if a.Mapping? && b.Mapping? && c.Mapping? {
      var l, r := Merge(Merge(a, b), c).entries, Merge(a, Merge(b, c)).entries;
      assert l.Keys == r.Keys;
      forall k | k in a.entries && k in b.entries && k in c.entries
        ensures l[k] == r[k] <==> Regroupable(a.entries[k], b.entries[k], c.entries[k])
      {
        MergeAssociates(a.entries[k], b.entries[k], c.entries[k]);
      }
      forall k | k in l && !(k in a.entries && k in b.entries && k in c.entries) ensures l[k] == r[k] {
      }
      if Regroupable(a, b, c) { assert l == r; }
    }
  }

  /** In particular when no path has mappings in the outer layers and a scalar in the middle one. */
  lemma {:induction false} UnseparatedLayersRegroup(a: Value, b: Value, c: Value)
    requires forall path :: !(At(a, path) == Node && At(b, path).Leaf? && At(c, path) == Node)
    ensures Regroupable(a, b, c)
    decreases c
  {
    assert !(At(a, []) == Node && At(b, []).Leaf? && At(c, []) == Node);
    if a.Mapping? && b.Mapping? && c.Mapping? {
      forall k | k in a.entries && k in b.entries && k in c.entries
        ensures Regroupable(a.entries[k], b.entries[k], c.entries[k])
      {
        forall path
          ensures !(At(a.entries[k], path) == Node && At(b.entries[k], path).Leaf? && At(c.entries[k], path) == Node)
        {
          var below := [k] + path;
          assert below[1..] == path;
          assert !(At(a, below) == Node && At(b, below).Leaf? && At(c, below) == Node);
        }
        UnseparatedLayersRegroup(a.entries[k], b.entries[k], c.entries[k]);
      }
    }
  }

  /** A scalar between two mappings: merging upwards discards the lowest layer, merging the upper
      two first lets it show through. */
  lemma SeparatedLayersDiffer(k: Key)
    ensures var (a, b, c) := (Mapping(map[k := Scalar(1)]), Scalar(0), Mapping(map[]));
            Merge(Merge(a, b), c) == c && Merge(a, Merge(b, c)) == a && a != c
  {
    var a, b, c := Mapping(map[k := Scalar(1)]), Scalar(0), Mapping(map[]);
    assert Merge(b, c) == c;
    assert Merge(a, c).entries == a.entries;
    assert k in a.entries && k !in c.entries;
  }

  // ---- Layers of a snapshot ----

  function Layered(defaults: Value, layers: seq<Value>): Value {
    if |layers| == 0 then defaults else Merge(Layered(defaults, layers[..|layers| - 1]), layers[|layers| - 1])
  }

  /** A path set to a scalar by the last layer keeps it, and one on which the last layer is silent
      comes from the layers below. */
  lemma LastLayerWins(defaults: Value, layers: seq<Value>, path: seq<Key>)
    requires |layers| > 0
    ensures
      var (below, last) := (Layered(defaults, layers[..|layers| - 1]), layers[|layers| - 1]);
      (At(last, path).Leaf? ==> At(Layered(defaults, layers), path) == At(last, path))
      && ((At(last, path) == Absent && !Replaced(below, last, path)) ==>
            At(Layered(defaults, layers), path) == At(below, path))
  {
    MergeAt(Layered(defaults, layers[..|layers| - 1]), layers[|layers| - 1], path);
  }

  /** `load_snapshot` up to decoding: the base file, then the override file, when they are given. */
  method LoadLayers(defaults: Value, base: Option<Value>, over: Option<Value>) returns (v: Value)
    ensures v == Layered(defaults, (if base.Some? then [base.value] else [])
                                   + (if over.Some? then [over.value] else []))
  {
    v := defaults;
    if base.Some? {
      v := MergeYaml(v, base.value);
      assert [base.value][..0] == [];
      assert v == Layered(defaults, [base.value]);
    }
    ghost var lower := if base.Some? then [base.value] else [];
    if over.Some? {
      v := MergeYaml(v, over.value);
      assert (lower + [over.value])[..|lower|] == lower;
    } else {
      assert lower + [] == lower;
    }
  }
}
