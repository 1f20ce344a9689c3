/** The recursive merge of configuration layers. */
module ConfigMerge {
  import opened Wrappers

  /** A configuration value: a dictionary, or anything else. */
  datatype Value = Leaf(text: string) | Dict(at: map<string, Value>)

  predicate BothDicts(a: Value, b: Value, k: string)
    requires a.Dict? && b.Dict?
  {
    k in a.at && k in b.at && a.at[k].Dict? && b.at[k].Dict?
  }

  /** `deep_merge` of two dictionaries. */
  function Merge(a: Value, b: Value): (r: Value)
    requires a.Dict? && b.Dict?
    ensures r.Dict?
    decreases a
  {
    Dict(map k | k in a.at.Keys + b.at.Keys ::
           if k !in b.at then a.at[k] else if BothDicts(a, b, k) then Merge(a.at[k], b.at[k]) else b.at[k])
  }

  /** `deep_merge` as the source does it, one key of `b` after another. */
  method DeepMerge(a: Value, b: Value) returns (result: Value)
    requires a.Dict? && b.Dict?
    ensures result == Merge(a, b)
    decreases a
  {
    var r := a.at;
    var keys := b.at.Keys;
    while keys != {}
      invariant keys <= b.at.Keys && r.Keys == a.at.Keys + (b.at.Keys - keys)
      invariant forall k :: k in r ==> r[k] == if k in b.at && k !in keys then Merge(a, b).at[k] else a.at[k]
      decreases keys
    {
      var k :| k in keys;
      keys := keys - {k};
      if k in r && r[k].Dict? && b.at[k].Dict? {
        var merged := DeepMerge(r[k], b.at[k]);
        r := r[k := merged];
      } else {
        r := r[k := b.at[k]];
      }
    }
    result := Dict(r);
    assert result.at == Merge(a, b).at;
  }

  /** The layers of `resolve_config`: an absent or empty config file is skipped. */
  function Resolve(defaults: Value, template: Value, file: Option<Value>, cli: Value): Value
    requires defaults.Dict? && template.Dict? && cli.Dict? && (file.Some? ==> file.value.Dict?)
  {
    var merged := Merge(defaults, template);
    Merge(if file.Some? && file.value.at.Keys != {} then Merge(merged, file.value) else merged, cli)
  }

  // ---- Units and idempotence ----

  lemma {:induction false} MergeUnits(a: Value)
    requires a.Dict?
    ensures Merge(Dict(map[]), a) == a && Merge(a, Dict(map[])) == a
  {
    assert Merge(Dict(map[]), a).at == a.at;
    assert Merge(a, Dict(map[])).at == a.at;
  }

  /** `y` has every key of `x`, and so do the dictionaries below. */
  predicate Covers(y: Value, x: Value)
    requires x.Dict? && y.Dict?
    decreases x
  {
    forall k | k in x.at :: k in y.at && (BothDicts(x, y, k) ==> Covers(y.at[k], x.at[k]))
  }

  /** A layer overrides another entirely if and only if it covers it. */
  lemma {:induction false} MergeIsRightIff(x: Value, y: Value)
    requires x.Dict? && y.Dict?
    ensures Merge(x, y) == y <==> Covers(y, x)
    decreases x
  {
    var m := Merge(x, y);
    forall k | k in x.at && BothDicts(x, y, k)
      ensures Merge(x.at[k], y.at[k]) == y.at[k] <==> Covers(y.at[k], x.at[k])
    {
      MergeIsRightIff(x.at[k], y.at[k]);
    }
    if Covers(y, x) {
      assert m.at == y.at;
    }
    if m == y {
      forall k | k in x.at ensures k in y.at && (BothDicts(x, y, k) ==> Covers(y.at[k], x.at[k])) {
        assert k in m.at;
        assert BothDicts(x, y, k) ==> m.at[k] == Merge(x.at[k], y.at[k]);
      }
    }
  }

  lemma {:induction false} CoversItself(x: Value)
    requires x.Dict?
    ensures Covers(x, x)
    decreases x
  {
    forall k | k in x.at && x.at[k].Dict? ensures Covers(x.at[k], x.at[k]) {
      CoversItself(x.at[k]);
    }
  }

  lemma {:induction false} MergeIdempotent(a: Value)
    requires a.Dict?
    ensures Merge(a, a) == a
  {
    CoversItself(a);
    MergeIsRightIff(a, a);
  }

  // ---- Lookup ----

  /** What a path of keys leads to. */
  function Lookup(v: Value, path: seq<string>): Option<Value>
    decreases |path|
  {
    if path == [] then Some(v)
    else if v.Dict? && path[0] in v.at then Lookup(v.at[path[0]], path[1..])
    else None
  }

  /** The path runs into something that is no dictionary. */
  predicate Cut(v: Value, path: seq<string>)
    decreases |path|
  {
    path != [] && (v.Leaf? || (path[0] in v.at && Cut(v.at[path[0]], path[1..])))
  }

  /** A path of a merge leads to the merge of two dictionaries if both layers have one there; else to
      what the second layer has, if it has anything or cuts the path; else to what the first has. */
  lemma {:induction false} MergeLookup(a: Value, b: Value, path: seq<string>)
    requires a.Dict? && b.Dict?
    ensures var x, y := Lookup(a, path), Lookup(b, path);
      Lookup(Merge(a, b), path) ==
        if x.Some? && y.Some? && x.value.Dict? && y.value.Dict? then Some(Merge(x.value, y.value))
        else if y.Some? || Cut(b, path) then y
        else x
    decreases |path|
  {
    if path != [] {
      var k := path[0];
      if BothDicts(a, b, k) {
        MergeLookup(a.at[k], b.at[k], path[1..]);
      } else if k in b.at && k in a.at {
      } else if k in b.at {
        MissingThere(b.at[k], path[1..]);
      }
    }
  }

  lemma {:induction false} MissingThere(y: Value, path: seq<string>)
    ensures Cut(y, path) ==> Lookup(y, path) == None
    decreases |path|
  {
    if path != [] && y.Dict? && path[0] in y.at {
      MissingThere(y.at[path[0]], path[1..]);
    }
  }

  // ---- Associativity ----

  /** Wherever the outer layers both hold a dictionary, the middle one holds no leaf, unless the last
      layer covers the first there. */
  predicate Regroups(a: Value, b: Value, c: Value)
    requires a.Dict? && b.Dict? && c.Dict?
    decreases a
  {
    forall k | k in a.at && k in b.at && BothDicts(a, c, k) ::
      if b.at[k].Dict? then Regroups(a.at[k], b.at[k], c.at[k]) else Covers(c.at[k], a.at[k])
  }

  /** Merging three layers regroups if and only if that holds. */
  lemma {:induction false} MergeAssociativeIff(a: Value, b: Value, c: Value)
    requires a.Dict? && b.Dict? && c.Dict?
    ensures Merge(Merge(a, b), c) == Merge(a, Merge(b, c)) <==> Regroups(a, b, c)
    decreases a
  {
    var l, r := Merge(Merge(a, b), c), Merge(a, Merge(b, c));
    forall k | k in a.at.Keys + b.at.Keys + c.at.Keys
      ensures k in l.at && k in r.at && (l.at[k] == r.at[k] <==> RegroupsAt(a, b, c, k))
    {
      if k in a.at && k in b.at && BothDicts(a, c, k) {
        if b.at[k].Dict? {
          MergeAssociativeIff(a.at[k], b.at[k], c.at[k]);
        } else {
          MergeIsRightIff(a.at[k], c.at[k]);
        }
      }
    }
    if Regroups(a, b, c) {
      assert l.at == r.at;
    }
    if l == r {
      assert forall k :: k in a.at && k in b.at && BothDicts(a, c, k) ==> RegroupsAt(a, b, c, k);
    }
  }

  predicate RegroupsAt(a: Value, b: Value, c: Value, k: string)
    requires a.Dict? && b.Dict? && c.Dict?
  {
    k in a.at && k in b.at && BothDicts(a, c, k) ==>
      if b.at[k].Dict? then Regroups(a.at[k], b.at[k], c.at[k]) else Covers(c.at[k], a.at[k])
  }

  /** So when defaults, template and file regroup, the overriding layers of `resolve_config` can be combined
      before they are laid over the defaults if and only if the first two of them regroup with the last. */
  lemma ResolveCanPrecombineIff(defaults: Value, template: Value, file: Option<Value>, cli: Value)
    requires defaults.Dict? && template.Dict? && cli.Dict? && (file.Some? ==> file.value.Dict?)
    requires var f := if file.Some? then file.value else Dict(map[]); Regroups(defaults, template, f)
    ensures var f := if file.Some? then file.value else Dict(map[]);
      (Resolve(defaults, template, file, cli) == Merge(defaults, Merge(Merge(template, f), cli)))
      <==> Regroups(defaults, Merge(template, f), cli)
  {
    var f := if file.Some? then file.value else Dict(map[]);
    MergeUnits(Merge(defaults, template));
    MergeAssociativeIff(defaults, template, f);
    MergeAssociativeIff(defaults, Merge(template, f), cli);
    if f.at.Keys == {} {
      assert f.at == map[];
    }
  }
}
