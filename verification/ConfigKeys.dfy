/** Dotted keys, and the flat view of a configuration tree. */
module ConfigKeys {
  import opened Wrappers
  import opened ConfigTree

  // ----- dotted keys ------------------------------------------------------------------

  /** strings.Split on dots. */
  function Split(key: string): (r: seq<string>)
    ensures r != []
  {
    if key == "" then [""]
    else
      var rest := Split(key[1..]);
      if key[0] == '.' then [""] + rest else [[key[0]] + rest[0]] + rest[1..]
  }

  function DropEmpty(parts: seq<string>): Path {
    if parts == [] then []
    else (if parts[0] == "" then [] else [Name(parts[0])]) + DropEmpty(parts[1..])
  }

  /** splitKey: empty segments do not count. */
  function SplitKey(key: string): Path {
    DropEmpty(Split(key))
  }

  lemma {:induction false} SplitAtDot(a: string, b: string)
    ensures Split(a + "." + b) == Split(a) + Split(b)
  {
    if a == "" {
      assert a + "." + b == "." + b && ("." + b)[1..] == b;
    } else {
      assert (a + "." + b)[1..] == a[1..] + "." + b;
      SplitAtDot(a[1..], b);
    }
  }

  lemma {:induction false} DropFromSum(a: seq<string>, b: seq<string>)
    ensures DropEmpty(a + b) == DropEmpty(a) + DropEmpty(b)
  {
    if a == [] {
      assert a + b == b;
    } else {
      assert (a + b)[1..] == a[1..] + b;
      DropFromSum(a[1..], b);
    }
  }

  /** What splitKey does, in two laws that leave no other choice: a dot separates,
      and text without a dot is one name, or none if it is empty. */
  lemma SplitKeyLaws(a: string, b: string)
    ensures SplitKey(a + "." + b) == SplitKey(a) + SplitKey(b)
    ensures '.' !in a ==> SplitKey(a) == if a == "" then [] else [Name(a)]
  {
    SplitAtDot(a, b);
    DropFromSum(Split(a), Split(b));
    if '.' !in a {
      SplitSegment(a, "");
    }
  }

  function Join(path: Path): string {
    if path == [] then "" else if |path| == 1 then path[0].text else path[0].text + "." + Join(path[1..])
  }

  predicate CleanName(name: Name) {
    name.text != "" && '.' !in name.text
  }

  predicate CleanPath(path: Path) {
    forall i :: 0 <= i < |path| ==> CleanName(path[i])
  }

  lemma {:induction false} SplitSegment(s: string, rest: string)
    requires '.' !in s
    ensures Split(s + "." + rest) == [s] + Split(rest)
    ensures Split(s) == [s]
  {
    if s == "" {
      assert s + "." + rest == "." + rest;
      assert ("." + rest)[1..] == rest;
    } else {
      SplitSegment(s[1..], rest);
      assert (s + "." + rest)[1..] == s[1..] + "." + rest;
      assert [s[0]] + s[1..] == s;
      var r := Split(s[1..] + "." + rest);
      assert r[1..] == Split(rest);
    }
  }

  /** Splitting undoes joining on clean paths. */
  lemma {:induction false} SplitUndoesJoin(path: Path)
    requires CleanPath(path)
    ensures SplitKey(Join(path)) == path
  {
    if |path| == 1 {
      SplitSegment(path[0].text, "");
      assert SplitKey(Join(path)) == [path[0]] + DropEmpty([]);
    } else if |path| > 1 {
      SplitUndoesJoin(path[1..]);
      SplitSegment(path[0].text, Join(path[1..]));
      var parts := Split(Join(path));
      assert parts[1..] == Split(Join(path[1..]));
    }
  }

  lemma JoinIsInjective(p: Path, q: Path)
    requires CleanPath(p) && CleanPath(q) && Join(p) == Join(q)
    ensures p == q
  {
    SplitUndoesJoin(p);
    SplitUndoesJoin(q);
  }

  /** How flatten builds the key of a child. */
  lemma {:induction false} JoinExtends(base: Path, name: Name)
    requires CleanPath(base)
    ensures Join(base + [name]) == if Join(base) == "" then name.text else Join(base) + "." + name.text
    ensures Join(base) == "" <==> base == []
  {
    if base == [] {
      assert base + [name] == [name];
    } else {
      assert base[0].text != "";
      assert (base + [name])[1..] == base[1..] + [name];
      if |base| > 1 {
        JoinExtends(base[1..], name);
      }
    }
  }

  // ----- the flat view ----------------------------------------------------------------

  /** All names in the tree are non-empty and free of dots. */
  predicate Clean(v: Val) {
    v.Tree? ==> forall k :: k in v.m ==> CleanName(k) && Clean(v.m[k])
  }

  lemma {:induction false} FoundPathsAreClean(v: Val, path: Path)
    requires Clean(v) && Lookup(v, path).Some?
    ensures CleanPath(path)
    decreases path
  {
    if path != [] {
      FoundPathsAreClean(v.m[path[0]], path[1..]);
    }
  }

  /** A path that ends in a scalar. */
  predicate IsLeafAt(v: Val, path: Path, x: Scalar) {
    Lookup(v, path) == Some(Leaf(x))
  }

  type Flat = map<string, Scalar>

  /** The entries below a name in the part of the tree already flattened. */
  predicate Covered(v: Val, done: set<Name>, path: Path, x: Scalar) {
    path != [] && path[0] in done && IsLeafAt(v, path, x)
  }

  /** A covered leaf, under the key that flatten gives it. */
  ghost predicate IsEntry(base: Path, v: Val, done: set<Name>, key: string, x: Scalar) {
    exists path :: Covered(v, done, path, x) && key == Join(base + path)
  }

  /** out' is out with exactly the covered leaves written over it. */
  ghost predicate Wrote(out: Flat, out': Flat, base: Path, v: Val, done: set<Name>) {
    && (forall path, x :: Covered(v, done, path, x) ==> Join(base + path) in out' && out'[Join(base + path)] == x)
    && (forall key :: key in out' ==> (key in out && out'[key] == out[key]) || IsEntry(base, v, done, key, out'[key]))
    && (forall key :: key in out ==> key in out')
  }

  lemma CoveredIsClean(base: Path, v: Val, done: set<Name>, path: Path, x: Scalar)
    requires Clean(v) && CleanPath(base) && Covered(v, done, path, x)
    ensures CleanPath(base + path)
  {
    FoundPathsAreClean(v, path);
  }

  lemma SameEntrySameName(base: Path, v: Val, done: set<Name>, path: Path, x: Scalar, k: Name, q: Path, y: Scalar)
    requires Clean(v) && CleanPath(base)
    requires Covered(v, done, path, x) && Covered(v, {k}, q, y) && Join(base + path) == Join(base + q)
    ensures path[0] == k
  {
    CoveredIsClean(base, v, {k}, q, y);
    CoveredIsClean(base, v, done, path, x);
    JoinIsInjective(base + path, base + q);
    assert (base + path)[|base|] == (base + q)[|base|];
  }

  /** Writing the leaves below one more name. */
  lemma WroteMore(out0: Flat, out: Flat, out': Flat, base: Path, v: Val, done: set<Name>, k: Name)
    requires Clean(v) && CleanPath(base) && k !in done
    requires Wrote(out0, out, base, v, done) && Wrote(out, out', base, v, {k})
    ensures Wrote(out0, out', base, v, done + {k})
  {
    forall path, x | Covered(v, done + {k}, path, x)
      ensures Join(base + path) in out' && out'[Join(base + path)] == x
    {
      var key := Join(base + path);
      if path[0] == k {
        assert Covered(v, {k}, path, x);
      } else {
        assert Covered(v, done, path, x);
        if IsEntry(base, v, {k}, key, out'[key]) {
          var q :| Covered(v, {k}, q, out'[key]) && key == Join(base + q);
          SameEntrySameName(base, v, done, path, x, k, q, out'[key]);
        }
      }
    }
    forall key | key in out'
      ensures (key in out0 && out'[key] == out0[key]) || IsEntry(base, v, done + {k}, key, out'[key])
    {
      if IsEntry(base, v, {k}, key, out'[key]) {
        var q :| Covered(v, {k}, q, out'[key]) && key == Join(base + q);
        assert Covered(v, done + {k}, q, out'[key]);
      } else if IsEntry(base, v, done, key, out'[key]) {
        var q :| Covered(v, done, q, out'[key]) && key == Join(base + q);
        assert Covered(v, done + {k}, q, out'[key]);
      }
    }
  }

  /** A submap written below its longer base is written below its name. */
  lemma WroteSubmap(out: Flat, out': Flat, base: Path, v: Val, k: Name)
    requires v.Tree? && k in v.m && v.m[k].Tree?
    requires Wrote(out, out', base + [k], v.m[k], v.m[k].m.Keys)
    ensures Wrote(out, out', base, v, {k})
  {
    var sub := v.m[k];
    forall path, x | Covered(v, {k}, path, x)
      ensures Join(base + path) in out' && out'[Join(base + path)] == x
    {
      var rest := path[1..];
      assert Lookup(sub, rest) == Some(Leaf(x));
      assert rest != [] && rest[0] in sub.m;
      assert Covered(sub, sub.m.Keys, rest, x);
      assert base + path == base + [k] + path[1..];
    }
    forall key | key in out' && IsEntry(base + [k], sub, sub.m.Keys, key, out'[key])
      ensures IsEntry(base, v, {k}, key, out'[key])
    {
      var q :| Covered(sub, sub.m.Keys, q, out'[key]) && key == Join(base + [k] + q);
      var path := [k] + q;
      assert path[1..] == q && base + path == base + [k] + q;
      assert Covered(v, {k}, path, out'[key]);
    }
  }

  lemma WroteLeaf(out: Flat, base: Path, v: Val, k: Name)
    requires v.Tree? && k in v.m && v.m[k].Leaf?
    ensures Wrote(out, out[Join(base + [k]) := v.m[k].scalar], base, v, {k})
  {
    var x := v.m[k].scalar;
    assert [k][1..] == [];
    assert Covered(v, {k}, [k], x);
    forall path, y | Covered(v, {k}, path, y) ensures path == [k] && y == x {
      assert Lookup(v.m[k], path[1..]) == Some(Leaf(y));
      assert path[1..] == [];
      assert path == [path[0]] + path[1..];
    }
    var key, out' := Join(base + [k]), out[Join(base + [k]) := x];
    assert IsEntry(base, v, {k}, key, x);
    forall other | other in out' && other != key ensures other in out && out'[other] == out[other] { }
  }

  lemma WroteNothing(out: Flat, base: Path, v: Val)
    ensures Wrote(out, out, base, v, {})
  {
  }

  /** flatten: writes every leaf below the map, in any order of its keys. */
  method Flatten(prefix: string, v: Val, out: Flat, ghost base: Path) returns (out': Flat)
    requires v.Tree? && Clean(v) && CleanPath(base) && prefix == Join(base)
    ensures Wrote(out, out', base, v, v.m.Keys)
    decreases v
  {
    hide Wrote, Join;
    out' := out;
    var keys := v.m.Keys;
    assert v.m.Keys - keys == {};
    WroteNothing(out, base, v);
    while keys != {}
      invariant keys <= v.m.Keys
      invariant Wrote(out, out', base, v, v.m.Keys - keys)
      decreases keys
    {
      var k :| k in keys;
      var key := if prefix != "" then prefix + "." + k.text else k.text;
      JoinExtends(base, k);
      ghost var before := out';
      if v.m[k].Tree? {
        out' := Flatten(key, v.m[k], out', base + [k]);
        WroteSubmap(before, out', base, v, k);
      } else {
        out' := out'[key := v.m[k].scalar];
        WroteLeaf(before, base, v, k);
      }
      WroteMore(out, before, out', base, v, v.m.Keys - keys, k);
      assert v.m.Keys - (keys - {k}) == v.m.Keys - keys + {k};
      keys := keys - {k};
    }
    assert v.m.Keys - keys == v.m.Keys;
  }

  /** A key that joins the segments it splits into: no dot leads, trails or repeats. */
  predicate Canonical(key: string) {
    Join(SplitKey(key)) == key
  }

  /** AllFlat: for trees with clean names, key maps to x exactly when key is
      canonical and a lookup of it finds the scalar x. */
  method AllFlat(v: Val) returns (flat: Flat)
    requires v.Tree? && Clean(v)
    ensures forall key, x :: key in flat && flat[key] == x
              <==> Canonical(key) && SplitKey(key) != [] && IsLeafAt(v, SplitKey(key), x)
  {
    flat := Flatten("", v, map[], []);
    forall key, x ensures key in flat && flat[key] == x
        <==> Canonical(key) && SplitKey(key) != [] && IsLeafAt(v, SplitKey(key), x)
    {
      FlatMeansLookup(v, flat, key, x);
    }
  }

  lemma FlatMeansLookup(v: Val, flat: Flat, key: string, x: Scalar)
    requires v.Tree? && Clean(v) && Wrote(map[], flat, [], v, v.m.Keys)
    ensures key in flat && flat[key] == x
       <==> Canonical(key) && SplitKey(key) != [] && IsLeafAt(v, SplitKey(key), x)
  {
    if key in flat && flat[key] == x {
      assert IsEntry([], v, v.m.Keys, key, x);
      var path :| Covered(v, v.m.Keys, path, x) && key == Join([] + path);
      assert [] + path == path;
      FoundPathsAreClean(v, path);
      SplitUndoesJoin(path);
    }
    if Canonical(key) && SplitKey(key) != [] && IsLeafAt(v, SplitKey(key), x) {
      var path := SplitKey(key);
      assert [] + path == path;
      assert Covered(v, v.m.Keys, path, x);
    }
  }
}
