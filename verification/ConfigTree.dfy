/**
 The layered configuration tree as a value: nested maps with scalar leaves,
 merged source by source, read and written by path.  Where the program ranges
 over a map, the order is arbitrary.
 */
module ConfigTree {
  import opened Wrappers

  datatype Name = Name(text: string)

  /** Any value that is not a map. */
  datatype Scalar = Scalar(text: string)

  datatype Val = Leaf(scalar: Scalar) | Tree(m: map<Name, Val>)

  type Path = seq<Name>

  const EMPTY: Val := Tree(map[])

  // ----- lookup -----------------------------------------------------------------------

  function Lookup(v: Val, path: Path): Option<Val>
    decreases path
  {
    if path == [] then Some(v)
    else if v.Leaf? || path[0] !in v.m then None
    else Lookup(v.m[path[0]], path[1..])
  }

  // ----- merge ------------------------------------------------------------------------

  /** The last source wins; two maps merge element by element. */
  function Merge(dst: Val, src: Val): Val
    decreases src
  {
    if dst.Leaf? || src.Leaf? then src
    else Tree(map k | k in dst.m.Keys + src.m.Keys ::
                if k !in src.m then dst.m[k]
                else if k !in dst.m then src.m[k]
                else Merge(dst.m[k], src.m[k]))
  }

  /** Merge, with its loop over the source's keys in arbitrary order. */
  method MergeTrees(dst: Val, src: Val) returns (out: Val)
    requires dst.Tree? && src.Tree?
    ensures out == Merge(dst, src)
    decreases src
  {
    var m := dst.m;
    var keys := src.m.Keys;
    while keys != {}
      invariant keys <= src.m.Keys
      invariant m.Keys == dst.m.Keys + (src.m.Keys - keys)
      invariant forall k :: k in m ==> m[k] == if k in src.m && k !in keys then Merge(dst, src).m[k] else dst.m[k]
      decreases keys
    {
      var k :| k in keys;
      var v := src.m[k];
      if v.Tree? && k in m && m[k].Tree? {
        v := MergeTrees(m[k], v);
      }
      m := m[k := v];
      keys := keys - {k};
    }
    out := Tree(m);
  }

  /** A non-map sits at a proper prefix of the path. */
  ghost predicate LeafOnTheWay(v: Val, path: Path) {
    exists i :: 0 <= i < |path| && Lookup(v, path[..i]).Some? && Lookup(v, path[..i]).value.Leaf?
  }

  /** What a path should find in a merge, by what it finds in the two trees. */
  ghost function Merged(dst: Val, src: Val, path: Path): Option<Val> {
    match Lookup(src, path)
    case None => if LeafOnTheWay(src, path) then None else Lookup(dst, path)
    case Some(s) =>
      match Lookup(dst, path)
      case None => Some(s)
      case Some(d) => if d.Tree? && s.Tree? then Some(Merge(d, s)) else Some(s)
  }

  lemma WayFrom(v: Val, path: Path)
    requires path != [] && v.Tree? && path[0] in v.m
    ensures LeafOnTheWay(v, path) <==> LeafOnTheWay(v.m[path[0]], path[1..])
  {
    var child, rest := v.m[path[0]], path[1..];
    if LeafOnTheWay(v, path) {
      var i :| 0 <= i < |path| && Lookup(v, path[..i]).Some? && Lookup(v, path[..i]).value.Leaf?;
      assert path[..i][1..] == rest[..i - 1];
    }
    if LeafOnTheWay(child, rest) {
      var i :| 0 <= i < |rest| && Lookup(child, rest[..i]).Some? && Lookup(child, rest[..i]).value.Leaf?;
      assert path[..i + 1][1..] == rest[..i];
      assert Lookup(v, path[..i + 1]) == Lookup(child, rest[..i]);
    }
  }

  lemma NoWay(v: Val, path: Path)
    requires path != [] && v.Tree? && path[0] !in v.m
    ensures !LeafOnTheWay(v, path)
  {
  }

  lemma LeafStopsHere(v: Val, path: Path)
    requires path != [] && v.Leaf?
    ensures LeafOnTheWay(v, path)
  {
    assert Lookup(v, path[..0]) == Some(v);
  }

  lemma LeafHidesPath(v: Val, path: Path)
    requires LeafOnTheWay(v, path)
    ensures Lookup(v, path) == None
    decreases path
  {
    if v.Tree? && path[0] in v.m {
      WayFrom(v, path);
      LeafHidesPath(v.m[path[0]], path[1..]);
    }
  }

  /** The meaning of Merge at every path: the source's non-map value, or the merge
      of both maps, or nothing below a non-map of the source, or else what the
      destination has. */
  lemma {:induction false} MergeMeaning(dst: Val, src: Val, path: Path)
    ensures Lookup(Merge(dst, src), path) == Merged(dst, src, path)
    decreases path
  {
    if path != [] {
      if src.Leaf? {
        LeafStopsHere(src, path);
      } else if dst.Leaf? {
        if LeafOnTheWay(src, path) {
          LeafHidesPath(src, path);
        }
      } else if path[0] in src.m {
        WayFrom(src, path);
        if path[0] in dst.m {
          MergeMeaning(dst.m[path[0]], src.m[path[0]], path[1..]);
        }
      } else {
        NoWay(src, path);
      }
    }
  }

  // ----- reload -----------------------------------------------------------------------

  /** What loading a source gave. */
  datatype Load = Loaded(tree: Val) | Failed

  ghost predicate MapsOnly(loads: seq<Load>) {
    forall i :: 0 <= i < |loads| && loads[i].Loaded? ==> loads[i].tree.Tree?
  }

  /** All sources that loaded, the later over the earlier. */
  function MergeAll(loads: seq<Load>): Val {
    if loads == [] then EMPTY
    else
      var merged, last := MergeAll(loads[..|loads| - 1]), loads[|loads| - 1];
      if last.Loaded? then Merge(merged, last.tree) else merged
  }

  /** A source speaks about a path: it has something there, or a non-map above. */
  ghost predicate Decides(load: Load, path: Path) {
    load.Loaded? && (Lookup(load.tree, path).Some? || LeafOnTheWay(load.tree, path))
  }

  /** The last loaded source that speaks about a path. */
  ghost predicate LastDecider(loads: seq<Load>, path: Path, i: nat) {
    && i < |loads| && Decides(loads[i], path)
    && forall j :: i < j < |loads| ==> !Decides(loads[j], path)
  }

  lemma {:induction false} MergeAllIsMap(loads: seq<Load>)
    requires MapsOnly(loads)
    ensures MergeAll(loads).Tree?
  {
    if loads != [] {
      MergeAllIsMap(loads[..|loads| - 1]);
    }
  }

  lemma {:induction false} UndecidedIsAbsent(loads: seq<Load>, path: Path)
    requires path != [] && forall i :: 0 <= i < |loads| ==> !Decides(loads[i], path)
    ensures Lookup(MergeAll(loads), path) == None
  {
    if loads != [] {
      var init, last := loads[..|loads| - 1], loads[|loads| - 1];
      UndecidedIsAbsent(init, path);
      if last.Loaded? {
        MergeMeaning(MergeAll(init), last.tree, path);
      }
    }
  }

  /** After a reload, the last loaded source that speaks about a path decides it:
      its non-map value is found; below its non-map nothing is found; and where
      it has a map, a map is found. */
  lemma {:induction false} LastSourceWins(loads: seq<Load>, path: Path, i: nat)
    requires path != [] && LastDecider(loads, path, i)
    ensures var found := Lookup(MergeAll(loads), path);
            match Lookup(loads[i].tree, path)
            case None => found == None
            case Some(v) => if v.Leaf? then found == Some(v) else found.Some? && found.value.Tree?
  {
    var init, last := loads[..|loads| - 1], loads[|loads| - 1];
    if last.Loaded? {
      MergeMeaning(MergeAll(init), last.tree, path);
    }
    if i < |init| {
      assert LastDecider(init, path, i);
      LastSourceWins(init, path, i);
    }
  }

  // ----- set and forget ---------------------------------------------------------------

  /** The map at a name, or an empty one in the place of anything else. */
  function Submap(v: Val, name: Name): (r: Val)
    requires v.Tree?
    ensures r.Tree?
  {
    if name in v.m && v.m[name].Tree? then v.m[name] else EMPTY
  }

  function SetAt(v: Val, path: Path, x: Val): (r: Val)
    requires v.Tree? && path != []
    ensures r.Tree?
    decreases path
  {
    Tree(v.m[path[0] := if |path| == 1 then x else SetAt(Submap(v, path[0]), path[1..], x)])
  }

  function ForgetAt(v: Val, path: Path): (r: Val)
    requires v.Tree? && path != []
    ensures r.Tree?
    decreases path
  {
    if |path| == 1 then Tree(v.m - {path[0]})
    else if path[0] in v.m && v.m[path[0]].Tree? then Tree(v.m[path[0] := ForgetAt(v.m[path[0]], path[1..])])
    else v
  }

  /** The map at a path, or an empty one. */
  function MapAt(v: Val, path: Path): (r: Val)
    ensures r.Tree?
  {
    match Lookup(v, path)
    case None => EMPTY
    case Some(t) => if t.Tree? then t else EMPTY
  }

  /** Every path after Set: the value and what is below it; the maps on the way,
      which gained it; and all other paths as they were. */
  lemma {:induction false} LookupAfterSet(v: Val, path: Path, x: Val, other: Path)
    requires v.Tree? && path != []
    ensures Lookup(SetAt(v, path, x), other) ==
              if path <= other then Lookup(x, other[|path|..])
              else if other <= path then Some(SetAt(MapAt(v, other), path[|other|..], x))
              else Lookup(v, other)
    decreases path
  {
    if other != [] && other[0] == path[0] {
      if |path| == 1 {
        assert path <= other && other[1..] == other[|path|..];
      } else {
        var sub, rest, otherRest := Submap(v, path[0]), path[1..], other[1..];
        LookupAfterSet(sub, rest, x, otherRest);
        assert path <= other <==> rest <= otherRest;
        assert other <= path <==> otherRest <= rest;
        assert path <= other ==> otherRest[|rest|..] == other[|path|..];
        assert other <= path ==> rest[|otherRest|..] == path[|other|..];
        if other <= path {
          if path[0] in v.m {
            assert Lookup(v, other) == Lookup(v.m[path[0]], otherRest);
          }
          assert MapAt(sub, otherRest) == MapAt(v, other);
        }
      }
    } else if other != [] {
      assert !(path <= other) && !(other <= path);
    } else {
      assert path[|other|..] == path;
    }
  }

  /** Every path after Forget: nothing at or below it, the maps on the way
      without it, and all other paths as they were. */
  lemma {:induction false} LookupAfterForget(v: Val, path: Path, other: Path)
    requires v.Tree? && path != []
    ensures Lookup(ForgetAt(v, path), other) ==
              if path <= other then None
              else if other <= path then
                match Lookup(v, other)
                case None => None
                case Some(t) => if t.Tree? then Some(ForgetAt(t, path[|other|..])) else Some(t)
              else Lookup(v, other)
    decreases path
  {
    if other != [] && other[0] == path[0] {
      if |path| > 1 {
        var rest, otherRest := path[1..], other[1..];
        assert path <= other <==> rest <= otherRest;
        assert other <= path <==> otherRest <= rest;
        assert other <= path ==> rest[|otherRest|..] == path[|other|..];
        if path[0] in v.m && v.m[path[0]].Tree? {
          LookupAfterForget(v.m[path[0]], rest, otherRest);
        }
      }
    } else if other != [] {
      assert !(path <= other) && !(other <= path);
    } else {
      assert path[|other|..] == path;
    }
  }
}
