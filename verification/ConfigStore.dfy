/**
 The repository as the program holds it: nested maps that are objects, found by
 walking down from the root and updated in place.  A layout says which object is
 the map at which path; as long as no map is reachable on two paths, the objects
 and a value of the tree model describe the same configuration.
 */
module ConfigStore {
  import opened Wrappers
  import opened ConfigTree

  /** What a map holds under a name: a value that is no map, or another map. */
  datatype Slot = Plain(scalar: Scalar) | Sub(node: Node)

  class Node {
    var m: map<Name, Slot>

    constructor ()
      ensures m == map[]
    {
      m := map[];
    }
  }

  // ----- paths ----------------------------------------------------------------------------

  function Child(p: Path, name: Name): Path {
    p + [name]
  }

  predicate Under(path: Path, p: Path) {
    path <= p
  }

  function Rest(path: Path, p: Path): Path
    requires Under(path, p)
  {
    p[|path|..]
  }

  lemma ChildFacts(path: Path, p: Path, name: Name)
    ensures Under(path, path) && Rest(path, path) == []
    ensures Under(path, p) ==> Under(path, Child(p, name)) && Rest(path, Child(p, name)) == Child(Rest(path, p), name)
    ensures !Under(path, p) ==> (Under(path, Child(p, name)) <==> path == Child(p, name))
  {
  }

  lemma ChildIsInjective(p: Path, name: Name, q: Path, other: Name)
    ensures Child(p, name) == Child(q, other) <==> p == q && name == other
    ensures !Under(Child(p, name), p)
  {
    assert Child(p, name)[..|p|] == p && Child(q, other)[..|q|] == q;
    assert Child(p, name)[|p|] == name && Child(q, other)[|q|] == other;
  }

  lemma LastStep(path: Path)
    requires path != []
    ensures path == Child(path[..|path| - 1], path[|path| - 1])
  {
  }

  lemma RestDetermines(path: Path, p: Path, q: Path)
    requires Under(path, p) && Under(path, q) && Rest(path, p) == Rest(path, q)
    ensures p == q
  {
  }

  // ----- maps as objects --------------------------------------------------------------------

  type Maps = map<Path, map<Name, Slot>>
  type Layout = map<Path, Node>

  function SlotOf(m: map<Name, Slot>, name: Name): Option<Slot> {
    if name in m then Some(m[name]) else None
  }

  predicate TreeAt(v: Val, path: Path) {
    Lookup(v, path).Some? && Lookup(v, path).value.Tree?
  }

  /** What should be held at a path. */
  function Expected(v: Val, at: Layout, path: Path): Option<Slot> {
    match Lookup(v, path)
    case None => None
    case Some(Leaf(x)) => Some(Plain(x))
    case Some(Tree(_)) => if path in at then Some(Sub(at[path])) else None
  }

  /** The maps at the paths of the layout hold the tree, each path its own. */
  ghost predicate Fits(v: Val, at: Layout, maps: Maps) {
    Covers(v, at) && Apart(at) && maps.Keys == at.Keys && SlotsFit(v, at, maps)
  }

  ghost predicate Covers(v: Val, at: Layout) {
    forall p :: p in at <==> TreeAt(v, p)
  }

  ghost predicate Apart(at: Layout) {
    forall p, q :: p in at && q in at && at[p] == at[q] ==> p == q
  }

  ghost predicate SlotsFit(v: Val, at: Layout, maps: Maps) {
    forall p, name :: p in maps ==> SlotOf(maps[p], name) == Expected(v, at, Child(p, name))
  }

  lemma SlotFits(v: Val, at: Layout, maps: Maps, p: Path, name: Name)
    requires SlotsFit(v, at, maps) && p in maps
    ensures SlotOf(maps[p], name) == Expected(v, at, Child(p, name))
  {
  }

  ghost function Contents(at: Layout): Maps
    reads at.Values
  {
    map p | p in at :: at[p].m
  }

  ghost predicate LaidOut(v: Val, at: Layout)
    reads at.Values
  {
    Fits(v, at, Contents(at))
  }

  /** The slot holds the value: itself, or as the root of a layout. */
  ghost predicate Holds(slot: Slot, x: Val, at: Layout)
    reads at.Values
  {
    LaidOut(x, at) && Expected(x, at, []) == Some(slot)
  }

  // ----- grafting -----------------------------------------------------------------------

  /** What was below the path is gone; the grafted part is there instead. */
  function Graft<T>(a: map<Path, T>, path: Path, b: map<Path, T>): map<Path, T> {
    (map p | p in a && !Under(path, p) :: a[p]) + (map p | p in Moved(b.Keys, path) :: b[Rest(path, p)])
  }

  function Moved(paths: set<Path>, path: Path): (r: set<Path>)
    ensures forall p :: p in r <==> Under(path, p) && Rest(path, p) in paths
  {
    var r := set q | q in paths :: path + q;
    assert forall p :: path <= p && p[|path|..] in paths ==> p == path + p[|path|..];
    assert forall q :: q in paths ==> (path + q)[|path|..] == q;
    r
  }

  lemma Grafted<T>(a: map<Path, T>, path: Path, b: map<Path, T>, p: Path)
    ensures p in Graft(a, path, b) <==> if Under(path, p) then Rest(path, p) in b else p in a
    ensures p in Graft(a, path, b) ==>
              Graft(a, path, b)[p] == if Under(path, p) then b[Rest(path, p)] else a[p]
  {
  }

  /** After a set, every path finds what the old and the new part say. */
  lemma ExpectedAfterSet(v: Val, at: Layout, path: Path, x: Val, xat: Layout, p: Path)
    requires v.Tree? && path != [] && TreeAt(v, path[..|path| - 1])
    requires Covers(v, at) && Covers(x, xat)
    ensures var v', at' := SetAt(v, path, x), Graft(at, path, xat);
            && (p in at' <==> TreeAt(v', p))
            && Expected(v', at', p) == if Under(path, p) then Expected(x, xat, Rest(path, p)) else Expected(v, at, p)
  {
    LookupAfterSet(v, path, x, p);
    Grafted(at, path, xat, p);
    if p <= path && p != path {
      TreeOnTheWay(v, path[..|path| - 1], p);
    }
  }

  lemma {:induction false} TreeOnTheWay(v: Val, path: Path, p: Path)
    requires TreeAt(v, path) && p <= path
    ensures TreeAt(v, p)
    decreases path
  {
    if p != [] {
      TreeOnTheWay(v.m[path[0]], path[1..], p[1..]);
    }
  }

  function Written(maps: Maps, prefix: Path, name: Name, slot: Slot): Maps
    requires prefix in maps
  {
    maps[prefix := maps[prefix][name := slot]]
  }

  /** Writing one slot of one map sets the path. */
  lemma WriteFits(v: Val, at: Layout, maps: Maps, prefix: Path, name: Name, slot: Slot,
                  x: Val, xat: Layout, xmaps: Maps)
    requires v.Tree? && Fits(v, at, maps) && prefix in at
    requires Fits(x, xat, xmaps) && Expected(x, xat, []) == Some(slot) && at.Values !! xat.Values
    ensures var path := Child(prefix, name);
            Fits(SetAt(v, path, x), Graft(at, path, xat), Graft(Written(maps, prefix, name, slot), path, xmaps))
  {
    var path := Child(prefix, name);
    var v', at' := SetAt(v, path, x), Graft(at, path, xat);
    var maps' := Graft(Written(maps, prefix, name, slot), path, xmaps);
    GraftedApart(at, path, xat);
    assert path[..|path| - 1] == prefix;
    assert TreeAt(v, prefix);
    hide Apart, Graft, SetAt, Expected, Covers, TreeAt, SlotsFit, SlotOf;
    GraftCovers(v, at, path, x, xat);
    GraftedKeys(at, Written(maps, prefix, name, slot), path, xat, xmaps);
    forall p, n | p in maps'
      ensures SlotOf(maps'[p], n) == Expected(v', at', Child(p, n))
    {
      WrittenSlot(v, at, maps, prefix, name, slot, x, xat, xmaps, p, n);
    }
    SlotsFitIntro(v', at', maps');
  }

  lemma SlotsFitIntro(v: Val, at: Layout, maps: Maps)
    requires forall p, name :: p in maps ==> SlotOf(maps[p], name) == Expected(v, at, Child(p, name))
    ensures SlotsFit(v, at, maps)
  {
  }

  lemma GraftCovers(v: Val, at: Layout, path: Path, x: Val, xat: Layout)
    requires v.Tree? && path != [] && TreeAt(v, path[..|path| - 1])
    requires Covers(v, at) && Covers(x, xat)
    ensures Covers(SetAt(v, path, x), Graft(at, path, xat))
  {
    hide Graft, SetAt, Expected, TreeAt;
    forall p
      ensures p in Graft(at, path, xat) <==> TreeAt(SetAt(v, path, x), p)
    {
      ExpectedAfterSet(v, at, path, x, xat, p);
    }
  }

  lemma GraftedKeys<A, B>(a: map<Path, A>, b: map<Path, B>, path: Path, c: map<Path, A>, d: map<Path, B>)
    requires a.Keys == b.Keys && c.Keys == d.Keys
    ensures Graft(a, path, c).Keys == Graft(b, path, d).Keys
  {
  }

  lemma GraftedApart(at: Layout, path: Path, xat: Layout)
    requires Apart(at) && Apart(xat) && at.Values !! xat.Values
    ensures Apart(Graft(at, path, xat))
  {
    var at' := Graft(at, path, xat);
    hide Graft;
    forall p, q | p in at && q in xat
      ensures at[p] != xat[q]
    {
      assert at[p] in at.Values && xat[q] in xat.Values;
    }
    forall p, q | p in at' && q in at' && at'[p] == at'[q]
      ensures p == q
    {
      Grafted(at, path, xat, p);
      Grafted(at, path, xat, q);
      if Under(path, p) && Under(path, q) {
        RestDetermines(path, p, q);
      }
    }
  }

  lemma WrittenSlot(v: Val, at: Layout, maps: Maps, prefix: Path, name: Name, slot: Slot,
                    x: Val, xat: Layout, xmaps: Maps, p: Path, n: Name)
    requires v.Tree? && Fits(v, at, maps) && prefix in at
    requires Fits(x, xat, xmaps) && Expected(x, xat, []) == Some(slot)
    requires p in Graft(Written(maps, prefix, name, slot), Child(prefix, name), xmaps)
    ensures var path := Child(prefix, name);
            SlotOf(Graft(Written(maps, prefix, name, slot), path, xmaps)[p], n) ==
            Expected(SetAt(v, path, x), Graft(at, path, xat), Child(p, n))
  {
    var path, maps' := Child(prefix, name), Written(maps, prefix, name, slot);
    assert path[..|path| - 1] == prefix && TreeAt(v, prefix);
    hide Graft, SetAt, Expected, Covers, TreeAt, SlotsFit, Apart, Written, SlotOf, Child, Under, Rest;
    ExpectedAfterSet(v, at, path, x, xat, Child(p, n));
    Grafted(maps', path, xmaps, p);
    WrittenAt(maps, prefix, name, slot, p, n);
    ChildFacts(path, p, n);
    ChildIsInjective(p, n, prefix, name);
    if Under(path, p) {
      SlotFits(x, xat, xmaps, Rest(path, p), n);
    } else {
      SlotFits(v, at, maps, p, n);
    }
  }

  lemma WrittenAt(maps: Maps, prefix: Path, name: Name, slot: Slot, p: Path, n: Name)
    requires prefix in maps
    ensures p in Written(maps, prefix, name, slot) <==> p in maps
    ensures p in maps ==> SlotOf(Written(maps, prefix, name, slot)[p], n) ==
                          if p == prefix && n == name then Some(slot) else SlotOf(maps[p], n)
  {
  }

  // ----- erasing --------------------------------------------------------------------------

  lemma ExpectedAfterForget(v: Val, at: Layout, path: Path, p: Path)
    requires v.Tree? && path != [] && TreeAt(v, path[..|path| - 1]) && Covers(v, at)
    ensures var v', at' := ForgetAt(v, path), Graft(at, path, map[]);
            && (p in at' <==> TreeAt(v', p))
            && Expected(v', at', p) == if Under(path, p) then None else Expected(v, at, p)
  {
    LookupAfterForget(v, path, p);
    Grafted(at, path, map[], p);
    if p <= path && p != path {
      TreeOnTheWay(v, path[..|path| - 1], p);
    }
  }

  function Erased(maps: Maps, prefix: Path, name: Name): Maps
    requires prefix in maps
  {
    maps[prefix := maps[prefix] - {name}]
  }

  lemma ErasedAt(maps: Maps, prefix: Path, name: Name, p: Path, n: Name)
    requires prefix in maps
    ensures p in Erased(maps, prefix, name) <==> p in maps
    ensures p in maps ==> SlotOf(Erased(maps, prefix, name)[p], n) ==
                          if p == prefix && n == name then None else SlotOf(maps[p], n)
  {
  }

  /** Deleting one slot of one map forgets the path. */
  lemma EraseFits(v: Val, at: Layout, maps: Maps, prefix: Path, name: Name)
    requires v.Tree? && Fits(v, at, maps) && prefix in at
    ensures var path := Child(prefix, name);
            Fits(ForgetAt(v, path), Graft(at, path, map[]), Graft(Erased(maps, prefix, name), path, map[]))
  {
    var path, erased := Child(prefix, name), Erased(maps, prefix, name);
    var v', at', maps' := ForgetAt(v, path), Graft(at, path, map[]), Graft(erased, path, map[]);
    GraftedApart(at, path, map[]);
    assert path[..|path| - 1] == prefix && TreeAt(v, prefix);
    hide Apart, Graft, ForgetAt, Expected, Covers, TreeAt, SlotsFit, SlotOf, Erased, Child, Under, Rest;
    GraftedKeys(at, erased, path, map[], map[]);
    forall p
      ensures p in at' <==> TreeAt(v', p)
    {
      ExpectedAfterForget(v, at, path, p);
    }
    CoversIntro(v', at');
    forall p, n | p in maps'
      ensures SlotOf(maps'[p], n) == Expected(v', at', Child(p, n))
    {
      ExpectedAfterForget(v, at, path, Child(p, n));
      Grafted(erased, path, map[], p);
      ErasedAt(maps, prefix, name, p, n);
      ChildFacts(path, p, n);
      ChildIsInjective(p, n, prefix, name);
      SlotFits(v, at, maps, p, n);
    }
    SlotsFitIntro(v', at', maps');
  }

  lemma CoversIntro(v: Val, at: Layout)
    requires forall p :: p in at <==> TreeAt(v, p)
    ensures Covers(v, at)
  {
  }

  // ----- the repository -------------------------------------------------------------------

  /** One assignment to a map: the tree changes at that path and nowhere else. */
  method Write(node: Node, name: Name, slot: Slot,
               ghost v: Val, ghost at: Layout, ghost prefix: Path, ghost x: Val, ghost xat: Layout)
    requires v.Tree? && LaidOut(v, at) && prefix in at && node == at[prefix]
    requires Holds(slot, x, xat) && at.Values !! xat.Values
    modifies node
    ensures LaidOut(SetAt(v, Child(prefix, name), x), Graft(at, Child(prefix, name), xat))
  {
    hide Fits, Graft, SetAt, Expected, Child;
    ghost var path, maps, xmaps := Child(prefix, name), Contents(at), Contents(xat);
    WriteFits(v, at, maps, prefix, name, slot, x, xat, xmaps);
    NodesAreApart(v, at, maps);
    assert node in at.Values;
    node.m := node.m[name := slot];
    assert Contents(xat) == xmaps;
    assert Contents(at) == Written(maps, prefix, name, slot);
    GraftContents(at, path, xat);
  }

  lemma NodesAreApart(v: Val, at: Layout, maps: Maps)
    requires Fits(v, at, maps)
    ensures forall p, q :: p in at && q in at && at[p] == at[q] ==> p == q
  {
  }

  lemma GraftContents(at: Layout, path: Path, xat: Layout)
    ensures Graft(at, path, xat).Values <= at.Values + xat.Values
    ensures Contents(Graft(at, path, xat)) == Graft(Contents(at), path, Contents(xat))
  {
    var at' := Graft(at, path, xat);
    hide Graft;
    forall p
      ensures p in at' <==> p in Graft(Contents(at), path, Contents(xat))
      ensures p in at' ==> at'[p] in at.Values + xat.Values
      ensures p in at' ==> at'[p].m == Graft(Contents(at), path, Contents(xat))[p]
    {
      Grafted(at, path, xat, p);
      Grafted(Contents(at), path, Contents(xat), p);
    }
  }

  /** One deletion from a map. */
  method Erase(node: Node, name: Name, ghost v: Val, ghost at: Layout, ghost prefix: Path)
    requires v.Tree? && LaidOut(v, at) && prefix in at && node == at[prefix]
    modifies node
    ensures LaidOut(ForgetAt(v, Child(prefix, name)), Graft(at, Child(prefix, name), map[]))
  {
    hide Fits, Graft, ForgetAt, Expected, Child;
    ghost var path, maps := Child(prefix, name), Contents(at);
    EraseFits(v, at, maps, prefix, name);
    NodesAreApart(v, at, maps);
    node.m := node.m - {name};
    assert Contents(at) == Erased(maps, prefix, name);
    ghost var none: Layout := map[];
    assert Contents(none) == map[];
    GraftContents(at, path, none);
  }

  /** Fresh objects that hold a value. */
  method Build(v: Val) returns (slot: Slot, ghost at: Layout)
    ensures Holds(slot, v, at) && fresh(at.Values)
    decreases v, 0
  {
    hide LaidOut, Holds;
    if v.Leaf? {
      slot, at := Plain(v.scalar), map[];
      LeafHolds(v.scalar);
      return;
    }
    var node := new Node();
    at := map[[] := node];
    ghost var done := EMPTY;
    var todo := v.m.Keys;
    EmptyLaidOut(node);
    while todo != {}
      invariant done.Tree? && done.m.Keys == v.m.Keys - todo && forall k :: k in done.m ==> done.m[k] == v.m[k]
      invariant todo <= v.m.Keys
      invariant LaidOut(done, at) && [] in at && at[[]] == node && fresh(at.Values)
      decreases todo
    {
      var k :| k in todo;
      at := BuildChild(node, k, v.m[k], done, at);
      done := SetAt(done, [k], v.m[k]);
      todo := todo - {k};
    }
    assert done.m == v.m;
    slot := Sub(node);
    RootHolds(v, at);
  }

  lemma LeafHolds(x: Scalar)
    ensures Holds(Plain(x), Leaf(x), map[])
  {
  }

  lemma EmptyLaidOut(node: Node)
    requires node.m == map[]
    ensures LaidOut(EMPTY, map[[] := node])
  {
  }

  lemma RootHolds(v: Val, at: Layout)
    requires v.Tree? && LaidOut(v, at) && [] in at
    ensures Holds(Sub(at[[]]), v, at)
  {
  }

  /** Builds a child and hangs it under the root. */
  method BuildChild(node: Node, name: Name, child: Val, ghost v: Val, ghost at: Layout) returns (ghost at': Layout)
    requires v.Tree? && LaidOut(v, at) && [] in at && at[[]] == node
    modifies node
    ensures LaidOut(SetAt(v, [name], child), at') && [] in at' && at'[[]] == node && fresh(at'.Values - at.Values)
    decreases child, 1
  {
    hide LaidOut, Graft, Holds, Child;
    var slot;
    slot, at' := Build(child);
    assert [name] == Child([], name) by { LastStep([name]); }
    Write(node, name, slot, v, at, [], child, at');
    GraftKeepsRoot(at, [name], at');
    at' := Graft(at, [name], at');
  }

  lemma EmptyFits(node: Node, maps: Maps)
    requires maps == map[[] := map[]]
    ensures Fits(EMPTY, map[[] := node], maps)
  {
  }

  /** The repository: one tree, swapped by a reload and edited by path. */
  class Repository {
    var root: Node
    ghost var tree: Val
    ghost var at: Layout

    ghost predicate Valid()
      reads this, at.Values
    {
      tree.Tree? && LaidOut(tree, at) && [] in at && at[[]] == root
    }

    constructor ()
      ensures Valid() && tree == EMPTY && fresh(at.Values)
    {
      root := new Node();
      new;
      tree, at := EMPTY, map[[] := root];
      EmptyFits(root, Contents(at));
    }

    method Replace(v: Val)
      requires v.Tree?
      modifies this
      ensures Valid() && tree == v && fresh(at.Values)
    {
      var slot;
      slot, at := Build(v);
      root, tree := slot.node, v;
    }

    /** lookup: walks down from the root. */
    method Get(path: Path) returns (r: Option<Slot>)
      requires Valid()
      ensures r == if path == [] then None else Expected(tree, at, path)
    {
      if path == [] {
        return None;
      }
      var cur := Sub(root);
      assert path[..0] == [];
      for i := 0 to |path|
        invariant Expected(tree, at, path[..i]) == Some(cur)
      {
        if !cur.Sub? {
          NothingBelow(tree, path, i);
          return None;
        }
        SlotIn(tree, at, path[..i], path[i]);
        assert path[..i + 1] == Child(path[..i], path[i]);
        if path[i] !in cur.node.m {
          SubOrNot(tree, at, path[..i + 1]);
          NothingBelow(tree, path, i + 1);
          return None;
        }
        cur := cur.node.m[path[i]];
      }
      assert path[..|path|] == path;
      return Some(cur);
    }

    /** Walks down, putting an empty map in the place of anything else on the way,
        and writes into the last map. */
    method Set(path: Path, slot: Slot, ghost x: Val, ghost xat: Layout)
      requires Valid() && Holds(slot, x, xat) && at.Values !! xat.Values
      modifies this, at.Values
      ensures Valid() && tree == if path == [] then old(tree) else SetAt(old(tree), path, x)
    {
      if path == [] {
        return;
      }
      hide LaidOut, Holds, Graft, SetAt, Child;
      var last := |path| - 1;
      var node := MakeWay(path, x);
      LastStep(path);
      Put(node, path[last], slot, path[..last], x, xat);
    }

    method Put(node: Node, name: Name, slot: Slot, ghost prefix: Path, ghost x: Val, ghost xat: Layout)
      requires Valid() && prefix in at && node == at[prefix]
      requires Holds(slot, x, xat) && at.Values !! xat.Values
      modifies this`tree, this`at, node
      ensures Valid() && tree == SetAt(old(tree), Child(prefix, name), x)
    {
      hide LaidOut, Holds, Graft, SetAt;
      Write(node, name, slot, tree, at, prefix, x, xat);
      GraftKeepsRoot(at, Child(prefix, name), xat);
      tree, at := SetAt(tree, Child(prefix, name), x), Graft(at, Child(prefix, name), xat);
    }

    /** The loop of Set: after it there is a map for the last name of the path. */
    method MakeWay(path: Path, ghost x: Val) returns (cur: Node)
      requires Valid() && path != []
      modifies this`tree, this`at, at.Values
      ensures Valid() && path[..|path| - 1] in at && cur == at[path[..|path| - 1]]
      ensures SetAt(tree, path, x) == SetAt(old(tree), path, x)
      ensures fresh(at.Values - old(at.Values))
    {
      hide LaidOut, SetAt, TreeAt;
      cur := root;
      assert path[..0] == [];
      for i := 0 to |path| - 1
        invariant Valid() && path[..i] in at && cur == at[path[..i]]
        invariant SetAt(tree, path, x) == SetAt(old(tree), path, x)
        invariant fresh(at.Values - old(at.Values))
      {
        StepDown(tree, at, path, i);
        if path[i] in cur.m && cur.m[path[i]].Sub? {
          cur := cur.m[path[i]].node;
        } else {
          cur := InsertMap(cur, path, i, x);
        }
      }
    }

    /** Puts an empty map where the walk needs one. */
    method InsertMap(cur: Node, path: Path, i: nat, ghost x: Val) returns (next: Node)
      requires Valid() && i + 1 < |path| && path[..i] in at && cur == at[path[..i]]
      requires TreeAt(tree, path[..i]) && !TreeAt(tree, path[..i + 1])
      modifies this`tree, this`at, cur
      ensures Valid() && fresh(next) && path[..i + 1] in at && next == at[path[..i + 1]]
      ensures SetAt(tree, path, x) == SetAt(old(tree), path, x)
      ensures at.Values <= old(at.Values) + {next}
    {
      hide LaidOut, Holds, Graft, SetAt, Child, TreeAt;
      next := new Node();
      ghost var way, nextAt: Layout := path[..i + 1], map[[] := next];
      EmptyHolds(next);
      assert way == Child(path[..i], path[i]) by {
        LastStep(way);
        assert way[..i] == path[..i];
      }
      Write(cur, path[i], Sub(next), tree, at, path[..i], EMPTY, nextAt);
      GraftedRoot(at, way, nextAt);
      GraftKeepsRoot(at, way, nextAt);
      FilledOnTheWay(tree, path, i, x);
      tree, at := SetAt(tree, way, EMPTY), Graft(at, way, nextAt);
    }

    /** Walks down and deletes from the last map, unless something on the way is no map. */
    method Forget(path: Path)
      requires Valid()
      modifies this, at.Values
      ensures Valid() && tree == if path == [] then old(tree) else ForgetAt(old(tree), path)
    {
      if path == [] {
        return;
      }
      hide LaidOut, Graft, ForgetAt, Child, TreeAt;
      var last := |path| - 1;
      var way := FollowWay(path);
      if way.None? {
        return;
      }
      LastStep(path);
      Drop(way.value, path[last], path[..last]);
    }

    method Drop(node: Node, name: Name, ghost prefix: Path)
      requires Valid() && prefix in at && node == at[prefix]
      modifies this`tree, this`at, node
      ensures Valid() && tree == ForgetAt(old(tree), Child(prefix, name))
    {
      hide LaidOut, Graft, ForgetAt;
      Erase(node, name, tree, at, prefix);
      GraftKeepsRoot(at, Child(prefix, name), map[]);
      tree, at := ForgetAt(tree, Child(prefix, name)), Graft(at, Child(prefix, name), map[]);
    }

    /** The loop of Forget: the map for the last name, if there is one. */
    method FollowWay(path: Path) returns (way: Option<Node>)
      requires Valid() && path != []
      ensures way.Some? ==> path[..|path| - 1] in at && way.value == at[path[..|path| - 1]]
      ensures way.None? ==> ForgetAt(tree, path) == tree
    {
      hide LaidOut, ForgetAt, TreeAt;
      var cur := root;
      assert path[..0] == [];
      for i := 0 to |path| - 1
        invariant path[..i] in at && cur == at[path[..i]]
      {
        StepDown(tree, at, path, i);
        if !(path[i] in cur.m && cur.m[path[i]].Sub?) {
          NothingToForget(tree, path, i);
          return None;
        }
        cur := cur.m[path[i]].node;
      }
      return Some(cur);
    }
  }

  // ----- facts about the walk ----------------------------------------------------------------

  lemma SlotIn(v: Val, at: Layout, p: Path, name: Name)
    requires LaidOut(v, at) && p in at
    ensures SlotOf(at[p].m, name) == Expected(v, at, Child(p, name))
  {
  }

  /** One step of a walk from the map at path[..i]. */
  lemma StepDown(v: Val, at: Layout, path: Path, i: nat)
    requires LaidOut(v, at) && i < |path| && path[..i] in at
    ensures var m, name := at[path[..i]].m, path[i];
            if name in m && m[name].Sub? then path[..i + 1] in at && at[path[..i + 1]] == m[name].node
            else TreeAt(v, path[..i]) && !TreeAt(v, path[..i + 1])
  {
    SlotIn(v, at, path[..i], path[i]);
    SubOrNot(v, at, path[..i + 1]);
    assert path[..i + 1] == Child(path[..i], path[i]);
  }

  /** The root stays, and no node comes from elsewhere. */
  lemma GraftKeepsRoot(at: Layout, path: Path, xat: Layout)
    requires path != [] && [] in at
    ensures [] in Graft(at, path, xat) && Graft(at, path, xat)[[]] == at[[]]
    ensures Graft(at, path, xat).Values <= at.Values + xat.Values
  {
  }

  lemma GraftedRoot(at: Layout, path: Path, xat: Layout)
    requires [] in xat
    ensures path in Graft(at, path, xat) && Graft(at, path, xat)[path] == xat[[]]
  {
    Grafted(at, path, xat, path);
    assert path[|path|..] == [];
  }

  lemma SubOrNot(v: Val, at: Layout, p: Path)
    requires LaidOut(v, at)
    ensures match Expected(v, at, p)
            case Some(Sub(node)) => p in at && at[p] == node
            case Some(Plain(_)) => !TreeAt(v, p)
            case None => Lookup(v, p).None?
  {
  }

  lemma EmptyHolds(node: Node)
    requires node.m == map[]
    ensures Holds(Sub(node), EMPTY, map[[] := node])
  {
  }

  lemma {:induction false} NothingBelow(v: Val, path: Path, i: nat)
    requires i <= |path|
    requires Lookup(v, path[..i]).None? || (i < |path| && Lookup(v, path[..i]).value.Leaf?)
    ensures Lookup(v, path).None?
    decreases path
  {
    if i > 0 && v.Tree? && path[0] in v.m {
      assert path[..i][1..] == path[1..][..i - 1];
      NothingBelow(v.m[path[0]], path[1..], i - 1);
    }
  }

  /** A set may first put an empty map on its way. */
  lemma {:induction false} FilledOnTheWay(v: Val, path: Path, i: nat, x: Val)
    requires v.Tree? && i + 1 < |path| && TreeAt(v, path[..i]) && !TreeAt(v, path[..i + 1])
    ensures SetAt(SetAt(v, path[..i + 1], EMPTY), path, x) == SetAt(v, path, x)
    decreases path
  {
    var first, step := path[0], SetAt(v, path[..i + 1], EMPTY);
    assert path[..i + 1][1..] == path[1..][..i];
    if i > 0 {
      FirstStep(v, path, i);
      FilledOnTheWay(v.m[first], path[1..], i - 1, x);
      assert step.m[first] == SetAt(v.m[first], path[1..][..i], EMPTY);
    } else {
      assert Lookup(v, path[..1]) == if first in v.m then Some(v.m[first]) else None;
      assert step.m[first] == EMPTY && Submap(v, first) == EMPTY;
    }
    var below := SetAt(Submap(v, first), path[1..], x);
    assert step.m[first := below] == v.m[first := below];
  }

  lemma {:induction false} NothingToForget(v: Val, path: Path, i: nat)
    requires v.Tree? && i + 1 < |path| && TreeAt(v, path[..i]) && !TreeAt(v, path[..i + 1])
    ensures ForgetAt(v, path) == v
    decreases path
  {
    var first := path[0];
    if i > 0 {
      FirstStep(v, path, i);
      NothingToForget(v.m[first], path[1..], i - 1);
      assert v.m[first := v.m[first]] == v.m;
    } else {
      assert path[..1][1..] == [];
      assert Lookup(v, path[..1]) == if first in v.m then Some(v.m[first]) else None;
    }
  }

  lemma FirstStep(v: Val, path: Path, i: nat)
    requires 0 < i < |path| && TreeAt(v, path[..i])
    ensures v.Tree? && path[0] in v.m && v.m[path[0]].Tree?
    ensures TreeAt(v.m[path[0]], path[1..][..i - 1])
    ensures TreeAt(v.m[path[0]], path[1..][..i]) <==> TreeAt(v, path[..i + 1])
  {
    assert path[..i][1..] == path[1..][..i - 1] && path[..i + 1][1..] == path[1..][..i];
    TreeOnTheWay(v, path[..i], path[..1]);
    assert path[..1][0] == path[0] && path[..1][1..] == [];
    assert Lookup(v, path[..1]) == if path[0] in v.m then Some(v.m[path[0]]) else None;
  }

  // ----- the manager ---------------------------------------------------------------------------

  /** The manager.  Loading is outside: the results of the sources are given. */
  class Manager {
    const repo: Repository
    var closed: bool

    constructor ()
      ensures fresh(repo) && fresh(repo.at.Values) && repo.Valid() && repo.tree == EMPTY && !closed
    {
      repo := new Repository();
      closed := false;
    }

    /** Answers the position of the first source that failed, or -1; a closed
        manager keeps its tree. */
    method Reload(loads: seq<Load>) returns (firstError: int, errClosed: bool)
      requires MapsOnly(loads) && repo.Valid()
      modifies repo
      ensures errClosed == closed
      ensures repo.Valid() && repo.tree == if closed then old(repo.tree) else MergeAll(loads)
      ensures !closed && firstError >= 0 ==>
                && firstError < |loads| && loads[firstError].Failed?
                && forall j :: 0 <= j < firstError ==> loads[j].Loaded?
      ensures !closed && firstError < 0 ==> forall j :: 0 <= j < |loads| ==> loads[j].Loaded?
    {
      firstError := -1;
      if closed {
        return firstError, true;
      }
      var merged := EMPTY;
      for i := 0 to |loads|
        invariant merged.Tree? && merged == MergeAll(loads[..i])
        invariant -1 <= firstError < i
        invariant firstError >= 0 ==> loads[firstError].Failed? && forall j :: 0 <= j < firstError ==> loads[j].Loaded?
        invariant firstError < 0 ==> forall j :: 0 <= j < i ==> loads[j].Loaded?
      {
        assert loads[..i + 1][..i] == loads[..i];
        if loads[i].Failed? {
          if firstError < 0 {
            firstError := i;
          }
        } else {
          merged := MergeTrees(merged, loads[i].tree);
        }
      }
      assert loads[..|loads|] == loads;
      repo.Replace(merged);
      errClosed := false;
    }
  }
}
