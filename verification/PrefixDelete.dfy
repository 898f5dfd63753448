/**
 Recursive deletion below a directory, over a store that knows only objects.
 A key is the sequence of its `/`-separated names; directories exist only as
 proper prefixes of object keys.  The in-memory driver lists one entry for each
 key, so an object hides the directory of the same key; object stores list both.
 */
module PrefixDelete {
  datatype Name = Name(text: string)

  type Path = seq<Name>

  datatype Entry = Entry(key: Path, isDir: bool)

  /** `o` lies strictly below `dir`. */
  predicate Below(dir: Path, o: Path) {
    |dir| < |o| && o[..|dir|] == dir
  }

  /** The name of the step from `dir` towards `o`. */
  function Child(dir: Path, o: Path): (k: Path)
    requires Below(dir, o)
    ensures Below(dir, k) && |k| == |dir| + 1 && (|o| == |k| ==> o == k) && (|o| > |k| ==> Below(k, o))
  {
    assert o[..|dir| + 1][..|dir|] == dir;
    assert o[..|o|] == o;
    o[..|dir| + 1]
  }

  lemma BelowIsTransitive(a: Path, b: Path, c: Path)
    requires Below(a, b) && Below(b, c)
    ensures Below(a, c)
  {
  }

  /** Two prefixes of one path are comparable. */
  lemma PrefixesCompare(a: Path, b: Path, c: Path)
    requires Below(a, c) && Below(b, c) && |a| <= |b|
    ensures a == b || Below(a, b)
  {
  }

  // ----- listing -----------------------------------------------------------------------------

  /** What a listing of `dir` contains: every object directly below it, and every
      directory directly below it, unless the driver lets objects hide directories
      and there is an object of that key. */
  ghost predicate Listed(objects: set<Path>, dir: Path, hiding: bool, e: Entry) {
    && Below(dir, e.key) && |e.key| == |dir| + 1
    && if e.isDir
       then (exists o :: o in objects && Below(e.key, o)) && !(hiding && e.key in objects)
       else e.key in objects
  }

  /** How one more object changes a listing. */
  lemma ListedWithOneMore(objects: set<Path>, dir: Path, hiding: bool, o: Path, e: Entry)
    ensures Listed(objects + {o}, dir, hiding, e) <==>
            if !Below(dir, o) then Listed(objects, dir, hiding, e)
            else if |o| == |dir| + 1
              then e == Entry(o, false) || (Listed(objects, dir, hiding, e) && !(hiding && e == Entry(o, true)))
              else Listed(objects, dir, hiding, e)
                   || (e == Entry(Child(dir, o), true) && !(hiding && Child(dir, o) in objects))
  {
  }

  /** Directories strictly below `dir`. */
  ghost function Directories(objects: set<Path>, dir: Path): set<Path> {
    set o, i | o in objects && Below(dir, o) && |dir| < i < |o| :: o[..i]
  }

  lemma DirectoriesShrink(objects: set<Path>, current: set<Path>, dir: Path, k: Path)
    requires current <= objects && Below(dir, k) && exists o :: o in objects && Below(k, o)
    ensures Directories(current, k) < Directories(objects, dir)
  {
    forall p | p in Directories(current, k)
      ensures p in Directories(objects, dir)
    {
      var o, i :| o in current && Below(k, o) && |k| < i < |o| && p == o[..i];
      BelowIsTransitive(dir, k, o);
    }
    var o :| o in objects && Below(k, o);
    BelowIsTransitive(dir, k, o);
    assert k == o[..|k|] && |dir| < |k| < |o|;
    assert k in Directories(objects, dir);
    assert k !in Directories(current, k);
  }

  // ----- what deletion leaves ------------------------------------------------------------------

  /** Another object lies strictly between `dir` and `o`. */
  ghost predicate Hidden(objects: set<Path>, dir: Path, o: Path) {
    exists x :: x in objects && Below(dir, x) && Below(x, o)
  }

  /** The objects a recursive delete of `dir` reaches. */
  ghost predicate Reached(objects: set<Path>, dir: Path, hiding: bool, o: Path) {
    Below(dir, o) && !(hiding && Hidden(objects, dir, o))
  }

  ghost function Survivors(objects: set<Path>, dir: Path, hiding: bool): set<Path> {
    set o | o in objects && !Reached(objects, dir, hiding, o)
  }

  /** Dealing with one entry of a listing removes `o`. */
  ghost predicate Takes(objects: set<Path>, hiding: bool, e: Entry, o: Path) {
    if e.isDir then Reached(objects, e.key, hiding, o) else o == e.key
  }

  /** The entries of a listing together take exactly what is reached from it. */
  lemma ListingCovers(objects: set<Path>, dir: Path, hiding: bool, o: Path)
    requires o in objects
    ensures Reached(objects, dir, hiding, o) <==>
            exists e :: Listed(objects, dir, hiding, e) && Takes(objects, hiding, e, o)
  {
    if Reached(objects, dir, hiding, o) {
      var k := Child(dir, o);
      var e := Entry(k, |o| > |k|);
      if Below(k, o) && hiding && Hidden(objects, k, o) {
        var x :| x in objects && Below(k, x) && Below(x, o);
        BelowIsTransitive(dir, k, x);
      }
      assert Listed(objects, dir, hiding, e) && Takes(objects, hiding, e, o);
    }
    if e :| Listed(objects, dir, hiding, e) && Takes(objects, hiding, e, o) {
      if e.isDir {
        BelowIsTransitive(dir, e.key, o);
        if hiding && Hidden(objects, dir, o) {
          var x :| x in objects && Below(dir, x) && Below(x, o);
          PrefixesCompare(e.key, x, o);
        }
      }
    }
  }

  /** What is left when some entries of a listing have been dealt with. */
  ghost function Without(objects: set<Path>, hiding: bool, entries: set<Entry>): (r: set<Path>)
    ensures r <= objects
  {
    set o | o in objects && !TakenBy(objects, hiding, entries, o)
  }

  ghost predicate TakenBy(objects: set<Path>, hiding: bool, entries: set<Entry>, o: Path) {
    exists e :: e in entries && Takes(objects, hiding, e, o)
  }

  ghost predicate IsListing(objects: set<Path>, dir: Path, hiding: bool, entries: set<Entry>) {
    forall e :: e in entries <==> Listed(objects, dir, hiding, e)
  }

  lemma NothingDeleted(objects: set<Path>, hiding: bool)
    ensures Without(objects, hiding, {}) == objects
  {
  }

  lemma DeletedOne(
    start: set<Path>, dir: Path, hiding: bool, entries: set<Entry>, done: set<Entry>, e: Entry,
    before: set<Path>, after: set<Path>)
    requires IsListing(start, dir, hiding, entries) && done <= entries && e in entries && e !in done
    requires before == Without(start, hiding, done)
    requires after == if e.isDir then Survivors(before, e.key, hiding) else before - {e.key}
    ensures after == Without(start, hiding, done + {e})
  {
  }

  lemma AllDeleted(start: set<Path>, dir: Path, hiding: bool, entries: set<Entry>)
    requires IsListing(start, dir, hiding, entries)
    ensures Without(start, hiding, entries) == Survivors(start, dir, hiding)
  {
    forall o | o in start
      ensures TakenBy(start, hiding, entries, o) <==> Reached(start, dir, hiding, o)
    {
      ListingCovers(start, dir, hiding, o);
    }
    hide Reached, Takes, Listed;
  }

  /** A recursive delete removes every object strictly below the directory and
      nothing else, exactly when the driver does not hide directories, or no
      object below the directory has another one below it. */
  lemma DeleteIsExactIff(objects: set<Path>, dir: Path, hiding: bool)
    ensures Survivors(objects, dir, hiding) == (set o | o in objects && !Below(dir, o))
            <==> !hiding || forall x, o :: x in objects && o in objects && Below(dir, x) ==> !Below(x, o)
  {
    if x, o :| hiding && x in objects && o in objects && Below(dir, x) && Below(x, o) {
      BelowIsTransitive(dir, x, o);
      assert o in Survivors(objects, dir, hiding);
    }
  }

  /** With the in-memory driver, deleting everything leaves `a/b` when there is an
      object `a`. */
  lemma HiddenObjectSurvives(a: Name, b: Name)
    ensures Survivors({[a], [a, b]}, [], true) == {[a, b]}
  {
  }

  // ----- the store and the walk ------------------------------------------------------------------

  class Store {
    const hiding: bool
    var objects: set<Path>

    constructor (hiding: bool)
      ensures this.hiding == hiding && objects == {}
    {
      this.hiding := hiding;
      objects := {};
    }

    /** The driver's Delete: reports whether the object was there. */
    method Delete(key: Path) returns (found: bool)
      modifies this
      ensures found == (key in old(objects)) && objects == old(objects) - {key}
    {
      found := key in objects;
      objects := objects - {key};
    }

    /** The driver's List: one pass over the objects in no particular order. */
    method List(dir: Path) returns (entries: set<Entry>)
      ensures IsListing(objects, dir, hiding, entries)
    {
      var todo := objects;
      entries := {};
      while todo != {}
        invariant todo <= objects
        invariant forall e :: e in entries <==> Listed(objects - todo, dir, hiding, e)
      {
        var o :| o in todo;
        ghost var done := objects - todo;
        todo := todo - {o};
        assert objects - todo == done + {o};
        if Below(dir, o) {
          var k := Child(dir, o);
          if |o| == |k| {
            entries := (if hiding then entries - {Entry(k, true)} else entries) + {Entry(k, false)};
          } else if !(hiding && Entry(k, false) in entries) {
            entries := entries + {Entry(k, true)};
          }
        }
        forall e
          ensures e in entries <==> Listed(done + {o}, dir, hiding, e)
        {
          ListedWithOneMore(done, dir, hiding, o, e);
          hide Listed;
        }
      }
      assert objects - todo == objects;
    }

    /** deletePrefixRecursive. */
    method DeleteBelow(dir: Path)
      modifies this
      ensures objects == Survivors(old(objects), dir, hiding)
      decreases Directories(objects, dir)
    {
      hide Survivors, Without, Takes;
      var entries := List(dir);
      ghost var start := objects;
      var todo := entries;
      NothingDeleted(start, hiding);
      assert entries - todo == {};
      while todo != {}
        invariant todo <= entries
        invariant objects == Without(start, hiding, entries - todo)
        decreases |todo|
      {
        var e :| e in todo;
        ghost var before, done := objects, entries - todo;
        if e.isDir {
          DirectoriesShrink(start, objects, dir, e.key);
          DeleteBelow(e.key);
        } else {
          var _ := Delete(e.key);
        }
        DeletedOne(start, dir, hiding, entries, done, e, before, objects);
        todo := todo - {e};
        assert entries - todo == done + {e};
      }
      assert entries - todo == entries;
      AllDeleted(start, dir, hiding, entries);
    }
  }
}
