/**
 The file cache: a table of reference-counted mutexes, one per key in flight,
 and the read-modify-write operations that run under them.  Any number of
 threads; every critical section of the table, every acquisition of an inner
 mutex and every file read or write is one step.  Entries carry no TTL, and the
 files are a map from keys to their contents.
 */
module FileCache {
  import opened Wrappers
  import Decimal
  import Int64

  type Tid = nat
  type EntryId = nat

  datatype Key = Key(text: string)
  datatype Bytes = Bytes(text: string)

  // ----- the table of mutexes ---------------------------------------------------

  /** A lockEntry object: whether its mutex is locked, and its count. */
  datatype Entry = Entry(locked: bool, holders: int)

  /** `locks` is the map of keyMutex, `entries` all lockEntry objects ever made. */
  datatype Table = Table(locks: map<Key, EntryId>, entries: map<EntryId, Entry>, next: EntryId)

  /** Every entry the map refers to exists. */
  predicate Sound(t: Table) {
    && (forall key :: key in t.locks ==> t.locks[key] in t.entries)
    && (forall e :: e in t.entries ==> e < t.next)
  }

  /** The section of lock under the table's own mutex: find or make the entry
      of the key and count one holder more. */
  function Enter(t: Table, key: Key): (r: Table)
    requires Sound(t)
    ensures Sound(r) && key in r.locks
  {
    if key in t.locks then
      var e := t.locks[key];
      t.(entries := t.entries[e := t.entries[e].(holders := t.entries[e].holders + 1)])
    else
      Table(t.locks[key := t.next], t.entries[t.next := Entry(false, 1)], t.next + 1)
  }

  function LockInner(t: Table, e: EntryId): Table
    requires e in t.entries
  {
    t.(entries := t.entries[e := t.entries[e].(locked := true)])
  }

  /** unlock: a key that is not in the map is ignored. */
  function Leave(t: Table, key: Key): Table
    requires Sound(t)
  {
    if key !in t.locks then t
    else
      var e := t.locks[key];
      var left := Entry(false, t.entries[e].holders - 1);
      t.(entries := t.entries[e := left],
         locks := if left.holders == 0 then t.locks - {key} else t.locks)
  }

  /** The keyMutex object; its sections run one at a time. */
  class KeyMutex {
    var locks: map<Key, EntryId>
    var entries: map<EntryId, Entry>
    var next: EntryId

    ghost function View(): Table
      reads this
    {
      Table(locks, entries, next)
    }

    constructor ()
      ensures View() == Table(map[], map[], 0)
    {
      locks, entries, next := map[], map[], 0;
    }

    method LockSection(key: Key) returns (e: EntryId)
      requires Sound(View())
      modifies this
      ensures View() == Enter(old(View()), key) && e == locks[key]
    {
      if key !in locks {
        entries := entries[next := Entry(false, 0)];
        locks := locks[key := next];
        next := next + 1;
      }
      e := locks[key];
      entries := entries[e := entries[e].(holders := entries[e].holders + 1)];
    }

    method UnlockSection(key: Key)
      requires Sound(View())
      modifies this
      ensures View() == Leave(old(View()), key)
    {
      if key !in locks {
        return;
      }
      var e := locks[key];
      entries := entries[e := Entry(false, entries[e].holders - 1)];
      if entries[e].holders == 0 {
        locks := locks - {key};
      }
    }
  }

  // ----- operations on one key --------------------------------------------------

  datatype Cell = Missing | Present(value: Bytes)

  datatype Op = Put(value: Bytes) | Add(value: Bytes) | Forget | Adjust(delta: int) | Get

  datatype Result = Done | Added(ok: bool) | Counter(n: int) | NotInteger | Got(cell: Cell)

  /** What an operation writes, given what it has read. */
  function Written(op: Op, cell: Cell): Cell {
    match op
    case Put(v) => Present(v)
    case Add(v) => if cell.Missing? then Present(v) else cell
    case Forget => Missing
    case Get => cell
    case Adjust(delta) =>
      match Current(cell)
      case None => cell
      case Some(n) => Present(Bytes(Decimal.Format(Int64.Wrap(n + delta))))
  }

  function Answer(op: Op, cell: Cell): Result {
    match op
    case Put(_) => Done
    case Add(_) => Added(cell.Missing?)
    case Forget => Done
    case Get => Got(cell)
    case Adjust(delta) =>
      match Current(cell)
      case None => NotInteger
      case Some(n) => Counter(Int64.Wrap(n + delta))
  }

  /** The counter in a cell; a missing one counts from zero. */
  function Current(cell: Cell): Option<int> {
    match cell
    case Missing => Some(0)
    case Present(v) => Decimal.Parse(v.text)
  }

  // ----- threads ------------------------------------------------------------------

  /** Progress of an operation: waiting for the inner mutex, holding it, having
      read the file, having written it. */
  datatype Phase = Queued | Entered | HasRead(seen: Cell) | HasWritten

  datatype Thread = Free | Busy(key: Key, entry: EntryId, op: Op, phase: Phase)

  type Threads = map<Tid, Thread>
  type Files = map<Key, Bytes>

  /** An operation that has taken effect, with the answer its caller gets. */
  datatype Effect = Effect(tid: Tid, key: Key, op: Op, answer: Result)

  datatype World = World(table: Table, threads: Threads, files: Files, log: seq<Effect>)

  function StateOf(threads: Threads, t: Tid): Thread {
    if t in threads then threads[t] else Free
  }

  function CellOf(files: Files, key: Key): Cell {
    if key in files then Present(files[key]) else Missing
  }

  function Store(files: Files, key: Key, cell: Cell): Files {
    match cell
    case Missing => files - {key}
    case Present(v) => files[key := v]
  }

  datatype Action =
    | Start(tid: Tid, key: Key, op: Op)
    | Acquire(tid: Tid)
    | Read(tid: Tid)
    | Write(tid: Tid)
    | Unlock(tid: Tid)
    | Peek(tid: Tid, key: Key)

  predicate Enabled(w: World, a: Action) {
    var th := StateOf(w.threads, a.tid);
    match a
    case Start(_, _, op) => th.Free? && !op.Get? && Sound(w.table)
    case Acquire(_) => th.Busy? && th.phase.Queued?
                       && th.entry in w.table.entries && !w.table.entries[th.entry].locked
    case Read(_) => th.Busy? && th.phase.Entered?
    case Write(_) => th.Busy? && th.phase.HasRead?
    case Unlock(_) => th.Busy? && th.phase.HasWritten? && Sound(w.table)
    case Peek(_, _) => th.Free?
  }

  function Next(w: World, a: Action): World
    requires Enabled(w, a)
  {
    var t, th := a.tid, StateOf(w.threads, a.tid);
    match a
    case Start(_, key, op) =>
      var table := Enter(w.table, key);
      w.(table := table, threads := w.threads[t := Busy(key, table.locks[key], op, Queued)])
    case Acquire(_) =>
      w.(table := LockInner(w.table, th.entry), threads := w.threads[t := th.(phase := Entered)])
    case Read(_) =>
      w.(threads := w.threads[t := th.(phase := HasRead(CellOf(w.files, th.key)))])
    case Write(_) =>
      w.(files := Store(w.files, th.key, Written(th.op, th.phase.seen)),
         threads := w.threads[t := th.(phase := HasWritten)],
         log := w.log + [Effect(t, th.key, th.op, Answer(th.op, th.phase.seen))])
    case Unlock(_) =>
      w.(table := Leave(w.table, th.key), threads := w.threads[t := Free])
    case Peek(_, key) =>
      w.(log := w.log + [Effect(t, key, Get, Got(CellOf(w.files, key)))])
  }

  ghost predicate IsRun(ws: seq<World>, acts: seq<Action>) {
    && |ws| == |acts| + 1 && ws[0] == World(Table(map[], map[], 0), map[], map[], [])
    && forall i :: 0 <= i < |acts| ==> Enabled(ws[i], acts[i]) && ws[i + 1] == Next(ws[i], acts[i])
  }

  // ----- the lock table is right --------------------------------------------------

  predicate InFlight(threads: Threads, t: Tid, key: Key) {
    StateOf(threads, t).Busy? && StateOf(threads, t).key == key
  }

  predicate Owns(threads: Threads, t: Tid, key: Key) {
    InFlight(threads, t, key) && !StateOf(threads, t).phase.Queued?
  }

  /** Owners and waiters of a key. */
  function Users(threads: Threads, key: Key): set<Tid> {
    set t | t in threads && InFlight(threads, t, key)
  }

  /** The map holds exactly the keys in flight, each with its own entry. */
  ghost predicate KeysFit(table: Table, threads: Threads) {
    && Sound(table)
    && (forall key :: key in table.locks <==> Users(threads, key) != {})
    && (forall key, other :: key in table.locks && other in table.locks && table.locks[key] == table.locks[other]
          ==> key == other)
    && (forall t :: StateOf(threads, t).Busy? ==>
          StateOf(threads, t).key in table.locks && table.locks[StateOf(threads, t).key] == StateOf(threads, t).entry)
  }

  /** The count of an entry is the number of owners and waiters. */
  ghost predicate CountsFit(table: Table, threads: Threads)
    requires Sound(table)
  {
    forall key :: key in table.locks ==> table.entries[table.locks[key]].holders == |Users(threads, key)|
  }

  /** An entry is locked exactly when some thread owns its key, and only one does. */
  ghost predicate OwnersFit(table: Table, threads: Threads)
    requires Sound(table)
  {
    && (forall t, key :: Owns(threads, t, key) && key in table.locks ==> table.entries[table.locks[key]].locked)
    && (forall key :: key in table.locks && table.entries[table.locks[key]].locked ==>
          exists t :: Owns(threads, t, key))
    && (forall t, u, key :: Owns(threads, t, key) && Owns(threads, u, key) ==> t == u)
  }

  ghost predicate LocksFit(table: Table, threads: Threads) {
    KeysFit(table, threads) && CountsFit(table, threads) && OwnersFit(table, threads)
  }

  lemma UsersAfter(threads: Threads, t: Tid, th: Thread, key: Key)
    ensures Users(threads[t := th], key) ==
              if th.Busy? && th.key == key then Users(threads, key) + {t} else Users(threads, key) - {t}
    ensures t in Users(threads, key) <==> InFlight(threads, t, key)
    ensures forall u :: u != t ==> StateOf(threads[t := th], u) == StateOf(threads, u)
  {
  }

  /** One section of the table concerns one key: the others keep their entry. */
  ghost predicate OthersKept(table: Table, table': Table, key: Key)
    requires Sound(table) && Sound(table')
  {
    forall k :: k != key ==>
      && (k in table'.locks <==> k in table.locks)
      && (k in table.locks ==> table'.locks[k] == table.locks[k]
                               && table'.entries[table.locks[k]] == table.entries[table.locks[k]])
  }

  lemma EnterEffect(table: Table, threads: Threads, key: Key)
    requires KeysFit(table, threads)
    ensures var table' := Enter(table, key);
            && OthersKept(table, table', key) && key in table'.locks
            && (forall k :: k in table.locks && k != key ==> table.locks[k] != table'.locks[key])
            && (key in table.locks ==>
                  var e := table.locks[key];
                  && table'.locks[key] == e
                  && table'.entries[e] == Entry(table.entries[e].locked, table.entries[e].holders + 1))
            && (key !in table.locks ==> table'.entries[table'.locks[key]] == Entry(false, 1))
  {
  }

  lemma EnterKeeps(table: Table, threads: Threads, t: Tid, key: Key, op: Op)
    requires LocksFit(table, threads) && StateOf(threads, t).Free?
    ensures LocksFit(Enter(table, key), threads[t := Busy(key, Enter(table, key).locks[key], op, Queued)])
  {
    var th := Busy(key, Enter(table, key).locks[key], op, Queued);
    EnterEffect(table, threads, key);
    EnterKeepsKeys(table, threads, t, th);
    EnterKeepsCounts(table, threads, t, th);
    hide Users, Enter, CountsFit;
    EnterKeepsOwners(table, Enter(table, key), threads, t, th);
  }

  lemma EnterKeepsKeys(table: Table, threads: Threads, t: Tid, th: Thread)
    requires KeysFit(table, threads) && StateOf(threads, t).Free?
    requires th.Busy? && th.entry == Enter(table, th.key).locks[th.key]
    ensures KeysFit(Enter(table, th.key), threads[t := th])
  {
    EnterEffect(table, threads, th.key);
    forall k ensures (Users(threads[t := th], k) != {} <==> k == th.key || Users(threads, k) != {}) {
      UsersAfter(threads, t, th, k);
    }
    UsersAfter(threads, t, th, th.key);
    var table' := Enter(table, th.key);
    hide Users, Enter;
    assert Sound(table');
    var threads' := threads[t := th];
    forall u | StateOf(threads', u).Busy?
      ensures StateOf(threads', u).key in table'.locks
              && table'.locks[StateOf(threads', u).key] == StateOf(threads', u).entry
    {
      if u != t {
        assert StateOf(threads', u) == StateOf(threads, u);
      }
    }
  }

  lemma EnterKeepsCounts(table: Table, threads: Threads, t: Tid, th: Thread)
    requires KeysFit(table, threads) && CountsFit(table, threads) && StateOf(threads, t).Free?
    requires th.Busy?
    ensures CountsFit(Enter(table, th.key), threads[t := th])
  {
    EnterEffect(table, threads, th.key);
    forall k ensures |Users(threads[t := th], k)| == |Users(threads, k)| + if k == th.key then 1 else 0 {
      UsersAfter(threads, t, th, k);
    }
    hide Users, Enter;
  }

  lemma EnterKeepsOwners(table: Table, table': Table, threads: Threads, t: Tid, th: Thread)
    requires Sound(table) && Sound(table') && OwnersFit(table, threads)
    requires StateOf(threads, t).Free? && th.Busy? && th.phase.Queued?
    requires OthersKept(table, table', th.key) && th.key in table'.locks
    requires table'.entries[table'.locks[th.key]].locked ==
               (th.key in table.locks && table.entries[table.locks[th.key]].locked)
    requires forall u, k :: Owns(threads, u, k) ==> k in table.locks
    ensures OwnersFit(table', threads[t := th])
  {
    var threads' := threads[t := th];
    UsersAfter(threads, t, th, th.key);
    hide Users;
    assert forall u, k :: Owns(threads', u, k) <==> Owns(threads, u, k);
  }

  /** Moving on within an operation changes neither users nor keys. */
  lemma PhaseKeepsUsers(table: Table, threads: Threads, t: Tid, phase: Phase)
    requires KeysFit(table, threads) && CountsFit(table, threads) && StateOf(threads, t).Busy?
    ensures var threads' := threads[t := StateOf(threads, t).(phase := phase)];
            KeysFit(table, threads') && CountsFit(table, threads')
  {
    var th := StateOf(threads, t).(phase := phase);
    var threads' := threads[t := th];
    forall k ensures Users(threads', k) == Users(threads, k) {
      UsersAfter(threads, t, th, k);
    }
    UsersAfter(threads, t, th, th.key);
    hide Users;
    forall u | StateOf(threads', u).Busy?
      ensures StateOf(threads', u).key in table.locks
              && table.locks[StateOf(threads', u).key] == StateOf(threads', u).entry
    {
      assert StateOf(threads, u).Busy?;
    }
  }

  lemma OwnerMovesOn(table: Table, threads: Threads, t: Tid, phase: Phase)
    requires LocksFit(table, threads) && StateOf(threads, t).Busy? && !StateOf(threads, t).phase.Queued?
    requires !phase.Queued?
    ensures LocksFit(table, threads[t := StateOf(threads, t).(phase := phase)])
  {
    var th := StateOf(threads, t).(phase := phase);
    PhaseKeepsUsers(table, threads, t, phase);
    UsersAfter(threads, t, th, th.key);
    var threads' := threads[t := th];
    hide Users, CountsFit;
    assert forall u, k :: Owns(threads', u, k) <==> Owns(threads, u, k);
    assert OwnersFit(table, threads');
  }

  /** Locking a free inner mutex makes the waiter the one owner of its key. */
  lemma AcquireKeeps(table: Table, threads: Threads, t: Tid)
    requires LocksFit(table, threads) && StateOf(threads, t).Busy? && StateOf(threads, t).phase.Queued?
    requires StateOf(threads, t).entry in table.entries && !table.entries[StateOf(threads, t).entry].locked
    ensures var th := StateOf(threads, t);
            LocksFit(LockInner(table, th.entry), threads[t := th.(phase := Entered)])
  {
    var th := StateOf(threads, t).(phase := Entered);
    var threads' := threads[t := th];
    var table' := LockInner(table, th.entry);
    PhaseKeepsUsers(table, threads, t, Entered);
    UsersAfter(threads, t, th, th.key);
    hide Users;
    assert Sound(table');
    assert CountsFit(table', threads');
    assert forall u, k :: Owns(threads', u, k) <==> Owns(threads, u, k) || (u == t && k == th.key);
    assert Owns(threads', t, th.key);
  }

  lemma LeaveKeeps(table: Table, threads: Threads, t: Tid)
    requires LocksFit(table, threads) && StateOf(threads, t).Busy? && !StateOf(threads, t).phase.Queued?
    ensures LocksFit(Leave(table, StateOf(threads, t).key), threads[t := Free])
  {
    hide OwnersFit, Users, Leave;
    LeaveKeepsKeys(table, threads, t);
    LeaveKeepsCounts(table, threads, t);
    LeaveEffect(table, threads, t);
    LeaveKeepsOwners(table, Leave(table, StateOf(threads, t).key), threads, t);
  }

  lemma LeaveKeepsOwners(table: Table, table': Table, threads: Threads, t: Tid)
    requires Sound(table) && Sound(table') && OwnersFit(table, threads)
    requires StateOf(threads, t).Busy? && !StateOf(threads, t).phase.Queued?
    requires OthersKept(table, table', StateOf(threads, t).key)
    requires StateOf(threads, t).key in table'.locks ==> !table'.entries[table'.locks[StateOf(threads, t).key]].locked
    ensures OwnersFit(table', threads[t := Free])
  {
    var key := StateOf(threads, t).key;
    var threads' := threads[t := Free];
    UsersAfter(threads, t, Free, key);
    hide Users;
    assert forall u, k :: Owns(threads', u, k) <==> Owns(threads, u, k) && u != t;
    assert Owns(threads, t, key);
    forall k | k in table'.locks && table'.entries[table'.locks[k]].locked
      ensures exists u :: Owns(threads', u, k)
    {
      var u :| Owns(threads, u, k);
      assert Owns(threads', u, k);
    }
  }

  lemma LeaveEffect(table: Table, threads: Threads, t: Tid)
    requires KeysFit(table, threads) && StateOf(threads, t).Busy?
    ensures var key := StateOf(threads, t).key;
            var table' := Leave(table, key);
            && Sound(table') && OthersKept(table, table', key)
            && (key in table'.locks <==> table.entries[table.locks[key]].holders != 1)
            && (key in table'.locks ==>
                  && table'.locks[key] == table.locks[key]
                  && table'.entries[table.locks[key]] == Entry(false, table.entries[table.locks[key]].holders - 1))
  {
  }

  lemma LeaveKeepsKeys(table: Table, threads: Threads, t: Tid)
    requires KeysFit(table, threads) && CountsFit(table, threads) && StateOf(threads, t).Busy?
    ensures Sound(Leave(table, StateOf(threads, t).key))
    ensures KeysFit(Leave(table, StateOf(threads, t).key), threads[t := Free])
  {
    var key := StateOf(threads, t).key;
    var threads' := threads[t := Free];
    var table' := Leave(table, key);
    LeaveEffect(table, threads, t);
    UsersAfter(threads, t, Free, key);
    forall k | k != key ensures Users(threads', k) == Users(threads, k) {
      UsersAfter(threads, t, Free, k);
    }
    assert key in table.locks && |Users(threads, key)| == |Users(threads', key)| + 1;
    assert key in table'.locks <==> Users(threads', key) != {};
    LeftUsersStay(threads, t);
    hide Users, Leave;
    forall u | StateOf(threads', u).Busy?
      ensures StateOf(threads', u).key in table'.locks
              && table'.locks[StateOf(threads', u).key] == StateOf(threads', u).entry
    {
      assert StateOf(threads, u).Busy?;
      assert Users(threads', StateOf(threads', u).key) != {};
    }
  }

  lemma LeftUsersStay(threads: Threads, t: Tid)
    ensures forall u :: StateOf(threads[t := Free], u).Busy? ==>
              u != t && StateOf(threads[t := Free], u) == StateOf(threads, u)
              && u in Users(threads[t := Free], StateOf(threads, u).key)
  {
  }

  lemma LeaveKeepsCounts(table: Table, threads: Threads, t: Tid)
    requires KeysFit(table, threads) && CountsFit(table, threads) && StateOf(threads, t).Busy?
    ensures Sound(Leave(table, StateOf(threads, t).key))
    ensures CountsFit(Leave(table, StateOf(threads, t).key), threads[t := Free])
  {
    var key := StateOf(threads, t).key;
    LeaveEffect(table, threads, t);
    assert key in table.locks;
    forall k ensures |Users(threads[t := Free], k)| == |Users(threads, k)| - if k == key then 1 else 0 {
      UsersAfter(threads, t, Free, k);
    }
    hide Users, Leave;
  }

  // ----- operations take effect one after the other ---------------------------------

  /** The files after the effects, had they been executed one at a time. */
  function Replay(log: seq<Effect>): Files {
    if log == [] then map[]
    else
      var files, e := Replay(log[..|log| - 1]), log[|log| - 1];
      Store(files, e.key, Written(e.op, CellOf(files, e.key)))
  }

  /** Every answer is the one of the sequential execution. */
  ghost predicate Legal(log: seq<Effect>) {
    forall i :: 0 <= i < |log| ==> log[i].answer == Answer(log[i].op, CellOf(Replay(log[..i]), log[i].key))
  }

  /** What a thread has read is still there. */
  ghost predicate SeenFit(threads: Threads, files: Files) {
    forall t :: StateOf(threads, t).Busy? && StateOf(threads, t).phase.HasRead? ==>
      StateOf(threads, t).phase.seen == CellOf(files, StateOf(threads, t).key)
  }

  ghost predicate Inv(w: World) {
    && LocksFit(w.table, w.threads) && SeenFit(w.threads, w.files)
    && w.files == Replay(w.log) && Legal(w.log)
  }

  lemma LogGrows(log: seq<Effect>, e: Effect)
    requires Legal(log) && e.answer == Answer(e.op, CellOf(Replay(log), e.key))
    ensures Legal(log + [e])
    ensures Replay(log + [e]) == Store(Replay(log), e.key, Written(e.op, CellOf(Replay(log), e.key)))
  {
    var log' := log + [e];
    assert log'[..|log|] == log;
    forall i | 0 <= i < |log'|
      ensures log'[i].answer == Answer(log'[i].op, CellOf(Replay(log'[..i]), log'[i].key))
    {
      if i < |log| {
        assert log'[..i] == log[..i];
      }
    }
  }

  lemma StoreOther(files: Files, key: Key, cell: Cell, other: Key)
    ensures CellOf(Store(files, key, cell), other) == if other == key then cell else CellOf(files, other)
  {
  }

  lemma SeenFrame(threads: Threads, files: Files, t: Tid, th: Thread)
    requires SeenFit(threads, files)
    requires th.Busy? && th.phase.HasRead? ==> th.phase.seen == CellOf(files, th.key)
    ensures SeenFit(threads[t := th], files)
  {
    var threads' := threads[t := th];
    assert forall u :: u != t ==> StateOf(threads', u) == StateOf(threads, u);
  }

  lemma WriteKeeps(w: World, t: Tid)
    requires Inv(w) && Enabled(w, Write(t))
    ensures Inv(Next(w, Write(t)))
  {
    var th := StateOf(w.threads, t);
    var w' := Next(w, Write(t));
    OwnerMovesOn(w.table, w.threads, t, HasWritten);
    LogGrows(w.log, Effect(t, th.key, th.op, Answer(th.op, th.phase.seen)));
    forall u | StateOf(w'.threads, u).Busy? && StateOf(w'.threads, u).phase.HasRead?
      ensures StateOf(w'.threads, u).phase.seen == CellOf(w'.files, StateOf(w'.threads, u).key)
    {
      assert StateOf(w'.threads, u) == StateOf(w.threads, u) && u != t;
      StoreOther(w.files, th.key, Written(th.op, th.phase.seen), StateOf(w.threads, u).key);
      assert Owns(w.threads, u, StateOf(w.threads, u).key) && Owns(w.threads, t, th.key);
    }
    hide Replay, Legal, LocksFit, Written, Answer;
  }

  lemma StepKeeps(w: World, a: Action)
    requires Inv(w) && Enabled(w, a)
    ensures Inv(Next(w, a))
  {
    hide LocksFit, SeenFit, Replay, Legal;
    var t, th := a.tid, StateOf(w.threads, a.tid);
    match a
    case Start(_, key, op) =>
      EnterKeeps(w.table, w.threads, t, key, op);
      SeenFrame(w.threads, w.files, t, Busy(key, Enter(w.table, key).locks[key], op, Queued));
    case Acquire(_) =>
      AcquireKeeps(w.table, w.threads, t);
      SeenFrame(w.threads, w.files, t, th.(phase := Entered));
    case Read(_) =>
      OwnerMovesOn(w.table, w.threads, t, HasRead(CellOf(w.files, th.key)));
      SeenFrame(w.threads, w.files, t, th.(phase := HasRead(CellOf(w.files, th.key))));
    case Write(_) => WriteKeeps(w, t);
    case Unlock(_) =>
      LeaveKeeps(w.table, w.threads, t);
      SeenFrame(w.threads, w.files, t, Free);
    case Peek(_, key) =>
      LogGrows(w.log, Effect(t, key, Get, Got(CellOf(w.files, key))));
      StoreSame(w.files, key);
  }

  lemma StoreSame(files: Files, key: Key)
    ensures Store(files, key, CellOf(files, key)) == files
  {
  }

  lemma {:induction false} RunKeeps(ws: seq<World>, acts: seq<Action>, i: nat)
    requires IsRun(ws, acts) && i <= |acts|
    ensures Inv(ws[i])
  {
    hide Inv, Next, Enabled;
    if i > 0 {
      RunKeeps(ws, acts, i - 1);
      StepKeeps(ws[i - 1], acts[i - 1]);
    } else {
      InitialState();
    }
  }

  lemma InitialState()
    ensures Inv(World(Table(map[], map[], 0), map[], map[], []))
  {
  }

  // ----- theorems -------------------------------------------------------------------

  /** At most one thread owns a key; the entry of a key counts its owner and
      waiters; and the map holds exactly the keys in flight. */
  lemma OneOwnerPerKey(ws: seq<World>, acts: seq<Action>, i: nat, key: Key)
    requires IsRun(ws, acts) && i <= |acts|
    ensures forall t, u :: Owns(ws[i].threads, t, key) && Owns(ws[i].threads, u, key) ==> t == u
    ensures key in ws[i].table.locks <==> exists t :: InFlight(ws[i].threads, t, key)
    ensures key in ws[i].table.locks ==>
              && ws[i].table.locks[key] in ws[i].table.entries
              && ws[i].table.entries[ws[i].table.locks[key]].holders == |Users(ws[i].threads, key)| > 0
  {
    RunKeeps(ws, acts, i);
    hide Replay, Legal, SeenFit;
    if key in ws[i].table.locks {
      var t :| t in Users(ws[i].threads, key);
      assert InFlight(ws[i].threads, t, key);
    }
    forall t | InFlight(ws[i].threads, t, key) ensures t in Users(ws[i].threads, key) { }
  }

  /** There is no deadlock: whenever a key is in flight, some thread that uses it can
      take its next step, and a free thread can start any operation or read. */
  lemma NoDeadlock(ws: seq<World>, acts: seq<Action>, i: nat, key: Key, t: Tid)
    requires IsRun(ws, acts) && i <= |acts|
    ensures (exists u :: InFlight(ws[i].threads, u, key)) ==>
              exists u :: InFlight(ws[i].threads, u, key) && CanGoOn(ws[i], u)
    ensures StateOf(ws[i].threads, t).Free? ==> Enabled(ws[i], Peek(t, key))
    ensures forall op: Op :: StateOf(ws[i].threads, t).Free? && !op.Get? ==> Enabled(ws[i], Start(t, key, op))
  {
    RunKeeps(ws, acts, i);
    hide Replay, Legal, SeenFit, Users;
    var w := ws[i];
    if u :| InFlight(w.threads, u, key) {
      if StateOf(w.threads, u).phase.Queued? && w.table.entries[w.table.locks[key]].locked {
        var owner :| Owns(w.threads, owner, key);
        assert InFlight(w.threads, owner, key) && CanGoOn(w, owner);
      } else {
        assert CanGoOn(w, u);
      }
    }
  }

  predicate CanGoOn(w: World, t: Tid) {
    Enabled(w, Acquire(t)) || Enabled(w, Read(t)) || Enabled(w, Write(t)) || Enabled(w, Unlock(t))
  }

  /** Racing operations are linearizable: in every state the files, and all
      answers so far, are those of the effects executed one after the other. */
  lemma Linearizable(ws: seq<World>, acts: seq<Action>, i: nat)
    requires IsRun(ws, acts) && i <= |acts|
    ensures ws[i].files == Replay(ws[i].log) && Legal(ws[i].log)
  {
    RunKeeps(ws, acts, i);
  }

  /** No file of another key changes. */
  ghost predicate OtherFilesKept(files: Files, files': Files, key: Key) {
    forall other :: other != key ==>
      (other in files' <==> other in files) && (other in files ==> files'[other] == files[other])
  }

  /** What an operation on a key does to the files, and what its caller is told. */
  ghost predicate Does(op: Op, key: Key, files: Files, files': Files, answer: Result) {
    match op
    case Put(v) => key in files' && files'[key] == v
    case Forget => key !in files'
    case Add(v) =>
      if key in files then answer == Added(false) && files' == files
      else answer == Added(true) && key in files' && files'[key] == v
    case Get => files' == files
    case Adjust(delta) => AdjustsTo(files, files', key, delta, answer)
  }

  /** A counter that reads as n, or is missing and counts as zero, becomes text that
      reads as the answered number, the wrapped sum; anything else is refused and kept. */
  ghost predicate AdjustsTo(files: Files, files': Files, key: Key, delta: int, answer: Result) {
    match if key in files then Decimal.Parse(files[key].text) else Some(0)
    case None => answer == NotInteger && files' == files
    case Some(n) =>
      && answer == Counter(Int64.Wrap(n + delta))
      && key in files' && Decimal.Parse(files'[key].text) == Some(Int64.Wrap(n + delta))
  }

  lemma AdjustMeans(files: Files, key: Key, delta: int)
    ensures var cell := CellOf(files, key);
            AdjustsTo(files, Store(files, key, Written(Adjust(delta), cell)), key, delta, Answer(Adjust(delta), cell))
  {
    hide Decimal.Parse, Decimal.Format, Int64.Wrap;
    var cell := CellOf(files, key);
    if Current(cell).Some? {
      Decimal.ParseUndoesFormat(Int64.Wrap(Current(cell).value + delta));
    } else {
      StoreSame(files, key);
    }
  }

  lemma OpMeans(op: Op, files: Files, key: Key)
    ensures var cell := CellOf(files, key);
            var files' := Store(files, key, Written(op, cell));
            Does(op, key, files, files', Answer(op, cell)) && OtherFilesKept(files, files', key)
  {
    if op.Adjust? {
      AdjustMeans(files, key, op.delta);
    }
    StoreSame(files, key);
    hide AdjustsTo, Current;
  }

  /** The step that writes does to the disk what its operation says, in terms of what
      was there just before, whatever other threads have done since the operation
      began; its caller is told accordingly, and no other file changes. */
  lemma EffectOfAWrite(ws: seq<World>, acts: seq<Action>, i: nat, t: Tid)
    requires IsRun(ws, acts) && i < |acts| && acts[i] == Write(t)
    ensures |ws[i + 1].log| == |ws[i].log| + 1
    ensures var th, e := StateOf(ws[i].threads, t), ws[i + 1].log[|ws[i].log|];
            && e.tid == t && e.key == th.key && e.op == th.op
            && Does(th.op, th.key, ws[i].files, ws[i + 1].files, e.answer)
            && OtherFilesKept(ws[i].files, ws[i + 1].files, th.key)
  {
    hide LocksFit, Replay, Legal, Written, Answer, Store, CellOf, Does, OtherFilesKept;
    RunKeeps(ws, acts, i);
    CellIsTheFile(ws[i], t);
    OpMeans(StateOf(ws[i].threads, t).op, ws[i].files, StateOf(ws[i].threads, t).key);
  }

  lemma CellIsTheFile(w: World, t: Tid)
    requires SeenFit(w.threads, w.files) && Enabled(w, Write(t))
    ensures StateOf(w.threads, t).phase.seen == CellOf(w.files, StateOf(w.threads, t).key)
  {
  }

  /** A busy thread performs the operation its caller started. */
  lemma {:induction false} PerformsWhatWasStarted(ws: seq<World>, acts: seq<Action>, i: nat, t: Tid) returns (j: nat)
    requires IsRun(ws, acts) && i <= |acts| && StateOf(ws[i].threads, t).Busy?
    ensures j < i && var th := StateOf(ws[i].threads, t); acts[j] == Start(t, th.key, th.op)
  {
    var w, a := ws[i - 1], acts[i - 1];
    if a.Start? && a.tid == t {
      j := i - 1;
    } else {
      StillTheSame(w, a, t);
      j := PerformsWhatWasStarted(ws, acts, i - 1, t);
    }
  }

  lemma StillTheSame(w: World, a: Action, t: Tid)
    requires Enabled(w, a) && StateOf(Next(w, a).threads, t).Busy? && !(a.Start? && a.tid == t)
    ensures var th, th' := StateOf(w.threads, t), StateOf(Next(w, a).threads, t);
            th.Busy? && th.key == th'.key && th.op == th'.op
  {
    hide Enter, Leave, LockInner, Store, Written, Answer;
  }

  /** A read answers what is on disk, and changes nothing. */
  lemma EffectOfARead(ws: seq<World>, acts: seq<Action>, i: nat, t: Tid, key: Key)
    requires IsRun(ws, acts) && i < |acts| && acts[i] == Peek(t, key)
    ensures |ws[i + 1].log| == |ws[i].log| + 1 && ws[i + 1].files == ws[i].files
    ensures ws[i + 1].log[|ws[i].log|].answer ==
            Got(if key in ws[i].files then Present(ws[i].files[key]) else Missing)
  {
  }

  /** Only a write changes the files. */
  lemma OnlyWritesChangeFiles(ws: seq<World>, acts: seq<Action>, i: nat)
    requires IsRun(ws, acts) && i < |acts| && !acts[i].Write?
    ensures ws[i + 1].files == ws[i].files
  {
  }

  function SumOfDeltas(log: seq<Effect>, key: Key): int {
    if log == [] then 0
    else
      var e := log[|log| - 1];
      SumOfDeltas(log[..|log| - 1], key) + if e.key == key && e.op.Adjust? then e.op.delta else 0
  }

  /** Only increments, decrements and reads touched the key. */
  predicate OnlyAdjusted(log: seq<Effect>, key: Key) {
    forall e :: e in log && e.key == key ==> e.op.Adjust? || e.op.Get?
  }

  lemma AdjustCounts(cell: Cell, delta: int, sum: int)
    requires Current(cell) == Some(Int64.Wrap(sum))
    ensures Current(Written(Adjust(delta), cell)) == Some(Int64.Wrap(sum + delta))
  {
    Int64.WrapSum(sum, delta);
    Decimal.ParseUndoesFormat(Int64.Wrap(sum + delta));
    hide Decimal.Parse, Decimal.Format;
  }

  lemma CountFromZero()
    ensures Current(Missing) == Some(Int64.Wrap(0))
  {
  }

  lemma {:induction false} ReplayCounts(log: seq<Effect>, key: Key)
    requires OnlyAdjusted(log, key)
    ensures Current(CellOf(Replay(log), key)) == Some(Int64.Wrap(SumOfDeltas(log, key)))
  {
    hide Current, Int64.Wrap;
    if log == [] {
      CountFromZero();
    } else {
      var init, e := log[..|log| - 1], log[|log| - 1];
      ReplayCounts(init, key);
      StoreOther(Replay(init), e.key, Written(e.op, CellOf(Replay(init), e.key)), key);
      assert e in log;
      if e.key == key && e.op.Adjust? {
        AdjustCounts(CellOf(Replay(init), key), e.op.delta, SumOfDeltas(init, key));
      }
    }
  }

  /** Concurrent increments and decrements of a key lose no update: its counter
      is the sum of all deltas, up to the wrap-around of int64. */
  lemma NoUpdateIsLost(ws: seq<World>, acts: seq<Action>, i: nat, key: Key)
    requires IsRun(ws, acts) && i <= |acts|
    requires OnlyAdjusted(ws[i].log, key)
    ensures Current(CellOf(ws[i].files, key)) == Some(Int64.Wrap(SumOfDeltas(ws[i].log, key)))
  {
    Linearizable(ws, acts, i);
    ReplayCounts(ws[i].log, key);
  }
}
