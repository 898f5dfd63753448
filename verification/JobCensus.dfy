/**
 A census of the job queue: on every run, with any ids, queues and payloads,
 every push is accounted for by a place where the job is, by a settlement after
 the deadline, or by an equal member of a sorted set that was written over it.
 */
module JobCensus {
  import opened JobQueue

  // ----- counting jobs ----------------------------------------------------------------------

  function CountIn(list: seq<Job>, t: Ticket): nat {
    if list == [] then 0
    else CountIn(list[..|list| - 1], t) + if list[|list| - 1].ticket == t then 1 else 0
  }

  lemma {:induction false} CountOfSum(a: seq<Job>, b: seq<Job>, t: Ticket)
    ensures CountIn(a + b, t) == CountIn(a, t) + CountIn(b, t)
  {
    if b == [] {
      assert a + b == a;
    } else {
      assert (a + b)[..|a + b| - 1] == a + b[..|b| - 1];
      CountOfSum(a, b[..|b| - 1], t);
    }
  }

  function DelayedOf(sets: SortedSets, t: Ticket): set<Job> {
    set job | job in SetOf(sets, t.queue) && job.ticket == t
  }

  function HandsOf(workers: Workers, t: Ticket): set<WorkerId> {
    set k | k in workers && HoldsTicket(workers[k], t)
  }

  predicate HoldsTicket(worker: Worker, t: Ticket) {
    Holding(worker) && worker.job.ticket == t
  }

  /** How many jobs of this ticket there are. */
  function Census(w: World, t: Ticket): nat {
    CountIn(ListOf(w.lists, t.queue), t) + |DelayedOf(w.sets, t)| + |HandsOf(w.workers, t)| + w.done[t] + w.dead[t]
  }

  /** Jobs are kept under the queue of their ticket. */
  ghost predicate ListsSorted(lists: Lists) {
    forall q, job :: job in ListOf(lists, q) ==> job.ticket.queue == q
  }

  ghost predicate SetsSorted(sets: SortedSets) {
    forall q, job :: job in SetOf(sets, q) ==> job.ticket.queue == q
  }

  lemma PushKeepsSorted(lists: Lists, job: Job)
    requires ListsSorted(lists)
    ensures ListsSorted(RPush(lists, job))
  {
    RPushedList(lists, job);
    hide RPush;
  }

  lemma PopKeepsSorted(lists: Lists, q: Name)
    requires ListsSorted(lists) && ListOf(lists, q) != []
    ensures ListsSorted(LPop(lists, q))
  {
    LPoppedList(lists, q);
    hide LPop;
    assert forall job :: job in ListOf(lists, q)[1..] ==> job in ListOf(lists, q);
  }

  lemma SetsStaySorted(sets: SortedSets, q: Name, job: Job, score: int)
    requires SetsSorted(sets)
    ensures SetsSorted(ZAdd(sets, job, score)) && SetsSorted(ZRem(sets, q, job))
  {
    ZRemShrinks(sets, q, job);
    var added := ZAdd(sets, job, score);
    assert forall p :: p != job.ticket.queue ==> SetOf(added, p) == SetOf(sets, p);
    assert SetOf(added, job.ticket.queue) == SetOf(sets, job.ticket.queue)[job := score];
    hide ZAdd, ZRem;
  }

  lemma StepKeepsSorted(policy: Policy, w: World, a: Action)
    requires Enabled(w, a) && ListsSorted(w.lists) && SetsSorted(w.sets)
    ensures ListsSorted(Next(policy, w, a).lists) && SetsSorted(Next(policy, w, a).sets)
  {
    hide ListsSorted, SetsSorted, RPush, LPop, ZAdd, ZRem;
    match a
    case Push(t) => PushKeepsSorted(w.lists, Job(t, 0));
    case BlockPop(_, q, _) => PopKeepsSorted(w.lists, q);
    case Remove(k) => SetsStaySorted(w.sets, StateOf(w.workers, k).queue, StateOf(w.workers, k).job, 0);
    case Settle(k, delay, dlqId) =>
      var f := StateOf(w.workers, k);
      PushKeepsSorted(w.lists, Job(DeadLetter(policy, f, dlqId), 0));
      PushKeepsSorted(w.lists, Retried(f.job));
      SetsStaySorted(w.sets, f.queue, Retried(f.job), w.now + delay);
    case _ =>
  }

  lemma CountAfterPush(lists: Lists, job: Job, t: Ticket)
    ensures CountIn(ListOf(RPush(lists, job), t.queue), t) ==
            CountIn(ListOf(lists, t.queue), t) + if job.ticket == t then 1 else 0
  {
    RPushedList(lists, job);
    CountOfSum(ListOf(lists, job.ticket.queue), [job], t);
    assert CountIn([job], t) == if job.ticket == t then 1 else 0;
    hide RPush, CountIn;
  }

  lemma CountAfterPop(lists: Lists, q: Name, t: Ticket)
    requires ListOf(lists, q) != [] && ListsSorted(lists)
    ensures CountIn(ListOf(lists, t.queue), t) ==
            CountIn(ListOf(LPop(lists, q), t.queue), t) + if ListOf(lists, q)[0].ticket == t then 1 else 0
  {
    LPoppedList(lists, q);
    var list := ListOf(lists, q);
    assert list[0] in list && list == [list[0]] + list[1..];
    CountOfSum([list[0]], list[1..], t);
    assert CountIn([list[0]], t) == if list[0].ticket == t then 1 else 0;
    hide LPop, CountIn;
  }

  lemma DelayedAfterAdd(sets: SortedSets, job: Job, score: int, t: Ticket)
    ensures |DelayedOf(ZAdd(sets, job, score), t)| ==
            |DelayedOf(sets, t)| + if job.ticket == t && job !in SetOf(sets, t.queue) then 1 else 0
  {
    var before, after := DelayedOf(sets, t), DelayedOf(ZAdd(sets, job, score), t);
    assert after == if job.ticket == t then before + {job} else before;
  }

  lemma DelayedAfterRemove(sets: SortedSets, q: Name, job: Job, t: Ticket)
    requires job in SetOf(sets, q) && SetsSorted(sets)
    ensures |DelayedOf(sets, t)| == |DelayedOf(ZRem(sets, q, job), t)| + if job.ticket == t then 1 else 0
  {
    var before, after := DelayedOf(sets, t), DelayedOf(ZRem(sets, q, job), t);
    assert after == before - {job};
  }

  lemma HandsAfter(workers: Workers, k: WorkerId, worker: Worker, t: Ticket)
    ensures |HandsOf(workers[k := worker], t)| + (if HoldsTicket(StateOf(workers, k), t) then 1 else 0)
         == |HandsOf(workers, t)| + if HoldsTicket(worker, t) then 1 else 0
  {
    var before, after := HandsOf(workers, t), HandsOf(workers[k := worker], t);
    assert k in before <==> HoldsTicket(StateOf(workers, k), t);
    assert after == if HoldsTicket(worker, t) then before + {k} else before - {k};
  }

  /** The action writes a member over an equal one in the sorted set. */
  predicate Overwrites(policy: Policy, w: World, a: Action, t: Ticket) {
    && a.Settle? && a.delay > 0 && StateOf(w.workers, a.worker).Failed?
    && var f := StateOf(w.workers, a.worker);
       && f.job.ticket == t && Alive(f.deadline, w.now) && !UsedUp(policy, f.job)
       && Retried(f.job) in SetOf(w.sets, t.queue)
  }

  function One(b: bool): nat {
    if b then 1 else 0
  }

  /** The change of the census in one step. */
  ghost predicate Balances(policy: Policy, w: World, a: Action, t: Ticket)
    requires Enabled(w, a)
  {
    var w' := Next(policy, w, a);
    Census(w', t) + One(SettlesLate(w, a, t)) + One(Overwrites(policy, w, a, t)) + w.pushed[t]
    == Census(w, t) + w'.pushed[t]
  }

  lemma CensusOf(w: World, t: Ticket)
    ensures Census(w, t) == CountIn(ListOf(w.lists, t.queue), t) + |DelayedOf(w.sets, t)| + |HandsOf(w.workers, t)|
                            + w.done[t] + w.dead[t]
  {
  }

  lemma BlockPopBalances(policy: Policy, w: World, a: Action, t: Ticket)
    requires Enabled(w, a) && ListsSorted(w.lists) && a.BlockPop?
    ensures Balances(policy, w, a, t)
  {
    hide Census, CountIn, DelayedOf, HandsOf, LPop, ListsSorted;
    CensusOf(w, t);
    CensusOf(Next(policy, w, a), t);
    HandsAfter(w.workers, a.worker, Got(a.queue, ListOf(w.lists, a.queue)[0], a.deadline), t);
    CountAfterPop(w.lists, a.queue, t);
  }

  lemma RemoveBalances(policy: Policy, w: World, a: Action, t: Ticket)
    requires Enabled(w, a) && SetsSorted(w.sets) && (a.Peek? || a.Remove?)
    ensures Balances(policy, w, a, t)
  {
    hide Census, CountIn, DelayedOf, HandsOf, ZRem, SetsSorted;
    var s := StateOf(w.workers, a.worker);
    CensusOf(w, t);
    CensusOf(Next(policy, w, a), t);
    HandsAfter(w.workers, a.worker, StateOf(Next(policy, w, a).workers, a.worker), t);
    if a.Remove? && s.job in SetOf(w.sets, s.queue) {
      DelayedAfterRemove(w.sets, s.queue, s.job, t);
    }
  }

  lemma HandleBalances(policy: Policy, w: World, a: Action, t: Ticket)
    requires Enabled(w, a) && a.Handle?
    ensures Balances(policy, w, a, t)
  {
    hide Census, CountIn, DelayedOf, HandsOf;
    CensusOf(w, t);
    CensusOf(Next(policy, w, a), t);
    HandsAfter(w.workers, a.worker, StateOf(Next(policy, w, a).workers, a.worker), t);
  }

  lemma BuryBalances(policy: Policy, w: World, a: Action, t: Ticket)
    requires Enabled(w, a) && a.Settle?
    requires !Alive(StateOf(w.workers, a.worker).deadline, w.now) || UsedUp(policy, StateOf(w.workers, a.worker).job)
    ensures Balances(policy, w, a, t)
  {
    hide Census, CountIn, DelayedOf, HandsOf, RPush;
    CensusOf(w, t);
    CensusOf(Next(policy, w, a), t);
    HandsAfter(w.workers, a.worker, Idle, t);
    CountAfterPush(w.lists, Job(DeadLetter(policy, StateOf(w.workers, a.worker), a.dlqId), 0), t);
  }

  lemma ReleaseBalances(policy: Policy, w: World, a: Action, t: Ticket)
    requires Enabled(w, a) && a.Settle?
    requires Alive(StateOf(w.workers, a.worker).deadline, w.now) && !UsedUp(policy, StateOf(w.workers, a.worker).job)
    ensures Balances(policy, w, a, t)
  {
    hide Census, CountIn, DelayedOf, HandsOf, RPush, ZAdd;
    var job := Retried(StateOf(w.workers, a.worker).job);
    CensusOf(w, t);
    CensusOf(Next(policy, w, a), t);
    HandsAfter(w.workers, a.worker, Idle, t);
    CountAfterPush(w.lists, job, t);
    DelayedAfterAdd(w.sets, job, w.now + a.delay, t);
  }

  lemma PushBalances(policy: Policy, w: World, a: Action, t: Ticket)
    requires Enabled(w, a) && (a.Push? || a.Advance?)
    ensures Balances(policy, w, a, t)
  {
    hide Census, CountIn, DelayedOf, HandsOf, RPush;
    CensusOf(w, t);
    CensusOf(Next(policy, w, a), t);
    if a.Push? {
      CountAfterPush(w.lists, Job(a.ticket, 0), t);
    }
  }

  lemma StepBalances(policy: Policy, w: World, a: Action, t: Ticket)
    requires Enabled(w, a) && ListsSorted(w.lists) && SetsSorted(w.sets)
    ensures Balances(policy, w, a, t)
  {
    hide Balances, ListsSorted, SetsSorted;
    match a
    case Handle(_, _) => HandleBalances(policy, w, a, t);
    case BlockPop(_, _, _) => BlockPopBalances(policy, w, a, t);
    case Peek(_, _, _, _) => RemoveBalances(policy, w, a, t);
    case Remove(_) => RemoveBalances(policy, w, a, t);
    case Settle(k, _, _) =>
      var f := StateOf(w.workers, k);
      if Alive(f.deadline, w.now) && !UsedUp(policy, f.job) {
        ReleaseBalances(policy, w, a, t);
      } else {
        BuryBalances(policy, w, a, t);
      }
    case _ => PushBalances(policy, w, a, t);
  }

  /** How often a member of this ticket was written over. */
  function Overwritten(policy: Policy, ws: seq<World>, acts: seq<Action>, i: nat, t: Ticket): nat
    requires |ws| == |acts| + 1 && i <= |acts|
  {
    if i == 0 then 0
    else Overwritten(policy, ws, acts, i - 1, t) + One(Overwrites(policy, ws[i - 1], acts[i - 1], t))
  }

  /** On every run, whatever the tickets: pushes are the jobs there are, those lost
      by late settlements and those written over in a sorted set. */
  lemma {:induction false} RunBalances(policy: Policy, ws: seq<World>, acts: seq<Action>, i: nat, t: Ticket)
    requires IsRun(policy, ws, acts) && i <= |acts|
    ensures ListsSorted(ws[i].lists) && SetsSorted(ws[i].sets)
    ensures ws[i].pushed[t] == Census(ws[i], t) + ws[i].lost[t] + Overwritten(policy, ws, acts, i, t)
  {
    if i > 0 {
      RunBalances(policy, ws, acts, i - 1, t);
      StepKeepsSorted(policy, ws[i - 1], acts[i - 1]);
      StepBalances(policy, ws[i - 1], acts[i - 1], t);
      LostInOneStep(policy, ws[i - 1], acts[i - 1], t);
      hide Next, Enabled, Census, ListsSorted, SetsSorted, Overwrites, SettlesLate;
    }
  }

  // ----- places ---------------------------------------------------------------------------

  function Indices(list: seq<Job>, t: Ticket): set<nat> {
    set i: nat | i < |list| && list[i].ticket == t
  }

  lemma {:induction false} IndicesCount(list: seq<Job>, t: Ticket)
    ensures |Indices(list, t)| == CountIn(list, t)
  {
    if list != [] {
      var n := |list| - 1;
      IndicesCount(list[..n], t);
      assert Indices(list, t) == Indices(list[..n], t) + if list[n].ticket == t then {n} else {};
    }
  }

  function Below(n: nat): (r: set<nat>)
    ensures |r| == n && forall i: nat :: i in r <==> i < n
  {
    if n == 0 then {} else Below(n - 1) + {n - 1}
  }

  function ListPlaces(q: Name, s: set<nat>): (r: set<Place>)
    ensures forall p :: p in r ==> p.InList?
  {
    set i | i in s :: InList(q, i)
  }

  lemma {:induction false} ListPlacesCount(q: Name, s: set<nat>)
    ensures |ListPlaces(q, s)| == |s|
  {
    if s != {} {
      var i :| i in s;
      ListPlacesCount(q, s - {i});
      assert ListPlaces(q, s) == ListPlaces(q, s - {i}) + {InList(q, i)};
    }
  }

  function SetPlaces(q: Name, s: set<Job>): (r: set<Place>)
    ensures forall p :: p in r ==> p.InSortedSet?
  {
    set job | job in s :: InSortedSet(q, job)
  }

  lemma {:induction false} SetPlacesCount(q: Name, s: set<Job>)
    ensures |SetPlaces(q, s)| == |s|
  {
    if s != {} {
      var job :| job in s;
      SetPlacesCount(q, s - {job});
      assert SetPlaces(q, s) == SetPlaces(q, s - {job}) + {InSortedSet(q, job)};
    }
  }

  function HandPlaces(s: set<WorkerId>): (r: set<Place>)
    ensures forall p :: p in r ==> p.InHands?
  {
    set k | k in s :: InHands(k)
  }

  lemma {:induction false} HandPlacesCount(s: set<WorkerId>)
    ensures |HandPlaces(s)| == |s|
  {
    if s != {} {
      var k :| k in s;
      HandPlacesCount(s - {k});
      assert HandPlaces(s) == HandPlaces(s - {k}) + {InHands(k)};
    }
  }

  function DonePlaces(s: set<nat>): (r: set<Place>)
    ensures forall p :: p in r ==> p.IsDone?
  {
    set n | n in s :: IsDone(n)
  }

  lemma {:induction false} DonePlacesCount(s: set<nat>)
    ensures |DonePlaces(s)| == |s|
  {
    if s != {} {
      var n :| n in s;
      DonePlacesCount(s - {n});
      assert DonePlaces(s) == DonePlaces(s - {n}) + {IsDone(n)};
    }
  }

  function DeadPlaces(s: set<nat>): (r: set<Place>)
    ensures forall p :: p in r ==> p.IsDead?
  {
    set n | n in s :: IsDead(n)
  }

  lemma {:induction false} DeadPlacesCount(s: set<nat>)
    ensures |DeadPlaces(s)| == |s|
  {
    if s != {} {
      var n :| n in s;
      DeadPlacesCount(s - {n});
      assert DeadPlaces(s) == DeadPlaces(s - {n}) + {IsDead(n)};
    }
  }

  function PlacesOf(w: World, t: Ticket): set<Place> {
    ListPlaces(t.queue, Indices(ListOf(w.lists, t.queue), t)) + SetPlaces(t.queue, DelayedOf(w.sets, t))
    + HandPlaces(HandsOf(w.workers, t)) + DonePlaces(Below(w.done[t])) + DeadPlaces(Below(w.dead[t]))
  }

  lemma PlacesCount(w: World, t: Ticket)
    ensures |PlacesOf(w, t)| == Census(w, t)
  {
    hide ListPlaces, SetPlaces, HandPlaces, DonePlaces, DeadPlaces, DelayedOf, HandsOf, Indices, CountIn;
    var inList := ListPlaces(t.queue, Indices(ListOf(w.lists, t.queue), t));
    var inSet := SetPlaces(t.queue, DelayedOf(w.sets, t));
    var inHands := HandPlaces(HandsOf(w.workers, t));
    var done, dead := DonePlaces(Below(w.done[t])), DeadPlaces(Below(w.dead[t]));
    IndicesCount(ListOf(w.lists, t.queue), t);
    ListPlacesCount(t.queue, Indices(ListOf(w.lists, t.queue), t));
    SetPlacesCount(t.queue, DelayedOf(w.sets, t));
    HandPlacesCount(HandsOf(w.workers, t));
    DonePlacesCount(Below(w.done[t]));
    DeadPlacesCount(Below(w.dead[t]));
    KindsApart(inList, inSet, inHands, done, dead);
  }

  lemma KindsApart(inList: set<Place>, inSet: set<Place>, inHands: set<Place>, done: set<Place>, dead: set<Place>)
    requires (forall p :: p in inList ==> p.InList?) && (forall p :: p in inSet ==> p.InSortedSet?)
    requires (forall p :: p in inHands ==> p.InHands?) && (forall p :: p in done ==> p.IsDone?)
    requires forall p :: p in dead ==> p.IsDead?
    ensures |inList + inSet + inHands + done + dead| == |inList| + |inSet| + |inHands| + |done| + |dead|
  {
    assert inList !! inSet;
    assert inList + inSet !! inHands;
    assert inList + inSet + inHands !! done;
    assert inList + inSet + inHands + done !! dead;
  }

  /** A place is found in the part of its kind. */
  lemma PlaceInItsPart(w: World, t: Ticket, p: Place)
    ensures p in PlacesOf(w, t) <==>
            match p
            case InList(_, _) => p in ListPlaces(t.queue, Indices(ListOf(w.lists, t.queue), t))
            case InSortedSet(_, _) => p in SetPlaces(t.queue, DelayedOf(w.sets, t))
            case InHands(_) => p in HandPlaces(HandsOf(w.workers, t))
            case IsDone(_) => p in DonePlaces(Below(w.done[t]))
            case IsDead(_) => p in DeadPlaces(Below(w.dead[t]))
  {
    hide ListPlaces, SetPlaces, HandPlaces, DonePlaces, DeadPlaces, DelayedOf, HandsOf, Indices;
  }

  lemma PlacesAreAll(w: World, t: Ticket, p: Place)
    requires ListsSorted(w.lists) && SetsSorted(w.sets)
    ensures At(w, t, p) <==> p in PlacesOf(w, t)
  {
    PlaceInItsPart(w, t, p);
    hide PlacesOf;
    match p {
      case InList(q, i) => ListPlaceIsThere(w, t, q, i);
      case InSortedSet(q, job) => hide ListsSorted, HandPlaces, DonePlaces, DeadPlaces, ListPlaces;
      case InHands(k) => hide ListsSorted, SetsSorted, SetPlaces, DonePlaces, DeadPlaces, ListPlaces;
      case _ => hide ListsSorted, SetsSorted, SetPlaces, HandPlaces, ListPlaces;
    }
  }

  lemma ListPlaceIsThere(w: World, t: Ticket, q: Name, i: nat)
    requires ListsSorted(w.lists)
    ensures At(w, t, InList(q, i)) <==> InList(q, i) in ListPlaces(t.queue, Indices(ListOf(w.lists, t.queue), t))
  {
    if i < |ListOf(w.lists, q)| {
      assert ListOf(w.lists, q)[i] in ListOf(w.lists, q);
    }
  }

  /** There are as many places as pushes. */
  ghost predicate Balanced(w: World, t: Ticket) {
    exists places :: AllAt(w, t, places) && |places| == w.pushed[t]
  }

  ghost predicate AllAt(w: World, t: Ticket, places: set<Place>) {
    forall p :: p in places ==> At(w, t, p)
  }

  /** The exact condition on any run, with any tickets: as many jobs are there as
      were pushed exactly when none was settled late and none was written over. */
  lemma BalancedIff(policy: Policy, ws: seq<World>, acts: seq<Action>, i: nat, t: Ticket)
    requires IsRun(policy, ws, acts) && i <= |acts|
    ensures Balanced(ws[i], t) <==> !WasSettledLate(ws, acts, i, t) && Overwritten(policy, ws, acts, i, t) == 0
  {
    var w := ws[i];
    RunBalances(policy, ws, acts, i, t);
    LostByLateSettlement(policy, ws, acts, i, t);
    PlacesCount(w, t);
    forall p
      ensures At(w, t, p) <==> p in PlacesOf(w, t)
    {
      PlacesAreAll(w, t, p);
    }
    hide IsRun, WasSettledLate, Overwritten, At, PlacesOf, Census, ListsSorted, SetsSorted;
    assert AllAt(w, t, PlacesOf(w, t));
    forall places | AllAt(w, t, places)
      ensures |places| <= |PlacesOf(w, t)|
    {
      SubsetSize(places, PlacesOf(w, t));
    }
  }

  lemma SubsetSize(a: set<Place>, b: set<Place>)
    requires a <= b
    ensures |a| <= |b|
  {
    assert b == a + (b - a);
  }

  // ----- colliding tickets -------------------------------------------------------------

  /** A run that first pushes the two tickets, whose later pushes are fresh, and
      whose settlements are in time. */
  ghost predicate RunAfterPushing(policy: Policy, ws: seq<World>, acts: seq<Action>, a: Ticket, b: Ticket) {
    && IsRun(policy, ws, acts) && |acts| >= 2 && acts[0] == Push(a) && acts[1] == Push(b)
    && (forall i :: 2 <= i < |acts| ==> PushesFresh(policy, ws[i], acts[i]))
    && AllSettledInTime(ws, acts, |acts|)
  }

  /** Every run that starts with two pushes keeps as many jobs as were pushed
      exactly when the two differ in id, queue or payload, or jobs are never
      retried.  Equal ids alone do no harm. */
  lemma ConservedIffTicketsDiffer(policy: Policy, a: Ticket, b: Ticket)
    requires policy.maxAttempts > 0
    ensures (forall ws, acts :: RunAfterPushing(policy, ws, acts, a, b) ==>
               forall t :: Balanced(ws[|acts|], t)) <==> a != b || policy.maxAttempts == 1
  {
    if policy.maxAttempts == 1 {
      forall ws, acts, t | RunAfterPushing(policy, ws, acts, a, b)
        ensures Balanced(ws[|acts|], t)
      {
        NeverRetriedIsBalanced(policy, ws, acts, t);
      }
    } else if a != b {
      forall ws, acts, t | RunAfterPushing(policy, ws, acts, a, b)
        ensures Balanced(ws[|acts|], t)
      {
        DistinctRunIsBalanced(policy, ws, acts, a, b, t);
      }
    } else {
      var ws, acts := CollidingTicketsLoseAJob(policy, a, 1, 1);
      hide *;
      assert RunAfterPushing(policy, ws, acts, a, a) && !Balanced(ws[8], a);
    }
  }

  /** Without retries nothing is ever written over, whatever the tickets. */
  lemma NeverRetriedIsBalanced(policy: Policy, ws: seq<World>, acts: seq<Action>, t: Ticket)
    requires IsRun(policy, ws, acts) && AllSettledInTime(ws, acts, |acts|) && policy.maxAttempts == 1
    ensures Balanced(ws[|acts|], t)
  {
    NothingOverwritten(policy, ws, acts, |acts|, t);
    BalancedIff(policy, ws, acts, |acts|, t);
  }

  lemma {:induction false} NothingOverwritten(
    policy: Policy, ws: seq<World>, acts: seq<Action>, i: nat, t: Ticket)
    requires |ws| == |acts| + 1 && i <= |acts| && policy.maxAttempts == 1
    ensures Overwritten(policy, ws, acts, i, t) == 0
  {
    if i > 0 {
      NothingOverwritten(policy, ws, acts, i - 1, t);
    }
  }

  lemma DistinctRunIsBalanced(policy: Policy, ws: seq<World>, acts: seq<Action>, a: Ticket, b: Ticket, t: Ticket)
    requires RunAfterPushing(policy, ws, acts, a, b) && a != b
    ensures Balanced(ws[|acts|], t)
  {
    var n, w := |acts|, ws[|acts|];
    forall i | 0 <= i < n
      ensures PushesFresh(policy, ws[i], acts[i])
    {
      if i == 1 {
        assert ws[1] == Next(policy, ws[0], acts[0]);
      }
    }
    hide At, PushesFresh, Inv, Enabled, Next;
    PushedOnce(policy, ws, acts, n, t);
    NothingIsLostIff(policy, ws, acts, n);
    if t in w.pushed {
      var p :| At(w, t, p);
      assert AllAt(w, t, {p});
    } else {
      assert AllAt(w, t, {});
    }
  }

  lemma PushedOnce(policy: Policy, ws: seq<World>, acts: seq<Action>, i: nat, t: Ticket)
    requires IsRun(policy, ws, acts) && DistinctTickets(policy, ws, acts) && i <= |acts|
    ensures ws[i].pushed[t] <= 1
  {
    var file := RunKeeps(policy, ws, acts, i);
    hide ListsFit, SetsFit, HandsFit, PeeksFit, EndsFit, LettersFit;
  }

  /** Two processes number their jobs independently.  When the same id, queue
      and payload are pushed twice and both jobs fail and are released with a
      delay, the sorted set keeps one member: a job is gone. */
  lemma CollidingTicketsLoseAJob(policy: Policy, t: Ticket, d1: int, d2: int)
    returns (ws: seq<World>, acts: seq<Action>)
    requires policy.maxAttempts > 1 && d1 > 0 && d2 > 0
    ensures |acts| == 8 && RunAfterPushing(policy, ws, acts, t, t)
    ensures ws[8].pushed[t] == 2 && !Balanced(ws[8], t)
  {
    hide Step, Calm, Balanced, RunAfterPushing;
    var w1, w2, w3, w4 := TwoPops(policy, t);
    var w5, w6, w7, w8 := TwoFailures(policy, t, d1, d2, w4);
    ws := [Empty(0), w1, w2, w3, w4, w5, w6, w7, w8];
    acts := [Push(t), Push(t), BlockPop(1, t.queue, Never), BlockPop(2, t.queue, Never),
             Handle(1, false), Handle(2, false), Settle(1, d1, 0), Settle(2, d2, 0)];
    OneMemberIsUnbalanced(w8, t, d2);
    CalmRun(policy, ws, acts, t);
  }

  lemma CalmRun(policy: Policy, ws: seq<World>, acts: seq<Action>, t: Ticket)
    requires |acts| >= 2 && |ws| == |acts| + 1 && ws[0] == Empty(0) && policy.maxAttempts > 0
    requires acts[0] == acts[1] == Push(t)
    requires forall i :: 0 <= i < |acts| ==> Step(policy, ws[i], acts[i], ws[i + 1])
    requires forall i :: 2 <= i < |acts| ==> Calm(policy, ws[i], acts[i])
    ensures RunAfterPushing(policy, ws, acts, t, t)
  {
    hide Enabled, Next, PushesFresh;
    forall i | 0 <= i < |acts|
      ensures Enabled(ws[i], acts[i]) && ws[i + 1] == Next(policy, ws[i], acts[i])
    {
      assert Step(policy, ws[i], acts[i], ws[i + 1]);
    }
    forall i | 2 <= i < |acts|
      ensures PushesFresh(policy, ws[i], acts[i]) && InTime(ws[i], acts[i])
    {
      assert Calm(policy, ws[i], acts[i]);
    }
    hide InTime;
    assert forall i :: 0 <= i < |acts| && acts[i].Settle? ==> i >= 2;
    assert IsRun(policy, ws, acts);
  }

  /** The action pushes nothing twice and settles in time. */
  ghost predicate Calm(policy: Policy, w: World, a: Action) {
    PushesFresh(policy, w, a) && InTime(w, a)
  }

  lemma OneMemberIsUnbalanced(w: World, t: Ticket, due: int)
    requires forall q :: ListOf(w.lists, q) == []
    requires w.sets == map[t.queue := map[Job(t, 1) := due]]
    requires w.workers == map[1 := Idle, 2 := Idle] && t !in w.done && t !in w.dead && w.pushed[t] == 2
    ensures !Balanced(w, t)
  {
    var only := InSortedSet(t.queue, Job(t, 1));
    forall places | AllAt(w, t, places)
      ensures |places| <= 1
    {
      forall p | p in places ensures p == only {
        assert At(w, t, p);
      }
      AtMostOne(places, only);
    }
  }

  lemma AtMostOne(places: set<Place>, only: Place)
    requires forall p :: p in places ==> p == only
    ensures |places| <= 1
  {
    if places != {} {
      assert places == {only};
    }
  }

  lemma TwoPops(policy: Policy, t: Ticket) returns (w1: World, w2: World, w3: World, w4: World)
    ensures Step(policy, Empty(0), Push(t), w1) && Step(policy, w1, Push(t), w2)
    ensures Step(policy, w2, BlockPop(1, t.queue, Never), w3) && Calm(policy, w2, BlockPop(1, t.queue, Never))
    ensures Step(policy, w3, BlockPop(2, t.queue, Never), w4) && Calm(policy, w3, BlockPop(2, t.queue, Never))
    ensures var g := Got(t.queue, Job(t, 0), Never); w4.workers == map[1 := g, 2 := g]
    ensures w4.now == 0 && w4.lists == map[t.queue := []] && w4.sets == map[]
    ensures t !in w4.done && t !in w4.dead && w4.pushed[t] == 2
  {
    var job := Job(t, 0);
    w1 := Next(policy, Empty(0), Push(t));
    assert ListOf(w1.lists, t.queue) == [job];
    w2 := Next(policy, w1, Push(t));
    assert ListOf(w2.lists, t.queue) == [job] + [job];
    hide Step, Calm, Next;
    w3 := PoppedHead(policy, w2, 1, t.queue, job, [job]);
    w4 := PoppedHead(policy, w3, 2, t.queue, job, []);
  }

  lemma PoppedHead(policy: Policy, w: World, k: WorkerId, q: Name, job: Job, rest: seq<Job>) returns (w': World)
    requires StateOf(w.workers, k).Idle? && ListOf(w.lists, q) == [job] + rest
    ensures Step(policy, w, BlockPop(k, q, Never), w') && Calm(policy, w, BlockPop(k, q, Never))
    ensures w' == w.(lists := w.lists[q := rest], workers := w.workers[k := Got(q, job, Never)])
  {
    w' := Next(policy, w, BlockPop(k, q, Never));
  }

  lemma TwoFailures(policy: Policy, t: Ticket, d1: int, d2: int, w4: World)
    returns (w5: World, w6: World, w7: World, w8: World)
    requires policy.maxAttempts > 1 && d1 > 0 && d2 > 0
    requires var g := Got(t.queue, Job(t, 0), Never); w4.workers == map[1 := g, 2 := g]
    requires w4.now == 0 && w4.sets == map[]
    ensures Step(policy, w4, Handle(1, false), w5) && Calm(policy, w4, Handle(1, false))
    ensures Step(policy, w5, Handle(2, false), w6) && Calm(policy, w5, Handle(2, false))
    ensures Step(policy, w6, Settle(1, d1, 0), w7) && Calm(policy, w6, Settle(1, d1, 0))
    ensures Step(policy, w7, Settle(2, d2, 0), w8) && Calm(policy, w7, Settle(2, d2, 0))
    ensures w8.workers == map[1 := Idle, 2 := Idle] && w8.sets == map[t.queue := map[Job(t, 1) := d2]]
    ensures w8.lists == w4.lists && w8.done == w4.done && w8.dead == w4.dead && w8.pushed == w4.pushed
  {
    hide Step, Calm;
    w5 := FailedRun(policy, w4, 1);
    w6 := FailedRun(policy, w5, 2);
    CalmHandle(policy, w4, 1, false);
    CalmHandle(policy, w5, 2, false);
    w7 := DelayedRetry(policy, w6, 1, d1);
    assert SetOf(w7.sets, t.queue) == map[Job(t, 1) := d1];
    w8 := DelayedRetry(policy, w7, 2, d2);
    assert SetOf(w8.sets, t.queue) == map[Job(t, 1) := d2];
  }

  lemma CalmHandle(policy: Policy, w: World, k: WorkerId, ok: bool)
    ensures Calm(policy, w, Handle(k, ok))
  {
  }

  lemma DelayedRetry(policy: Policy, w: World, k: WorkerId, delay: int) returns (w': World)
    requires StateOf(w.workers, k).Failed? && StateOf(w.workers, k).deadline == Never && delay > 0
    requires !UsedUp(policy, StateOf(w.workers, k).job)
    ensures Step(policy, w, Settle(k, delay, 0), w') && Calm(policy, w, Settle(k, delay, 0))
    ensures var job := StateOf(w.workers, k).job;
            w' == w.(workers := w.workers[k := Idle], sets := ZAdd(w.sets, Retried(job), w.now + delay))
  {
    w' := Next(policy, w, Settle(k, delay, 0));
  }
}
