/**
 What becomes of a job: success ends it, failure is what kills it, lists are
 first in first out, and delayed jobs are taken in the order they are due.
 */
module JobFates {
  import opened Wrappers
  import opened JobQueue

  // ----- success ------------------------------------------------------------------------------

  /** The action is a return of the handler for this ticket, with this result. */
  predicate Handles(w: World, a: Action, t: Ticket, ok: bool) {
    && a.Handle? && a.ok == ok
    && StateOf(w.workers, a.worker).Got? && StateOf(w.workers, a.worker).job.ticket == t
  }

  /** How often the handler returned so for this ticket. */
  function Returns(ws: seq<World>, acts: seq<Action>, i: nat, t: Ticket, ok: bool): nat
    requires |ws| == |acts| + 1 && i <= |acts|
  {
    if i == 0 then 0
    else Returns(ws, acts, i - 1, t, ok) + if Handles(ws[i - 1], acts[i - 1], t, ok) then 1 else 0
  }

  lemma EndsInOneStep(policy: Policy, w: World, a: Action, t: Ticket)
    requires Enabled(w, a)
    ensures var w' := Next(policy, w, a);
            && w'.done[t] == w.done[t] + (if Handles(w, a, t, true) then 1 else 0)
            && w'.runs[t] == w.runs[t] + (if Handles(w, a, t, true) || Handles(w, a, t, false) then 1 else 0)
  {
    hide RPush, LPop, ZAdd, ZRem, AfterPush, AfterSettle, Alive, ListOf, SetOf, FirstDue;
    if !a.Handle? {
      OnlyHandlersEnd(policy, w, a);
      hide Next;
    }
  }

  lemma OnlyHandlersEnd(policy: Policy, w: World, a: Action)
    requires Enabled(w, a) && !a.Handle?
    ensures Next(policy, w, a).done == w.done && Next(policy, w, a).runs == w.runs
  {
    hide RPush, LPop, ZAdd, ZRem, AfterPush, AfterSettle, Alive, ListOf, SetOf, FirstDue;
  }

  /** On every run, with any tickets: a job is done as often as its handler returned
      without error, and was run as often as it returned at all. */
  lemma {:induction false} DoneCountsSuccesses(policy: Policy, ws: seq<World>, acts: seq<Action>, i: nat, t: Ticket)
    requires IsRun(policy, ws, acts) && i <= |acts|
    ensures ws[i].done[t] == Returns(ws, acts, i, t, true)
    ensures ws[i].runs[t] == Returns(ws, acts, i, t, true) + Returns(ws, acts, i, t, false)
  {
    if i > 0 {
      DoneCountsSuccesses(policy, ws, acts, i - 1, t);
      EndsInOneStep(policy, ws[i - 1], acts[i - 1], t);
      hide Next, Enabled, Handles;
    }
  }

  lemma {:induction false} ReturnsGrow(ws: seq<World>, acts: seq<Action>, i: nat, j: nat, t: Ticket, ok: bool)
    requires |ws| == |acts| + 1 && i <= j <= |acts|
    ensures Returns(ws, acts, i, t, ok) <= Returns(ws, acts, j, t, ok)
  {
    if i < j {
      ReturnsGrow(ws, acts, i, j - 1, t, ok);
    }
  }

  /** A success is the end of a job: from then on it is done, once, and in no list,
      no sorted set, nobody's hands and not dead. */
  lemma SuccessIsTheEnd(policy: Policy, ws: seq<World>, acts: seq<Action>, i: nat, j: nat, t: Ticket)
    requires IsRun(policy, ws, acts) && DistinctTickets(policy, ws, acts) && i < j <= |acts|
    requires Handles(ws[i], acts[i], t, true)
    ensures ws[j].done[t] == 1 && t !in ws[j].dead
    ensures forall p :: At(ws[j], t, p) <==> p == IsDone(0)
  {
    hide Next, Enabled, DistinctTickets, WasSettledLate;
    assert Returns(ws, acts, i + 1, t, true) > 0;
    ReturnsGrow(ws, acts, i + 1, j, t, true);
    DoneCountsSuccesses(policy, ws, acts, j, t);
    Conservation(policy, ws, acts, j, t);
    hide IsRun, Returns, At;
    EndPlaces(ws[j], t);
  }

  lemma EndPlaces(w: World, t: Ticket)
    ensures w.done[t] > 0 ==> At(w, t, IsDone(0))
    ensures w.done[t] > 1 ==> At(w, t, IsDone(1))
    ensures w.dead[t] > 0 ==> At(w, t, IsDead(0))
  {
  }

  /** Only failures kill: a dead job has no success, and as many failures as attempts. */
  lemma DeadOnlyByFailures(policy: Policy, ws: seq<World>, acts: seq<Action>, i: nat, t: Ticket)
    requires IsRun(policy, ws, acts) && DistinctTickets(policy, ws, acts) && i <= |acts| && t in ws[i].dead
    ensures Returns(ws, acts, i, t, true) == 0 && Returns(ws, acts, i, t, false) == policy.maxAttempts
  {
    DoneCountsSuccesses(policy, ws, acts, i, t);
    DeadAfterAllAttempts(policy, ws, acts, i, t);
  }

  // ----- order --------------------------------------------------------------------------------

  /** Lists are first in first out: in one step a list stays, gains a job at its
      end, or loses the one at its front, which is then in the hands of the worker
      that popped it. */
  lemma ListsAreFifo(policy: Policy, ws: seq<World>, acts: seq<Action>, i: nat, q: Name)
    requires IsRun(policy, ws, acts) && i < |acts|
    ensures var a, before, after := acts[i], ListOf(ws[i].lists, q), ListOf(ws[i + 1].lists, q);
            if a.BlockPop? && a.queue == q
            then |before| > 0 && before == [before[0]] + after
                 && StateOf(ws[i + 1].workers, a.worker) == Got(q, before[0], a.deadline)
            else after == before || (|after| > 0 && after == before + [after[|after| - 1]])
  {
    hide RPush, LPop, ZAdd, ZRem, FirstDue, SetOf, AfterSettle;
    var a, w := acts[i], ws[i];
    match a
    case Push(t) => RPushedList(w.lists, Job(t, 0));
    case BlockPop(_, p, _) => LPoppedList(w.lists, p);
    case Settle(k, _, _) => SettleAppends(policy, w.(workers := w.workers[k := Idle]), StateOf(w.workers, k), a, q);
    case _ =>
  }

  lemma SettleAppends(policy: Policy, w: World, f: Worker, a: Action, q: Name)
    requires f.Failed? && a.Settle?
    ensures var before, after := ListOf(w.lists, q), ListOf(AfterSettle(policy, w, f, a.delay, a.dlqId).lists, q);
            after == before || (|after| > 0 && after == before + [after[|after| - 1]])
  {
    hide RPush, DeadLetter, Retried, ListOf, AfterSettle;
    RPushedList(w.lists, Job(DeadLetter(policy, f, a.dlqId), 0));
    RPushedList(w.lists, Retried(f.job));
  }

  /** A push puts a job that was never tried at the end of its list. */
  lemma PushAppends(policy: Policy, ws: seq<World>, acts: seq<Action>, i: nat, t: Ticket)
    requires IsRun(policy, ws, acts) && i < |acts| && acts[i] == Push(t)
    ensures ListOf(ws[i + 1].lists, t.queue) == ListOf(ws[i].lists, t.queue) + [Job(t, 0)]
    ensures ws[i + 1].sets == ws[i].sets && ws[i + 1].workers == ws[i].workers
  {
    RPushedList(ws[i].lists, Job(t, 0));
  }

  /** A failed job with attempts left that is settled in time waits again with one
      attempt more: without a delay at the end of its list, with one in the sorted
      set, due after that delay. */
  lemma ReleaseWaitsForItsDelay(policy: Policy, ws: seq<World>, acts: seq<Action>, i: nat)
    requires IsRun(policy, ws, acts) && DistinctTickets(policy, ws, acts) && i < |acts| && acts[i].Settle?
    requires InTime(ws[i], acts[i])
    requires ws[i].runs[StateOf(ws[i].workers, acts[i].worker).job.ticket] < policy.maxAttempts
    ensures var w, w', job := ws[i], ws[i + 1], StateOf(ws[i].workers, acts[i].worker).job;
            var again := Job(job.ticket, job.attempts + 1);
            if acts[i].delay <= 0
            then ListOf(w'.lists, job.ticket.queue) == ListOf(w.lists, job.ticket.queue) + [again] && w'.sets == w.sets
            else again in SetOf(w'.sets, job.ticket.queue)
                 && SetOf(w'.sets, job.ticket.queue)[again] == w.now + acts[i].delay && w'.lists == w.lists
  {
    var file := RunKeeps(policy, ws, acts, i);
    HandOnFile(policy, ws[i], file, acts[i].worker);
    RPushedList(ws[i].lists, Retried(StateOf(ws[i].workers, acts[i].worker).job));
    hide Inv, DistinctTickets, RPush;
  }

  /** The worker peeked at this member in step j, within its deadline and when no
      other member of the queue was due before it. */
  ghost predicate PeekedFirst(ws: seq<World>, acts: seq<Action>, j: nat, k: WorkerId, q: Name, job: Job)
    requires |ws| == |acts| + 1 && j < |acts|
  {
    && acts[j].Peek? && acts[j].worker == k && acts[j].queue == q && acts[j].job == job
    && (acts[j].deadline.By? ==> ws[j].now < acts[j].deadline.time)
    && job in SetOf(ws[j].sets, q) && SetOf(ws[j].sets, q)[job] <= ws[j].now
    && forall other :: other in SetOf(ws[j].sets, q) ==> SetOf(ws[j].sets, q)[job] <= SetOf(ws[j].sets, q)[other]
  }

  lemma {:induction false} PeeksAreFirst(policy: Policy, ws: seq<World>, acts: seq<Action>, i: nat, k: WorkerId)
    returns (j: nat)
    requires IsRun(policy, ws, acts) && i <= |acts| && StateOf(ws[i].workers, k).Peeked?
    ensures j < i && var p := StateOf(ws[i].workers, k); PeekedFirst(ws, acts, j, k, p.queue, p.job)
  {
    var a := acts[i - 1];
    assert ws[i] == Next(policy, ws[i - 1], a);
    if a.Peek? && a.worker == k {
      j := i - 1;
    } else {
      StillPeeking(policy, ws[i - 1], a, k);
      j := PeeksAreFirst(policy, ws, acts, i - 1, k);
    }
  }

  lemma StillPeeking(policy: Policy, w: World, a: Action, k: WorkerId)
    requires Enabled(w, a) && StateOf(Next(policy, w, a).workers, k).Peeked? && !(a.Peek? && a.worker == k)
    ensures StateOf(Next(policy, w, a).workers, k) == StateOf(w.workers, k)
  {
    OneWorkerMoves(policy, w, a);
    hide Next, Enabled;
  }

  /** The worker of a step moved, and nobody else did. */
  predicate MovesOne(workers: Workers, workers': Workers, a: Action)
    requires !a.Advance? && !a.Push?
  {
    && a.worker in workers' && workers' == workers[a.worker := workers'[a.worker]]
    && (workers'[a.worker].Peeked? ==> a.Peek?)
  }

  lemma TakingMovesOne(policy: Policy, w: World, a: Action)
    requires Enabled(w, a) && (a.Peek? || a.Remove? || a.BlockPop?)
    ensures MovesOne(w.workers, Next(policy, w, a).workers, a)
  {
    hide RPush, LPop, ZAdd, ZRem, FirstDue, ListOf, SetOf, AfterSettle, AfterPush, Alive;
  }

  lemma EndingMovesOne(policy: Policy, w: World, a: Action)
    requires Enabled(w, a) && (a.Handle? || a.Settle?)
    ensures MovesOne(w.workers, Next(policy, w, a).workers, a)
  {
    hide RPush, LPop, ZAdd, ZRem, FirstDue, ListOf, SetOf, AfterSettle, AfterPush, Alive;
  }

  lemma OneWorkerMoves(policy: Policy, w: World, a: Action)
    requires Enabled(w, a)
    ensures var workers' := Next(policy, w, a).workers;
            if a.Advance? || a.Push? then workers' == w.workers else MovesOne(w.workers, workers', a)
  {
    hide MovesOne, Next;
    match a
    case Advance(to) => WorkersStay(policy, w, a);
    case Push(_) => WorkersStay(policy, w, a);
    case Handle(_, _) => EndingMovesOne(policy, w, a);
    case Settle(_, _, _) => EndingMovesOne(policy, w, a);
    case _ => TakingMovesOne(policy, w, a);
  }

  lemma WorkersStay(policy: Policy, w: World, a: Action)
    requires Enabled(w, a) && (a.Advance? || a.Push?)
    ensures Next(policy, w, a).workers == w.workers
  {
    hide RPush, AfterPush;
  }

  /** The action begins a cycle of this worker with this deadline. */
  predicate Begins(a: Action, k: WorkerId, deadline: Deadline) {
    (a.Peek? || a.BlockPop?) && a.worker == k && a.deadline == deadline
  }

  /** A worker at work is under the deadline its cycle began with. */
  lemma {:induction false} DeadlineOfItsCycle(policy: Policy, ws: seq<World>, acts: seq<Action>, i: nat, k: WorkerId)
    returns (j: nat)
    requires IsRun(policy, ws, acts) && i <= |acts| && !StateOf(ws[i].workers, k).Idle?
    ensures j < i && Begins(acts[j], k, StateOf(ws[i].workers, k).deadline)
  {
    var a := acts[i - 1];
    assert ws[i] == Next(policy, ws[i - 1], a);
    if (a.Peek? || a.BlockPop?) && a.worker == k {
      j := i - 1;
    } else {
      DeadlineStays(policy, ws[i - 1], a, k);
      j := DeadlineOfItsCycle(policy, ws, acts, i - 1, k);
    }
  }

  lemma DeadlineStays(policy: Policy, w: World, a: Action, k: WorkerId)
    requires Enabled(w, a) && !StateOf(Next(policy, w, a).workers, k).Idle?
    requires !((a.Peek? || a.BlockPop?) && a.worker == k)
    ensures !StateOf(w.workers, k).Idle?
    ensures StateOf(Next(policy, w, a).workers, k).deadline == StateOf(w.workers, k).deadline
  {
    OneWorkerMoves(policy, w, a);
    hide RPush, LPop, ZAdd, ZRem, FirstDue, ListOf, SetOf, AfterSettle;
  }

  /** A delayed job that a worker takes had been, at its peek, due and the earliest
      due of its queue. */
  lemma DelayedJobsAreTakenInOrder(policy: Policy, ws: seq<World>, acts: seq<Action>, i: nat) returns (j: nat)
    requires IsRun(policy, ws, acts) && i < |acts| && acts[i].Remove?
    requires StateOf(ws[i + 1].workers, acts[i].worker).Got?
    ensures j < i
    ensures var g := StateOf(ws[i + 1].workers, acts[i].worker);
            && g.job in SetOf(ws[i].sets, g.queue) && g.job !in SetOf(ws[i + 1].sets, g.queue)
            && PeekedFirst(ws, acts, j, acts[i].worker, g.queue, g.job)
  {
    j := PeeksAreFirst(policy, ws, acts, i, acts[i].worker);
    hide PeekedFirst;
  }

  // ----- nobody is stuck --------------------------------------------------------------------

  /** A queue with something due has a member that a peek can answer. */
  lemma {:induction false} SomethingIsFirst(members: map<Job, int>, job: Job) returns (first: Job)
    requires job in members
    ensures first in members && forall other :: other in members ==> members[first] <= members[other]
    decreases |members.Keys|
  {
    if other :| other in members && members[other] < members[job] {
      var fewer := map j | j in members && members[j] < members[job] :: members[j];
      assert fewer.Keys < members.Keys by { assert job !in fewer; }
      SmallerSet(fewer.Keys, members.Keys);
      first := SomethingIsFirst(fewer, other);
      assert first in fewer && members[first] < members[job];
      assert forall o :: o in members && o !in fewer ==> members[job] <= members[o];
    } else {
      first := job;
    }
  }

  lemma SmallerSet(a: set<Job>, b: set<Job>)
    requires a < b
    ensures |a| < |b|
  {
    assert b == a + (b - a) && b - a != {};
  }

  /** A worker at work can always go on: after a peek it removes, its handler returns
      either way, and a failed job can be settled with any delay. */
  lemma WorkersAreNeverStuck(w: World, k: WorkerId, delay: int, dlqId: Id)
    ensures var s := StateOf(w.workers, k);
            && (s.Peeked? ==> Enabled(w, Remove(k)))
            && (s.Got? ==> Enabled(w, Handle(k, true)) && Enabled(w, Handle(k, false)))
            && (s.Failed? ==> Enabled(w, Settle(k, delay, dlqId)))
  {
  }

  /** An idle worker finds work whenever there is some: the front of a list, or the
      first member of a sorted set in which something is due. */
  lemma IdleWorkersFindWork(w: World, k: WorkerId, q: Name, deadline: Deadline) returns (first: Option<Job>)
    requires StateOf(w.workers, k).Idle? && (deadline.By? ==> w.now < deadline.time)
    ensures ListOf(w.lists, q) != [] ==> Enabled(w, BlockPop(k, q, deadline))
    ensures first.Some? ==> Enabled(w, Peek(k, q, first.value, deadline))
    ensures first.None? ==> forall job :: job in SetOf(w.sets, q) ==> w.now < SetOf(w.sets, q)[job]
  {
    if job :| job in SetOf(w.sets, q) && SetOf(w.sets, q)[job] <= w.now {
      var least := SomethingIsFirst(SetOf(w.sets, q), job);
      first := Some(least);
    } else {
      first := None;
    }
  }
}
