/**
 The Redis job queue: a list and a sorted set per queue, and any number of
 workers that race on them.  Every Redis command, handler return and settlement
 is one step.  A member is the JSON of the whole job, so two members are equal
 exactly when all fields are; it is modelled by the record itself.  One cycle of
 a worker has one context, from the wait for a job to its settlement; a command
 begun when that context has expired fails and does not reach Redis.
 */
module JobQueue {

  type Id = nat
  type WorkerId = nat

  datatype Name = Name(text: string)
  datatype Payload = Payload(bytes: string)

  /** What a push fixes for good.  Ids are counters of one process, so two pushes
      may carry the same one. */
  datatype Ticket = Ticket(id: Id, queue: Name, payload: Payload)
  datatype Job = Job(ticket: Ticket, attempts: nat)

  /** When the context of a cycle expires, if ever. */
  datatype Deadline = Never | By(time: int)

  /** A worker between two commands: in front of Pop, after the ZRANGEBYSCORE
      of popDelayed, holding a popped job, or holding one whose handler failed. */
  datatype Worker =
    | Idle
    | Peeked(queue: Name, job: Job, at: int, deadline: Deadline)
    | Got(queue: Name, job: Job, deadline: Deadline)
    | Failed(queue: Name, job: Job, deadline: Deadline)

  type Lists = map<Name, seq<Job>>
  type SortedSets = map<Name, map<Job, int>>
  type Workers = map<WorkerId, Worker>

  /** A missing list is an empty one, and likewise for sorted sets. */
  function ListOf(lists: Lists, queue: Name): seq<Job> {
    if queue in lists then lists[queue] else []
  }

  function SetOf(sets: SortedSets, queue: Name): map<Job, int> {
    if queue in sets then sets[queue] else map[]
  }

  function StateOf(workers: Workers, k: WorkerId): Worker {
    if k in workers then workers[k] else Idle
  }

  predicate Alive(deadline: Deadline, now: int) {
    deadline.By? ==> now < deadline.time
  }

  // ----- the Redis commands ---------------------------------------------------

  function RPush(lists: Lists, job: Job): Lists {
    lists[job.ticket.queue := ListOf(lists, job.ticket.queue) + [job]]
  }

  function LPop(lists: Lists, queue: Name): Lists
    requires ListOf(lists, queue) != []
  {
    lists[queue := ListOf(lists, queue)[1..]]
  }

  function ZAdd(sets: SortedSets, job: Job, score: int): SortedSets {
    sets[job.ticket.queue := SetOf(sets, job.ticket.queue)[job := score]]
  }

  function ZRem(sets: SortedSets, queue: Name, job: Job): SortedSets {
    sets[queue := SetOf(sets, queue) - {job}]
  }

  /** The part of the server that one queue backend uses. */
  class RedisServer {
    var lists: Lists
    var sets: SortedSets

    constructor ()
      ensures lists == map[] && sets == map[]
    {
      lists, sets := map[], map[];
    }

    method RightPush(job: Job)
      modifies this`lists
      ensures lists == RPush(old(lists), job)
    {
      var queue := job.ticket.queue;
      lists := lists[queue := ListOf(lists, queue) + [job]];
    }

    /** BLPOP, which answers nothing when its timeout passes on an empty list. */
    method BlockingLeftPop(queue: Name) returns (popped: seq<Job>)
      modifies this`lists
      ensures ListOf(old(lists), queue) == popped + ListOf(lists, queue) && |popped| <= 1
      ensures popped == [] <==> ListOf(old(lists), queue) == []
      ensures forall other :: other != queue ==> ListOf(lists, other) == ListOf(old(lists), other)
    {
      var list := ListOf(lists, queue);
      if list == [] {
        return [];
      }
      lists := lists[queue := list[1..]];
      return [list[0]];
    }

    /** ZREM, which answers how many members it removed. */
    method RemoveMember(queue: Name, job: Job) returns (removed: nat)
      modifies this`sets
      ensures removed == if job in SetOf(old(sets), queue) then 1 else 0
      ensures removed == 1 ==> sets == ZRem(old(sets), queue, job)
      ensures removed == 0 ==> sets == old(sets)
    {
      if job in SetOf(sets, queue) {
        sets := sets[queue := SetOf(sets, queue) - {job}];
        return 1;
      }
      return 0;
    }

    method AddMember(job: Job, score: int)
      modifies this`sets
      ensures sets == ZAdd(old(sets), job, score)
    {
      var queue := job.ticket.queue;
      sets := sets[queue := SetOf(sets, queue)[job := score]];
    }
  }

  // ----- the system -----------------------------------------------------------

  datatype Policy = Policy(maxAttempts: nat, dlqSuffix: string)

  /** `lists` and `sets` are the Redis state.  The rest records what happened:
      pushes, handler calls, ends, and for a dead job its ticket on the
      dead-letter queue. */
  datatype World = World(
    now: int,
    lists: Lists,
    sets: SortedSets,
    workers: Workers,
    pushed: multiset<Ticket>,
    runs: multiset<Ticket>,
    done: multiset<Ticket>,
    dead: multiset<Ticket>,
    lost: multiset<Ticket>,
    letters: map<Ticket, Ticket>)

  datatype Action =
    | Advance(to: int)
    | Push(ticket: Ticket)
    | Peek(worker: WorkerId, queue: Name, job: Job, deadline: Deadline)
    | Remove(worker: WorkerId)
    | BlockPop(worker: WorkerId, queue: Name, deadline: Deadline)
    | Handle(worker: WorkerId, ok: bool)
    | Settle(worker: WorkerId, delay: int, dlqId: Id)

  /** A member that ZRANGEBYSCORE -inf now LIMIT 1 can answer. */
  predicate FirstDue(members: map<Job, int>, job: Job, now: int) {
    && job in members && members[job] <= now
    && forall other :: other in members ==> members[job] <= members[other]
  }

  /** A BLPOP that was begun in time may be answered after the deadline. */
  predicate Enabled(w: World, a: Action) {
    match a
    case Advance(to) => w.now <= to
    case Push(_) => true
    case Peek(k, q, job, deadline) =>
      StateOf(w.workers, k).Idle? && Alive(deadline, w.now) && FirstDue(SetOf(w.sets, q), job, w.now)
    case Remove(k) => StateOf(w.workers, k).Peeked?
    case BlockPop(k, q, _) => StateOf(w.workers, k).Idle? && ListOf(w.lists, q) != []
    case Handle(k, _) => StateOf(w.workers, k).Got?
    case Settle(k, _, _) => StateOf(w.workers, k).Failed?
  }

  /** Push: a new job at the end of its list. */
  function AfterPush(w: World, t: Ticket): (r: World)
    ensures r.workers == w.workers && r.sets == w.sets && r.now == w.now && r.done == w.done && r.runs == w.runs
  {
    w.(lists := RPush(w.lists, Job(t, 0)), pushed := w.pushed + multiset{t})
  }

  function Retried(job: Job): Job {
    job.(attempts := job.attempts + 1)
  }

  /** Release: one attempt more, at the end of the list or, with a delay, in
      the sorted set with the time it is due as score. */
  function AfterRelease(w: World, job: Job, delay: int): (r: World)
    ensures r.workers == w.workers && r.now == w.now && r.done == w.done && r.runs == w.runs
  {
    if delay <= 0 then w.(lists := RPush(w.lists, Retried(job)))
    else w.(sets := ZAdd(w.sets, Retried(job), w.now + delay))
  }

  function DeadLetter(policy: Policy, f: Worker, dlqId: Id): Ticket
    requires f.Failed?
  {
    Ticket(dlqId, Name(f.queue.text + policy.dlqSuffix), f.job.ticket.payload)
  }

  predicate UsedUp(policy: Policy, job: Job) {
    job.attempts + 1 >= policy.maxAttempts
  }

  /** Settlement of a failed job.  After the deadline neither the push to the
      dead-letter queue nor the release reaches Redis: the job is gone. */
  function AfterSettle(policy: Policy, w: World, f: Worker, delay: int, dlqId: Id): (r: World)
    requires f.Failed?
    ensures r.workers == w.workers && r.now == w.now && r.done == w.done && r.runs == w.runs
    ensures r.lists == w.lists || r.lists == RPush(w.lists, Job(DeadLetter(policy, f, dlqId), 0))
            || r.lists == RPush(w.lists, Retried(f.job))
  {
    if !Alive(f.deadline, w.now) then w.(lost := w.lost + multiset{f.job.ticket})
    else if UsedUp(policy, f.job) then
      var letter := DeadLetter(policy, f, dlqId);
      AfterPush(w.(dead := w.dead + multiset{f.job.ticket}, letters := w.letters[f.job.ticket := letter]), letter)
    else AfterRelease(w, f.job, delay)
  }

  function Next(policy: Policy, w: World, a: Action): World
    requires Enabled(w, a)
  {
    match a
    case Advance(to) => w.(now := to)
    case Push(t) => AfterPush(w, t)
    case Peek(k, q, job, deadline) => w.(workers := w.workers[k := Peeked(q, job, w.now, deadline)])
    case Remove(k) =>
      var p := StateOf(w.workers, k);
      if Alive(p.deadline, w.now) && p.job in SetOf(w.sets, p.queue) then
        w.(sets := ZRem(w.sets, p.queue, p.job), workers := w.workers[k := Got(p.queue, p.job, p.deadline)])
      else w.(workers := w.workers[k := Idle])
    case BlockPop(k, q, deadline) =>
      w.(lists := LPop(w.lists, q), workers := w.workers[k := Got(q, ListOf(w.lists, q)[0], deadline)])
    case Handle(k, ok) =>
      var g := StateOf(w.workers, k);
      var w' := w.(runs := w.runs + multiset{g.job.ticket});
      if ok then w'.(done := w.done + multiset{g.job.ticket}, workers := w.workers[k := Idle])
      else w'.(workers := w.workers[k := Failed(g.queue, g.job, g.deadline)])
    case Settle(k, delay, dlqId) =>
      AfterSettle(policy, w.(workers := w.workers[k := Idle]), StateOf(w.workers, k), delay, dlqId)
  }

  function Empty(now: int): World {
    World(now, map[], map[], map[], multiset{}, multiset{}, multiset{}, multiset{}, multiset{}, map[])
  }

  ghost predicate IsRun(policy: Policy, ws: seq<World>, acts: seq<Action>) {
    && policy.maxAttempts > 0
    && |ws| == |acts| + 1 && ws[0] == Empty(ws[0].now)
    && forall i :: 0 <= i < |acts| ==> Enabled(ws[i], acts[i]) && ws[i + 1] == Next(policy, ws[i], acts[i])
  }

  /** The ticket an action pushes, if any: a client's, or a dead letter. */
  predicate Pushes(policy: Policy, w: World, a: Action, t: Ticket) {
    || (a.Push? && a.ticket == t)
    || (a.Settle? && StateOf(w.workers, a.worker).Failed?
        && Alive(StateOf(w.workers, a.worker).deadline, w.now)
        && UsedUp(policy, StateOf(w.workers, a.worker).job)
        && t == DeadLetter(policy, StateOf(w.workers, a.worker), a.dlqId))
  }

  /** The action pushes no ticket for the second time. */
  ghost predicate PushesFresh(policy: Policy, w: World, a: Action) {
    forall t :: Pushes(policy, w, a, t) ==> t !in w.pushed
  }

  /** No two pushes of the run agree in id, queue and payload. */
  ghost predicate DistinctTickets(policy: Policy, ws: seq<World>, acts: seq<Action>)
    requires |ws| == |acts| + 1
  {
    forall i :: 0 <= i < |acts| ==> PushesFresh(policy, ws[i], acts[i])
  }

  // ----- where a job is -------------------------------------------------------

  /** A position at which a job can be found; ends are numbered. */
  datatype Place =
    | InList(queue: Name, index: nat)
    | InSortedSet(queue: Name, job: Job)
    | InHands(worker: WorkerId)
    | IsDone(number: nat)
    | IsDead(number: nat)

  ghost predicate At(w: World, t: Ticket, p: Place) {
    match p
    case InList(q, i) => i < |ListOf(w.lists, q)| && ListOf(w.lists, q)[i].ticket == t
    case InSortedSet(q, job) => job in SetOf(w.sets, q) && job.ticket == t
    case InHands(k) => Holding(StateOf(w.workers, k)) && StateOf(w.workers, k).job.ticket == t
    case IsDone(n) => n < w.done[t]
    case IsDead(n) => n < w.dead[t]
  }

  /** What the invariant keeps on file for every job: where it is, and the
      record as it is stored there. */
  datatype Location =
    | Listed | Delayed | Held(worker: WorkerId) | Failing(worker: WorkerId) | Done | Dead | Lost
  datatype Card = Card(at: Location, job: Job)
  type File = map<Ticket, Card>

  ghost predicate TicketsFit(file: File) {
    forall t :: t in file ==> file[t].job.ticket == t
  }

  ghost predicate ListedOnFile(lists: Lists, file: File) {
    forall q, i :: 0 <= i < |ListOf(lists, q)| ==>
      var job := ListOf(lists, q)[i];
      job.ticket in file && file[job.ticket] == Card(Listed, job) && job.ticket.queue == q
  }

  ghost predicate ListedOnce(lists: Lists) {
    forall q, i, j :: 0 <= i < j < |ListOf(lists, q)| ==> ListOf(lists, q)[i].ticket != ListOf(lists, q)[j].ticket
  }

  ghost predicate FiledAreListed(lists: Lists, file: File) {
    forall t :: t in file && file[t].at.Listed? ==> file[t].job in ListOf(lists, t.queue)
  }

  ghost predicate ListsFit(lists: Lists, file: File) {
    ListedOnFile(lists, file) && ListedOnce(lists) && FiledAreListed(lists, file)
  }

  ghost predicate SetsFit(sets: SortedSets, file: File) {
    && (forall q, job :: job in SetOf(sets, q) ==>
          job.ticket in file && file[job.ticket] == Card(Delayed, job) && job.ticket.queue == q)
    && (forall t :: t in file && file[t].at.Delayed? ==> file[t].job in SetOf(sets, t.queue))
  }

  predicate Holding(worker: Worker) {
    worker.Got? || worker.Failed?
  }

  predicate InSomeHands(card: Card) {
    card.at.Held? || card.at.Failing?
  }

  /** Worker k holds the job of this card, and says so in the same way. */
  predicate Matches(k: WorkerId, worker: Worker, card: Card) {
    && Holding(worker) && card.at == (if worker.Got? then Held(k) else Failing(k))
    && worker.job == card.job && worker.queue == card.job.ticket.queue
  }

  ghost predicate HandsFit(workers: Workers, file: File) {
    && (forall k :: Holding(StateOf(workers, k)) ==>
          var t := StateOf(workers, k).job.ticket;
          t in file && Matches(k, StateOf(workers, k), file[t]))
    && (forall t :: t in file && InSomeHands(file[t]) ==>
          Matches(file[t].at.worker, StateOf(workers, file[t].at.worker), file[t]))
  }

  /** A peeked member is no younger than the record on file and, if it is still
      in the sorted set, was due at the peek. */
  ghost predicate PeeksFit(now: int, sets: SortedSets, workers: Workers, file: File) {
    forall k :: StateOf(workers, k).Peeked? ==>
      var p := StateOf(workers, k);
      && p.at <= now && p.job.ticket in file && p.job.attempts <= file[p.job.ticket].job.attempts
      && (p.job in SetOf(sets, p.queue) ==> SetOf(sets, p.queue)[p.job] <= p.at)
  }

  /** The tickets that came to this end, each once. */
  ghost predicate Tallies(ended: multiset<Ticket>, end: Location, file: File) {
    forall t :: ended[t] == if t in file && file[t].at == end then 1 else 0
  }

  ghost predicate EndsFit(done: multiset<Ticket>, dead: multiset<Ticket>, lost: multiset<Ticket>, file: File) {
    Tallies(done, Done, file) && Tallies(dead, Dead, file) && Tallies(lost, Lost, file)
  }

  /** Handler runs of a job whose record carries a number of attempts. */
  predicate RunsFit(policy: Policy, card: Card, runs: nat) {
    match card.at
    case Listed => runs == card.job.attempts < policy.maxAttempts
    case Delayed => runs == card.job.attempts < policy.maxAttempts
    case Held(_) => runs == card.job.attempts < policy.maxAttempts
    case Failing(_) => runs == card.job.attempts + 1 <= policy.maxAttempts
    case Done => runs == card.job.attempts + 1 <= policy.maxAttempts
    case Dead => runs == card.job.attempts + 1 == policy.maxAttempts
    case Lost => runs == card.job.attempts + 1 <= policy.maxAttempts
  }

  ghost predicate RecordsFit(policy: Policy, pushed: multiset<Ticket>, runs: multiset<Ticket>, file: File) {
    && (forall t :: pushed[t] == if t in file then 1 else 0)
    && (forall t :: t in file ==> file[t].job.ticket == t && RunsFit(policy, file[t], runs[t]))
    && (forall t :: t !in file ==> runs[t] == 0)
  }

  predicate IsLetterOf(policy: Policy, letter: Ticket, t: Ticket) {
    letter != t && letter.queue == Name(t.queue.text + policy.dlqSuffix) && letter.payload == t.payload
  }

  ghost predicate LettersFit(policy: Policy, letters: map<Ticket, Ticket>, file: File) {
    && (forall t :: t in letters <==> t in file && file[t].at.Dead?)
    && (forall t :: t in letters ==> letters[t] in file && IsLetterOf(policy, letters[t], t))
  }

  ghost predicate Inv(policy: Policy, w: World, file: File) {
    && ListsFit(w.lists, file) && SetsFit(w.sets, file) && HandsFit(w.workers, file)
    && PeeksFit(w.now, w.sets, w.workers, file) && EndsFit(w.done, w.dead, w.lost, file)
    && RecordsFit(policy, w.pushed, w.runs, file) && LettersFit(policy, w.letters, file)
  }

  // ----- lists ------------------------------------------------------------------

  lemma RPushedList(lists: Lists, job: Job)
    ensures ListOf(RPush(lists, job), job.ticket.queue) == ListOf(lists, job.ticket.queue) + [job]
    ensures forall q :: q != job.ticket.queue ==> ListOf(RPush(lists, job), q) == ListOf(lists, q)
  {
  }

  lemma RPushKeepsLists(lists: Lists, file: File, job: Job)
    requires ListsFit(lists, file) && TicketsFit(file)
    requires job.ticket in file ==> !file[job.ticket].at.Listed?
    ensures ListsFit(RPush(lists, job), file[job.ticket := Card(Listed, job)])
  {
    RPushedList(lists, job);
  }

  lemma LPoppedList(lists: Lists, q: Name)
    requires ListOf(lists, q) != []
    ensures ListOf(LPop(lists, q), q) == ListOf(lists, q)[1..]
    ensures forall p :: p != q ==> ListOf(LPop(lists, q), p) == ListOf(lists, p)
  {
  }

  lemma LPopKeepsListed(lists: Lists, file: File, q: Name, card: Card)
    requires ListsFit(lists, file) && ListOf(lists, q) != []
    ensures ListedOnFile(LPop(lists, q), file[ListOf(lists, q)[0].ticket := card])
    ensures ListedOnce(LPop(lists, q))
  {
    LPoppedList(lists, q);
    var first := ListOf(lists, q)[0];
    forall p, i | 0 <= i < |ListOf(LPop(lists, q), p)|
      ensures var job := ListOf(LPop(lists, q), p)[i];
              && job.ticket in file && job.ticket != first.ticket
              && file[job.ticket] == Card(Listed, job) && job.ticket.queue == p
    {
      if p == q {
        assert ListOf(LPop(lists, q), p)[i] == ListOf(lists, q)[i + 1];
      }
    }
  }

  lemma LPopKeepsFiled(lists: Lists, file: File, q: Name, card: Card)
    requires TicketsFit(file) && FiledAreListed(lists, file) && ListOf(lists, q) != [] && !card.at.Listed?
    ensures FiledAreListed(LPop(lists, q), file[ListOf(lists, q)[0].ticket := card])
  {
  }

  lemma OtherCardKeepsLists(lists: Lists, file: File, t: Ticket, card: Card)
    requires ListsFit(lists, file) && (t in file ==> !file[t].at.Listed?) && !card.at.Listed?
    ensures ListsFit(lists, file[t := card])
  {
  }

  // ----- sorted sets --------------------------------------------------------------

  lemma ZAddKeepsSets(sets: SortedSets, file: File, job: Job, score: int)
    requires SetsFit(sets, file) && TicketsFit(file)
    requires job.ticket in file ==> !file[job.ticket].at.Delayed?
    ensures SetsFit(ZAdd(sets, job, score), file[job.ticket := Card(Delayed, job)])
  {
    var sets' := ZAdd(sets, job, score);
    assert forall q :: q != job.ticket.queue ==> SetOf(sets', q) == SetOf(sets, q);
  }

  lemma ZRemKeepsSets(sets: SortedSets, file: File, q: Name, job: Job, card: Card)
    requires TicketsFit(file) && SetsFit(sets, file) && job in SetOf(sets, q) && !card.at.Delayed?
    ensures SetsFit(ZRem(sets, q, job), file[job.ticket := card])
  {
    var sets' := ZRem(sets, q, job);
    assert forall p :: p != q ==> SetOf(sets', p) == SetOf(sets, p);
  }

  lemma OtherCardKeepsSets(sets: SortedSets, file: File, t: Ticket, card: Card)
    requires SetsFit(sets, file) && (t in file ==> !file[t].at.Delayed?) && !card.at.Delayed?
    ensures SetsFit(sets, file[t := card])
  {
  }

  // ----- workers ------------------------------------------------------------------

  lemma HandsChange(workers: Workers, file: File, k: WorkerId, worker: Worker, t: Ticket, card: Card)
    requires TicketsFit(file) && HandsFit(workers, file)
    requires card.job.ticket == t
    requires Holding(StateOf(workers, k)) ==> StateOf(workers, k).job.ticket == t
    requires t in file && InSomeHands(file[t]) ==> file[t].at.worker == k
    requires Holding(worker) || InSomeHands(card) ==> Matches(k, worker, card)
    ensures HandsFit(workers[k := worker], file[t := card])
  {
    var workers' := workers[k := worker];
    assert forall j :: j != k ==> StateOf(workers', j) == StateOf(workers, j);
  }

  lemma CardKeepsHands(workers: Workers, file: File, t: Ticket, card: Card)
    requires HandsFit(workers, file)
    requires t in file ==> !InSomeHands(file[t])
    requires !InSomeHands(card)
    ensures HandsFit(workers, file[t := card])
  {
  }

  // ----- peeks --------------------------------------------------------------------

  /** The second sorted sets hold no member that the first did not hold. */
  ghost predicate NothingAdded(sets: SortedSets, sets': SortedSets) {
    forall q, job :: job in SetOf(sets', q) ==>
      job in SetOf(sets, q) && SetOf(sets', q)[job] == SetOf(sets, q)[job]
  }

  /** Peeks stay right when one worker stops peeking, members leave the sorted
      sets and a record does not get younger. */
  lemma PeeksFrame(now: int, sets: SortedSets, sets': SortedSets, workers: Workers, file: File,
                   k: WorkerId, worker: Worker, t: Ticket, card: Card)
    requires PeeksFit(now, sets, workers, file) && !worker.Peeked? && NothingAdded(sets, sets')
    requires t in file ==> file[t].job.attempts <= card.job.attempts
    ensures PeeksFit(now, sets', workers[k := worker], file[t := card])
  {
    var workers' := workers[k := worker];
    assert forall j :: j != k ==> StateOf(workers', j) == StateOf(workers, j);
  }

  lemma PeeksKeepWithNewJob(now: int, sets: SortedSets, workers: Workers, file: File, t: Ticket, card: Card)
    requires PeeksFit(now, sets, workers, file) && t !in file
    ensures PeeksFit(now, sets, workers, file[t := card])
  {
  }

  lemma ZRemShrinks(sets: SortedSets, q: Name, job: Job)
    ensures NothingAdded(sets, ZRem(sets, q, job))
  {
  }

  /** A job released again is not the member that somebody peeked before: its
      attempts have grown. */
  lemma ReleaseKeepsPeeks(now: int, sets: SortedSets, workers: Workers, file: File,
                          k: WorkerId, job: Job, score: int, card: Card)
    requires PeeksFit(now, sets, workers, file)
    requires job.ticket in file && file[job.ticket].job.attempts < job.attempts && card.job == job
    ensures PeeksFit(now, ZAdd(sets, job, score), workers[k := Idle], file[job.ticket := card])
  {
    var workers' := workers[k := Idle];
    assert forall j :: j != k ==> StateOf(workers', j) == StateOf(workers, j);
  }

  // ----- records ------------------------------------------------------------------

  lemma NewRecord(policy: Policy, pushed: multiset<Ticket>, runs: multiset<Ticket>, file: File, t: Ticket)
    requires RecordsFit(policy, pushed, runs, file) && t !in file && policy.maxAttempts > 0
    ensures RecordsFit(policy, pushed + multiset{t}, runs, file[t := Card(Listed, Job(t, 0))])
  {
  }

  lemma RecordMoves(policy: Policy, pushed: multiset<Ticket>, runs: multiset<Ticket>, runs': multiset<Ticket>,
                    file: File, t: Ticket, card: Card)
    requires RecordsFit(policy, pushed, runs, file) && t in file
    requires card.job.ticket == t && RunsFit(policy, card, runs'[t])
    requires forall u :: u != t ==> runs'[u] == runs[u]
    ensures RecordsFit(policy, pushed, runs', file[t := card])
  {
  }

  predicate Ended(at: Location) {
    at.Done? || at.Dead? || at.Lost?
  }

  lemma EndsMove(done: multiset<Ticket>, dead: multiset<Ticket>, lost: multiset<Ticket>,
                 file: File, t: Ticket, card: Card)
    requires EndsFit(done, dead, lost, file) && (t in file ==> !Ended(file[t].at))
    ensures !Ended(card.at) ==> EndsFit(done, dead, lost, file[t := card])
    ensures card.at.Done? ==> EndsFit(done + multiset{t}, dead, lost, file[t := card])
    ensures card.at.Dead? ==> EndsFit(done, dead + multiset{t}, lost, file[t := card])
    ensures card.at.Lost? ==> EndsFit(done, dead, lost + multiset{t}, file[t := card])
  {
  }

  lemma LettersStay(policy: Policy, letters: map<Ticket, Ticket>, file: File, t: Ticket, card: Card)
    requires LettersFit(policy, letters, file) && (t in file ==> !file[t].at.Dead?) && !card.at.Dead?
    ensures LettersFit(policy, letters, file[t := card])
  {
  }

  // ----- steps --------------------------------------------------------------------

  /** What the file says about the job in the hands of a worker. */
  lemma HandOnFile(policy: Policy, w: World, file: File, k: WorkerId)
    requires Inv(policy, w, file) && Holding(StateOf(w.workers, k))
    ensures var wk := StateOf(w.workers, k);
            && wk.job.ticket in file && wk.job.ticket in w.pushed && wk.job.ticket.queue == wk.queue
            && Matches(k, wk, file[wk.job.ticket]) && RunsFit(policy, file[wk.job.ticket], w.runs[wk.job.ticket])
  {
  }

  lemma TicketsOnFile(policy: Policy, w: World, file: File)
    requires Inv(policy, w, file)
    ensures TicketsFit(file)
    ensures forall t :: t in file <==> t in w.pushed
  {
  }

  lemma PushKeeps(policy: Policy, w: World, file: File, t: Ticket) returns (file': File)
    requires policy.maxAttempts > 0 && Inv(policy, w, file) && t !in w.pushed
    ensures Inv(policy, AfterPush(w, t), file')
  {
    hide ListsFit, SetsFit, HandsFit, PeeksFit, EndsFit, RecordsFit, LettersFit;
    TicketsOnFile(policy, w, file);
    var card := Card(Listed, Job(t, 0));
    file' := file[t := card];
    RPushKeepsLists(w.lists, file, card.job);
    OtherCardKeepsSets(w.sets, file, t, card);
    CardKeepsHands(w.workers, file, t, card);
    PeeksKeepWithNewJob(w.now, w.sets, w.workers, file, t, card);
    EndsMove(w.done, w.dead, w.lost, file, t, card);
    NewRecord(policy, w.pushed, w.runs, file, t);
    LettersStay(policy, w.letters, file, t, card);
  }

  lemma PeekKeeps(policy: Policy, w: World, file: File, a: Action)
    requires Inv(policy, w, file) && a.Peek? && Enabled(w, a)
    ensures Inv(policy, Next(policy, w, a), file)
  {
    hide ListsFit, RecordsFit, LettersFit, EndsFit;
    var workers' := w.workers[a.worker := Peeked(a.queue, a.job, w.now, a.deadline)];
    assert forall j :: j != a.worker ==> StateOf(workers', j) == StateOf(w.workers, j);
    assert StateOf(w.workers, a.worker).Idle?;
  }

  /** A job that waits, wherever it does, gets into the hands of a worker. */
  lemma TakeKeeps(policy: Policy, w: World, file: File, k: WorkerId, job: Job, deadline: Deadline,
                  lists': Lists, sets': SortedSets)
    requires Inv(policy, w, file) && !Holding(StateOf(w.workers, k)) && NothingAdded(w.sets, sets')
    requires job.ticket in file && (file[job.ticket] == Card(Listed, job) || file[job.ticket] == Card(Delayed, job))
    requires ListsFit(lists', file[job.ticket := Card(Held(k), job)])
    requires SetsFit(sets', file[job.ticket := Card(Held(k), job)])
    ensures var worker := Got(job.ticket.queue, job, deadline);
            Inv(policy, w.(lists := lists', sets := sets', workers := w.workers[k := worker]),
                file[job.ticket := Card(Held(k), job)])
  {
    hide ListsFit, SetsFit, HandsFit, PeeksFit, EndsFit, LettersFit, NothingAdded;
    var t, card, worker := job.ticket, Card(Held(k), job), Got(job.ticket.queue, job, deadline);
    assert RunsFit(policy, card, w.runs[t]);
    hide RecordsFit;
    TicketsOnFile(policy, w, file);
    HandsChange(w.workers, file, k, worker, t, card);
    PeeksFrame(w.now, w.sets, sets', w.workers, file, k, worker, t, card);
    EndsMove(w.done, w.dead, w.lost, file, t, card);
    RecordMoves(policy, w.pushed, w.runs, w.runs, file, t, card);
    LettersStay(policy, w.letters, file, t, card);
  }

  /** ZREM of a stale peek answers zero, a late one is not sent; neither changes anything. */
  lemma StalePeekKeeps(policy: Policy, w: World, file: File, k: WorkerId)
    requires Inv(policy, w, file) && StateOf(w.workers, k).Peeked?
    ensures Inv(policy, w.(workers := w.workers[k := Idle]), file)
  {
    hide ListsFit, SetsFit, EndsFit, RecordsFit, LettersFit;
    var workers' := w.workers[k := Idle];
    assert forall j :: j != k ==> StateOf(workers', j) == StateOf(w.workers, j);
  }

  lemma DelayedOnFile(policy: Policy, w: World, file: File, q: Name, job: Job)
    requires Inv(policy, w, file) && job in SetOf(w.sets, q)
    ensures job.ticket in file && file[job.ticket] == Card(Delayed, job) && job.ticket.queue == q
  {
  }

  lemma RemoveKeeps(policy: Policy, w: World, file: File, a: Action) returns (file': File)
    requires Inv(policy, w, file) && a.Remove? && Enabled(w, a)
    ensures Inv(policy, Next(policy, w, a), file')
  {
    hide ListsFit, SetsFit, HandsFit, PeeksFit, EndsFit, RecordsFit, LettersFit, NothingAdded;
    var k, p := a.worker, StateOf(w.workers, a.worker);
    if Alive(p.deadline, w.now) && p.job in SetOf(w.sets, p.queue) {
      var card := Card(Held(k), p.job);
      TicketsOnFile(policy, w, file);
      DelayedOnFile(policy, w, file, p.queue, p.job);
      OtherCardKeepsLists(w.lists, file, p.job.ticket, card);
      ZRemKeepsSets(w.sets, file, p.queue, p.job, card);
      ZRemShrinks(w.sets, p.queue, p.job);
      TakeKeeps(policy, w, file, k, p.job, p.deadline, w.lists, ZRem(w.sets, p.queue, p.job));
      file' := file[p.job.ticket := card];
    } else {
      StalePeekKeeps(policy, w, file, k);
      file' := file;
    }
  }

  lemma BlockPopKeeps(policy: Policy, w: World, file: File, a: Action) returns (file': File)
    requires Inv(policy, w, file) && a.BlockPop? && Enabled(w, a)
    ensures Inv(policy, Next(policy, w, a), file')
  {
    hide SetsFit, HandsFit, PeeksFit, EndsFit, RecordsFit, LettersFit, ListedOnce, FiledAreListed;
    var job := ListOf(w.lists, a.queue)[0];
    var card := Card(Held(a.worker), job);
    assert file[job.ticket] == Card(Listed, job) && job.ticket.queue == a.queue;
    TicketsOnFile(policy, w, file);
    LPopKeepsListed(w.lists, file, a.queue, card);
    LPopKeepsFiled(w.lists, file, a.queue, card);
    OtherCardKeepsSets(w.sets, file, job.ticket, card);
    TakeKeeps(policy, w, file, a.worker, job, a.deadline, LPop(w.lists, a.queue), w.sets);
    file' := file[job.ticket := card];
  }

  /** A job leaves the hands of a worker, or stays there as a failed one, and does
      not wait anywhere: it is done, failing or lost. */
  lemma HandMoves(policy: Policy, w: World, file: File, k: WorkerId, worker: Worker, card: Card,
                  runs': multiset<Ticket>)
    requires Inv(policy, w, file) && Holding(StateOf(w.workers, k)) && StateOf(w.workers, k).job == card.job
    requires card.at == Failing(k) || card.at.Done? || card.at.Lost?
    requires if card.at == Failing(k) then Matches(k, worker, card) else worker == Idle
    requires RunsFit(policy, card, runs'[card.job.ticket])
    requires forall u :: u != card.job.ticket ==> runs'[u] == w.runs[u]
    ensures var one := multiset{card.job.ticket};
            Inv(policy, w.(workers := w.workers[k := worker], runs := runs',
                           done := if card.at.Done? then w.done + one else w.done,
                           lost := if card.at.Lost? then w.lost + one else w.lost),
                file[card.job.ticket := card])
  {
    hide ListsFit, SetsFit, HandsFit, PeeksFit, EndsFit, RecordsFit, LettersFit, RunsFit;
    var t := card.job.ticket;
    HandOnFile(policy, w, file, k);
    TicketsOnFile(policy, w, file);
    OtherCardKeepsLists(w.lists, file, t, card);
    OtherCardKeepsSets(w.sets, file, t, card);
    HandsChange(w.workers, file, k, worker, t, card);
    PeeksFrame(w.now, w.sets, w.sets, w.workers, file, k, worker, t, card);
    EndsMove(w.done, w.dead, w.lost, file, t, card);
    RecordMoves(policy, w.pushed, w.runs, runs', file, t, card);
    LettersStay(policy, w.letters, file, t, card);
  }

  lemma HandleKeeps(policy: Policy, w: World, file: File, a: Action) returns (file': File)
    requires Inv(policy, w, file) && a.Handle? && Enabled(w, a)
    ensures Inv(policy, Next(policy, w, a), file')
  {
    hide Inv;
    var g := StateOf(w.workers, a.worker);
    var card := Card(if a.ok then Done else Failing(a.worker), g.job);
    HandOnFile(policy, w, file, a.worker);
    HandMoves(policy, w, file, a.worker, if a.ok then Idle else Failed(g.queue, g.job, g.deadline), card,
              w.runs + multiset{g.job.ticket});
    file' := file[g.job.ticket := card];
  }

  /** A settlement after the deadline reaches nobody. */
  lemma LoseKeeps(policy: Policy, w: World, file: File, a: Action) returns (file': File)
    requires Inv(policy, w, file) && a.Settle? && Enabled(w, a)
    requires !Alive(StateOf(w.workers, a.worker).deadline, w.now)
    ensures Inv(policy, Next(policy, w, a), file')
  {
    hide Inv;
    var f := StateOf(w.workers, a.worker);
    HandOnFile(policy, w, file, a.worker);
    HandMoves(policy, w, file, a.worker, Idle, Card(Lost, f.job), w.runs);
    file' := file[f.job.ticket := Card(Lost, f.job)];
  }

  lemma ReleaseKeeps(policy: Policy, w: World, file: File, a: Action) returns (file': File)
    requires Inv(policy, w, file) && a.Settle? && Enabled(w, a)
    requires Alive(StateOf(w.workers, a.worker).deadline, w.now) && !UsedUp(policy, StateOf(w.workers, a.worker).job)
    ensures Inv(policy, Next(policy, w, a), file')
  {
    hide ListsFit, SetsFit, HandsFit, PeeksFit, EndsFit, RecordsFit, LettersFit;
    var f := StateOf(w.workers, a.worker);
    var job, t := Retried(f.job), f.job.ticket;
    var card := Card(if a.delay <= 0 then Listed else Delayed, job);
    HandOnFile(policy, w, file, a.worker);
    TicketsOnFile(policy, w, file);
    HandsChange(w.workers, file, a.worker, Idle, t, card);
    EndsMove(w.done, w.dead, w.lost, file, t, card);
    RecordMoves(policy, w.pushed, w.runs, w.runs, file, t, card);
    LettersStay(policy, w.letters, file, t, card);
    file' := file[t := card];
    if a.delay <= 0 {
      RPushKeepsLists(w.lists, file, job);
      OtherCardKeepsSets(w.sets, file, t, card);
      PeeksFrame(w.now, w.sets, w.sets, w.workers, file, a.worker, Idle, t, card);
    } else {
      OtherCardKeepsLists(w.lists, file, t, card);
      ZAddKeepsSets(w.sets, file, job, w.now + a.delay);
      ReleaseKeepsPeeks(w.now, w.sets, w.workers, file, a.worker, job, w.now + a.delay, card);
    }
  }

  lemma BuryKeeps(policy: Policy, w: World, file: File, a: Action) returns (file': File)
    requires Inv(policy, w, file) && a.Settle? && Enabled(w, a) && policy.maxAttempts > 0
    requires Alive(StateOf(w.workers, a.worker).deadline, w.now) && UsedUp(policy, StateOf(w.workers, a.worker).job)
    requires DeadLetter(policy, StateOf(w.workers, a.worker), a.dlqId) !in w.pushed
    ensures Inv(policy, Next(policy, w, a), file')
  {
    hide ListsFit, SetsFit, HandsFit, PeeksFit, EndsFit, RecordsFit, LettersFit;
    var k, f := a.worker, StateOf(w.workers, a.worker);
    var t, letter := f.job.ticket, DeadLetter(policy, f, a.dlqId);
    HandOnFile(policy, w, file, k);
    TicketsOnFile(policy, w, file);
    var dead := Card(Dead, f.job);
    var mid := file[t := dead];
    var workers' := w.workers[k := Idle];
    OtherCardKeepsLists(w.lists, file, t, dead);
    OtherCardKeepsSets(w.sets, file, t, dead);
    HandsChange(w.workers, file, k, Idle, t, dead);
    PeeksFrame(w.now, w.sets, w.sets, w.workers, file, k, Idle, t, dead);
    EndsMove(w.done, w.dead, w.lost, file, t, dead);
    RecordMoves(policy, w.pushed, w.runs, w.runs, file, t, dead);

    var dlq := Card(Listed, Job(letter, 0));
    file' := mid[letter := dlq];
    TicketStays(file, t, dead);
    RPushKeepsLists(w.lists, mid, dlq.job);
    OtherCardKeepsSets(w.sets, mid, letter, dlq);
    CardKeepsHands(workers', mid, letter, dlq);
    PeeksKeepWithNewJob(w.now, w.sets, workers', mid, letter, dlq);
    EndsMove(w.done, w.dead + multiset{t}, w.lost, mid, letter, dlq);
    NewRecord(policy, w.pushed, w.runs, mid, letter);
    BuriedFits(policy, w.letters, file, t, letter, dead, dlq);
  }

  lemma TicketStays(file: File, t: Ticket, card: Card)
    requires TicketsFit(file) && card.job.ticket == t
    ensures TicketsFit(file[t := card])
  {
  }

  lemma BuriedFits(policy: Policy, letters: map<Ticket, Ticket>, file: File, t: Ticket, letter: Ticket,
                   dead: Card, dlq: Card)
    requires LettersFit(policy, letters, file) && t in file && letter !in file && IsLetterOf(policy, letter, t)
    requires dead.at.Dead? && !dlq.at.Dead?
    ensures LettersFit(policy, letters[t := letter], file[t := dead][letter := dlq])
  {
  }

  /** Every action that pushes no ticket twice keeps the file right. */
  lemma StepKeeps(policy: Policy, w: World, file: File, a: Action) returns (file': File)
    requires policy.maxAttempts > 0 && Inv(policy, w, file) && Enabled(w, a) && PushesFresh(policy, w, a)
    ensures Inv(policy, Next(policy, w, a), file')
  {
    hide ListsFit, SetsFit, HandsFit, EndsFit, RecordsFit, LettersFit;
    file' := file;
    match a
    case Advance(_) =>
    case Push(t) =>
      assert Pushes(policy, w, a, t);
      file' := PushKeeps(policy, w, file, t);
    case Peek(_, _, _, _) => PeekKeeps(policy, w, file, a);
    case Remove(_) => file' := RemoveKeeps(policy, w, file, a);
    case BlockPop(_, _, _) => file' := BlockPopKeeps(policy, w, file, a);
    case Handle(_, _) => file' := HandleKeeps(policy, w, file, a);
    case Settle(k, _, _) =>
      var f := StateOf(w.workers, k);
      if !Alive(f.deadline, w.now) {
        file' := LoseKeeps(policy, w, file, a);
      } else if UsedUp(policy, f.job) {
        assert Pushes(policy, w, a, DeadLetter(policy, f, a.dlqId));
        file' := BuryKeeps(policy, w, file, a);
      } else {
        file' := ReleaseKeeps(policy, w, file, a);
      }
  }

  lemma {:induction false} RunKeeps(policy: Policy, ws: seq<World>, acts: seq<Action>, i: nat) returns (file: File)
    requires IsRun(policy, ws, acts) && DistinctTickets(policy, ws, acts) && i <= |acts|
    ensures Inv(policy, ws[i], file)
  {
    if i == 0 {
      file := map[];
    } else {
      var before := RunKeeps(policy, ws, acts, i - 1);
      hide Inv, PushesFresh, Next, Enabled;
      file := StepKeeps(policy, ws[i - 1], before, acts[i - 1]);
    }
  }

  // ----- theorems -------------------------------------------------------------------

  /** The action settles the job too late: its cycle's context has expired. */
  predicate SettlesLate(w: World, a: Action, t: Ticket) {
    && a.Settle? && StateOf(w.workers, a.worker).Failed?
    && StateOf(w.workers, a.worker).job.ticket == t
    && StateOf(w.workers, a.worker).deadline.By? && StateOf(w.workers, a.worker).deadline.time <= w.now
  }

  ghost predicate WasSettledLate(ws: seq<World>, acts: seq<Action>, i: nat, t: Ticket)
    requires |ws| == |acts| + 1 && i <= |acts|
  {
    exists k :: 0 <= k < i && SettlesLate(ws[k], acts[k], t)
  }

  /** On every run, with any tickets, exactly the late settlements lose jobs. */
  lemma {:induction false} LostByLateSettlement(policy: Policy, ws: seq<World>, acts: seq<Action>, i: nat, t: Ticket)
    requires IsRun(policy, ws, acts) && i <= |acts|
    ensures ws[i].lost[t] > 0 <==> WasSettledLate(ws, acts, i, t)
  {
    if i > 0 {
      LostByLateSettlement(policy, ws, acts, i - 1, t);
      LostInOneStep(policy, ws[i - 1], acts[i - 1], t);
      hide Next, Enabled, SettlesLate;
      if k :| 0 <= k < i && SettlesLate(ws[k], acts[k], t) && k < i - 1 {
        assert WasSettledLate(ws, acts, i - 1, t);
      }
    }
  }

  lemma LostInOneStep(policy: Policy, w: World, a: Action, t: Ticket)
    requires Enabled(w, a)
    ensures Next(policy, w, a).lost[t] == w.lost[t] + if SettlesLate(w, a, t) then 1 else 0
  {
  }

  /** Nothing is duplicated or invented, and nothing is lost but by a late
      settlement: in every state of every run on distinct tickets, a job that was
      pushed is at exactly one place unless it was settled after the deadline of
      its cycle, and then at none; a job that was not pushed is nowhere. */
  lemma Conservation(policy: Policy, ws: seq<World>, acts: seq<Action>, i: nat, t: Ticket)
    requires IsRun(policy, ws, acts) && DistinctTickets(policy, ws, acts) && i <= |acts|
    ensures t in ws[i].pushed ==> ((exists p :: At(ws[i], t, p)) <==> !WasSettledLate(ws, acts, i, t))
    ensures forall p :: At(ws[i], t, p) ==> t in ws[i].pushed
    ensures forall p, p' :: At(ws[i], t, p) && At(ws[i], t, p') ==> p == p'
  {
    var file := RunKeeps(policy, ws, acts, i);
    LostByLateSettlement(policy, ws, acts, i, t);
    LostOnFile(policy, ws[i], file, t);
    forall p | At(ws[i], t, p)
      ensures t in ws[i].pushed && Where(file, t, p)
    {
      PlaceOnFile(policy, ws[i], file, t, p);
    }
    forall p, p' | At(ws[i], t, p) && At(ws[i], t, p')
      ensures p == p'
    {
      PlaceIsUnique(policy, ws[i], file, t, p, p');
    }
    hide Inv, IsRun, At, WasSettledLate;
    if t in ws[i].pushed && ws[i].lost[t] == 0 {
      var p := PlaceOf(policy, ws[i], file, t);
      assert At(ws[i], t, p);
    }
  }

  /** Nothing is lost on a run with distinct tickets exactly when every failed
      job is settled before the deadline of its cycle, or its cycle has none. */
  lemma NothingIsLostIff(policy: Policy, ws: seq<World>, acts: seq<Action>, i: nat)
    requires IsRun(policy, ws, acts) && DistinctTickets(policy, ws, acts) && i <= |acts|
    ensures (forall t :: t in ws[i].pushed ==> exists p :: At(ws[i], t, p)) <==> AllSettledInTime(ws, acts, i)
  {
    hide At, DistinctTickets;
    forall t
      ensures t in ws[i].pushed ==> ((exists p :: At(ws[i], t, p)) <==> !WasSettledLate(ws, acts, i, t))
      ensures WasSettledLate(ws, acts, i, t) ==> t in ws[i].pushed
    {
      Conservation(policy, ws, acts, i, t);
      LostByLateSettlement(policy, ws, acts, i, t);
      LostWasPushed(policy, ws, acts, i, t);
    }
    forall k | 0 <= k < i && acts[k].Settle?
      ensures var t := StateOf(ws[k].workers, acts[k].worker).job.ticket;
              InTime(ws[k], acts[k]) <==> !SettlesLate(ws[k], acts[k], t)
    {
      assert Enabled(ws[k], acts[k]);
    }
    hide IsRun, InTime;
    if !AllSettledInTime(ws, acts, i) {
      var k :| 0 <= k < i && !InTime(ws[k], acts[k]) && acts[k].Settle?;
      assert WasSettledLate(ws, acts, i, StateOf(ws[k].workers, acts[k].worker).job.ticket);
    }
  }

  /** A settlement that is begun before the deadline, and any other action. */
  predicate InTime(w: World, a: Action) {
    a.Settle? && StateOf(w.workers, a.worker).Failed? && StateOf(w.workers, a.worker).deadline.By? ==>
      w.now < StateOf(w.workers, a.worker).deadline.time
  }

  ghost predicate AllSettledInTime(ws: seq<World>, acts: seq<Action>, i: nat)
    requires |ws| == |acts| + 1 && i <= |acts|
  {
    forall k :: 0 <= k < i && acts[k].Settle? ==> InTime(ws[k], acts[k])
  }

  lemma LostOnFile(policy: Policy, w: World, file: File, t: Ticket)
    requires Inv(policy, w, file)
    ensures w.lost[t] > 0 <==> t in file && file[t].at.Lost?
    ensures t in file <==> t in w.pushed
  {
  }

  lemma LostWasPushed(policy: Policy, ws: seq<World>, acts: seq<Action>, i: nat, t: Ticket)
    requires IsRun(policy, ws, acts) && DistinctTickets(policy, ws, acts) && i <= |acts|
    ensures ws[i].lost[t] > 0 ==> t in ws[i].pushed
  {
    var file := RunKeeps(policy, ws, acts, i);
    LostOnFile(policy, ws[i], file, t);
  }

  /** The file agrees with the place. */
  predicate Where(file: File, t: Ticket, p: Place) {
    && t in file
    && match p
       case InList(q, _) => file[t].at.Listed? && t.queue == q
       case InSortedSet(q, job) => file[t] == Card(Delayed, job) && t.queue == q
       case InHands(k) => InSomeHands(file[t]) && file[t].at.worker == k
       case IsDone(n) => file[t].at.Done? && n == 0
       case IsDead(n) => file[t].at.Dead? && n == 0
  }

  lemma ListPlaceOnFile(lists: Lists, file: File, q: Name, i: nat)
    requires ListsFit(lists, file) && i < |ListOf(lists, q)|
    ensures Where(file, ListOf(lists, q)[i].ticket, InList(q, i))
  {
  }

  lemma SetPlaceOnFile(sets: SortedSets, file: File, q: Name, job: Job)
    requires SetsFit(sets, file) && job in SetOf(sets, q)
    ensures Where(file, job.ticket, InSortedSet(q, job))
  {
  }

  lemma HandPlaceOnFile(workers: Workers, file: File, k: WorkerId)
    requires HandsFit(workers, file) && Holding(StateOf(workers, k))
    ensures Where(file, StateOf(workers, k).job.ticket, InHands(k))
  {
  }

  lemma PlaceOnFile(policy: Policy, w: World, file: File, t: Ticket, p: Place)
    requires Inv(policy, w, file) && At(w, t, p)
    ensures t in w.pushed && Where(file, t, p)
  {
    LostOnFile(policy, w, file, t);
    hide ListsFit, SetsFit, HandsFit, PeeksFit, LettersFit, RecordsFit;
    match p
    case InList(q, i) => ListPlaceOnFile(w.lists, file, q, i);
    case InSortedSet(q, job) => SetPlaceOnFile(w.sets, file, q, job);
    case InHands(k) => HandPlaceOnFile(w.workers, file, k);
    case _ =>
  }

  lemma PlaceIsUnique(policy: Policy, w: World, file: File, t: Ticket, p: Place, p': Place)
    requires Inv(policy, w, file) && At(w, t, p) && At(w, t, p')
    ensures p == p'
  {
    hide SetsFit, HandsFit, PeeksFit, EndsFit, RecordsFit, LettersFit;
    PlaceOnFile(policy, w, file, t, p);
    PlaceOnFile(policy, w, file, t, p');
  }

  lemma PlaceOf(policy: Policy, w: World, file: File, t: Ticket) returns (p: Place)
    requires Inv(policy, w, file) && t in w.pushed && w.lost[t] == 0
    ensures At(w, t, p)
  {
    hide PeeksFit, LettersFit, ListedOnFile, ListedOnce;
    match file[t].at
    case Listed =>
      assert file[t].job in ListOf(w.lists, t.queue);
      var i :| 0 <= i < |ListOf(w.lists, t.queue)| && ListOf(w.lists, t.queue)[i] == file[t].job;
      p := InList(t.queue, i);
    case Delayed => p := InSortedSet(t.queue, file[t].job);
    case Held(k) => p := InHands(k);
    case Failing(k) => p := InHands(k);
    case Done => p := IsDone(0);
    case Dead => p := IsDead(0);
    case Lost =>
  }

  /** No worker takes a delayed job before it is due: a peek that went stale
      while the job was taken, failed and released again removes nothing. */
  lemma DelayedJobsAreTakenWhenDue(policy: Policy, ws: seq<World>, acts: seq<Action>, i: nat)
    requires IsRun(policy, ws, acts) && DistinctTickets(policy, ws, acts) && i < |acts| && acts[i].Remove?
    ensures var p := StateOf(ws[i].workers, acts[i].worker);
            if Alive(p.deadline, ws[i].now) && p.job in SetOf(ws[i].sets, p.queue)
            then SetOf(ws[i].sets, p.queue)[p.job] <= ws[i].now
            else ws[i + 1].lists == ws[i].lists && ws[i + 1].sets == ws[i].sets
  {
    hide ListsFit, SetsFit, HandsFit, EndsFit, RecordsFit, LettersFit, DistinctTickets;
    var file := RunKeeps(policy, ws, acts, i);
  }

  /** The handler run number k of a job sees k - 1 attempts, and no job is run
      more than MaxAttempts times. */
  lemma HandlerSeesItsAttempts(policy: Policy, ws: seq<World>, acts: seq<Action>, i: nat)
    requires IsRun(policy, ws, acts) && DistinctTickets(policy, ws, acts) && i < |acts| && acts[i].Handle?
    ensures var job := StateOf(ws[i].workers, acts[i].worker).job;
            && job.attempts == ws[i].runs[job.ticket]
            && ws[i + 1].runs[job.ticket] == job.attempts + 1 <= policy.maxAttempts
  {
    hide ListsFit, SetsFit, HandsFit, PeeksFit, EndsFit, RecordsFit, LettersFit, DistinctTickets;
    var file := RunKeeps(policy, ws, acts, i);
    HandOnFile(policy, ws[i], file, acts[i].worker);
  }

  /** A dead job was run exactly MaxAttempts times, was never done, and its
      payload was pushed once more, as another job, on the dead-letter queue. */
  lemma DeadAfterAllAttempts(policy: Policy, ws: seq<World>, acts: seq<Action>, i: nat, t: Ticket)
    requires IsRun(policy, ws, acts) && DistinctTickets(policy, ws, acts) && i <= |acts| && t in ws[i].dead
    ensures var w := ws[i];
            && t in w.pushed && w.runs[t] == policy.maxAttempts && w.dead[t] == 1 && t !in w.done
            && t in w.letters && w.letters[t] in w.pushed && IsLetterOf(policy, w.letters[t], t)
  {
    hide ListsFit, SetsFit, HandsFit, PeeksFit, DistinctTickets;
    var file := RunKeeps(policy, ws, acts, i);
  }

  /** A failed job that is settled in time is dead-lettered exactly when it has
      used up its attempts, and otherwise waits again with one attempt more;
      one that is settled late is lost, whatever its attempts. */
  lemma SettlementDecidesByAttempts(policy: Policy, ws: seq<World>, acts: seq<Action>, i: nat)
    requires IsRun(policy, ws, acts) && DistinctTickets(policy, ws, acts) && i < |acts| && acts[i].Settle?
    ensures var job := StateOf(ws[i].workers, acts[i].worker).job;
            && (job.ticket in ws[i + 1].dead <==>
                  InTime(ws[i], acts[i]) && ws[i].runs[job.ticket] == policy.maxAttempts)
            && (InTime(ws[i], acts[i]) && ws[i].runs[job.ticket] < policy.maxAttempts ==>
                  || Retried(job) in ListOf(ws[i + 1].lists, job.ticket.queue)
                  || Retried(job) in SetOf(ws[i + 1].sets, job.ticket.queue))
            && (!InTime(ws[i], acts[i]) ==> Nowhere(ws[i + 1], job.ticket))
  {
    var w, a := ws[i], acts[i];
    var t := StateOf(w.workers, a.worker).job.ticket;
    var file := RunKeeps(policy, ws, acts, i);
    HandOnFile(policy, w, file, a.worker);
    NotYetDead(policy, w, file, a.worker);
    if !InTime(w, a) {
      assert SettlesLate(w, a, t) && WasSettledLate(ws, acts, i + 1, t);
      Conservation(policy, ws, acts, i + 1, t);
    }
    hide At, WasSettledLate, DistinctTickets, Inv;
    SettlementInTime(policy, w, a);
  }

  ghost predicate Nowhere(w: World, t: Ticket) {
    forall p :: !At(w, t, p)
  }

  lemma NotYetDead(policy: Policy, w: World, file: File, k: WorkerId)
    requires Inv(policy, w, file) && Holding(StateOf(w.workers, k))
    ensures StateOf(w.workers, k).job.ticket !in w.dead
  {
  }

  lemma SettlementInTime(policy: Policy, w: World, a: Action)
    requires Enabled(w, a) && a.Settle? && StateOf(w.workers, a.worker).job.ticket !in w.dead
    ensures var job, w' := StateOf(w.workers, a.worker).job, Next(policy, w, a);
            && (job.ticket in w'.dead <==> InTime(w, a) && UsedUp(policy, job))
            && (InTime(w, a) && !UsedUp(policy, job) ==>
                  || Retried(job) in ListOf(w'.lists, job.ticket.queue)
                  || Retried(job) in SetOf(w'.sets, job.ticket.queue))
  {
  }

  // ----- a late settlement -------------------------------------------------------------

  ghost predicate Step(policy: Policy, w: World, a: Action, w': World) {
    Enabled(w, a) && w' == Next(policy, w, a)
  }

  /** Time a cycle of Run has, in milliseconds. */
  const POP_TIMEOUT: int := 100

  /** The worker loop loses any job whose handler fails too late: a cycle of Run
      pops it at once, the handler fails at the deadline or later, and neither
      Redis nor any worker has the job any more. */
  lemma LateSettlementLosesAJob(policy: Policy, t: Ticket, took: int, delay: int, dlqId: Id)
    returns (ws: seq<World>, acts: seq<Action>)
    requires policy.maxAttempts > 0 && took >= POP_TIMEOUT
    ensures acts == [Push(t), BlockPop(1, t.queue, By(POP_TIMEOUT)), Advance(took), Handle(1, false),
                     Settle(1, delay, dlqId)]
    ensures IsRun(policy, ws, acts) && DistinctTickets(policy, ws, acts)
    ensures t in ws[5].pushed && Nowhere(ws[5], t)
  {
    var w0 := Empty(0);
    var w1, w2 := PushAndPop(policy, t);
    var w3 := w2.(now := took);
    var w4 := FailedRun(policy, w3, 1);
    var w5 := Next(policy, w4, Settle(1, delay, dlqId));
    ws, acts := [w0, w1, w2, w3, w4, w5],
      [Push(t), BlockPop(1, t.queue, By(POP_TIMEOUT)), Advance(took), Handle(1, false), Settle(1, delay, dlqId)];
    assert Step(policy, w4, acts[4], w5) && !Alive(By(POP_TIMEOUT), took);
    assert SettlesLate(ws[4], acts[4], t);
    assert DistinctTickets(policy, ws, acts);
    assert t in w5.pushed;
    hide Next;
    assert IsRun(policy, ws, acts);
    Conservation(policy, ws, acts, 5, t);
  }

  lemma PushAndPop(policy: Policy, t: Ticket) returns (w1: World, w2: World)
    ensures Step(policy, Empty(0), Push(t), w1)
    ensures Step(policy, w1, BlockPop(1, t.queue, By(POP_TIMEOUT)), w2)
    ensures w2.now == 0 && StateOf(w2.workers, 1) == Got(t.queue, Job(t, 0), By(POP_TIMEOUT)) && t in w2.pushed
  {
    w1 := Next(policy, Empty(0), Push(t));
    assert ListOf(w1.lists, t.queue) == [Job(t, 0)];
    w2 := Next(policy, w1, BlockPop(1, t.queue, By(POP_TIMEOUT)));
  }

  lemma FailedRun(policy: Policy, w: World, k: WorkerId) returns (w': World)
    requires StateOf(w.workers, k).Got?
    ensures Step(policy, w, Handle(k, false), w')
    ensures var g := StateOf(w.workers, k);
            w' == w.(runs := w'.runs, workers := w.workers[k := Failed(g.queue, g.job, g.deadline)])
  {
    w' := Next(policy, w, Handle(k, false));
  }
}
