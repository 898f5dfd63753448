/**
 One scheduled job run: it takes the distributed lease and the process-local
 lock, starts a watcher on the lease, calls back, reports, and releases in the
 order of its deferred calls.  Any number of runs on any number of processes
 interleave with their watchers, with timeouts and with the steps of the lease
 lock, whose own system is part of the state here.
 */
module JobRunner {
  import LeaseLock

  type RunId = nat
  type ProcessId = nat

  datatype Name = Name(text: string)

  // ----- the process-local lock -----------------------------------------------------

  datatype LockKey = LockKey(process: ProcessId, name: Name)

  /** Which run holds the local lock of a job on a process. */
  type LocalLocks = map<LockKey, RunId>

  function TakeLocal(mem: LocalLocks, key: LockKey, id: RunId): LocalLocks {
    if key in mem then mem else mem[key := id]
  }

  /** Memory: a table of mutexes, filled on demand and never emptied. */
  class MemoryLock {
    const process: ProcessId
    var locked: map<Name, bool>

    constructor (process: ProcessId)
      ensures this.process == process && Shows(map[])
    {
      this.process := process;
      locked := map[];
    }

    /** The locked mutexes are the locks of this process. */
    ghost predicate Shows(mem: LocalLocks)
      reads this
    {
      forall name :: name in locked && locked[name] <==> LockKey(process, name) in mem
    }

    method TryAcquire(name: Name, ghost mem: LocalLocks, ghost id: RunId) returns (ok: bool)
      requires Shows(mem)
      modifies this
      ensures ok <==> LockKey(process, name) !in mem
      ensures Shows(TakeLocal(mem, LockKey(process, name), id))
    {
      if name !in locked {
        locked := locked[name := false];
      }
      ok := !locked[name];
      locked := locked[name := true];
    }

    method Release(name: Name, ghost mem: LocalLocks)
      requires Shows(mem) && LockKey(process, name) in mem
      modifies this
      ensures Shows(mem - {LockKey(process, name)})
    {
      locked := locked[name := false];
    }
  }

  // ----- runs -------------------------------------------------------------------------

  datatype Def = Def(process: ProcessId, name: Name, withoutOverlap: bool, onOneServer: bool, hasTimeout: bool)

  datatype Event = Started | Failed | Finished | SkippedBusy | SkippedOverlap | SkippedLost

  /** Where runJob is.  From Reported on, the deferred calls run; a panic of the
      callback goes there at once. */
  datatype Phase =
    | Begin | GotDist | GotMem | Watched | InCallback | Returned | Loaded | Reported
    | Cancelled | Joined | MemFreed | Stopped | Over

  datatype Watcher = NoWatcher | Watching | SawLost | HasCancelled | Gone

  /** `fired` is lockLostFired and `saw` what the run read of it.  `events` are the
      events listeners receive: the bus delivers nothing under a context that is
      done.  `health` is what was recorded, and `told` whether the outcome was delivered. */
  datatype Run = Run(def: Def, token: LeaseLock.Token, phase: Phase, watcher: Watcher, launched: bool,
                     panicked: bool, ctxDone: bool, fired: bool, saw: bool, ok: bool, told: bool,
                     events: seq<Event>, health: seq<Event>)

  type Runs = map<RunId, Run>

  datatype World = World(runs: Runs, mem: LocalLocks, lock: LeaseLock.World)

  datatype Action =
    | Lock(step: LeaseLock.Action)
    | Spawn(id: RunId, def: Def)
    | TryDist(id: RunId, step: LeaseLock.Action)
    | TryMem(id: RunId) | Watch(id: RunId) | Launch(id: RunId) | Timeout(id: RunId)
    | WatcherLost(id: RunId) | WatcherCancel(id: RunId) | WatcherEmit(id: RunId) | WatcherDone(id: RunId)
    | Return(id: RunId, ok: bool) | Panic(id: RunId) | Load(id: RunId) | Report(id: RunId)
    | Cancel(id: RunId) | Join(id: RunId) | FreeMem(id: RunId) | StopLease(id: RunId)
    | FreeDist(id: RunId, step: LeaseLock.Action)

  function MemKey(def: Def): LockKey {
    LockKey(def.process, def.name)
  }

  function LeaseKey(def: Def): LeaseLock.Key {
    LeaseLock.Key(def.name.text)
  }

  predicate OwnsMem(mem: LocalLocks, id: RunId, def: Def) {
    MemKey(def) in mem && mem[MemKey(def)] == id
  }

  /** The lost channel of the lease is closed. */
  predicate Lost(lock: LeaseLock.World, t: LeaseLock.Token) {
    t in lock.leases && lock.leases[t].lostCloses > 0
  }

  predicate IsAcquire(def: Def, step: LeaseLock.Action) {
    (step.Acquire? || step.AcquireError?) && step.key == LeaseKey(def)
  }

  predicate IsRelease(r: Run, step: LeaseLock.Action) {
    (step.RunRelease? || step.ReleaseError?) && step.token == r.token
  }

  /** Steps that the lease lock takes on its own: time and the renewal loops. */
  predicate IsLoopStep(step: LeaseLock.Action) {
    step.Advance? || step.Tick? || step.RunRenew? || step.RenewError? || step.Exit?
  }

  predicate CanStep(r: Run, a: Action) {
    match a
    case Lock(_) => false
    case Spawn(_, _) => false
    case TryDist(_, step) => r.phase.Begin? && (r.def.onOneServer ==> IsAcquire(r.def, step))
    case TryMem(_) => r.phase.GotDist?
    case Watch(_) => r.phase.GotMem?
    case Launch(_) => r.phase.Watched?
    case Timeout(_) => r.def.hasTimeout && HasContext(r.phase)
    case WatcherLost(_) => r.watcher.Watching?
    case WatcherCancel(_) => r.watcher.SawLost?
    case WatcherEmit(_) => r.watcher.HasCancelled?
    case WatcherDone(_) => r.watcher.Watching? && r.ctxDone
    case Return(_, _) => r.phase.InCallback?
    case Panic(_) => r.phase.InCallback?
    case Load(_) => r.phase.Returned?
    case Report(_) => r.phase.Loaded?
    case Cancel(_) => r.phase.Reported?
    case Join(_) => r.phase.Cancelled? && (r.watcher.NoWatcher? || r.watcher.Gone?)
    case FreeMem(_) => r.phase.Joined?
    case StopLease(_) => r.phase.MemFreed?
    case FreeDist(_, step) => r.phase.Stopped? && (r.def.onOneServer ==> IsRelease(r, step))
  }

  predicate HasContext(p: Phase) {
    p.Watched? || p.InCallback? || p.Returned? || p.Loaded? || p.Reported?
  }

  /** What an action does to the lease lock; most let it stand still. */
  function LockStep(w: World, a: Action): LeaseLock.Action {
    if a.Lock? then a.step
    else if a.id !in w.runs || !w.runs[a.id].def.onOneServer then LeaseLock.Advance(w.lock.now)
    else
      match a
      case TryDist(_, step) => step
      case StopLease(id) => LeaseLock.CloseStop(w.runs[id].token)
      case FreeDist(_, step) => step
      case _ => LeaseLock.Advance(w.lock.now)
  }

  predicate Enabled(w: World, a: Action) {
    && (if a.Lock? then IsLoopStep(a.step)
        else if a.Spawn? then a.id !in w.runs
        else a.id in w.runs && CanStep(w.runs[a.id], a) && (a.WatcherLost? ==> Lost(w.lock, w.runs[a.id].token)))
    && LeaseLock.Enabled(w.lock, LockStep(w, a))
  }

  function Fresh(def: Def): Run {
    Run(def, LeaseLock.Token(""), Begin, NoWatcher, false, false, false, false, false, false, false, [], [])
  }

  /** The acquisition succeeds: no error, and no live key. */
  predicate Acquires(lock: LeaseLock.World, step: LeaseLock.Action) {
    step.Acquire? && !LeaseLock.Live(lock.store, step.key, lock.now)
  }

  /** Where runJob is after a step; `got` says whether the lock it tries is free. */
  function PhaseAfter(r: Run, a: Action, got: bool): Phase {
    match a
    case TryDist(_, step) => if r.def.onOneServer && !(got && step.Acquire?) then Over else GotDist
    case TryMem(_) => if r.def.withoutOverlap && !got then MemFreed else GotMem
    case Watch(_) => Watched
    case Launch(_) => InCallback
    case Return(_, _) => Returned
    case Panic(_) => Reported
    case Load(_) => Loaded
    case Report(_) => Reported
    case Cancel(_) => Cancelled
    case Join(_) => Joined
    case FreeMem(_) => MemFreed
    case StopLease(_) => Stopped
    case FreeDist(_, _) => Over
    case _ => r.phase
  }

  function WatcherAfter(r: Run, a: Action): Watcher {
    match a
    case Watch(_) => if r.def.onOneServer then Watching else NoWatcher
    case WatcherLost(_) => SawLost
    case WatcherCancel(_) => HasCancelled
    case WatcherEmit(_) => Gone
    case WatcherDone(_) => Gone
    case _ => r.watcher
  }

  /** What a step records as the health of the job. */
  function Recorded(r: Run, a: Action, got: bool): seq<Event> {
    match a
    case TryDist(_, _) => if PhaseAfter(r, a, got).Over? then [SkippedBusy] else []
    case TryMem(_) => if PhaseAfter(r, a, got).MemFreed? then [SkippedOverlap] else []
    case WatcherEmit(_) => [SkippedLost]
    case Report(_) => if r.saw then [] else if r.ok then [Finished] else [Failed]
    case _ => []
  }

  /** What listeners receive.  Start and outcome are emitted under the context of
      the run, the rest under the scheduler's own. */
  function Delivered(r: Run, a: Action, got: bool): seq<Event> {
    match a
    case Launch(_) => if r.ctxDone then [] else [Started]
    case Report(_) => if r.ctxDone then [] else Recorded(r, a, got)
    case _ => Recorded(r, a, got)
  }

  /** What a step does to the run itself. */
  function RunAfter(r: Run, a: Action, got: bool): Run
    requires CanStep(r, a)
  {
    Run(r.def,
        if a.TryDist? && r.def.onOneServer && got && a.step.Acquire? then a.step.token else r.token,
        PhaseAfter(r, a, got),
        WatcherAfter(r, a),
        r.launched || a.Launch?,
        r.panicked || a.Panic?,
        r.ctxDone || a.Timeout? || a.WatcherCancel? || a.Cancel?,
        r.fired || a.WatcherLost?,
        if a.Load? then r.fired else r.saw,
        if a.Return? then a.ok else r.ok,
        if a.Report? then !r.saw && !r.ctxDone else r.told,
        r.events + Delivered(r, a, got),
        r.health + Recorded(r, a, got))
  }

  predicate Got(w: World, a: Action, def: Def) {
    match a
    case TryDist(_, step) => Acquires(w.lock, step)
    case TryMem(_) => MemKey(def) !in w.mem
    case _ => true
  }

  function NextRun(w: World, a: Action): Run
    requires Enabled(w, a) && !a.Spawn? && !a.Lock?
  {
    RunAfter(w.runs[a.id], a, Got(w, a, w.runs[a.id].def))
  }

  /** The local lock is taken by TryMem if it is free, and freed by FreeMem. */
  function NextMem(mem: LocalLocks, a: Action, def: Def): LocalLocks
    requires !a.Lock?
  {
    if a.TryMem? && def.withoutOverlap then TakeLocal(mem, MemKey(def), a.id)
    else if a.FreeMem? && def.withoutOverlap then mem - {MemKey(def)}
    else mem
  }

  function Next(w: World, a: Action): World
    requires Enabled(w, a)
  {
    var lock := LeaseLock.Next(w.lock, LockStep(w, a));
    if a.Lock? then World(w.runs, w.mem, lock)
    else if a.Spawn? then World(w.runs[a.id := Fresh(a.def)], w.mem, lock)
    else World(w.runs[a.id := NextRun(w, a)], NextMem(w.mem, a, w.runs[a.id].def), lock)
  }

  predicate IsStart(w: World) {
    w.runs == map[] && w.mem == map[] && w.lock.store == map[] && w.lock.leases == map[] && w.lock.issued == {}
  }

  ghost predicate IsRun(ws: seq<World>, acts: seq<Action>) {
    && |ws| == |acts| + 1 && IsStart(ws[0])
    && forall i :: 0 <= i < |acts| ==> Enabled(ws[i], acts[i]) && ws[i + 1] == Next(ws[i], acts[i])
  }

  // ----- what every step keeps ----------------------------------------------------------

  function Count(events: seq<Event>, e: Event): nat {
    multiset(events)[e]
  }

  /** How often an outcome is among the events. */
  function Outcomes(events: seq<Event>): nat {
    Count(events, Failed) + Count(events, Finished)
  }

  lemma CountSum(events: seq<Event>, more: seq<Event>, e: Event)
    ensures Count(events + more, e) == Count(events, e) + Count(more, e)
    ensures Outcomes(events + more) == Outcomes(events) + Outcomes(more)
  {
  }

  lemma CountsOfStep(r: Run, a: Action, got: bool)
    requires CanStep(r, a)
    ensures Count(Recorded(r, a, got), SkippedLost) == Count(Delivered(r, a, got), SkippedLost)
         == if a.WatcherEmit? then 1 else 0
    ensures Outcomes(Recorded(r, a, got)) == if a.Report? && !r.saw then 1 else 0
    ensures Outcomes(Delivered(r, a, got)) == if a.Report? && !r.saw && !r.ctxDone then 1 else 0
  {
  }

  predicate MemPhase(p: Phase) {
    p.GotMem? || HasContext(p) || p.Cancelled? || p.Joined?
  }

  predicate DistPhase(p: Phase) {
    p.GotDist? || MemPhase(p) || p.MemFreed?
  }

  predicate WatcherActive(r: Run) {
    r.watcher.Watching? || r.watcher.SawLost? || r.watcher.HasCancelled?
  }

  predicate BeforeWatch(p: Phase) {
    p.Begin? || p.GotDist? || p.GotMem?
  }

  predicate BeforeLoad(p: Phase) {
    BeforeWatch(p) || p.Watched? || p.InCallback? || p.Returned?
  }

  predicate BeforeReport(p: Phase) {
    BeforeLoad(p) || p.Loaded?
  }

  predicate AfterJoin(p: Phase) {
    p.Joined? || p.MemFreed? || p.Stopped? || p.Over?
  }

  /** The watcher lives between its start and the join, the flag tells its story,
      and it stops only when the context of the run is done. */
  predicate WatcherBooks(r: Run) {
    && (BeforeWatch(r.phase) || AfterJoin(r.phase) ==> !WatcherActive(r))
    && (BeforeWatch(r.phase) ==> r.watcher.NoWatcher?)
    && (MemPhase(r.phase) && !r.phase.GotMem? ==> (r.watcher.NoWatcher? <==> !r.def.onOneServer))
    && (!r.def.onOneServer ==> r.watcher.NoWatcher?)
    && (r.watcher.NoWatcher? || r.watcher.Watching? ==> !r.fired)
    && (r.watcher.SawLost? || r.watcher.HasCancelled? ==> r.fired)
    && (r.watcher.HasCancelled? || r.watcher.Gone? ==> r.ctxDone)
    && (r.saw ==> r.fired)
    && (BeforeLoad(r.phase) ==> !r.saw)
  }

  /** The loss is reported once, by a watcher that saw it. */
  predicate LossBooks(r: Run) {
    Count(r.events, SkippedLost) == Count(r.health, SkippedLost) == if r.watcher.Gone? && r.fired then 1 else 0
  }

  /** A run that has no outcome to report. */
  predicate Silent(r: Run) {
    r.saw || r.panicked || !r.launched
  }

  /** The outcome is recorded once, by a run that launched, returned and did not see the flag. */
  predicate OutcomeBooks(r: Run) {
    && Outcomes(r.health) == (if BeforeReport(r.phase) || Silent(r) then 0 else 1)
    && Outcomes(r.events) == (if r.told then 1 else 0)
    && (BeforeReport(r.phase) || Silent(r) ==> !r.told)
  }

  predicate LaunchBooks(r: Run) {
    && (BeforeWatch(r.phase) || r.phase.Watched? ==> !r.launched)
    && (MemPhase(r.phase) && !r.phase.GotMem? && !r.phase.Watched? ==> r.launched)
    && (BeforeReport(r.phase) ==> !r.panicked)
  }

  predicate Books(r: Run) {
    WatcherBooks(r) && LossBooks(r) && LaunchBooks(r) && OutcomeBooks(r)
  }

  ghost predicate BooksFit(runs: Runs) {
    forall id :: id in runs ==> Books(runs[id])
  }

  ghost predicate MemFits(runs: Runs, mem: LocalLocks) {
    forall id :: id in runs && runs[id].def.withoutOverlap && MemPhase(runs[id].phase) ==>
      OwnsMem(mem, id, runs[id].def)
  }

  predicate UsesLease(r: Run) {
    r.def.onOneServer && DistPhase(r.phase)
  }

  /** The run has a lease of its job that nobody has stopped. */
  predicate HasLease(lock: LeaseLock.World, r: Run) {
    && LeaseLock.Holds(lock, r.token)
    && lock.leases[r.token].key == LeaseKey(r.def)
  }

  ghost predicate LeasesFit(runs: Runs, lock: LeaseLock.World) {
    && (forall id :: id in runs && UsesLease(runs[id]) ==> HasLease(lock, runs[id]))
    && (forall id, other ::
          (id in runs && other in runs && UsesLease(runs[id]) && UsesLease(runs[other])
           && runs[id].token == runs[other].token) ==> id == other)
    && (forall id :: id in runs && runs[id].fired ==> Lost(lock, runs[id].token))
  }

  ghost predicate Inv(w: World) {
    BooksFit(w.runs) && MemFits(w.runs, w.mem) && LeaseLock.Accounted(w.lock) && LeasesFit(w.runs, w.lock)
  }

  lemma StepKeepsWatcherBooks(r: Run, a: Action, got: bool)
    requires CanStep(r, a) && WatcherBooks(r)
    ensures WatcherBooks(RunAfter(r, a, got))
  {
  }

  lemma StepKeepsLossBooks(r: Run, a: Action, got: bool)
    requires CanStep(r, a) && WatcherBooks(r) && LossBooks(r)
    ensures LossBooks(RunAfter(r, a, got))
  {
    CountsOfStep(r, a, got);
    CountSum(r.events, Delivered(r, a, got), SkippedLost);
    CountSum(r.health, Recorded(r, a, got), SkippedLost);
    hide Count, Recorded, Delivered, PhaseAfter;
  }

  lemma StepKeepsLaunchBooks(r: Run, a: Action, got: bool)
    requires CanStep(r, a) && LaunchBooks(r)
    ensures LaunchBooks(RunAfter(r, a, got))
  {
    hide Recorded, Delivered, WatcherAfter;
  }

  /** Only Report passes from before to after the report, of a run that launched;
      a run that is skipped did not launch. */
  lemma ReportPhases(r: Run, a: Action, got: bool)
    requires CanStep(r, a) && LaunchBooks(r)
    ensures var p := PhaseAfter(r, a, got);
            && (BeforeReport(p) ==> BeforeReport(r.phase))
            && (BeforeReport(r.phase) && !BeforeReport(p) ==> a.Report? || a.Panic? || !r.launched)
            && (a.Report? ==> BeforeReport(r.phase) && !BeforeReport(p) && r.launched)
            && (a.Load? || a.Launch? ==> BeforeReport(p))
            && (a.Panic? ==> BeforeReport(r.phase) && !BeforeReport(p))
  {
  }

  lemma StepKeepsOutcomeBooks(r: Run, a: Action, got: bool)
    requires CanStep(r, a) && WatcherBooks(r) && LaunchBooks(r) && OutcomeBooks(r)
    ensures OutcomeBooks(RunAfter(r, a, got))
  {
    CountsOfStep(r, a, got);
    CountSum(r.events, Delivered(r, a, got), SkippedLost);
    CountSum(r.health, Recorded(r, a, got), SkippedLost);
    ReportPhases(r, a, got);
    hide Outcomes, Recorded, Delivered, WatcherAfter, PhaseAfter, CanStep, BeforeReport, WatcherBooks;
  }

  lemma StepKeepsBooks(r: Run, a: Action, got: bool)
    requires CanStep(r, a) && Books(r)
    ensures Books(RunAfter(r, a, got))
  {
    hide WatcherBooks, LossBooks, OutcomeBooks, LaunchBooks;
    StepKeepsWatcherBooks(r, a, got);
    StepKeepsLaunchBooks(r, a, got);
    StepKeepsLossBooks(r, a, got);
    StepKeepsOutcomeBooks(r, a, got);
  }

  /** Only TryMem enters the phases that hold the local lock, FreeMem leaves them. */
  lemma MemPhases(r: Run, a: Action, got: bool)
    requires CanStep(r, a)
    ensures var r' := RunAfter(r, a, got);
            && r'.def == r.def
            && (MemPhase(r'.phase) ==> !a.FreeMem? && (MemPhase(r.phase) || a.TryMem?))
            && (MemPhase(r'.phase) && a.TryMem? && r.def.withoutOverlap ==> got)
            && (a.FreeMem? ==> MemPhase(r.phase))
  {
  }

  /** Only TryDist enters the phases that use the lease, StopLease leaves them. */
  lemma LeasePhases(r: Run, a: Action, got: bool)
    requires CanStep(r, a)
    ensures var r' := RunAfter(r, a, got);
            && r'.def == r.def
            && (UsesLease(r') ==> !a.StopLease? && (UsesLease(r) || (a.TryDist? && got && a.step.Acquire?)))
            && (a.StopLease? && r.def.onOneServer ==> UsesLease(r))
  {
  }

  lemma TokenAndFlag(r: Run, a: Action, got: bool)
    requires CanStep(r, a)
    ensures var r' := RunAfter(r, a, got);
            && (a.TryDist? && UsesLease(r') ==> r'.token == a.step.token)
            && (!a.TryDist? ==> r'.token == r.token)
            && (r'.fired <==> r.fired || a.WatcherLost?)
  {
  }

  lemma StepKeepsMem(runs: Runs, mem: LocalLocks, a: Action, got: bool)
    requires !a.Lock? && !a.Spawn? && a.id in runs && CanStep(runs[a.id], a)
    requires MemFits(runs, mem) && (a.TryMem? && got ==> MemKey(runs[a.id].def) !in mem)
    ensures MemFits(runs[a.id := RunAfter(runs[a.id], a, got)], NextMem(mem, a, runs[a.id].def))
  {
    MemPhases(runs[a.id], a, got);
    hide RunAfter, CanStep, MemPhase;
  }

  /** The lock goes on; what runs have of it stays. */
  lemma LeasesStay(lock: LeaseLock.World, step: LeaseLock.Action, r: Run)
    requires LeaseLock.Enabled(lock, step) && LeaseLock.Accounted(lock)
    ensures var lock' := LeaseLock.Next(lock, step);
            && (HasLease(lock, r) && step != LeaseLock.CloseStop(r.token) ==> HasLease(lock', r))
            && (Lost(lock, r.token) ==> Lost(lock', r.token))
  {
    if r.token in lock.leases {
      LeaseLock.LeaseStays(lock, step, r.token);
    }
    hide LeaseLock.Next, LeaseLock.Enabled, LeaseLock.Accounted;
  }

  lemma AcquireGivesALease(lock: LeaseLock.World, step: LeaseLock.Action, def: Def)
    requires LeaseLock.Enabled(lock, step) && Acquires(lock, step) && step.key == LeaseKey(def)
    ensures var lock' := LeaseLock.Next(lock, step);
            && LeaseLock.Holds(lock', step.token) && lock'.leases[step.token].key == LeaseKey(def)
            && step.token !in lock.issued
  {
  }

  lemma StepKeepsLeases(w: World, a: Action)
    requires Enabled(w, a) && LeaseLock.Accounted(w.lock) && LeasesFit(w.runs, w.lock)
    requires !a.Lock? && !a.Spawn? && WatcherBooks(w.runs[a.id])
    ensures LeasesFit(w.runs[a.id := NextRun(w, a)], LeaseLock.Next(w.lock, LockStep(w, a)))
  {
    hide RunAfter, LockStep, HasLease, UsesLease, Lost, LeaseLock.Next, LeaseLock.Enabled, LeaseLock.Accounted;
    var r', step := NextRun(w, a), LockStep(w, a);
    var runs', lock' := w.runs[a.id := r'], LeaseLock.Next(w.lock, step);
    OwnLease(w, a);
    forall id | id in w.runs && id != a.id
      ensures UsesLease(w.runs[id]) ==> HasLease(lock', w.runs[id]) && !(UsesLease(r') && r'.token == w.runs[id].token)
      ensures w.runs[id].fired ==> Lost(lock', w.runs[id].token)
    {
      LeasesStay(w.lock, step, w.runs[id]);
      if UsesLease(w.runs[id]) {
        OthersLease(w, a, id);
      }
    }
  }

  /** The run that moves keeps, gets or gives up its lease. */
  lemma OwnLease(w: World, a: Action)
    requires Enabled(w, a) && !a.Lock? && !a.Spawn? && WatcherBooks(w.runs[a.id])
    requires LeaseLock.Accounted(w.lock) && LeasesFit(w.runs, w.lock)
    ensures var r', lock' := NextRun(w, a), LeaseLock.Next(w.lock, LockStep(w, a));
            (UsesLease(r') ==> HasLease(lock', r')) && (r'.fired ==> Lost(lock', r'.token))
  {
    var r, got, step := w.runs[a.id], Got(w, a, w.runs[a.id].def), LockStep(w, a);
    LeasePhases(r, a, got);
    TokenAndFlag(r, a, got);
    LeasesStay(w.lock, step, r);
    if a.TryDist? && r.def.onOneServer && Acquires(w.lock, a.step) {
      AcquireGivesALease(w.lock, a.step, r.def);
    }
    assert a.TryDist? ==> !r.fired;
    hide RunAfter, LeaseLock.Next, LeaseLock.Enabled, LeaseLock.Accounted;
  }

  /** Others have other tokens: the step does not stop their lease, and a new token is new. */
  lemma OthersLease(w: World, a: Action, id: RunId)
    requires Enabled(w, a) && !a.Lock? && !a.Spawn? && id in w.runs && id != a.id && UsesLease(w.runs[id])
    requires LeaseLock.Accounted(w.lock) && LeasesFit(w.runs, w.lock)
    ensures LockStep(w, a) != LeaseLock.CloseStop(w.runs[id].token)
    ensures UsesLease(NextRun(w, a)) ==> NextRun(w, a).token != w.runs[id].token
  {
    var r, got := w.runs[a.id], Got(w, a, w.runs[a.id].def);
    LeasePhases(r, a, got);
    TokenAndFlag(r, a, got);
    if a.TryDist? && r.def.onOneServer && Acquires(w.lock, a.step) {
      AcquireGivesALease(w.lock, a.step, r.def);
    }
    hide RunAfter;
  }

  lemma OtherRunsKept(w: World, a: Action)
    requires Enabled(w, a) && !a.Lock?
    ensures var runs' := Next(w, a).runs;
            && (forall id :: id in runs' && id != a.id ==> id in w.runs && runs'[id] == w.runs[id])
            && a.id in runs' && runs'[a.id] == if a.Spawn? then Fresh(a.def) else NextRun(w, a)
  {
  }

  lemma FreshBooks(def: Def)
    ensures Books(Fresh(def))
  {
  }

  lemma StepKeepsRunBooks(w: World, a: Action)
    requires Enabled(w, a) && BooksFit(w.runs)
    ensures BooksFit(Next(w, a).runs)
  {
    hide Books;
    if !a.Lock? {
      OtherRunsKept(w, a);
      if a.Spawn? {
        FreshBooks(a.def);
      } else {
        StepKeepsBooks(w.runs[a.id], a, Got(w, a, w.runs[a.id].def));
      }
    }
    hide RunAfter, Fresh;
  }

  /** Time and renewal loops, and a new run, keep what runs have of the lock. */
  lemma LoopStepKeepsLeases(runs: Runs, lock: LeaseLock.World, step: LeaseLock.Action)
    requires LeaseLock.Enabled(lock, step) && LeaseLock.Accounted(lock) && LeasesFit(runs, lock) && IsLoopStep(step)
    ensures LeasesFit(runs, LeaseLock.Next(lock, step))
  {
    forall id | id in runs
      ensures UsesLease(runs[id]) ==> HasLease(LeaseLock.Next(lock, step), runs[id])
      ensures runs[id].fired ==> Lost(LeaseLock.Next(lock, step), runs[id].token)
    {
      LeasesStay(lock, step, runs[id]);
    }
    hide HasLease, UsesLease, Lost, LeaseLock.Next;
  }

  lemma SpawnKeepsLeases(runs: Runs, lock: LeaseLock.World, id: RunId, def: Def)
    requires LeasesFit(runs, lock) && id !in runs
    ensures LeasesFit(runs[id := Fresh(def)], lock)
  {
  }

  lemma StepKeeps(w: World, a: Action)
    requires Enabled(w, a) && Inv(w)
    ensures Inv(Next(w, a))
  {
    hide BooksFit, MemFits, LeasesFit, LeaseLock.Accounted, LeaseLock.Enabled, LeaseLock.Next;
    StepKeepsRunBooks(w, a);
    LeaseLock.StepAccounts(w.lock, LockStep(w, a));
    if a.Lock? {
      LoopStepKeepsLeases(w.runs, w.lock, a.step);
    } else if a.Spawn? {
      LoopStepKeepsLeases(w.runs, w.lock, LockStep(w, a));
      SpawnKeepsLeases(w.runs, LeaseLock.Next(w.lock, LockStep(w, a)), a.id, a.def);
      SpawnKeepsMem(w.runs, w.mem, a.id, a.def);
    } else {
      BooksOf(w.runs, a.id);
      StepKeepsMem(w.runs, w.mem, a, Got(w, a, w.runs[a.id].def));
      StepKeepsLeases(w, a);
    }
  }

  lemma BooksOf(runs: Runs, id: RunId)
    requires BooksFit(runs) && id in runs
    ensures Books(runs[id])
  {
  }

  lemma SpawnKeepsMem(runs: Runs, mem: LocalLocks, id: RunId, def: Def)
    requires MemFits(runs, mem)
    ensures MemFits(runs[id := Fresh(def)], mem)
  {
  }

  lemma {:induction false} RunKeeps(ws: seq<World>, acts: seq<Action>, i: nat)
    requires IsRun(ws, acts) && i <= |acts|
    ensures Inv(ws[i])
  {
    if i > 0 {
      RunKeeps(ws, acts, i - 1);
      hide Inv, Next, Enabled;
      StepKeeps(ws[i - 1], acts[i - 1]);
    }
  }

  // ----- the lease lock inside ------------------------------------------------------------

  function Locks(ws: seq<World>): seq<LeaseLock.World> {
    seq(|ws|, i requires 0 <= i < |ws| => ws[i].lock)
  }

  function LockSteps(ws: seq<World>, acts: seq<Action>): seq<LeaseLock.Action>
    requires |ws| == |acts| + 1
  {
    seq(|acts|, i requires 0 <= i < |acts| => LockStep(ws[i], acts[i]))
  }

  /** Every run of the jobs is a run of the lease lock. */
  lemma LocksRun(ws: seq<World>, acts: seq<Action>)
    requires IsRun(ws, acts)
    ensures LeaseLock.IsRun(Locks(ws), LockSteps(ws, acts))
  {
    var locks, steps := Locks(ws), LockSteps(ws, acts);
    forall i | 0 <= i < |steps|
      ensures LeaseLock.Enabled(locks[i], steps[i]) && locks[i + 1] == LeaseLock.Next(locks[i], steps[i])
    {
      assert Enabled(ws[i], acts[i]) && ws[i + 1] == Next(ws[i], acts[i]);
    }
    hide Enabled, Next, LeaseLock.Enabled, LeaseLock.Next, LockStep;
  }

  /** The replica of this run is timely in every state, and none of its renewals fails. */
  ghost predicate WellServed(ws: seq<World>, acts: seq<Action>, t: LeaseLock.Token)
    requires |ws| == |acts| + 1
  {
    LeaseLock.WellServed(Locks(ws), LockSteps(ws, acts), t)
  }

  // ----- theorems -------------------------------------------------------------------------

  /** Two runs of one WithoutOverlapping job on one process never call back together. */
  lemma RunsDoNotOverlap(ws: seq<World>, acts: seq<Action>, i: nat, x: RunId, y: RunId)
    requires IsRun(ws, acts) && i <= |acts|
    requires x in ws[i].runs && y in ws[i].runs
    requires ws[i].runs[x].phase.InCallback? && ws[i].runs[y].phase.InCallback?
    requires ws[i].runs[x].def.withoutOverlap && ws[i].runs[y].def.withoutOverlap
    requires MemKey(ws[i].runs[x].def) == MemKey(ws[i].runs[y].def)
    ensures x == y
  {
    RunKeeps(ws, acts, i);
    hide BooksFit, LeasesFit, LeaseLock.Accounted;
  }

  /** Locks outlast the work: while the callback runs or the watcher has not
      stopped, the run holds the local lock and a lease it has not begun to release. */
  lemma LocksCoverTheRun(ws: seq<World>, acts: seq<Action>, i: nat, x: RunId)
    requires IsRun(ws, acts) && i <= |acts| && x in ws[i].runs
    requires ws[i].runs[x].phase.InCallback? || WatcherActive(ws[i].runs[x])
    ensures ws[i].runs[x].def.withoutOverlap ==> OwnsMem(ws[i].mem, x, ws[i].runs[x].def)
    ensures ws[i].runs[x].def.onOneServer ==> HasLease(ws[i].lock, ws[i].runs[x])
  {
    RunKeeps(ws, acts, i);
    BooksOf(ws[i].runs, x);
    hide LossBooks, OutcomeBooks, LaunchBooks, BooksFit, LeaseLock.Accounted;
  }

  /** A run whose replica is well served owns the live key of its job while it calls back. */
  lemma CallbackOwnsItsKey(ws: seq<World>, acts: seq<Action>, i: nat, x: RunId)
    requires IsRun(ws, acts) && i <= |acts| && x in ws[i].runs
    requires ws[i].runs[x].phase.InCallback? && ws[i].runs[x].def.onOneServer
    requires WellServed(ws, acts, ws[i].runs[x].token)
    ensures var r, lock := ws[i].runs[x], ws[i].lock;
            LeaseLock.Owns(lock.store, LeaseKey(r.def), r.token, lock.now) && !Lost(lock, r.token)
  {
    LocksCoverTheRun(ws, acts, i, x);
    LocksRun(ws, acts);
    LeaseLock.LeaseContinuity(Locks(ws), LockSteps(ws, acts), ws[i].runs[x].token, i);
    hide IsRun, LeaseLock.IsRun, WellServed, LeaseLock.WellServed;
  }

  /** One server: two runs of one OnOneServer job, on any processes, whose replicas
      are well served are never in the callback together. */
  lemma OneServerIfWellServed(ws: seq<World>, acts: seq<Action>, i: nat, x: RunId, y: RunId)
    requires IsRun(ws, acts) && i <= |acts|
    requires x in ws[i].runs && y in ws[i].runs
    requires ws[i].runs[x].phase.InCallback? && ws[i].runs[y].phase.InCallback?
    requires ws[i].runs[x].def.onOneServer && ws[i].runs[y].def.onOneServer
    requires ws[i].runs[x].def.name == ws[i].runs[y].def.name
    requires WellServed(ws, acts, ws[i].runs[x].token) && WellServed(ws, acts, ws[i].runs[y].token)
    ensures x == y
  {
    CallbackOwnsItsKey(ws, acts, i, x);
    CallbackOwnsItsKey(ws, acts, i, y);
    TokensTellRunsApart(ws, acts, i, x, y);
    hide IsRun, WellServed;
  }

  /** From this state on no live key carries the token of the run, and whenever one
      of its renewals runs or fails, its watcher, if on duty, can fire. */
  ghost predicate LeaseEndedFor(ws: seq<World>, acts: seq<Action>, i: nat, x: RunId)
    requires |ws| == |acts| + 1 && i <= |acts| && x in ws[i].runs
  {
    var t := ws[i].runs[x].token;
    && (forall j :: i <= j <= |acts| ==> LeaseLock.Stale(ws[j].lock, t))
    && (forall j :: i <= j < |acts| && IsRenewal(LockStep(ws[j], acts[j]), t) ==>
          && x in ws[j + 1].runs
          && (ws[j + 1].runs[x].watcher.Watching? ==> Enabled(ws[j + 1], WatcherLost(x))))
  }

  predicate IsRenewal(step: LeaseLock.Action, t: LeaseLock.Token) {
    (step.RunRenew? || step.RenewError?) && step.token == t
  }

  /** With no assumption on timing or errors: of two runs of one OnOneServer job in
      the callback at once, the lease of one has ended for good, and its next
      renewal lets its watcher cancel it. */
  lemma OneServerUnlessLeaseEnded(ws: seq<World>, acts: seq<Action>, i: nat, x: RunId, y: RunId)
    requires IsRun(ws, acts) && i <= |acts|
    requires x in ws[i].runs && y in ws[i].runs && x != y
    requires ws[i].runs[x].phase.InCallback? && ws[i].runs[y].phase.InCallback?
    requires ws[i].runs[x].def.onOneServer && ws[i].runs[y].def.onOneServer
    requires ws[i].runs[x].def.name == ws[i].runs[y].def.name
    ensures LeaseEndedFor(ws, acts, i, x) || LeaseEndedFor(ws, acts, i, y)
  {
    TokensTellRunsApart(ws, acts, i, x, y);
    hide IsRun, LeaseEndedFor;
    if !OwnsItsKey(ws[i].lock, ws[i].runs[x]) {
      LeaseEnds(ws, acts, i, x);
    } else {
      LeaseEnds(ws, acts, i, y);
    }
  }

  predicate OwnsItsKey(lock: LeaseLock.World, r: Run) {
    LeaseLock.Owns(lock.store, LeaseKey(r.def), r.token, lock.now)
  }

  /** A callback that does not own its key has lost it for good. */
  lemma LeaseEnds(ws: seq<World>, acts: seq<Action>, i: nat, x: RunId)
    requires IsRun(ws, acts) && i <= |acts| && x in ws[i].runs
    requires ws[i].runs[x].phase.InCallback? && ws[i].runs[x].def.onOneServer
    requires !OwnsItsKey(ws[i].lock, ws[i].runs[x])
    ensures LeaseEndedFor(ws, acts, i, x)
  {
    var t := ws[i].runs[x].token;
    LocksCoverTheRun(ws, acts, i, x);
    LocksRun(ws, acts);
    var locks, steps := Locks(ws), LockSteps(ws, acts);
    LeaseLock.StaleIffNotOwner(locks, steps, i, t);
    assert LeaseLock.Stale(locks[i], t);
    hide IsRun, LeaseLock.IsRun, LeaseLock.Stale, Enabled, LockStep, Next;
    forall j | i <= j <= |acts|
      ensures LeaseLock.Stale(ws[j].lock, t) && x in ws[j].runs && ws[j].runs[x].token == t
    {
      LeaseLock.StaleForever(locks, steps, t, i, j);
      assert locks[j] == ws[j].lock;
      TokenStays(ws, acts, i, j, x);
    }
    forall j | i <= j < |acts| && IsRenewal(LockStep(ws[j], acts[j]), t) && ws[j + 1].runs[x].watcher.Watching?
      ensures Enabled(ws[j + 1], WatcherLost(x))
    {
      LossReachesTheWatcher(ws, acts, i, j, x);
    }
  }

  /** A run that has begun keeps its token. */
  lemma {:induction false} TokenStays(ws: seq<World>, acts: seq<Action>, i: nat, j: nat, x: RunId)
    requires IsRun(ws, acts) && i <= j <= |acts| && x in ws[i].runs && !ws[i].runs[x].phase.Begin?
    ensures x in ws[j].runs && !ws[j].runs[x].phase.Begin? && ws[j].runs[x].token == ws[i].runs[x].token
  {
    hide Next, Enabled;
    if i < j {
      TokenStays(ws, acts, i, j - 1, x);
      StepKeepsToken(ws[j - 1], acts[j - 1], x);
    }
  }

  lemma StepKeepsToken(w: World, a: Action, x: RunId)
    requires Enabled(w, a) && x in w.runs && !w.runs[x].phase.Begin?
    ensures var runs' := Next(w, a).runs;
            x in runs' && !runs'[x].phase.Begin? && runs'[x].token == w.runs[x].token
  {
    hide PhaseAfter, WatcherAfter, Delivered, Recorded, LeaseLock.Next, NextMem, LockStep;
    if !a.Lock? {
      OtherRunsKept(w, a);
      if a.id == x {
        PhaseNotBegin(w.runs[x], a, Got(w, a, w.runs[x].def));
      }
    }
  }

  lemma PhaseNotBegin(r: Run, a: Action, got: bool)
    requires CanStep(r, a) && !r.phase.Begin?
    ensures !PhaseAfter(r, a, got).Begin? && !a.TryDist?
  {
  }

  lemma TokensTellRunsApart(ws: seq<World>, acts: seq<Action>, i: nat, x: RunId, y: RunId)
    requires IsRun(ws, acts) && i <= |acts| && x in ws[i].runs && y in ws[i].runs
    requires UsesLease(ws[i].runs[x]) && UsesLease(ws[i].runs[y])
    ensures ws[i].runs[x].token == ws[i].runs[y].token ==> x == y
  {
    RunKeeps(ws, acts, i);
    hide BooksFit, MemFits, LeaseLock.Accounted;
  }

  /** What the watcher is for: as long as the context of a run in the callback is
      alive, its watcher is on duty, or has seen the loss and is about to cancel;
      once it has cancelled or stopped, the context is done; and it never cries wolf. */
  lemma WatcherGuardsTheCallback(ws: seq<World>, acts: seq<Action>, i: nat, x: RunId)
    requires IsRun(ws, acts) && i <= |acts| && x in ws[i].runs
    ensures var r := ws[i].runs[x];
            && (r.phase.InCallback? && r.def.onOneServer && !r.ctxDone ==> r.watcher.Watching? || r.watcher.SawLost?)
            && (r.watcher.HasCancelled? || r.watcher.Gone? ==> r.ctxDone)
            && (r.fired ==> Lost(ws[i].lock, r.token))
  {
    RunKeeps(ws, acts, i);
    BooksOf(ws[i].runs, x);
    hide LossBooks, OutcomeBooks, LaunchBooks, BooksFit, LeaseLock.Accounted;
  }

  /** A lost lease reaches the watcher: once the key is gone, the next renewal that
      runs or fails lets a watcher on duty fire. */
  lemma LossReachesTheWatcher(ws: seq<World>, acts: seq<Action>, i: nat, j: nat, x: RunId)
    requires IsRun(ws, acts) && i <= j < |acts| && x in ws[j + 1].runs && ws[j + 1].runs[x].watcher.Watching?
    requires var t := ws[j + 1].runs[x].token;
             && LeaseLock.Stale(ws[i].lock, t)
             && IsRenewal(LockStep(ws[j], acts[j]), t)
    ensures Enabled(ws[j + 1], WatcherLost(x))
  {
    hide IsRun, LeaseLock.IsRun, Inv, LeaseLock.Stale, LeaseLock.Next, LeaseLock.Enabled, LockStep;
    LengthOfRun(ws, acts);
    var t := ws[j + 1].runs[x].token;
    LocksRun(ws, acts);
    LeaseLock.StaleHolderIsHarmlessAndSignalled(Locks(ws), LockSteps(ws, acts), t, i, j);
    RunKeeps(ws, acts, j + 1);
    LeaseOfRunning(ws[j + 1], x);
    LockStandsStill(ws[j + 1].lock);
    StillOnWatch(ws[j + 1], x);
  }

  lemma LengthOfRun(ws: seq<World>, acts: seq<Action>)
    requires IsRun(ws, acts)
    ensures |ws| == |acts| + 1
  {
  }

  lemma StillOnWatch(w: World, x: RunId)
    ensures LockStep(w, WatcherLost(x)) == LeaseLock.Advance(w.lock.now)
  {
  }

  lemma LeaseOfRunning(w: World, x: RunId)
    requires Inv(w) && x in w.runs && w.runs[x].watcher.Watching?
    ensures w.runs[x].token in w.lock.leases
  {
  }

  /** A run reports at most one outcome, delivered or not, and none if it found the flag set. */
  lemma OneOutcome(ws: seq<World>, acts: seq<Action>, i: nat, x: RunId)
    requires IsRun(ws, acts) && i <= |acts| && x in ws[i].runs
    ensures var r := ws[i].runs[x];
            && Outcomes(r.events) <= Outcomes(r.health) <= 1
            && Count(r.events, SkippedLost) == Count(r.health, SkippedLost) <= 1
            && (r.saw ==> Outcomes(r.health) == 0)
  {
    RunKeeps(ws, acts, i);
    BooksOf(ws[i].runs, x);
    hide Count, Outcomes, BooksFit, LeasesFit, MemFits;
  }

  /** The flag and what was read of it do not change back. */
  lemma {:induction false} FlagStays(ws: seq<World>, acts: seq<Action>, i: nat, j: nat, x: RunId)
    requires IsRun(ws, acts) && i <= j <= |acts|
    requires x in ws[i].runs && ws[i].runs[x].fired
    ensures x in ws[j].runs && ws[j].runs[x].fired
    ensures BeforeLoad(ws[i].runs[x].phase) && !BeforeLoad(ws[j].runs[x].phase) ==>
              ws[j].runs[x].saw || ws[j].runs[x].panicked
  {
    hide Next, Enabled, Inv, Books, WatcherBooks, BeforeLoad;
    if i < j {
      FlagStays(ws, acts, i, j - 1, x);
      WatcherBooksInRun(ws, acts, j - 1, x);
      StepOnFlag(ws[j - 1], acts[j - 1], x);
    }
  }

  lemma WatcherBooksInRun(ws: seq<World>, acts: seq<Action>, i: nat, x: RunId)
    requires IsRun(ws, acts) && i <= |acts| && x in ws[i].runs
    ensures WatcherBooks(ws[i].runs[x])
  {
    RunKeeps(ws, acts, i);
    BooksOf(ws[i].runs, x);
  }

  lemma StepOnFlag(w: World, a: Action, x: RunId)
    requires Enabled(w, a) && x in w.runs && w.runs[x].fired && WatcherBooks(w.runs[x])
    ensures var runs' := Next(w, a).runs;
            && x in runs' && runs'[x].fired
            && (BeforeLoad(w.runs[x].phase) && !BeforeLoad(runs'[x].phase) ==> runs'[x].saw || runs'[x].panicked)
            && (!BeforeLoad(w.runs[x].phase) ==>
                  && !BeforeLoad(runs'[x].phase) && runs'[x].saw == w.runs[x].saw
                  && (w.runs[x].panicked ==> runs'[x].panicked))
  {
    hide NextMem, LockStep, LeaseLock.Next, PhaseAfter, Delivered, Recorded, WatcherAfter, BeforeLoad;
    if !a.Lock? {
      OtherRunsKept(w, a);
      if a.id == x {
        LoadPhases(w.runs[x], a, Got(w, a, w.runs[x].def));
      }
    }
  }

  lemma LoadPhases(r: Run, a: Action, got: bool)
    requires CanStep(r, a) && r.fired && WatcherBooks(r)
    ensures BeforeLoad(r.phase) && !BeforeLoad(PhaseAfter(r, a, got)) ==> a.Load? || a.Panic?
    ensures !BeforeLoad(r.phase) ==> !BeforeLoad(PhaseAfter(r, a, got)) && !a.Load?
  {
  }

  /** A lease that was seen lost before the flag was read, so in particular before
      the callback returned, is reported as lost only: neither finished nor failed
      is ever recorded or delivered for that run. */
  lemma LostLeaseReportsNoOutcome(ws: seq<World>, acts: seq<Action>, i: nat, j: nat, x: RunId)
    requires IsRun(ws, acts) && i <= j <= |acts|
    requires x in ws[i].runs && ws[i].runs[x].fired && BeforeLoad(ws[i].runs[x].phase)
    ensures x in ws[j].runs && Outcomes(ws[j].runs[x].health) == Outcomes(ws[j].runs[x].events) == 0
  {
    FlagStays(ws, acts, i, j, x);
    RunKeeps(ws, acts, j);
    BooksOf(ws[j].runs, x);
    hide Count, Outcomes, IsRun, BooksFit, LeasesFit, MemFits;
  }

  /** The report of a finished run, exactly: an outcome is recorded unless the flag
      was found set or the callback panicked, the loss if the watcher saw it; both
      are recorded exactly when the callback returned and the flag was set after it
      was read, and both reach the listeners exactly when
      besides the outcome was emitted before the context was done. */
  lemma ReportOfAFinishedRun(ws: seq<World>, acts: seq<Action>, i: nat, x: RunId)
    requires IsRun(ws, acts) && i <= |acts| && x in ws[i].runs
    requires AfterJoin(ws[i].runs[x].phase) && ws[i].runs[x].launched
    ensures var r := ws[i].runs[x];
            && (Outcomes(r.health) == 1 <==> !r.saw && !r.panicked)
            && (Count(r.health, SkippedLost) == 1 <==> r.fired)
            && (Outcomes(r.health) == 1 && Count(r.health, SkippedLost) == 1 <==> r.fired && !r.saw && !r.panicked)
            && (Outcomes(r.events) == 1 && Count(r.events, SkippedLost) == 1 <==> r.fired && r.told)
            && (r.told ==> !r.saw && !r.panicked)
  {
    RunKeeps(ws, acts, i);
    BooksOf(ws[i].runs, x);
    hide Count, Outcomes, IsRun, BooksFit, LeasesFit, MemFits;
  }

  // ----- a double report -------------------------------------------------------------------

  /** A run of this definition whose outcome and lost lease both reach the listeners. */
  ghost predicate ReportsTwice(ws: seq<World>, acts: seq<Action>, x: RunId, def: Def) {
    && IsRun(ws, acts) && x in ws[|acts|].runs && ws[|acts|].runs[x].def == def
    && Outcomes(ws[|acts|].runs[x].events) == 1 && Count(ws[|acts|].runs[x].events, SkippedLost) == 1
  }

  /** A run can report twice exactly if it runs on one server. */
  lemma DoubleReportIffOnOneServer(def: Def)
    ensures (exists ws, acts, x :: ReportsTwice(ws, acts, x, def)) <==> def.onOneServer
  {
    if def.onOneServer {
      var ws, acts := LateLossReportsTwice(def);
      assert ReportsTwice(ws, acts, 0, def);
    }
    if ws: seq<World>, acts: seq<Action>, x :| ReportsTwice(ws, acts, x, def) {
      RunKeeps(ws, acts, |acts|);
      BooksOf(ws[|acts|].runs, x);
      hide IsRun, Count, Outcomes, BooksFit, LeasesFit, MemFits;
    }
  }

  ghost predicate Step(w: World, a: Action, w': World) {
    Enabled(w, a) && w' == Next(w, a)
  }

  /** A world with one run, past its local lock. */
  function Solo(r: Run, lock: LeaseLock.World): World {
    World(map[0 := r], if r.def.withoutOverlap then map[MemKey(r.def) := 0] else map[], lock)
  }

  /** Steps that concern neither lock. */
  predicate IsQuiet(a: Action) {
    a.Watch? || a.Launch? || a.Return? || a.Load? || a.Report? || a.WatcherLost? || a.WatcherCancel? || a.WatcherEmit?
  }

  lemma SoloStep(r: Run, lock: LeaseLock.World, a: Action) returns (r': Run)
    requires IsQuiet(a) && a.id == 0 && CanStep(r, a) && (a.WatcherLost? ==> Lost(lock, r.token))
    ensures r' == RunAfter(r, a, true) && r'.def == r.def
    ensures Step(Solo(r, lock), a, Solo(r', lock))
  {
    r' := RunAfter(r, a, true);
    LockStandsStill(lock);
    hide RunAfter, CanStep, LeaseLock.Next, LeaseLock.Enabled;
    assert LockStep(Solo(r, lock), a) == LeaseLock.Advance(lock.now) && Got(Solo(r, lock), a, r.def);
    hide LockStep, Got;
    assert map[0 := r][0 := r'] == map[0 := r'];
  }

  lemma LockStandsStill(lock: LeaseLock.World)
    ensures var still := LeaseLock.Advance(lock.now);
            LeaseLock.Enabled(lock, still) && LeaseLock.Next(lock, still) == lock
  {
  }

  lemma SoloLockStep(r: Run, lock: LeaseLock.World, step: LeaseLock.Action) returns (lock': LeaseLock.World)
    requires IsLoopStep(step) && LeaseLock.Enabled(lock, step)
    ensures lock' == LeaseLock.Next(lock, step) && Step(Solo(r, lock), Lock(step), Solo(r, lock'))
  {
    lock' := LeaseLock.Next(lock, step);
  }

  const LEASE: int := 60 * LeaseLock.SECOND

  /** A late loss is reported twice over: the callback returns, the run reads the
      flag and emits finished, and then a renewal fails before the run ends. */
  lemma LateLossReportsTwice(def: Def) returns (ws: seq<World>, acts: seq<Action>)
    requires def.onOneServer
    ensures IsRun(ws, acts) && 0 in ws[|acts|].runs && ws[|acts|].runs[0].def == def
    ensures ws[|acts|].runs[0].events == [Started, Finished, SkippedLost]
    ensures Outcomes(ws[|acts|].runs[0].events) == 1 && Count(ws[|acts|].runs[0].events, SkippedLost) == 1
  {
    hide Step, Solo;
    var t := LeaseLock.Token("t");
    var acquire := LeaseLock.Acquire(LeaseKey(def), t, LEASE);
    var w0, w1, w2, r3, lock := AcquiredAlone(def, t);
    var r4, r5, r6, r7, r8 := FinishedAlone(r3, lock);
    var lock1, lock2, lock3 := FailedRenewal(r8, lock, t);
    var r9, r10, r11 := LossSeen(r8, lock3);
    ws := [w0, w1, w2, Solo(r3, lock), Solo(r4, lock), Solo(r5, lock), Solo(r6, lock), Solo(r7, lock), Solo(r8, lock),
           Solo(r8, lock1), Solo(r8, lock2), Solo(r8, lock3), Solo(r9, lock3), Solo(r10, lock3), Solo(r11, lock3)];
    acts := [Spawn(0, def), TryDist(0, acquire), TryMem(0), Watch(0), Launch(0), Return(0, true), Load(0), Report(0),
             Lock(LeaseLock.Advance(LEASE / 3)), Lock(LeaseLock.Tick(t)), Lock(LeaseLock.RenewError(t, false)),
             WatcherLost(0), WatcherCancel(0), WatcherEmit(0)];
    StepsMakeARun(ws, acts);
    SoloRun(r11, lock3);
  }

  lemma SoloRun(r: Run, lock: LeaseLock.World)
    ensures 0 in Solo(r, lock).runs && Solo(r, lock).runs[0] == r
  {
  }

  lemma StepsMakeARun(ws: seq<World>, acts: seq<Action>)
    requires |ws| == |acts| + 1 && IsStart(ws[0])
    requires forall i :: 0 <= i < |acts| ==> Step(ws[i], acts[i], ws[i + 1])
    ensures IsRun(ws, acts)
  {
    hide Enabled, Next;
    forall i | 0 <= i < |acts|
      ensures Enabled(ws[i], acts[i]) && ws[i + 1] == Next(ws[i], acts[i])
    {
      assert Step(ws[i], acts[i], ws[i + 1]);
    }
  }

  lemma AcquiredAlone(def: Def, t: LeaseLock.Token)
    returns (w0: World, w1: World, w2: World, r3: Run, lock: LeaseLock.World)
    requires def.onOneServer
    ensures IsStart(w0) && Step(w0, Spawn(0, def), w1)
    ensures Step(w1, TryDist(0, LeaseLock.Acquire(LeaseKey(def), t, LEASE)), w2)
    ensures Step(w2, TryMem(0), Solo(r3, lock))
    ensures r3 == Fresh(def).(phase := GotMem, token := t)
    ensures lock.now == 0 && t in lock.leases && lock.leases[t] == LeaseLock.FreshLease(LeaseKey(def), LEASE, 0)
  {
    var acquire, lock0 := LeaseLock.Acquire(LeaseKey(def), t, LEASE), LeaseLock.World(0, map[], map[], {});
    lock := LeaseLock.Next(lock0, acquire);
    assert lock.leases[t] == LeaseLock.FreshLease(LeaseKey(def), LEASE, 0);
    w0 := World(map[], map[], lock0);
    w1 := World(map[0 := Fresh(def)], map[], lock0);
    var r2 := Fresh(def).(phase := GotDist, token := t);
    w2 := World(map[0 := r2], map[], lock);
    r3 := r2.(phase := GotMem);
    hide Step, Solo, LeaseLock.Next, Fresh;
    Spawned(def, lock0);
    Acquired(def, t, lock0);
    LocalTaken(r2, lock);
  }

  lemma Spawned(def: Def, lock: LeaseLock.World)
    ensures Step(World(map[], map[], lock), Spawn(0, def), World(map[0 := Fresh(def)], map[], lock))
  {
    LockStandsStill(lock);
  }

  lemma Acquired(def: Def, t: LeaseLock.Token, lock0: LeaseLock.World)
    requires def.onOneServer && lock0 == LeaseLock.World(0, map[], map[], {})
    ensures var acquire := LeaseLock.Acquire(LeaseKey(def), t, LEASE);
            && LeaseLock.Enabled(lock0, acquire)
            && Step(World(map[0 := Fresh(def)], map[], lock0), TryDist(0, acquire),
                    World(map[0 := Fresh(def).(phase := GotDist, token := t)], map[], LeaseLock.Next(lock0, acquire)))
  {
    var r, acquire := Fresh(def), LeaseLock.Acquire(LeaseKey(def), t, LEASE);
    var r' := r.(phase := GotDist, token := t);
    assert r' == RunAfter(r, TryDist(0, acquire), true);
    hide RunAfter, LeaseLock.Next;
    assert map[0 := r][0 := r'] == map[0 := r'];
  }

  lemma RunTakes(r: Run)
    requires r.phase.GotDist?
    ensures CanStep(r, TryMem(0)) && RunAfter(r, TryMem(0), true) == r.(phase := GotMem)
  {
  }

  lemma LocalTaken(r: Run, lock: LeaseLock.World)
    requires r.phase.GotDist?
    ensures Step(World(map[0 := r], map[], lock), TryMem(0), Solo(r.(phase := GotMem), lock))
  {
    hide RunAfter, CanStep, LeaseLock.Next, LeaseLock.Enabled;
    var r' := r.(phase := GotMem);
    RunTakes(r);
    LockStandsStill(lock);
    var w := World(map[0 := r], map[], lock);
    assert LockStep(w, TryMem(0)) == LeaseLock.Advance(lock.now) && Got(w, TryMem(0), r.def);
    hide LockStep, Got;
    assert map[0 := r][0 := r'] == map[0 := r'];
  }

  lemma FinishedAlone(r3: Run, lock: LeaseLock.World) returns (r4: Run, r5: Run, r6: Run, r7: Run, r8: Run)
    requires r3.phase.GotMem? && r3.def.onOneServer && r3.events == [] && !r3.ctxDone && !r3.fired
    ensures Step(Solo(r3, lock), Watch(0), Solo(r4, lock)) && Step(Solo(r4, lock), Launch(0), Solo(r5, lock))
    ensures Step(Solo(r5, lock), Return(0, true), Solo(r6, lock)) && Step(Solo(r6, lock), Load(0), Solo(r7, lock))
    ensures Step(Solo(r7, lock), Report(0), Solo(r8, lock))
    ensures r8.def == r3.def && r8.token == r3.token && r8.watcher.Watching? && r8.events == [Started, Finished]
  {
    hide Step, Solo;
    r4, r5 := LaunchedAlone(r3, lock);
    r6 := SoloStep(r5, lock, Return(0, true));
    r7 := SoloStep(r6, lock, Load(0));
    assert r7.phase.Loaded? && r7.ok && !r7.saw && !r7.ctxDone && r7.events == [Started] && r7.watcher.Watching?;
    r8 := SoloStep(r7, lock, Report(0));
  }

  lemma LaunchedAlone(r3: Run, lock: LeaseLock.World) returns (r4: Run, r5: Run)
    requires r3.phase.GotMem? && r3.def.onOneServer && r3.events == [] && !r3.ctxDone && !r3.fired
    ensures Step(Solo(r3, lock), Watch(0), Solo(r4, lock)) && Step(Solo(r4, lock), Launch(0), Solo(r5, lock))
    ensures r5.def == r3.def && r5.token == r3.token && r5.watcher.Watching? && r5.events == [Started]
    ensures r5.phase.InCallback? && !r5.ctxDone && !r5.fired
  {
    hide Step, Solo;
    r4 := SoloStep(r3, lock, Watch(0));
    r5 := SoloStep(r4, lock, Launch(0));
  }

  lemma FailedRenewal(r: Run, lock: LeaseLock.World, t: LeaseLock.Token)
    returns (lock1: LeaseLock.World, lock2: LeaseLock.World, lock3: LeaseLock.World)
    requires lock.now == 0 && t in lock.leases && r.token == t
    requires lock.leases[t] == LeaseLock.FreshLease(LeaseKey(r.def), LEASE, 0)
    ensures Step(Solo(r, lock), Lock(LeaseLock.Advance(LEASE / 3)), Solo(r, lock1))
    ensures Step(Solo(r, lock1), Lock(LeaseLock.Tick(t)), Solo(r, lock2))
    ensures Step(Solo(r, lock2), Lock(LeaseLock.RenewError(t, false)), Solo(r, lock3))
    ensures Lost(lock3, t)
  {
    hide Step, Solo;
    lock1 := SoloLockStep(r, lock, LeaseLock.Advance(LEASE / 3));
    lock2 := SoloLockStep(r, lock1, LeaseLock.Tick(t));
    lock3 := SoloLockStep(r, lock2, LeaseLock.RenewError(t, false));
  }

  lemma LossSeen(r: Run, lock: LeaseLock.World) returns (r1: Run, r2: Run, r3: Run)
    requires r.watcher.Watching? && Lost(lock, r.token) && r.events == [Started, Finished]
    ensures Step(Solo(r, lock), WatcherLost(0), Solo(r1, lock))
    ensures Step(Solo(r1, lock), WatcherCancel(0), Solo(r2, lock))
    ensures Step(Solo(r2, lock), WatcherEmit(0), Solo(r3, lock))
    ensures r3.def == r.def && r3.events == [Started, Finished, SkippedLost]
  {
    hide Step, Solo;
    r1 := SoloStep(r, lock, WatcherLost(0));
    r2 := SoloStep(r1, lock, WatcherCancel(0));
    r3 := SoloStep(r2, lock, WatcherEmit(0));
  }
}
