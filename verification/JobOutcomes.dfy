/**
 What a scheduled run reports and what it leaves behind: the outcome is what the
 callback returned, a run is skipped exactly when a lock is taken, and a run that
 is over has given both locks back.
 */
module JobOutcomes {
  import LeaseLock
  import opened JobRunner

  // ----- the outcome ------------------------------------------------------------------------

  function One(b: bool): nat {
    if b then 1 else 0
  }

  /** The run has passed its report with an outcome to tell. */
  predicate HasReported(r: Run) {
    !BeforeReport(r.phase) && !Silent(r)
  }

  /** Finished and failed, each by what the run holds as its result. */
  predicate KindBooks(r: Run) {
    && Count(r.health, Finished) == One(HasReported(r) && r.ok)
    && Count(r.health, Failed) == One(HasReported(r) && !r.ok)
    && Count(r.events, Finished) == One(r.told && r.ok)
    && Count(r.events, Failed) == One(r.told && !r.ok)
  }

  lemma KindsOfStep(r: Run, a: Action, got: bool)
    requires CanStep(r, a)
    ensures Count(Recorded(r, a, got), Finished) == One(a.Report? && !r.saw && r.ok)
    ensures Count(Recorded(r, a, got), Failed) == One(a.Report? && !r.saw && !r.ok)
    ensures Count(Delivered(r, a, got), Finished) == One(a.Report? && !r.saw && !r.ctxDone && r.ok)
    ensures Count(Delivered(r, a, got), Failed) == One(a.Report? && !r.saw && !r.ctxDone && !r.ok)
  {
  }

  lemma StepKeepsKinds(r: Run, a: Action, got: bool)
    requires CanStep(r, a) && Books(r) && KindBooks(r)
    ensures KindBooks(RunAfter(r, a, got))
  {
    KindsOfStep(r, a, got);
    ReportPhases(r, a, got);
    CountSum(r.events, Delivered(r, a, got), Finished);
    CountSum(r.events, Delivered(r, a, got), Failed);
    CountSum(r.health, Recorded(r, a, got), Finished);
    CountSum(r.health, Recorded(r, a, got), Failed);
    assert a.Return? ==> BeforeReport(r.phase) && BeforeReport(PhaseAfter(r, a, got));
    hide Count, Outcomes, Recorded, Delivered, WatcherAfter, PhaseAfter, CanStep, BeforeReport, WatcherBooks, LossBooks;
  }

  lemma {:induction false} KindsInRun(ws: seq<World>, acts: seq<Action>, i: nat, x: RunId)
    requires IsRun(ws, acts) && i <= |acts| && x in ws[i].runs
    ensures KindBooks(ws[i].runs[x]) && Books(ws[i].runs[x])
  {
    RunKeeps(ws, acts, i);
    BooksOf(ws[i].runs, x);
    hide Inv, Books, KindBooks, Next, Enabled;
    if i > 0 {
      if x in ws[i - 1].runs {
        KindsInRun(ws, acts, i - 1, x);
      }
      StepKeepsKindsOf(ws[i - 1], acts[i - 1], x);
    }
  }

  lemma StepKeepsKindsOf(w: World, a: Action, x: RunId)
    requires Enabled(w, a) && x in Next(w, a).runs && (x in w.runs ==> KindBooks(w.runs[x]) && Books(w.runs[x]))
    ensures KindBooks(Next(w, a).runs[x])
  {
    hide RunAfter, LockStep, LeaseLock.Next, LeaseLock.Enabled, NextMem, Books;
    if !a.Lock? {
      OtherRunsKept(w, a);
      if a.id == x && !a.Spawn? {
        StepKeepsKinds(w.runs[x], a, Got(w, a, w.runs[x].def));
      }
    }
  }

  /** The callback of the run returned so. */
  ghost predicate DidReturn(acts: seq<Action>, i: nat, x: RunId, ok: bool)
    requires i <= |acts|
  {
    exists k :: 0 <= k < i && acts[k] == Return(x, ok)
  }

  predicate HasReturned(r: Run) {
    r.launched && !r.panicked && !r.phase.InCallback?
  }

  /** What the run holds as its result is what the callback returned. */
  lemma {:induction false} ResultIsTheReturn(ws: seq<World>, acts: seq<Action>, i: nat, x: RunId, ok: bool)
    requires IsRun(ws, acts) && i <= |acts|
    ensures DidReturn(acts, i, x, ok) <==> x in ws[i].runs && HasReturned(ws[i].runs[x]) && ws[i].runs[x].ok == ok
  {
    hide Next, Enabled, Books, HasReturned, BooksFit, MemFits, LeasesFit;
    if i > 0 {
      ResultIsTheReturn(ws, acts, i - 1, x, ok);
      var w, a := ws[i - 1], acts[i - 1];
      if x in w.runs {
        RunKeeps(ws, acts, i - 1);
        BooksOf(w.runs, x);
      }
      StepOnResult(w, a, x, ok);
      DidReturnSoon(acts, i, x, ok);
      hide DidReturn;
    }
  }

  lemma DidReturnSoon(acts: seq<Action>, i: nat, x: RunId, ok: bool)
    requires 0 < i <= |acts|
    ensures DidReturn(acts, i, x, ok) <==> DidReturn(acts, i - 1, x, ok) || acts[i - 1] == Return(x, ok)
  {
  }

  predicate Result(runs: Runs, x: RunId, ok: bool) {
    x in runs && HasReturned(runs[x]) && runs[x].ok == ok
  }

  lemma StepOnResult(w: World, a: Action, x: RunId, ok: bool)
    requires Enabled(w, a) && (x in w.runs ==> Books(w.runs[x]))
    ensures Result(Next(w, a).runs, x, ok) <==> Result(w.runs, x, ok) || a == Return(x, ok)
  {
    hide PhaseAfter, WatcherAfter, Delivered, Recorded, LeaseLock.Next, NextMem, LockStep, WatcherBooks, LossBooks;
    if !a.Lock? {
      OtherRunsKept(w, a);
      if a.id == x && !a.Spawn? {
        ReturnPhases(w.runs[x], a, Got(w, a, w.runs[x].def));
      }
    }
  }

  lemma ReturnPhases(r: Run, a: Action, got: bool)
    requires CanStep(r, a) && LaunchBooks(r)
    ensures a.Return? || a.Panic? ==> r.phase.InCallback? && r.launched && !r.panicked
    ensures PhaseAfter(r, a, got).InCallback? <==> a.Launch? || (r.phase.InCallback? && !a.Return? && !a.Panic?)
    ensures a.Launch? ==> !r.launched
  {
  }

  /** The report of a run that has launched and joined its watcher is what its
      callback returned: finished exactly after a return without error, failed
      exactly after one with an error, in both cases unless the flag was found set;
      and listeners receive it under the same conditions if it was delivered at all. */
  lemma OutcomeIsWhatTheCallbackReturned(ws: seq<World>, acts: seq<Action>, i: nat, x: RunId)
    requires IsRun(ws, acts) && i <= |acts| && x in ws[i].runs
    requires AfterJoin(ws[i].runs[x].phase) && ws[i].runs[x].launched
    ensures var r := ws[i].runs[x];
            && (Count(r.health, Finished) == 1 <==> !r.saw && DidReturn(acts, i, x, true))
            && (Count(r.health, Failed) == 1 <==> !r.saw && DidReturn(acts, i, x, false))
            && (Count(r.events, Finished) == 1 <==> r.told && DidReturn(acts, i, x, true))
            && (Count(r.events, Failed) == 1 <==> r.told && DidReturn(acts, i, x, false))
  {
    KindsInRun(ws, acts, i, x);
    ResultIsTheReturn(ws, acts, i, x, true);
    ResultIsTheReturn(ws, acts, i, x, false);
    hide IsRun, DidReturn, Count, Outcomes, WatcherBooks;
  }

  // ----- the start --------------------------------------------------------------------------

  predicate StartBooks(r: Run) {
    && Count(r.events, Started) <= One(r.launched) && Count(r.health, Started) == 0
    && (r.launched && !r.ctxDone ==> Count(r.events, Started) == 1)
  }

  lemma StepKeepsStart(r: Run, a: Action, got: bool)
    requires CanStep(r, a) && LaunchBooks(r) && StartBooks(r)
    ensures StartBooks(RunAfter(r, a, got))
  {
    hide Count, Recorded, Delivered, PhaseAfter, WatcherAfter, CanStep;
    StartsOfStep(r, a, got);
    CountSum(r.events, Delivered(r, a, got), Started);
    CountSum(r.health, Recorded(r, a, got), Started);
    ReturnPhases(r, a, got);
  }

  lemma StartsOfStep(r: Run, a: Action, got: bool)
    requires CanStep(r, a)
    ensures Count(Recorded(r, a, got), Started) == 0
    ensures Count(Delivered(r, a, got), Started) == One(a.Launch? && !r.ctxDone)
  {
  }

  /** The start of a run is announced at most once, and for certain while its
      context is alive. */
  lemma {:induction false} StartIsAnnounced(ws: seq<World>, acts: seq<Action>, i: nat, x: RunId)
    requires IsRun(ws, acts) && i <= |acts| && x in ws[i].runs
    ensures StartBooks(ws[i].runs[x])
  {
    hide StartBooks, Next, Enabled;
    if i > 0 {
      if x in ws[i - 1].runs {
        StartIsAnnounced(ws, acts, i - 1, x);
        RunKeeps(ws, acts, i - 1);
        BooksOf(ws[i - 1].runs, x);
      }
      StepKeepsStartOf(ws[i - 1], acts[i - 1], x);
    }
  }

  lemma StepKeepsStartOf(w: World, a: Action, x: RunId)
    requires Enabled(w, a) && x in Next(w, a).runs
    requires x in w.runs ==> StartBooks(w.runs[x]) && LaunchBooks(w.runs[x])
    ensures StartBooks(Next(w, a).runs[x])
  {
    hide RunAfter, LockStep, LeaseLock.Next, LeaseLock.Enabled, NextMem;
    if !a.Lock? {
      OtherRunsKept(w, a);
      if a.id == x && !a.Spawn? {
        StepKeepsStart(w.runs[x], a, Got(w, a, w.runs[x].def));
      }
    }
  }

  // ----- delivery -----------------------------------------------------------------------------

  predicate Running(p: Phase) {
    BeforeReport(p) || p.Reported?
  }

  /** The context of a run ends before the run only by its timeout or by a lost lease. */
  predicate ContextBooks(r: Run) {
    && (Running(r.phase) && r.ctxDone ==> r.def.hasTimeout || r.fired)
    && (HasReported(r) && !r.told ==> r.def.hasTimeout || r.fired)
    && (r.phase.Cancelled? ==> r.ctxDone)
  }

  lemma StepKeepsContext(r: Run, a: Action, got: bool)
    requires CanStep(r, a) && Books(r) && ContextBooks(r)
    ensures ContextBooks(RunAfter(r, a, got))
  {
    ReportPhases(r, a, got);
    RunningPhases(r, a, got);
    hide Count, Outcomes, Recorded, Delivered, WatcherAfter, PhaseAfter, CanStep, LossBooks, OutcomeBooks, BeforeReport;
  }

  lemma RunningPhases(r: Run, a: Action, got: bool)
    requires CanStep(r, a)
    ensures Running(PhaseAfter(r, a, got)) ==> Running(r.phase) && !a.Cancel?
    ensures a.WatcherCancel? ==> r.watcher.SawLost?
    ensures a.Timeout? ==> r.def.hasTimeout
    ensures a.Report? ==> Running(r.phase)
    ensures PhaseAfter(r, a, got).Cancelled? ==> r.phase.Cancelled? || a.Cancel?
  {
  }

  lemma {:induction false} ContextsInRun(ws: seq<World>, acts: seq<Action>, i: nat, x: RunId)
    requires IsRun(ws, acts) && i <= |acts| && x in ws[i].runs
    ensures ContextBooks(ws[i].runs[x])
  {
    hide ContextBooks, Next, Enabled, Books;
    if i > 0 {
      if x in ws[i - 1].runs {
        ContextsInRun(ws, acts, i - 1, x);
        RunKeeps(ws, acts, i - 1);
        BooksOf(ws[i - 1].runs, x);
      }
      StepKeepsContextOf(ws[i - 1], acts[i - 1], x);
    }
  }

  lemma StepKeepsContextOf(w: World, a: Action, x: RunId)
    requires Enabled(w, a) && x in Next(w, a).runs
    requires x in w.runs ==> ContextBooks(w.runs[x]) && Books(w.runs[x])
    ensures ContextBooks(Next(w, a).runs[x])
  {
    hide RunAfter, LockStep, LeaseLock.Next, LeaseLock.Enabled, NextMem, Books;
    if !a.Lock? {
      OtherRunsKept(w, a);
      if a.id == x && !a.Spawn? {
        StepKeepsContext(w.runs[x], a, Got(w, a, w.runs[x].def));
      }
    }
  }

  /** Without a timeout and without a lost lease the outcome of a run that returned
      is always delivered. */
  lemma DeliveredUnlessCancelled(ws: seq<World>, acts: seq<Action>, i: nat, x: RunId)
    requires IsRun(ws, acts) && i <= |acts| && x in ws[i].runs
    requires AfterJoin(ws[i].runs[x].phase) && ws[i].runs[x].launched && !ws[i].runs[x].panicked
    requires !ws[i].runs[x].def.hasTimeout && !ws[i].runs[x].fired
    ensures ws[i].runs[x].told
  {
    ContextsInRun(ws, acts, i, x);
    RunKeeps(ws, acts, i);
    BooksOf(ws[i].runs, x);
    hide IsRun, BooksFit, MemFits, LeasesFit, LossBooks, OutcomeBooks;
  }

  // ----- skipped runs -----------------------------------------------------------------------

  /** A run that has not yet tried both locks has reported nothing. */
  predicate QuietStart(r: Run) {
    BeforeWatch(r.phase) ==> r.events == [] && r.health == []
  }

  lemma {:induction false} StartsQuietly(ws: seq<World>, acts: seq<Action>, i: nat, x: RunId)
    requires IsRun(ws, acts) && i <= |acts| && x in ws[i].runs
    ensures QuietStart(ws[i].runs[x])
  {
    hide QuietStart, Next, Enabled;
    if i > 0 {
      if x in ws[i - 1].runs {
        StartsQuietly(ws, acts, i - 1, x);
        RunKeeps(ws, acts, i - 1);
        BooksOf(ws[i - 1].runs, x);
      }
      StepKeepsQuiet(ws[i - 1], acts[i - 1], x);
    }
  }

  lemma StepKeepsQuiet(w: World, a: Action, x: RunId)
    requires Enabled(w, a) && x in Next(w, a).runs
    requires x in w.runs ==> QuietStart(w.runs[x]) && WatcherBooks(w.runs[x])
    ensures QuietStart(Next(w, a).runs[x])
  {
    hide LockStep, LeaseLock.Next, LeaseLock.Enabled, NextMem;
    if !a.Lock? {
      OtherRunsKept(w, a);
      if a.id == x && !a.Spawn? {
        QuietSteps(w.runs[x], a, Got(w, a, w.runs[x].def));
      }
    }
    hide PhaseAfter, WatcherAfter, Delivered, Recorded;
  }

  lemma QuietSteps(r: Run, a: Action, got: bool)
    requires CanStep(r, a) && WatcherBooks(r)
    ensures BeforeWatch(PhaseAfter(r, a, got)) ==>
              BeforeWatch(r.phase) && Recorded(r, a, got) == [] && Delivered(r, a, got) == []
  {
  }

  /** Somebody else's attempt or an error stands in the way of the lease. */
  predicate LeaseRefused(w: World, def: Def, step: LeaseLock.Action) {
    var key := LeaseLock.Key(def.name.text);
    step.AcquireError? || (key in w.lock.store && w.lock.now < w.lock.store[key].expiry)
  }

  /** A run on one server is skipped as busy exactly when the lease is refused, and
      this is then all it reports; otherwise it goes on, and owns the key of its job. */
  lemma SkippedExactlyIfBusy(ws: seq<World>, acts: seq<Action>, i: nat, x: RunId, step: LeaseLock.Action)
    requires IsRun(ws, acts) && i < |acts| && acts[i] == TryDist(x, step)
    ensures x in ws[i].runs && x in ws[i + 1].runs
    ensures var r, r' := ws[i].runs[x], ws[i + 1].runs[x];
            if r.def.onOneServer && LeaseRefused(ws[i], r.def, step)
            then r'.phase.Over? && r'.events == r'.health == [SkippedBusy]
            else r'.phase.GotDist? && r'.events == r'.health == []
                 && (r.def.onOneServer ==> OwnsItsKey(ws[i + 1].lock, r'))
  {
    StartsQuietly(ws, acts, i, x);
    OtherRunsKept(ws[i], acts[i]);
    if ws[i].runs[x].def.onOneServer && Acquires(ws[i].lock, step) {
      AcquiredOwns(ws[i].lock, step);
    }
    hide WatcherAfter, NextMem, LeaseLock.Next;
  }

  lemma AcquiredOwns(lock: LeaseLock.World, step: LeaseLock.Action)
    requires LeaseLock.Enabled(lock, step) && Acquires(lock, step)
    ensures var lock' := LeaseLock.Next(lock, step);
            LeaseLock.Owns(lock'.store, step.key, step.token, lock'.now)
  {
  }

  // ----- the local lock -----------------------------------------------------------------------

  /** The run is between taking its local lock and giving it back. */
  predicate UsesLocal(r: Run) {
    r.def.withoutOverlap && MemPhase(r.phase)
  }

  /** Every local lock is held by a run that uses it. */
  ghost predicate MemOwned(runs: Runs, mem: LocalLocks) {
    forall key :: key in mem ==>
      mem[key] in runs && UsesLocal(runs[mem[key]]) && MemKey(runs[mem[key]].def) == key
  }

  lemma LocalStays(r: Run, a: Action, got: bool)
    requires CanStep(r, a)
    ensures MemPhase(r.phase) && !a.FreeMem? ==> MemPhase(PhaseAfter(r, a, got))
    ensures a.TryMem? && (got || !r.def.withoutOverlap) ==> MemPhase(PhaseAfter(r, a, got))
    ensures a.TryMem? || a.FreeMem? ==> !a.TryDist?
    ensures a.TryMem? ==> !MemPhase(r.phase)
  {
  }

  lemma StepKeepsOwned(w: World, a: Action)
    requires Enabled(w, a) && MemOwned(w.runs, w.mem) && MemFits(w.runs, w.mem)
    ensures MemOwned(Next(w, a).runs, Next(w, a).mem)
  {
    hide RunAfter, LeaseLock.Next, LeaseLock.Enabled, LockStep, MemOwned, MemFits;
    if a.Spawn? {
      SpawnKeepsOwned(w.runs, w.mem, a.id, a.def);
    } else if !a.Lock? {
      RunStepKeepsOwned(w.runs, w.mem, a, Got(w, a, w.runs[a.id].def));
    }
  }

  lemma SpawnKeepsOwned(runs: Runs, mem: LocalLocks, id: RunId, def: Def)
    requires MemOwned(runs, mem) && id !in runs
    ensures MemOwned(runs[id := Fresh(def)], mem)
  {
  }

  lemma RunStepKeepsOwned(runs: Runs, mem: LocalLocks, a: Action, got: bool)
    requires !a.Lock? && !a.Spawn? && a.id in runs && CanStep(runs[a.id], a)
    requires MemOwned(runs, mem) && MemFits(runs, mem) && (a.TryMem? ==> got == (MemKey(runs[a.id].def) !in mem))
    ensures MemOwned(runs[a.id := RunAfter(runs[a.id], a, got)], NextMem(mem, a, runs[a.id].def))
  {
    LocalStays(runs[a.id], a, got);
    MemPhases(runs[a.id], a, got);
    hide PhaseAfter, WatcherAfter, Delivered, Recorded, CanStep, MemPhase;
  }

  lemma {:induction false} LocksAreOwned(ws: seq<World>, acts: seq<Action>, i: nat)
    requires IsRun(ws, acts) && i <= |acts|
    ensures MemOwned(ws[i].runs, ws[i].mem)
  {
    hide Next, Enabled;
    if i > 0 {
      LocksAreOwned(ws, acts, i - 1);
      RunKeeps(ws, acts, i - 1);
      hide MemOwned, BooksFit, LeasesFit, MemFits;
      StepKeepsOwned(ws[i - 1], acts[i - 1]);
    }
  }

  /** Another run of the same job on the same process is at work. */
  ghost predicate Overlaps(w: World, def: Def) {
    def.withoutOverlap && exists y :: y in w.runs && UsesLocal(w.runs[y]) && MemKey(w.runs[y].def) == MemKey(def)
  }

  /** A run is skipped for overlap exactly when another run of its job is at work on
      its process, and this is then all it reports; so a run that has ended has
      given the lock back.  Otherwise it takes the lock. */
  lemma SkippedExactlyIfOverlapping(ws: seq<World>, acts: seq<Action>, i: nat, x: RunId)
    requires IsRun(ws, acts) && i < |acts| && acts[i] == TryMem(x)
    ensures x in ws[i].runs && x in ws[i + 1].runs
    ensures var r, r' := ws[i].runs[x], ws[i + 1].runs[x];
            if Overlaps(ws[i], r.def)
            then r'.phase.MemFreed? && r'.events == r'.health == [SkippedOverlap] && ws[i + 1].mem == ws[i].mem
            else r'.phase.GotMem? && r'.events == r'.health == []
                 && (r.def.withoutOverlap ==> OwnsMem(ws[i + 1].mem, x, r.def))
  {
    StartsQuietly(ws, acts, i, x);
    RunKeeps(ws, acts, i);
    LocksAreOwned(ws, acts, i);
    OtherRunsKept(ws[i], acts[i]);
    if ws[i].runs[x].def.withoutOverlap {
      LockIsTakenIff(ws[i], ws[i].runs[x].def);
    }
    hide BooksFit, LeasesFit, MemFits, MemOwned, WatcherAfter, LeaseLock.Next;
  }

  lemma LockIsTakenIff(w: World, def: Def)
    requires MemOwned(w.runs, w.mem) && MemFits(w.runs, w.mem) && def.withoutOverlap
    ensures MemKey(def) in w.mem <==> Overlaps(w, def)
  {
    if MemKey(def) in w.mem {
      var y := w.mem[MemKey(def)];
      assert y in w.runs && UsesLocal(w.runs[y]);
    }
  }

  // ----- the lease is given back ----------------------------------------------------------------

  /** A run that has stopped its lease, and one that is over and was not busy, has
      closed and released it. */
  predicate GivenBack(lock: LeaseLock.World, r: Run) {
    && (r.def.onOneServer && r.phase.Stopped? ==> r.token in lock.leases && lock.leases[r.token].stopClosed)
    && (r.def.onOneServer && r.phase.Over? && SkippedBusy !in r.health ==>
          r.token in lock.leases && lock.leases[r.token].stopClosed && lock.leases[r.token].released)
  }

  lemma LeaseStaysGivenBack(lock: LeaseLock.World, step: LeaseLock.Action, r: Run)
    requires LeaseLock.Enabled(lock, step) && LeaseLock.Accounted(lock) && GivenBack(lock, r)
    ensures GivenBack(LeaseLock.Next(lock, step), r)
  {
    if r.token in lock.leases {
      LeaseLock.LeaseStays(lock, step, r.token);
    }
    hide LeaseLock.Next, LeaseLock.Enabled, LeaseLock.Accounted;
  }

  /** The phases at the end of a run follow its own stop and release. */
  lemma EndPhases(r: Run, a: Action, got: bool)
    requires CanStep(r, a)
    ensures var p := PhaseAfter(r, a, got);
            && (p.Stopped? ==> a.StopLease? || (r.phase.Stopped? && !a.FreeDist? && !a.TryDist?))
            && (p.Over? ==>
                  || a.FreeDist? || (r.phase.Over? && !a.TryDist?)
                  || (a.TryDist? && r.def.onOneServer && Recorded(r, a, got) == [SkippedBusy]))
            && (a.FreeDist? ==> r.phase.Stopped? && (r.def.onOneServer ==> IsRelease(r, a.step)))
  {
  }

  lemma StepGivesBack(w: World, a: Action)
    requires Enabled(w, a) && LeaseLock.Accounted(w.lock) && !a.Lock? && !a.Spawn?
    requires GivenBack(w.lock, w.runs[a.id]) && LeasesFit(w.runs, w.lock)
    ensures GivenBack(LeaseLock.Next(w.lock, LockStep(w, a)), NextRun(w, a))
  {
    var r, got, step := w.runs[a.id], Got(w, a, w.runs[a.id].def), LockStep(w, a);
    EndPhases(r, a, got);
    TokenAndFlag(r, a, got);
    LeaseStaysGivenBack(w.lock, step, r);
    if r.token in w.lock.leases {
      LeaseLock.LeaseStays(w.lock, step, r.token);
    }
    LeasePhases(r, a, got);
    hide PhaseAfter, WatcherAfter, Delivered, Recorded, LeaseLock.Next, LeaseLock.Enabled, LeaseLock.Accounted;
  }

  lemma {:induction false} GivesBack(ws: seq<World>, acts: seq<Action>, i: nat, x: RunId)
    requires IsRun(ws, acts) && i <= |acts| && x in ws[i].runs
    ensures GivenBack(ws[i].lock, ws[i].runs[x])
  {
    hide GivenBack, Next, Enabled, BooksFit, MemFits, LeasesFit;
    if i > 0 {
      if x in ws[i - 1].runs {
        GivesBack(ws, acts, i - 1, x);
      }
      RunKeeps(ws, acts, i - 1);
      StepGivesBackOf(ws[i - 1], acts[i - 1], x);
    }
  }

  lemma StepGivesBackOf(w: World, a: Action, x: RunId)
    requires Enabled(w, a) && Inv(w) && x in Next(w, a).runs && (x in w.runs ==> GivenBack(w.lock, w.runs[x]))
    ensures GivenBack(Next(w, a).lock, Next(w, a).runs[x])
  {
    hide RunAfter, LockStep, LeaseLock.Next, LeaseLock.Enabled, NextMem, BooksFit, MemFits, LeasesFit;
    if x in w.runs {
      LeaseStaysGivenBack(w.lock, LockStep(w, a), w.runs[x]);
    }
    if !a.Lock? {
      OtherRunsKept(w, a);
      if a.id == x && !a.Spawn? {
        StepGivesBack(w, a);
      }
    }
  }

  /** A run that is over holds no local lock, and unless it was busy has stopped and
      released its lease. */
  lemma OverMeansGivenBack(ws: seq<World>, acts: seq<Action>, i: nat, x: RunId)
    requires IsRun(ws, acts) && i <= |acts| && x in ws[i].runs && ws[i].runs[x].phase.Over?
    ensures forall key :: key in ws[i].mem ==> ws[i].mem[key] != x
    ensures var r, leases := ws[i].runs[x], ws[i].lock.leases;
            r.def.onOneServer && SkippedBusy !in r.health ==>
              r.token in leases && leases[r.token].stopClosed && leases[r.token].released
  {
    LocksAreOwned(ws, acts, i);
    GivesBack(ws, acts, i, x);
  }

  /** The release of a run that still owns its key frees the job for the next one:
      the key is gone from the server and no other key is touched. */
  lemma LastStepFreesTheKey(ws: seq<World>, acts: seq<Action>, i: nat, x: RunId, step: LeaseLock.Action)
    requires IsRun(ws, acts) && i < |acts| && acts[i] == FreeDist(x, step)
    requires x in ws[i].runs && ws[i].runs[x].def.onOneServer && (step.RunRelease? || step.applied)
    requires ws[i].runs[x].token in ws[i].lock.leases
    requires LeaseLock.OwnsLease(ws[i].lock, ws[i].runs[x].token)
    ensures var key := ws[i].lock.leases[ws[i].runs[x].token].key;
            key !in ws[i + 1].lock.store && LeaseLock.OthersKept(ws[i].lock, ws[i + 1].lock, key)
  {
    LocksRun(ws, acts);
    assert LockStep(ws[i], acts[i]) == step && step.token == ws[i].runs[x].token;
    LeaseLock.ReleaseDeletesTheKey(Locks(ws), LockSteps(ws, acts), i, ws[i].runs[x].token);
    hide IsRun, LeaseLock.IsRun, Enabled, Next;
  }

  // ----- no run is stuck ------------------------------------------------------------------------

  /** The run got a lease. */
  predicate Leased(r: Run) {
    r.def.onOneServer && !r.phase.Begin? && SkippedBusy !in r.health
  }

  /** A run that goes on was not busy; leases of different runs differ; and a lease
      is released at the end of its run only. */
  ghost predicate LeaseBooks(runs: Runs, lock: LeaseLock.World) {
    && (forall id :: id in runs && !runs[id].phase.Over? ==> SkippedBusy !in runs[id].health)
    && (forall id :: id in runs && Leased(runs[id]) ==> LeaseKept(lock, runs[id]))
    && (forall id, other ::
          (id in runs && other in runs && Leased(runs[id]) && Leased(runs[other])
           && runs[id].token == runs[other].token) ==> id == other)
  }

  predicate LeaseKept(lock: LeaseLock.World, r: Run) {
    r.token in lock.leases && (!r.phase.Over? ==> !lock.leases[r.token].released)
  }

  /** Getting and keeping a lease, from one step to the next. */
  lemma LeasedAfter(r: Run, a: Action, got: bool)
    requires CanStep(r, a) && (!r.phase.Over? ==> SkippedBusy !in r.health)
    ensures var r' := RunAfter(r, a, got);
            && (!r'.phase.Over? ==> SkippedBusy !in r'.health)
            && (Leased(r') <==> Leased(r) || (a.TryDist? && r.def.onOneServer && got && a.step.Acquire?))
            && (a.TryDist? ==> !Leased(r)) && (r.phase.Over? ==> r'.phase.Over?)
            && (a.FreeDist? ==> r'.phase.Over? && (r.def.onOneServer ==> Leased(r)))
  {
    BusyEnds(r, a, got);
    assert forall e :: e in r.health + Recorded(r, a, got) <==> e in r.health || e in Recorded(r, a, got);
    hide Recorded, Delivered, WatcherAfter;
  }

  lemma BusyEnds(r: Run, a: Action, got: bool)
    requires CanStep(r, a)
    ensures SkippedBusy in Recorded(r, a, got) <==>
              a.TryDist? && r.def.onOneServer && !(got && a.step.Acquire?)
    ensures SkippedBusy in Recorded(r, a, got) ==> PhaseAfter(r, a, got).Over?
    ensures r.phase.Over? ==> PhaseAfter(r, a, got).Over?
    ensures !PhaseAfter(r, a, got).Begin? || (r.phase.Begin? && !a.TryDist?)
    ensures a.TryDist? ==> r.phase.Begin?
  {
  }

  /** What a step means for the lease of a run, its own or another's. */
  lemma LeaseKeptBy(w: World, a: Action, id: RunId)
    requires Enabled(w, a) && LeaseLock.Accounted(w.lock) && LeaseBooks(w.runs, w.lock) && !a.Lock? && !a.Spawn?
    requires id in w.runs && Leased(w.runs[id]) && (id == a.id ==> !a.FreeDist?)
    ensures LeaseKept(LeaseLock.Next(w.lock, LockStep(w, a)), w.runs[id])
  {
    var t, step := w.runs[id].token, LockStep(w, a);
    LeaseLock.LeaseStays(w.lock, step, t);
    if a.FreeDist? {
      LeasedAfter(w.runs[a.id], a, true);
    }
    hide RunAfter, LeaseLock.Next, LeaseLock.Accounted;
  }

  lemma StepKeepsLeaseBooks(w: World, a: Action)
    requires Enabled(w, a) && LeaseLock.Accounted(w.lock) && LeaseBooks(w.runs, w.lock) && !a.Lock? && !a.Spawn?
    ensures LeaseBooks(w.runs[a.id := NextRun(w, a)], LeaseLock.Next(w.lock, LockStep(w, a)))
  {
    hide RunAfter, LeaseLock.Next, LeaseLock.Enabled, LeaseLock.Accounted, Leased, LeaseKept, LockStep;
    var r, got := w.runs[a.id], Got(w, a, w.runs[a.id].def);
    var r', lock' := NextRun(w, a), LeaseLock.Next(w.lock, LockStep(w, a));
    LeasedAfter(r, a, got);
    OwnLeaseKept(w, a);
    forall id | id in w.runs && id != a.id && Leased(w.runs[id])
      ensures LeaseKept(lock', w.runs[id]) && (Leased(r') ==> r'.token != w.runs[id].token)
    {
      LeaseKeptBy(w, a, id);
      OwnTokenIsNew(w, a, id);
    }
  }

  lemma OwnLeaseKept(w: World, a: Action)
    requires Enabled(w, a) && LeaseLock.Accounted(w.lock) && LeaseBooks(w.runs, w.lock) && !a.Lock? && !a.Spawn?
    ensures Leased(NextRun(w, a)) ==> LeaseKept(LeaseLock.Next(w.lock, LockStep(w, a)), NextRun(w, a))
  {
    var r, got, step := w.runs[a.id], Got(w, a, w.runs[a.id].def), LockStep(w, a);
    LeasedAfter(r, a, got);
    TokenAndFlag(r, a, got);
    if Leased(r) && !a.FreeDist? {
      LeaseKeptBy(w, a, a.id);
    } else if Leased(r) {
      LeaseLock.LeaseStays(w.lock, step, r.token);
    } else if a.TryDist? && r.def.onOneServer && Acquires(w.lock, a.step) {
      AcquiredIsFresh(w.lock, a.step);
      TakenToken(r, a);
    }
    hide RunAfter, LeaseLock.Next, LeaseLock.Enabled, LeaseLock.Accounted, Leased;
  }

  lemma TakenToken(r: Run, a: Action)
    requires CanStep(r, a) && a.TryDist? && r.def.onOneServer && a.step.Acquire?
    ensures RunAfter(r, a, true).token == a.step.token
  {
  }

  lemma AcquiredIsFresh(lock: LeaseLock.World, step: LeaseLock.Action)
    requires LeaseLock.Enabled(lock, step) && Acquires(lock, step)
    ensures var lock' := LeaseLock.Next(lock, step);
            step.token in lock'.leases && !lock'.leases[step.token].released && step.token !in lock.issued
  {
  }

  lemma OwnTokenIsNew(w: World, a: Action, id: RunId)
    requires Enabled(w, a) && LeaseLock.Accounted(w.lock) && LeaseBooks(w.runs, w.lock) && !a.Lock? && !a.Spawn?
    requires id in w.runs && id != a.id && Leased(w.runs[id])
    ensures Leased(NextRun(w, a)) ==> NextRun(w, a).token != w.runs[id].token
  {
    var r, got := w.runs[a.id], Got(w, a, w.runs[a.id].def);
    LeasedAfter(r, a, got);
    TokenAndFlag(r, a, got);
    if a.TryDist? && r.def.onOneServer && Acquires(w.lock, a.step) {
      AcquiredIsFresh(w.lock, a.step);
      TakenToken(r, a);
    }
    hide RunAfter, Leased;
  }

  lemma {:induction false} LeaseBooksInRun(ws: seq<World>, acts: seq<Action>, i: nat)
    requires IsRun(ws, acts) && i <= |acts|
    ensures LeaseBooks(ws[i].runs, ws[i].lock)
  {
    hide Next, Enabled;
    if i > 0 {
      LeaseBooksInRun(ws, acts, i - 1);
      RunKeeps(ws, acts, i - 1);
      hide LeaseBooks, BooksFit, MemFits, LeasesFit, LeaseLock.Accounted;
      StepKeepsAllLeases(ws[i - 1], acts[i - 1]);
    }
  }

  lemma StepKeepsAllLeases(w: World, a: Action)
    requires Enabled(w, a) && LeaseLock.Accounted(w.lock) && LeaseBooks(w.runs, w.lock)
    ensures LeaseBooks(Next(w, a).runs, Next(w, a).lock)
  {
    if !a.Lock? && !a.Spawn? {
      StepKeepsLeaseBooks(w, a);
      hide LeaseBooks, RunAfter, LeaseLock.Next;
    } else {
      forall id | id in w.runs && Leased(w.runs[id])
        ensures LeaseKept(LeaseLock.Next(w.lock, LockStep(w, a)), w.runs[id])
      {
        LeaseLock.LeaseStays(w.lock, LockStep(w, a), w.runs[id].token);
      }
      hide LeaseKept, LeaseLock.Next, LeaseLock.Enabled, LeaseLock.Accounted;
      assert a.Spawn? ==> !Leased(Fresh(a.def)) && SkippedBusy !in Fresh(a.def).health;
      hide Leased, Fresh;
    }
  }

  /** Every run that is not over can take a step of its own: no lock, no lease and no
      join of the watcher holds it up for ever. */
  lemma RunsAreNeverStuck(ws: seq<World>, acts: seq<Action>, i: nat, x: RunId, t: LeaseLock.Token, ttl: int)
    returns (a: Action)
    requires IsRun(ws, acts) && i <= |acts| && x in ws[i].runs && !ws[i].runs[x].phase.Over?
    requires t !in ws[i].lock.issued && ttl > 0
    ensures !a.Lock? && !a.Spawn? && a.id == x && Enabled(ws[i], a)
  {
    RunKeeps(ws, acts, i);
    BooksOf(ws[i].runs, x);
    ContextsInRun(ws, acts, i, x);
    GivesBack(ws, acts, i, x);
    LeaseBooksInRun(ws, acts, i);
    hide IsRun, BooksFit, MemFits;
    a := StepOf(ws[i], x, t, ttl);
  }

  lemma StepOf(w: World, x: RunId, t: LeaseLock.Token, ttl: int) returns (a: Action)
    requires x in w.runs && !w.runs[x].phase.Over? && t !in w.lock.issued && ttl > 0
    requires Books(w.runs[x]) && ContextBooks(w.runs[x]) && GivenBack(w.lock, w.runs[x])
    requires LeaseBooks(w.runs, w.lock) && LeasesFit(w.runs, w.lock)
    ensures !a.Lock? && !a.Spawn? && a.id == x && Enabled(w, a)
  {
    hide LossBooks, OutcomeBooks, LaunchBooks, Enabled;
    var r := w.runs[x];
    match r.phase
    case Begin =>
      a := TryDist(x, LeaseLock.Acquire(LeaseKey(r.def), t, ttl));
      CanBegin(w, x, t, ttl);
    case MemFreed =>
      a := StopLease(x);
      CanStop(w, x);
    case Stopped =>
      a := FreeDist(x, LeaseLock.RunRelease(r.token));
      CanRelease(w, x);
    case _ => a := MiddleStep(w, x);
  }

  lemma CanBegin(w: World, x: RunId, t: LeaseLock.Token, ttl: int)
    requires x in w.runs && w.runs[x].phase.Begin? && t !in w.lock.issued && ttl > 0
    ensures Enabled(w, TryDist(x, LeaseLock.Acquire(LeaseKey(w.runs[x].def), t, ttl)))
  {
    LockStandsStill(w.lock);
  }

  lemma CanStop(w: World, x: RunId)
    requires x in w.runs && w.runs[x].phase.MemFreed? && LeasesFit(w.runs, w.lock)
    ensures Enabled(w, StopLease(x))
  {
    LockStandsStill(w.lock);
    assert w.runs[x].def.onOneServer ==> UsesLease(w.runs[x]);
  }

  lemma CanRelease(w: World, x: RunId)
    requires x in w.runs && w.runs[x].phase.Stopped? && LeaseBooks(w.runs, w.lock) && GivenBack(w.lock, w.runs[x])
    ensures Enabled(w, FreeDist(x, LeaseLock.RunRelease(w.runs[x].token)))
  {
    LockStandsStill(w.lock);
    assert w.runs[x].def.onOneServer ==> Leased(w.runs[x]);
  }

  /** The steps that need nothing of the locks. */
  lemma MiddleStep(w: World, x: RunId) returns (a: Action)
    requires x in w.runs && WatcherBooks(w.runs[x]) && ContextBooks(w.runs[x])
    requires var p := w.runs[x].phase; !p.Begin? && !p.MemFreed? && !p.Stopped? && !p.Over?
    ensures !a.Lock? && !a.Spawn? && a.id == x && Enabled(w, a)
  {
    var r := w.runs[x];
    a := match r.phase
         case GotDist => TryMem(x)
         case GotMem => Watch(x)
         case Watched => Launch(x)
         case InCallback => Return(x, true)
         case Returned => Load(x)
         case Loaded => Report(x)
         case Reported => Cancel(x)
         case Joined => FreeMem(x)
         case _ =>
           (match r.watcher
            case Watching => WatcherDone(x)
            case SawLost => WatcherCancel(x)
            case HasCancelled => WatcherEmit(x)
            case _ => Join(x));
    LockStandsStill(w.lock);
    assert CanStep(r, a);
    assert LockStep(w, a) == LeaseLock.Advance(w.lock.now);
    hide CanStep, LockStep, WatcherBooks, ContextBooks, LeaseLock.Enabled;
  }
}
