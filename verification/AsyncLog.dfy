/**
 The non-blocking log handler: producers put records on a bounded channel or
 drop them, one worker takes them off, and Shutdown closes the channel and waits
 for the worker.  Every channel operation is one step.
 */
module AsyncLog {

  datatype Record = Record(text: string)

  /** What the worker is doing: waiting on the channel, inside a handler, or
      returned, with `done` closed. */
  datatype Worker = Waiting | Handling(record: Record) | Returned

  /** `accepted` and `processed` record sends and handled records, `calls` the
      calls of Handle. */
  datatype World = World(capacity: nat, queue: seq<Record>, closed: bool, dropped: nat, worker: Worker,
                         accepted: seq<Record>, processed: seq<Record>, calls: nat)

  /** Handle with a closed channel panics, so it is not a step here. */
  datatype Action = Handle(record: Record) | Receive | Finish | Close | Exit | ShutdownReturnsNil

  predicate Enabled(w: World, a: Action) {
    match a
    case Handle(_) => !w.closed
    case Receive => w.worker.Waiting? && w.queue != []
    case Finish => w.worker.Handling?
    case Close => true
    case Exit => w.worker.Waiting? && w.closed && w.queue == []
    case ShutdownReturnsNil => w.closed && w.worker.Returned?
  }

  function Next(w: World, a: Action): World
    requires Enabled(w, a)
  {
    match a
    case Handle(r) =>
      if |w.queue| < w.capacity
      then w.(queue := w.queue + [r], accepted := w.accepted + [r], calls := w.calls + 1)
      else w.(dropped := w.dropped + 1, calls := w.calls + 1)
    case Receive => w.(worker := Handling(w.queue[0]), queue := w.queue[1..])
    case Finish => w.(worker := Waiting, processed := w.processed + [w.worker.record])
    case Close => w.(closed := true)
    case Exit => w.(worker := Returned)
    case ShutdownReturnsNil => w
  }

  function BufferSize(n: int): (r: nat)
    ensures r > 0 && (n > 0 ==> r == n) && (n <= 0 ==> r == 4096)
  {
    if n <= 0 then 4096 else n
  }

  ghost predicate IsRun(ws: seq<World>, acts: seq<Action>, bufferSize: int) {
    && |ws| == |acts| + 1 && ws[0] == World(BufferSize(bufferSize), [], false, 0, Waiting, [], [], 0)
    && forall i :: 0 <= i < |acts| ==> Enabled(ws[i], acts[i]) && ws[i + 1] == Next(ws[i], acts[i])
  }

  /** The channel and the drop counter, shared by all handlers of a tree. */
  class Core {
    const capacity: nat
    var queue: seq<Record>
    var closed: bool
    var dropped: nat

    constructor (bufferSize: int)
      ensures capacity == BufferSize(bufferSize) && queue == [] && !closed && dropped == 0
    {
      capacity := BufferSize(bufferSize);
      queue, closed, dropped := [], false, 0;
    }

    /** The object is the shared part of a state of the system. */
    ghost predicate Shows(w: World)
      reads this
    {
      capacity == w.capacity && queue == w.queue && closed == w.closed && dropped == w.dropped
    }

    /** The select of Handle: never blocks, and drops exactly when the channel is full. */
    method Handle(r: Record, ghost w: World) returns (queued: bool)
      requires Shows(w) && Enabled(w, Action.Handle(r))
      modifies this`queue, this`dropped
      ensures Shows(Next(w, Action.Handle(r)))
      ensures queued <==> Next(w, Action.Handle(r)).accepted == w.accepted + [r]
    {
      queued := |queue| < capacity;
      if queued {
        queue := queue + [r];
      } else {
        dropped := dropped + 1;
      }
    }

    /** One round of the worker's range loop over the channel: the next record,
        or the end of the loop once the channel is closed and empty. */
    method Receive(ghost w: World) returns (more: bool, r: Record)
      requires Shows(w) && (Enabled(w, Action.Receive) || Enabled(w, Exit))
      modifies this`queue
      ensures more <==> Enabled(w, Action.Receive)
      ensures more ==> Shows(Next(w, Action.Receive)) && Next(w, Action.Receive).worker == Handling(r)
      ensures !more ==> Shows(Next(w, Exit))
    {
      if queue == [] {
        return false, Record("");
      }
      more, r := true, queue[0];
      queue := queue[1..];
    }

    /** closeOne: the channel is closed by the first Shutdown only. */
    method Close(ghost w: World)
      requires Shows(w)
      modifies this`closed
      ensures Shows(Next(w, Action.Close))
    {
      if !closed {
        closed := true;
      }
    }
  }

  function InFlight(w: World): seq<Record> {
    if w.worker.Handling? then [w.worker.record] else []
  }

  predicate Inv(w: World) {
    && w.accepted == w.processed + InFlight(w) + w.queue
    && |w.accepted| + w.dropped == w.calls
    && |w.queue| <= w.capacity
    && (w.worker.Returned? ==> w.closed && w.queue == [])
  }

  lemma StepKeeps(w: World, a: Action)
    requires Enabled(w, a) && Inv(w)
    ensures Inv(Next(w, a))
  {
  }

  /** For every interleaving: the accepted records are, in order, the processed
      ones, the one being handled and the queued ones; accepted and dropped
      records add up to the calls; the queue stays within its capacity; and when
      Shutdown returns nil, everything accepted has been processed. */
  lemma {:induction false} RecordsAreConserved(ws: seq<World>, acts: seq<Action>, bufferSize: int, i: nat)
    requires IsRun(ws, acts, bufferSize) && i <= |acts|
    ensures ws[i].accepted == ws[i].processed + InFlight(ws[i]) + ws[i].queue
    ensures |ws[i].accepted| + ws[i].dropped == ws[i].calls
    ensures |ws[i].queue| <= ws[i].capacity == BufferSize(bufferSize)
    ensures i < |acts| && acts[i].ShutdownReturnsNil? ==> ws[i].processed == ws[i].accepted
  {
    RunKeeps(ws, acts, bufferSize, i);
  }

  /** A record is dropped exactly when the queue is full, and otherwise queued last. */
  lemma DropsOnlyWhenFull(ws: seq<World>, acts: seq<Action>, bufferSize: int, i: nat, r: Record)
    requires IsRun(ws, acts, bufferSize) && i < |acts| && acts[i] == Handle(r)
    ensures var w, w' := ws[i], ws[i + 1];
            if |w.queue| == BufferSize(bufferSize)
            then w'.dropped == w.dropped + 1 && w'.accepted == w.accepted && w'.queue == w.queue
            else w'.dropped == w.dropped && w'.accepted == w.accepted + [r] && w'.queue == w.queue + [r]
  {
    RunKeeps(ws, acts, bufferSize, i);
  }

  /** Shutdown completes: once the channel is closed, the worker can always go on
      until it has returned, and then Shutdown can return nil.  Producers are never
      blocked, and Shutdown may be called again. */
  lemma NobodyIsStuck(w: World, r: Record)
    ensures !w.closed ==> Enabled(w, Handle(r))
    ensures Enabled(w, Close)
    ensures w.closed ==>
              Enabled(w, Receive) || Enabled(w, Finish) || Enabled(w, Exit) || Enabled(w, ShutdownReturnsNil)
    ensures w.queue != [] && !w.worker.Returned? ==> Enabled(w, Receive) || Enabled(w, Finish)
  {
  }

  lemma {:induction false} RunKeeps(ws: seq<World>, acts: seq<Action>, bufferSize: int, i: nat)
    requires IsRun(ws, acts, bufferSize) && i <= |acts|
    ensures Inv(ws[i]) && ws[i].capacity == BufferSize(bufferSize)
  {
    if i > 0 {
      RunKeeps(ws, acts, bufferSize, i - 1);
      StepKeeps(ws[i - 1], acts[i - 1]);
    }
  }
}
