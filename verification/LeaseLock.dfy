/**
 The Redis lease lock: an acquisition is a set-if-absent with a TTL, and the
 renewal loop and the release closure are a compare-and-set and a
 compare-and-delete on the token of that acquisition.  Any number of replicas
 race; every Redis command and every select of a renewal loop is one step.
 Times and durations are nanoseconds.
 */
module LeaseLock {

  const SECOND: int := 1_000_000_000

  datatype Key = Key(text: string)
  datatype Token = Token(text: string)

  // ----- arithmetic of the renewal loop -----------------------------------

  /** Period of the renewal ticker: a third of the TTL, at least one second. */
  function RenewInterval(ttl: int): int {
    if ttl / 3 < SECOND then SECOND else ttl / 3
  }

  /** Life granted by a renewal: the script takes whole seconds, truncated. */
  function RenewedLife(ttl: int): int {
    ttl / SECOND * SECOND
  }

  /** How late a renewal may run before the key can expire under its holder. */
  function Slack(ttl: int): int {
    RenewedLife(ttl) - RenewInterval(ttl)
  }

  /** A renewal loop can tolerate some lateness exactly from two seconds of TTL on. */
  lemma SlackIsPositiveFromTwoSeconds(ttl: int)
    requires ttl > 0
    ensures Slack(ttl) > 0 <==> ttl >= 2 * SECOND
    ensures RenewedLife(ttl) <= ttl
  {
  }

  // ----- the Redis server ---------------------------------------------------

  datatype Entry = Entry(token: Token, expiry: int)

  type Store = map<Key, Entry>

  /** A key exists until its expiry. */
  predicate Live(store: Store, key: Key, now: int) {
    key in store && now < store[key].expiry
  }

  predicate Owns(store: Store, key: Key, token: Token, now: int) {
    Live(store, key, now) && store[key].token == token
  }

  function SetIfAbsent(store: Store, key: Key, token: Token, ttl: int, now: int): Store {
    if Live(store, key, now) then store else store[key := Entry(token, now + ttl)]
  }

  /** Reply of the renew script: a zero for a foreign or missing key, and an
      error when the truncated expiry is zero, which Redis rejects. */
  datatype Reply = Renewed | Refused | Rejected

  function RenewReply(store: Store, key: Key, token: Token, life: int, now: int): Reply {
    if !Owns(store, key, token, now) then Refused
    else if life <= 0 then Rejected
    else Renewed
  }

  function RenewIfOwner(store: Store, key: Key, token: Token, life: int, now: int): Store {
    if RenewReply(store, key, token, life, now).Renewed?
    then store[key := Entry(token, now + life)] else store
  }

  function DeleteIfOwner(store: Store, key: Key, token: Token, now: int): Store {
    if Owns(store, key, token, now) then store - {key} else store
  }

  predicate SameEntry(a: Store, b: Store, key: Key) {
    (key in a <==> key in b) && (key in a ==> a[key] == b[key])
  }

  /** The shared server, updated by one command at a time. */
  class RedisServer {
    var store: Store

    constructor ()
      ensures store == map[]
    {
      store := map[];
    }

    method SetNX(key: Key, token: Token, ttl: int, now: int) returns (ok: bool)
      modifies this
      ensures ok <==> !Live(old(store), key, now)
      ensures store == SetIfAbsent(old(store), key, token, ttl, now)
      ensures store == if ok then old(store)[key := Entry(token, now + ttl)] else old(store)
      ensures ok && ttl > 0 ==> Owns(store, key, token, now)
    {
      ok := !(key in store && now < store[key].expiry);
      if ok {
        store := store[key := Entry(token, now + ttl)];
      }
    }

    method RunRenewScript(key: Key, token: Token, seconds: int, now: int) returns (reply: Reply)
      modifies this
      ensures reply == RenewReply(old(store), key, token, seconds * SECOND, now)
      ensures store == RenewIfOwner(old(store), key, token, seconds * SECOND, now)
      ensures reply.Renewed? <==> Owns(old(store), key, token, now) && seconds > 0
      ensures reply.Renewed? ==> store == old(store)[key := Entry(token, now + seconds * SECOND)]
      ensures !reply.Renewed? ==> store == old(store)
    {
      if key in store && now < store[key].expiry && store[key].token == token {
        if seconds <= 0 {
          return Rejected;
        }
        store := store[key := Entry(token, now + seconds * SECOND)];
        return Renewed;
      }
      return Refused;
    }

    method RunReleaseScript(key: Key, token: Token, now: int) returns (deleted: nat)
      modifies this
      ensures deleted == if Owns(old(store), key, token, now) then 1 else 0
      ensures store == DeleteIfOwner(old(store), key, token, now)
      ensures deleted == 1 ==> key !in store
      ensures deleted == 0 ==> store == old(store)
      ensures forall other :: other != key ==> SameEntry(store, old(store), other)
    {
      if key in store && now < store[key].expiry && store[key].token == token {
        store := store - {key};
        return 1;
      }
      return 0;
    }
  }

  // ----- replicas -----------------------------------------------------------

  /** Where the renewal goroutine of a lease is: in its select, between the
      tick and the reply of the renew script, or returned. */
  datatype Loop = Waiting | Renewing | Exited

  /** One successful acquisition.  `nextTick` is when its next renewal is due;
      `once` and `lostCloses` are the sync.Once and the closes of `lost`. */
  datatype Lease = Lease(key: Key, ttl: int, nextTick: int, loop: Loop,
                         stopClosed: bool, released: bool, once: bool, lostCloses: nat)

  datatype World = World(now: int, store: Store, leases: map<Token, Lease>, issued: set<Token>)

  /** Steps of any replica.  An `Error` step is a command whose reply was lost;
      `applied` says whether the server had executed it. */
  datatype Action =
    | Advance(to: int)
    | Acquire(key: Key, token: Token, ttl: int)
    | AcquireError(key: Key, token: Token, ttl: int, applied: bool)
    | Tick(token: Token)
    | RunRenew(token: Token)
    | RenewError(token: Token, applied: bool)
    | Exit(token: Token)
    | CloseStop(token: Token)
    | RunRelease(token: Token)
    | ReleaseError(token: Token, applied: bool)

  predicate Enabled(w: World, a: Action) {
    match a
    case Advance(to) => w.now <= to
    case Acquire(_, token, ttl) => token !in w.issued && ttl > 0
    case AcquireError(_, token, ttl, _) => token !in w.issued && ttl > 0
    case Tick(t) => t in w.leases && w.leases[t].loop.Waiting? && w.leases[t].nextTick <= w.now
    case RunRenew(t) => t in w.leases && w.leases[t].loop.Renewing?
    case RenewError(t, _) => t in w.leases && w.leases[t].loop.Renewing?
    case Exit(t) => t in w.leases && w.leases[t].loop.Waiting? && w.leases[t].stopClosed
    case CloseStop(t) => t in w.leases && !w.leases[t].stopClosed
    case RunRelease(t) => t in w.leases && w.leases[t].stopClosed && !w.leases[t].released
    case ReleaseError(t, _) => t in w.leases && w.leases[t].stopClosed && !w.leases[t].released
  }

  function SignalLost(l: Lease): Lease {
    if l.once then l else l.(once := true, lostCloses := l.lostCloses + 1)
  }

  function NextRound(l: Lease): Lease {
    l.(loop := Waiting, nextTick := l.nextTick + RenewInterval(l.ttl))
  }

  function FreshLease(key: Key, ttl: int, now: int): Lease {
    Lease(key, ttl, now + RenewInterval(ttl), Waiting, false, false, false, 0)
  }

  function Next(w: World, a: Action): World
    requires Enabled(w, a)
  {
    match a
    case Advance(to) => w.(now := to)
    case Acquire(key, token, ttl) =>
      w.(store := SetIfAbsent(w.store, key, token, ttl, w.now),
         issued := w.issued + {token},
         leases := if Live(w.store, key, w.now) then w.leases
                   else w.leases[token := FreshLease(key, ttl, w.now)])
    case AcquireError(key, token, ttl, applied) =>
      w.(store := if applied then SetIfAbsent(w.store, key, token, ttl, w.now) else w.store,
         issued := w.issued + {token})
    case Tick(t) =>
      w.(leases := w.leases[t := w.leases[t].(loop := Renewing)])
    case RunRenew(t) =>
      var l := w.leases[t];
      var life := RenewedLife(l.ttl);
      var l' := if RenewReply(w.store, l.key, t, life, w.now).Renewed? then l else SignalLost(l);
      w.(store := RenewIfOwner(w.store, l.key, t, life, w.now),
         leases := w.leases[t := NextRound(l')])
    case RenewError(t, applied) =>
      var l := w.leases[t];
      w.(store := if applied then RenewIfOwner(w.store, l.key, t, RenewedLife(l.ttl), w.now) else w.store,
         leases := w.leases[t := NextRound(SignalLost(l))])
    case Exit(t) =>
      w.(leases := w.leases[t := w.leases[t].(loop := Exited)])
    case CloseStop(t) =>
      w.(leases := w.leases[t := w.leases[t].(stopClosed := true)])
    case RunRelease(t) =>
      w.(store := DeleteIfOwner(w.store, w.leases[t].key, t, w.now),
         leases := w.leases[t := w.leases[t].(released := true)])
    case ReleaseError(t, applied) =>
      w.(store := if applied then DeleteIfOwner(w.store, w.leases[t].key, t, w.now) else w.store,
         leases := w.leases[t := w.leases[t].(released := true)])
  }

  /** States of a run and the actions between them. */
  ghost predicate IsRun(ws: seq<World>, acts: seq<Action>) {
    && |ws| == |acts| + 1
    && (ws[0].store == map[] && ws[0].leases == map[] && ws[0].issued == {})
    && forall i :: 0 <= i < |acts| ==> Enabled(ws[i], acts[i]) && ws[i + 1] == Next(ws[i], acts[i])
  }

  /** The replica still counts on the lock: it has not started to release it. */
  predicate Holds(w: World, t: Token) {
    t in w.leases && !w.leases[t].stopClosed
  }

  predicate OwnsLease(w: World, t: Token)
    requires t in w.leases
  {
    Owns(w.store, w.leases[t].key, t, w.now)
  }

  // ----- token safety, with no assumption on timing or errors ---------------

  /** The token an action acts for, if any. */
  predicate ActsFor(a: Action, t: Token) {
    !a.Advance? && a.token == t
  }

  /** Only the stored token's own replica can change or delete a live key. */
  lemma OnlyTheOwnerTouchesALiveKey(w: World, a: Action, key: Key)
    requires Enabled(w, a)
    requires Live(w.store, key, w.now)
    requires !ActsFor(a, w.store[key].token)
    ensures key in Next(w, a).store && Next(w, a).store[key] == w.store[key]
  {
  }

  /** No live key carries the token, although it was handed out. */
  ghost predicate Stale(w: World, t: Token) {
    && t in w.issued
    && forall key :: Live(w.store, key, w.now) ==> w.store[key].token != t
  }

  ghost predicate Accounted(w: World) {
    && (forall t :: t in w.leases ==> t in w.issued)
    && (forall t :: t in w.leases ==> w.leases[t].lostCloses == if w.leases[t].once then 1 else 0)
  }

  lemma StepAccounts(w: World, a: Action)
    requires Enabled(w, a) && Accounted(w)
    ensures Accounted(Next(w, a))
  {
  }

  lemma StepKeepsStale(w: World, a: Action, t: Token)
    requires Enabled(w, a) && Accounted(w) && Stale(w, t)
    ensures Stale(Next(w, a), t)
  {
  }

  /** On every run the lost channel of a lease is closed at most once. */
  lemma {:induction false} RunAccounts(ws: seq<World>, acts: seq<Action>, i: nat)
    requires IsRun(ws, acts) && i <= |acts|
    ensures Accounted(ws[i])
  {
    if i > 0 {
      RunAccounts(ws, acts, i - 1);
      StepAccounts(ws[i - 1], acts[i - 1]);
    }
  }

  /** A lost lease is never resurrected: once no live key carries a token, no
      later step of any replica, with any timing and any errors, brings it back. */
  lemma {:induction false} StaleForever(ws: seq<World>, acts: seq<Action>, t: Token, i: nat, j: nat)
    requires IsRun(ws, acts) && i <= j <= |acts|
    requires Stale(ws[i], t)
    ensures Stale(ws[j], t)
  {
    hide Stale, Enabled, Next;
    if i < j {
      StaleForever(ws, acts, t, i, j - 1);
      RunAccounts(ws, acts, j - 1);
      StepKeepsStale(ws[j - 1], acts[j - 1], t);
    }
  }

  /** After a lease went stale, each of its renewals and releases leaves the
      store as it is, and a renewal leaves `lost` closed, exactly once. */
  lemma StaleHolderIsHarmlessAndSignalled(ws: seq<World>, acts: seq<Action>, t: Token, i: nat, j: nat)
    requires IsRun(ws, acts) && i <= j < |acts|
    requires Stale(ws[i], t)
    requires ActsFor(acts[j], t)
    ensures ws[j + 1].store == ws[j].store
    ensures acts[j].RunRenew? || acts[j].RenewError? ==> ws[j + 1].leases[t].lostCloses == 1
  {
    StaleForever(ws, acts, t, i, j);
    RunAccounts(ws, acts, j);
    RunAccounts(ws, acts, j + 1);
  }

  predicate IsFailedRelease(a: Action, t: Token) {
    a.ReleaseError? && a.token == t
  }

  /** A lease is neither forgotten nor renamed, and only its own replica stops it. */
  lemma LeaseStays(w: World, a: Action, t: Token)
    requires Enabled(w, a) && Accounted(w) && t in w.leases
    ensures var w' := Next(w, a);
            && t in w'.leases && w'.leases[t].key == w.leases[t].key
            && w'.leases[t].stopClosed == (w.leases[t].stopClosed || a == CloseStop(t))
            && w'.leases[t].lostCloses >= w.leases[t].lostCloses
            && w'.leases[t].released == (w.leases[t].released || a == RunRelease(t) || IsFailedRelease(a, t))
  {
  }

  /** Every stored token was handed out, and one that has a lease is stored under
      the key of that lease. */
  ghost predicate StoredFits(store: Store, leases: map<Token, Lease>, issued: set<Token>) {
    && (forall key :: key in store ==> store[key].token in issued)
    && (forall key :: key in store && store[key].token in leases ==> leases[store[key].token].key == key)
  }

  lemma StepKeepsStored(w: World, a: Action)
    requires Enabled(w, a) && Accounted(w) && StoredFits(w.store, w.leases, w.issued)
    ensures var w' := Next(w, a); StoredFits(w'.store, w'.leases, w'.issued)
  {
  }

  lemma {:induction false} RunStores(ws: seq<World>, acts: seq<Action>, i: nat)
    requires IsRun(ws, acts) && i <= |acts|
    ensures StoredFits(ws[i].store, ws[i].leases, ws[i].issued)
  {
    if i > 0 {
      RunStores(ws, acts, i - 1);
      RunAccounts(ws, acts, i - 1);
      StepKeepsStored(ws[i - 1], acts[i - 1]);
    }
  }

  /** On every run, a lease is stale exactly when its replica does not own its key:
      there is nothing between owning the lock and having lost it for good. */
  lemma StaleIffNotOwner(ws: seq<World>, acts: seq<Action>, i: nat, t: Token)
    requires IsRun(ws, acts) && i <= |acts| && t in ws[i].leases
    ensures Stale(ws[i], t) <==> !OwnsLease(ws[i], t)
  {
    RunStores(ws, acts, i);
    RunAccounts(ws, acts, i);
  }

  /** A replica can always go on: it may try any key with a fresh token; a due tick
      is taken; a renewal that was begun ends one way or the other; a holder can stop
      at any time, even while a renewal is under way, and then release. */
  lemma ReplicasAreNeverStuck(w: World, key: Key, t: Token, ttl: int)
    ensures t !in w.issued && ttl > 0 ==> Enabled(w, Acquire(key, t, ttl))
    ensures Holds(w, t) ==> Enabled(w, CloseStop(t))
    ensures t in w.leases ==>
              var l := w.leases[t];
              && (l.stopClosed && !l.released ==> Enabled(w, RunRelease(t)))
              && (l.loop.Waiting? && l.nextTick <= w.now ==> Enabled(w, Tick(t)))
              && (l.loop.Renewing? ==> Enabled(w, RunRenew(t)))
              && (l.loop.Waiting? && l.stopClosed ==> Enabled(w, Exit(t)))
  {
  }

  // ----- what the commands of a run do ------------------------------------------------

  /** The steps i and i + 1 of a run agree on every key but one. */
  ghost predicate OthersKept(w: World, w': World, key: Key) {
    forall other :: other != key ==> SameEntry(w'.store, w.store, other)
  }

  /** An acquisition gets the lease exactly when no live key is there: then the key
      carries the token for the TTL, and the first renewal is due after a third of
      it, at least a second.  Otherwise nothing changes but that the token is used up. */
  lemma AcquireTakesAFreeKey(ws: seq<World>, acts: seq<Action>, i: nat, key: Key, t: Token, ttl: int)
    requires IsRun(ws, acts) && i < |acts| && acts[i] == Acquire(key, t, ttl)
    ensures var w, w' := ws[i], ws[i + 1];
            && (t in w'.leases <==> !(key in w.store && w.now < w.store[key].expiry))
            && (t in w'.leases ==>
                  && OwnsLease(w', t) && Holds(w', t) && OthersKept(w, w', key)
                  && w'.store[key].expiry == w.now + ttl
                  && w'.leases[t].nextTick == w.now + (if ttl < 3 * SECOND then SECOND else ttl / 3))
            && (t !in w'.leases ==> w'.store == w.store && w'.leases == w.leases)
  {
    RunAccounts(ws, acts, i);
  }

  /** A renewal by the owner sets the key to whole seconds of its TTL from now, and
      nothing else changes in the store; any other renewal, also one for less than
      a second, leaves the store and closes `lost`.  The next one is due a period later. */
  lemma RenewalExtendsTheKey(ws: seq<World>, acts: seq<Action>, i: nat, t: Token)
    requires IsRun(ws, acts) && i < |acts| && acts[i] == RunRenew(t)
    ensures var w, w' := ws[i], ws[i + 1];
            var l := w.leases[t];
            && t in w'.leases && w'.leases[t].loop.Waiting?
            && w'.leases[t].nextTick == l.nextTick + (if l.ttl < 3 * SECOND then SECOND else l.ttl / 3)
            && (if OwnsLease(w, t) && l.ttl >= SECOND
                then l.key in w'.store && w'.store[l.key] == Entry(t, w.now + l.ttl / SECOND * SECOND)
                     && OthersKept(w, w', l.key) && w'.leases[t].lostCloses == l.lostCloses
                else w'.store == w.store && w'.leases[t].lostCloses == 1)
  {
    RunAccounts(ws, acts, i);
    RunAccounts(ws, acts, i + 1);
  }

  /** An error gives up at once: a failed renewal closes `lost` even if the server
      had extended the key, a failed acquisition gives no lease even if the server
      had set it, and a command that did not arrive changes nothing in the store. */
  lemma ErrorsGiveUp(ws: seq<World>, acts: seq<Action>, i: nat)
    requires IsRun(ws, acts) && i < |acts|
    requires acts[i].RenewError? || acts[i].AcquireError? || acts[i].ReleaseError?
    ensures var w, w', t := ws[i], ws[i + 1], acts[i].token;
            && (acts[i].RenewError? ==> t in w'.leases && w'.leases[t].lostCloses == 1 && w'.leases[t].loop.Waiting?)
            && (acts[i].AcquireError? ==> t !in w'.leases && w'.leases == w.leases)
            && (acts[i].ReleaseError? ==> t in w'.leases && w'.leases[t].released)
            && (!acts[i].applied ==> w'.store == w.store)
            && (acts[i].AcquireError? && acts[i].applied && !Live(w.store, acts[i].key, w.now) ==>
                  w'.store == w.store[acts[i].key := Entry(t, w.now + acts[i].ttl)])
            && (acts[i].RenewError? && acts[i].applied && OwnsLease(w, t) && w.leases[t].ttl >= SECOND ==>
                  w'.store == w.store[w.leases[t].key := Entry(t, w.now + w.leases[t].ttl / SECOND * SECOND)])
  {
    RunAccounts(ws, acts, i);
    RunAccounts(ws, acts, i + 1);
  }

  /** The release script ran, or its reply was lost after it had. */
  predicate Releases(a: Action, t: Token) {
    a == RunRelease(t) || a == ReleaseError(t, true)
  }

  /** A release by the owner deletes the key and touches no other; a release by
      anybody else leaves the store as it is. */
  lemma ReleaseDeletesTheKey(ws: seq<World>, acts: seq<Action>, i: nat, t: Token)
    requires IsRun(ws, acts) && i < |acts| && Releases(acts[i], t)
    ensures var w, w', key := ws[i], ws[i + 1], ws[i].leases[t].key;
            && (OwnsLease(w, t) ==> key !in w'.store && OthersKept(w, w', key))
            && (!OwnsLease(w, t) ==> w'.store == w.store)
            && t in w'.leases && w'.leases[t].released
  {
  }

  /** So it frees the key for everybody: a fresh acquisition in the next state gets
      the lease. */
  lemma ReleaseFreesTheKey(ws: seq<World>, acts: seq<Action>, i: nat, t: Token, u: Token, ttl: int)
    requires IsRun(ws, acts) && i < |acts| && Releases(acts[i], t) && OwnsLease(ws[i], t)
    requires u !in ws[i + 1].issued && ttl > 0
    ensures var w', acquire := ws[i + 1], Acquire(ws[i].leases[t].key, u, ttl);
            && Enabled(w', acquire) && u in Next(w', acquire).leases
            && Holds(Next(w', acquire), u) && OwnsLease(Next(w', acquire), u)
  {
    ReleaseDeletesTheKey(ws, acts, i, t);
  }

  /** The renewal loop of a lease that is held has not returned. */
  lemma {:induction false} LoopRunsWhileHeld(ws: seq<World>, acts: seq<Action>, i: nat, t: Token)
    requires IsRun(ws, acts) && i <= |acts| && Holds(ws[i], t)
    ensures !ws[i].leases[t].loop.Exited?
  {
    if i > 0 && Holds(ws[i - 1], t) {
      LoopRunsWhileHeld(ws, acts, i - 1, t);
    }
  }

  // ----- continuity: timely renewals keep the lock --------------------------

  /** The due renewal of a held lease has not been delayed beyond the slack. */
  predicate Timely(w: World, t: Token) {
    Holds(w, t) ==> w.now < w.leases[t].nextTick + Slack(w.leases[t].ttl)
  }

  /** The hypotheses on one replica: it is timely in every state of the run and
      none of its renewals fails with an error.  Nothing is asked of the others. */
  ghost predicate WellServed(ws: seq<World>, acts: seq<Action>, t: Token) {
    && (forall i :: 0 <= i < |ws| ==> Timely(ws[i], t))
    && (forall i :: 0 <= i < |acts| ==> !(acts[i].RenewError? && acts[i].token == t))
  }

  /** The stored expiry leaves room for the next renewal, lateness included. */
  predicate Secured(w: World, t: Token) {
    Holds(w, t) ==>
      var l := w.leases[t];
      && l.ttl > 0
      && l.key in w.store && w.store[l.key].token == t
      && l.nextTick + Slack(l.ttl) <= w.store[l.key].expiry
      && l.lostCloses == 0
  }

  lemma StepKeepsSecured(w: World, a: Action, t: Token)
    requires Enabled(w, a) && Accounted(w) && Secured(w, t)
    requires Timely(w, t) && Timely(Next(w, a), t)
    requires !(a.RenewError? && a.token == t)
    requires a == RunRenew(t) ==> w.leases[t].nextTick <= w.now
    ensures Secured(Next(w, a), t)
  {
    if Holds(w, t) {
      var l := w.leases[t];
      if !ActsFor(a, t) {
        OnlyTheOwnerTouchesALiveKey(w, a, l.key);
      } else if a.RunRenew? {
        assert RenewedLife(l.ttl) > 0 by { SlackIsPositiveFromTwoSeconds(l.ttl); }
      }
    } else if a == CloseStop(t) {
    } else if a.Acquire? && a.token == t {
      SlackIsPositiveFromTwoSeconds(a.ttl);
    }
  }

  /** A renewal in flight was due. */
  predicate RenewalsWereDue(w: World) {
    forall t :: t in w.leases && w.leases[t].loop.Renewing? ==> w.leases[t].nextTick <= w.now
  }

  lemma {:induction false} RunRenewsWhenDue(ws: seq<World>, acts: seq<Action>, i: nat)
    requires IsRun(ws, acts) && i <= |acts|
    ensures RenewalsWereDue(ws[i])
  {
    if i > 0 {
      RunRenewsWhenDue(ws, acts, i - 1);
    }
  }

  lemma {:induction false} RunSecures(ws: seq<World>, acts: seq<Action>, t: Token, i: nat)
    requires IsRun(ws, acts) && i <= |acts|
    requires WellServed(ws, acts, t)
    ensures Secured(ws[i], t)
  {
    if i > 0 {
      RunSecures(ws, acts, t, i - 1);
      RunAccounts(ws, acts, i - 1);
      RunRenewsWhenDue(ws, acts, i - 1);
      assert Timely(ws[i - 1], t) && Timely(ws[i], t);
      StepKeepsSecured(ws[i - 1], acts[i - 1], t);
    }
  }

  /** Lease continuity: from its acquisition until it starts to release, a well
      served replica owns the live key and its lost channel stays open,
      whatever every other replica does. */
  lemma LeaseContinuity(ws: seq<World>, acts: seq<Action>, t: Token, i: nat)
    requires IsRun(ws, acts) && i <= |acts|
    requires WellServed(ws, acts, t)
    requires Holds(ws[i], t)
    ensures OwnsLease(ws[i], t) && ws[i].leases[t].lostCloses == 0
  {
    RunSecures(ws, acts, t, i);
    assert Timely(ws[i], t);
  }

  /** Ownership intervals of one key by different replicas are disjoint. */
  lemma HoldersOfOneKeyAreUnique(ws: seq<World>, acts: seq<Action>, t: Token, u: Token, i: nat)
    requires IsRun(ws, acts) && i <= |acts|
    requires WellServed(ws, acts, t) && WellServed(ws, acts, u)
    requires Holds(ws[i], t) && Holds(ws[i], u) && ws[i].leases[t].key == ws[i].leases[u].key
    ensures t == u
  {
    LeaseContinuity(ws, acts, t, i);
    LeaseContinuity(ws, acts, u, i);
  }

  /** Nobody else acquires a key while a well served replica holds it. */
  lemma AcquireFailsWhileHeld(ws: seq<World>, acts: seq<Action>, t: Token, i: nat)
    requires IsRun(ws, acts) && i < |acts|
    requires WellServed(ws, acts, t) && Holds(ws[i], t)
    requires acts[i].Acquire? && acts[i].key == ws[i].leases[t].key
    ensures acts[i].token !in ws[i + 1].leases && ws[i + 1].store == ws[i].store
  {
    LeaseContinuity(ws, acts, t, i);
    RunAccounts(ws, acts, i);
  }

  // ----- below two seconds the lock cannot be kept --------------------------

  /** The second renewal of this run is late by a nanosecond. */
  function LateActions(key: Key, token: Token, ttl: int): seq<Action> {
    [Acquire(key, token, ttl),
     Advance(SECOND), Tick(token), RunRenew(token),
     Advance(2 * SECOND + 1), Tick(token), RunRenew(token)]
  }

  ghost predicate Step(w: World, a: Action, w': World) {
    Enabled(w, a) && w' == Next(w, a)
  }

  lemma FirstAcquire(key: Key, token: Token, ttl: int) returns (w: World)
    requires ttl > 0
    ensures Step(World(0, map[], map[], {}), Acquire(key, token, ttl), w)
    ensures w.now == 0 && w.store == map[key := Entry(token, ttl)]
    ensures w.leases == map[token := FreshLease(key, ttl, 0)]
  {
    w := Next(World(0, map[], map[], {}), Acquire(key, token, ttl));
  }

  /** One renewal of a lease that was due and found in its select: the clock
      reaches or passes the tick, the loop takes it, the script runs. */
  lemma DueRenewal(w: World, token: Token, at: int)
    returns (w1: World, w2: World, w3: World)
    requires token in w.leases && w.leases[token].loop.Waiting? && w.leases[token].ttl > 0
    requires w.now <= at && w.leases[token].nextTick <= at <= w.leases[token].nextTick + 1
    ensures Step(w, Advance(at), w1) && Step(w1, Tick(token), w2) && Step(w2, RunRenew(token), w3)
    ensures var ttl := w.leases[token].ttl;
            LateState(w1, token, ttl, 1) && LateState(w2, token, ttl, 1) && LateState(w3, token, ttl, 1)
    ensures var l := w.leases[token];
            var r := RenewReply(w.store, l.key, token, RenewedLife(l.ttl), at);
            && token in w3.leases && w3.now == at
            && w3.store == RenewIfOwner(w.store, l.key, token, RenewedLife(l.ttl), at)
            && w3.leases[token] == NextRound(if r.Renewed? then l else SignalLost(l))
  {
    w1 := Next(w, Advance(at));
    w2 := Next(w1, Tick(token));
    w3 := Next(w2, RunRenew(token));
  }

  /** With any TTL under two seconds, a replica alone on the server, whose first
      renewal runs when it is due and the second a nanosecond later, has lost its
      lease.  The key is then past its expiry, not merely at it. */
  lemma ShortTtlLosesTheLease(key: Key, token: Token, ttl: int) returns (ws: seq<World>)
    requires 0 < ttl < 2 * SECOND
    ensures IsRun(ws, LateActions(key, token, ttl)) && LateByAtMost(ws, LateActions(key, token, ttl), token, ttl, 1)
    ensures |ws| == 8
    ensures Holds(ws[7], token) && !OwnsLease(ws[7], token) && ws[7].leases[token].lostCloses == 1
    ensures key in ws[7].store ==> ws[7].store[key].expiry < ws[7].now
  {
    hide Step, LateState, Holds, OwnsLease, FreshLease;
    var w0 := World(0, map[], map[], {});
    var w1 := FirstAcquire(key, token, ttl);
    assert !Holds(w0, token) && LateState(w0, token, ttl, 1) by { NothingHeld(w0, token, ttl); }
    var w2, w3, w4, w5, w6, w7 := TwoRenewals(key, token, ttl, w1);
    ws := [w0, w1, w2, w3, w4, w5, w6, w7];
    StepsMakeARun(ws, LateActions(key, token, ttl));
  }

  lemma NothingHeld(w: World, token: Token, ttl: int)
    requires w.leases == map[]
    ensures !Holds(w, token) && LateState(w, token, ttl, 1)
  {
  }

  lemma TwoRenewals(key: Key, token: Token, ttl: int, w1: World)
    returns (w2: World, w3: World, w4: World, w5: World, w6: World, w7: World)
    requires 0 < ttl < 2 * SECOND && w1.now == 0 && w1.store == map[key := Entry(token, ttl)]
    requires w1.leases == map[token := FreshLease(key, ttl, 0)]
    ensures Step(w1, Advance(SECOND), w2) && Step(w2, Tick(token), w3) && Step(w3, RunRenew(token), w4)
    ensures Step(w4, Advance(2 * SECOND + 1), w5) && Step(w5, Tick(token), w6) && Step(w6, RunRenew(token), w7)
    ensures LateState(w1, token, ttl, 1)
    ensures LateState(w2, token, ttl, 1) && LateState(w3, token, ttl, 1) && LateState(w4, token, ttl, 1)
    ensures LateState(w5, token, ttl, 1) && LateState(w6, token, ttl, 1) && LateState(w7, token, ttl, 1)
    ensures Holds(w7, token) && !OwnsLease(w7, token) && w7.leases[token].lostCloses == 1
    ensures key in w7.store ==> w7.store[key].expiry < w7.now
  {
    assert RenewedLife(ttl) == if ttl < SECOND then 0 else SECOND;
    hide Step, RenewedLife;
    w2, w3, w4 := DueRenewal(w1, token, SECOND);
    w5, w6, w7 := DueRenewal(w4, token, 2 * SECOND + 1);
  }

  lemma StepsMakeARun(ws: seq<World>, acts: seq<Action>)
    requires |ws| == |acts| + 1 && ws[0].store == map[] && ws[0].leases == map[] && ws[0].issued == {}
    requires forall i :: 0 <= i < |acts| ==> Step(ws[i], acts[i], ws[i + 1])
    ensures IsRun(ws, acts)
  {
    hide Enabled, Next;
    forall i | 0 <= i < |acts|
      ensures Enabled(ws[i], acts[i]) && ws[i + 1] == Next(ws[i], acts[i])
    {
      assert Step(ws[i], acts[i], ws[i + 1]);
    }
  }

  /** Renewals of a lease of this TTL run at most `late` after they are due, without errors. */
  ghost predicate LateByAtMost(ws: seq<World>, acts: seq<Action>, t: Token, ttl: int, late: int) {
    && (forall i :: 0 <= i < |ws| ==> LateState(ws[i], t, ttl, late))
    && (forall i :: 0 <= i < |acts| ==> !(acts[i].RenewError? && acts[i].token == t))
  }

  predicate LateState(w: World, t: Token, ttl: int, late: int) {
    Holds(w, t) ==> w.leases[t].ttl == ttl && w.now <= w.leases[t].nextTick + late
  }

  ghost predicate KeepsItsLease(ws: seq<World>, t: Token) {
    forall i :: 0 <= i < |ws| && Holds(ws[i], t) ==> OwnsLease(ws[i], t)
  }

  /** On every run, whatever the other replicas do, a lease of this TTL survives
      renewals that are late by that much. */
  ghost predicate Tolerates(ttl: int, late: int) {
    forall ws, acts, t :: IsRun(ws, acts) && LateByAtMost(ws, acts, t, ttl, late) ==> KeepsItsLease(ws, t)
  }

  /** The exact condition: some positive lateness is tolerated exactly when the
      TTL is at least two seconds, and then every one below the slack. */
  lemma LatenessToleratedIff(ttl: int)
    requires ttl > 0
    ensures (exists late :: late > 0 && Tolerates(ttl, late)) <==> ttl >= 2 * SECOND
    ensures forall late :: late < Slack(ttl) ==> Tolerates(ttl, late)
  {
    SlackIsPositiveFromTwoSeconds(ttl);
    forall late | late < Slack(ttl)
      ensures Tolerates(ttl, late)
    {
      SlackIsTolerated(ttl, late);
    }
    if ttl >= 2 * SECOND {
      assert Slack(ttl) > 1;
      assert Tolerates(ttl, 1);
    } else {
      forall late | late > 0
        ensures !Tolerates(ttl, late)
      {
        NoLatenessTolerated(ttl, late);
      }
    }
  }

  lemma SlackIsTolerated(ttl: int, late: int)
    requires late < Slack(ttl)
    ensures Tolerates(ttl, late)
  {
    hide IsRun, Slack;
    forall ws, acts, t | IsRun(ws, acts) && LateByAtMost(ws, acts, t, ttl, late)
      ensures KeepsItsLease(ws, t)
    {
      LateIsWellServed(ws, acts, t, ttl, late);
      forall i | 0 <= i < |ws| && Holds(ws[i], t)
        ensures OwnsLease(ws[i], t)
      {
        LengthOfRun(ws, acts);
        LeaseContinuity(ws, acts, t, i);
      }
    }
  }

  lemma NoLatenessTolerated(ttl: int, late: int)
    requires 0 < ttl < 2 * SECOND && late > 0
    ensures !Tolerates(ttl, late)
  {
    var key, token := Key("k"), Token("t");
    var ws := ShortTtlLosesTheLease(key, token, ttl);
    hide IsRun;
    var acts := LateActions(key, token, ttl);
    assert forall i :: 0 <= i < |ws| ==> LateState(ws[i], token, ttl, 1);
    assert LateByAtMost(ws, acts, token, ttl, late);
    assert !KeepsItsLease(ws, token);
  }

  lemma LengthOfRun(ws: seq<World>, acts: seq<Action>)
    requires IsRun(ws, acts)
    ensures |ws| == |acts| + 1
  {
  }

  lemma LateIsWellServed(ws: seq<World>, acts: seq<Action>, t: Token, ttl: int, late: int)
    requires LateByAtMost(ws, acts, t, ttl, late) && late < Slack(ttl)
    ensures WellServed(ws, acts, t)
  {
    forall i | 0 <= i < |ws|
      ensures Timely(ws[i], t)
    {
      assert LateState(ws[i], t, ttl, late);
    }
  }
}
