/**
 All interleavings of calls on the broker session wrapper. A call is a thread; the sections
 under the wrapper's own lock are single steps, the lock of a record is held across several.
 */
module BrokerMachine {
  import opened Wrappers
  import opened BrokerSessions

  /** Where a call stands. `Pending({})` is a call that has returned. */
  datatype Op =
    | Queued(id: nat, asked: Execution)                   // schedule: waits for the lock of its record
    | Inside(id: nat, asked: Execution)                   // schedule: holds the lock
    | Answered(id: nat, named: bool, terminal: bool)      // schedule: the inner runner answered
    | Sweeping(id: nat, rest: set<nat>)                   // cleanup: holds the lock
    | Pending(ids: set<nat>)                              // records that remain to be cleaned up

  const RETURNED := Pending({})

  datatype Network = Offline | Brokered | Open

  /** The part of the execution request that the wrapper rewrites. */
  datatype Execution = Execution(network: Network, directInternet: bool, session: Option<nat>)

  /** One brokered dispatch to the inner runner. */
  datatype Call = Call(identity: string, fingerprint: string, execution: Execution)

  /** One dispatch to the inner runner past the broker. */
  datatype Bypass = Bypass(identity: string, brokered: bool)

  /** `holders` says which thread holds the lock of a record, `closer` which thread runs Close. */
  datatype World = World(
    b: Broker,
    holders: map<nat, nat>,
    threads: seq<Op>,
    closer: Option<nat>,
    calls: seq<Call>,
    bypasses: seq<Bypass>)

  const INITIAL := World(EMPTY, map[], [], None, [], [])

  datatype Move =
    | Schedule(identity: string, fingerprint: string, brokered: bool, asked: Execution, c: Creation)
    | TryLock(t: nat)
    | Mislabel(t: nat)
    | InnerFails(t: nat)
    | InnerAnswers(t: nat, named: bool, terminal: bool)
    | RegisterTask(t: nat)
    | Find(task: string)
    | LockNext(t: nat, id: nat)
    | Release(t: nat, ok: bool)
    | ForgetRecord(t: nat)
    | Close

  predicate Allowed(w: World, move: Move) {
    match move
    case Schedule(_, _, _, _, _) => true
    case TryLock(t) =>
      t < |w.threads| && w.threads[t].Queued? && w.threads[t].id !in w.holders && w.threads[t].id in w.b.records
    case Mislabel(t) => t < |w.threads| && w.threads[t].Inside? && w.threads[t].id in w.b.records
    case InnerFails(t) => t < |w.threads| && w.threads[t].Inside? && w.threads[t].id in w.b.records
    case InnerAnswers(t, _, _) => t < |w.threads| && w.threads[t].Inside? && w.threads[t].id in w.b.records
    case RegisterTask(t) => t < |w.threads| && w.threads[t].Answered? && w.threads[t].id in w.b.records
    case Find(_) => true
    case LockNext(t, id) =>
      && t < |w.threads| && w.threads[t].Pending? && id in w.threads[t].ids
      && id !in w.holders && id in w.b.records
    case Release(t, _) =>
      && t < |w.threads| && w.threads[t].Sweeping? && w.threads[t].id in w.b.records
      && w.b.records[w.threads[t].id].phase.Closing? && w.b.records[w.threads[t].id].phase.released < 3
    case ForgetRecord(t) =>
      && t < |w.threads| && w.threads[t].Sweeping? && w.threads[t].id in w.b.records
      && w.b.records[w.threads[t].id].phase == Closing(3)
    case Close => true
  }

  function Unlock(w: World, id: nat): World {
    w.(holders := w.holders - {id})
  }

  function Goto(w: World, t: nat, op: Op): World
    requires t < |w.threads|
  {
    w.(threads := w.threads[t := op])
  }

  function Spawn(w: World, op: Op): World {
    w.(threads := w.threads + [op])
  }

  function Prepared(asked: Execution, id: nat): Execution {
    asked.(network := Brokered, directInternet := false, session := Some(id))
  }

  function Dispatched(w: World, id: nat, asked: Execution): World
    requires id in w.b.records
  {
    var r := w.b.records[id];
    w.(calls := w.calls + [Call(r.identity, r.fingerprint, Prepared(asked, id))])
  }

  function After(w: World, move: Move): World
    requires Allowed(w, move)
  {
    match move
    case Schedule(identity, fingerprint, brokered, asked, c) =>
      var (b, entry) := EnterSchedule(w.b, identity, fingerprint, brokered, c);
      var next := w.(b := b, bypasses := if entry.Direct? then w.bypasses + [Bypass(identity, brokered)] else w.bypasses);
      Spawn(next, if entry.Use? then Queued(entry.id, asked) else RETURNED)
    case TryLock(t) =>
      var op := w.threads[t];
      if w.b.records[op.id].phase.Live? then Goto(w.(holders := w.holders[op.id := t]), t, Inside(op.id, op.asked))
      else Goto(w, t, RETURNED)
    case Mislabel(t) =>
      var id := w.threads[t].id;
      Goto(w.(b := BeginCleanup(w.b, id)), t, Sweeping(id, {}))
    case InnerFails(t) =>
      var op := w.threads[t];
      Goto(Unlock(Dispatched(w, op.id, op.asked), op.id), t, RETURNED)
    case InnerAnswers(t, named, terminal) =>
      var op := w.threads[t];
      Goto(Dispatched(w, op.id, op.asked), t, Answered(op.id, named, terminal))
    case RegisterTask(t) =>
      var op := w.threads[t];
      var b := Register(w.b, op.id, op.named);
      if op.terminal then Goto(w.(b := BeginCleanup(b, op.id)), t, Sweeping(op.id, {}))
      else Goto(Unlock(w.(b := b), op.id), t, RETURNED)
    case Find(task) =>
      Spawn(w, if task in w.b.byTaskID then Pending({w.b.byTaskID[task]}) else RETURNED)
    case LockNext(t, id) =>
      var rest := w.threads[t].ids - {id};
      if w.b.records[id].phase.Live? then
        Goto(w.(b := BeginCleanup(w.b, id), holders := w.holders[id := t]), t, Sweeping(id, rest))
      else Goto(w, t, Pending(rest))
    case Release(t, ok) => w.(b := ReleaseNext(w.b, w.threads[t].id, ok))
    case ForgetRecord(t) =>
      var op := w.threads[t];
      Goto(Unlock(w.(b := Forget(w.b, op.id)), op.id), t, Pending(op.rest))
    case Close =>
      if w.b.closed then Spawn(w, RETURNED)
      else Spawn(w.(b := w.b.(closed := true), closer := Some(|w.threads|)), Pending(w.b.byIdentity.Values))
  }

  ghost predicate RunsTo(w: World, moves: seq<Move>, v: World)
    decreases |moves|
  {
    if |moves| == 0 then w == v
    else Allowed(w, moves[0]) && RunsTo(After(w, moves[0]), moves[1..], v)
  }

  ghost predicate Reachable(w: World) {
    exists moves :: RunsTo(INITIAL, moves, w)
  }

  // --- The invariant

  predicate Holds(op: Op, id: nat) {
    (op.Inside? || op.Answered? || op.Sweeping?) && op.id == id
  }

  /** What a call may assume about the records it points at. */
  ghost predicate OpOk(op: Op, t: nat, records: map<nat, Record>, holders: map<nat, nat>) {
    match op
    case Queued(id, _) => id in records
    case Inside(id, _) => id in records && id in holders && holders[id] == t && records[id].phase.Live?
    case Answered(id, _, _) => id in records && id in holders && holders[id] == t && records[id].phase.Live?
    case Sweeping(id, rest) =>
      && id in records && id in holders && holders[id] == t && rest <= records.Keys
      && records[id].phase.Closing? && records[id].phase.released <= 3
    case Pending(ids) => ids <= records.Keys
  }

  /** A lock is held by a call that says so, and a record is closing only under its lock. */
  ghost predicate Locks(w: World) {
    && (forall t :: 0 <= t < |w.threads| ==> OpOk(w.threads[t], t, w.b.records, w.holders))
    && (forall id :: id in w.holders ==> w.holders[id] < |w.threads| && Holds(w.threads[w.holders[id]], id))
    && (forall id :: id in w.b.records && w.b.records[id].phase.Closing? ==>
          id in w.holders && w.holders[id] < |w.threads| && w.threads[w.holders[id]].Sweeping?)
  }

  /** A record is in the identity map exactly until it is forgotten. */
  ghost predicate ByIdentity(b: Broker) {
    && (forall id :: id in b.records && !b.records[id].phase.Gone? ==>
          b.records[id].identity in b.byIdentity && b.byIdentity[b.records[id].identity] == id)
    && (forall k :: k in b.byIdentity ==>
          && b.byIdentity[k] in b.records
          && b.records[b.byIdentity[k]].identity == k && !b.records[b.byIdentity[k]].phase.Gone?)
  }

  /** The same for the task map and records whose task id is known. */
  ghost predicate ByTask(b: Broker) {
    && (forall id :: id in b.records && b.records[id].named && !b.records[id].phase.Gone? ==>
          b.records[id].identity in b.byTaskID && b.byTaskID[b.records[id].identity] == id)
    && (forall k :: k in b.byTaskID ==>
          && b.byTaskID[k] in b.records && b.records[b.byTaskID[k]].named
          && b.records[b.byTaskID[k]].identity == k && !b.records[b.byTaskID[k]].phase.Gone?)
  }

  /** The position of a resource in the order of release. */
  function Turn(r: Resource): nat {
    match r
    case Listener(_) => 0
    case Session(_) => 1
    case Directory(_) => 2
  }

  /** The record still owns the resource. */
  predicate Owns(records: map<nat, Record>, r: Resource) {
    && r.id in records
    && (records[r.id].phase.Live? || (records[r.id].phase.Closing? && records[r.id].phase.released <= Turn(r)))
  }

  /** Whatever is live is owned by one record or was refused to be given back. */
  ghost predicate Accounted(b: Broker) {
    && (forall r :: r in b.live <==> Owns(b.records, r) || r in b.leaked)
    && (forall r :: r in b.leaked ==> !Owns(b.records, r) && r.id < b.next)
    && (forall id :: id in b.records ==> id < b.next)
  }

  /** After Close every record that is left is still on the closer's list. */
  ghost predicate ClosedList(w: World) {
    && (w.b.closed <==> w.closer.Some?)
    && (w.closer.Some? ==>
          && w.closer.value < |w.threads|
          && (w.threads[w.closer.value].Pending? || w.threads[w.closer.value].Sweeping?)
          && forall id :: id in w.b.records && !w.b.records[id].phase.Gone? ==> Listed(w.threads[w.closer.value], id))
  }

  predicate Listed(op: Op, id: nat) {
    (op.Pending? && id in op.ids) || (op.Sweeping? && (id == op.id || id in op.rest))
  }

  /** The call was made for the record whose session it carries, through the broker only. */
  predicate Matches(records: map<nat, Record>, c: Call) {
    && c.execution.network == Brokered && !c.execution.directInternet && c.execution.session.Some?
    && c.execution.session.value in records
    && records[c.execution.session.value].identity == c.identity
    && records[c.execution.session.value].fingerprint == c.fingerprint
  }

  ghost predicate CallsMatch(records: map<nat, Record>, calls: seq<Call>) {
    forall i :: 0 <= i < |calls| ==> Matches(records, calls[i])
  }

  /** Only requests that ask for no broker go past it. */
  ghost predicate BypassesAllowed(bypasses: seq<Bypass>) {
    forall i :: 0 <= i < |bypasses| ==> !bypasses[i].brokered
  }

  ghost predicate Inv(w: World) {
    BypassesAllowed(w.bypasses) && Locks(w) && ByIdentity(w.b) && ByTask(w.b) && Accounted(w.b) && ClosedList(w) && CallsMatch(w.b.records, w.calls)
  }

  // --- The maps and the resources, one broker operation at a time

  ghost predicate Tidy(b: Broker) {
    ByIdentity(b) && ByTask(b) && Accounted(b)
  }

  lemma CreateIsAccounted(b: Broker, identity: string, fingerprint: string, c: Creation)
    requires Accounted(b)
    ensures Accounted(Create(b, identity, fingerprint, c))
  {
  }

  lemma CreateIsTidy(b: Broker, identity: string, fingerprint: string, c: Creation)
    requires Tidy(b) && identity !in b.byIdentity
    ensures Tidy(Create(b, identity, fingerprint, c))
  {
    CreateIsAccounted(b, identity, fingerprint, c);
    hide Accounted;
  }

  lemma RegisterIsTidy(b: Broker, id: nat, named: bool)
    requires Tidy(b) && id in b.records && b.records[id].phase.Live?
    ensures Tidy(Register(b, id, named))
  {
  }

  lemma BeginIsTidy(b: Broker, id: nat)
    requires Tidy(b) && id in b.records && b.records[id].phase.Live?
    ensures Tidy(BeginCleanup(b, id))
  {
  }

  lemma ReleaseIsAccounted(b: Broker, id: nat, ok: bool)
    requires Accounted(b) && id in b.records && b.records[id].phase.Closing? && b.records[id].phase.released < 3
    ensures Accounted(ReleaseNext(b, id, ok))
  {
  }

  lemma ReleaseIsTidy(b: Broker, id: nat, ok: bool)
    requires Tidy(b) && id in b.records && b.records[id].phase.Closing? && b.records[id].phase.released < 3
    ensures Tidy(ReleaseNext(b, id, ok))
  {
    ReleaseIsAccounted(b, id, ok);
    ReleaseKeepsMaps(b, id, ok);
    hide Accounted, ByIdentity, ByTask, ReleaseNext;
  }

  lemma ReleaseKeepsMaps(b: Broker, id: nat, ok: bool)
    requires id in b.records && b.records[id].phase.Closing? && b.records[id].phase.released < 3
    ensures ByIdentity(b) ==> ByIdentity(ReleaseNext(b, id, ok))
    ensures ByTask(b) ==> ByTask(ReleaseNext(b, id, ok))
  {
  }

  /** The entries that go are the record's own: no newer record can have taken them. */
  lemma ForgetIsTidy(b: Broker, id: nat)
    requires Tidy(b) && id in b.records && b.records[id].phase == Closing(3)
    ensures Tidy(Forget(b, id))
  {
  }

  // --- The locks

  /** Outside one record nothing changes, and no record disappears. */
  ghost predicate Elsewhere(w: World, v: World, id: nat) {
    && v.b.records.Keys == w.b.records.Keys
    && (forall k :: k in w.b.records && k != id ==> v.b.records[k] == w.b.records[k])
    && (forall k :: k != id ==> (k in v.holders <==> k in w.holders))
    && (forall k :: k in w.holders && k != id ==> v.holders[k] == w.holders[k])
  }

  predicate Free(w: World, t: nat, id: nat) {
    id in w.holders ==> w.holders[id] == t
  }

  /** A call that moves under the lock of a record, or takes or drops it, keeps the locks in order. */
  lemma StepKeepsLocks(w: World, v: World, t: nat, id: nat)
    requires Locks(w) && t < |w.threads| && Free(w, t, id)
    requires forall k :: Holds(w.threads[t], k) ==> k == id
    requires |v.threads| == |w.threads| && v.threads == w.threads[t := v.threads[t]] && Elsewhere(w, v, id)
    requires OpOk(v.threads[t], t, v.b.records, v.holders)
    requires id in v.holders ==> v.holders[id] == t && Holds(v.threads[t], id)
    requires id in v.b.records && v.b.records[id].phase.Closing? ==> id in v.holders && v.threads[t].Sweeping?
    ensures Locks(v)
  {
    forall u | 0 <= u < |v.threads|
      ensures OpOk(v.threads[u], u, v.b.records, v.holders)
    {
      if u != t {
        assert OpOk(w.threads[u], u, w.b.records, w.holders);
        assert v.threads[u] == w.threads[u];
      }
    }
    forall k | k in v.holders
      ensures v.holders[k] < |v.threads| && Holds(v.threads[v.holders[k]], k)
    {
      if k != id {
        assert Holds(w.threads[w.holders[k]], k);
      }
    }
  }

  /** A new call holds no lock. */
  lemma SpawnKeepsLocks(w: World, v: World)
    requires Locks(w) && v.holders == w.holders
    requires |v.threads| == |w.threads| + 1 && v.threads == w.threads + [v.threads[|w.threads|]]
    requires w.b.records.Keys <= v.b.records.Keys
    requires forall k :: k in w.b.records ==> v.b.records[k] == w.b.records[k]
    requires forall k :: k in v.b.records && v.b.records[k].phase.Closing? ==> k in w.b.records
    requires v.threads[|w.threads|].Queued? || v.threads[|w.threads|].Pending?
    requires OpOk(v.threads[|w.threads|], |w.threads|, v.b.records, v.holders)
    ensures Locks(v)
  {
    forall u | 0 <= u < |v.threads|
      ensures OpOk(v.threads[u], u, v.b.records, v.holders)
    {
      if u < |w.threads| {
        assert OpOk(w.threads[u], u, w.b.records, w.holders);
        assert v.threads[u] == w.threads[u];
      }
    }
  }

  /** A move by which a call enters. */
  predicate Enters(move: Move) {
    move.Schedule? || move.Find? || move.Close?
  }

  /** A move of a cleanup. */
  predicate Sweeps(move: Move) {
    move.LockNext? || move.Release? || move.ForgetRecord?
  }

  lemma EntryKeepsLocks(w: World, move: Move)
    requires Locks(w) && ByIdentity(w.b) && ByTask(w.b) && Accounted(w.b) && Enters(move)
    ensures Locks(After(w, move))
  {
    SpawnKeepsLocks(w, After(w, move));
  }

  lemma SweepKeepsLocks(w: World, move: Move)
    requires Locks(w) && Allowed(w, move) && Sweeps(move)
    ensures Locks(After(w, move))
  {
    StepKeepsLocks(w, After(w, move), move.t, if move.LockNext? then move.id else w.threads[move.t].id);
  }

  lemma CallKeepsLocks(w: World, move: Move)
    requires Locks(w) && Allowed(w, move) && !Enters(move) && !Sweeps(move)
    ensures Locks(After(w, move))
  {
    StepKeepsLocks(w, After(w, move), move.t, w.threads[move.t].id);
  }

  lemma MoveKeepsLocks(w: World, move: Move)
    requires Inv(w) && Allowed(w, move)
    ensures Locks(After(w, move))
  {
    hide After, Locks, ByIdentity, ByTask, Accounted;
    if Enters(move) {
      EntryKeepsLocks(w, move);
    } else if Sweeps(move) {
      SweepKeepsLocks(w, move);
    } else {
      CallKeepsLocks(w, move);
    }
  }

  lemma MoveKeepsTidy(w: World, move: Move)
    requires Inv(w) && Allowed(w, move)
    ensures Tidy(After(w, move).b)
  {
    var b := w.b;
    match move
    case Schedule(identity, fingerprint, brokered, _, c) =>
      if identity !in b.byIdentity {
        CreateIsTidy(b, identity, fingerprint, c);
      }
    case Mislabel(t) => BeginIsTidy(b, w.threads[t].id);
    case RegisterTask(t) =>
      var op := w.threads[t];
      RegisterIsTidy(b, op.id, op.named);
      BeginIsTidy(Register(b, op.id, op.named), op.id);
    case LockNext(_, id) =>
      if b.records[id].phase.Live? {
        BeginIsTidy(b, id);
      }
    case Release(t, ok) => ReleaseIsTidy(b, w.threads[t].id, ok);
    case ForgetRecord(t) => ForgetIsTidy(b, w.threads[t].id);
    case Close =>
    case _ =>
  }

  /** Records are only ever added, and keep the identity and the fingerprint they were made with. */
  ghost predicate Extends(b: Broker, c: Broker) {
    forall id :: id in b.records ==>
      && id in c.records && c.records[id].identity == b.records[id].identity
      && c.records[id].fingerprint == b.records[id].fingerprint
      && (b.records[id].phase.Gone? ==> c.records[id].phase.Gone?)
  }

  lemma EntryExtends(w: World, move: Move)
    requires Accounted(w.b) && Enters(move)
    ensures Extends(w.b, After(w, move).b)
  {
  }

  lemma SweepExtends(w: World, move: Move)
    requires Locks(w) && Allowed(w, move) && Sweeps(move)
    ensures Extends(w.b, After(w, move).b)
  {
    assert OpOk(w.threads[move.t], move.t, w.b.records, w.holders);
  }

  lemma CallExtends(w: World, move: Move)
    requires Locks(w) && Allowed(w, move) && !Enters(move) && !Sweeps(move)
    ensures Extends(w.b, After(w, move).b)
  {
    assert OpOk(w.threads[move.t], move.t, w.b.records, w.holders);
  }

  lemma MoveExtends(w: World, move: Move)
    requires Inv(w) && Allowed(w, move)
    ensures Extends(w.b, After(w, move).b)
  {
    hide After, Locks, ByIdentity, ByTask, Accounted;
    if Enters(move) {
      EntryExtends(w, move);
    } else if Sweeps(move) {
      SweepExtends(w, move);
    } else {
      CallExtends(w, move);
    }
  }

  lemma MoveKeepsCalls(w: World, move: Move)
    requires Inv(w) && Allowed(w, move)
    ensures CallsMatch(After(w, move).b.records, After(w, move).calls)
  {
    MoveExtends(w, move);
    hide ByIdentity, ByTask, Accounted;
  }

  lemma EntryKeepsClosedList(w: World, move: Move)
    requires ByIdentity(w.b) && ClosedList(w) && Enters(move)
    ensures ClosedList(After(w, move))
  {
  }

  lemma SweepKeepsClosedList(w: World, move: Move)
    requires Locks(w) && ClosedList(w) && Allowed(w, move) && Sweeps(move)
    ensures ClosedList(After(w, move))
  {
  }

  lemma CallKeepsClosedList(w: World, move: Move)
    requires Locks(w) && ClosedList(w) && Allowed(w, move) && !Enters(move) && !Sweeps(move)
    ensures ClosedList(After(w, move))
  {
    assert OpOk(w.threads[move.t], move.t, w.b.records, w.holders);
  }

  lemma MoveKeepsClosedList(w: World, move: Move)
    requires Inv(w) && Allowed(w, move)
    ensures ClosedList(After(w, move))
  {
    hide After, Locks, ByIdentity, ByTask, Accounted, ClosedList;
    if Enters(move) {
      EntryKeepsClosedList(w, move);
    } else if Sweeps(move) {
      SweepKeepsClosedList(w, move);
    } else {
      CallKeepsClosedList(w, move);
    }
  }

  lemma MoveKeepsBypasses(w: World, move: Move)
    requires BypassesAllowed(w.bypasses) && Allowed(w, move)
    ensures BypassesAllowed(After(w, move).bypasses)
  {
    hide Create, Register, BeginCleanup, ReleaseNext, Forget;
  }

  lemma MoveKeepsInv(w: World, move: Move)
    requires Inv(w) && Allowed(w, move)
    ensures Inv(After(w, move))
  {
    MoveKeepsLocks(w, move);
    MoveKeepsTidy(w, move);
    MoveKeepsCalls(w, move);
    MoveKeepsClosedList(w, move);
    MoveKeepsBypasses(w, move);
    hide After, Locks, ByIdentity, ByTask, Accounted, ClosedList, CallsMatch, BypassesAllowed;
  }

  lemma {:induction false} RunsKeepInv(w: World, moves: seq<Move>, v: World)
    requires Inv(w) && RunsTo(w, moves, v)
    ensures Inv(v)
    decreases |moves|
  {
    hide After, Allowed, Inv;
    if |moves| > 0 {
      MoveKeepsInv(w, moves[0]);
      RunsKeepInv(After(w, moves[0]), moves[1..], v);
    }
  }

  lemma ReachableInv(w: World)
    requires Reachable(w)
    ensures Inv(w)
  {
    assert Inv(INITIAL);
    hide Inv;
    var moves :| RunsTo(INITIAL, moves, w);
    RunsKeepInv(INITIAL, moves, w);
  }
}
