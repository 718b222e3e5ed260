/**
 The broker session wrapper: one private session per idempotent task, with its directory and
 its listener, kept in two maps.

 A record is known by the id of the session it owns. The inner runner is taken to give each
 identity one stable task id of its own, so the identity key stands for the task id.
 */
module BrokerSessions {
  import opened Wrappers

  /** What a record owns, in the order it is given back. */
  datatype Resource = Listener(id: nat) | Session(id: nat) | Directory(id: nat)

  /** Nothing, the first, the first two or all three resources have been given back. */
  datatype Phase = Live | Closing(released: nat) | Gone

  datatype Record = Record(identity: string, fingerprint: string, named: bool, phase: Phase)

  /** `live` is what the manager and the file system hold; `leaked` what they refused to give back. */
  datatype Broker = Broker(
    closed: bool,
    next: nat,
    byIdentity: map<string, nat>,
    byTaskID: map<string, nat>,
    records: map<nat, Record>,
    live: set<Resource>,
    leaked: set<Resource>)

  const EMPTY := Broker(false, 0, map[], map[], map[], {}, {})

  function Resources(id: nat): seq<Resource> {
    [Listener(id), Session(id), Directory(id)]
  }

  function AllOf(id: nat): set<Resource> {
    {Listener(id), Session(id), Directory(id)}
  }

  /** Give one resource back; a refusal leaves it behind. */
  function GiveBack(b: Broker, r: Resource, ok: bool): Broker {
    if ok then b.(live := b.live - {r}) else b.(leaked := b.leaked + {r})
  }

  // --- Creation

  /** How far createSessionLocked gets, and which of the undoing calls succeed. */
  datatype Creation =
    | HandlerRefused
    | SessionRefused
    | DirectoryRefused(deleted: bool)
    | PrepareFailed(deleted: bool, removed: bool)
    | ServerFailed(deleted: bool, removed: bool)
    | ConfigFailed(stopped: bool, deleted: bool, removed: bool)
    | Created

  function Unless(ok: bool, r: Resource): set<Resource> {
    if ok then {} else {r}
  }

  /** What a failed creation leaves behind: exactly what an undoing call refused to give back. */
  function Remains(id: nat, c: Creation): set<Resource> {
    match c
    case DirectoryRefused(deleted) => Unless(deleted, Session(id))
    case PrepareFailed(deleted, removed) => Unless(deleted, Session(id)) + Unless(removed, Directory(id))
    case ServerFailed(deleted, removed) => Unless(deleted, Session(id)) + Unless(removed, Directory(id))
    case ConfigFailed(stopped, deleted, removed) =>
      Unless(stopped, Listener(id)) + Unless(deleted, Session(id)) + Unless(removed, Directory(id))
    case _ => {}
  }

  function Create(b: Broker, identity: string, fingerprint: string, c: Creation): Broker {
    var left := Remains(b.next, c);
    if c.Created? then
      b.(next := b.next + 1,
         byIdentity := b.byIdentity[identity := b.next],
         records := b.records[b.next := Record(identity, fingerprint, false, Live)],
         live := b.live + AllOf(b.next))
    else
      b.(next := b.next + 1, live := b.live + left, leaked := b.leaked + left)
  }

  // --- The first section of ScheduleRunnerTask

  datatype Entry = Refused | Direct | Failed | Use(id: nat)

  function EnterSchedule(b: Broker, identity: string, fingerprint: string, brokered: bool, c: Creation): (Broker, Entry) {
    if b.closed then (b, Refused)
    else if identity in b.byIdentity && b.byIdentity[identity] in b.records
         && b.records[b.byIdentity[identity]].fingerprint != fingerprint then (b, Refused)
    else if !brokered then (b, Direct)
    else if identity in b.byIdentity then (b, Use(b.byIdentity[identity]))
    else (Create(b, identity, fingerprint, c), if c.Created? then Use(b.next) else Failed)
  }

  /** An identity is bound to a record of another request. */
  predicate Clashes(b: Broker, identity: string, fingerprint: string) {
    identity in b.byIdentity && b.byIdentity[identity] in b.records && b.records[b.byIdentity[identity]].fingerprint != fingerprint
  }

  /**
   How a request is answered. It goes past the broker exactly if the broker is open, nothing clashes
   and it asks for no broker. Otherwise it gets the session bound to its identity, or a fresh one with
   all three resources, and fails exactly if that cannot be created.
   */
  lemma EnterAnswers(b: Broker, identity: string, fingerprint: string, brokered: bool, c: Creation)
    requires forall k :: k in b.byIdentity ==> b.byIdentity[k] in b.records
    requires forall id :: id in b.records ==> id < b.next
    ensures var (after, entry) := EnterSchedule(b, identity, fingerprint, brokered, c);
            var open := !b.closed && !Clashes(b, identity, fingerprint);
            && (entry.Refused? <==> !open)
            && (entry.Direct? <==> open && !brokered)
            && (entry.Failed? <==> open && brokered && identity !in b.byIdentity && !c.Created?)
            && (entry.Use? && identity in b.byIdentity ==> entry.id == b.byIdentity[identity] && after == b)
            && (entry.Use? && identity !in b.byIdentity ==>
                  && c.Created? && entry.id !in b.records
                  && identity in after.byIdentity && after.byIdentity[identity] == entry.id
                  && entry.id in after.records && after.records[entry.id] == Record(identity, fingerprint, false, Live)
                  && {Listener(entry.id), Session(entry.id), Directory(entry.id)} <= after.live)
            && (entry.Refused? || entry.Direct? ==> after == b)
  {
  }

  // --- Registration of the task id

  function Register(b: Broker, id: nat, named: bool): Broker
    requires id in b.records
  {
    if named then
      b.(records := b.records[id := b.records[id].(named := true)],
         byTaskID := b.byTaskID[b.records[id].identity := id])
    else b
  }

  // --- Cleanup

  function BeginCleanup(b: Broker, id: nat): Broker
    requires id in b.records
  {
    b.(records := b.records[id := b.records[id].(phase := Closing(0))])
  }

  function ReleaseNext(b: Broker, id: nat, ok: bool): Broker
    requires id in b.records && b.records[id].phase.Closing? && b.records[id].phase.released < 3
  {
    var n := b.records[id].phase.released;
    GiveBack(b.(records := b.records[id := b.records[id].(phase := Closing(n + 1))]), Resources(id)[n], ok)
  }

  function Forget(b: Broker, id: nat): Broker
    requires id in b.records
  {
    var r := b.records[id];
    b.(records := b.records[id := r.(phase := Gone)],
       byIdentity := b.byIdentity - {r.identity},
       byTaskID := if r.named then b.byTaskID - {r.identity} else b.byTaskID)
  }

  function ReleaseAll(b: Broker, id: nat, ok: seq<bool>): (after: Broker)
    requires id in b.records && b.records[id].phase == Closing(0) && |ok| == 3
    ensures id in after.records && after.records[id] == b.records[id].(phase := Closing(3))
  {
    ReleaseNext(ReleaseNext(ReleaseNext(b, id, ok[0]), id, ok[1]), id, ok[2])
  }

  /** The whole of cleanupRecordLocked, when nothing runs in between. */
  function Cleanup(b: Broker, id: nat, ok: seq<bool>): Broker
    requires id in b.records && |ok| == 3
  {
    if !b.records[id].phase.Live? then b else Forget(ReleaseAll(BeginCleanup(b, id), id, ok), id)
  }

  /** The object itself: its maps, its records and what it has asked the host for. */
  class Activities {
    var closed: bool
    var next: nat
    var byIdentity: map<string, nat>
    var byTaskID: map<string, nat>
    var records: map<nat, Record>
    var live: set<Resource>
    var leaked: set<Resource>

    constructor ()
      ensures State() == EMPTY
    {
      closed, next, byIdentity, byTaskID, records, live, leaked := false, 0, map[], map[], map[], {}, {};
    }

    ghost function State(): Broker
      reads this
    {
      Broker(closed, next, byIdentity, byTaskID, records, live, leaked)
    }

    method Undo(r: Resource, ok: bool)
      modifies this`live, this`leaked
      ensures live == if ok then old(live) - {r} else old(live)
      ensures leaked == if ok then old(leaked) else old(leaked) + {r}
    {
      if ok {
        live := live - {r};
      } else {
        leaked := leaked + {r};
      }
    }

    /** createSessionLocked: stepwise, and every failure undoes what was done before it. */
    method CreateSession(identity: string, fingerprint: string, c: Creation) returns (id: Option<nat>)
      requires forall r :: r in live || r in leaked ==> r.id < next
      modifies this`next, this`records, this`live, this`leaked
      ensures next == old(next) + 1
      ensures live == old(live) + if c.Created? then AllOf(old(next)) else Remains(old(next), c)
      ensures leaked == old(leaked) + if c.Created? then {} else Remains(old(next), c)
      ensures records == if c.Created? then old(records)[old(next) := Record(identity, fingerprint, false, Live)] else old(records)
      ensures id == if c.Created? then Some(old(next)) else None
    {
      var session := next;
      next := next + 1;
      id := None;
      if c.HandlerRefused? || c.SessionRefused? {
        return;
      }
      live := live + {Session(session)};
      if c.DirectoryRefused? {
        Undo(Session(session), c.deleted);
        return;
      }
      live := live + {Directory(session)};
      if c.PrepareFailed? || c.ServerFailed? {
        Undo(Session(session), c.deleted);
        Undo(Directory(session), c.removed);
        return;
      }
      live := live + {Listener(session)};
      if c.ConfigFailed? {
        Undo(Listener(session), c.stopped);
        Undo(Session(session), c.deleted);
        Undo(Directory(session), c.removed);
        return;
      }
      records := records[session := Record(identity, fingerprint, false, Live)];
      id := Some(session);
    }

    method Enter(identity: string, fingerprint: string, brokered: bool, c: Creation) returns (entry: Entry)
      requires forall r :: r in live || r in leaked ==> r.id < next
      requires forall k :: k in byIdentity ==> byIdentity[k] in records
      modifies this
      ensures (State(), entry) == EnterSchedule(old(State()), identity, fingerprint, brokered, c)
    {
      if closed {
        return Refused;
      }
      if identity in byIdentity && records[byIdentity[identity]].fingerprint != fingerprint {
        return Refused;
      }
      if !brokered {
        return Direct;
      }
      if identity in byIdentity {
        return Use(byIdentity[identity]);
      }
      var id := CreateSession(identity, fingerprint, c);
      if id.None? {
        return Failed;
      }
      assert leaked == old(leaked);
      byIdentity := byIdentity[identity := id.value];
      entry := Use(id.value);
    }

    method ReleaseOne(id: nat, ok: bool)
      requires id in records && records[id].phase.Closing? && records[id].phase.released < 3
      modifies this`records, this`live, this`leaked
      ensures State() == ReleaseNext(old(State()), id, ok)
    {
      var n := records[id].phase.released;
      records := records[id := records[id].(phase := Closing(n + 1))];
      Undo(Resources(id)[n], ok);
    }

    method ReleaseEach(id: nat, ok: seq<bool>)
      requires id in records && records[id].phase == Closing(0) && |ok| == 3
      modifies this`records, this`live, this`leaked
      ensures State() == ReleaseAll(old(State()), id, ok)
    {
      ReleaseOne(id, ok[0]);
      ReleaseOne(id, ok[1]);
      ReleaseOne(id, ok[2]);
    }

    /** cleanupRecordLocked: close the listener, delete the session, remove the directory, forget the record. */
    method CleanupRecord(id: nat, revoked: bool, ok: seq<bool>) returns (clean: bool)
      requires id in records && |ok| == 3
      modifies this`byIdentity, this`byTaskID, this`records, this`live, this`leaked
      ensures State() == Cleanup(old(State()), id, ok)
      ensures clean <==> (old(records)[id].phase.Live? ==> revoked && ok[0] && ok[1] && ok[2])
    {
      if !records[id].phase.Live? {
        return true;
      }
      records := records[id := records[id].(phase := Closing(0))];
      ReleaseEach(id, ok);
      hide ReleaseAll;
      byIdentity := byIdentity - {records[id].identity};
      if records[id].named {
        byTaskID := byTaskID - {records[id].identity};
      }
      records := records[id := records[id].(phase := Gone)];
      clean := revoked && ok[0] && ok[1] && ok[2];
    }
  }
}
