/** What the broker session wrapper keeps over every interleaving of its calls. */
module BrokerGuarantees {
  import opened Wrappers
  import opened BrokerSessions
  import opened BrokerMachine

  /** No call is in progress. */
  predicate Idle(w: World) {
    forall t :: 0 <= t < |w.threads| ==> w.threads[t] == RETURNED
  }

  /** The resource belongs to the record that some identity is bound to. */
  ghost predicate Bound(b: Broker, r: Resource) {
    exists k :: k in b.byIdentity && b.byIdentity[k] == r.id
  }

  /**
   Between calls, what is live is what the bound records own and what could not be given back,
   and never both; no two identities share a record.
   */
  lemma SessionsAreConserved(w: World)
    requires Reachable(w) && Idle(w)
    ensures forall r :: r in w.b.live <==> Bound(w.b, r) || r in w.b.leaked
    ensures forall r :: r in w.b.leaked ==> !Bound(w.b, r)
    ensures forall k, l :: k in w.b.byIdentity && l in w.b.byIdentity && w.b.byIdentity[k] == w.b.byIdentity[l] ==> k == l
    ensures w.b.byTaskID.Keys <= w.b.byIdentity.Keys
    ensures forall k :: k in w.b.byTaskID ==> w.b.byTaskID[k] == w.b.byIdentity[k]
  {
    ReachableInv(w);
    forall r: Resource
      ensures Bound(w.b, r) <==> Owns(w.b.records, r)
    {
      if Owns(w.b.records, r) {
        assert w.b.byIdentity[w.b.records[r.id].identity] == r.id;
      }
    }
  }

  // --- Nothing is left behind unless something was refused

  predicate Undone(c: Creation) {
    match c
    case DirectoryRefused(deleted) => deleted
    case PrepareFailed(deleted, removed) => deleted && removed
    case ServerFailed(deleted, removed) => deleted && removed
    case ConfigFailed(stopped, deleted, removed) => stopped && deleted && removed
    case _ => true
  }

  /** Every call that gives something back succeeds. */
  predicate Granted(move: Move) {
    match move
    case Schedule(_, _, _, _, c) => Undone(c)
    case Release(_, ok) => ok
    case _ => true
  }

  lemma GrantedLeaksNothing(w: World, move: Move)
    requires Allowed(w, move) && Granted(move)
    ensures After(w, move).b.leaked == w.b.leaked
  {
  }

  lemma {:induction false} RefusalsLeak(w: World, moves: seq<Move>, v: World)
    requires RunsTo(w, moves, v) && forall i :: 0 <= i < |moves| ==> Granted(moves[i])
    ensures v.b.leaked == w.b.leaked
    decreases |moves|
  {
    hide After, Allowed;
    if |moves| > 0 {
      GrantedLeaksNothing(w, moves[0]);
      RefusalsLeak(After(w, moves[0]), moves[1..], v);
    }
  }

  /** If nothing is ever refused, the live resources between calls are exactly those of the bound records. */
  lemma NothingLeaks(moves: seq<Move>, w: World)
    requires RunsTo(INITIAL, moves, w) && Idle(w)
    requires forall i :: 0 <= i < |moves| ==> Granted(moves[i])
    ensures forall r :: r in w.b.live <==> Bound(w.b, r)
  {
    RefusalsLeak(INITIAL, moves, w);
    SessionsAreConserved(w);
  }

  /** Once Close has returned nothing is bound, and nothing is live that could be given back. */
  lemma CloseReleasesEverything(w: World)
    requires Reachable(w) && w.closer.Some? && w.closer.value < |w.threads| && w.threads[w.closer.value] == RETURNED
    ensures w.b.byIdentity == map[] && w.b.byTaskID == map[]
    ensures w.b.live == w.b.leaked
  {
    ReachableInv(w);
    assert forall k :: k !in w.b.byIdentity;
    assert forall k :: k !in w.b.byTaskID;
  }

  /**
   Teardown in order, at every moment of every run: a listener that is up has its session and its
   directory, and a session that exists has its directory, except for what was refused earlier.
   */
  lemma TeardownIsOrdered(w: World, id: nat)
    requires Reachable(w)
    ensures Listener(id) in w.b.live - w.b.leaked ==> Session(id) in w.b.live && Directory(id) in w.b.live
    ensures Session(id) in w.b.live - w.b.leaked ==> Directory(id) in w.b.live
  {
    ReachableInv(w);
    assert Owns(w.b.records, Listener(id)) ==> Owns(w.b.records, Session(id));
    assert Owns(w.b.records, Session(id)) ==> Owns(w.b.records, Directory(id));
  }

  // --- Record identity

  /** A cleanup removes the entries of its own record and of no other. */
  lemma ForgetsOnlyItself(w: World, t: nat, other: nat)
    requires Reachable(w) && Allowed(w, ForgetRecord(t))
    requires other in w.b.records && other != w.threads[t].id && !w.b.records[other].phase.Gone?
    ensures var b := After(w, ForgetRecord(t)).b; var r := w.b.records[other];
            && r.identity in b.byIdentity && b.byIdentity[r.identity] == other
            && (r.named ==> r.identity in b.byTaskID && b.byTaskID[r.identity] == other)
            && b.records[other] == r
  {
    ReachableInv(w);
  }

  /** The session a call carries is the one its identity is bound to while it is made. */
  lemma CallCarriesBoundSession(w: World, move: Move, id: nat)
    requires Inv(w) && Allowed(w, move) && |After(w, move).calls| > |w.calls|
    requires id in w.b.records && !w.b.records[id].phase.Gone?
    ensures After(w, move).calls[..|w.calls|] == w.calls && |After(w, move).calls| == |w.calls| + 1
    ensures var c := After(w, move).calls[|w.calls|];
            c.identity == w.b.records[id].identity ==>
              c == Call(c.identity, w.b.records[id].fingerprint, Execution(Brokered, false, Some(id)))
  {
    assert OpOk(w.threads[move.t], move.t, w.b.records, w.holders);
  }

  lemma {:induction false} GoneStaysGone(w: World, moves: seq<Move>, v: World, id: nat)
    requires Inv(w) && RunsTo(w, moves, v) && id in w.b.records && w.b.records[id].phase.Gone?
    ensures id in v.b.records && v.b.records[id].phase.Gone?
    decreases |moves|
  {
    hide After, Allowed, Inv;
    if |moves| > 0 {
      MoveExtends(w, moves[0]);
      MoveKeepsInv(w, moves[0]);
      GoneStaysGone(After(w, moves[0]), moves[1..], v, id);
    }
  }

  ghost predicate AllCarry(calls: seq<Call>, from: nat, id: nat, r: Record) {
    forall i :: from <= i < |calls| && calls[i].identity == r.identity ==>
      calls[i] == Call(r.identity, r.fingerprint, Execution(Brokered, false, Some(id)))
  }

  lemma MoveCarries(w: World, move: Move, id: nat)
    requires Inv(w) && Allowed(w, move) && id in w.b.records && !w.b.records[id].phase.Gone?
    ensures w.calls <= After(w, move).calls
    ensures AllCarry(After(w, move).calls, |w.calls|, id, w.b.records[id])
  {
    if |After(w, move).calls| > |w.calls| {
      CallCarriesBoundSession(w, move, id);
      hide After, Inv, Allowed;
    }
  }

  /**
   From the creation of a record to its cleanup every brokered dispatch for its identity carries
   its session, its fingerprint, the brokered network and no direct internet.
   */
  lemma {:induction false} DispatchesShareSession(w: World, moves: seq<Move>, v: World, id: nat)
    requires Inv(w) && RunsTo(w, moves, v) && id in w.b.records && id in v.b.records
    requires !v.b.records[id].phase.Gone?
    ensures w.calls <= v.calls && AllCarry(v.calls, |w.calls|, id, w.b.records[id])
    decreases |moves|
  {
    hide After, Allowed, Inv;
    if w.b.records[id].phase.Gone? {
      GoneStaysGone(w, moves, v, id);
    } else if |moves| > 0 {
      var next := After(w, moves[0]);
      MoveExtends(w, moves[0]);
      MoveKeepsInv(w, moves[0]);
      MoveCarries(w, moves[0], id);
      DispatchesShareSession(next, moves[1..], v, id);
      forall i | |w.calls| <= i < |next.calls|
        ensures v.calls[i] == next.calls[i]
      {
      }
    }
  }

  /** The identity of a record stays bound to it, with the same fingerprint, until it is cleaned up. */
  lemma {:induction false} BindingLasts(w: World, moves: seq<Move>, v: World, id: nat)
    requires Inv(w) && RunsTo(w, moves, v) && id in w.b.records && id in v.b.records && !v.b.records[id].phase.Gone?
    ensures var r := w.b.records[id];
            && v.b.records[id].identity == r.identity && v.b.records[id].fingerprint == r.fingerprint
            && r.identity in v.b.byIdentity && v.b.byIdentity[r.identity] == id
    decreases |moves|
  {
    if |moves| > 0 {
      hide After, Allowed, Inv;
      MoveExtends(w, moves[0]);
      MoveKeepsInv(w, moves[0]);
      BindingLasts(After(w, moves[0]), moves[1..], v, id);
    }
  }

  /**
   As long as a record is not cleaned up, a request for its identity with another fingerprint is
   refused and changes nothing, however many calls come in between.
   */
  lemma MismatchChangesNothing(w: World, moves: seq<Move>, v: World, id: nat, fingerprint: string, brokered: bool,
                               asked: Execution, c: Creation)
    requires Inv(w) && RunsTo(w, moves, v) && id in w.b.records && id in v.b.records && !v.b.records[id].phase.Gone?
    requires fingerprint != w.b.records[id].fingerprint
    ensures After(v, Schedule(w.b.records[id].identity, fingerprint, brokered, asked, c)) == v.(threads := v.threads + [RETURNED])
  {
    BindingLasts(w, moves, v, id);
    hide Inv, RunsTo;
  }

  // --- Brokered requests are brokered

  /**
   Over every run, whatever reaches the inner runner was either asked for without a broker or carries
   the session of a record, the brokered network and no direct internet.
   */
  lemma NothingSlipsPast(w: World)
    requires Reachable(w)
    ensures forall i :: 0 <= i < |w.bypasses| ==> !w.bypasses[i].brokered
    ensures forall i :: 0 <= i < |w.calls| ==>
              var e := w.calls[i].execution;
              && e.network == Brokered && !e.directInternet && e.session.Some? && e.session.value in w.b.records
              && w.b.records[e.session.value].identity == w.calls[i].identity
              && w.b.records[e.session.value].fingerprint == w.calls[i].fingerprint
  {
    ReachableInv(w);
    forall i | 0 <= i < |w.calls| ensures Matches(w.b.records, w.calls[i]) {
    }
  }

  lemma TwoMoves(w: World, first: Move, second: Move)
    requires Allowed(w, first) && Allowed(After(w, first), second)
    ensures RunsTo(w, [first, second], After(After(w, first), second))
  {
    assert [first, second][1..] == [second] && [second][1..] == [];
    assert RunsTo(After(w, first), [second], After(After(w, first), second));
  }

  /** A first brokered request to an open broker gets a session of its own and is dispatched with it. */
  lemma BrokeredIsDispatched(w: World, identity: string, fingerprint: string, asked: Execution) returns (u: World, v: World, id: nat)
    requires Inv(w) && !w.b.closed && identity !in w.b.byIdentity
    ensures u == After(w, Schedule(identity, fingerprint, true, asked, Created))
    ensures RunsTo(u, [TryLock(|w.threads|), InnerAnswers(|w.threads|, true, false)], v)
    ensures id !in w.b.records && identity in u.b.byIdentity && u.b.byIdentity[identity] == id
    ensures {Listener(id), Session(id), Directory(id)} <= u.b.live
    ensures v.calls == w.calls + [Call(identity, fingerprint, Execution(Brokered, false, Some(id)))]
  {
    u := After(w, Schedule(identity, fingerprint, true, asked, Created));
    id := w.b.next;
    assert id !in w.b.records && id !in w.holders;
    var t := |w.threads|;
    assert u.threads[t] == Queued(id, asked);
    var locked := After(u, TryLock(t));
    assert locked.threads[t] == Inside(id, asked);
    v := After(locked, InnerAnswers(t, true, false));
    TwoMoves(u, TryLock(t), InnerAnswers(t, true, false));
  }

  // --- Cleanups happen

  lemma StepKeepsOwing(w: World, move: Move, t: nat, id: nat)
    requires Locks(w) && Allowed(w, move) && t < |w.threads| && Listed(w.threads[t], id)
    ensures var v := After(w, move);
            && t < |v.threads|
            && (Listed(v.threads[t], id) || (id in v.b.records && v.b.records[id].phase.Gone?))
  {
    assert OpOk(w.threads[t], t, w.b.records, w.holders);
  }

  /** A call that has a record to clean up does not return before the record is gone. */
  lemma {:induction false} OwedIsCleaned(w: World, moves: seq<Move>, v: World, t: nat, id: nat)
    requires Inv(w) && RunsTo(w, moves, v) && t < |w.threads|
    requires Listed(w.threads[t], id) || (id in w.b.records && w.b.records[id].phase.Gone?)
    ensures t < |v.threads|
    ensures v.threads[t] == RETURNED ==> id in v.b.records && v.b.records[id].phase.Gone?
    decreases |moves|
  {
    if |moves| > 0 {
      hide After, Allowed, Inv;
      OwingStays(w, moves[0], t, id);
      MoveKeepsInv(w, moves[0]);
      OwedIsCleaned(After(w, moves[0]), moves[1..], v, t, id);
    }
  }

  lemma OwingStays(w: World, move: Move, t: nat, id: nat)
    requires Inv(w) && Allowed(w, move) && t < |w.threads|
    requires Listed(w.threads[t], id) || (id in w.b.records && w.b.records[id].phase.Gone?)
    ensures var v := After(w, move);
            && t < |v.threads|
            && (Listed(v.threads[t], id) || (id in v.b.records && v.b.records[id].phase.Gone?))
  {
    MoveExtends(w, move);
    ThreadsStay(w, move);
    if Listed(w.threads[t], id) {
      StepKeepsOwing(w, move, t, id);
    }
    hide After, Allowed, Inv, Listed;
  }

  lemma ThreadsStay(w: World, move: Move)
    requires Allowed(w, move)
    ensures |After(w, move).threads| >= |w.threads|
  {
    hide EnterSchedule, Register, BeginCleanup, ReleaseNext, Forget;
  }

  /** A task whose session is known is found by cancel and status, and when that call returns the session is gone. */
  lemma CancelCleansUp(w: World, task: string, moves: seq<Move>, v: World)
    requires Inv(w) && task in w.b.byTaskID && RunsTo(After(w, Find(task)), moves, v)
    requires |w.threads| < |v.threads| && v.threads[|w.threads|] == RETURNED
    ensures var id := w.b.byTaskID[task]; id in v.b.records && v.b.records[id].phase.Gone?
  {
    MoveKeepsInv(w, Find(task));
    OwedIsCleaned(After(w, Find(task)), moves, v, |w.threads|, w.b.byTaskID[task]);
    hide Inv, RunsTo;
  }

  /** The answer of the inner runner makes the task known, and a terminal answer cleans its session up. */
  lemma AnswerRegisters(w: World, t: nat, moves: seq<Move>, v: World)
    requires Inv(w) && Allowed(w, RegisterTask(t)) && RunsTo(After(w, RegisterTask(t)), moves, v)
    ensures var op, u := w.threads[t], After(w, RegisterTask(t));
            var identity := w.b.records[op.id].identity;
            && (op.named ==> identity in u.b.byTaskID && u.b.byTaskID[identity] == op.id)
            && (op.terminal && t < |v.threads| && v.threads[t] == RETURNED ==> op.id in v.b.records && v.b.records[op.id].phase.Gone?)
            && (!op.terminal ==> u.threads[t] == RETURNED && u.b.records[op.id].phase.Live?)
  {
    MoveKeepsInv(w, RegisterTask(t));
    AnswerInPlace(w, t);
    if w.threads[t].terminal {
      OwedIsCleaned(After(w, RegisterTask(t)), moves, v, t, w.threads[t].id);
    }
    hide Inv, RunsTo, After;
  }

  lemma AnswerInPlace(w: World, t: nat)
    requires Locks(w) && Allowed(w, RegisterTask(t))
    ensures var op, u := w.threads[t], After(w, RegisterTask(t));
            var identity := w.b.records[op.id].identity;
            && |u.threads| == |w.threads| && op.id in u.b.records
            && (op.named ==> identity in u.b.byTaskID && u.b.byTaskID[identity] == op.id)
            && (op.terminal ==> Listed(u.threads[t], op.id))
            && (!op.terminal ==> u.threads[t] == RETURNED && u.b.records[op.id].phase.Live?)
  {
    assert OpOk(w.threads[t], t, w.b.records, w.holders);
  }

  // --- Every call returns

  /** An upper bound on the steps a call still takes. */
  function Steps(op: Op, records: map<nat, Record>): nat {
    match op
    case Queued(_, _) => 10
    case Inside(_, _) => 9
    case Answered(_, _, _) => 8
    case Sweeping(id, rest) =>
      6 * |rest| + (if id in records && records[id].phase.Closing? && records[id].phase.released <= 3
                    then 4 - records[id].phase.released else 4)
    case Pending(ids) => 6 * |ids|
  }

  function Work(threads: seq<Op>, records: map<nat, Record>): nat {
    if |threads| == 0 then 0 else Steps(threads[0], records) + Work(threads[1..], records)
  }

  /** Work falls when one call gets closer and no other call is set back. */
  lemma {:induction false} WorkFalls(before: seq<Op>, after: seq<Op>, r: map<nat, Record>, s: map<nat, Record>, t: nat)
    requires |before| == |after| && t < |before| && Steps(after[t], s) < Steps(before[t], r)
    requires forall u :: 0 <= u < |before| && u != t ==> Steps(after[u], s) == Steps(before[u], r)
    ensures Work(after, s) < Work(before, r)
  {
    if t == 0 {
      WorkStays(before[1..], after[1..], r, s);
    } else {
      WorkFalls(before[1..], after[1..], r, s, t - 1);
    }
  }

  lemma {:induction false} WorkStays(before: seq<Op>, after: seq<Op>, r: map<nat, Record>, s: map<nat, Record>)
    requires |before| == |after|
    requires forall u :: 0 <= u < |before| ==> Steps(after[u], s) == Steps(before[u], r)
    ensures Work(after, s) == Work(before, r)
  {
    if |before| > 0 {
      WorkStays(before[1..], after[1..], r, s);
    }
  }

  lemma SmallerRest(ids: set<nat>, id: nat)
    requires id in ids
    ensures |ids - {id}| == |ids| - 1
  {
  }

  lemma OwnStepsFall(w: World, move: Move)
    requires Locks(w) && Allowed(w, move) && !Enters(move)
    ensures var v := After(w, move);
            |v.threads| == |w.threads| && Steps(v.threads[move.t], v.b.records) < Steps(w.threads[move.t], w.b.records)
  {
    assert OpOk(w.threads[move.t], move.t, w.b.records, w.holders);
    if move.LockNext? {
      SmallerRest(w.threads[move.t].ids, move.id);
    }
  }

  lemma OtherStepsStay(w: World, move: Move, u: nat)
    requires Locks(w) && Allowed(w, move) && !Enters(move) && u < |w.threads| && u != move.t
    ensures var v := After(w, move);
            |v.threads| == |w.threads| && v.threads[u] == w.threads[u]
            && Steps(v.threads[u], v.b.records) == Steps(w.threads[u], w.b.records)
  {
    assert OpOk(w.threads[u], u, w.b.records, w.holders);
    assert OpOk(w.threads[move.t], move.t, w.b.records, w.holders);
  }

  /** Every step of a call that is under way uses up some of the work. */
  lemma StepUsesWork(w: World, move: Move)
    requires Locks(w) && Allowed(w, move) && !Enters(move)
    ensures var v := After(w, move); Work(v.threads, v.b.records) < Work(w.threads, w.b.records)
  {
    var v := After(w, move);
    OwnStepsFall(w, move);
    forall u | 0 <= u < |w.threads| && u != move.t
      ensures Steps(v.threads[u], v.b.records) == Steps(w.threads[u], w.b.records)
    {
      OtherStepsStay(w, move, u);
    }
    hide After, Locks, Allowed, Steps;
    WorkFalls(w.threads, v.threads, w.b.records, v.b.records, move.t);
  }

  /** The holder of a lock can always go on. */
  lemma HolderMoves(w: World, t: nat) returns (move: Move)
    requires Locks(w) && t < |w.threads|
    requires w.threads[t].Inside? || w.threads[t].Answered? || w.threads[t].Sweeping?
    ensures Allowed(w, move) && !Enters(move)
  {
    assert OpOk(w.threads[t], t, w.b.records, w.holders);
    match w.threads[t]
    case Inside(_, _) => move := InnerFails(t);
    case Answered(_, _, _) => move := RegisterTask(t);
    case Sweeping(id, _) =>
      move := if w.b.records[id].phase.released < 3 then Release(t, true) else ForgetRecord(t);
  }

  lemma LockedMoves(w: World, id: nat) returns (move: Move)
    requires Locks(w) && id in w.holders
    ensures Allowed(w, move) && !Enters(move)
  {
    assert Holds(w.threads[w.holders[id]], id);
    move := HolderMoves(w, w.holders[id]);
  }

  /** No deadlock: as long as a call is under way, some call can take a step. */
  lemma SomeCallMoves(w: World, t: nat) returns (move: Move)
    requires Locks(w) && t < |w.threads| && w.threads[t] != RETURNED
    ensures Allowed(w, move) && !Enters(move)
  {
    assert OpOk(w.threads[t], t, w.b.records, w.holders);
    match w.threads[t]
    case Queued(id, _) =>
      if id in w.holders {
        move := LockedMoves(w, id);
      } else {
        move := TryLock(t);
      }
    case Pending(ids) =>
      var id :| id in ids;
      if id in w.holders {
        move := LockedMoves(w, id);
      } else {
        move := LockNext(t, id);
      }
    case _ => move := HolderMoves(w, t);
  }

  ghost predicate Drains(w: World, moves: seq<Move>, v: World) {
    && RunsTo(w, moves, v) && Idle(v)
    && forall i :: 0 <= i < |moves| ==> !Enters(moves[i])
  }

  /** Any choice of steps of the calls under way ends after at most `Work` steps. */
  lemma {:induction false} CallsEnd(w: World, moves: seq<Move>, v: World)
    requires Inv(w) && RunsTo(w, moves, v) && forall i :: 0 <= i < |moves| ==> !Enters(moves[i])
    ensures |moves| + Work(v.threads, v.b.records) <= Work(w.threads, w.b.records)
    decreases |moves|
  {
    hide After, Allowed, Locks, Work;
    if |moves| > 0 {
      StepUsesWork(w, moves[0]);
      MoveKeepsInv(w, moves[0]);
      CallsEnd(After(w, moves[0]), moves[1..], v);
    }
  }

  /** From every reachable state the calls under way can all return. */
  lemma {:induction false} CallsCanReturn(w: World) returns (moves: seq<Move>, v: World)
    requires Inv(w)
    ensures Drains(w, moves, v)
    decreases Work(w.threads, w.b.records)
  {
    hide After, Allowed, Locks, Work;
    if t :| 0 <= t < |w.threads| && w.threads[t] != RETURNED {
      var move := SomeCallMoves(w, t);
      StepUsesWork(w, move);
      MoveKeepsInv(w, move);
      var rest;
      rest, v := CallsCanReturn(After(w, move));
      moves := [move] + rest;
      assert moves[1..] == rest;
    } else {
      moves, v := [], w;
    }
  }
}
