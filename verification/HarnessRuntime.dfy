/**
 The supervisor's turn and the drive loop as the program executes them, one after the other. Both
 are shown to be runs of the protocol; what others may do in between is the protocol's concern.
 */
module HarnessRuntime {
  import opened HarnessModels
  import opened Verification
  import opened CompletionProtocol

  /**
   What the outside world contributes to one round of the drive loop: what the classifier says,
   whether the output is new when the supervisor captures it the first and the second time and
   when the session log is captured, what the commands do, and whether the harness runs as a
   process whose id is kept.
   */
  datatype Round = Round(claim: Claim, changed: bool, again: bool, hosts: seq<Host>, logged: bool, pid: bool)

  /** The statuses at which a drive loop leaves a session. */
  predicate Ends(s: Status) {
    s in {Completed, Status.Failed, Cancelled, BlockedExternal, Stalled}
  }

  /** The harness claims to be done, and the specification is met. */
  predicate DoneAtOnce(spec: Spec, round: Round)
    requires |round.hosts| == HostCount(spec)
  {
    round.claim == ClaimsDone && Met(spec, round.hosts)
  }

  /** The status a claim leads to. */
  function Due(claim: Claim, seen: Status): Status {
    match claim
    case NeedsReply => WaitingForReply
    case ClaimsDone => Verifying
    case HitsLimit => UsageLimited
    case ClaimsFailure => Status.Failed
    case Silent => Stalled
    case Working => if seen == WaitingForReply then Running else seen
  }

  /** The stored session; the ghost fields follow the phases of the protocol. This runtime's supervisor is the first. */
  class Harness {
    const spec: Spec
    const limit: nat
    var stored: Status
    ghost var ticks: seq<Tick>
    ghost var drive: Drive
    ghost var performed: nat
    ghost var trace: seq<Event>

    constructor (spec: Spec, limit: nat, status: Status, ghost supervisors: nat)
      requires !status.Completed? && supervisors > 0
      ensures this.spec == spec && this.limit == limit
      ensures Initial(State()) && stored == status && |ticks| == supervisors
    {
      this.spec, this.limit, stored := spec, limit, status;
      ticks, drive, performed, trace := seq(supervisors, _ => Idle), Absent, 0, [];
    }

    ghost function State(): World
      reads this
    {
      World(Configured(spec), limit, stored, ticks, drive, [], performed, trace)
    }

    /** This runtime's supervisor has no turn under way. */
    ghost predicate Ready()
      reads this
    {
      |ticks| > 0 && ticks[0] == Idle
    }

    method SaveSession(s: Status)
      modifies `stored, `trace
      ensures State() == Write(old(State()), s)
    {
      stored, trace := s, trace + [Wrote(s)];
    }

    /** Saves the object once more when a capture brings new output. */
    method Capture(seen: Status, changed: bool, ghost start: World, ghost before: seq<Move>, ghost move: Move)
      returns (ghost moves: seq<Move>)
      requires RunsTo(start, before, State())
      requires Allowed(State(), move) && After(State(), move) == Write(State(), seen)
      modifies `stored, `trace
      ensures RunsTo(start, moves, State())
      ensures State() == if changed then Write(old(State()), seen) else old(State())
    {
      moves := before;
      if changed {
        Then(start, before, State(), move);
        SaveSession(seen);
        moves := before + [move];
      }
    }

    /** The mark a claim leads to, with the capture of the context where the driver makes one. */
    method Mark(claim: Claim, seen: Status, again: bool) returns (ghost moves: seq<Move>)
      requires |ticks| > 0 && ticks[0] == Fetched(seen) && stored == seen
      modifies `stored, `trace, `ticks
      ensures RunsTo(old(State()), moves, State())
      ensures ticks == old(ticks)[0 := Idle]
      ensures stored == Due(claim, seen)
    {
      hide RunsTo;
      ghost var start := State();
      RunsOne(start, Classify(0, claim));
      moves := [Classify(0, claim)];
      match claim {
        case NeedsReply =>
          if !seen.WaitingForReply? {
            SaveSession(WaitingForReply);
            ticks := ticks[0 := Marked(WaitingForReply)];
            moves := Capture(WaitingForReply, again, start, moves, TickCapture(0));
            Then(start, moves, State(), TickEnd(0));
            moves := moves + [TickEnd(0)];
          }
        case ClaimsDone => SaveSession(Verifying);
        case HitsLimit => SaveSession(UsageLimited);
        case ClaimsFailure => SaveSession(Status.Failed);
        case Silent =>
          SaveSession(Stalled);
          ticks := ticks[0 := Marked(Stalled)];
          moves := Capture(Stalled, again, start, moves, TickCapture(0));
          Then(start, moves, State(), TickEnd(0));
          moves := moves + [TickEnd(0)];
        case Working =>
          if seen.WaitingForReply? {
            SaveSession(Running);
          }
      }
      ticks := ticks[0 := Idle];
    }

    /** One turn of the supervisor. */
    method ProcessSession(claim: Claim, changed: bool, again: bool) returns (ghost moves: seq<Move>)
      requires Ready()
      modifies `stored, `trace, `ticks
      ensures RunsTo(old(State()), moves, State())
      ensures ticks == old(ticks)
      ensures stored == if old(stored) in {Running, WaitingForReply, Starting} then Due(claim, old(stored)) else old(stored)
    {
      moves := [];
      if !Inspectable(stored) {
        return;
      }
      var seen := stored;
      ghost var start := State();
      RunsOne(start, Fetch(0));
      ticks := ticks[0 := Fetched(seen)];
      moves := Capture(seen, changed, start, [Fetch(0)], TickCapture(0));
      ghost var middle := State();
      ghost var rest := Mark(claim, seen, again);
      RunsAppend(start, moves, middle, rest, State());
      moves := moves + rest;
    }

    /** One verification and what follows from it; `over` says that the drive loop ends. */
    method Conclude(n: nat, round: Round) returns (over: bool, ghost moves: seq<Move>)
      requires drive == Checking(n) && |round.hosts| == HostCount(spec)
      modifies `stored, `trace, `drive, `performed
      ensures RunsTo(old(State()), moves, State())
      ensures performed == old(performed) + 1
      ensures drive == if over then Absent else Fed(n)
      ensures stored.Completed? <==> Met(spec, round.hosts)
      ensures stored == BlockedExternal <==> !LiveReady(spec, round.hosts)
      ensures over <==> Met(spec, round.hosts) || !LiveReady(spec, round.hosts)
    {
      hide RunsTo;
      ghost var start := State();
      var status := RunVerification(spec, round.hosts);
      RunsOne(start, Verify(round.hosts));
      moves := [Verify(round.hosts)];
      performed, trace := performed + 1, trace + [Verified(round.hosts)];
      match status {
        case Passed =>
          drive := Finalizing(n);
          moves := Capture(Verifying, round.logged, start, moves, CaptureLog);
          Then(start, moves, State(), MarkCompleted);
          SaveSession(Completed);
          drive, moves, over := Absent, moves + [MarkCompleted], true;
        case Blocked =>
          SaveSession(BlockedExternal);
          drive, over := Absent, true;
        case Failed =>
          drive := FeedingBack(n);
          ghost var middle := State();
          ghost var rest := FeedFailureBack(n, round.pid);
          RunsAppend(start, moves, middle, rest, State());
          moves, over := moves + rest, false;
      }
    }

    /** The failure is sent into the session, which is then saved as running once more. */
    method FeedFailureBack(n: nat, pid: bool) returns (ghost moves: seq<Move>)
      requires drive == FeedingBack(n)
      modifies `stored, `trace, `drive
      ensures RunsTo(old(State()), moves, State())
      ensures drive == Fed(n) && stored == Running
    {
      ghost var start := State();
      moves := Capture(Verifying, pid, start, [], SavePid);
      Then(start, moves, State(), Reply);
      SaveSession(Running);
      drive := Replied(n);
      Then(start, moves + [Reply], State(), FeedBack);
      SaveSession(Running);
      drive, moves := Fed(n), moves + [Reply] + [FeedBack];
    }

    method Stall(changed: bool) returns (ghost moves: seq<Move>)
      requires drive == Stalling && stored == Stalled
      modifies `stored, `trace, `drive
      ensures RunsTo(old(State()), moves, State())
      ensures drive == Absent && stored == Stalled
    {
      ghost var start := State();
      moves := Capture(Stalled, changed, start, [], StallCapture);
      Then(start, moves, State(), DriveEnd);
      drive, moves := Absent, moves + [DriveEnd];
    }

    /** What a round does after the status has been read; `over` says that the drive loop ends. */
    method Act(cur: Status, n: nat, round: Round, late: bool) returns (over: bool, m: nat, ghost moves: seq<Move>)
      requires drive == Polled(cur, n) && |round.hosts| == HostCount(spec) && performed <= n <= limit && stored == cur
      modifies `stored, `trace, `drive, `performed
      ensures RunsTo(old(State()), moves, State())
      ensures drive == if over then Absent else Polling(m)
      ensures performed <= limit && (!over ==> performed <= m <= limit)
      ensures late ==> over
      ensures over ==> Ends(stored)
      ensures Ends(cur) ==> over && stored == old(stored)
      ensures cur in {Created, Starting, Running, WaitingForReply, UsageLimited} ==>
                (over <==> late) && stored == (if late then Stalled else old(stored))
      ensures cur == Verifying && n == limit ==> over && stored == Stalled && performed == old(performed)
      ensures cur == Verifying && n < limit ==>
                performed == old(performed) + 1 && (stored == Completed <==> Met(spec, round.hosts)) && (stored == Completed ==> over)
    {
      hide RunsTo;
      ghost var start := State();
      m := n;
      if cur.Verifying? {
        m := n + 1;
        RunsOne(start, Decide(false));
        moves := [Decide(false)];
        ghost var rest;
        if m > limit {
          SaveSession(Stalled);
          drive := Stalling;
          ghost var middle := State();
          rest := Stall(round.logged);
          RunsAppend(start, moves, middle, rest, State());
          return true, m, moves + rest;
        }
        drive := Checking(m);
        ghost var middle := State();
        over, rest := Conclude(m, round);
        RunsAppend(start, moves, middle, rest, State());
        moves := moves + rest;
        if over {
          return;
        }
        Then(start, moves, State(), NextRound(late));
        moves := moves + [NextRound(late)];
      } else {
        RunsOne(start, Decide(late));
        moves := [Decide(late)];
        if Settled(cur) || cur.Stalled? {
          drive := Absent;
          return true, m, moves;
        }
      }
      if late {
        SaveSession(Stalled);
        drive := Stalling;
        ghost var middle := State();
        ghost var rest := Stall(round.logged);
        RunsAppend(start, moves, middle, rest, State());
        return true, m, moves + rest;
      }
      drive, over := Polling(m), false;
    }

    /** The drive loop. Its deadline passes in some round; until then the rounds may bring anything. */
    method DriveSession(rounds: nat -> Round, deadline: nat) returns (ghost moves: seq<Move>)
      requires Ready() && drive == Absent && !Settled(stored)
      requires forall i :: |rounds(i).hosts| == HostCount(spec)
      modifies `stored, `trace, `ticks, `drive, `performed
      ensures RunsTo(old(State()), moves, State())
      ensures drive == Absent && performed <= limit && Ends(stored)
      ensures old(stored) in {Running, WaitingForReply, Starting} && limit > 0 && DoneAtOnce(spec, rounds(0)) ==>
                stored == Completed
    {
      hide RunsTo;
      ghost var start := State();
      RunsOne(start, StartDrive);
      moves := [StartDrive];
      drive, performed := Polling(0), 0;
      var n: nat, i: nat := 0, 0;
      while true
        invariant RunsTo(start, moves, State())
        invariant Ready() && drive == Polling(n) && performed <= n <= limit && i <= deadline
        invariant i == 0 ==> stored == old(stored) && n == 0
        invariant i > 0 ==> !(old(stored) in {Running, WaitingForReply, Starting} && limit > 0 && DoneAtOnce(spec, rounds(0)))
        decreases deadline - i
      {
        var round := rounds(i);
        ghost var before := State();
        ghost var turn := ProcessSession(round.claim, round.changed, round.again);
        RunsAppend(start, moves, before, turn, State());
        moves := moves + turn;
        Then(start, moves, State(), Poll);
        moves := moves + [Poll];
        var cur := stored;
        drive := Polled(cur, n);
        before := State();
        var over;
        over, n, turn := Act(cur, n, round, i == deadline);
        RunsAppend(start, moves, before, turn, State());
        moves := moves + turn;
        if over {
          return;
        }
        i := i + 1;
      }
    }
  }
}
