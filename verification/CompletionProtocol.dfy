/**
 One harness session under its supervisors, its drive loop and outside requests. Every party works
 on an object it read earlier and saves that object as a whole, so each save may be stale; a step
 is one read or one save. Every task has a supervisor of its own and each of them looks after all
 active sessions, so a session has as many supervisors as there are tasks under way.
 */
module CompletionProtocol {
  import opened HarnessModels
  import opened Verification

  /** What the classifier says about the output of the harness. */
  datatype Claim = NeedsReply | ClaimsDone | HitsLimit | ClaimsFailure | Silent | Working

  /** The turn of one supervisor on the session; its busy mark allows it one at a time. */
  datatype Tick = Idle | Fetched(seen: Status) | Marked(seen: Status)

  /** The drive loop; `n` counts the verifications it has begun. */
  datatype Drive =
    | Absent
    | Polling(n: nat)
    | Polled(cur: Status, n: nat)
    | Checking(n: nat)
    | Finalizing(n: nat)
    | FeedingBack(n: nat)
    | Replied(n: nat)
    | Fed(n: nat)
    | Stalling

  /** What happened, in order. */
  datatype Event = Wrote(status: Status) | Verified(hosts: seq<Host>)

  /** `held` are the objects of outside requests; `performed` counts the runs of the current drive. */
  datatype World = World(
    commands: seq<Command>,
    limit: nat,
    stored: Status,
    ticks: seq<Tick>,
    drive: Drive,
    held: seq<Status>,
    performed: nat,
    trace: seq<Event>)

  datatype Move =
    | Fetch(k: nat)
    | TickCapture(k: nat)
    | Classify(k: nat, claim: Claim)
    | TickEnd(k: nat)
    | StartDrive
    | Poll
    | Decide(late: bool)
    | Verify(hosts: seq<Host>)
    | VerifyImpossible
    | CaptureLog
    | MarkCompleted
    | SavePid
    | Reply
    | FeedBack
    | NextRound(late: bool)
    | StallCapture
    | DriveEnd
    | Load
    | Resave(i: nat)
    | Rewrite(i: nat, status: Status)
    | Stop(i: nat)
    | Restart

  predicate AllIdle(ticks: seq<Tick>) {
    forall k :: 0 <= k < |ticks| ==> ticks[k].Idle?
  }

  predicate Initial(w: World) {
    !w.stored.Completed? && AllIdle(w.ticks) && w.drive == Absent && w.held == [] && w.performed == 0 && w.trace == []
  }

  function Write(w: World, s: Status): World {
    w.(stored := s, trace := w.trace + [Wrote(s)])
  }

  predicate Inspectable(s: Status) {
    s.Running? || s.WaitingForReply? || s.Starting?
  }

  /** Statuses at which a drive is not taken up again. */
  predicate Settled(s: Status) {
    s.Completed? || s.Failed? || s.Cancelled? || s.BlockedExternal?
  }

  predicate Allowed(w: World, move: Move) {
    match move
    case Fetch(k) => k < |w.ticks| && w.ticks[k].Idle? && Inspectable(w.stored)
    case TickCapture(k) => k < |w.ticks| && !w.ticks[k].Idle?
    case Classify(k, _) => k < |w.ticks| && w.ticks[k].Fetched?
    case TickEnd(k) => k < |w.ticks| && !w.ticks[k].Idle?
    case StartDrive => w.drive.Absent? && !Settled(w.stored)
    case Poll => w.drive.Polling?
    case Decide(_) => w.drive.Polled?
    case Verify(hosts) => w.drive.Checking? && |hosts| == |w.commands|
    case VerifyImpossible => w.drive.Checking?
    case CaptureLog => w.drive.Finalizing?
    case MarkCompleted => w.drive.Finalizing?
    case SavePid => w.drive.FeedingBack?
    case Reply => w.drive.FeedingBack?
    case FeedBack => w.drive.Replied?
    case NextRound(_) => w.drive.Fed?
    case StallCapture => w.drive.Stalling?
    case DriveEnd => !w.drive.Absent?
    case Load => true
    case Resave(i) => i < |w.held|
    case Rewrite(i, s) => i < |w.held| && !s.Completed?
    case Stop(i) => i < |w.held|
    case Restart => true
  }

  function Turn(w: World, k: nat, tick: Tick): World
    requires k < |w.ticks|
  {
    w.(ticks := w.ticks[k := tick])
  }

  /** A supervisor acts on a claim, unless the object already says so. */
  function Classified(w: World, k: nat, claim: Claim): World
    requires k < |w.ticks| && w.ticks[k].Fetched?
  {
    var seen := w.ticks[k].seen;
    match claim
    case NeedsReply =>
      if seen.WaitingForReply? then Turn(w, k, Idle) else Turn(Write(w, WaitingForReply), k, Marked(WaitingForReply))
    case ClaimsDone => Turn(Write(w, Verifying), k, Idle)
    case HitsLimit => Turn(Write(w, UsageLimited), k, Idle)
    case ClaimsFailure => Turn(Write(w, Status.Failed), k, Idle)
    case Silent => Turn(Write(w, Stalled), k, Marked(Stalled))
    case Working => Turn(if seen.WaitingForReply? then Write(w, Running) else w, k, Idle)
  }

  /** The drive loop looks at the status it has read. */
  function Decided(w: World, late: bool): World
    requires w.drive.Polled?
  {
    var cur, n := w.drive.cur, w.drive.n;
    if cur.Verifying? then
      if n + 1 > w.limit then Write(w, Stalled).(drive := Stalling) else w.(drive := Checking(n + 1))
    else if Settled(cur) || cur.Stalled? then w.(drive := Absent)
    else if late then Write(w, Stalled).(drive := Stalling)
    else w.(drive := Polling(n))
  }

  function Judged(w: World, hosts: seq<Host>): World
    requires w.drive.Checking? && |hosts| == |w.commands|
  {
    var v := w.(performed := w.performed + 1, trace := w.trace + [Verified(hosts)]);
    match Outcome(w.commands, hosts)
    case Passed => v.(drive := Finalizing(w.drive.n))
    case Blocked => Write(v, BlockedExternal).(drive := Absent)
    case Failed => v.(drive := FeedingBack(w.drive.n))
  }

  function Stopped(s: Status): Status {
    if s.Completed? || s.Failed? then s else Cancelled
  }

  function After(w: World, move: Move): World
    requires Allowed(w, move)
  {
    match move
    case Fetch(k) => Turn(w, k, Fetched(w.stored))
    case TickCapture(k) => Write(w, w.ticks[k].seen)
    case Classify(k, claim) => Classified(w, k, claim)
    case TickEnd(k) => Turn(w, k, Idle)
    case StartDrive => w.(drive := Polling(0), performed := 0)
    case Poll => w.(drive := Polled(w.stored, w.drive.n))
    case Decide(late) => Decided(w, late)
    case Verify(hosts) => Judged(w, hosts)
    case VerifyImpossible => Write(w, Status.Failed).(drive := Absent)
    case CaptureLog => Write(w, Verifying)
    case MarkCompleted => Write(w, Completed).(drive := Absent)
    case SavePid => Write(w, Verifying)
    case Reply => Write(w, Running).(drive := Replied(w.drive.n))
    case FeedBack => Write(w, Running).(drive := Fed(w.drive.n))
    case NextRound(late) => if late then Write(w, Stalled).(drive := Stalling) else w.(drive := Polling(w.drive.n))
    case StallCapture => Write(w, Stalled)
    case DriveEnd => w.(drive := Absent)
    case Load => w.(held := w.held + [w.stored])
    case Resave(i) => Write(w, w.held[i])
    case Rewrite(i, s) => Write(w, s).(held := w.held[i := s])
    case Stop(i) => Write(w, Stopped(w.held[i])).(held := w.held[i := Stopped(w.held[i])])
    case Restart => w.(ticks := seq(|w.ticks|, _ => Idle), drive := Absent, held := [])
  }

  ghost predicate RunsTo(w: World, moves: seq<Move>, v: World)
    decreases |moves|
  {
    if |moves| == 0 then w == v
    else Allowed(w, moves[0]) && RunsTo(After(w, moves[0]), moves[1..], v)
  }

  // --- Completion rests on a verification

  /** Some run before this point satisfied the requirements of the task. */
  ghost predicate VerifiedBefore(commands: seq<Command>, trace: seq<Event>, i: nat) {
    exists j :: 0 <= j < i && j < |trace| && trace[j].Verified? && Sound(commands, trace[j].hosts)
  }

  ghost predicate Earned(w: World) {
    forall i :: 0 <= i < |w.trace| && w.trace[i] == Wrote(Completed) ==> VerifiedBefore(w.commands, w.trace, i)
  }

  /** Wherever the word `completed` is stored or remembered, a sound run has happened. */
  ghost predicate Backed(w: World) {
    var sound := VerifiedBefore(w.commands, w.trace, |w.trace|);
    && (w.stored.Completed? ==> sound)
    && (w.drive.Finalizing? ==> sound)
    && (forall i :: 0 <= i < |w.held| && w.held[i].Completed? ==> sound)
    && (forall k :: 0 <= k < |w.ticks| && !w.ticks[k].Idle? ==> !w.ticks[k].seen.Completed?)
  }

  /** The count of the drive loop bounds the runs it has performed. */
  predicate Capped(w: World) {
    match w.drive
    case Absent => w.performed <= w.limit
    case Stalling => w.performed <= w.limit
    case Polling(n) => w.performed <= n <= w.limit
    case Polled(_, n) => w.performed <= n <= w.limit
    case Checking(n) => w.performed < n <= w.limit
    case Finalizing(n) => w.performed <= n <= w.limit
    case FeedingBack(n) => w.performed <= n <= w.limit
    case Replied(n) => w.performed <= n <= w.limit
    case Fed(n) => w.performed <= n <= w.limit
  }

  ghost predicate Inv(w: World) {
    Earned(w) && Backed(w) && Capped(w)
  }

  lemma MoreTrace(commands: seq<Command>, trace: seq<Event>, e: Event, i: nat)
    requires VerifiedBefore(commands, trace, i)
    ensures VerifiedBefore(commands, trace + [e], i) && VerifiedBefore(commands, trace + [e], i + 1)
  {
    var j :| 0 <= j < i && j < |trace| && trace[j].Verified? && Sound(commands, trace[j].hosts);
    assert (trace + [e])[j] == trace[j];
  }

  /** A further event keeps what was earned, and adds to it when it is itself backed. */
  lemma EventKeepsEarned(w: World, e: Event)
    requires Earned(w) && (e == Wrote(Completed) ==> VerifiedBefore(w.commands, w.trace, |w.trace|))
    ensures Earned(w.(trace := w.trace + [e]))
    ensures VerifiedBefore(w.commands, w.trace, |w.trace|) ==> VerifiedBefore(w.commands, w.trace + [e], |w.trace| + 1)
    ensures e.Verified? && Sound(w.commands, e.hosts) ==> VerifiedBefore(w.commands, w.trace + [e], |w.trace| + 1)
  {
    var trace := w.trace + [e];
    forall i | 0 <= i < |trace| && trace[i] == Wrote(Completed)
      ensures VerifiedBefore(w.commands, trace, i)
    {
      MoreTrace(w.commands, w.trace, e, i);
    }
    if VerifiedBefore(w.commands, w.trace, |w.trace|) {
      MoreTrace(w.commands, w.trace, e, |w.trace|);
    }
    assert trace[|w.trace|] == e;
  }

  lemma VerifyKeepsInv(w: World, hosts: seq<Host>)
    requires Inv(w) && Allowed(w, Verify(hosts))
    ensures Inv(After(w, Verify(hosts)))
  {
    PassedIsSound(w.commands, hosts);
    var v := w.(trace := w.trace + [Verified(hosts)]);
    EventKeepsEarned(w, Verified(hosts));
    EventKeepsEarned(v, Wrote(BlockedExternal));
    hide VerifiedBefore, Outcome, Sound;
  }

  /** What has been earned so far. */
  ghost predicate SoundSoFar(w: World) {
    VerifiedBefore(w.commands, w.trace, |w.trace|)
  }

  /** A step other than a verification records what it saves, and saves completed only on good grounds. */
  lemma SaveIsRecorded(w: World, move: Move)
    requires Backed(w) && Allowed(w, move) && !move.Verify?
    ensures var v := After(w, move);
            && v.commands == w.commands
            && (v.trace == w.trace || v.trace == w.trace + [Wrote(v.stored)])
            && (v.trace == w.trace ==> v.stored == w.stored)
            && (v.stored.Completed? ==> SoundSoFar(w))
  {
    hide VerifiedBefore;
  }

  lemma SaveKeepsEarned(w: World, move: Move)
    requires Earned(w) && Backed(w) && Allowed(w, move) && !move.Verify?
    ensures Earned(After(w, move)) && (SoundSoFar(w) ==> SoundSoFar(After(w, move)))
  {
    SaveIsRecorded(w, move);
    hide After, Backed, Allowed;
    EventKeepsEarned(w, Wrote(After(w, move).stored));
  }

  lemma SaveKeepsBacked(w: World, move: Move)
    requires Backed(w) && Allowed(w, move) && !move.Verify? && (SoundSoFar(w) ==> SoundSoFar(After(w, move)))
    ensures Backed(After(w, move))
  {
    SaveIsRecorded(w, move);
    hide VerifiedBefore;
  }

  lemma SaveKeepsCapped(w: World, move: Move)
    requires Capped(w) && Allowed(w, move) && !move.Verify?
    ensures Capped(After(w, move))
  {
  }

  lemma MoveKeepsInv(w: World, move: Move)
    requires Inv(w) && Allowed(w, move)
    ensures Inv(After(w, move))
  {
    hide After, Earned, Backed, Capped;
    if move.Verify? {
      VerifyKeepsInv(w, move.hosts);
    } else {
      SaveKeepsEarned(w, move);
      SaveKeepsBacked(w, move);
      SaveKeepsCapped(w, move);
    }
  }

  lemma {:induction false} RunsKeepInv(w: World, moves: seq<Move>, v: World)
    requires Inv(w) && RunsTo(w, moves, v)
    ensures Inv(v) && v.commands == w.commands && v.limit == w.limit
    decreases |moves|
  {
    hide Inv;
    if |moves| > 0 {
      MoveKeepsInv(w, moves[0]);
      RunsKeepInv(After(w, moves[0]), moves[1..], v);
    }
  }

  /**
   Over every run, a save of `completed` comes after a verification in which every command was
   tried, none was blocked and every required one exited with zero.
   */
  lemma CompletionIsEarned(w: World, moves: seq<Move>, v: World, i: nat)
    requires Initial(w) && RunsTo(w, moves, v) && i < |v.trace| && v.trace[i] == Wrote(Completed)
    ensures exists j :: 0 <= j < i && v.trace[j].Verified? && Sound(w.commands, v.trace[j].hosts)
  {
    RunsKeepInv(w, moves, v);
    assert VerifiedBefore(v.commands, v.trace, i);
  }

  /** The stored status is the last one saved, so a stored `completed` was earned too. */
  lemma StoredCompletionIsEarned(w: World, moves: seq<Move>, v: World)
    requires Initial(w) && RunsTo(w, moves, v) && v.stored.Completed?
    ensures exists j :: 0 <= j < |v.trace| && v.trace[j].Verified? && Sound(w.commands, v.trace[j].hosts)
  {
    RunsKeepInv(w, moves, v);
  }

  /** A run for the commands of a specification met it. */
  ghost predicate MetBy(spec: Spec, e: Event) {
    e.Verified? && |e.hosts| == HostCount(spec) && Met(spec, e.hosts)
  }

  /**
   The same in terms of a task's specification: each save of completed comes after a run in which every
   required command ran well and a required live command had its variables and ran well.
   */
  lemma SpecIsMetBeforeCompletion(spec: Spec, w: World, moves: seq<Move>, v: World, i: nat)
    requires Initial(w) && w.commands == Configured(spec)
    requires RunsTo(w, moves, v) && i < |v.trace| && v.trace[i] == Wrote(Completed)
    ensures exists j :: 0 <= j < i && MetBy(spec, v.trace[j])
  {
    CompletionIsEarned(w, moves, v, i);
    var j :| 0 <= j < i && v.trace[j].Verified? && Sound(w.commands, v.trace[j].hosts);
    var hosts := v.trace[j].hosts;
    assert |Configured(spec)| == HostCount(spec);
    VerdictOfSpec(spec, hosts);
    PassedIsSound(w.commands, hosts);
    assert MetBy(spec, v.trace[j]);
  }

  // --- The bound on verifications

  /** The verifications since the drive loop was last entered. */
  function SinceStart(moves: seq<Move>, count: nat): nat
    decreases |moves|
  {
    if |moves| == 0 then count
    else SinceStart(moves[1..], if moves[0].StartDrive? then 0 else if moves[0].Verify? then count + 1 else count)
  }

  lemma {:induction false} PerformedCounts(w: World, moves: seq<Move>, v: World)
    requires RunsTo(w, moves, v)
    ensures v.performed == SinceStart(moves, w.performed)
    decreases |moves|
  {
    if |moves| > 0 {
      PerformedCounts(After(w, moves[0]), moves[1..], v);
    }
  }

  /** One drive performs at most the configured number of verifications. */
  lemma DriveIsBounded(w: World, moves: seq<Move>, v: World)
    requires Initial(w) && RunsTo(w, moves, v)
    ensures SinceStart(moves, 0) <= w.limit
  {
    RunsKeepInv(w, moves, v);
    PerformedCounts(w, moves, v);
  }

  // --- Finality

  /** A move by which an outside request saves its object. */
  predicate Outside(move: Move) {
    move.Resave? || move.Rewrite? || move.Stop?
  }

  predicate Quiet(moves: seq<Move>) {
    forall i :: 0 <= i < |moves| ==> !Outside(moves[i])
  }

  /** No supervisor holds an object, and the drive loop has nothing to save once it looks again. */
  predicate Durable(w: World) {
    && AllIdle(w.ticks)
    && (w.drive.Absent? || w.drive.Polling? || (w.drive.Polled? && (Settled(w.drive.cur) || w.drive.cur.Stalled?)))
  }

  /** Whatever supervisors, drive loops and restarts do from here on, the session stays completed. */
  ghost predicate Survives(w: World) {
    forall moves, v :: RunsTo(w, moves, v) && Quiet(moves) ==> v.stored.Completed?
  }

  lemma QuietKeepsDurable(w: World, move: Move)
    requires w.stored.Completed? && Durable(w) && Allowed(w, move) && !Outside(move)
    ensures After(w, move).stored.Completed? && Durable(After(w, move))
  {
  }

  lemma {:induction false} DurableSurvives(w: World, moves: seq<Move>, v: World)
    requires w.stored.Completed? && Durable(w) && RunsTo(w, moves, v) && Quiet(moves)
    ensures v.stored.Completed?
    decreases |moves|
  {
    hide After, Durable;
    if |moves| > 0 {
      QuietKeepsDurable(w, moves[0]);
      DurableSurvives(After(w, moves[0]), moves[1..], v);
    }
  }

  lemma RunsOne(w: World, move: Move)
    requires Allowed(w, move)
    ensures RunsTo(w, [move], After(w, move))
  {
    assert [move][1..] == [];
  }

  lemma {:induction false} RunsAppend(w: World, first: seq<Move>, u: World, second: seq<Move>, v: World)
    requires RunsTo(w, first, u) && RunsTo(u, second, v)
    ensures RunsTo(w, first + second, v)
    decreases |first|
  {
    if |first| == 0 {
      assert first + second == second;
    } else {
      RunsAppend(After(w, first[0]), first[1..], u, second, v);
      assert (first + second)[1..] == first[1..] + second;
    }
  }

  lemma Then(w: World, moves: seq<Move>, u: World, move: Move)
    requires RunsTo(w, moves, u) && Allowed(u, move)
    ensures RunsTo(w, moves + [move], After(u, move))
  {
    RunsOne(u, move);
    RunsAppend(w, moves, u, [move], After(u, move));
  }

  /** A verification in which no command can be started. */
  function NothingRuns(w: World): seq<Host> {
    seq(|w.commands|, _ => Host({}, Unparsable, false, NotFound))
  }

  /** Any verdict is followed by a save of another status than completed. */
  lemma CheckingSaves(w: World) returns (moves: seq<Move>, v: World)
    requires w.drive.Checking?
    ensures RunsTo(w, moves, v) && Quiet(moves) && !v.stored.Completed?
  {
    var u := After(w, Verify(NothingRuns(w)));
    RunsOne(w, Verify(NothingRuns(w)));
    moves, v := [Verify(NothingRuns(w))], u;
    hide RunsTo;
    if u.drive.Finalizing? {
      Then(w, moves, u, CaptureLog);
      moves, v := moves + [CaptureLog], After(u, CaptureLog);
    } else if u.drive.FeedingBack? {
      Then(w, moves, u, Reply);
      moves, v := moves + [Reply], After(u, Reply);
    }
  }

  lemma DriveSaves(w: World) returns (moves: seq<Move>, v: World)
    requires !w.drive.Absent? && !w.drive.Polling? && !w.drive.Checking?
    requires w.drive.Polled? ==> !Settled(w.drive.cur) && !w.drive.cur.Stalled?
    ensures RunsTo(w, moves, v) && Quiet(moves) && (!v.stored.Completed? || v.drive.Checking?)
  {
    var move :=
      match w.drive
      case Polled(_, _) => Decide(true)
      case Finalizing(_) => CaptureLog
      case FeedingBack(_) => Reply
      case Replied(_) => FeedBack
      case Fed(_) => NextRound(true)
      case _ => StallCapture;
    RunsOne(w, move);
    moves, v := [move], After(w, move);
  }

  lemma FragileFails(w: World) returns (moves: seq<Move>, v: World)
    requires Backed(w) && !Durable(w)
    ensures RunsTo(w, moves, v) && Quiet(moves) && !v.stored.Completed?
  {
    if k :| 0 <= k < |w.ticks| && !w.ticks[k].Idle? {
      RunsOne(w, TickCapture(k));
      moves, v := [TickCapture(k)], After(w, TickCapture(k));
    } else if w.drive.Checking? {
      moves, v := CheckingSaves(w);
    } else {
      moves, v := DriveSaves(w);
      hide RunsTo;
      if v.drive.Checking? {
        var rest, u := CheckingSaves(v);
        RunsAppend(w, moves, v, rest, u);
        moves, v := moves + rest, u;
      }
    }
  }

  /**
   In every reachable state, a completed session stays completed over all further runs without
   outside saves if and only if no supervisor holds an object of it and the drive loop is over,
   about to look again, or has just read a status at which it ends.
   */
  lemma SurvivesExactly(start: World, before: seq<Move>, w: World)
    requires Initial(start) && RunsTo(start, before, w) && w.stored.Completed?
    ensures Survives(w) <==> Durable(w)
  {
    assert Inv(start);
    RunsKeepInv(start, before, w);
    if Durable(w) {
      forall moves, v | RunsTo(w, moves, v) && Quiet(moves) ensures v.stored.Completed? {
        DurableSurvives(w, moves, v);
      }
    } else {
      var moves, v := FragileFails(w);
    }
  }

  /** Without outside saves only the drive loop completes a session, and it ends with that. */
  predicate EndsCompleted(w: World) {
    w.stored.Completed? ==> w.drive.Absent?
  }

  lemma QuietKeepsEnd(w: World, move: Move)
    requires Backed(w) && EndsCompleted(w) && Allowed(w, move) && !Outside(move)
    ensures EndsCompleted(After(w, move))
  {
  }

  lemma {:induction false} QuietRunsEnd(w: World, moves: seq<Move>, v: World)
    requires Inv(w) && EndsCompleted(w) && RunsTo(w, moves, v) && Quiet(moves)
    ensures Inv(v) && EndsCompleted(v)
    decreases |moves|
  {
    hide After, EndsCompleted, Earned, Backed, Capped;
    if |moves| > 0 {
      MoveKeepsInv(w, moves[0]);
      QuietKeepsEnd(w, moves[0]);
      QuietRunsEnd(After(w, moves[0]), moves[1..], v);
    }
  }

  /** After a run without outside saves, a completed session survives exactly if no supervisor holds an object of it. */
  lemma QuietSurvivesExactly(start: World, before: seq<Move>, w: World)
    requires Initial(start) && RunsTo(start, before, w) && Quiet(before) && w.stored.Completed?
    ensures Survives(w) <==> AllIdle(w.ticks)
  {
    assert Inv(start) && EndsCompleted(start);
    QuietRunsEnd(start, before, w);
    SurvivesExactly(start, before, w);
    hide RunsTo, Survives;
  }

  /** The drive loop works on an object that says verifying. */
  predicate Verifies(drive: Drive) {
    drive.Checking? || drive.Finalizing? || drive.FeedingBack? || (drive.Polled? && drive.cur.Verifying?)
  }

  /**
   With one supervisor and no outside saves the supervisor never holds an object of a session that
   is being verified or is completed, and a drive that verifies has the status to itself.
   */
  predicate Exclusive(w: World) {
    && |w.ticks| <= 1
    && (|w.ticks| == 1 && !w.ticks[0].Idle? ==>
          !w.stored.Verifying? && !w.stored.Completed? && !w.ticks[0].seen.Verifying?)
    && (Verifies(w.drive) ==> w.stored.Verifying?)
    && EndsCompleted(w)
  }

  lemma QuietKeepsExclusive(w: World, move: Move)
    requires Backed(w) && Exclusive(w) && Allowed(w, move) && !Outside(move)
    ensures Exclusive(After(w, move))
  {
  }

  lemma {:induction false} QuietRunsStayExclusive(w: World, moves: seq<Move>, v: World)
    requires Inv(w) && Exclusive(w) && RunsTo(w, moves, v) && Quiet(moves)
    ensures Inv(v) && Exclusive(v)
    decreases |moves|
  {
    hide After, Exclusive, Earned, Backed, Capped;
    if |moves| > 0 {
      MoveKeepsInv(w, moves[0]);
      QuietKeepsExclusive(w, moves[0]);
      QuietRunsStayExclusive(After(w, moves[0]), moves[1..], v);
    }
  }

  /** With one task at a time and without outside saves every completed session survives. */
  lemma SoleSupervisorIsFinal(start: World, before: seq<Move>, w: World)
    requires Initial(start) && |start.ticks| <= 1 && RunsTo(start, before, w) && Quiet(before) && w.stored.Completed?
    ensures Survives(w)
  {
    assert Inv(start) && Exclusive(start);
    QuietRunsStayExclusive(start, before, w);
    QuietSurvivesExactly(start, before, w);
    hide RunsTo, Survives;
  }

  /** Stopping a session cancels it unless its object says completed or failed, which it then keeps. */
  lemma StopKeepsVerdicts(w: World, i: nat)
    requires i < |w.held|
    ensures var v := After(w, Stop(i));
            && v.stored == v.held[i] && |v.trace| > 0 && v.trace[|v.trace| - 1] == Wrote(v.stored)
            && (w.held[i] in {Completed, Status.Failed} ==> v.stored == w.held[i])
            && (w.held[i] !in {Completed, Status.Failed} ==> v.stored == Cancelled)
  {
  }

  // --- Runs in which completion is taken back

  /** A task without commands has been claimed done: the drive loop verifies and completes it. */
  lemma CompletesAtOnce(w: World) returns (moves: seq<Move>, v: World)
    requires w.drive == Polling(0) && w.stored == Verifying && w.commands == [] && w.limit > 0
    ensures RunsTo(w, moves, v) && Quiet(moves) && v.stored.Completed?
    ensures v.held == w.held && v.ticks == w.ticks
  {
    var a := After(w, Poll);
    var b := After(a, Decide(false));
    var c := After(b, Verify([]));
    RunsOne(w, Poll);
    hide RunsTo;
    Then(w, [Poll], a, Decide(false));
    Then(w, [Poll] + [Decide(false)], b, Verify([]));
    Then(w, [Poll] + [Decide(false)] + [Verify([])], c, MarkCompleted);
    moves, v := [Poll] + [Decide(false)] + [Verify([])] + [MarkCompleted], After(c, MarkCompleted);
  }

  /** A running session is taken up by its drive loop and claimed done. */
  lemma ClaimedDone(w: World) returns (moves: seq<Move>, v: World)
    requires w.drive.Absent? && w.stored.Running? && |w.ticks| > 0 && w.ticks[0].Idle?
    ensures RunsTo(w, moves, v) && Quiet(moves)
    ensures v == w.(drive := Polling(0), stored := Verifying, performed := 0, trace := w.trace + [Wrote(Verifying)])
  {
    var a := After(w, StartDrive);
    var b := After(a, Fetch(0));
    RunsOne(w, StartDrive);
    hide RunsTo;
    Then(w, [StartDrive], a, Fetch(0));
    Then(w, [StartDrive] + [Fetch(0)], b, Classify(0, ClaimsDone));
    moves, v := [StartDrive] + [Fetch(0)] + [Classify(0, ClaimsDone)], After(b, Classify(0, ClaimsDone));
    assert v.ticks == w.ticks;
  }

  lemma ClaimedAndCompleted(w: World) returns (moves: seq<Move>, v: World)
    requires w.drive.Absent? && w.stored.Running? && |w.ticks| > 0 && w.ticks[0].Idle? && w.commands == [] && w.limit > 0
    ensures RunsTo(w, moves, v) && Quiet(moves) && v.stored.Completed? && v.held == w.held && v.ticks == w.ticks
  {
    hide RunsTo;
    var first, u := ClaimedDone(w);
    var rest;
    rest, v := CompletesAtOnce(u);
    RunsAppend(w, first, u, rest, v);
    moves := first + rest;
  }

  /** A reply that read the session earlier puts it back to running: an outside save. */
  lemma StaleReplyReopens(w: World) returns (moves: seq<Move>, u: World, v: World)
    requires Initial(w) && w.stored.Running? && w.commands == [] && w.limit > 0 && |w.ticks| > 0
    ensures RunsTo(w, moves, u) && u.stored.Completed?
    ensures Allowed(u, Rewrite(0, Running)) && v == After(u, Rewrite(0, Running)) && v.stored.Running?
  {
    hide RunsTo;
    RunsOne(w, Load);
    var rest;
    rest, u := ClaimedAndCompleted(After(w, Load));
    RunsAppend(w, [Load], After(w, Load), rest, u);
    moves, v := [Load] + rest, After(u, Rewrite(0, Running));
  }

  /** The supervisor of another task read the session as running and saves that: no outside request is needed. */
  lemma OtherSupervisorReopens(w: World) returns (moves: seq<Move>, u: World, v: World)
    requires Initial(w) && w.stored.Running? && w.commands == [] && w.limit > 0 && |w.ticks| > 1
    ensures RunsTo(w, moves, u) && Quiet(moves) && u.stored.Completed?
    ensures Allowed(u, TickCapture(1)) && v == After(u, TickCapture(1)) && v.stored.Running?
  {
    hide RunsTo;
    RunsOne(w, Fetch(1));
    var rest;
    rest, u := ClaimedAndCompleted(After(w, Fetch(1)));
    RunsAppend(w, [Fetch(1)], After(w, Fetch(1)), rest, u);
    moves, v := [Fetch(1)] + rest, After(u, TickCapture(1));
  }

  /** The drive loop is in the middle of a verification when the session is put back to running. */
  lemma ReopenedUnderVerification(w: World) returns (moves: seq<Move>, v: World)
    requires w.drive == Polling(0) && w.stored == Verifying && w.limit > 0 && |w.ticks| > 0 && w.ticks[0].Idle?
    requires w.held == []
    ensures RunsTo(w, moves, v) && v.drive == Checking(1) && |v.ticks| == |w.ticks| && v.ticks[0] == Fetched(Running)
    ensures v.commands == w.commands
  {
    var a := After(w, Poll);
    var b := After(a, Decide(false));
    var c := After(b, Load);
    var d := After(c, Rewrite(0, Running));
    RunsOne(w, Poll);
    hide RunsTo;
    Then(w, [Poll], a, Decide(false));
    Then(w, [Poll] + [Decide(false)], b, Load);
    Then(w, [Poll] + [Decide(false)] + [Load], c, Rewrite(0, Running));
    Then(w, [Poll] + [Decide(false)] + [Load] + [Rewrite(0, Running)], d, Fetch(0));
    moves := [Poll] + [Decide(false)] + [Load] + [Rewrite(0, Running)] + [Fetch(0)];
    v := After(d, Fetch(0));
  }

  /**
   A single supervisor does it too after an earlier outside save: it reads the reopened session while
   the verification goes on, and saves what it read after the completion.
   */
  lemma LateTurnReopens(w: World) returns (moves: seq<Move>, u: World, v: World)
    requires Initial(w) && w.stored.Running? && w.commands == [] && w.limit > 0 && |w.ticks| == 1
    ensures RunsTo(w, moves, u) && u.stored.Completed?
    ensures Allowed(u, TickCapture(0)) && v == After(u, TickCapture(0)) && v.stored.Running?
  {
    hide RunsTo;
    var first, c := ClaimedDone(w);
    var rest, d := ReopenedUnderVerification(c);
    RunsAppend(w, first, c, rest, d);
    var e := After(d, Verify([]));
    Then(w, first + rest, d, Verify([]));
    Then(w, first + rest + [Verify([])], e, MarkCompleted);
    moves, u := first + rest + [Verify([])] + [MarkCompleted], After(e, MarkCompleted);
    v := After(u, TickCapture(0));
  }
}
