/**
 What every reachable state of the dispatcher satisfies, cell by cell, and the proof that
 every step keeps it.
 */
module DispatchInvariant {
  import opened Wrappers
  import opened RuntimeProtocol
  import opened RuntimeHistory
  import opened RuntimeStream
  import opened TaskStore
  import opened DispatchMachine

  // --- The parts of the invariant

  /** At most one run was ever launched, it owns the one active entry, and the map holds that entry while it works. */
  ghost predicate Launches(runs: seq<Run>, objects: seq<Active>, current: int, up: bool) {
    && |runs| <= 1
    && |objects| == |runs|
    && (current == -1 || current == 0)
    && (current == 0 <==> |runs| == 1 && runs[0].alive && !runs[0].finished)
    && (|runs| == 1 ==>
          && (runs[0].alive ==> up)
          && (runs[0].held == NotYet || runs[0].held == Object(0))
          && (runs[0].attached <==> objects[0].handle)
          && (runs[0].held == NotYet ==> !runs[0].attached && runs[0].ended.None?)
          && (!runs[0].attached ==> runs[0].supervisor.Idle?)
          && (runs[0].finished ==> runs[0].ended.Some?))
  }

  /** A record says scheduled only if its task was never launched. */
  ghost predicate Records(mem: Option<Task>, disk: Option<Task>, launched: bool, up: bool) {
    && (!up ==> mem.None?)
    && (mem.Some? ==> disk.Some?)
    && (launched ==>
          && disk.Some? && !disk.value.state.Scheduled?
          && (up ==> mem.Some?)
          && (mem.Some? ==> !mem.value.state.Scheduled?))
    && (!launched ==>
          && (mem.Some? ==> mem.value.state in {Scheduled, Cancelled, Lost})
          && (disk.Some? ==> disk.value.state in {Scheduled, Running, Cancelled, Lost}))
  }

  /** The frames a sink took explain what its supervisor gathered. */
  ghost predicate RunExplained(r: Run) {
    && (r.supervisor.Idle? ==> r.seen == [])
    && (r.supervisor.Live? ==>
          && Explains(r.seen, r.supervisor.gathered)
          && ValidatorFollows(r.seen, r.supervisor.validator)
          && r.supervisor.gathered.err == {})
    && (r.supervisor.Done? ==> Explains(r.seen, r.supervisor.result) && Foreign(r.supervisor.result.err))
    && (r.ended.Some? ==> ExitPossible(r.ended.value.exit, r.supervisor) && ForeignEnd(r.ended.value))
  }

  function Last(frames: seq<Frame>): Frame
    requires |frames| > 0
  {
    frames[|frames| - 1]
  }

  predicate Completed(frames: seq<Frame>) {
    |frames| > 0 && Last(frames).kind.RunCompleted?
  }

  /** The terminal frame of a completed run is where the stored output came from. */
  ghost predicate OutputTaken(mem: Option<Task>, r: Run) {
    r.alive && Completed(r.seen) ==>
      mem.Some? && mem.value.output.Some? && mem.value.output == Last(r.seen).artifact
  }

  /**
   The run deserved its success: the last frame of its stream was a terminal run.completed
   with a valid artifact, which is the stored output, the process exited with zero and
   unsignalled, nothing failed on the way and nobody asked for a cancel.
   */
  ghost predicate Earned(r: Run, entry: Active, output: Option<Artifact>) {
    && r.finished && r.ended.Some?
    && CleanRun(r.ended.value.exit, r.supervisor, r.ended.value.envCleanup)
    && Completed(r.seen) && Last(r.seen).terminal
    && output.Some? && output == Last(r.seen).artifact
    && !entry.cancelRequested
  }

  ghost predicate Won(task: Option<Task>) {
    task.Some? && task.value.state.Succeeded?
  }

  ghost predicate Successes(mem: Option<Task>, disk: Option<Task>, runs: seq<Run>, objects: seq<Active>) {
    && (Won(disk) ==> |runs| == 1 && |objects| == 1 && Earned(runs[0], objects[0], disk.value.output))
    && (Won(mem) ==> Won(disk) && disk.value.output == mem.value.output)
    && (Won(disk) && mem.Some? ==> Won(mem) || mem.value.state.Lost?)
  }

  predicate Open(state: TaskState) {
    state.Scheduled? || state.Succeeded? || state.Failed?
  }

  /** The run that is still at work, if any, will see the cancel request. */
  ghost predicate Warned(objects: seq<Active>, current: int) {
    current == 0 && |objects| == 1 ==> objects[0].cancelRequested
  }

  ghost predicate Cancels(mem: Option<Task>, disk: Option<Task>, warned: bool, cancelled: bool, doomed: bool, up: bool) {
    && (cancelled ==> mem.Some? && !Open(mem.value.state) && warned)
    && (doomed ==> Doomed(disk) && (up ==> mem.Some?) && (mem.Some? ==> !Open(mem.value.state)) && warned)
  }

  /** Command numbers are 2, 3, ... without gap or repetition, and every key names its own command. */
  ghost predicate Numbered(commands: map<string, Command>) {
    && (forall k :: k in commands ==> 2 <= commands[k].sequence <= |commands| + 1 && commands[k].digest.key == k)
    && (forall j, k :: j in commands && k in commands && commands[j].sequence == commands[k].sequence ==> j == k)
    && (forall n :: 2 <= n <= |commands| + 1 ==> HasNumber(commands, n))
  }

  ghost predicate HasNumber(commands: map<string, Command>, n: nat) {
    exists k :: k in commands && commands[k].sequence == n
  }

  ghost predicate NumberedIn(task: Option<Task>) {
    task.Some? ==> Numbered(task.value.commands)
  }

  ghost predicate NoCommands(task: Option<Task>) {
    task.Some? ==> task.value.commands == map[]
  }

  /** The next free number of the active entry follows the commands on record. */
  ghost predicate Counted(mem: Option<Task>, objects: seq<Active>, current: int) {
    current == 0 && |objects| == 1 && mem.Some? ==>
      if objects[0].handle then objects[0].requestSeq == |mem.value.commands| + 1
      else mem.value.commands == map[]
  }

  /** The command is the one that was issued, whether or not it was recorded as sent. */
  predicate SameCommand(command: Command, issued: (nat, Resume)) {
    command.sequence == issued.0 && command.digest == issued.1
  }

  /** The commands on record are exactly those that were issued. */
  ghost predicate OnRecord(commands: map<string, Command>, issued: map<string, (nat, Resume)>) {
    && issued.Keys == commands.Keys
    && forall k :: k in issued ==> SameCommand(commands[k], issued[k])
  }

  ghost predicate IssuedOnce(issued: map<string, (nat, Resume)>) {
    && (forall k :: k in issued ==> issued[k].1.key == k)
    && (forall j, k :: j in issued && k in issued && issued[j].0 == issued[k].0 ==> j == k)
  }

  predicate IsIssued(issued: map<string, (nat, Resume)>, n: nat, r: Resume) {
    r.key in issued && issued[r.key] == (n, r)
  }

  /** Nothing is or was sent that was not issued. */
  ghost predicate Traffic(issued: map<string, (nat, Resume)>, sends: seq<Send>, sent: seq<(nat, Resume)>) {
    && (forall i :: 0 <= i < |sends| ==> IsIssued(issued, sends[i].sequence, sends[i].request))
    && (forall i :: 0 <= i < |sent| ==> IsIssued(issued, sent[i].0, sent[i].1))
  }

  ghost predicate NoTraffic(c: Cell) {
    && c.sends == [] && c.sent == [] && c.issued == map[]
    && NoCommands(c.mem) && NoCommands(c.disk)
  }

  /** The file and the record in memory are about the same request. */
  ghost predicate SameTask(mem: Option<Task>, disk: Option<Task>) {
    mem.Some? ==>
      && disk.Some?
      && disk.value.input == mem.value.input
      && disk.value.owner == mem.value.owner
      && disk.value.fence == mem.value.fence
  }

  ghost predicate Accepted(mem: Option<Task>, disk: Option<Task>, accepted: Option<(string, Input)>, up: bool) {
    accepted.Some? ==>
      && disk.Some? && (disk.value.owner, disk.value.input) == accepted.value
      && (up ==> mem.Some?)
  }

  ghost predicate Filed(key: string, disk: Option<Task>) {
    disk.Some? ==> StorageKey(disk.value.input) == key && disk.value.input.idempotencyKey != ""
  }

  ghost predicate History(task: Option<Task>) {
    task.Some? ==> WellFormed(task.value.history)
  }

  // --- The invariant, in three parts that are proved separately

  /** What is launched, what is on record, and what that says about the outcome. */
  ghost predicate OutcomeInv(c: Cell, up: bool) {
    && Launches(c.runs, c.objects, c.current, up)
    && Records(c.mem, c.disk, |c.runs| == 1, up)
    && (|c.runs| == 1 ==> RunExplained(c.runs[0]) && OutputTaken(c.mem, c.runs[0]))
    && Successes(c.mem, c.disk, c.runs, c.objects)
    && Cancels(c.mem, c.disk, Warned(c.objects, c.current), c.cancelled, c.doomed, up)
  }

  /** What the resume calls may rely on. */
  ghost predicate CommandInv(c: Cell) {
    && NumberedIn(c.mem) && NumberedIn(c.disk)
    && Counted(c.mem, c.objects, c.current)
    && IssuedOnce(c.issued)
    && Traffic(c.issued, c.sends, c.sent)
    && (|c.runs| == 0 ==> NoTraffic(c))
    && (|c.sends| > 0 ==> |c.runs| == 1 && c.runs[0].alive)
    && (|c.runs| == 1 && c.runs[0].alive && c.mem.Some? ==> OnRecord(c.mem.value.commands, c.issued))
  }

  /** What a record keeps through writes and reloads. */
  ghost predicate RecordInv(key: string, c: Cell, up: bool) {
    && SameTask(c.mem, c.disk)
    && Accepted(c.mem, c.disk, c.accepted, up)
    && Filed(key, c.disk)
    && History(c.mem) && History(c.disk)
  }

  ghost predicate CellInv(key: string, c: Cell, up: bool) {
    OutcomeInv(c, up) && CommandInv(c) && RecordInv(key, c, up)
  }

  lemma EmptyCellInv(key: string, up: bool)
    ensures CellInv(key, EMPTY_CELL, up)
  {
  }

  // --- Every step keeps the invariant

  lemma {:induction false} AttemptsWriteOneRecord(disk: Option<Task>, task: Task, ps: seq<Persist>)
    ensures var (written, after) := Attempts(disk, task, ps);
            (after == disk || after == Some(task)) && (written ==> after == Some(task))
    decreases |ps|
  {
    if |ps| > 0 && !ps[0].Synced? {
      AttemptsWriteOneRecord(Write(disk, task, ps[0]), task, ps[1..]);
    }
  }

  /** Finish leaves the final or the lost record in memory, and one of those or the old one on disk. */
  lemma FinishOutcome(s: Slot, cancelSeen: bool, err: Errors, ps: seq<Persist>)
    requires |ps| == FINISH_ATTEMPTS + 1 && s.mem.Some?
    ensures var t := FinalTask(s.mem.value, cancelSeen, err);
            var after := FinishSection(s, cancelSeen, err, ps);
            && after.active.None?
            && ((after.mem == Some(t) && after.disk == Some(t)) ||
                (after.mem == Some(LostTask(t)) && after.disk in {s.disk, Some(t), Some(LostTask(t))}))
  {
    AttemptsWriteOneRecord(s.disk, FinalTask(s.mem.value, cancelSeen, err), ps[..FINISH_ATTEMPTS]);
  }

  // --- Steps and outcomes

  lemma ScheduleKeepsOutcome(c: Cell, input: Input, owner: string, fence: nat, p: Persist)
    requires OutcomeInv(c, true) && c.mem.None?
    ensures OutcomeInv(ApplySchedule(c, input, owner, fence, p), true)
  {
  }

  lemma StartKeepsOutcome(c: Cell, p: Persist)
    requires OutcomeInv(c, true) && Startable(SlotOf(c))
    ensures OutcomeInv(ApplyStart(c, p), true)
  {
  }

  /** A run may move on as long as it stays explained and keeps what it already decided. */
  ghost predicate Advances(r: Run, next: Run) {
    && next.alive == r.alive && next.finished == r.finished && next.attached == r.attached
    && (next.held == r.held || (r.held.NotYet? && next.held == Object(0)))
    && (next.held.NotYet? ==> next.ended.None?)
    && (!next.attached ==> next.supervisor.Idle?)
    && (r.ended.Some? ==> next.ended == r.ended)
    && (r.supervisor.Done? ==> next.supervisor == r.supervisor && next.seen == r.seen)
  }

  lemma AdvanceKeepsOutcome(c: Cell, next: Run)
    requires OutcomeInv(c, true) && |c.runs| == 1 && Advances(c.runs[0], next)
    requires RunExplained(next) && OutputTaken(c.mem, next)
    ensures OutcomeInv(WithRun(c, 0, next), true)
  {
  }

  lemma AttachKeepsOutcome(c: Cell)
    requires OutcomeInv(c, true) && |c.runs| == 1 && c.current == 0 && !c.runs[0].held.NotYet?
    ensures OutcomeInv(ApplyAttach(c, 0), true)
  {
  }

  /** While its stream is open a task is on nobody's list of successes. */
  lemma LiveIsNotWon(c: Cell)
    requires OutcomeInv(c, true) && |c.runs| == 1 && !(c.runs[0].finished && c.runs[0].supervisor.Done?)
    ensures !Won(c.mem) && !Won(c.disk)
  {
  }

  /** The record changes in a way that settles nothing. */
  ghost predicate Touched(t: Task, next: Task) {
    && next.input == t.input && next.owner == t.owner && next.fence == t.fence
    && (next.state == t.state || next.state.WaitingApproval? || next.state.Running?)
  }

  ghost predicate TouchedOnDisk(disk: Option<Task>, mem: Task, next: Option<Task>) {
    next == disk ||
    (next.Some? && Touched(mem, next.value) && next.value.state == mem.state && next.value.output == mem.output)
  }

  lemma TouchKeepsOutcome(c: Cell, mem: Task, disk: Option<Task>)
    requires OutcomeInv(c, true) && |c.runs| == 1 && c.mem.Some?
    requires Touched(c.mem.value, mem) && TouchedOnDisk(c.disk, mem, disk)
    requires mem.output == c.mem.value.output || !Completed(c.runs[0].seen)
    requires Won(c.mem) || Won(c.disk) ==> mem.state == c.mem.value.state
    requires Won(c.mem) ==> mem.output == c.mem.value.output
    ensures OutcomeInv(c.(mem := Some(mem), disk := disk), true)
  {
  }

  lemma CountKeepsOutcome(c: Cell, n: nat)
    requires OutcomeInv(c, true) && |c.objects| == 1
    ensures OutcomeInv(c.(objects := [c.objects[0].(requestSeq := n)]), true)
  {
  }

  lemma SameEntry(c: Cell, s: Slot)
    requires CurrentOk(c) && s.active == SlotOf(c).active
    ensures WithSlot(c, s) == c.(mem := s.mem, disk := s.disk)
  {
    if c.current >= 0 {
      assert c.objects[c.current := c.objects[c.current]] == c.objects;
    }
  }

  lemma ObserveEffect(s: Slot, f: Frame, p: Persist)
    requires s.mem.Some?
    ensures var next := ObserveSection(s, f, p);
            && next.active == s.active && next.mem.Some?
            && Touched(s.mem.value, next.mem.value)
            && TouchedOnDisk(s.disk, next.mem.value, next.disk)
            && (ObserveOk(s, f, p) && f.kind.RunCompleted? ==>
                  next.mem.value.output.Some? && next.mem.value.output == f.artifact)
            && (!f.kind.RunCompleted? ==> next.mem.value.output == s.mem.value.output)
            && next.mem.value.commands == s.mem.value.commands
            && (next.disk == s.disk || next.disk == next.mem)
  {
    hide Append, ValidEnvelope;
  }

  /** The record after the sink took or refused a frame. */
  lemma ObserveKeepsOutcome(c: Cell, f: Frame, p: Persist)
    requires OutcomeInv(c, true) && |c.runs| == 1 && c.runs[0].supervisor.Live? && c.mem.Some?
    requires ReachesSink(c.runs[0].supervisor, c.mem.value.input.runId, f)
    ensures var s := ObserveSection(SlotOf(c), f, p);
            var next := c.(mem := s.mem, disk := s.disk);
            && OutcomeInv(next, true)
            && WithSlot(c, s) == next
            && (ObserveOk(SlotOf(c), f, p) && f.kind.RunCompleted? ==>
                  next.mem.Some? && next.mem.value.output.Some? && next.mem.value.output == f.artifact)
  {
    LiveIsNotWon(c);
    ObserveEffect(SlotOf(c), f, p);
    var s := ObserveSection(SlotOf(c), f, p);
    SameEntry(c, s);
    assert !Completed(c.runs[0].seen);
    TouchKeepsOutcome(c, s.mem.value, s.disk);
  }

  /** The supervisor after one turn of its loop. */
  lemma TurnKeepsOutcome(c: Cell, runId: string, item: StreamItem, ok: bool)
    requires OutcomeInv(c, true) && |c.runs| == 1 && c.runs[0].supervisor.Live?
    requires !ok || (item.FrameItem? && ReachesSink(c.runs[0].supervisor, runId, item.frame))
    requires ok && item.frame.kind.RunCompleted? ==>
               c.mem.Some? && c.mem.value.output.Some? && c.mem.value.output == item.frame.artifact
    ensures var run := c.runs[0];
            OutcomeInv(WithRun(c, 0, run.(supervisor := Supervise(run.supervisor, runId, item, ok),
                                          seen := if ok then run.seen + [item.frame] else run.seen)), true)
  {
    var run := c.runs[0];
    SuperviseExplained(run.supervisor, runId, item, ok, run.seen);
    AdvanceKeepsOutcome(c, run.(supervisor := Supervise(run.supervisor, runId, item, ok),
                                seen := if ok then run.seen + [item.frame] else run.seen));
  }

  lemma StreamKeepsOutcome(c: Cell, item: StreamItem, p: Persist)
    requires OutcomeInv(c, true) && |c.runs| == 1 && c.runs[0].supervisor.Live? && c.mem.Some?
    ensures OutcomeInv(ApplyStream(c, 0, item, p), true)
  {
    var runId := c.mem.value.input.runId;
    if item.FrameItem? && ReachesSink(c.runs[0].supervisor, runId, item.frame) {
      ObserveKeepsOutcome(c, item.frame, p);
      var s := ObserveSection(SlotOf(c), item.frame, p);
      TurnKeepsOutcome(c.(mem := s.mem, disk := s.disk), runId, item, ObserveOk(SlotOf(c), item.frame, p));
    } else {
      TurnKeepsOutcome(c, runId, item, false);
    }
  }

  /** A run that returned no error deserves its success. */
  lemma NoErrorIsEarned(c: Cell, r: Run)
    requires OutcomeInv(c, true) && |c.runs| == 1 && r == c.runs[0] && r.alive && !r.finished && r.ended.Some?
    requires Verdict(r.ended.value.exit, r.supervisor, r.ended.value.envCleanup) == {} && !CancelSeen(c, r.held)
    ensures c.mem.Some? && Earned(r.(finished := true), c.objects[0], c.mem.value.output)
  {
    NoErrorExactlyWhenClean(r.ended.value.exit, r.supervisor, r.ended.value.envCleanup);
  }

  lemma FinishKeepsOutcome(c: Cell, ps: seq<Persist>)
    requires OutcomeInv(c, true) && |c.runs| == 1 && c.runs[0].alive && c.runs[0].ended.Some? && !c.runs[0].finished
    requires |ps| == FINISH_ATTEMPTS + 1
    ensures OutcomeInv(ApplyFinish(c, 0, ps), true)
  {
    var run := c.runs[0];
    var err := Verdict(run.ended.value.exit, run.supervisor, run.ended.value.envCleanup);
    var seen := CancelSeen(c, run.held);
    LiveIsNotWon(c);
    FinishOutcome(SlotOf(c), seen, err, ps);
    if err == {} && !seen {
      NoErrorIsEarned(c, run);
    }
    var s := FinishSection(SlotOf(c), seen, err, ps);
    FinishedOutcome(c, seen, err, s);
  }

  lemma FinishedOutcome(c: Cell, seen: bool, err: Errors, s: Slot)
    requires OutcomeInv(c, true) && |c.runs| == 1 && c.runs[0].alive && c.runs[0].ended.Some? && !c.runs[0].finished
    requires c.mem.Some? && !Won(c.mem) && !Won(c.disk) && seen == CancelSeen(c, c.runs[0].held)
    requires s.active.None?
    requires var t := FinalTask(c.mem.value, seen, err);
             (s.mem == Some(t) && s.disk == Some(t)) ||
             (s.mem == Some(LostTask(t)) && s.disk in {c.disk, Some(t), Some(LostTask(t))})
    requires err == {} && !seen ==> Earned(c.runs[0].(finished := true), c.objects[0], c.mem.value.output)
    ensures OutcomeInv(c.(mem := s.mem, disk := s.disk, current := -1, runs := [c.runs[0].(finished := true)]), true)
  {
  }

  lemma ReserveKeepsOutcome(c: Cell, r: Resume, p: Persist)
    requires OutcomeInv(c, true) && Resumable(SlotOf(c), r) && !AlreadySent(SlotOf(c), r)
    ensures OutcomeInv(ApplyReserve(c, r, p), true)
  {
    LiveIsNotWon(c);
    var s := ReserveSection(SlotOf(c), r, p);
    TouchKeepsOutcome(c, s.mem.value, s.disk);
    var touched := c.(mem := s.mem, disk := s.disk);
    CountKeepsOutcome(touched, s.active.value.requestSeq);
    assert WithSlot(c, s) == touched.(objects := [c.objects[0].(requestSeq := s.active.value.requestSeq)]);
  }

  lemma ConfirmKeepsOutcome(c: Cell, key: string, p: Persist)
    requires OutcomeInv(c, true) && |c.runs| == 1 && c.mem.Some?
    ensures OutcomeInv(WithSlot(c, ConfirmSection(SlotOf(c), key, p)), true)
  {
    var s := ConfirmSection(SlotOf(c), key, p);
    SameEntry(c, s);
    TouchKeepsOutcome(c, s.mem.value, s.disk);
  }

  lemma CancelKeepsOutcome(c: Cell, p: Persist)
    requires OutcomeInv(c, true) && Cancellable(SlotOf(c))
    ensures OutcomeInv(ApplyCancel(c, p), true)
  {
  }
}
