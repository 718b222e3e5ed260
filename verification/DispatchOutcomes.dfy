/**
 What a task says after each kind of step, stated outright: verdicts, approvals, cancels and
 resumes. The statements speak of the run, its frames and the record, not of how the record is
 computed.
 */
module DispatchOutcomes {
  import opened Wrappers
  import opened RuntimeProtocol
  import opened RuntimeHistory
  import opened RuntimeStream
  import opened TaskStore
  import opened DispatchMachine
  import opened DispatchInvariant
  import opened DispatchTheorems
  import opened DispatchRuns

  // --- Verdicts

  /** Everything but the verdict itself is as before. */
  predicate OnlyVerdict(t: Task, next: Task) {
    && next.input == t.input && next.owner == t.owner && next.fence == t.fence && next.approvalId == t.approvalId
    && next.output == t.output && next.commands == t.commands && next.history == t.history
  }

  lemma {:induction false} AttemptsSucceed(disk: Option<Task>, task: Task, ps: seq<Persist>, i: nat)
    requires i < |ps| && ps[i].Synced?
    ensures Attempts(disk, task, ps) == (true, Some(task))
    decreases |ps|
  {
    if !ps[0].Synced? {
      AttemptsSucceed(Write(disk, task, ps[0]), task, ps[1..], i - 1);
    }
  }

  lemma {:induction false} AttemptsFail(disk: Option<Task>, task: Task, ps: seq<Persist>)
    requires forall i :: 0 <= i < |ps| ==> !ps[i].Synced?
    ensures !Attempts(disk, task, ps).0
    decreases |ps|
  {
    if |ps| > 0 {
      AttemptsFail(Write(disk, task, ps[0]), task, ps[1..]);
    }
  }

  /**
   A verdict that could be written within three attempts: cancelled if and only if a cancel was seen
   or the run says cancelled, succeeded if and only if there was neither that nor any error, failed
   otherwise. An error text goes with failed only, and a deadline has its own.
   */
  lemma FinishVerdict(s: Slot, cancelSeen: bool, err: Errors, ps: seq<Persist>, i: nat)
    requires s.mem.Some? && |ps| == FINISH_ATTEMPTS + 1 && i < 3 && ps[i].Synced?
    ensures var after := FinishSection(s, cancelSeen, err, ps);
            && after.active.None? && after.mem.Some? && after.disk == after.mem
            && OnlyVerdict(s.mem.value, after.mem.value)
            && var t := after.mem.value;
            && t.status == t.state && t.state in {Succeeded, Failed, Cancelled}
            && (t.state.Cancelled? <==> cancelSeen || TerminalOutcome(RunCancelled) in err)
            && (t.state.Succeeded? <==> !cancelSeen && err == {})
            && (t.error == "" <==> !t.state.Failed?)
            && (t.state.Failed? && DeadlineExceeded in err ==> t.error == "execution_timeout")
  {
    assert ps[..FINISH_ATTEMPTS][i] == ps[i];
    AttemptsSucceed(s.disk, FinalTask(s.mem.value, cancelSeen, err), ps[..FINISH_ATTEMPTS], i);
  }

  /** A failure is named by the first of its causes in this order, and has the general name only without any of them. */
  lemma FailureIsNamed(s: Slot, err: Errors, ps: seq<Persist>, i: nat)
    requires s.mem.Some? && |ps| == FINISH_ATTEMPTS + 1 && i < 3 && ps[i].Synced?
    requires err != {} && TerminalOutcome(RunCancelled) !in err && DeadlineExceeded !in err
    ensures var after := FinishSection(s, false, err, ps);
            && after.mem.Some?
            && var error := after.mem.value.error;
            && (error == "runtime_contract_send_failed" <==> ContractSendFault in err)
            && (error == "runtime_stream_incomplete" <==> StreamIncomplete in err && err !! {ContractSendFault})
            && (error == "runtime_stream_failed" <==> StreamFault in err && err !! {ContractSendFault, StreamIncomplete})
            && (error == "runtime_wait_failed" <==> WaitFault in err && err !! {ContractSendFault, StreamIncomplete, StreamFault})
            && (error == "runtime_cleanup_failed" <==>
                  CleanupFault in err && err !! {ContractSendFault, StreamIncomplete, StreamFault, WaitFault})
            && (error == "execution_failed" <==>
                  err !! {ContractSendFault, StreamIncomplete, StreamFault, WaitFault, CleanupFault})
  {
    assert ps[..FINISH_ATTEMPTS][i] == ps[i];
    AttemptsSucceed(s.disk, FinalTask(s.mem.value, false, err), ps[..FINISH_ATTEMPTS], i);
  }

  /** When three attempts fail the verdict is given up: memory says lost, whatever reached the disk. */
  lemma UnwrittenVerdictIsLost(s: Slot, cancelSeen: bool, err: Errors, ps: seq<Persist>)
    requires s.mem.Some? && |ps| == FINISH_ATTEMPTS + 1 && forall i :: 0 <= i < 3 ==> !ps[i].Synced?
    ensures var after := FinishSection(s, cancelSeen, err, ps);
            && after.active.None? && after.mem.Some? && OnlyVerdict(s.mem.value, after.mem.value)
            && after.mem.value.state.Lost? && after.mem.value.status.Lost?
            && after.mem.value.error == "terminal_persistence_failed"
            && (ps[3].Synced? ==> after.disk == after.mem)
  {
    AttemptsFail(s.disk, FinalTask(s.mem.value, cancelSeen, err), ps[..FINISH_ATTEMPTS]);
  }

  /** The stream was read to its end without error and its last frame is of this kind. */
  ghost predicate EndedWith(r: Run, kind: EventType) {
    && r.ended.Some? && r.ended.value.exit.Collected?
    && r.supervisor.Done? && r.supervisor.result.err == {}
    && |r.seen| > 0 && Last(r.seen).terminal && Last(r.seen).kind == kind
  }

  lemma SaysWhatWasSeen(r: Run, kind: EventType)
    requires RunExplained(r) && r.ended.Some?
    ensures Says(r.ended.value.exit, r.supervisor, kind) <==> EndedWith(r, kind)
  {
  }

  lemma CancelledIsSaid(r: Run)
    requires RunExplained(r) && r.ended.Some?
    ensures TerminalOutcome(RunCancelled) in Verdict(r.ended.value.exit, r.supervisor, r.ended.value.envCleanup)
            <==> EndedWith(r, RunCancelled)
  {
    OutcomeExactly(r.ended.value.exit, r.supervisor, r.ended.value.envCleanup, RunCancelled);
    SaysWhatWasSeen(r, RunCancelled);
    hide Verdict, RunExplained;
  }

  /** The sandbox exited with zero and unsignalled and nothing failed around it. */
  predicate ExitedClean(end: RunEnd) {
    && end.exit.Collected? && end.exit.wait.code == 0 && !end.exit.wait.signaled && end.exit.wait.err == {}
    && end.exit.cleanup == {} && end.envCleanup == {}
  }

  lemma NoErrorIsSaid(r: Run)
    requires RunExplained(r) && r.ended.Some?
    ensures Verdict(r.ended.value.exit, r.supervisor, r.ended.value.envCleanup) == {} <==>
            && EndedWith(r, RunCompleted) && Last(r.seen).artifact.Some? && ExitedClean(r.ended.value)
  {
    NoErrorExactlyWhenClean(r.ended.value.exit, r.supervisor, r.ended.value.envCleanup);
    hide Verdict;
  }

  /**
   The verdict of the whole machine, in every reachable state: a run that ends is recorded as
   cancelled if and only if a cancel was requested of it or its last frame says cancelled, as
   succeeded if and only if neither holds, its last frame says completed with an artifact and it
   exited clean, and as failed otherwise.
   */
  lemma VerdictIsRight(m: Machine, key: string, i: nat, ps: seq<Persist>, k: nat)
    requires Reachable(m) && Allowed(m, Local(key, Finish(i, ps))) && k < 3 && k < |ps| && ps[k].Synced?
    ensures i == 0 && |CellOf(m, key).runs| == 1 == |CellOf(m, key).objects|
    ensures var run, asked := CellOf(m, key).runs[0], CellOf(m, key).objects[0].cancelRequested;
            var next := CellOf(After(m, Local(key, Finish(i, ps))), key);
            && next.mem.Some? && next.disk == next.mem
            && run.ended.Some?
            && (next.mem.value.state.Cancelled? <==> asked || EndedWith(run, RunCancelled))
            && (next.mem.value.state.Succeeded? <==>
                  !asked && EndedWith(run, RunCompleted) && Last(run.seen).artifact.Some? && ExitedClean(run.ended.value))
            && next.mem.value.state in {Succeeded, Failed, Cancelled}
            && next.mem.value.status == next.mem.value.state
            && (next.mem.value.error == "" <==> !next.mem.value.state.Failed?)
  {
    ReachableInv(m, key);
    var c := CellOf(m, key);
    LocalCell(m, key, Finish(i, ps), key);
    FinishInCell(c, i, ps, k);
    hide MachineInv, CellInv, Enabled, Apply, Reachable;
  }

  lemma FinishInCell(c: Cell, i: nat, ps: seq<Persist>, k: nat)
    requires OutcomeInv(c, true) && Enabled(c, Finish(i, ps)) && k < 3 && k < |ps| && ps[k].Synced?
    ensures i == 0 && |c.runs| == 1 == |c.objects| && c.runs[0].ended.Some?
    ensures var run, asked := c.runs[0], c.objects[0].cancelRequested;
            var next := Apply(c, Finish(i, ps));
            && next.mem.Some? && next.disk == next.mem
            && (next.mem.value.state.Cancelled? <==> asked || EndedWith(run, RunCancelled))
            && (next.mem.value.state.Succeeded? <==>
                  !asked && EndedWith(run, RunCompleted) && Last(run.seen).artifact.Some? && ExitedClean(run.ended.value))
            && next.mem.value.state in {Succeeded, Failed, Cancelled}
            && next.mem.value.status == next.mem.value.state
            && (next.mem.value.error == "" <==> !next.mem.value.state.Failed?)
  {
    var run := c.runs[0];
    var err := Verdict(run.ended.value.exit, run.supervisor, run.ended.value.envCleanup);
    CancelledIsSaid(run);
    NoErrorIsSaid(run);
    assert CancelSeen(c, run.held) == c.objects[0].cancelRequested;
    FinishVerdict(SlotOf(c), CancelSeen(c, run.held), err, ps, k);
    assert Apply(c, Finish(i, ps)) == ApplyFinish(c, 0, ps);
    hide FinishSection, Verdict, EndedWith, ExitedClean, RunExplained;
  }

  // --- Frames

  /**
   What a frame that was taken shows: an approval request makes the task wait for exactly that
   approval, a completed run leaves its artifact as the output, and nothing else moves either.
   */
  lemma TakenFrameShows(s: Slot, f: Frame, p: Persist)
    requires s.mem.Some? && ObserveOk(s, f, p)
    ensures var after := ObserveSection(s, f, p);
            && after.mem.Some? && after.disk == after.mem && after.active == s.active
            && var t, next := s.mem.value, after.mem.value;
            && f.runId == t.input.runId && ValidEnvelope(f)
            && Append(t.history, f) == Some(next.history)
            && next.input == t.input && next.owner == t.owner && next.fence == t.fence && next.commands == t.commands
            && next.error == t.error && next.status == t.status
            && (if f.kind.ApprovalRequested?
                then next.state.WaitingApproval? && f.approvalId == Some(next.approvalId)
                else next.state == t.state && next.approvalId == t.approvalId)
            && (if f.kind.RunCompleted? then next.output.Some? && next.output == f.artifact else next.output == t.output)
  {
  }

  /**
   What any frame leaves behind. One that does not belong to the task or cannot be stored changes
   nothing. One whose payload lacks what its kind needs enters the history in memory and is not
   written. Every other one is written as memory then says.
   */
  lemma FrameLeaves(s: Slot, f: Frame, p: Persist)
    ensures var after := ObserveSection(s, f, p);
            var belongs := s.mem.Some? && f.runId == s.mem.value.input.runId && ValidEnvelope(f);
            var bare := (f.kind.ApprovalRequested? && f.approvalId.None?) || (f.kind.RunCompleted? && f.artifact.None?);
            && after.active == s.active
            && (!belongs || Append(s.mem.value.history, f).None? ==> after == s)
            && (belongs && Append(s.mem.value.history, f).Some? ==>
                  && after.mem.Some? && Some(after.mem.value.history) == Append(s.mem.value.history, f)
                  && (bare ==> after.mem.value.state == s.mem.value.state && after.mem.value.output == s.mem.value.output)
                  && after.disk == (if bare || p.FailedOld? then s.disk else after.mem))
  {
  }

  lemma FrameInCell(c: Cell, f: Frame, p: Persist)
    requires CurrentOk(c) && |c.runs| == 1 && c.runs[0].supervisor.Live? && c.mem.Some?
    requires ReachesSink(c.runs[0].supervisor, f.runId, f) && ObserveOk(SlotOf(c), f, p)
    ensures var next := ApplyStream(c, 0, FrameItem(f), p);
            && next.mem.Some? && next.disk == next.mem
            && |next.runs| == 1 && next.runs[0].seen == c.runs[0].seen + [f]
            && (f.kind.ApprovalRequested? ==> next.mem.value.state.WaitingApproval? && f.approvalId == Some(next.mem.value.approvalId))
            && (f.kind.RunCompleted? ==> next.mem.value.output.Some? && next.mem.value.output == f.artifact)
  {
    TakenFrameShows(SlotOf(c), f, p);
    SameEntry(c, ObserveSection(SlotOf(c), f, p));
    hide ObserveSection, ObserveOk;
  }

  /** The same in every reachable state of the machine, for a frame that a stream supervisor hands on. */
  lemma StreamedFrameShows(m: Machine, key: string, i: nat, f: Frame, p: Persist)
    requires Reachable(m) && Allowed(m, Local(key, Stream(i, FrameItem(f), p)))
    requires i == 0 && ReachesSink(CellOf(m, key).runs[0].supervisor, f.runId, f)
    requires ObserveOk(SlotOf(CellOf(m, key)), f, p)
    ensures var next := CellOf(After(m, Local(key, Stream(i, FrameItem(f), p))), key);
            && next.mem.Some? && next.disk == next.mem
            && |next.runs| == 1 && next.runs[0].seen == CellOf(m, key).runs[0].seen + [f]
            && (f.kind.ApprovalRequested? ==> next.mem.value.state.WaitingApproval? && f.approvalId == Some(next.mem.value.approvalId))
            && (f.kind.RunCompleted? ==> next.mem.value.output.Some? && next.mem.value.output == f.artifact)
  {
    ReachableInv(m, key);
    hide MachineInv, Reachable, ObserveSection, ObserveOk, ApplyStream, Apply, Enabled, Allowed, After, ReachesSink;
    AllowedLocally(m, key, Stream(i, FrameItem(f), p));
    StreamInCell(CellOf(m, key), f, p);
    FrameInCell(CellOf(m, key), f, p);
  }

  lemma StreamInCell(c: Cell, f: Frame, p: Persist)
    requires Launches(c.runs, c.objects, c.current, true) && Enabled(c, Stream(0, FrameItem(f), p))
    ensures |c.runs| == 1 && c.runs[0].supervisor.Live? && c.mem.Some?
    ensures Apply(c, Stream(0, FrameItem(f), p)) == ApplyStream(c, 0, FrameItem(f), p)
  {
    hide ApplyStream;
  }

  // --- Requests

  /** The entry in the active map, if there is one. */
  predicate Listening(c: Cell) {
    c.current == 0 && |c.objects| == 1 && c.objects[0].handle
  }

  lemma CancelInCell(c: Cell, p: Persist)
    requires Launches(c.runs, c.objects, c.current, true)
    ensures Enabled(c, Cancel(p)) <==>
            c.mem.Some? && c.mem.value.state !in {Succeeded, Failed, Cancelled, Lost}
    ensures Enabled(c, Cancel(p)) ==>
            var next := Apply(c, Cancel(p));
            && next.mem.Some? && next.mem.value.state.Cancelled? && next.mem.value.error == ""
            && (next.current == 0 ==> |next.objects| == 1 && next.objects[0].cancelRequested)
            && (p.Synced? ==> next.disk == next.mem)
  {
  }

  lemma AllowedLocally(m: Machine, key: string, step: Step)
    requires CurrentOk(CellOf(m, key)) && !step.ScheduleNew?
    ensures Allowed(m, Local(key, step)) <==> m.up && Enabled(CellOf(m, key), step)
    ensures Allowed(m, Local(key, step)) ==> CellOf(After(m, Local(key, step)), key) == Apply(CellOf(m, key), step)
  {
    hide Enabled, Apply;
  }

  /** A cancel takes effect exactly on tasks that have no verdict yet, and says so at once to the run. */
  lemma CancelTakesEffectExactly(m: Machine, key: string, p: Persist)
    requires Reachable(m)
    ensures Allowed(m, Local(key, Cancel(p))) <==>
            && m.up && CellOf(m, key).mem.Some?
            && CellOf(m, key).mem.value.state !in {Succeeded, Failed, Cancelled, Lost}
    ensures Allowed(m, Local(key, Cancel(p))) ==>
            var next := CellOf(After(m, Local(key, Cancel(p))), key);
            && next.mem.Some? && next.mem.value.state.Cancelled? && next.mem.value.error == ""
            && (next.current == 0 ==> |next.objects| == 1 && next.objects[0].cancelRequested)
            && (p.Synced? ==> next.disk == next.mem)
  {
    ReachableInv(m, key);
    hide MachineInv, Reachable, Enabled, Apply, Allowed, After;
    AllowedLocally(m, key, Cancel(p));
    if m.up {
      CancelInCell(CellOf(m, key), p);
    }
  }

  lemma ResumeInCell(c: Cell, r: Resume, p: Persist)
    requires Launches(c.runs, c.objects, c.current, true)
    ensures Enabled(c, Reserve(r, p)) <==>
            && c.mem.Some? && Listening(c) && c.mem.value.state in {Running, WaitingApproval}
            && (r.key in c.mem.value.commands ==> c.mem.value.commands[r.key].digest == r && !c.mem.value.commands[r.key].sent)
    ensures Enabled(c, Reserve(r, p)) ==>
            var next := Apply(c, Reserve(r, p));
            next.mem.Some? && next.mem.value.state.Running? && (p.Synced? ==> next.disk == next.mem)
  {
  }

  /**
   A resume gets a number exactly if the task runs or waits, its sandbox listens, and the key is new
   or repeats the same command that is not yet recorded as sent. The task then runs.
   */
  lemma ResumeIsTakenExactly(m: Machine, key: string, r: Resume, p: Persist)
    requires Reachable(m)
    ensures var c := CellOf(m, key);
            Allowed(m, Local(key, Reserve(r, p))) <==>
            && m.up && c.mem.Some? && Listening(c) && c.mem.value.state in {Running, WaitingApproval}
            && (r.key in c.mem.value.commands ==> c.mem.value.commands[r.key].digest == r && !c.mem.value.commands[r.key].sent)
    ensures Allowed(m, Local(key, Reserve(r, p))) ==>
            var next := CellOf(After(m, Local(key, Reserve(r, p))), key);
            next.mem.Some? && next.mem.value.state.Running? && (p.Synced? ==> next.disk == next.mem)
  {
    ReachableInv(m, key);
    hide MachineInv, Reachable, Enabled, Apply, Allowed, After;
    AllowedLocally(m, key, Reserve(r, p));
    if m.up {
      ResumeInCell(CellOf(m, key), r, p);
    }
  }

  lemma ConfirmInCell(c: Cell, n: nat, p: Persist)
    requires CurrentOk(c) && Enabled(c, Confirm(n, p))
    ensures var r, next := c.sends[n].request, Apply(c, Confirm(n, p));
            && next.mem.Some? && r.key in next.mem.value.commands && next.mem.value.commands[r.key].sent
            && (forall k :: k in c.mem.value.commands && k != r.key ==>
                  k in next.mem.value.commands && next.mem.value.commands[k] == c.mem.value.commands[k])
            && next.mem.value.state == c.mem.value.state && (p.Synced? ==> next.disk == next.mem)
            && n < |next.sends| && next.sends[n].stage.Over?
  {
  }

  /** A delivered command is recorded as sent, it alone, and that is the end of the call. */
  lemma ConfirmRecords(m: Machine, key: string, n: nat, p: Persist)
    requires Reachable(m) && Allowed(m, Local(key, Confirm(n, p)))
    ensures n < |CellOf(m, key).sends| && CellOf(m, key).mem.Some?
    ensures var r, was, next := CellOf(m, key).sends[n].request, CellOf(m, key).mem.value, CellOf(After(m, Local(key, Confirm(n, p))), key);
            && next.mem.Some? && r.key in next.mem.value.commands && next.mem.value.commands[r.key].sent
            && (forall k :: k in was.commands && k != r.key ==>
                  k in next.mem.value.commands && next.mem.value.commands[k] == was.commands[k])
            && next.mem.value.state == was.state && (p.Synced? ==> next.disk == next.mem)
            && n < |next.sends| && next.sends[n].stage.Over?
  {
    ReachableInv(m, key);
    AllowedLocally(m, key, Confirm(n, p));
    ConfirmInCell(CellOf(m, key), n, p);
    hide MachineInv, CellInv, Reachable, Apply;
  }

  lemma StartInCell(c: Cell, p: Persist)
    requires Launches(c.runs, c.objects, c.current, true) && Records(c.mem, c.disk, |c.runs| == 1, true)
    ensures Enabled(c, Start(p)) <==> c.mem.Some? && c.mem.value.state.Scheduled?
    ensures Enabled(c, Start(Synced)) ==>
            var next := Apply(c, Start(Synced));
            && next.mem.Some? && next.mem.value == c.mem.value.(state := Running) && next.disk == next.mem
            && |next.runs| == 1 && next.runs[0].alive && next.current == 0
  {
  }

  /** A scheduled task can always be started, nothing else can, and its running state is written first. */
  lemma StartsExactly(m: Machine, key: string, p: Persist)
    requires Reachable(m)
    ensures Allowed(m, Local(key, Start(p))) <==> m.up && CellOf(m, key).mem.Some? && CellOf(m, key).mem.value.state.Scheduled?
    ensures Allowed(m, Local(key, Start(Synced))) ==>
            var next := CellOf(After(m, Local(key, Start(Synced))), key);
            && next.mem.Some? && next.mem.value == CellOf(m, key).mem.value.(state := Running) && next.disk == next.mem
            && |next.runs| == 1 && next.runs[0].alive && next.current == 0
  {
    ReachableInv(m, key);
    hide MachineInv, Reachable, Enabled, Apply, Allowed, After;
    AllowedLocally(m, key, Start(p));
    AllowedLocally(m, key, Start(Synced));
    if m.up {
      StartInCell(CellOf(m, key), p);
    }
  }

  lemma ScheduleInCell(c: Cell, input: Input, owner: string, fence: nat)
    requires Launches(c.runs, c.objects, c.current, true) && Enabled(c, ScheduleNew(input, owner, fence, Synced))
    ensures var next := Apply(c, ScheduleNew(input, owner, fence, Synced));
            && next.mem.Some? && next.disk == next.mem && next.mem.value.state.Scheduled?
            && next.mem.value.input == input && next.mem.value.owner == owner && next.mem.value.fence == fence
            && next.mem.value.output.None? && next.mem.value.commands == map[] && next.mem.value.history.events == []
  {
  }

  /** A new key is scheduled with the request, the owner and the next token, in memory and on disk. */
  lemma ScheduleRecords(m: Machine, input: Input, owner: string)
    requires Reachable(m) && m.up && CellOf(m, StorageKey(input)).mem.None? && input.idempotencyKey != ""
    ensures var move := Local(StorageKey(input), ScheduleNew(input, owner, m.nextFence + 1, Synced));
            && Allowed(m, move)
            && var next := CellOf(After(m, move), StorageKey(input));
            && next.mem.Some? && next.disk == next.mem && next.mem.value.state.Scheduled?
            && next.mem.value.input == input && next.mem.value.owner == owner && next.mem.value.fence == m.nextFence + 1
            && next.mem.value.output.None? && next.mem.value.commands == map[] && next.mem.value.history.events == []
  {
    var key := StorageKey(input);
    var step := ScheduleNew(input, owner, m.nextFence + 1, Synced);
    ReachableInv(m, key);
    assert Allowed(m, Local(key, step));
    hide MachineInv, Reachable, Enabled, Apply, Allowed;
    ScheduleInCell(CellOf(m, key), input, owner, m.nextFence + 1);
    LocalCell(m, key, step, key);
  }

  // --- Keys

  predicate NulFree(s: string) {
    forall i :: 0 <= i < |s| ==> s[i] != '\0'
  }

  lemma FirstPart(a: string, rest: string, b: string, tail: string)
    requires NulFree(a) && NulFree(b) && a + "\0" + rest == b + "\0" + tail
    ensures a == b && rest == tail
  {
    var s := a + "\0" + rest;
    assert s[|a|] == '\0' && forall k :: 0 <= k < |a| ==> s[k] == a[k];
    assert s == b + "\0" + tail;
    assert s[|b|] == '\0' && forall k :: 0 <= k < |b| ==> s[k] == b[k];
    assert |a| == |b|;
    assert s[..|a|] == a && s[|a| + 1..] == rest;
    assert s[..|b|] == b && s[|b| + 1..] == tail;
  }

  /** Two requests are the same task exactly if organization, project and idempotency key agree. */
  lemma KeysTellTasksApart(a: Input, b: Input)
    requires NulFree(a.organization) && NulFree(a.project) && NulFree(b.organization) && NulFree(b.project)
    ensures StorageKey(a) == StorageKey(b) <==>
            a.organization == b.organization && a.project == b.project && a.idempotencyKey == b.idempotencyKey
  {
    if StorageKey(a) == StorageKey(b) {
      var restA, restB := a.project + "\0" + a.idempotencyKey, b.project + "\0" + b.idempotencyKey;
      assert StorageKey(a) == a.organization + "\0" + restA && StorageKey(b) == b.organization + "\0" + restB;
      FirstPart(a.organization, restA, b.organization, restB);
      FirstPart(a.project, a.idempotencyKey, b.project, b.idempotencyKey);
    }
  }

  /** With a NUL character inside an identifier two projects can share a task. */
  lemma NulMergesTasks()
    ensures var a := Input("org", "one\0two", "run", "key", "");
            var b := Input("org\0one", "two", "run", "key", "");
            StorageKey(a) == StorageKey(b) && a.project != b.project
  {
    assert "org" + "\0" + "one\0two" == "org\0one" + "\0" + "two";
  }
}
