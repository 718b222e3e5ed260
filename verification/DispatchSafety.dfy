/**
 Safety of the durable dispatcher over whole runs: every interleaving of requests,
 goroutines, failing writes, crashes and reloads.
 */
module DispatchSafety {
  import opened Wrappers
  import opened RuntimeProtocol
  import opened RuntimeHistory
  import opened RuntimeStream
  import opened TaskStore
  import opened DispatchMachine
  import opened DispatchInvariant
  import opened DispatchCommands

  // --- One step of one task

  /** Outcomes do not depend on the resume calls or on who scheduled the task. */
  lemma BookkeepingKeepsOutcome(c: Cell, next: Cell)
    requires OutcomeInv(c, true)
    requires next == c.(sends := next.sends, issued := next.issued, sent := next.sent, accepted := next.accepted)
    ensures OutcomeInv(next, true)
  {
  }

  lemma EndStreamKeepsOutcome(c: Cell)
    requires OutcomeInv(c, true) && |c.runs| == 1 && c.runs[0].supervisor.Live?
    ensures OutcomeInv(WithRun(c, 0, c.runs[0].(supervisor := Done(c.runs[0].supervisor.gathered))), true)
  {
    AdvanceKeepsOutcome(c, c.runs[0].(supervisor := Done(c.runs[0].supervisor.gathered)));
  }

  lemma OpenStreamKeepsOutcome(c: Cell)
    requires OutcomeInv(c, true) && |c.runs| == 1 && c.runs[0].attached && c.runs[0].supervisor.Idle?
    requires c.runs[0].ended.None?
    ensures OutcomeInv(WithRun(c, 0, c.runs[0].(supervisor := STARTED)), true)
  {
    AdvanceKeepsOutcome(c, c.runs[0].(supervisor := STARTED));
  }

  lemma CaptureKeepsOutcome(c: Cell)
    requires OutcomeInv(c, true) && |c.runs| == 1 && c.runs[0].held.NotYet?
    ensures OutcomeInv(WithRun(c, 0, c.runs[0].(held := Object(0))), true)
  {
    AdvanceKeepsOutcome(c, c.runs[0].(held := Object(0)));
  }

  lemma ReturnKeepsOutcome(c: Cell, end: RunEnd)
    requires OutcomeInv(c, true) && |c.runs| == 1 && !c.runs[0].held.NotYet? && c.runs[0].ended.None?
    requires ExitPossible(end.exit, c.runs[0].supervisor) && ForeignEnd(end)
    ensures OutcomeInv(WithRun(c, 0, c.runs[0].(ended := Some(end))), true)
  {
    AdvanceKeepsOutcome(c, c.runs[0].(ended := Some(end)));
  }

  /** The steps a launched goroutine takes outside the lock-held sections. */
  predicate OfRun(step: Step) {
    step.Capture? || step.Attach? || step.OpenStream? || step.EndStream? || step.Return?
  }

  lemma RunStepKeepsOutcome(c: Cell, step: Step)
    requires Launches(c.runs, c.objects, c.current, true) && Records(c.mem, c.disk, |c.runs| == 1, true)
    requires OutcomeInv(c, true) && Enabled(c, step) && (OfRun(step) || step.Stream? || step.Finish?)
    ensures OutcomeInv(Apply(c, step), true)
  {
    hide OutcomeInv, ApplyStream, ApplyFinish, ApplyAttach;
    match step
    case Capture(i) => CaptureKeepsOutcome(c);
    case Attach(i) => AttachKeepsOutcome(c);
    case OpenStream(i) => OpenStreamKeepsOutcome(c);
    case Stream(i, item, p) => StreamKeepsOutcome(c, item, p);
    case EndStream(i) => EndStreamKeepsOutcome(c);
    case Return(i, end) => ReturnKeepsOutcome(c, end);
    case Finish(i, ps) => FinishKeepsOutcome(c, ps);
  }

  lemma StepKeepsOutcome(c: Cell, step: Step)
    requires Launches(c.runs, c.objects, c.current, true) && Records(c.mem, c.disk, |c.runs| == 1, true)
    requires OutcomeInv(c, true) && Enabled(c, step)
    requires |c.sends| > 0 ==> |c.runs| == 1
    ensures OutcomeInv(Apply(c, step), true)
  {
    hide OutcomeInv, ApplyStream, ApplyFinish, ApplyReserve, ApplyCancel, ApplyStart, ApplySchedule, ExitPossible;
    match step
    case ScheduleNew(input, owner, fence, p) => ScheduleKeepsOutcome(c, input, owner, fence, p);
    case ScheduleAgain(_, _) => BookkeepingKeepsOutcome(c, Apply(c, step));
    case Start(p) => StartKeepsOutcome(c, p);
    case Cancel(p) => CancelKeepsOutcome(c, p);
    case Reserve(r, p) => ReserveKeepsOutcome(c, r, p);
    case Deliver(_) => BookkeepingKeepsOutcome(c, Apply(c, step));
    case Abandon(_) => BookkeepingKeepsOutcome(c, Apply(c, step));
    case Confirm(n, p) =>
      ConfirmKeepsOutcome(c, c.sends[n].request.key, p);
      BookkeepingKeepsOutcome(WithSlot(c, ConfirmSection(SlotOf(c), c.sends[n].request.key, p)), Apply(c, step));
    case _ => RunStepKeepsOutcome(c, step);
  }

  lemma RunKeepsCommands(c: Cell, next: Run)
    requires CommandInv(c) && |c.runs| == 1 && |c.objects| == 1 && c.mem.Some? && next.alive == c.runs[0].alive
    ensures CommandInv(WithRun(c, 0, next))
  {
    SameCommandsKeepInv(c, WithRun(c, 0, next));
  }

  lemma TouchKeepsCommands(c: Cell, mem: Task, disk: Option<Task>)
    requires CommandInv(c) && |c.runs| == 1 && |c.objects| == 1 && c.mem.Some?
    requires mem.commands == c.mem.value.commands && (disk == c.disk || disk == Some(mem))
    ensures CommandInv(c.(mem := Some(mem), disk := disk))
  {
    SameCommandsKeepInv(c, c.(mem := Some(mem), disk := disk));
  }

  lemma TurnKeepsCommands(c: Cell, runId: string, item: StreamItem, ok: bool)
    requires CommandInv(c) && |c.runs| == 1 && |c.objects| == 1 && c.mem.Some? && c.runs[0].supervisor.Live?
    requires ok ==> item.FrameItem?
    ensures var run := c.runs[0];
            CommandInv(WithRun(c, 0, run.(supervisor := Supervise(run.supervisor, runId, item, ok),
                                          seen := if ok then run.seen + [item.frame] else run.seen)))
  {
    var run := c.runs[0];
    RunKeepsCommands(c, run.(supervisor := Supervise(run.supervisor, runId, item, ok),
                             seen := if ok then run.seen + [item.frame] else run.seen));
  }

  lemma StreamKeepsCommands(c: Cell, item: StreamItem, p: Persist)
    requires CommandInv(c) && CurrentOk(c) && |c.runs| == 1 && |c.objects| == 1 && c.mem.Some?
    requires c.runs[0].supervisor.Live?
    ensures CommandInv(ApplyStream(c, 0, item, p))
  {
    var run := c.runs[0];
    var runId := c.mem.value.input.runId;
    if item.FrameItem? && ReachesSink(run.supervisor, runId, item.frame) {
      var s := ObserveSection(SlotOf(c), item.frame, p);
      ObserveEffect(SlotOf(c), item.frame, p);
      SameEntry(c, s);
      TouchKeepsCommands(c, s.mem.value, s.disk);
      TurnKeepsCommands(c.(mem := s.mem, disk := s.disk), runId, item, ObserveOk(SlotOf(c), item.frame, p));
    } else {
      TurnKeepsCommands(c, runId, item, false);
    }
  }

  lemma CancelKeepsCommands(c: Cell, p: Persist)
    requires CommandInv(c) && CurrentOk(c) && |c.objects| == |c.runs| <= 1 && Cancellable(SlotOf(c))
    ensures CommandInv(ApplyCancel(c, p))
  {
    hide CommandInv;
    SameCommandsKeepInv(c, ApplyCancel(c, p));
  }

  lemma FinishKeepsCommands(c: Cell, ps: seq<Persist>)
    requires CommandInv(c) && CurrentOk(c) && |c.runs| == 1 && |c.objects| == 1 && c.mem.Some?
    requires c.runs[0].ended.Some? && |ps| == FINISH_ATTEMPTS + 1
    ensures CommandInv(ApplyFinish(c, 0, ps))
  {
    var run := c.runs[0];
    var err := Verdict(run.ended.value.exit, run.supervisor, run.ended.value.envCleanup);
    FinishOutcome(SlotOf(c), CancelSeen(c, run.held), err, ps);
    SameCommandsKeepInv(c, ApplyFinish(c, 0, ps));
  }

  lemma RunStepKeepsCommands(c: Cell, step: Step)
    requires Launches(c.runs, c.objects, c.current, true) && Records(c.mem, c.disk, |c.runs| == 1, true)
    requires CommandInv(c) && OfRun(step) && Enabled(c, step)
    ensures CommandInv(Apply(c, step))
  {
    hide CommandInv;
    match step
    case Capture(i) => RunKeepsCommands(c, c.runs[0].(held := Object(0)));
    case Attach(i) => AttachKeepsCommands(c);
    case OpenStream(i) => RunKeepsCommands(c, c.runs[0].(supervisor := STARTED));
    case EndStream(i) => RunKeepsCommands(c, c.runs[0].(supervisor := Done(c.runs[0].supervisor.gathered)));
    case Return(i, end) => RunKeepsCommands(c, c.runs[0].(ended := Some(end)));
  }

  lemma SectionKeepsCommands(c: Cell, step: Step)
    requires Launches(c.runs, c.objects, c.current, true) && Records(c.mem, c.disk, |c.runs| == 1, true)
    requires CommandInv(c) && (step.Stream? || step.Finish?) && Enabled(c, step)
    ensures CommandInv(Apply(c, step))
  {
    hide CommandInv;
    if step.Stream? {
      StreamKeepsCommands(c, step.item, step.p);
      assert Apply(c, step) == ApplyStream(c, 0, step.item, step.p);
    } else {
      FinishKeepsCommands(c, step.ps);
      assert Apply(c, step) == ApplyFinish(c, 0, step.ps);
    }
  }

  lemma AcceptedKeepsCommands(c: Cell, next: Cell)
    requires CommandInv(c) && next == c.(accepted := next.accepted)
    ensures CommandInv(next)
  {
  }

  lemma RequestKeepsCommands(c: Cell, step: Step)
    requires Launches(c.runs, c.objects, c.current, true) && Records(c.mem, c.disk, |c.runs| == 1, true)
    requires CommandInv(c) && !OfRun(step) && !step.Stream? && !step.Finish? && Enabled(c, step)
    ensures CommandInv(Apply(c, step))
  {
    hide CommandInv, ApplyReserve, ApplyCancel, ApplyStart, ApplySchedule, ApplyStream, ApplyFinish;
    match step
    case ScheduleNew(input, owner, fence, p) => ScheduleKeepsCommands(c, input, owner, fence, p);
    case ScheduleAgain(_, _) => AcceptedKeepsCommands(c, Apply(c, step));
    case Start(p) => StartKeepsCommands(c, p);
    case Cancel(p) => CancelKeepsCommands(c, p);
    case Reserve(r, p) => ReserveKeepsCommands(c, r, p);
    case Deliver(n) => DeliverKeepsCommands(c, n);
    case Abandon(n) => AbandonKeepsCommands(c, n);
    case Confirm(n, p) =>
      SendIsOnRecord(c, n);
      ConfirmKeepsCommands(c, c.sends[n].request.key, p);
      AbandonKeepsCommands(WithSlot(c, ConfirmSection(SlotOf(c), c.sends[n].request.key, p)), n);
  }

  lemma CancelKeepsRecord(key: string, c: Cell, p: Persist)
    requires RecordInv(key, c, true) && CurrentOk(c) && Cancellable(SlotOf(c))
    ensures RecordInv(key, ApplyCancel(c, p), true)
  {
    SameRecordKeepsInv(key, c, ApplyCancel(c, p));
  }

  lemma StartKeepsRecord(key: string, c: Cell, p: Persist)
    requires RecordInv(key, c, true) && CurrentOk(c) && Startable(SlotOf(c))
    ensures RecordInv(key, ApplyStart(c, p), true)
  {
    SameRecordKeepsInv(key, c, ApplyStart(c, p));
  }

  lemma TouchKeepsRecord(key: string, c: Cell, mem: Task, disk: Option<Task>)
    requires RecordInv(key, c, true) && c.mem.Some? && SameRequest(c.mem.value, mem)
    requires disk == c.disk || disk == Some(mem)
    ensures RecordInv(key, c.(mem := Some(mem), disk := disk), true)
  {
  }

  lemma StreamKeepsRecord(key: string, c: Cell, item: StreamItem, p: Persist)
    requires RecordInv(key, c, true) && CurrentOk(c) && |c.runs| == 1 && c.mem.Some? && c.runs[0].supervisor.Live?
    ensures RecordInv(key, ApplyStream(c, 0, item, p), true)
  {
    var next := ApplyStream(c, 0, item, p);
    if item.FrameItem? && ReachesSink(c.runs[0].supervisor, c.mem.value.input.runId, item.frame) {
      var s := ObserveSection(SlotOf(c), item.frame, p);
      ObserveKeepsRequest(SlotOf(c), item.frame, p);
      TouchKeepsRecord(key, c, s.mem.value, s.disk);
      hide RecordInv;
      SameFilesKeepRecord(key, c.(mem := s.mem, disk := s.disk), next);
    } else {
      hide RecordInv;
      SameFilesKeepRecord(key, c, next);
    }
  }

  lemma FinishKeepsRecord(key: string, c: Cell, ps: seq<Persist>)
    requires RecordInv(key, c, true) && CurrentOk(c) && |c.runs| == 1 && c.mem.Some?
    requires c.runs[0].ended.Some? && |ps| == FINISH_ATTEMPTS + 1
    ensures RecordInv(key, ApplyFinish(c, 0, ps), true)
  {
    var run := c.runs[0];
    var err := Verdict(run.ended.value.exit, run.supervisor, run.ended.value.envCleanup);
    FinishOutcome(SlotOf(c), CancelSeen(c, run.held), err, ps);
    SameRecordKeepsInv(key, c, ApplyFinish(c, 0, ps));
  }

  lemma ReserveKeepsRecord(key: string, c: Cell, r: Resume, p: Persist)
    requires RecordInv(key, c, true) && CurrentOk(c) && Resumable(SlotOf(c), r) && !AlreadySent(SlotOf(c), r)
    ensures RecordInv(key, ApplyReserve(c, r, p), true)
  {
    SameRecordKeepsInv(key, c, ApplyReserve(c, r, p));
  }

  lemma ConfirmKeepsRecord(key: string, c: Cell, name: string, p: Persist)
    requires RecordInv(key, c, true) && CurrentOk(c) && c.mem.Some?
    ensures RecordInv(key, WithSlot(c, ConfirmSection(SlotOf(c), name, p)), true)
  {
    SameRecordKeepsInv(key, c, WithSlot(c, ConfirmSection(SlotOf(c), name, p)));
  }

  lemma SameFilesKeepRecord(key: string, c: Cell, next: Cell)
    requires RecordInv(key, c, true)
    requires next.mem == c.mem && next.disk == c.disk && next.accepted == c.accepted
    ensures RecordInv(key, next, true)
  {
  }

  lemma AgainKeepsRecord(key: string, c: Cell, input: Input, owner: string)
    requires RecordInv(key, c, true) && c.mem.Some? && c.mem.value.owner == owner && c.mem.value.input == input
    ensures RecordInv(key, c.(accepted := if c.accepted.None? then Some((owner, input)) else c.accepted), true)
  {
  }

  lemma StepKeepsRecord(key: string, c: Cell, step: Step)
    requires Launches(c.runs, c.objects, c.current, true) && Records(c.mem, c.disk, |c.runs| == 1, true)
    requires RecordInv(key, c, true) && Enabled(c, step)
    requires step.ScheduleNew? ==> key == StorageKey(step.input)
    ensures RecordInv(key, Apply(c, step), true)
  {
    hide RecordInv;
    match step
    case ScheduleNew(input, owner, fence, p) => ScheduleKeepsRecord(key, c, input, owner, fence, p);
    case Start(p) => StartKeepsRecord(key, c, p);
    case Stream(i, item, p) => StreamKeepsRecord(key, c, item, p);
    case Finish(i, ps) => FinishKeepsRecord(key, c, ps);
    case Cancel(p) => CancelKeepsRecord(key, c, p);
    case Reserve(r, p) => ReserveKeepsRecord(key, c, r, p);
    case Confirm(n, p) =>
      ConfirmKeepsRecord(key, c, c.sends[n].request.key, p);
      SameFilesKeepRecord(key, WithSlot(c, ConfirmSection(SlotOf(c), c.sends[n].request.key, p)), Apply(c, step));
    case ScheduleAgain(input, owner) => AgainKeepsRecord(key, c, input, owner);
    case _ => SameFilesKeepRecord(key, c, Apply(c, step));
  }

  lemma NothingSentBeforeLaunch(c: Cell)
    requires CommandInv(c) && |c.runs| <= 1
    ensures |c.sends| > 0 ==> |c.runs| == 1
  {
  }

  lemma StepKeepsCell(key: string, c: Cell, step: Step)
    requires CellInv(key, c, true) && Enabled(c, step)
    requires step.ScheduleNew? ==> key == StorageKey(step.input)
    ensures CellInv(key, Apply(c, step), true)
  {
    NothingSentBeforeLaunch(c);
    hide CommandInv, RecordInv;
    StepKeepsOutcome(c, step);
    if OfRun(step) {
      RunStepKeepsCommands(c, step);
    } else if step.Stream? || step.Finish? {
      SectionKeepsCommands(c, step);
    } else {
      RequestKeepsCommands(c, step);
    }
    StepKeepsRecord(key, c, step);
  }

  // --- Crash and reload of one task

  lemma CrashKeepsCell(key: string, c: Cell)
    requires CellInv(key, c, true)
    ensures CellInv(key, Crashed(c), false)
  {
  }

  /** Every file the runner wrote is accepted when it is read back, with its history unchanged. */
  lemma RecoveredRecord(key: string, task: Task)
    requires Filed(key, Some(task)) && WellFormed(task.history)
    ensures Recovered(task).Some?
    ensures Recovered(task).value ==
            if task.state.Running? || task.state.WaitingApproval? || task.state.LegacyApproval?
            then task.(state := Lost, error := "runner_restart") else task
  {
    ReloadRoundTrip(task.history);
  }

  lemma LoseKeepsCell(key: string, c: Cell, error: string)
    requires CellInv(key, c, false) && c.disk.Some? && !Won(c.disk)
    ensures CellInv(key, c.(disk := Some(c.disk.value.(state := Lost, error := error))), false)
  {
  }

  lemma ReadKeepsCell(key: string, c: Cell)
    requires CellInv(key, c, false) && c.disk.Some? && c.disk.value.state !in {Running, WaitingApproval, LegacyApproval}
    ensures CellInv(key, c.(mem := c.disk), true)
  {
  }

  lemma RewriteKeepsCell(key: string, c: Cell)
    requires CellInv(key, c, false)
    ensures CellInv(key, Rewritten(c), false)
  {
    if c.disk.Some? {
      RecoveredRecord(key, c.disk.value);
      if Recovered(c.disk.value).value != c.disk.value {
        LoseKeepsCell(key, c, "runner_restart");
      }
    }
  }

  lemma LoadKeepsCell(key: string, c: Cell)
    requires CellInv(key, c, false)
    ensures CellInv(key, Loaded(c), true)
  {
    if c.disk.Some? {
      RecoveredRecord(key, c.disk.value);
      RewriteKeepsCell(key, c);
      ReadKeepsCell(key, Rewritten(c));
    } else {
      NoFileKeepsCell(key, c);
    }
  }

  lemma NoFileKeepsCell(key: string, c: Cell)
    requires CellInv(key, c, false) && c.disk.None?
    ensures CellInv(key, c, true)
  {
  }
}
