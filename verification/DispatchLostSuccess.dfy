/**
 A run in which a success that reached the disk is taken back. The verdict is written but not
 confirmed, so the service records the task as lost in memory; the resume call that is still
 under way then saves that record.
 */
module DispatchLostSuccess {
  import opened Wrappers
  import RedactJson
  import opened RuntimeProtocol
  import opened RuntimeHistory
  import opened RuntimeStream
  import opened TaskStore
  import opened DispatchMachine
  import opened DispatchInvariant
  import opened DispatchTheorems
  import opened DispatchRuns
  import opened DispatchGuarantees

  const INPUT := Input("org", "project", "run", "key", "")
  const KEY := StorageKey(INPUT)
  const REQUEST := Resume("answer", false, "", "", "reference")
  const FIRST := Frame(true, RunStarted, "run", 1, false, RedactJson.Obj(map[]), true, None, None, true, 0, 0)
  const LAST := Frame(true, RunCompleted, "run", 2, true, RedactJson.Obj(map[]), true, None, Some("artifact"), true, 0, 0)
  const CLEAN_END := RunEnd(Collected(Wait(0, false, {}), {}), {})

  /** The cell is the one of the task in some reachable running state. */
  ghost predicate Reaches(c: Cell) {
    exists m :: Reachable(m) && m.up && CellOf(m, KEY) == c
  }

  lemma ReachableStep(m: Machine, move: Move)
    requires Reachable(m) && Allowed(m, move)
    ensures Reachable(After(m, move))
  {
    var moves :| RunsTo(INITIAL, moves, m);
    OneMove(m, move);
    RunsAppend(INITIAL, moves, m, [move], After(m, move));
  }

  lemma Takes(c: Cell, step: Step)
    requires Reaches(c) && CurrentOk(c) && Enabled(c, step) && !step.ScheduleNew?
    ensures Reaches(Apply(c, step))
  {
    var m :| Reachable(m) && m.up && CellOf(m, KEY) == c;
    hide Apply, Enabled;
    ReachableStep(m, Local(KEY, step));
    LocalCell(m, KEY, step, KEY);
    assert Reachable(After(m, Local(KEY, step)));
  }

  lemma Scheduled() returns (c: Cell)
    ensures Reaches(c) && c == ApplySchedule(EMPTY_CELL, INPUT, "worker", 1, Synced)
  {
    var move := Local(KEY, ScheduleNew(INPUT, "worker", 1, Synced));
    assert RunsTo(INITIAL, [], INITIAL);
    assert Reachable(INITIAL);
    ReachableStep(INITIAL, move);
    LocalCell(INITIAL, KEY, move.step, KEY);
    c := Apply(EMPTY_CELL, move.step);
    assert Reachable(After(INITIAL, move));
  }

  /** The run of the task is up, its stream is open and it answers requests. */
  ghost predicate Streaming(c: Cell, validator: Validator, gathered: Supervision) {
    && c.current == 0 && |c.objects| == 1 && c.objects[0].handle && !c.objects[0].cancelRequested
    && |c.runs| == 1 && c.runs[0].alive && c.runs[0].held == Object(0) && c.runs[0].attached
    && c.runs[0].supervisor == Live(validator, gathered) && c.runs[0].ended.None? && !c.runs[0].finished
    && c.mem.Some? && c.mem.value.state.Running? && c.mem.value.input == INPUT
  }

  lemma Launched() returns (c: Cell)
    ensures Reaches(c) && Streaming(c, FRESH_VALIDATOR, NO_EVENTS)
    ensures c.mem.value.commands == map[] && c.mem.value.history == EMPTY_WINDOW
  {
    c := Scheduled();
    Takes(c, Start(Synced));
    c := Apply(c, Start(Synced));
    Takes(c, Capture(0));
    c := Apply(c, Capture(0));
    Takes(c, Attach(0));
    c := Apply(c, Attach(0));
    Takes(c, OpenStream(0));
    c := Apply(c, OpenStream(0));
  }

  lemma Asked() returns (c: Cell)
    ensures Reaches(c) && Streaming(c, FRESH_VALIDATOR, NO_EVENTS)
    ensures c.mem.value.history == EMPTY_WINDOW && |c.sends| > 0 && c.sends[|c.sends| - 1].stage.Reserved?
  {
    c := Launched();
    var step := Reserve(REQUEST, Synced);
    Takes(c, step);
    c := Apply(c, step);
  }

  lemma FrameIsTaken(c: Cell, validator: Validator, gathered: Supervision, f: Frame)
    requires Streaming(c, validator, gathered) && gathered.err == {}
    requires f == FIRST || f == LAST
    requires Accepts(validator, f) && c.mem.value.history.cursor < f.seqNo
    ensures var next := Apply(c, Stream(0, FrameItem(f), Synced));
            && Streaming(next, Accept(validator, f),
                         Supervision(gathered.count + 1, f.terminal, if f.terminal then Some(f) else gathered.last, {}))
            && next.mem.value.history.cursor == f.seqNo && next.sends == c.sends
  {
    assert Storable(f);
    assert Append(c.mem.value.history, f).Some?;
    assert ObserveOk(SlotOf(c), f, Synced);
    hide Trim;
  }

  lemma Begun() returns (c: Cell)
    ensures Reaches(c) && Streaming(c, Validator("run", 1, true, false), Supervision(1, false, None, {}))
    ensures |c.sends| > 0 && c.sends[|c.sends| - 1].stage.Reserved? && c.mem.value.history.cursor == 1
  {
    c := Asked();
    var step := Stream(0, FrameItem(FIRST), Synced);
    FrameIsTaken(c, FRESH_VALIDATOR, NO_EVENTS, FIRST);
    Takes(c, step);
    hide ApplyStream;
    c := Apply(c, step);
  }

  /** Both frames have arrived and the request is still to be sent. */
  lemma Completed() returns (c: Cell)
    ensures Reaches(c) && Streaming(c, Validator("run", 2, true, true), Supervision(2, true, Some(LAST), {}))
    ensures |c.sends| > 0 && c.sends[|c.sends| - 1].stage.Reserved?
  {
    c := Begun();
    var step := Stream(0, FrameItem(LAST), Synced);
    FrameIsTaken(c, Validator("run", 1, true, false), Supervision(1, false, None, {}), LAST);
    Takes(c, step);
    hide ApplyStream;
    c := Apply(c, step);
  }

  /** The run ended clean and its verdict is due. */
  lemma Ended() returns (c: Cell)
    ensures Reaches(c) && CurrentOk(c) && c.current == 0 && |c.runs| == 1 && LiveRun(c, 0)
    ensures c.runs[0].ended == Some(CLEAN_END) && !c.runs[0].finished && !CancelSeen(c, c.runs[0].held)
    ensures c.runs[0].supervisor == Done(Supervision(2, true, Some(LAST), {})) && c.mem.Some?
    ensures |c.sends| > 0 && c.sends[|c.sends| - 1].stage.Reserved?
  {
    c := Completed();
    Takes(c, EndStream(0));
    c := Apply(c, EndStream(0));
    Takes(c, Return(0, CLEAN_END));
    c := Apply(c, Return(0, CLEAN_END));
  }

  const OUTCOMES := [FailedNew, FailedOld, FailedOld, FailedOld]

  lemma AttemptsLeaveTheNew(disk: Option<Task>, task: Task)
    ensures Attempts(disk, task, OUTCOMES[..FINISH_ATTEMPTS]) == (false, Some(task))
  {
    var ps := OUTCOMES[..FINISH_ATTEMPTS];
    assert ps == [FailedNew, FailedOld, FailedOld];
    assert ps[1..] == [FailedOld, FailedOld] && ps[1..][1..] == [FailedOld] && ps[1..][1..][1..] == [];
    assert Attempts(Some(task), task, ps[1..][1..][1..]) == (false, Some(task));
    assert Attempts(Some(task), task, ps[1..][1..]) == (false, Some(task));
    assert Attempts(Some(task), task, ps[1..]) == (false, Some(task));
  }

  lemma FinishLoses(c: Cell)
    requires CurrentOk(c) && c.current == 0 && |c.runs| == 1 && LiveRun(c, 0) && c.mem.Some?
    requires c.runs[0].ended == Some(CLEAN_END) && !c.runs[0].finished && !CancelSeen(c, c.runs[0].held)
    requires c.runs[0].supervisor == Done(Supervision(2, true, Some(LAST), {}))
    ensures var next := ApplyFinish(c, 0, OUTCOMES);
            Won(next.disk) && next.mem.Some? && next.mem.value.state.Lost? && next.sends == c.sends
  {
    var run := c.runs[0];
    NoErrorExactlyWhenClean(CLEAN_END.exit, run.supervisor, CLEAN_END.envCleanup);
    var task := FinalTask(c.mem.value, false, {});
    AttemptsLeaveTheNew(c.disk, task);
    hide Attempts, Verdict;
  }

  /** A success on disk that is exposed is within reach, so it can be lost. */
  lemma StoredSuccessCanBeLost() returns (m: Machine, moves: seq<Move>, n: Machine)
    ensures Reachable(m) && Won(CellOf(m, KEY).disk)
    ensures RunsTo(m, moves, n) && !Won(CellOf(n, KEY).disk)
  {
    var c := Ended();
    FinishLoses(c);
    Takes(c, Finish(0, OUTCOMES));
    var next := ApplyFinish(c, 0, OUTCOMES);
    assert Apply(c, Finish(0, OUTCOMES)) == next;
    hide ApplyFinish, Apply, RunsTo, Reachable;
    m :| Reachable(m) && m.up && CellOf(m, KEY) == next;
    moves, n := ExposedIsLost(m, KEY);
  }
}
