/**
 The durable dispatcher as a state machine. One cell per storage key holds the task's slot
 and everything that runs on its behalf: the goroutines startTask launched, their stream
 supervisors, and the resume calls in flight. Every lock-held section is one step, and so is
 every step a goroutine takes between two sections. A crash drops memory and goroutines and
 keeps the disk; loading reads the disk back.
 */
module DispatchMachine {
  import opened Wrappers
  import opened RuntimeProtocol
  import opened RuntimeHistory
  import opened RuntimeStream
  import opened TaskStore

  // --- One task

  /** What the goroutine of a run got when it asked for the active entry of its task. */
  datatype Held = NotYet | Nothing | Object(index: int)

  datatype RunEnd = RunEnd(exit: Exit, envCleanup: Errors)

  /** The errors the sandbox, the process and the cleanup bring in are none of the stream's outcomes. */
  predicate ForeignEnd(end: RunEnd) {
    ForeignExit(end.exit) && Foreign(end.envCleanup)
  }

  /** One goroutine launched by startTask, with the frames its sink has taken. */
  datatype Run = Run(
    held: Held,
    attached: bool,          // the sandbox is up and OnStart was called
    supervisor: Supervisor,
    seen: seq<Frame>,
    ended: Option<RunEnd>,   // Daemon.Run returned
    finished: bool,          // finish ran
    alive: bool)             // the process that launched it still runs

  const LAUNCHED := Run(NotYet, false, Idle, [], None, false, true)

  /** How far a resume call got: its number is reserved, its frame was delivered, the call returned. */
  datatype Stage = Reserved | Delivered | Over

  /** A resume call that passed its first section. */
  datatype Send = Send(request: Resume, sequence: nat, stage: Stage)

  /**
   `objects` are all active entries ever created for the task and `current` is the one in the
   active map, or -1. The last four fields only record what happened: every command whose
   reservation was written, every frame sent, the request that was accepted first, and
   whether Cancel marked the task in this process (`cancelled`) or left a mark that a restart
   can see (`doomed`).
   */
  datatype Cell = Cell(
    mem: Option<Task>,
    disk: Option<Task>,
    objects: seq<Active>,
    current: int,
    runs: seq<Run>,
    sends: seq<Send>,
    issued: map<string, (nat, Resume)>,
    sent: seq<(nat, Resume)>,
    accepted: Option<(string, Input)>,
    cancelled: bool,
    doomed: bool)

  const EMPTY_CELL := Cell(None, None, [], -1, [], [], map[], [], None, false, false)

  predicate CurrentOk(c: Cell) {
    -1 <= c.current < |c.objects|
  }

  function SlotOf(c: Cell): Slot
    requires CurrentOk(c)
  {
    Slot(c.mem, c.disk, if c.current < 0 then None else Some(c.objects[c.current]))
  }

  /** Put a slot back whose active entry is still the same object, or gone. */
  function WithSlot(c: Cell, s: Slot): Cell
    requires CurrentOk(c)
  {
    if s.active.Some? && c.current >= 0 then
      c.(mem := s.mem, disk := s.disk, objects := c.objects[c.current := s.active.value])
    else
      c.(mem := s.mem, disk := s.disk, current := -1)
  }

  datatype Step =
    | ScheduleNew(input: Input, owner: string, fence: nat, p: Persist)
    | ScheduleAgain(input: Input, owner: string)
    | Start(p: Persist)
    | Capture(run: nat)
    | Attach(run: nat)
    | OpenStream(run: nat)
    | Stream(run: nat, item: StreamItem, p: Persist)
    | EndStream(run: nat)
    | Return(run: nat, end: RunEnd)
    | Finish(run: nat, ps: seq<Persist>)
    | Cancel(p: Persist)
    | Reserve(request: Resume, p: Persist)
    | Deliver(send: nat)
    | Abandon(send: nat)
    | Confirm(send: nat, p: Persist)

  predicate LiveRun(c: Cell, i: nat) {
    i < |c.runs| && c.runs[i].alive
  }

  predicate Enabled(c: Cell, step: Step)
    requires CurrentOk(c)
  {
    match step
    case ScheduleNew(input, owner, fence, _) => c.mem.None? && input.idempotencyKey != ""
    case ScheduleAgain(input, owner) => c.mem.Some? && c.mem.value.owner == owner && c.mem.value.input == input
    case Start(_) => Startable(SlotOf(c))
    case Capture(i) => LiveRun(c, i) && c.runs[i].held.NotYet? && c.runs[i].ended.None?
    case Attach(i) =>
      LiveRun(c, i) && !c.runs[i].held.NotYet? && !c.runs[i].attached && c.runs[i].ended.None?
    case OpenStream(i) =>
      LiveRun(c, i) && c.runs[i].attached && c.runs[i].supervisor.Idle? && c.runs[i].ended.None?
    case Stream(i, _, _) => LiveRun(c, i) && c.runs[i].supervisor.Live? && c.mem.Some?
    case EndStream(i) => LiveRun(c, i) && c.runs[i].supervisor.Live?
    case Return(i, end) =>
      && LiveRun(c, i) && !c.runs[i].held.NotYet? && c.runs[i].ended.None?
      && ExitPossible(end.exit, c.runs[i].supervisor) && ForeignEnd(end)
    case Finish(i, ps) =>
      LiveRun(c, i) && c.runs[i].ended.Some? && !c.runs[i].finished && |ps| == FINISH_ATTEMPTS + 1
    case Cancel(_) => Cancellable(SlotOf(c))
    case Reserve(r, _) => Resumable(SlotOf(c), r) && !AlreadySent(SlotOf(c), r)
    case Deliver(n) => n < |c.sends| && c.sends[n].stage.Reserved?
    case Abandon(n) => n < |c.sends| && !c.sends[n].stage.Over?
    case Confirm(n, _) => n < |c.sends| && c.sends[n].stage.Delivered? && c.mem.Some?
  }

  function WithRun(c: Cell, i: nat, run: Run): Cell
    requires i < |c.runs|
  {
    c.(runs := c.runs[i := run])
  }

  /** Whether the goroutine that holds `held` sees a cancel request on its entry. */
  predicate CancelSeen(c: Cell, held: Held) {
    held.Object? && 0 <= held.index < |c.objects| && c.objects[held.index].cancelRequested
  }

  function ApplySchedule(c: Cell, input: Input, owner: string, fence: nat, p: Persist): Cell
    requires CurrentOk(c) && c.mem.None?
  {
    var s := ScheduleSection(SlotOf(c), input, owner, fence, p);
    c.(mem := s.mem, disk := s.disk,
       accepted := if p.Synced? && c.accepted.None? then Some((owner, input)) else c.accepted)
  }

  function ApplyStart(c: Cell, p: Persist): Cell
    requires CurrentOk(c) && Startable(SlotOf(c))
  {
    var s := StartSection(SlotOf(c), p);
    if p.Synced? then
      c.(mem := s.mem, disk := s.disk, objects := c.objects + [FRESH_ACTIVE], current := |c.objects|,
         runs := c.runs + [LAUNCHED])
    else c.(mem := s.mem, disk := s.disk)
  }

  function ApplyAttach(c: Cell, i: nat): Cell
    requires CurrentOk(c) && i < |c.runs|
  {
    var attached := WithRun(c, i, c.runs[i].(attached := true));
    if c.current < 0 then attached
    else attached.(objects := c.objects[c.current := c.objects[c.current].(handle := true, requestSeq := 1)])
  }

  function ApplyStream(c: Cell, i: nat, item: StreamItem, p: Persist): Cell
    requires CurrentOk(c) && i < |c.runs| && c.runs[i].supervisor.Live? && c.mem.Some?
  {
    var run := c.runs[i];
    var runId := c.mem.value.input.runId;
    if item.FrameItem? && ReachesSink(run.supervisor, runId, item.frame) then
      var ok := ObserveOk(SlotOf(c), item.frame, p);
      var next := Supervise(run.supervisor, runId, item, ok);
      WithRun(WithSlot(c, ObserveSection(SlotOf(c), item.frame, p)), i,
              run.(supervisor := next, seen := if ok then run.seen + [item.frame] else run.seen))
    else
      WithRun(c, i, run.(supervisor := Supervise(run.supervisor, runId, item, false)))
  }

  function ApplyFinish(c: Cell, i: nat, ps: seq<Persist>): Cell
    requires CurrentOk(c) && i < |c.runs| && c.runs[i].ended.Some? && |ps| == FINISH_ATTEMPTS + 1
  {
    var run := c.runs[i];
    var end := run.ended.value;
    var err := Verdict(end.exit, run.supervisor, end.envCleanup);
    WithRun(WithSlot(c, FinishSection(SlotOf(c), CancelSeen(c, run.held), err, ps)), i, run.(finished := true))
  }

  function ApplyCancel(c: Cell, p: Persist): Cell
    requires CurrentOk(c) && Cancellable(SlotOf(c))
  {
    var next := WithSlot(c, CancelSection(SlotOf(c), p));
    next.(cancelled := true, doomed := c.doomed || Doomed(next.disk))
  }

  /** A restart would find neither a task to run nor a verdict other than cancelled or lost. */
  predicate Doomed(disk: Option<Task>) {
    disk.Some? && !disk.value.state.Scheduled? && !disk.value.state.Succeeded? && !disk.value.state.Failed?
  }

  function ApplyReserve(c: Cell, r: Resume, p: Persist): Cell
    requires CurrentOk(c) && Resumable(SlotOf(c), r) && !AlreadySent(SlotOf(c), r)
  {
    var s := SlotOf(c);
    var n := ReservedSeq(s, r);
    var next := WithSlot(c, ReserveSection(s, r, p));
    if p.Synced? then next.(sends := c.sends + [Send(r, n, Reserved)], issued := c.issued[r.key := (n, r)]) else next
  }

  function ApplyDeliver(c: Cell, n: nat): Cell
    requires n < |c.sends|
  {
    var send := c.sends[n];
    c.(sends := c.sends[n := send.(stage := Delivered)], sent := c.sent + [(send.sequence, send.request)])
  }

  /** The call returns; sending may have failed with or without the frame having arrived. */
  function ApplyAbandon(c: Cell, n: nat): Cell
    requires n < |c.sends|
  {
    c.(sends := c.sends[n := c.sends[n].(stage := Over)])
  }

  function ApplyConfirm(c: Cell, n: nat, p: Persist): Cell
    requires CurrentOk(c) && n < |c.sends| && c.mem.Some?
  {
    ApplyAbandon(WithSlot(c, ConfirmSection(SlotOf(c), c.sends[n].request.key, p)), n)
  }

  function Apply(c: Cell, step: Step): Cell
    requires CurrentOk(c) && Enabled(c, step)
  {
    match step
    case ScheduleNew(input, owner, fence, p) => ApplySchedule(c, input, owner, fence, p)
    case ScheduleAgain(input, owner) =>
      c.(accepted := if c.accepted.None? then Some((owner, input)) else c.accepted)
    case Start(p) => ApplyStart(c, p)
    case Capture(i) => WithRun(c, i, c.runs[i].(held := if c.current < 0 then Nothing else Object(c.current)))
    case Attach(i) => ApplyAttach(c, i)
    case OpenStream(i) => WithRun(c, i, c.runs[i].(supervisor := STARTED))
    case Stream(i, item, p) => ApplyStream(c, i, item, p)
    case EndStream(i) => WithRun(c, i, c.runs[i].(supervisor := Done(c.runs[i].supervisor.gathered)))
    case Return(i, end) => WithRun(c, i, c.runs[i].(ended := Some(end)))
    case Finish(i, ps) => ApplyFinish(c, i, ps)
    case Cancel(p) => ApplyCancel(c, p)
    case Reserve(r, p) => ApplyReserve(c, r, p)
    case Deliver(n) => ApplyDeliver(c, n)
    case Abandon(n) => ApplyAbandon(c, n)
    case Confirm(n, p) => ApplyConfirm(c, n, p)
  }

  /** The process dies: memory and goroutines are gone, the file stays. */
  function Crashed(c: Cell): Cell {
    c.(mem := None, current := -1, sends := [], cancelled := false,
       runs := seq(|c.runs|, i requires 0 <= i < |c.runs| => c.runs[i].(alive := false)))
  }

  /** load rewrites the file of a lost task. */
  function Rewritten(c: Cell): Cell {
    if c.disk.Some? then c.(disk := Some(Reread(c.disk.value))) else c
  }

  function Loaded(c: Cell): Cell {
    if c.disk.None? then c
    else Rewritten(c).(mem := Recovered(c.disk.value))
  }

  // --- All tasks

  datatype Machine = Machine(up: bool, nextFence: nat, cells: map<string, Cell>)

  const INITIAL := Machine(true, 0, map[])

  function CellOf(m: Machine, key: string): Cell {
    if key in m.cells then m.cells[key] else EMPTY_CELL
  }

  datatype Move =
    | Local(key: string, step: Step)
    | Crash
    | LoadFailed(written: set<string>)  // some lost tasks were rewritten before a write failed
    | Load(fence: nat)

  function DiskFence(c: Cell): nat {
    if c.disk.Some? then c.disk.value.fence else 0
  }

  ghost predicate IsHighestFence(m: Machine, fence: nat) {
    && (forall k :: k in m.cells ==> DiskFence(m.cells[k]) <= fence)
    && (fence == 0 || exists k :: k in m.cells && DiskFence(m.cells[k]) == fence)
  }

  ghost predicate Allowed(m: Machine, move: Move) {
    match move
    case Local(key, step) =>
      && m.up && CurrentOk(CellOf(m, key)) && Enabled(CellOf(m, key), step)
      && (step.ScheduleNew? ==> step.fence == m.nextFence + 1 && key == StorageKey(step.input))
    case Crash => m.up
    case LoadFailed(_) => !m.up
    case Load(fence) =>
      && !m.up && IsHighestFence(m, fence)
      && forall k :: k in m.cells && m.cells[k].disk.Some? ==> Recovered(m.cells[k].disk.value).Some?
  }

  ghost function After(m: Machine, move: Move): Machine
    requires Allowed(m, move)
  {
    match move
    case Local(key, step) =>
      m.(cells := m.cells[key := Apply(CellOf(m, key), step)],
         nextFence := if step.ScheduleNew? then m.nextFence + 1 else m.nextFence)
    case Crash => m.(up := false, cells := map k | k in m.cells :: Crashed(m.cells[k]))
    case LoadFailed(written) =>
      m.(cells := map k | k in m.cells :: if k in written then Rewritten(m.cells[k]) else m.cells[k])
    case Load(fence) => Machine(true, fence, map k | k in m.cells :: Loaded(m.cells[k]))
  }

  /** `n` is reached from `m` by these moves. */
  ghost predicate RunsTo(m: Machine, moves: seq<Move>, n: Machine)
    decreases |moves|
  {
    if |moves| == 0 then m == n
    else Allowed(m, moves[0]) && RunsTo(After(m, moves[0]), moves[1..], n)
  }
}
