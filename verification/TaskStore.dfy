/**
 The stored task records of the runner and the lock-held sections of InMemoryDispatch that
 change one task. Each section is a function on the task's slot: its record in memory, its
 file on disk and its entry in the active map.
 */
module TaskStore {
  import opened Wrappers
  import opened RuntimeProtocol
  import opened RuntimeHistory
  import opened RuntimeStream

  datatype TaskState =
    | Scheduled | Running | WaitingApproval | Succeeded | Failed | Cancelled | Lost
    | LegacyApproval  // never written; still understood when a file is read

  /** A schedule request. `rest` is everything else that is compared but not interpreted. */
  datatype Input = Input(organization: string, project: string, runId: string, idempotencyKey: string, rest: string)

  /** taskStorageKey. Task ids and file names are its digest; digests are taken to be injective. */
  function StorageKey(input: Input): string {
    input.organization + "\0" + input.project + "\0" + input.idempotencyKey
  }

  /** A resume request. Its digest is taken to be injective, so it stands for its own digest. */
  datatype Resume = Resume(key: string, approval: bool, approvalId: string, decision: string, reference: string)

  datatype Command = Command(sequence: nat, digest: Resume, sent: bool)

  datatype Task = Task(
    input: Input,
    owner: string,
    fence: nat,
    state: TaskState,
    error: string,
    approvalId: string,
    output: Option<Artifact>,
    status: TaskState,
    commands: map<string, Command>,
    history: Window)

  datatype Active = Active(handle: bool, requestSeq: nat, cancelRequested: bool)

  datatype Slot = Slot(mem: Option<Task>, disk: Option<Task>, active: Option<Active>)

  /** Outcome of persistLocked: a failing write leaves either the old or the new record behind. */
  datatype Persist = Synced | FailedOld | FailedNew

  function Write(disk: Option<Task>, task: Task, p: Persist): Option<Task> {
    if p.FailedOld? then disk else Some(task)
  }

  predicate Settled(state: TaskState) {
    state.Succeeded? || state.Failed? || state.Cancelled? || state.Lost?
  }

  // --- Schedule

  function NewTask(input: Input, owner: string, fence: nat): Task {
    Task(input, owner, fence, Scheduled, "", "", None, Scheduled, map[], EMPTY_WINDOW)
  }

  function ScheduleSection(s: Slot, input: Input, owner: string, fence: nat, p: Persist): Slot
    requires s.mem.None?
  {
    var task := NewTask(input, owner, fence);
    s.(disk := Write(s.disk, task, p), mem := if p.Synced? then Some(task) else None)
  }

  // --- startTask

  predicate Startable(s: Slot) {
    s.active.None? && s.mem.Some? && s.mem.value.state.Scheduled?
  }

  const FRESH_ACTIVE := Active(false, 0, false)

  function StartSection(s: Slot, p: Persist): Slot
    requires Startable(s)
  {
    var running := s.mem.value.(state := Running);
    var disk := Write(s.disk, running, p);
    if p.Synced? then Slot(Some(running), disk, Some(FRESH_ACTIVE)) else s.(disk := disk)
  }

  // --- Cancel

  predicate Cancellable(s: Slot) {
    s.mem.Some? && !Settled(s.mem.value.state)
  }

  function CancelSection(s: Slot, p: Persist): Slot
    requires Cancellable(s)
  {
    var task := s.mem.value.(state := Cancelled, error := "");
    Slot(Some(task), Write(s.disk, task, p),
         if s.active.Some? then Some(s.active.value.(cancelRequested := true)) else None)
  }

  // --- Resume, first section: reserve a sequence number

  /** The request is let in: the task is active and waiting, and the key is free or repeats its command. */
  predicate Resumable(s: Slot, r: Resume) {
    && s.mem.Some? && s.active.Some? && s.active.value.handle
    && (s.mem.value.state.WaitingApproval? || s.mem.value.state.Running?)
    && (r.key in s.mem.value.commands ==> s.mem.value.commands[r.key].digest == r)
  }

  /** The command was already sent: the request succeeds without doing anything. */
  predicate AlreadySent(s: Slot, r: Resume) {
    s.mem.Some? && r.key in s.mem.value.commands && s.mem.value.commands[r.key].sent
  }

  function ReserveSection(s: Slot, r: Resume, p: Persist): Slot
    requires Resumable(s, r) && !AlreadySent(s, r)
  {
    var task, active := s.mem.value, s.active.value;
    var repeated := r.key in task.commands;
    var command := if repeated then task.commands[r.key] else Command(active.requestSeq + 1, r, false);
    var reserved := task.(commands := task.commands[r.key := command], state := Running);
    var disk := Write(s.disk, reserved, p);
    if p.Synced? || repeated then
      Slot(Some(reserved), disk, Some(active.(requestSeq := if repeated then active.requestSeq else active.requestSeq + 1)))
    else
      Slot(Some(task.(state := Running)), disk, s.active)
  }

  /** The sequence number of the frame that may now be sent. */
  function ReservedSeq(s: Slot, r: Resume): nat
    requires Resumable(s, r)
  {
    if r.key in s.mem.value.commands then s.mem.value.commands[r.key].sequence else s.active.value.requestSeq + 1
  }

  // --- Resume, second section: record the command as sent

  /** What a lookup of a key without a command yields. */
  const NO_COMMAND := Command(0, Resume("", false, "", "", ""), false)

  function Lookup(commands: map<string, Command>, key: string): Command {
    if key in commands then commands[key] else NO_COMMAND
  }

  function ConfirmSection(s: Slot, key: string, p: Persist): Slot
    requires s.mem.Some?
  {
    var task := s.mem.value;
    var confirmed := task.(commands := task.commands[key := Lookup(task.commands, key).(sent := true)]);
    s.(mem := Some(confirmed), disk := Write(s.disk, confirmed, p))
  }

  // --- observe

  /** The record after a frame of its run, before it is written. None when the history refuses the frame. */
  function Observed(task: Task, f: Frame): Option<Task> {
    match Append(task.history, f)
    case None => None
    case Some(history) =>
      var appended := task.(history := history);
      match f.kind
      case ApprovalRequested =>
        if f.approvalId.Some? then Some(appended.(state := WaitingApproval, approvalId := f.approvalId.value))
        else Some(appended)
      case RunCompleted =>
        if f.artifact.Some? then Some(appended.(output := f.artifact)) else Some(appended)
      case _ => Some(appended)
  }

  /** A frame whose payload lacks what its type needs is refused after it entered the history. */
  predicate PayloadUsable(f: Frame) {
    (f.kind.ApprovalRequested? ==> f.approvalId.Some?) && (f.kind.RunCompleted? ==> f.artifact.Some?)
  }

  predicate BelongsTo(task: Task, f: Frame) {
    f.runId == task.input.runId && f.isEvent && ValidEnvelope(f)
  }

  function ObserveSection(s: Slot, f: Frame, p: Persist): Slot {
    if s.mem.None? || !BelongsTo(s.mem.value, f) then s
    else
      match Observed(s.mem.value, f)
      case None => s
      case Some(task) =>
        if PayloadUsable(f) then s.(mem := Some(task), disk := Write(s.disk, task, p)) else s.(mem := Some(task))
  }

  predicate ObserveOk(s: Slot, f: Frame, p: Persist) {
    && s.mem.Some? && BelongsTo(s.mem.value, f)
    && Observed(s.mem.value, f).Some? && PayloadUsable(f) && p.Synced?
  }

  // --- finish

  function FailureCode(err: Errors): string {
    if ContractSendFault in err then "runtime_contract_send_failed"
    else if StreamIncomplete in err then "runtime_stream_incomplete"
    else if StreamFault in err then "runtime_stream_failed"
    else if WaitFault in err then "runtime_wait_failed"
    else if CleanupFault in err then "runtime_cleanup_failed"
    else "execution_failed"
  }

  function FinalTask(task: Task, cancelSeen: bool, err: Errors): Task {
    var (state, error) :=
      if cancelSeen || TerminalOutcome(RunCancelled) in err then (Cancelled, "")
      else if DeadlineExceeded in err then (Failed, "execution_timeout")
      else if err != {} then (Failed, FailureCode(err))
      else (Succeeded, "");
    task.(state := state, error := error, status := state)
  }

  function LostTask(task: Task): Task {
    task.(state := Lost, status := Lost, error := "terminal_persistence_failed")
  }

  /** Write until one attempt succeeds: whether one did, and what the disk holds. */
  function Attempts(disk: Option<Task>, task: Task, ps: seq<Persist>): (bool, Option<Task>)
    decreases |ps|
  {
    if |ps| == 0 then (false, disk)
    else if ps[0].Synced? then (true, Some(task))
    else Attempts(Write(disk, task, ps[0]), task, ps[1..])
  }

  const FINISH_ATTEMPTS: nat := 3

  function FinishSection(s: Slot, cancelSeen: bool, err: Errors, ps: seq<Persist>): Slot
    requires |ps| == FINISH_ATTEMPTS + 1
  {
    if s.mem.None? then s.(active := None)
    else
      var task := FinalTask(s.mem.value, cancelSeen, err);
      var (written, disk) := Attempts(s.disk, task, ps[..FINISH_ATTEMPTS]);
      if written then Slot(Some(task), disk, None)
      else Slot(Some(LostTask(task)), Write(disk, LostTask(task), ps[FINISH_ATTEMPTS]), None)
  }

  // --- load

  /** The record a restarted runner makes of a file. None when the file is refused. */
  function Recovered(task: Task): Option<Task> {
    if task.input.idempotencyKey == "" then None
    else match Normalized(task.history)
    case None => None
    case Some(history) =>
      var loaded := task.(history := history);
      if task.state.Running? || task.state.WaitingApproval? || task.state.LegacyApproval? then
        Some(loaded.(state := Lost, error := "runner_restart"))
      else Some(loaded)
  }

  /** The file load leaves behind: a lost task is written back. */
  function Reread(task: Task): Task {
    if Recovered(task).Some? && Recovered(task).value.state.Lost? then Recovered(task).value else task
  }
}
