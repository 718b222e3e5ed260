/**
 The invariant of the whole dispatcher: all tasks together with their fencing tokens, kept by
 every move.
 */
module DispatchTheorems {
  import opened Wrappers
  import opened RuntimeProtocol
  import opened RuntimeHistory
  import opened RuntimeStream
  import opened TaskStore
  import opened DispatchMachine
  import opened DispatchInvariant
  import opened DispatchCommands
  import opened DispatchSafety

  // --- The invariant of the whole machine

  /** No two stored tasks share a fencing token and the counter is at least as high as all of them. */
  ghost predicate Fences(m: Machine) {
    && (forall k :: k in m.cells ==> DiskFence(m.cells[k]) <= m.nextFence)
    && (forall j, k :: j in m.cells && k in m.cells && j != k && m.cells[j].disk.Some? && m.cells[k].disk.Some? ==>
          DiskFence(m.cells[j]) != DiskFence(m.cells[k]))
  }

  ghost predicate MachineInv(m: Machine) {
    (forall k :: k in m.cells ==> CellInv(k, m.cells[k], m.up)) && Fences(m)
  }

  lemma CellOfInv(m: Machine, key: string)
    requires MachineInv(m)
    ensures CellInv(key, CellOf(m, key), m.up)
  {
    EmptyCellInv(key, m.up);
  }

  /** The token on disk after a step is the one before it, or the one the step brought. */
  ghost predicate TokenFrom(c: Cell, step: Step, next: Cell) {
    next.disk.Some? ==>
      || (c.disk.Some? && DiskFence(next) == DiskFence(c))
      || (step.ScheduleNew? && DiskFence(next) == step.fence)
  }

  lemma StreamKeepsFence(c: Cell, item: StreamItem, p: Persist)
    requires CurrentOk(c) && |c.runs| == 1 && c.runs[0].supervisor.Live? && c.mem.Some? && SameTask(c.mem, c.disk)
    ensures var next := ApplyStream(c, 0, item, p);
            next.disk.Some? && DiskFence(next) == DiskFence(c)
  {
    if item.FrameItem? {
      ObserveKeepsRequest(SlotOf(c), item.frame, p);
    }
  }

  lemma FinishKeepsFence(c: Cell, ps: seq<Persist>)
    requires CurrentOk(c) && |c.runs| == 1 && c.runs[0].ended.Some? && |ps| == FINISH_ATTEMPTS + 1
    requires c.mem.Some? && SameTask(c.mem, c.disk)
    ensures var next := ApplyFinish(c, 0, ps);
            next.disk.Some? && DiskFence(next) == DiskFence(c)
  {
    var run := c.runs[0];
    var err := Verdict(run.ended.value.exit, run.supervisor, run.ended.value.envCleanup);
    FinishOutcome(SlotOf(c), CancelSeen(c, run.held), err, ps);
  }

  lemma RequestKeepsFence(c: Cell, step: Step)
    requires CurrentOk(c) && Enabled(c, step) && !step.Stream? && !step.Finish? && SameTask(c.mem, c.disk)
    ensures TokenFrom(c, step, Apply(c, step))
  {
    hide ExitPossible, StorageKey;
  }

  /** A step writes its task's own token, and only a new task brings a new one. */
  lemma StepKeepsFence(c: Cell, step: Step)
    requires Launches(c.runs, c.objects, c.current, true) && Records(c.mem, c.disk, |c.runs| == 1, true)
    requires SameTask(c.mem, c.disk) && Enabled(c, step)
    ensures TokenFrom(c, step, Apply(c, step))
  {
    hide ApplyStream, ApplyFinish, ExitPossible;
    if step.Stream? {
      StreamKeepsFence(c, step.item, step.p);
      assert Apply(c, step) == ApplyStream(c, 0, step.item, step.p);
    } else if step.Finish? {
      FinishKeepsFence(c, step.ps);
      assert Apply(c, step) == ApplyFinish(c, 0, step.ps);
    } else {
      RequestKeepsFence(c, step);
    }
  }

  lemma CellStep(key: string, c: Cell, step: Step)
    requires CellInv(key, c, true) && Enabled(c, step)
    requires step.ScheduleNew? ==> key == StorageKey(step.input)
    ensures CellInv(key, Apply(c, step), true) && TokenFrom(c, step, Apply(c, step))
  {
    StepKeepsCell(key, c, step);
    StepKeepsFence(c, step);
  }

  lemma UpdateKeepsInv(m: Machine, key: string, next: Cell, fence: nat)
    requires MachineInv(m) && m.up && m.nextFence <= fence && CellInv(key, next, true)
    requires next.disk.Some? ==>
               || (CellOf(m, key).disk.Some? && DiskFence(next) == DiskFence(CellOf(m, key)))
               || (m.nextFence < DiskFence(next) <= fence)
    ensures MachineInv(Machine(true, fence, m.cells[key := next]))
  {
    hide CellInv;
    var n := Machine(true, fence, m.cells[key := next]);
    assert forall k :: k in n.cells && k != key ==> k in m.cells && n.cells[k] == m.cells[k];
  }

  lemma LocalKeepsInv(m: Machine, key: string, step: Step)
    requires MachineInv(m) && Allowed(m, Local(key, step))
    ensures MachineInv(After(m, Local(key, step)))
  {
    CellOfInv(m, key);
    hide MachineInv, CellInv, Apply, Enabled;
    CellStep(key, CellOf(m, key), step);
    var fence := if step.ScheduleNew? then m.nextFence + 1 else m.nextFence;
    UpdateKeepsInv(m, key, Apply(CellOf(m, key), step), fence);
  }

  /** The cell holds a file with the same token as before. */
  ghost predicate SameToken(c: Cell, next: Cell) {
    next.disk.Some? == c.disk.Some? && DiskFence(next) == DiskFence(c)
  }

  lemma ReplaceCellsKeepsInv(m: Machine, n: Machine)
    requires Fences(m) && n.cells.Keys == m.cells.Keys
    requires forall k :: k in n.cells ==> CellInv(k, n.cells[k], n.up) && SameToken(m.cells[k], n.cells[k])
    requires forall k :: k in m.cells ==> DiskFence(m.cells[k]) <= n.nextFence
    ensures MachineInv(n)
  {
    hide CellInv;
  }

  lemma CrashKeepsInv(m: Machine)
    requires MachineInv(m) && m.up
    ensures MachineInv(After(m, Crash))
  {
    hide CellInv;
    forall k | k in m.cells ensures CellInv(k, Crashed(m.cells[k]), false) { CrashKeepsCell(k, m.cells[k]); }
    ReplaceCellsKeepsInv(m, After(m, Crash));
  }

  lemma RewriteKeepsToken(c: Cell)
    ensures c.disk.Some? && Recovered(c.disk.value).Some? ==> SameToken(c, Loaded(c))
    ensures SameToken(c, Rewritten(c))
  {
  }

  lemma LoadKeepsInv(m: Machine, fence: nat)
    requires MachineInv(m) && Allowed(m, Load(fence))
    ensures MachineInv(After(m, Load(fence)))
  {
    hide CellInv;
    forall k | k in m.cells ensures CellInv(k, Loaded(m.cells[k]), true) && SameToken(m.cells[k], Loaded(m.cells[k])) {
      LoadKeepsCell(k, m.cells[k]);
      RewriteKeepsToken(m.cells[k]);
    }
    ReplaceCellsKeepsInv(m, After(m, Load(fence)));
  }

  lemma LoadFailedKeepsInv(m: Machine, written: set<string>)
    requires MachineInv(m) && Allowed(m, LoadFailed(written))
    ensures MachineInv(After(m, LoadFailed(written)))
  {
    hide CellInv;
    forall k | k in m.cells ensures CellInv(k, Rewritten(m.cells[k]), false) && SameToken(m.cells[k], Rewritten(m.cells[k])) {
      RewriteKeepsCell(k, m.cells[k]);
      RewriteKeepsToken(m.cells[k]);
    }
    ReplaceCellsKeepsInv(m, After(m, LoadFailed(written)));
  }

  lemma MoveKeepsInv(m: Machine, move: Move)
    requires MachineInv(m) && Allowed(m, move)
    ensures MachineInv(After(m, move))
  {
    hide MachineInv;
    match move
    case Local(key, step) => LocalKeepsInv(m, key, step);
    case Crash => CrashKeepsInv(m);
    case LoadFailed(written) => LoadFailedKeepsInv(m, written);
    case Load(fence) => LoadKeepsInv(m, fence);
  }

  lemma {:induction false} RunsKeepInv(m: Machine, moves: seq<Move>, n: Machine)
    requires MachineInv(m) && RunsTo(m, moves, n)
    ensures MachineInv(n)
    decreases |moves|
  {
    hide MachineInv;
    if |moves| > 0 {
      MoveKeepsInv(m, moves[0]);
      RunsKeepInv(After(m, moves[0]), moves[1..], n);
    }
  }

  /** Reached from the empty directory by some run. */
  ghost predicate Reachable(m: Machine) {
    exists moves :: RunsTo(INITIAL, moves, m)
  }

  lemma ReachableInv(m: Machine, key: string)
    requires Reachable(m)
    ensures MachineInv(m) && CellInv(key, CellOf(m, key), m.up)
  {
    var moves :| RunsTo(INITIAL, moves, m);
    RunsKeepInv(INITIAL, moves, m);
    CellOfInv(m, key);
  }
}
