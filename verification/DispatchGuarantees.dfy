/**
 What the durable dispatcher guarantees over every run from an empty task directory: any
 interleaving of requests and goroutines, any failing writes, any number of crashes and
 reloads.
 */
module DispatchGuarantees {
  import opened Wrappers
  import opened RuntimeProtocol
  import opened RuntimeHistory
  import opened RuntimeStream
  import opened TaskStore
  import opened DispatchMachine
  import opened DispatchInvariant
  import opened DispatchSafety
  import opened DispatchTheorems
  import opened DispatchRuns

  // --- At most one launch

  /** How often a run launches the sandbox of a task. */
  ghost function LaunchCount(moves: seq<Move>, key: string): nat
    decreases |moves|
  {
    if |moves| == 0 then 0
    else (if moves[0] == Local(key, Start(Synced)) then 1 else 0) + LaunchCount(moves[1..], key)
  }

  lemma StepLaunches(c: Cell, step: Step)
    requires Launches(c.runs, c.objects, c.current, true) && Records(c.mem, c.disk, |c.runs| == 1, true)
    requires Enabled(c, step)
    ensures |Apply(c, step).runs| == |c.runs| + if step == Start(Synced) then 1 else 0
  {
    hide ApplyStream, ApplyFinish, ExitPossible, ReserveSection;
    if step.Stream? {
      StreamFrame(c, step.item, step.p);
    } else if step.Finish? {
      FinishFrame(c, step.ps);
    }
  }

  lemma LocalLaunches(m: Machine, k: string, step: Step, key: string)
    requires MachineInv(m) && Allowed(m, Local(k, step))
    ensures |CellOf(After(m, Local(k, step)), key).runs|
         == |CellOf(m, key).runs| + if k == key && step == Start(Synced) then 1 else 0
  {
    LocalCell(m, k, step, key);
    CellOfInv(m, key);
    hide Apply, Enabled, MachineInv;
    if k == key {
      StepLaunches(CellOf(m, key), step);
    }
  }

  lemma RestartLaunchesNothing(m: Machine, move: Move, key: string)
    requires Allowed(m, move) && !move.Local?
    ensures |CellOf(After(m, move), key).runs| == |CellOf(m, key).runs|
  {
    hide Recovered, IsHighestFence;
  }

  lemma MoveLaunches(m: Machine, move: Move, key: string)
    requires MachineInv(m) && Allowed(m, move)
    ensures |CellOf(After(m, move), key).runs|
         == |CellOf(m, key).runs| + if move == Local(key, Start(Synced)) then 1 else 0
  {
    hide MachineInv, Allowed;
    if move.Local? {
      LocalLaunches(m, move.key, move.step, key);
    } else {
      RestartLaunchesNothing(m, move, key);
    }
  }

  lemma {:induction false} RunLaunches(m: Machine, moves: seq<Move>, n: Machine, key: string)
    requires MachineInv(m) && RunsTo(m, moves, n)
    ensures |CellOf(n, key).runs| == |CellOf(m, key).runs| + LaunchCount(moves, key)
    decreases |moves|
  {
    hide MachineInv;
    if |moves| > 0 {
      MoveLaunches(m, moves[0], key);
      MoveKeepsInv(m, moves[0]);
      RunLaunches(After(m, moves[0]), moves[1..], n, key);
    }
  }

  /** No run ever launches a task twice. */
  lemma AtMostOneLaunch(moves: seq<Move>, n: Machine, key: string)
    requires RunsTo(INITIAL, moves, n)
    ensures LaunchCount(moves, key) <= 1
  {
    RunsKeepInv(INITIAL, moves, n);
    RunLaunches(INITIAL, moves, n, key);
    CellOfInv(n, key);
  }

  // --- Success

  /** Whatever says succeeded, in memory or on disk, was earned by the one run of that task. */
  lemma SuccessIsEarned(m: Machine, key: string)
    requires Reachable(m)
    ensures var c := CellOf(m, key);
            && (Won(c.disk) ==> |c.runs| == 1 && |c.objects| == 1 && Earned(c.runs[0], c.objects[0], c.disk.value.output))
            && (Won(c.mem) ==> |c.runs| == 1 && |c.objects| == 1 && Earned(c.runs[0], c.objects[0], c.mem.value.output))
  {
    ReachableInv(m, key);
  }

  /** A task that answers succeeded, or would after the next load, keeps that answer and its output for good. */
  lemma SuccessIsFinal(m: Machine, moves: seq<Move>, n: Machine, key: string, output: Option<Artifact>)
    requires Reachable(m) && Final(CellOf(m, key), output, m.up) && RunsTo(m, moves, n)
    ensures Final(CellOf(n, key), output, n.up)
  {
    ReachableInv(m, key);
    RunFollowsCell(m, moves, n, key);
  }

  /** In memory alone it takes no more: a success there is a success on disk. */
  lemma AnsweredIsFinal(m: Machine, key: string)
    requires Reachable(m) && Won(CellOf(m, key).mem)
    ensures Final(CellOf(m, key), CellOf(m, key).mem.value.output, m.up)
  {
    ReachableInv(m, key);
  }

  /**
   Whether a success on disk can still be overwritten: the process runs, memory says lost, since
   the verdict could not be confirmed, and a resume call is still to record its command as sent.
   */
  ghost predicate Exposed(c: Cell, up: bool) {
    up && !Won(c.mem) && !NoneInFlight(c.sends)
  }

  ghost predicate StaysOnDisk(m: Machine, key: string, output: Option<Artifact>) {
    forall moves, n :: RunsTo(m, moves, n) ==> Won(CellOf(n, key).disk) && CellOf(n, key).disk.value.output == output
  }

  /** A success on disk stays there with its output over every run, exactly if it is not exposed. */
  lemma StoredSuccessIsFinalExactly(m: Machine, key: string)
    requires Reachable(m) && Won(CellOf(m, key).disk)
    ensures StaysOnDisk(m, key, CellOf(m, key).disk.value.output) <==> !Exposed(CellOf(m, key), m.up)
  {
    var output := CellOf(m, key).disk.value.output;
    if Exposed(CellOf(m, key), m.up) {
      var moves, n := ExposedIsLost(m, key);
      assert RunsTo(m, moves, n) && !Won(CellOf(n, key).disk);
    } else {
      forall moves, n | RunsTo(m, moves, n)
        ensures Won(CellOf(n, key).disk) && CellOf(n, key).disk.value.output == output
      {
        ReachableInv(m, key);
        RunFollowsCell(m, moves, n, key);
        assert Kept(CellOf(m, key), output, m.up);
        assert Kept(CellOf(n, key), output, n.up);
      }
    }
  }

  lemma OneMove(m: Machine, move: Move)
    requires Allowed(m, move)
    ensures RunsTo(m, [move], After(m, move))
  {
    assert [move][1..] == [];
  }

  lemma {:induction false} RunsAppend(m: Machine, first: seq<Move>, u: Machine, second: seq<Move>, n: Machine)
    requires RunsTo(m, first, u) && RunsTo(u, second, n)
    ensures RunsTo(m, first + second, n)
    decreases |first|
  {
    if |first| == 0 {
      assert first + second == second;
    } else {
      RunsAppend(After(m, first[0]), first[1..], u, second, n);
      assert (first + second)[1..] == first[1..] + second;
    }
  }

  /** The confirm of a call in flight writes what memory says. */
  lemma ConfirmWritesMemory(c: Cell, i: nat)
    requires CurrentOk(c) && Enabled(c, Confirm(i, Synced))
    ensures Apply(c, Confirm(i, Synced)).disk.Some?
    ensures Apply(c, Confirm(i, Synced)).disk.value.state == c.mem.value.state
  {
  }

  lemma ConfirmLoses(m: Machine, key: string, i: nat) returns (moves: seq<Move>, n: Machine)
    requires MachineInv(m) && m.up && i < |CellOf(m, key).sends| && CellOf(m, key).sends[i].stage.Delivered?
    requires CellOf(m, key).mem.Some? && !Won(CellOf(m, key).mem)
    ensures RunsTo(m, moves, n) && !Won(CellOf(n, key).disk)
  {
    CellOfInv(m, key);
    var move := Local(key, Confirm(i, Synced));
    assert Allowed(m, move);
    hide MachineInv, CellInv, Apply, Enabled;
    ConfirmWritesMemory(CellOf(m, key), i);
    LocalCell(m, key, Confirm(i, Synced), key);
    OneMove(m, move);
    moves, n := [move], After(m, move);
  }

  lemma DeliverOnly(m: Machine, key: string, i: nat) returns (n: Machine)
    requires MachineInv(m) && m.up && i < |CellOf(m, key).sends| && CellOf(m, key).sends[i].stage.Reserved?
    ensures RunsTo(m, [Local(key, Deliver(i))], n) && MachineInv(n) && n.up
    ensures CellOf(n, key).mem == CellOf(m, key).mem
    ensures i < |CellOf(n, key).sends| && CellOf(n, key).sends[i].stage.Delivered?
  {
    CellOfInv(m, key);
    var move := Local(key, Deliver(i));
    assert Allowed(m, move);
    assert Apply(CellOf(m, key), Deliver(i)) == ApplyDeliver(CellOf(m, key), i);
    hide MachineInv, CellInv, Apply, Enabled;
    MoveKeepsInv(m, move);
    LocalCell(m, key, Deliver(i), key);
    OneMove(m, move);
    n := After(m, move);
  }

  /** An exposed success is lost by the run that completes the resume call. */
  lemma ExposedIsLost(m: Machine, key: string) returns (moves: seq<Move>, n: Machine)
    requires Reachable(m) && Won(CellOf(m, key).disk) && Exposed(CellOf(m, key), m.up)
    ensures RunsTo(m, moves, n) && !Won(CellOf(n, key).disk)
  {
    ReachableInv(m, key);
    var c := CellOf(m, key);
    var i :| 0 <= i < |c.sends| && !c.sends[i].stage.Over?;
    hide MachineInv, RunsTo;
    if c.sends[i].stage.Delivered? {
      moves, n := ConfirmLoses(m, key, i);
    } else {
      var u := DeliverOnly(m, key, i);
      var rest;
      rest, n := ConfirmLoses(u, key, i);
      moves := [Local(key, Deliver(i))] + rest;
      RunsAppend(m, [Local(key, Deliver(i))], u, rest, n);
    }
  }

  // --- Cancel

  lemma MoveKeepsCancelled(m: Machine, move: Move, key: string)
    requires MachineInv(m) && m.up && Allowed(m, move) && !move.Crash? && CellOf(m, key).cancelled
    ensures After(m, move).up && CellOf(After(m, move), key).cancelled
  {
    hide ExitPossible, ObserveSection, FinishSection, Supervise, ReserveSection, Verdict, MachineInv;
  }

  lemma {:induction false} RunKeepsCancelled(m: Machine, moves: seq<Move>, n: Machine, key: string)
    requires MachineInv(m) && m.up && RunsTo(m, moves, n) && Crash !in moves && CellOf(m, key).cancelled
    ensures n.up && CellOf(n, key).cancelled
    decreases |moves|
  {
    hide MachineInv;
    if |moves| > 0 {
      MoveKeepsCancelled(m, moves[0], key);
      MoveKeepsInv(m, moves[0]);
      RunKeepsCancelled(After(m, moves[0]), moves[1..], n, key);
    }
  }

  function Marked(task: Task): Task {
    task.(state := Cancelled, error := "")
  }

  lemma CancelMarksCell(c: Cell, p: Persist)
    requires CurrentOk(c) && Cancellable(SlotOf(c))
    ensures var next := ApplyCancel(c, p);
            && next.cancelled && next.disk == Write(c.disk, Marked(c.mem.value), p)
            && (Doomed(next.disk) ==> next.doomed)
  {
  }

  lemma CancelMarks(m: Machine, key: string, p: Persist)
    requires Reachable(m) && Allowed(m, Local(key, Cancel(p)))
    ensures var next := After(m, Local(key, Cancel(p)));
            && MachineInv(next) && next.up && key in next.cells
            && CellOf(m, key).mem.Some? && CellOf(next, key).cancelled
            && CellOf(next, key).disk == Write(CellOf(m, key).disk, Marked(CellOf(m, key).mem.value), p)
            && (Doomed(CellOf(next, key).disk) ==> CellOf(next, key).doomed)
  {
    ReachableInv(m, key);
    CancelAllowed(m, key, p);
    hide MachineInv, CellInv, Apply, ApplyCancel, Enabled, Reachable, Doomed;
    MoveKeepsInv(m, Local(key, Cancel(p)));
    LocalCell(m, key, Cancel(p), key);
    CancelMarksCell(CellOf(m, key), p);
  }

  lemma CancelAllowed(m: Machine, key: string, p: Persist)
    requires Allowed(m, Local(key, Cancel(p)))
    ensures CurrentOk(CellOf(m, key)) && Cancellable(SlotOf(CellOf(m, key)))
    ensures Apply(CellOf(m, key), Cancel(p)) == ApplyCancel(CellOf(m, key), p)
  {
    hide ApplyStream, ApplyFinish, ApplyReserve, ApplyCancel;
  }

  /** Once Cancel marked a task, it neither succeeds nor fails as long as the process lives. */
  lemma CancelIsNeverOvertaken(m: Machine, key: string, p: Persist, moves: seq<Move>, n: Machine)
    requires Reachable(m) && Allowed(m, Local(key, Cancel(p)))
    requires RunsTo(After(m, Local(key, Cancel(p))), moves, n) && Crash !in moves
    ensures CellOf(n, key).mem.Some?
    ensures CellOf(n, key).mem.value.state !in {Scheduled, Succeeded, Failed}
  {
    CancelMarks(m, key, p);
    var next := After(m, Local(key, Cancel(p)));
    RunKeepsCancelled(next, moves, n, key);
    RunsKeepInv(next, moves, n);
    CellOfInv(n, key);
  }

  /** The cancel a restart can forget: its write failed and the file says scheduled or already holds a verdict. */
  ghost predicate Forgettable(disk: Option<Task>, p: Persist) {
    p.FailedOld? && disk.Some? && Open(disk.value.state)
  }

  /** Every other cancel holds through any number of crashes and reloads, in memory and on disk. */
  lemma CancelSurvivesRestarts(m: Machine, key: string, p: Persist, moves: seq<Move>, n: Machine)
    requires Reachable(m) && Allowed(m, Local(key, Cancel(p))) && !Forgettable(CellOf(m, key).disk, p)
    requires RunsTo(After(m, Local(key, Cancel(p))), moves, n)
    ensures var c := CellOf(n, key);
            && c.disk.Some? && c.disk.value.state !in {Scheduled, Succeeded, Failed}
            && (n.up ==> c.mem.Some? && c.mem.value.state !in {Scheduled, Succeeded, Failed})
  {
    ReachableInv(m, key);
    CancelMarks(m, key, p);
    var next := After(m, Local(key, Cancel(p)));
    RunFollowsCell(next, moves, n, key);
    CellOfInv(n, key);
  }

  lemma RestartReadsDisk(key: string, c: Cell)
    requires CellInv(key, c, true) && c.disk.Some? && Open(c.disk.value.state)
    ensures Loaded(Crashed(c)).mem == c.disk
  {
    RecoveredRecord(key, c.disk.value);
  }

  /** Crash and reload, which is always possible. */
  lemma Restart(m: Machine) returns (moves: seq<Move>, n: Machine)
    requires MachineInv(m) && m.up
    ensures RunsTo(m, moves, n) && n.up
    ensures forall k :: k in m.cells ==> CellOf(n, k) == Loaded(Crashed(m.cells[k]))
  {
    MoveKeepsInv(m, Crash);
    var down := After(m, Crash);
    var fence := ReloadSucceeds(down);
    n := After(down, Load(fence));
    moves := [Crash, Load(fence)];
    hide MachineInv, Allowed, Loaded, Crashed;
    assert moves[1..] == [Load(fence)] && moves[1..][1..] == [];
    assert RunsTo(n, [], n);
    assert RunsTo(down, [Load(fence)], n);
  }

  /** A forgettable cancel is undone by the next crash and reload. */
  lemma ForgettableIsForgotten(m: Machine, key: string, p: Persist) returns (moves: seq<Move>, n: Machine)
    requires Reachable(m) && Allowed(m, Local(key, Cancel(p))) && Forgettable(CellOf(m, key).disk, p)
    ensures RunsTo(After(m, Local(key, Cancel(p))), moves, n) && n.up
    ensures CellOf(n, key).mem.Some? && CellOf(n, key).mem.value.state in {Scheduled, Succeeded, Failed}
  {
    CancelMarks(m, key, p);
    var next := After(m, Local(key, Cancel(p)));
    CellOfInv(next, key);
    moves, n := Restart(next);
    RestartReadsDisk(key, CellOf(next, key));
    hide MachineInv, CellInv, Allowed, Loaded, Crashed;
  }

  // --- Reload

  lemma {:induction false} HighestOf(m: Machine, keys: set<string>) returns (fence: nat)
    requires keys <= m.cells.Keys
    ensures forall k :: k in keys ==> DiskFence(m.cells[k]) <= fence
    ensures fence == 0 || exists k :: k in keys && DiskFence(m.cells[k]) == fence
    decreases keys
  {
    if keys == {} {
      fence := 0;
    } else {
      var k :| k in keys;
      var rest := HighestOf(m, keys - {k});
      fence := if DiskFence(m.cells[k]) > rest then DiskFence(m.cells[k]) else rest;
    }
  }

  /** A restart never refuses a directory the runner wrote, and reads every history back unchanged. */
  lemma ReloadSucceeds(m: Machine) returns (fence: nat)
    requires MachineInv(m) && !m.up
    ensures Allowed(m, Load(fence))
    ensures forall k :: k in m.cells && m.cells[k].disk.Some? ==>
              var loaded := CellOf(After(m, Load(fence)), k);
              loaded.mem.Some? && loaded.mem.value.history == m.cells[k].disk.value.history
  {
    fence := HighestOf(m, m.cells.Keys);
    forall k | k in m.cells && m.cells[k].disk.Some?
      ensures Recovered(m.cells[k].disk.value).Some?
      ensures Recovered(m.cells[k].disk.value).value.history == m.cells[k].disk.value.history
    {
      CellOfInv(m, k);
      RecoveredRecord(k, m.cells[k].disk.value);
    }
    hide MachineInv;
  }

  // --- Resume

  /** Command numbers are dense from 2 and injective, in memory and on disk. */
  lemma CommandsAreDense(m: Machine, key: string)
    requires Reachable(m)
    ensures CellOf(m, key).mem.Some? ==> Numbered(CellOf(m, key).mem.value.commands)
    ensures CellOf(m, key).disk.Some? ==> Numbered(CellOf(m, key).disk.value.commands)
  {
    ReachableInv(m, key);
  }

  /** Every resume call under way finds its command on record, with the number and digest it was issued. */
  lemma CallsFindTheirCommand(m: Machine, key: string, i: nat)
    requires Reachable(m) && m.up && i < |CellOf(m, key).sends|
    ensures var c := CellOf(m, key);
            && c.mem.Some? && c.sends[i].request.key in c.mem.value.commands
            && c.mem.value.commands[c.sends[i].request.key].sequence == c.sends[i].sequence
            && c.mem.value.commands[c.sends[i].request.key].digest == c.sends[i].request
  {
    ReachableInv(m, key);
    assert IsIssued(CellOf(m, key).issued, CellOf(m, key).sends[i].sequence, CellOf(m, key).sends[i].request);
  }

  /** An idempotency key that was ever issued stays bound to its number and its command. */
  lemma KeyStaysBound(m: Machine, moves: seq<Move>, n: Machine, key: string, k: string)
    requires Reachable(m) && RunsTo(m, moves, n) && k in CellOf(m, key).issued
    ensures k in CellOf(n, key).issued && CellOf(n, key).issued[k] == CellOf(m, key).issued[k]
  {
    ReachableInv(m, key);
    RunFollowsCell(m, moves, n, key);
  }

  /** Any two frames sent to a task with the same number are the same frame. */
  lemma SameNumberSameFrame(m: Machine, key: string, i: nat, j: nat)
    requires Reachable(m) && i < |CellOf(m, key).sent| && j < |CellOf(m, key).sent|
    requires CellOf(m, key).sent[i].0 == CellOf(m, key).sent[j].0
    ensures CellOf(m, key).sent[i] == CellOf(m, key).sent[j]
  {
    ReachableInv(m, key);
    var c := CellOf(m, key);
    assert IsIssued(c.issued, c.sent[i].0, c.sent[i].1) && IsIssued(c.issued, c.sent[j].0, c.sent[j].1);
  }

  lemma RecordedIsMuted(c: Cell, r: Resume, up: bool)
    requires Launches(c.runs, c.objects, c.current, up) && CommandInv(c)
    requires c.mem.Some? && r.key in c.mem.value.commands && c.mem.value.commands[r.key].sent
    ensures Muted(c, r.key)
  {
  }

  lemma MutedRefuses(c: Cell, r: Resume, p: Persist)
    requires CurrentOk(c) && Muted(c, r.key)
    ensures !Enabled(c, Reserve(r, p))
  {
  }

  /** A resume that starts after its key was recorded as sent sends nothing, ever. */
  lemma RecordedCommandIsSilent(m: Machine, moves: seq<Move>, n: Machine, key: string, r: Resume, p: Persist)
    requires Reachable(m) && RunsTo(m, moves, n)
    requires var task := CellOf(m, key).mem;
             task.Some? && r.key in task.value.commands && task.value.commands[r.key].sent
    ensures !Allowed(n, Local(key, Reserve(r, p)))
  {
    ReachableInv(m, key);
    RecordedIsMuted(CellOf(m, key), r, m.up);
    RunFollowsCell(m, moves, n, key);
    assert Muted(CellOf(n, key), r.key);
    CellOfInv(n, key);
    MutedRefuses(CellOf(n, key), r, p);
    hide MachineInv, CellInv, Follows, Enabled, Muted;
  }

  // --- Fencing and idempotent scheduling

  /** Each new token exceeds every token on disk, of whatever task, also of the same key. */
  lemma NewTokenIsHighest(m: Machine, j: string, k: string, input: Input, owner: string, fence: nat, p: Persist)
    requires Reachable(m) && CellOf(m, j).disk.Some? && Allowed(m, Local(k, ScheduleNew(input, owner, fence, p)))
    ensures CellOf(m, j).disk.value.fence < fence
  {
    ReachableInv(m, j);
  }

  /** No two stored tasks share a fencing token, and memory agrees with the disk. */
  lemma FencesAreUnique(m: Machine, j: string, k: string)
    requires Reachable(m) && CellOf(m, j).disk.Some? && CellOf(m, k).disk.Some? && j != k
    ensures CellOf(m, j).disk.value.fence != CellOf(m, k).disk.value.fence
    ensures CellOf(m, j).mem.Some? ==> CellOf(m, j).mem.value.fence == CellOf(m, j).disk.value.fence
  {
    ReachableInv(m, j);
  }

  /** Once a schedule request of a key succeeded, only the same request by the same owner ever succeeds again. */
  lemma ScheduleIsIdempotent(m: Machine, moves: seq<Move>, n: Machine, key: string)
    requires Reachable(m) && CellOf(m, key).accepted.Some? && RunsTo(m, moves, n)
    ensures var (owner, input) := CellOf(m, key).accepted.value;
            && (forall i, o :: Allowed(n, Local(key, ScheduleAgain(i, o))) ==> o == owner && i == input)
            && (forall i, o, fence, p :: !Allowed(n, Local(key, ScheduleNew(i, o, fence, p))))
  {
    ReachableInv(m, key);
    RunFollowsCell(m, moves, n, key);
    CellOfInv(n, key);
  }

  // --- Stored histories

  /** Every stored history is ordered, within both limits and clean of secrets, in memory and on disk. */
  lemma StoredHistoriesAreSafe(m: Machine, key: string)
    requires Reachable(m)
    ensures CellOf(m, key).mem.Some? ==> WellFormed(CellOf(m, key).mem.value.history)
    ensures CellOf(m, key).disk.Some? ==> WellFormed(CellOf(m, key).disk.value.history)
    ensures CellOf(m, key).disk.Some? ==>
            var events := CellOf(m, key).disk.value.history.events;
            |events| <= 256 && HistoryBytes(events) <= 917504
  {
    ReachableInv(m, key);
  }
}
