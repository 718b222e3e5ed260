/**
 Facts about one task that no move of the dispatcher takes back, and the guarantees that
 follow for whole runs.
 */
module DispatchRuns {
  import opened Wrappers
  import opened RuntimeProtocol
  import opened RuntimeHistory
  import opened RuntimeStream
  import opened TaskStore
  import opened DispatchMachine
  import opened DispatchInvariant
  import opened DispatchCommands
  import opened DispatchSafety
  import opened DispatchTheorems

  /** The task was launched, and its run no longer takes commands or `key` is recorded as sent. */
  ghost predicate Muted(c: Cell, key: string) {
    && |c.runs| == 1
    && (c.current == -1 || (c.mem.Some? && key in c.mem.value.commands && c.mem.value.commands[key].sent))
  }

  /** The task succeeded with this output, on disk and for everyone who asks. */
  ghost predicate Final(c: Cell, output: Option<Artifact>, up: bool) {
    && Won(c.disk) && c.disk.value.output == output
    && (up ==> Won(c.mem) && c.mem.value.output == output)
  }

  /** No resume call is between its two sections. */
  predicate NoneInFlight(sends: seq<Send>) {
    forall i :: 0 <= i < |sends| ==> sends[i].stage.Over?
  }

  /** The file says succeeded with this output, and nothing that could say otherwise is still to be written. */
  ghost predicate Kept(c: Cell, output: Option<Artifact>, up: bool) {
    && Won(c.disk) && c.disk.value.output == output
    && (up ==> Won(c.mem) || NoneInFlight(c.sends))
  }

  /** What a move keeps of a cell. */
  ghost predicate Follows(c: Cell, up: bool, next: Cell, nextUp: bool) {
    && BooksFollow(c, next)
    && (forall output {:trigger Final(next, output, nextUp)} :: Final(c, output, up) ==> Final(next, output, nextUp))
    && (forall output {:trigger Kept(next, output, nextUp)} :: Kept(c, output, up) ==> Kept(next, output, nextUp))
  }

  // --- One step

  /** Everything but the record, the run itself and its entry stays. */
  ghost predicate SameBooks(c: Cell, next: Cell) {
    && next.issued == c.issued && next.sent == c.sent && next.accepted == c.accepted && next.doomed == c.doomed
    && |next.runs| == |c.runs|
  }

  lemma StreamFrame(c: Cell, item: StreamItem, p: Persist)
    requires CurrentOk(c) && |c.runs| == 1 && c.runs[0].supervisor.Live? && c.mem.Some?
    ensures var next := ApplyStream(c, 0, item, p);
            && SameBooks(c, next) && next.current == c.current
            && next.mem.Some? && next.mem.value.commands == c.mem.value.commands
  {
    if item.FrameItem? {
      ObserveEffect(SlotOf(c), item.frame, p);
      SameEntry(c, ObserveSection(SlotOf(c), item.frame, p));
    }
  }

  lemma FinishFrame(c: Cell, ps: seq<Persist>)
    requires CurrentOk(c) && |c.runs| == 1 && c.runs[0].ended.Some? && |ps| == FINISH_ATTEMPTS + 1 && c.mem.Some?
    ensures var next := ApplyFinish(c, 0, ps);
            SameBooks(c, next) && next.current == -1
  {
    var run := c.runs[0];
    var err := Verdict(run.ended.value.exit, run.supervisor, run.ended.value.envCleanup);
    FinishOutcome(SlotOf(c), CancelSeen(c, run.held), err, ps);
  }

  lemma SectionFollows(c: Cell, step: Step)
    requires Launches(c.runs, c.objects, c.current, true) && Records(c.mem, c.disk, |c.runs| == 1, true)
    requires (step.Stream? || step.Finish?) && Enabled(c, step)
    ensures BooksFollow(c, Apply(c, step))
  {
    hide ApplyStream, ApplyFinish, ExitPossible;
    if step.Stream? {
      StreamFrame(c, step.item, step.p);
      assert Apply(c, step) == ApplyStream(c, 0, step.item, step.p);
    } else {
      FinishFrame(c, step.ps);
      assert Apply(c, step) == ApplyFinish(c, 0, step.ps);
    }
  }

  /** The books only grow, and a muted key never speaks again. */
  ghost predicate BooksFollow(c: Cell, next: Cell) {
    && (forall k :: k in c.issued ==> k in next.issued && next.issued[k] == c.issued[k])
    && c.sent <= next.sent
    && (c.accepted.Some? ==> next.accepted == c.accepted)
    && (c.doomed ==> next.doomed)
    && (forall key {:trigger Muted(next, key)} {:trigger Muted(c, key)} :: Muted(c, key) ==> Muted(next, key))
  }

  /** What a reservation of `key` may change: its own number and its own command. */
  ghost predicate Reserves(c: Cell, next: Cell, key: string) {
    && SameBooks(c.(issued := map[]), next.(issued := map[])) && next.current == c.current >= 0
    && (forall k :: k in c.issued && k != key ==> k in next.issued && next.issued[k] == c.issued[k])
    && c.mem.Some? && next.mem.Some?
    && (forall k :: k in c.mem.value.commands && k != key ==>
          k in next.mem.value.commands && next.mem.value.commands[k] == c.mem.value.commands[k])
    && (key in c.mem.value.commands ==> !c.mem.value.commands[key].sent)
  }

  lemma ReservesFollows(c: Cell, next: Cell, key: string)
    requires Reserves(c, next, key)
    requires key in c.issued ==> key in next.issued && next.issued[key] == c.issued[key]
    ensures BooksFollow(c, next)
  {
  }

  lemma ReserveBooks(c: Cell, r: Resume, p: Persist)
    requires CurrentOk(c) && Resumable(SlotOf(c), r) && !AlreadySent(SlotOf(c), r)
    ensures Reserves(c, ApplyReserve(c, r, p), r.key)
    ensures ApplyReserve(c, r, p).issued == if p.Synced? then c.issued[r.key := (ReservedSeq(SlotOf(c), r), r)] else c.issued
  {
    var s := ReserveSection(SlotOf(c), r, p);
    assert WithSlot(c, s).mem == s.mem && WithSlot(c, s).current == c.current;
  }

  lemma ReserveFollows(c: Cell, r: Resume, p: Persist)
    requires Launches(c.runs, c.objects, c.current, true) && CommandInv(c)
    requires Resumable(SlotOf(c), r) && !AlreadySent(SlotOf(c), r)
    ensures BooksFollow(c, ApplyReserve(c, r, p))
  {
    IssuedStay(c, r);
    ReserveBooks(c, r, p);
    hide CommandInv, ApplyReserve, ReservedSeq, BooksFollow, Reserves;
    ReservesFollows(c, ApplyReserve(c, r, p), r.key);
  }

  /** A reservation that repeats a command repeats its number; a new one has a key that was never issued. */
  lemma IssuedStay(c: Cell, r: Resume)
    requires Launches(c.runs, c.objects, c.current, true) && CommandInv(c)
    requires Resumable(SlotOf(c), r)
    ensures r.key in c.issued ==> c.issued[r.key] == (ReservedSeq(SlotOf(c), r), r)
  {
    hide Numbered, Traffic, IssuedOnce;
  }

  lemma RequestFollows(c: Cell, step: Step)
    requires Launches(c.runs, c.objects, c.current, true) && Records(c.mem, c.disk, |c.runs| == 1, true)
    requires step.ScheduleNew? || step.ScheduleAgain? || step.Start? || step.Cancel? || step.Deliver? || step.Abandon?
          || step.Confirm?
    requires Enabled(c, step)
    ensures BooksFollow(c, Apply(c, step))
  {
    hide ApplyStream, ApplyFinish, ApplyReserve, ExitPossible, StorageKey;
    if step.Confirm? {
      ConfirmFollows(c, step.send, step.p);
    }
  }

  lemma ConfirmFollows(c: Cell, n: nat, p: Persist)
    requires CurrentOk(c) && c.mem.Some? && n < |c.sends|
    ensures BooksFollow(c, ApplyConfirm(c, n, p))
  {
  }

  lemma RunFollows(c: Cell, step: Step)
    requires Launches(c.runs, c.objects, c.current, true) && Records(c.mem, c.disk, |c.runs| == 1, true)
    requires OfRun(step) && Enabled(c, step)
    ensures BooksFollow(c, Apply(c, step))
  {
    hide ApplyStream, ApplyFinish, ApplyReserve, ExitPossible;
  }

  lemma StepFollows(c: Cell, step: Step)
    requires Launches(c.runs, c.objects, c.current, true) && Records(c.mem, c.disk, |c.runs| == 1, true)
    requires CommandInv(c) && Enabled(c, step)
    ensures BooksFollow(c, Apply(c, step))
  {
    hide CommandInv;
    if step.Stream? || step.Finish? {
      SectionFollows(c, step);
    } else if step.Reserve? {
      ReserveFollows(c, step.request, step.p);
    } else if OfRun(step) {
      RunFollows(c, step);
    } else {
      RequestFollows(c, step);
    }
  }

  lemma StepKeepsFinal(c: Cell, step: Step, output: Option<Artifact>)
    requires OutcomeInv(c, true) && Enabled(c, step) && Final(c, output, true)
    requires |c.sends| > 0 ==> |c.runs| == 1
    ensures Final(Apply(c, step), output, true)
  {
  }

  lemma StepKeepsKept(c: Cell, step: Step, output: Option<Artifact>)
    requires OutcomeInv(c, true) && Enabled(c, step) && Kept(c, output, true)
    requires |c.sends| > 0 ==> |c.runs| == 1
    ensures Kept(Apply(c, step), output, true)
  {
    if Won(c.mem) {
      StepKeepsFinal(c, step, output);
    }
  }

  // --- Whole runs

  lemma StepFollowsFully(key: string, c: Cell, step: Step)
    requires CellInv(key, c, true) && Enabled(c, step)
    ensures Follows(c, true, Apply(c, step), true)
  {
    NothingSentBeforeLaunch(c);
    StepFollows(c, step);
    forall output | Final(c, output, true) ensures Final(Apply(c, step), output, true) {
      StepKeepsFinal(c, step, output);
    }
    forall output | Kept(c, output, true) ensures Kept(Apply(c, step), output, true) {
      StepKeepsKept(c, step, output);
    }
    hide CellInv;
  }

  lemma ReloadFollows(key: string, c: Cell)
    requires CellInv(key, c, false)
    ensures Follows(c, false, Rewritten(c), false) && Follows(c, false, Loaded(c), true)
  {
    if c.disk.Some? {
      RecoveredRecord(key, c.disk.value);
    }
  }

  lemma CrashFollows(key: string, c: Cell)
    requires CellInv(key, c, true)
    ensures Follows(c, true, Crashed(c), false)
  {
  }

  /** A step changes its own cell and no other. */
  lemma LocalCell(m: Machine, key: string, step: Step, k: string)
    requires Allowed(m, Local(key, step))
    ensures CellOf(After(m, Local(key, step)), k) == if k == key then Apply(CellOf(m, key), step) else CellOf(m, k)
  {
    hide Apply, Enabled;
  }

  lemma LocalFollows(m: Machine, k: string, step: Step, key: string)
    requires MachineInv(m) && Allowed(m, Local(k, step))
    ensures Follows(CellOf(m, key), true, CellOf(After(m, Local(k, step)), key), true)
  {
    LocalCell(m, k, step, key);
    CellOfInv(m, key);
    hide MachineInv, CellInv, Follows, Apply, Enabled;
    if k == key {
      StepFollowsFully(key, CellOf(m, key), step);
    } else {
      FollowsItself(CellOf(m, key), true);
    }
  }

  lemma RestartFollows(m: Machine, move: Move, key: string)
    requires MachineInv(m) && Allowed(m, move) && !move.Local?
    ensures Follows(CellOf(m, key), m.up, CellOf(After(m, move), key), After(m, move).up)
  {
    CellOfInv(m, key);
    hide MachineInv, CellInv, Follows, Rewritten, Loaded, Crashed;
    if key !in m.cells {
      EmptyFollows();
    } else if move.Crash? {
      CrashFollows(key, m.cells[key]);
    } else {
      ReloadFollows(key, m.cells[key]);
      FollowsItself(m.cells[key], false);
    }
  }

  lemma EmptyFollows()
    ensures forall up, nextUp :: Follows(EMPTY_CELL, up, EMPTY_CELL, nextUp)
  {
  }

  lemma MoveFollows(m: Machine, move: Move, key: string)
    requires MachineInv(m) && Allowed(m, move)
    ensures Follows(CellOf(m, key), m.up, CellOf(After(m, move), key), After(m, move).up)
  {
    hide MachineInv, Follows, Enabled, Apply;
    if move.Local? {
      LocalFollows(m, move.key, move.step, key);
    } else {
      RestartFollows(m, move, key);
    }
  }

  lemma FollowsItself(c: Cell, up: bool)
    ensures Follows(c, up, c, up)
  {
  }

  lemma FollowsTransitive(a: Cell, upA: bool, b: Cell, upB: bool, c: Cell, upC: bool)
    requires Follows(a, upA, b, upB) && Follows(b, upB, c, upC)
    ensures Follows(a, upA, c, upC)
  {
    forall key | Muted(a, key) ensures Muted(c, key) { assert Muted(b, key); }
    forall output | Final(a, output, upA) ensures Final(c, output, upC) { assert Final(b, output, upB); }
    forall output | Kept(a, output, upA) ensures Kept(c, output, upC) { assert Kept(b, output, upB); }
  }

  lemma {:induction false} RunFollowsCell(m: Machine, moves: seq<Move>, n: Machine, key: string)
    requires MachineInv(m) && RunsTo(m, moves, n)
    ensures MachineInv(n) && Follows(CellOf(m, key), m.up, CellOf(n, key), n.up)
    decreases |moves|
  {
    hide MachineInv, Follows;
    if |moves| == 0 {
      FollowsItself(CellOf(m, key), m.up);
    } else {
      var next := After(m, moves[0]);
      MoveFollows(m, moves[0], key);
      MoveKeepsInv(m, moves[0]);
      RunFollowsCell(next, moves[1..], n, key);
      FollowsTransitive(CellOf(m, key), m.up, CellOf(next, key), next.up, CellOf(n, key), n.up);
    }
  }
}
