/**
 The resume commands of a task and the parts of its record that no step may change: the
 second and third part of the dispatcher invariant, step by step.
 */
module DispatchCommands {
  import opened Wrappers
  import opened RuntimeProtocol
  import opened RuntimeHistory
  import opened RuntimeStream
  import opened TaskStore
  import opened DispatchMachine
  import opened DispatchInvariant

  // --- Numbering

  lemma NumberedAppend(commands: map<string, Command>, r: Resume)
    requires Numbered(commands) && r.key !in commands
    ensures Numbered(commands[r.key := Command(|commands| + 2, r, false)])
  {
    var next := commands[r.key := Command(|commands| + 2, r, false)];
    assert |next| == |commands| + 1;
    forall n | 2 <= n <= |next| + 1 ensures HasNumber(next, n) {
      if n == |commands| + 2 {
        assert next[r.key].sequence == n;
      } else {
        assert HasNumber(commands, n);
        var k :| k in commands && commands[k].sequence == n;
        assert next[k] == commands[k];
      }
    }
  }

  lemma NumberedConfirm(commands: map<string, Command>, key: string)
    requires Numbered(commands) && key in commands
    ensures Numbered(commands[key := commands[key].(sent := true)])
  {
    var next := commands[key := commands[key].(sent := true)];
    assert next.Keys == commands.Keys;
    assert |next| == |commands|;
    forall n | 2 <= n <= |next| + 1 ensures HasNumber(next, n) {
      assert HasNumber(commands, n);
      var k :| k in commands && commands[k].sequence == n;
      assert next[k].sequence == n;
    }
  }

  // --- Records and commands that a step leaves alone

  /** The step keeps the commands on record and the number counter. */
  ghost predicate SameCommands(c: Cell, next: Cell) {
    && next.issued == c.issued && next.sends == c.sends && next.sent == c.sent
    && |next.runs| == |c.runs| && |next.objects| == |c.objects|
    && (|c.runs| == 1 ==> next.runs[0].alive == c.runs[0].alive)
    && (next.current == c.current || next.current == -1)
    && (|c.objects| == 1 ==>
          next.objects[0].handle == c.objects[0].handle && next.objects[0].requestSeq == c.objects[0].requestSeq)
    && c.mem.Some? && next.mem.Some? && next.mem.value.commands == c.mem.value.commands
    && (next.disk == c.disk || (next.disk.Some? && next.disk.value.commands == c.mem.value.commands))
  }

  lemma SameCommandsKeepInv(c: Cell, next: Cell)
    requires CommandInv(c) && SameCommands(c, next)
    ensures CommandInv(next)
  {
  }

  lemma ScheduleKeepsCommands(c: Cell, input: Input, owner: string, fence: nat, p: Persist)
    requires CommandInv(c) && CurrentOk(c) && c.mem.None? && |c.runs| == 0 && c.current == -1
    ensures CommandInv(ApplySchedule(c, input, owner, fence, p))
  {
  }

  lemma StartKeepsCommands(c: Cell, p: Persist)
    requires CommandInv(c) && CurrentOk(c) && |c.runs| == 0 && |c.objects| == 0 && Startable(SlotOf(c))
    ensures CommandInv(ApplyStart(c, p))
  {
  }

  lemma AttachKeepsCommands(c: Cell)
    requires CommandInv(c) && |c.runs| == 1 && |c.objects| == 1 && c.current == 0 && !c.objects[0].handle
    requires c.mem.Some?
    ensures CommandInv(ApplyAttach(c, 0))
  {
  }

  // --- Resume

  lemma ReserveKeepsCommands(c: Cell, r: Resume, p: Persist)
    requires CommandInv(c) && |c.runs| == 1 && c.runs[0].alive && |c.objects| == 1 && c.current == 0
    requires Resumable(SlotOf(c), r) && !AlreadySent(SlotOf(c), r)
    ensures CommandInv(ApplyReserve(c, r, p))
  {
    hide Numbered, OnRecord, Traffic, IssuedOnce;
    var task := c.mem.value;
    if r.key in task.commands {
      assert task.commands[r.key := task.commands[r.key]] == task.commands;
      RepeatKeepsCommands(c, r, p);
    } else {
      NumberedAppend(task.commands, r);
      NewKeepsCommands(c, r, p);
    }
  }

  lemma RepeatKeepsCommands(c: Cell, r: Resume, p: Persist)
    requires CommandInv(c) && |c.runs| == 1 && c.runs[0].alive && |c.objects| == 1 && c.current == 0
    requires Resumable(SlotOf(c), r) && !AlreadySent(SlotOf(c), r) && r.key in c.mem.value.commands
    requires c.mem.value.commands[r.key := c.mem.value.commands[r.key]] == c.mem.value.commands
    ensures CommandInv(ApplyReserve(c, r, p))
  {
    var next := ApplyReserve(c, r, p);
    assert IsIssued(c.issued, ReservedSeq(SlotOf(c), r), r);
    assert c.issued[r.key := c.issued[r.key]] == c.issued;
  }

  /** A fresh number can be issued without disturbing what was issued or sent before. */
  lemma IssueFresh(commands: map<string, Command>, issued: map<string, (nat, Resume)>, r: Resume)
    requires Numbered(commands) && IssuedOnce(issued) && OnRecord(commands, issued) && r.key !in commands
    ensures var n := |commands| + 2;
            && IssuedOnce(issued[r.key := (n, r)])
            && OnRecord(commands[r.key := Command(n, r, false)], issued[r.key := (n, r)])
  {
    assert forall k :: k in issued ==> issued[k].0 == commands[k].sequence <= |commands| + 1;
  }

  lemma IssueKeepsTraffic(issued: map<string, (nat, Resume)>, sends: seq<Send>, sent: seq<(nat, Resume)>, n: nat, r: Resume)
    requires Traffic(issued, sends, sent) && r.key !in issued
    ensures Traffic(issued[r.key := (n, r)], sends + [Send(r, n, Reserved)], sent)
  {
  }

  lemma NewKeepsCommands(c: Cell, r: Resume, p: Persist)
    requires CommandInv(c) && |c.runs| == 1 && c.runs[0].alive && |c.objects| == 1 && c.current == 0
    requires Resumable(SlotOf(c), r) && r.key !in c.mem.value.commands
    requires Numbered(c.mem.value.commands[r.key := Command(|c.mem.value.commands| + 2, r, false)])
    ensures CommandInv(ApplyReserve(c, r, p))
  {
    var commands := c.mem.value.commands;
    var n := |commands| + 2;
    IssueFresh(commands, c.issued, r);
    IssueKeepsTraffic(c.issued, c.sends, c.sent, n, r);
    assert |commands[r.key := Command(n, r, false)]| == |commands| + 1;
    NewReserved(c, r, p, ApplyReserve(c, r, p));
  }

  /** The fields that a first reservation leaves behind. */
  lemma NewReserved(c: Cell, r: Resume, p: Persist, next: Cell)
    requires |c.objects| == 1 && c.current == 0 && c.mem.Some? && c.objects[0].requestSeq == |c.mem.value.commands| + 1
    requires Resumable(SlotOf(c), r) && r.key !in c.mem.value.commands && next == ApplyReserve(c, r, p)
    ensures var n := |c.mem.value.commands| + 2;
            var commands := c.mem.value.commands[r.key := Command(n, r, false)];
            && next.current == 0 && next.runs == c.runs && next.sent == c.sent && |next.objects| == 1
            && next.objects[0].handle && next.mem.Some?
            && (next.disk == c.disk || (next.disk.Some? && next.disk.value.commands == commands))
            && if p.Synced? then
                 && next.mem.value.commands == commands && next.objects[0].requestSeq == n
                 && next.issued == c.issued[r.key := (n, r)] && next.sends == c.sends + [Send(r, n, Reserved)]
               else
                 && next.mem.value.commands == c.mem.value.commands && next.objects == c.objects
                 && next.issued == c.issued && next.sends == c.sends
  {
  }

  lemma DeliverKeepsCommands(c: Cell, n: nat)
    requires CommandInv(c) && n < |c.sends|
    ensures CommandInv(ApplyDeliver(c, n))
  {
  }

  lemma AbandonKeepsCommands(c: Cell, n: nat)
    requires CommandInv(c) && n < |c.sends|
    ensures CommandInv(ApplyAbandon(c, n))
  {
  }

  /** A resume call under way finds its command on record, with the number and digest it was issued. */
  lemma SendIsOnRecord(c: Cell, n: nat)
    requires CommandInv(c) && c.mem.Some? && n < |c.sends|
    ensures var send := c.sends[n];
            && |c.runs| == 1 && c.runs[0].alive
            && send.request.key in c.mem.value.commands
            && SameCommand(c.mem.value.commands[send.request.key], (send.sequence, send.request))
  {
    assert IsIssued(c.issued, c.sends[n].sequence, c.sends[n].request);
  }

  lemma ConfirmKeepsCommands(c: Cell, key: string, p: Persist)
    requires CommandInv(c) && CurrentOk(c) && |c.runs| == 1 && |c.objects| == 1
    requires c.mem.Some? && key in c.mem.value.commands
    ensures CommandInv(WithSlot(c, ConfirmSection(SlotOf(c), key, p)))
  {
    var s := ConfirmSection(SlotOf(c), key, p);
    SameEntry(c, s);
    NumberedConfirm(c.mem.value.commands, key);
    assert s.mem.value.commands.Keys == c.mem.value.commands.Keys;
    assert |s.mem.value.commands| == |s.mem.value.commands.Keys|;
  }

  // --- Records

  /** The step keeps what identifies the record and a well-formed history. */
  ghost predicate SameRecord(c: Cell, next: Cell) {
    && next.accepted == c.accepted
    && c.mem.Some? && next.mem.Some? && SameRequest(c.mem.value, next.mem.value)
    && (next.disk == c.disk || (next.disk.Some? && SameRequest(c.mem.value, next.disk.value)))
  }

  ghost predicate SameRequest(t: Task, next: Task) {
    && next.input == t.input && next.owner == t.owner && next.fence == t.fence
    && (WellFormed(t.history) ==> WellFormed(next.history))
  }

  lemma SameRecordKeepsInv(key: string, c: Cell, next: Cell)
    requires RecordInv(key, c, true) && SameRecord(c, next)
    ensures RecordInv(key, next, true)
  {
  }

  lemma ScheduleKeepsRecord(key: string, c: Cell, input: Input, owner: string, fence: nat, p: Persist)
    requires RecordInv(key, c, true) && CurrentOk(c) && c.mem.None?
    requires key == StorageKey(input) && input.idempotencyKey != ""
    ensures RecordInv(key, ApplySchedule(c, input, owner, fence, p), true)
  {
  }

  lemma ObserveKeepsRequest(s: Slot, f: Frame, p: Persist)
    requires s.mem.Some?
    ensures var next := ObserveSection(s, f, p);
            next.mem.Some? && SameRequest(s.mem.value, next.mem.value) && (next.disk == s.disk || next.disk == next.mem)
  {
    if WellFormed(s.mem.value.history) {
      AppendKeepsWellFormed(s.mem.value.history, f);
    }
  }
}
