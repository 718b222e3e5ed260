/**
 The task manager as the object it is: a task map, an active map, the task directory and the
 fencing counter, updated in place under one lock. Each method is one lock-held section and
 is proved against the section functions the state machine is built from.

 Outcomes of writes and of the lease check are parameters.
 */
module Dispatch {
  import opened Wrappers
  import opened RuntimeProtocol
  import opened RuntimeHistory
  import opened RuntimeStream
  import opened TaskStore

  function Get<V>(m: map<string, V>, key: string): Option<V> {
    if key in m then Some(m[key]) else None
  }

  /** Who asks, and for which run. */
  datatype Caller = Caller(owner: string, organization: string, project: string, runId: string)

  /** validateMutationLocked. */
  predicate MayMutate(task: Option<Task>, caller: Caller, leaseOk: bool) {
    && task.Some?
    && task.value.input.runId == caller.runId
    && task.value.input.organization == caller.organization
    && task.value.input.project == caller.project
    && task.value.owner == caller.owner
    && leaseOk
  }

  /** The task belongs to the caller: same owner, same run of the same project of the same organization. */
  predicate Owned(task: Option<Task>, caller: Caller) {
    && task.Some? && caller.owner == task.value.owner
    && Caller(task.value.owner, task.value.input.organization, task.value.input.project, task.value.input.runId) == caller
  }

  /** startTask does nothing unless the task is scheduled and idle. */
  function Started(s: Slot, p: Persist): Slot {
    if Startable(s) then StartSection(s, p) else s
  }

  class InMemoryDispatch {
    var tasks: map<string, Task>
    var active: map<string, Active>
    var files: map<string, Task>
    var nextFence: nat

    constructor ()
      ensures tasks == map[] && active == map[] && files == map[] && nextFence == 0
    {
      tasks, active, files, nextFence := map[], map[], map[], 0;
    }

    ghost function SlotAt(key: string): Slot
      reads this
    {
      Slot(Get(tasks, key), Get(files, key), Get(active, key))
    }

    /** persistLocked. */
    method Persist(key: string, task: Task, p: Persist) returns (ok: bool)
      modifies this`files
      ensures ok == p.Synced?
      ensures files == if p.FailedOld? then old(files) else old(files)[key := task]
    {
      ok := p.Synced?;
      if !p.FailedOld? {
        files := files[key := task];
      }
    }

    method Schedule(input: Input, owner: string, leaseOk: bool, p: Persist) returns (result: Option<string>)
      modifies this
      ensures var key := StorageKey(input);
              var before := old(SlotAt(key));
              if before.mem.Some? then
                && SlotAt(key) == before && nextFence == old(nextFence)
                && (result == Some(key) <==> before.mem.value.owner == owner && before.mem.value.input == input && leaseOk)
              else
                && nextFence == old(nextFence) + 1
                && SlotAt(key) == ScheduleSection(before, input, owner, nextFence, p)
                && (result == Some(key) <==> p.Synced?)
      ensures result.Some? ==> result == Some(StorageKey(input))
      ensures forall k :: k != StorageKey(input) ==> SlotAt(k) == old(SlotAt(k))
    {
      var key := StorageKey(input);
      if key in tasks {
        var existing := tasks[key];
        if existing.owner != owner || existing.input != input {
          return None;
        }
        if !leaseOk {
          return None;
        }
        return Some(key);
      }
      nextFence := nextFence + 1;
      var task := NewTask(input, owner, nextFence);
      var ok := Persist(key, task, p);
      if !ok {
        return None;
      }
      tasks := tasks[key := task];
      result := Some(key);
    }

    method StartTask(key: string, p: Persist) returns (launched: bool)
      modifies this`tasks, this`active, this`files
      ensures SlotAt(key) == Started(old(SlotAt(key)), p)
      ensures launched <==> Startable(old(SlotAt(key))) && p.Synced?
      ensures forall k :: k != key ==> SlotAt(k) == old(SlotAt(k))
    {
      if key !in tasks || key in active || !tasks[key].state.Scheduled? {
        return false;
      }
      var task := tasks[key];
      active := active[key := FRESH_ACTIVE];
      tasks := tasks[key := task.(state := Running)];
      var ok := Persist(key, tasks[key], p);
      if !ok {
        active := active - {key};
        tasks := tasks[key := task];
        return false;
      }
      launched := true;
    }

    method Cancel(key: string, caller: Caller, leaseOk: bool, p: Persist) returns (ok: bool)
      modifies this`tasks, this`active, this`files
      ensures var before := old(SlotAt(key));
              var applies := MayMutate(before.mem, caller, leaseOk) && Cancellable(before);
              && SlotAt(key) == (if applies then CancelSection(before, p) else before)
              && (ok <==> MayMutate(before.mem, caller, leaseOk) && (!Cancellable(before) || p.Synced?))
      ensures !Owned(old(SlotAt(key)).mem, caller) ==> !ok && SlotAt(key) == old(SlotAt(key))
      ensures Owned(old(SlotAt(key)).mem, caller) && leaseOk && p.Synced? ==> ok
      ensures forall k :: k != key ==> SlotAt(k) == old(SlotAt(k))
    {
      if !MayMutate(Get(tasks, key), caller, leaseOk) {
        return false;
      }
      if Settled(tasks[key].state) {
        return true;
      }
      if key in active {
        active := active[key := active[key].(cancelRequested := true)];
      }
      tasks := tasks[key := tasks[key].(state := Cancelled, error := "")];
      ok := Persist(key, tasks[key], p);
    }

    /** First section of Resume: None is an error, Some(None) means nothing is left to send. */
    method ReserveCommand(key: string, caller: Caller, leaseOk: bool, r: Resume, p: Persist)
      returns (result: Option<Option<nat>>)
      modifies this`tasks, this`active, this`files
      ensures var before := old(SlotAt(key));
              var admitted := MayMutate(before.mem, caller, leaseOk) && Resumable(before, r);
              && SlotAt(key) == (if admitted && !AlreadySent(before, r) then ReserveSection(before, r, p) else before)
              && result == (if !admitted then None
                            else if AlreadySent(before, r) then Some(None)
                            else if p.Synced? then Some(Some(ReservedSeq(before, r)))
                            else None)
      ensures !Owned(old(SlotAt(key)).mem, caller) ==> result == None && SlotAt(key) == old(SlotAt(key))
      ensures forall k :: k != key ==> SlotAt(k) == old(SlotAt(k))
    {
      if !MayMutate(Get(tasks, key), caller, leaseOk) {
        return None;
      }
      if key !in active || !active[key].handle {
        return None;
      }
      var task := tasks[key];
      if !task.state.WaitingApproval? && !task.state.Running? {
        return None;
      }
      var entry := active[key];
      var repeated := r.key in task.commands;
      var command;
      if repeated {
        command := task.commands[r.key];
        if command.digest != r {
          return None;
        }
        if command.sent {
          return Some(None);
        }
      } else {
        active := active[key := entry.(requestSeq := entry.requestSeq + 1)];
        command := Command(active[key].requestSeq, r, false);
      }
      var reserved := task.(commands := task.commands[r.key := command], state := Running);
      tasks := tasks[key := reserved];
      var ok := Persist(key, reserved, p);
      if !ok {
        if !repeated {
          tasks := tasks[key := reserved.(commands := reserved.commands - {r.key})];
          active := active[key := active[key].(requestSeq := active[key].requestSeq - 1)];
          assert reserved.commands - {r.key} == task.commands;
        }
        return None;
      }
      result := Some(Some(command.sequence));
    }

    /** Second section of Resume, after the frame was delivered. */
    method ConfirmCommand(key: string, name: string, p: Persist) returns (ok: bool)
      modifies this`tasks, this`files
      ensures var before := old(SlotAt(key));
              && SlotAt(key) == (if before.mem.Some? then ConfirmSection(before, name, p) else before)
              && (ok <==> before.mem.Some? && p.Synced?)
      ensures forall k :: k != key ==> SlotAt(k) == old(SlotAt(k))
    {
      if key !in tasks {
        return false;
      }
      var task := tasks[key];
      var command := Lookup(task.commands, name);
      tasks := tasks[key := task.(commands := task.commands[name := command.(sent := true)])];
      ok := Persist(key, tasks[key], p);
    }

    method Observe(key: string, f: Frame, p: Persist) returns (ok: bool)
      modifies this`tasks, this`files
      ensures SlotAt(key) == ObserveSection(old(SlotAt(key)), f, p)
      ensures ok == ObserveOk(old(SlotAt(key)), f, p)
      ensures forall k :: k != key ==> SlotAt(k) == old(SlotAt(k))
    {
      if key !in tasks {
        return false;
      }
      var task := tasks[key];
      if f.runId != task.input.runId || !f.isEvent || !ValidEnvelope(f) {
        return false;
      }
      var appended := AppendRuntimeEvent(task.history, f);
      hide Append, ValidEnvelope;
      if appended.None? {
        return false;
      }
      task := task.(history := appended.value);
      tasks := tasks[key := task];
      if !PayloadUsable(f) {
        return false;
      }
      if f.kind.ApprovalRequested? {
        task := task.(state := WaitingApproval, approvalId := f.approvalId.value);
      } else if f.kind.RunCompleted? {
        task := task.(output := f.artifact);
      }
      tasks := tasks[key := task];
      ok := Persist(key, task, p);
    }

    /** `cancelSeen` is the cancel request on the entry the goroutine holds. */
    method Finish(key: string, cancelSeen: bool, err: Errors, ps: seq<Persist>)
      requires |ps| == FINISH_ATTEMPTS + 1
      modifies this`tasks, this`active, this`files
      ensures SlotAt(key) == FinishSection(old(SlotAt(key)), cancelSeen, err, ps)
      ensures forall k :: k != key ==> SlotAt(k) == old(SlotAt(k))
    {
      active := active - {key};
      if key !in tasks {
        return;
      }
      var task := FinalTask(tasks[key], cancelSeen, err);
      tasks := tasks[key := task];
      ghost var tries := ps[..FINISH_ATTEMPTS];
      assert tries[0..] == tries;
      for attempt := 0 to FINISH_ATTEMPTS
        invariant SlotAt(key) == Slot(Some(task), SlotAt(key).disk, None)
        invariant Attempts(SlotAt(key).disk, task, tries[attempt..]) == Attempts(old(SlotAt(key)).disk, task, tries)
        invariant forall k :: k != key ==> SlotAt(k) == old(SlotAt(k))
      {
        assert tries[attempt..][0] == ps[attempt] && tries[attempt..][1..] == tries[attempt + 1..];
        var ok := Persist(key, task, ps[attempt]);
        if ok {
          return;
        }
      }
      tasks := tasks[key := LostTask(task)];
      var _ := Persist(key, LostTask(task), ps[FINISH_ATTEMPTS]);
    }

    /** What load makes of one file. */
    static method Decode(read: Task) returns (result: Option<Task>)
      ensures result == Recovered(read)
    {
      if read.input.idempotencyKey == "" {
        return None;
      }
      var history := NormalizeRuntimeHistory(read.history);
      if history.None? {
        return None;
      }
      var task := read.(history := history.value);
      if task.state.Running? || task.state.WaitingApproval? || task.state.LegacyApproval? {
        task := task.(state := Lost, error := "runner_restart");
      }
      result := Some(task);
    }

    /** One turn of load: read a file, and write it back if its task is lost. */
    method LoadFile(key: string, p: Persist) returns (ok: bool)
      requires key in files && StorageKey(files[key].input) == key
      modifies this`tasks, this`files, this`nextFence
      ensures var read := old(files)[key];
              && (ok <==> Recovered(read).Some? && (Recovered(read).value.state.Lost? ==> p.Synced?))
              && (files == old(files) || files == old(files)[key := Reread(read)])
              && (ok ==> files == old(files)[key := Reread(read)] && tasks == old(tasks)[key := Recovered(read).value])
              && nextFence == if Recovered(read).Some? && read.fence > old(nextFence) then read.fence else old(nextFence)
    {
      var read := Decode(files[key]);
      assert files == files[key := files[key]];
      if read.None? {
        return false;
      }
      var task := read.value;
      tasks := tasks[StorageKey(task.input) := task];
      if task.fence > nextFence {
        nextFence := task.fence;
      }
      ok := true;
      if task.state.Lost? {
        ok := Persist(key, task, p);
      }
    }

    /** Read the directory back after a restart; `outcome` says how each write ends. */
    method Load(outcome: string -> Persist) returns (ok: bool)
      requires tasks == map[] && active == map[] && nextFence == 0
      requires forall k :: k in files ==> StorageKey(files[k].input) == k
      modifies this`tasks, this`files, this`nextFence
      ensures files.Keys == old(files.Keys)
      ensures forall k :: k in files ==> files[k] == old(files)[k] || files[k] == Reread(old(files)[k])
      ensures ok ==> tasks.Keys == files.Keys
      ensures ok ==> forall k :: k in files ==>
                files[k] == Reread(old(files)[k]) && Some(tasks[k]) == Recovered(old(files)[k])
      ensures ok ==> forall k :: k in files ==> old(files)[k].fence <= nextFence
      ensures ok ==> nextFence == 0 || exists k :: k in files && old(files)[k].fence == nextFence
      ensures !ok ==> exists k :: k in files && (Recovered(old(files)[k]).None? || !outcome(k).Synced?)
    {
      hide Recovered, Reread, StorageKey;
      var remaining := files.Keys;
      while remaining != {}
        invariant remaining <= files.Keys == old(files.Keys)
        invariant tasks.Keys == files.Keys - remaining
        invariant forall k :: k in remaining ==> files[k] == old(files)[k]
        invariant forall k :: k in tasks ==>
                    files[k] == Reread(old(files)[k]) && Some(tasks[k]) == Recovered(old(files)[k])
        invariant forall k :: k in tasks ==> old(files)[k].fence <= nextFence
        invariant nextFence == 0 || exists k :: k in tasks && old(files)[k].fence == nextFence
        decreases remaining
      {
        var key :| key in remaining;
        var loaded := LoadFile(key, outcome(key));
        if !loaded {
          return false;
        }
        remaining := remaining - {key};
      }
      ok := true;
    }

    /** Start everything that is still scheduled. */
    method Recover(outcome: string -> Persist)
      modifies this`tasks, this`active, this`files
      ensures forall k :: SlotAt(k) == Started(old(SlotAt(k)), outcome(k))
    {
      var pending := set k | k in tasks && tasks[k].state.Scheduled?;
      ghost var done: set<string> := {};
      while pending != {}
        invariant pending !! done
        invariant forall k :: Startable(old(SlotAt(k))) ==> k in pending || k in done
        invariant forall k :: k in done ==> SlotAt(k) == Started(old(SlotAt(k)), outcome(k))
        invariant forall k :: k !in done ==> SlotAt(k) == old(SlotAt(k))
        decreases pending
      {
        var key :| key in pending;
        var _ := StartTask(key, outcome(key));
        pending := pending - {key};
        done := done + {key};
      }
    }
  }
}
