/**
 Supervision of one runtime stream and the verdict of one run (superviseRuntime,
 validateTerminalOutcome, finalizeRuntime and the exits of Daemon.Run).

 An error is the set of causes joined into it; the empty set is nil.
 */
module RuntimeStream {
  import opened Wrappers
  import opened RuntimeProtocol

  datatype Cause =
    | TerminalOutcome(kind: EventType)
    | DeadlineExceeded
    | StreamFault
    | StreamIncomplete
    | WaitFault
    | CleanupFault
    | ContractSendFault
    | BadArtifact
    | BadExit
    | Other

  type Errors = set<Cause>

  // --- superviseRuntime

  /** What supervision has gathered. `last` is the terminal frame, once there is one. */
  datatype Supervision = Supervision(count: nat, terminal: bool, last: Option<Frame>, err: Errors)

  const NO_EVENTS := Supervision(0, false, None, {})

  datatype StreamItem = FrameItem(frame: Frame) | DecodeError

  datatype Supervisor =
    | Idle
    | Live(validator: Validator, gathered: Supervision)
    | Done(result: Supervision)

  const STARTED := Live(FRESH_VALIDATOR, NO_EVENTS)

  /** The frame passes the run id check and the sequence validator, so the sink is called. */
  predicate ReachesSink(s: Supervisor, runId: string, f: Frame) {
    s.Live? && f.runId == runId && Accepts(s.validator, f)
  }

  function Broken(s: Supervisor): Supervisor
    requires s.Live?
  {
    Done(s.gathered.(err := {Other}))
  }

  /** One turn of the loop; `sinkOk` is the answer of the sink if it was called. */
  function Supervise(s: Supervisor, runId: string, item: StreamItem, sinkOk: bool): Supervisor
    requires s.Live?
  {
    match item
    case DecodeError => Broken(s)
    case FrameItem(f) =>
      if !ReachesSink(s, runId, f) || !sinkOk then Broken(s)
      else Live(Accept(s.validator, f),
                Supervision(s.gathered.count + 1, f.terminal, if f.terminal then Some(f) else s.gathered.last, {}))
  }

  /** The whole stream; its end is EOF. Each item comes with the answer of the sink. */
  function SuperviseAll(s: Supervisor, runId: string, stream: seq<(StreamItem, bool)>): Supervision
    requires s.Live?
    decreases |stream|
  {
    if |stream| == 0 then s.gathered
    else
      var next := Supervise(s, runId, stream[0].0, stream[0].1);
      if next.Done? then next.result else SuperviseAll(next, runId, stream[1..])
  }

  method SuperviseRuntime(runId: string, stream: seq<(StreamItem, bool)>) returns (result: Supervision)
    ensures result == SuperviseAll(STARTED, runId, stream)
  {
    var validator := FRESH_VALIDATOR;
    result := NO_EVENTS;
    var n := 0;
    assert stream[0..] == stream;
    while true
      invariant n <= |stream| && result.err == {}
      invariant SuperviseAll(Live(validator, result), runId, stream[n..]) == SuperviseAll(STARTED, runId, stream)
      decreases |stream| - n
    {
      if n == |stream| {
        return;
      }
      var item := stream[n].0;
      assert stream[n..][0] == stream[n] && stream[n..][1..] == stream[n + 1..];
      if item.DecodeError? {
        return result.(err := {Other});
      }
      var frame := item.frame;
      if frame.runId != runId {
        return result.(err := {Other});
      }
      if !Accepts(validator, frame) {
        return result.(err := {Other});
      }
      validator := Accept(validator, frame);
      if !stream[n].1 {
        return result.(err := {Other});
      }
      result := result.(count := result.count + 1, terminal := frame.terminal);
      if frame.terminal {
        result := result.(last := Some(frame));
      }
      n := n + 1;
    }
  }

  /** The frames delivered so far explain what was gathered. */
  ghost predicate Explains(seen: seq<Frame>, g: Supervision) {
    && g.count == |seen|
    && (g.terminal <==> |seen| > 0 && seen[|seen| - 1].terminal)
    && (g.terminal ==> g.last == Some(seen[|seen| - 1]))
    && (forall i :: 0 <= i < |seen| ==> ValidEnvelope(seen[i]) && seen[i].seqNo == i + 1)
    && (forall i :: 0 <= i < |seen| ==> (seen[i].kind.RunStarted? <==> i == 0))
    && (forall i :: 0 <= i < |seen| - 1 ==> !seen[i].terminal)
  }

  ghost predicate ValidatorFollows(seen: seq<Frame>, v: Validator) {
    && v.lastSeq == |seen|
    && (v.started <==> |seen| > 0)
    && (v.terminal <==> |seen| > 0 && seen[|seen| - 1].terminal)
  }

  /** A frame that the sink took extends the explanation; anything else ends supervision with an error. */
  lemma SuperviseExplained(s: Supervisor, runId: string, item: StreamItem, sinkOk: bool, seen: seq<Frame>)
    requires s.Live? && Explains(seen, s.gathered) && ValidatorFollows(seen, s.validator) && s.gathered.err == {}
    ensures var next := Supervise(s, runId, item, sinkOk);
            if next.Done? then Explains(seen, next.result) && next.result.err != {}
            else
              && item.FrameItem?
              && Explains(seen + [item.frame], next.gathered)
              && ValidatorFollows(seen + [item.frame], next.validator)
              && next.gathered.err == {}
  {
  }

  // --- Supervision, said of the stream alone

  /** The first `n` items are one orderly run: its own frames, numbered from 1, begun once, ended at most once. */
  ghost predicate Orderly(runId: string, stream: seq<(StreamItem, bool)>, n: nat) {
    && n <= |stream|
    && forall i :: 0 <= i < n ==>
         && stream[i].0.FrameItem? && stream[i].1
         && var f := stream[i].0.frame;
         && f.runId == runId && ValidEnvelope(f) && f.seqNo == i + 1
         && (f.kind.RunStarted? <==> i == 0) && (i + 1 < n ==> !f.terminal)
  }

  function SeenTerminal(stream: seq<(StreamItem, bool)>, k: nat): bool
    requires k <= |stream|
  {
    k > 0 && stream[k - 1].0.FrameItem? && stream[k - 1].0.frame.terminal
  }

  /** The state of the supervisor after the first `k` items of an orderly run. */
  ghost predicate HasRead(runId: string, stream: seq<(StreamItem, bool)>, k: nat, s: Supervisor)
    requires k <= |stream|
  {
    && s.Live?
    && s.validator == (if k == 0 then FRESH_VALIDATOR else Validator(runId, k, true, SeenTerminal(stream, k)))
    && s.gathered.count == k && s.gathered.err == {} && s.gathered.terminal == SeenTerminal(stream, k)
    && (SeenTerminal(stream, k) ==> s.gathered.last == Some(stream[k - 1].0.frame))
  }

  lemma OrderlyStep(runId: string, stream: seq<(StreamItem, bool)>, k: nat, s: Supervisor)
    requires k < |stream| && HasRead(runId, stream, k, s) && Orderly(runId, stream, k)
    ensures var next := Supervise(s, runId, stream[k].0, stream[k].1);
            if Orderly(runId, stream, k + 1) then HasRead(runId, stream, k + 1, next)
            else next.Done? && next.result == s.gathered.(err := {Other})
  {
    if !SeenTerminal(stream, k) {
      assert forall i :: 0 <= i < k ==> !stream[i].0.frame.terminal;
    } else {
      assert !Orderly(runId, stream, k + 1) by { assert stream[k - 1].0.frame.terminal; }
    }
  }

  lemma {:induction false} SuperviseFrom(runId: string, stream: seq<(StreamItem, bool)>, k: nat, n: nat, s: Supervisor)
    requires k <= n && Orderly(runId, stream, n) && (n < |stream| ==> !Orderly(runId, stream, n + 1))
    requires HasRead(runId, stream, k, s)
    ensures var r := SuperviseAll(s, runId, stream[k..]);
            && r.count == n && (r.err == {} <==> n == |stream|) && r.err <= {Other}
            && r.terminal == SeenTerminal(stream, n)
            && (r.terminal ==> r.last == Some(stream[n - 1].0.frame))
    decreases n - k
  {
    if k < |stream| {
      assert stream[k..][0] == stream[k] && stream[k..][1..] == stream[k + 1..];
      OrderlyStep(runId, stream, k, s);
      if k < n {
        SuperviseFrom(runId, stream, k + 1, n, Supervise(s, runId, stream[k].0, stream[k].1));
      }
    }
  }

  /**
   What supervision reports, for every stream: it counts the longest orderly beginning and knows its
   terminal frame, and it reports an error exactly if the stream goes on after that.
   */
  lemma SupervisionExactly(runId: string, stream: seq<(StreamItem, bool)>, n: nat)
    requires Orderly(runId, stream, n) && (n < |stream| ==> !Orderly(runId, stream, n + 1))
    ensures var r := SuperviseAll(STARTED, runId, stream);
            && r.count == n && (r.err == {} <==> n == |stream|)
            && (r.terminal <==> n > 0 && stream[n - 1].0.frame.terminal)
            && (r.terminal ==> r.last == Some(stream[n - 1].0.frame))
  {
    assert stream[0..] == stream;
    SuperviseFrom(runId, stream, 0, n, STARTED);
  }

  // --- The verdict

  datatype Wait = Wait(code: int, signaled: bool, err: Errors)

  function ClassifyWait(err: Errors): Errors {
    if err == {} then {} else {WaitFault} + err
  }

  function ClassifyCleanup(err: Errors): Errors {
    if err == {} then {} else {CleanupFault} + err
  }

  function ValidateTerminalOutcome(events: Supervision, wait: Wait): Errors {
    if !events.terminal || events.last.None? then {StreamIncomplete}
    else
      var last := events.last.value;
      match last.kind
      case RunCompleted =>
        if last.artifact.None? then {BadArtifact}
        else if wait.code != 0 || wait.signaled then {BadExit}
        else {}
      case RunFailed => {TerminalOutcome(RunFailed)}
      case UnknownEffect => {TerminalOutcome(UnknownEffect)}
      case RunCancelled => {TerminalOutcome(RunCancelled)}
      case _ => {Other}
  }

  function FinalizeRuntime(wait: Wait, events: Supervision, cleanup: Errors): Errors {
    if events.err != {} then {StreamFault} + events.err + ClassifyWait(wait.err) + ClassifyCleanup(cleanup)
    else if !events.terminal then {StreamIncomplete} + ClassifyWait(wait.err) + ClassifyCleanup(cleanup)
    else
      var outcome := ValidateTerminalOutcome(events, wait);
      if exists c :: c in outcome && c.TerminalOutcome? then outcome + ClassifyCleanup(cleanup)
      else outcome + ClassifyWait(wait.err) + ClassifyCleanup(cleanup)
  }

  /** The ways Daemon.Run can end, with what it learned on the way. */
  datatype Exit =
    | Refused(err: Errors)                              // before the sandbox was started, or starting it failed
    | Unusable(err: Errors)                             // the sandbox has no output or control stream
    | SendFailed(err: Errors, cleanup: Errors)          // the run contract was not delivered
    | StreamFailed(cleanup: Errors)                     // supervision ended first, with an error
    | ContextDone(err: Errors, cleanup: Errors)         // the context ended while supervision went on
    | Collected(wait: Wait, cleanup: Errors)            // supervision and the process both ended
    | DrainTimeout(wait: Wait, cleanup: Errors)         // the process ended, the stream did not
    | ContextAfterStream(err: Errors, cleanup: Errors)  // supervision ended, then the context

  /** Which exits are open while the supervisor is in state `s`. */
  predicate ExitPossible(exit: Exit, s: Supervisor) {
    match exit
    case Refused(err) => s.Idle? && err != {}
    case Unusable(err) => s.Idle? && err != {}
    case SendFailed(err, _) => s.Idle? && err != {}
    case StreamFailed(_) => s.Done? && s.result.err != {}
    case ContextDone(err, _) => !s.Idle? && err != {}
    case Collected(_, _) => s.Done?
    case DrainTimeout(_, _) => !s.Idle?
    case ContextAfterStream(err, _) => s.Done? && s.result.err == {} && err != {}
  }

  /** The error Daemon.Run returns; `envCleanup` is joined in when the run environment is removed. */
  function Verdict(exit: Exit, s: Supervisor, envCleanup: Errors): Errors {
    envCleanup +
    match exit
    case Refused(err) => err
    case Unusable(err) => err
    case SendFailed(err, cleanup) => {ContractSendFault} + err + ClassifyCleanup(cleanup)
    case StreamFailed(cleanup) => {StreamFault} + (if s.Done? then s.result.err else {}) + ClassifyCleanup(cleanup)
    case ContextDone(err, cleanup) => err + cleanup
    case Collected(wait, cleanup) => FinalizeRuntime(wait, if s.Done? then s.result else NO_EVENTS, cleanup)
    case DrainTimeout(wait, cleanup) => FinalizeRuntime(wait, NO_EVENTS, cleanup)
    case ContextAfterStream(err, cleanup) => err + cleanup
  }

  /** An error that does not come from the terminal frame: only the verdict on that frame makes those. */
  predicate Foreign(err: Errors) {
    forall c :: c in err ==> !c.TerminalOutcome?
  }

  predicate ForeignExit(exit: Exit) {
    match exit
    case Refused(err) => Foreign(err)
    case Unusable(err) => Foreign(err)
    case SendFailed(err, cleanup) => Foreign(err) && Foreign(cleanup)
    case StreamFailed(cleanup) => Foreign(cleanup)
    case ContextDone(err, cleanup) => Foreign(err) && Foreign(cleanup)
    case Collected(wait, cleanup) => Foreign(wait.err) && Foreign(cleanup)
    case DrainTimeout(wait, cleanup) => Foreign(wait.err) && Foreign(cleanup)
    case ContextAfterStream(err, cleanup) => Foreign(err) && Foreign(cleanup)
  }

  /** The process and the stream ended, and the last frame of the stream says this of the run. */
  predicate Says(exit: Exit, s: Supervisor, kind: EventType) {
    && exit.Collected? && s.Done? && s.result.err == {}
    && s.result.terminal && s.result.last.Some? && s.result.last.value.kind == kind
  }

  /** The verdict carries a terminal outcome exactly if the terminal frame says so: failed, cancelled or unknown. */
  lemma OutcomeExactly(exit: Exit, s: Supervisor, envCleanup: Errors, kind: EventType)
    requires ExitPossible(exit, s) && ForeignExit(exit) && Foreign(envCleanup) && (s.Done? ==> Foreign(s.result.err))
    ensures TerminalOutcome(kind) in Verdict(exit, s, envCleanup) <==>
            (kind.RunFailed? || kind.RunCancelled? || kind.UnknownEffect?) && Says(exit, s, kind)
  {
    match exit
    case Collected(wait, cleanup) => FinalizeOutcome(wait, s.result, cleanup, kind);
    case DrainTimeout(wait, cleanup) => FinalizeOutcome(wait, NO_EVENTS, cleanup, kind);
    case _ =>
  }

  lemma FinalizeOutcome(wait: Wait, events: Supervision, cleanup: Errors, kind: EventType)
    requires Foreign(wait.err) && Foreign(cleanup) && Foreign(events.err)
    ensures TerminalOutcome(kind) in FinalizeRuntime(wait, events, cleanup) <==>
            && (kind.RunFailed? || kind.RunCancelled? || kind.UnknownEffect?)
            && events.err == {} && events.terminal && events.last.Some? && events.last.value.kind == kind
  {
    var outcome := ValidateTerminalOutcome(events, wait);
    assert (events.terminal && events.last.Some? && events.last.value.kind == kind
            && (kind.RunFailed? || kind.RunCancelled? || kind.UnknownEffect?)) ==> TerminalOutcome(kind) in outcome;
  }

  /** Everything that has to be true for a run to return no error. */
  predicate CleanRun(exit: Exit, s: Supervisor, envCleanup: Errors) {
    && exit.Collected? && s.Done?
    && s.result.err == {} && s.result.terminal && s.result.last.Some?
    && s.result.last.value.kind.RunCompleted?
    && s.result.last.value.artifact.Some?
    && exit.wait.code == 0 && !exit.wait.signaled && exit.wait.err == {}
    && exit.cleanup == {} && envCleanup == {}
  }

  /** A run returns no error exactly when it ended clean. */
  lemma NoErrorExactlyWhenClean(exit: Exit, s: Supervisor, envCleanup: Errors)
    requires ExitPossible(exit, s)
    ensures Verdict(exit, s, envCleanup) == {} <==> CleanRun(exit, s, envCleanup)
  {
    if CleanRun(exit, s, envCleanup) {
      assert ValidateTerminalOutcome(s.result, exit.wait) == {};
    } else {
      match exit
      case Refused(err) => NonEmpty(err);
      case Unusable(err) => NonEmpty(err);
      case ContextDone(err, _) => NonEmpty(err);
      case ContextAfterStream(err, _) => NonEmpty(err);
      case Collected(wait, cleanup) => FinalizeNonEmpty(wait, s.result, cleanup);
      case SendFailed(_, _) => assert ContractSendFault in Verdict(exit, s, envCleanup);
      case StreamFailed(_) => assert StreamFault in Verdict(exit, s, envCleanup);
      case DrainTimeout(_, _) => assert StreamIncomplete in Verdict(exit, s, envCleanup);
    }
  }

  lemma NonEmpty(err: Errors)
    requires err != {}
    ensures exists c :: c in err
  {
  }

  lemma FinalizeNonEmpty(wait: Wait, events: Supervision, cleanup: Errors)
    ensures FinalizeRuntime(wait, events, cleanup) == {} <==>
            && events.err == {} && events.terminal && events.last.Some?
            && events.last.value.kind.RunCompleted? && events.last.value.artifact.Some?
            && wait.code == 0 && !wait.signaled && wait.err == {} && cleanup == {}
  {
    var all := FinalizeRuntime(wait, events, cleanup);
    var outcome := ValidateTerminalOutcome(events, wait);
    if events.err != {} {
      assert StreamFault in all;
    } else if !events.terminal {
      assert StreamIncomplete in all;
    } else if outcome != {} {
      var c :| c in outcome;
      assert c in all;
    } else {
      assert wait.err != {} ==> WaitFault in all;
      assert cleanup != {} ==> CleanupFault in all;
    }
  }
}
