/** The verification runner: which commands it runs, what each yields and what the whole run says. */
module Verification {
  import opened Wrappers

  datatype Command = Command(text: string, required: bool, liveE2e: bool, envRequired: seq<string>)

  datatype SpecCommand = SpecCommand(text: string, required: bool)

  datatype LiveE2e = LiveE2e(text: string, required: bool, envRequired: seq<string>)

  datatype Spec = Spec(commands: seq<SpecCommand>, live: Option<LiveE2e>)

  /** What the host does with one command. */
  datatype Syntax = Unparsable | Blank | Words

  datatype Process = NotFound | TimedOut | Crashed | Exited(code: int)

  datatype Host = Host(env: set<string>, syntax: Syntax, worktree: bool, process: Process)

  datatype Result = Result(required: bool, passed: bool, blocked: bool, exitCode: Option<int>)

  datatype RunStatus = Passed | Failed | Blocked

  /** The credential gate of a live end-to-end command is shut. */
  predicate Gated(c: Command, h: Host) {
    c.liveE2e && exists i :: 0 <= i < |c.envRequired| && c.envRequired[i] !in h.env
  }

  /** The command ran as a process that ended by itself. */
  predicate Executed(c: Command, h: Host) {
    !Gated(c, h) && h.syntax.Words? && h.worktree && h.process.Exited?
  }

  predicate Succeeds(c: Command, h: Host) {
    Executed(c, h) && h.process.code == 0
  }

  /** The reference: the run is judged without regard to order or to where it stopped. */
  function Outcome(commands: seq<Command>, hosts: seq<Host>): RunStatus
    requires |hosts| == |commands|
  {
    if exists i :: 0 <= i < |commands| && Gated(commands[i], hosts[i]) then Blocked
    else if exists i :: 0 <= i < |commands| && commands[i].required && !Succeeds(commands[i], hosts[i]) then Failed
    else Passed
  }

  /** Every command was tried, none was blocked and every required one exited with zero. */
  predicate Sound(commands: seq<Command>, hosts: seq<Host>) {
    && |hosts| == |commands|
    && forall i :: 0 <= i < |commands| ==>
         !Gated(commands[i], hosts[i]) && (commands[i].required ==> Succeeds(commands[i], hosts[i]))
  }

  method MissingEnv(required: seq<string>, env: set<string>) returns (missing: seq<string>)
    ensures forall v :: v in missing <==> v in required && v !in env
  {
    missing := [];
    for i := 0 to |required|
      invariant forall v :: v in missing <==> v in required[..i] && v !in env
    {
      assert required[..i + 1] == required[..i] + [required[i]];
      if required[i] !in env {
        missing := missing + [required[i]];
      }
    }
    assert required[..|required|] == required;
  }

  method RunOne(c: Command, h: Host) returns (r: Result)
    ensures r.required == c.required
    ensures r.blocked <==> Gated(c, h)
    ensures r.passed <==> Succeeds(c, h)
    ensures Executed(c, h) ==> r.exitCode == Some(h.process.code)
    ensures Gated(c, h) || h.syntax != Words || !h.worktree ==> r.exitCode == None
    ensures !Gated(c, h) && h.syntax == Words && h.worktree ==>
              && (h.process == NotFound ==> r.exitCode == Some(127))
              && (h.process == TimedOut ==> r.exitCode == Some(124))
              && (h.process == Crashed ==> r.exitCode == Some(1))
    ensures r.exitCode == Some(0) ==> r.passed
  {
    if c.liveE2e && |c.envRequired| > 0 {
      var missing := MissingEnv(c.envRequired, h.env);
      if |missing| > 0 {
        assert missing[0] in missing;
        return Result(c.required, false, true, None);
      }
    }
    assert !Gated(c, h);
    if h.syntax.Unparsable? {
      return Result(c.required, false, false, None);
    }
    if h.syntax.Blank? {
      return Result(c.required, false, false, None);
    }
    if !h.worktree {
      return Result(c.required, false, false, None);
    }
    match h.process
    case NotFound => r := Result(c.required, false, false, Some(127));
    case TimedOut => r := Result(c.required, false, false, Some(124));
    case Crashed => r := Result(c.required, false, false, Some(1));
    case Exited(code) => r := Result(c.required, code == 0, false, Some(code));
  }

  predicate Reports(r: Result, c: Command, h: Host) {
    r.required == c.required && (r.blocked <==> Gated(c, h)) && (r.passed <==> Succeeds(c, h))
  }

  /**
   Runs the commands in order and stops at a required command that is blocked. The status is
   nevertheless the one the reference gives to the whole list.
   */
  method Run(commands: seq<Command>, hosts: seq<Host>) returns (status: RunStatus, results: seq<Result>)
    requires |hosts| == |commands|
    ensures status == Outcome(commands, hosts)
    ensures |results| <= |commands|
    ensures forall i :: 0 <= i < |results| ==> Reports(results[i], commands[i], hosts[i])
    ensures |results| < |commands| ==>
              |results| > 0 && commands[|results| - 1].required && Gated(commands[|results| - 1], hosts[|results| - 1])
    ensures status == Passed ==> |results| == |commands|
  {
    results := [];
    var anyBlocked, anyRequiredFailed := false, false;
    var i := 0;
    while i < |commands|
      invariant 0 <= i <= |commands| && |results| == i
      invariant forall j :: 0 <= j < i ==> Reports(results[j], commands[j], hosts[j])
      invariant anyBlocked <==> exists j :: 0 <= j < i && Gated(commands[j], hosts[j])
      invariant anyRequiredFailed <==>
                  exists j :: 0 <= j < i && commands[j].required && !Gated(commands[j], hosts[j]) && !Succeeds(commands[j], hosts[j])
    {
      var r := RunOne(commands[i], hosts[i]);
      results := results + [r];
      i := i + 1;
      if r.blocked {
        anyBlocked := true;
        if commands[i - 1].required {
          break;
        }
      } else if !r.passed && commands[i - 1].required {
        anyRequiredFailed := true;
      }
    }
    status := if anyBlocked then Blocked else if anyRequiredFailed then Failed else Passed;
  }

  /** The commands of a task: those of its list and, when required, the live end-to-end command. */
  method CollectCommands(spec: Spec) returns (commands: seq<Command>)
    ensures commands == Configured(spec)
  {
    commands := [];
    for i := 0 to |spec.commands|
      invariant commands == seq(i, j requires 0 <= j < i => Plain(spec.commands[j]))
    {
      commands := commands + [Command(spec.commands[i].text, spec.commands[i].required, false, [])];
    }
    if spec.live.Some? && spec.live.value.required {
      commands := commands + [Command(spec.live.value.text, true, true, spec.live.value.envRequired)];
    }
  }

  function Plain(c: SpecCommand): Command {
    Command(c.text, c.required, false, [])
  }

  function Configured(spec: Spec): seq<Command> {
    seq(|spec.commands|, j requires 0 <= j < |spec.commands| => Plain(spec.commands[j]))
    + if spec.live.Some? && spec.live.value.required
      then [Command(spec.live.value.text, true, true, spec.live.value.envRequired)] else []
  }

  // --- What a verdict means for the specification of a task

  predicate NeedsLive(spec: Spec) {
    spec.live.Some? && spec.live.value.required
  }

  /** One host for each listed command, in order, and one more for a required live command. */
  function HostCount(spec: Spec): nat {
    |spec.commands| + if NeedsLive(spec) then 1 else 0
  }

  /** The command was readable, its worktree was there, and its process exited with zero. */
  predicate RanWell(h: Host) {
    h.syntax == Words && h.worktree && h.process == Exited(0)
  }

  predicate HasAll(env: set<string>, names: seq<string>) {
    forall i :: 0 <= i < |names| ==> names[i] in env
  }

  /** The live command is not held back for want of a variable. */
  predicate LiveReady(spec: Spec, hosts: seq<Host>)
    requires |hosts| == HostCount(spec)
  {
    NeedsLive(spec) ==> HasAll(hosts[|spec.commands|].env, spec.live.value.envRequired)
  }

  /** Every required command ran well, and so did a required live command. */
  predicate Met(spec: Spec, hosts: seq<Host>)
    requires |hosts| == HostCount(spec)
  {
    && (forall i :: 0 <= i < |spec.commands| && spec.commands[i].required ==> RanWell(hosts[i]))
    && (NeedsLive(spec) ==> LiveReady(spec, hosts) && RanWell(hosts[|spec.commands|]))
  }

  /** The commands that are run are those of the specification, with their texts, in order. */
  lemma ConfiguredIsSpec(spec: Spec, i: nat)
    requires i < HostCount(spec)
    ensures |Configured(spec)| == HostCount(spec)
    ensures var c := Configured(spec)[i];
            if i < |spec.commands|
            then c.text == spec.commands[i].text && c.required == spec.commands[i].required && !c.liveE2e
            else c.text == spec.live.value.text && c.required && c.liveE2e && c.envRequired == spec.live.value.envRequired
  {
  }

  /**
   The verdict in terms of the specification alone: passed if and only if everything required ran well,
   blocked if and only if a required live command misses a variable, failed otherwise.
   */
  lemma VerdictOfSpec(spec: Spec, hosts: seq<Host>)
    requires |hosts| == HostCount(spec)
    ensures |Configured(spec)| == HostCount(spec)
    ensures Outcome(Configured(spec), hosts) == Passed <==> Met(spec, hosts)
    ensures Outcome(Configured(spec), hosts) == Blocked <==> !LiveReady(spec, hosts)
  {
    var commands := Configured(spec);
    var n := |spec.commands|;
    assert |commands| == HostCount(spec);
    forall i | 0 <= i < |commands|
      ensures Gated(commands[i], hosts[i]) <==> i == n && !LiveReady(spec, hosts)
      ensures !Gated(commands[i], hosts[i]) ==> (Succeeds(commands[i], hosts[i]) <==> RanWell(hosts[i]))
    {
      ConfiguredIsSpec(spec, i);
    }
    forall i | 0 <= i < |commands| ensures commands[i].required == if i < n then spec.commands[i].required else true {
      ConfiguredIsSpec(spec, i);
    }
    hide Gated, Succeeds, RanWell, Configured;
    PassedIsSound(commands, hosts);
  }

  /** A task without commands counts as verified; the reference agrees with that. */
  method RunVerification(spec: Spec, hosts: seq<Host>) returns (status: RunStatus)
    requires |hosts| == HostCount(spec)
    ensures |Configured(spec)| == HostCount(spec) && status == Outcome(Configured(spec), hosts)
    ensures status == Passed <==> Met(spec, hosts)
    ensures status == Blocked <==> !LiveReady(spec, hosts)
  {
    VerdictOfSpec(spec, hosts);
    var commands := CollectCommands(spec);
    if |commands| == 0 {
      return Passed;
    }
    var results;
    status, results := Run(commands, hosts);
  }

  lemma PassedIsSound(commands: seq<Command>, hosts: seq<Host>)
    requires |hosts| == |commands|
    ensures Outcome(commands, hosts) == Passed <==> Sound(commands, hosts)
  {
  }

  /**
   A run that passes has executed every command exactly when it has executed the optional ones:
   an optional command that cannot be started does not hold it back.
   */
  lemma PassedExecutesAll(commands: seq<Command>, hosts: seq<Host>)
    requires |hosts| == |commands| && Outcome(commands, hosts) == Passed
    ensures (forall i :: 0 <= i < |commands| ==> Executed(commands[i], hosts[i])) <==>
            (forall i :: 0 <= i < |commands| && !commands[i].required ==>
               hosts[i].syntax.Words? && hosts[i].worktree && hosts[i].process.Exited?)
  {
    PassedIsSound(commands, hosts);
  }

  lemma OptionalMayBeSkipped()
    ensures var c := Command("\"", false, false, []); var h := Host({}, Unparsable, true, NotFound);
            Outcome([c], [h]) == Passed && !Executed(c, h)
  {
  }
}
