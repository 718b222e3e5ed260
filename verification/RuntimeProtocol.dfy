/**
 The frames of the runtime protocol (agw.runtime.v1) as the runner sees them, and the
 validator that keeps one ordered event stream per run.

 Payload decoding is opaque: a frame carries what the decoders make of its data.
 */
module RuntimeProtocol {
  import opened Wrappers
  import opened RedactJson

  datatype EventType =
    | RunStarted | Heartbeat | AssistantMessage | ModelRequested | ModelCompleted
    | ToolRequested | ToolCompleted | ApprovalRequested | ApprovalResolved | ArtifactCreated
    | RunCompleted | RunFailed | RunCancelled | UnknownEffect
    | Unsupported

  /** A validated immutable artifact reference. */
  type Artifact = string

  datatype Frame = Frame(
    isEvent: bool,
    kind: EventType,
    runId: string,
    seqNo: nat,
    terminal: bool,
    data: Json,
    schemaOk: bool,               // the payload meets the schema of its type
    approvalId: Option<string>,   // approval_id of the payload, if it decodes and is not blank
    artifact: Option<Artifact>,   // data.output, if it decodes and validates
    safeOk: bool,                 // the redacted payload still meets the schema
    payloadBytes: nat,            // length of the redacted payload
    encodedBytes: nat)            // length of the stored event once encoded

  predicate IsTerminal(kind: EventType) {
    kind.RunCompleted? || kind.RunFailed? || kind.RunCancelled? || kind.UnknownEffect?
  }

  predicate ValidEnvelope(f: Frame) {
    && f.runId != ""
    && f.seqNo > 0
    && f.data.Obj?
    && f.isEvent
    && f.terminal == IsTerminal(f.kind)
    && !f.kind.Unsupported?
    && f.schemaOk
  }

  /** Four kinds of event end a run, and their frames are the terminal ones. */
  lemma TerminalFrames(f: Frame)
    requires ValidEnvelope(f)
    ensures f.terminal <==> f.kind in {RunCompleted, RunFailed, RunCancelled, UnknownEffect}
    ensures f.isEvent && f.runId != "" && f.seqNo > 0
  {
  }

  /** The state of SequenceValidator. An empty run id means no frame was accepted yet. */
  datatype Validator = Validator(runId: string, lastSeq: nat, started: bool, terminal: bool)

  const FRESH_VALIDATOR := Validator("", 0, false, false)

  predicate Accepts(v: Validator, f: Frame) {
    && ValidEnvelope(f)
    && (v.runId == "" || f.runId == v.runId)
    && !v.terminal
    && f.seqNo == v.lastSeq + 1
    && (v.started <==> !f.kind.RunStarted?)
  }

  function Accept(v: Validator, f: Frame): Validator
    requires Accepts(v, f)
  {
    Validator(f.runId, f.seqNo, true, f.terminal)
  }
}
