/**
 The bounded event history of a task (appendRuntimeEventLocked, normalizeRuntimeHistory and
 the event part of Status), against the unbounded log it abbreviates.
 */
module RuntimeHistory {
  import opened Wrappers
  import opened RedactJson
  import opened RuntimeProtocol

  const MAX_EVENTS: nat := 256
  const MAX_HISTORY_BYTES: nat := 896 * 1024
  const MAX_DATA_BYTES: nat := 768 * 1024

  datatype Event = Event(
    sequence: nat,
    kind: EventType,
    payload: Json,
    terminal: bool,
    payloadBytes: nat,
    encodedBytes: nat)

  /** What a task stores of its history. */
  datatype Window = Window(events: seq<Event>, cursor: nat, start: nat, truncated: bool)

  const EMPTY_WINDOW := Window([], 0, 0, false)

  predicate ValidEvent(e: Event) {
    e.sequence > 0 && !e.kind.Unsupported? && e.payload.Obj? && e.payloadBytes <= MAX_DATA_BYTES
  }

  function HistoryBytes(events: seq<Event>): nat {
    if |events| == 0 then 0 else events[0].encodedBytes + HistoryBytes(events[1..])
  }

  predicate Fits(events: seq<Event>) {
    |events| <= MAX_EVENTS && HistoryBytes(events) <= MAX_HISTORY_BYTES
  }

  function StartOf(events: seq<Event>): nat {
    if |events| == 0 then 0 else events[0].sequence
  }

  /** The event a frame becomes: its payload is redacted first. */
  function StoredEvent(f: Frame): Event {
    Event(f.seqNo, f.kind, Redact(f.data, ""), f.terminal, f.payloadBytes, f.encodedBytes)
  }

  /** The frame survives privacySafeRuntimeFrame and validateStoredRuntimeEvent. */
  predicate Storable(f: Frame) {
    ValidEnvelope(f) && f.safeOk && ValidEvent(StoredEvent(f))
  }

  // --- The log without bounds.

  /** Every accepted event since the beginning, and the sequence number of the last frame seen. */
  datatype FullLog = FullLog(log: seq<Event>, cursor: nat)

  const EMPTY_LOG := FullLog([], 0)

  /** The frame is new and is either a heartbeat or can be stored. */
  predicate Advances(cursor: nat, f: Frame) {
    f.seqNo > cursor && (f.kind.Heartbeat? || Storable(f))
  }

  function Record(full: FullLog, f: Frame): FullLog {
    if !Advances(full.cursor, f) then full
    else if f.kind.Heartbeat? then full.(cursor := f.seqNo)
    else FullLog(full.log + [StoredEvent(f)], f.seqNo)
  }

  ghost predicate Ordered(events: seq<Event>) {
    && (forall i :: 0 <= i < |events| ==> events[i].sequence > 0)
    && (forall i, j :: 0 <= i < j < |events| ==> events[i].sequence < events[j].sequence)
  }

  /** What every log built by `Record` satisfies. */
  ghost predicate WellFormedLog(full: FullLog) {
    && Ordered(full.log)
    && (forall i :: 0 <= i < |full.log| ==>
          ValidEvent(full.log[i]) && Clean(full.log[i].payload) && full.log[i].sequence <= full.cursor)
  }

  lemma RecordKeepsLog(full: FullLog, f: Frame)
    requires WellFormedLog(full)
    ensures WellFormedLog(Record(full, f))
    ensures full.cursor <= Record(full, f).cursor
  {
    RedactedIsClean(f.data, "");
  }

  /** A valid frame is stored exactly if it is safe after redaction and its payload has at most 768 KiB. */
  lemma StorableExactly(f: Frame)
    ensures Storable(f) <==> ValidEnvelope(f) && f.safeOk && f.payloadBytes <= 786432
  {
    EmptyKeyIsPlain();
    hide IsSensitiveKey;
  }

  /** What a client is to see of a stream: every frame but the heartbeats, with its payload redacted. */
  function Shown(frames: seq<Frame>): seq<Event> {
    if |frames| == 0 then []
    else
      var f := frames[0];
      (if f.kind.Heartbeat? then [] else [Event(f.seqNo, f.kind, Redact(f.data, ""), f.terminal, f.payloadBytes, f.encodedBytes)])
      + Shown(frames[1..])
  }

  /** The frames are new, in order, and each of them is a heartbeat or can be stored. */
  ghost predicate Fresh(cursor: nat, frames: seq<Frame>) {
    && (forall i :: 0 <= i < |frames| ==>
          && cursor < frames[i].seqNo
          && (frames[i].kind.Heartbeat? || (ValidEnvelope(frames[i]) && frames[i].safeOk && frames[i].payloadBytes <= 786432)))
    && (forall i, j :: 0 <= i < j < |frames| ==> frames[i].seqNo < frames[j].seqNo)
  }

  // --- The bounded history.

  /** Drop from the front until both limits are met. */
  function Trim(events: seq<Event>): (kept: seq<Event>)
    ensures |kept| <= |events|
    decreases |events|
  {
    if Fits(events) || |events| == 0 then events else Trim(events[1..])
  }

  lemma {:induction false} TrimIsSuffix(events: seq<Event>)
    ensures Trim(events) == events[|events| - |Trim(events)|..]
    decreases |events|
  {
    if !Fits(events) && |events| > 0 {
      TrimIsSuffix(events[1..]);
      var kept := Trim(events);
      assert events[1..][|events| - 1 - |kept|..] == events[|events| - |kept|..];
    }
  }

  /** The retained events are the longest suffix within both limits. */
  lemma {:induction false} TrimIsLongestFit(events: seq<Event>, n: nat)
    requires n <= |events|
    ensures Fits(Trim(events))
    ensures Fits(events[n..]) ==> |events| - n <= |Trim(events)|
    decreases |events|
  {
    if !Fits(events) {
      if n == 0 {
        assert events[0..] == events;
        TrimIsLongestFit(events[1..], 0);
      } else {
        assert events[1..][n - 1..] == events[n..];
        TrimIsLongestFit(events[1..], n - 1);
      }
    } else {
      assert |Trim(events)| == |events|;
    }
  }

  /** What the bounded history makes of a full log. */
  function Abbreviate(full: FullLog): Window {
    var kept := Trim(full.log);
    Window(kept, full.cursor, StartOf(kept), |kept| < |full.log|)
  }

  lemma {:induction false} AppendAddsBytes(events: seq<Event>, e: Event)
    ensures HistoryBytes(events + [e]) == HistoryBytes(events) + e.encodedBytes
  {
    if |events| > 0 {
      assert (events + [e])[1..] == events[1..] + [e];
      AppendAddsBytes(events[1..], e);
    }
  }

  /** Trimming after every append equals trimming once at the end. */
  lemma {:induction false} TrimIncrementally(events: seq<Event>, e: Event)
    ensures Trim(Trim(events) + [e]) == Trim(events + [e])
    decreases |events|
  {
    if !Fits(events) {
      AppendAddsBytes(events, e);
      assert (events + [e])[1..] == events[1..] + [e];
      TrimIncrementally(events[1..], e);
    }
  }

  /** The transition of appendRuntimeEventLocked; None is its error return. */
  function Append(w: Window, f: Frame): Option<Window> {
    if f.seqNo <= w.cursor then Some(w)
    else if f.kind.Heartbeat? then Some(w.(cursor := f.seqNo))
    else if !Storable(f) then None
    else
      var grown := w.events + [StoredEvent(f)];
      var kept := Trim(grown);
      Some(Window(kept, f.seqNo, StartOf(kept), w.truncated || |kept| < |grown|))
  }

  method AppendRuntimeEvent(task: Window, f: Frame) returns (result: Option<Window>)
    ensures result == Append(task, f)
  {
    if f.seqNo <= task.cursor {
      return Some(task);
    }
    if f.kind.Heartbeat? {
      return Some(task.(cursor := f.seqNo));
    }
    if !Storable(f) {
      return None;
    }
    var events := task.events + [StoredEvent(f)];
    ghost var grown := events;
    var truncated := task.truncated;
    while |events| > MAX_EVENTS || HistoryBytes(events) > MAX_HISTORY_BYTES
      invariant Trim(events) == Trim(grown) && |events| <= |grown|
      invariant truncated == (task.truncated || |events| < |grown|)
      decreases |events|
    {
      truncated := true;
      events := events[1..];
    }
    result := Some(Window(events, f.seqNo, if |events| == 0 then 0 else events[0].sequence, truncated));
  }

  /** An append that fails leaves the stored history alone. */
  function AppendOrKeep(w: Window, f: Frame): Window {
    match Append(w, f)
    case Some(next) => next
    case None => w
  }

  /**
   The bounded history refines the full log: appending to the abbreviation gives the
   abbreviation of the appended log.
   */
  lemma AppendRefinesRecord(full: FullLog, f: Frame)
    ensures AppendOrKeep(Abbreviate(full), f) == Abbreviate(Record(full, f))
  {
    if f.seqNo > full.cursor && !f.kind.Heartbeat? && Storable(f) {
      TrimIncrementally(full.log, StoredEvent(f));
      assert |Trim(Trim(full.log) + [StoredEvent(f)])| <= |Trim(full.log)| + 1;
    }
  }

  function RecordAll(full: FullLog, frames: seq<Frame>): FullLog
    decreases |frames|
  {
    if |frames| == 0 then full else RecordAll(Record(full, frames[0]), frames[1..])
  }

  function AppendAll(w: Window, frames: seq<Frame>): Window
    decreases |frames|
  {
    if |frames| == 0 then w else AppendAll(AppendOrKeep(w, frames[0]), frames[1..])
  }

  /** The same over any stream of frames, whatever it contains. */
  lemma {:induction false} HistoryRefinesLog(full: FullLog, frames: seq<Frame>)
    requires WellFormedLog(full)
    ensures AppendAll(Abbreviate(full), frames) == Abbreviate(RecordAll(full, frames))
    ensures WellFormedLog(RecordAll(full, frames))
    ensures full.cursor <= RecordAll(full, frames).cursor
    decreases |frames|
  {
    if |frames| > 0 {
      AppendRefinesRecord(full, frames[0]);
      RecordKeepsLog(full, frames[0]);
      HistoryRefinesLog(Record(full, frames[0]), frames[1..]);
    }
  }

  /** Replaying frames that were already seen changes nothing. */
  lemma {:induction false} ReplayChangesNothing(w: Window, frames: seq<Frame>)
    requires forall i :: 0 <= i < |frames| ==> frames[i].seqNo <= w.cursor
    ensures AppendAll(w, frames) == w
    decreases |frames|
  {
    if |frames| > 0 {
      assert AppendOrKeep(w, frames[0]) == w;
      ReplayChangesNothing(w, frames[1..]);
    }
  }

  // --- Reloading a stored history.

  /** What every stored history satisfies, said of the history alone. */
  ghost predicate WellFormed(w: Window) {
    && Fits(w.events)
    && Ordered(w.events)
    && (forall i :: 0 <= i < |w.events| ==>
          ValidEvent(w.events[i]) && Clean(w.events[i].payload) && w.events[i].sequence <= w.cursor)
    && w.start == StartOf(w.events)
  }

  lemma SuffixIsWellFormed(full: FullLog, n: nat)
    requires WellFormedLog(full) && n <= |full.log| && Fits(full.log[n..])
    ensures forall truncated :: WellFormed(Window(full.log[n..], full.cursor, StartOf(full.log[n..]), truncated))
  {
    var kept := full.log[n..];
    assert forall i :: 0 <= i < |kept| ==> kept[i] == full.log[n + i];
  }

  lemma AbbreviationIsWellFormed(full: FullLog)
    requires WellFormedLog(full)
    ensures WellFormed(Abbreviate(full))
  {
    TrimIsLongestFit(full.log, 0);
    TrimIsSuffix(full.log);
    SuffixIsWellFormed(full, |full.log| - |Trim(full.log)|);
  }

  lemma AppendKeepsWellFormed(w: Window, f: Frame)
    requires WellFormed(w)
    ensures WellFormed(AppendOrKeep(w, f))
  {
    if f.seqNo > w.cursor && !f.kind.Heartbeat? && Storable(f) {
      var grown := FullLog(w.events + [StoredEvent(f)], f.seqNo);
      RedactedIsClean(f.data, "");
      AbbreviationIsWellFormed(grown);
    }
  }

  function LastOf(events: seq<Event>): nat {
    if |events| == 0 then 0 else events[|events| - 1].sequence
  }

  /** The history of a record read from disk is usable. */
  predicate Loadable(w: Window) {
    && Fits(w.events)
    && (forall i :: 0 <= i < |w.events| ==> ValidEvent(w.events[i]))
    && (forall i, j :: 0 <= i < j < |w.events| ==> w.events[i].sequence < w.events[j].sequence)
    && (w.cursor == 0 || LastOf(w.events) <= w.cursor)
  }

  function Normalized(w: Window): Option<Window> {
    if Loadable(w) then
      Some(w.(cursor := if w.cursor == 0 then LastOf(w.events) else w.cursor, start := StartOf(w.events)))
    else None
  }

  /** normalizeRuntimeHistory, run on every record read from disk; None is its error return. */
  method NormalizeRuntimeHistory(task: Window) returns (result: Option<Window>)
    ensures result == Normalized(task)
  {
    if |task.events| > MAX_EVENTS {
      return None;
    }
    var previous := 0;
    for index := 0 to |task.events|
      invariant previous == LastOf(task.events[..index])
      invariant forall i :: 0 <= i < index ==> ValidEvent(task.events[i]) && task.events[i].sequence <= previous
      invariant forall i, j :: 0 <= i < j < index ==> task.events[i].sequence < task.events[j].sequence
    {
      var event := task.events[index];
      if !ValidEvent(event) || event.sequence <= previous {
        assert index > 0 ==> task.events[index - 1].sequence == previous;
        return None;
      }
      previous := event.sequence;
    }
    assert task.events[..|task.events|] == task.events;
    if HistoryBytes(task.events) > MAX_HISTORY_BYTES {
      return None;
    }
    var cursor := if task.cursor == 0 then previous else task.cursor;
    if cursor < previous {
      return None;
    }
    result := Some(task.(cursor := cursor, start := if |task.events| == 0 then 0 else task.events[0].sequence));
  }

  /**
   A record from disk is accepted if and only if its history has at most 256 events of known kinds with
   object payloads of at most 768 KiB each and 896 KiB together, in strictly increasing positive order
   and not beyond the cursor; it then keeps its events and knows its first and last number.
   */
  lemma NormalizedExactly(w: Window)
    ensures Normalized(w).Some? <==>
            && |w.events| <= 256 && HistoryBytes(w.events) <= 917504
            && (forall i :: 0 <= i < |w.events| ==>
                  && w.events[i].sequence > 0 && !w.events[i].kind.Unsupported?
                  && w.events[i].payload.Obj? && w.events[i].payloadBytes <= 786432)
            && (forall i, j :: 0 <= i < j < |w.events| ==> w.events[i].sequence < w.events[j].sequence)
            && (w.cursor > 0 ==> forall i :: 0 <= i < |w.events| ==> w.events[i].sequence <= w.cursor)
    ensures Normalized(w).Some? ==>
            var v := Normalized(w).value;
            && v.events == w.events && v.truncated == w.truncated
            && (w.cursor > 0 ==> v.cursor == w.cursor)
            && (forall i :: 0 <= i < |v.events| ==> v.start <= v.events[i].sequence <= v.cursor)
            && (|v.events| > 0 ==> v.start == v.events[0].sequence)
            && (|v.events| > 0 && w.cursor == 0 ==> v.cursor == v.events[|v.events| - 1].sequence)
  {
    if |w.events| > 0 {
      assert LastOf(w.events) == w.events[|w.events| - 1].sequence;
    }
  }

  /** Persisting and reloading any history the runner wrote gives that history back. */
  lemma ReloadRoundTrip(w: Window)
    requires WellFormed(w)
    ensures Normalized(w) == Some(w)
  {
    assert |w.events| > 0 ==> w.events[0].sequence <= w.events[|w.events| - 1].sequence;
  }

  // --- Polling.

  /** The events of a status answer. */
  function Newer(events: seq<Event>, after: nat): seq<Event> {
    if |events| == 0 then []
    else (if events[0].sequence <= after then [] else [events[0]]) + Newer(events[1..], after)
  }

  method StatusEvents(w: Window, after: nat) returns (events: seq<Event>)
    ensures events == Newer(w.events, after)
  {
    events := [];
    assert w.events[0..] == w.events;
    for n := 0 to |w.events|
      invariant events + Newer(w.events[n..], after) == Newer(w.events, after)
    {
      var event := w.events[n];
      assert w.events[n..][1..] == w.events[n + 1..];
      if event.sequence <= after {
        continue;
      }
      events := events + [event];
    }
  }

  /** A client can tell from one answer that it missed nothing. */
  predicate Gapless(w: Window, after: nat) {
    !w.truncated || 0 < w.start <= after + 1
  }

  lemma {:induction false} NewerSkips(seen: seq<Event>, events: seq<Event>, after: nat)
    requires forall i :: 0 <= i < |seen| ==> seen[i].sequence <= after
    ensures Newer(seen + events, after) == Newer(events, after)
    decreases |seen|
  {
    if |seen| == 0 {
      assert seen + events == events;
    } else {
      assert (seen + events)[1..] == seen[1..] + events;
      NewerSkips(seen[1..], events, after);
    }
  }

  lemma {:induction false} NewerKeeps(events: seq<Event>, after: nat)
    requires forall i :: 0 <= i < |events| ==> events[i].sequence > after
    ensures Newer(events, after) == events
    decreases |events|
  {
    if |events| > 0 {
      NewerKeeps(events[1..], after);
    }
  }

  lemma NothingNewDropped(dropped: seq<Event>, kept: seq<Event>, after: nat)
    requires Ordered(dropped + kept)
    requires |dropped| == 0 || (|kept| > 0 && kept[0].sequence <= after + 1)
    ensures Newer(kept, after) == Newer(dropped + kept, after)
  {
    forall i | 0 <= i < |dropped| ensures dropped[i].sequence <= after {
      assert (dropped + kept)[i] == dropped[i] && (dropped + kept)[|dropped|] == kept[0];
    }
    NewerSkips(dropped, kept, after);
  }

  lemma NothingNewBefore(log: seq<Event>, n: nat, after: nat)
    requires Ordered(log) && n <= |log|
    requires n == 0 || (n < |log| && log[n].sequence <= after + 1)
    ensures Newer(log[n..], after) == Newer(log, after)
  {
    assert log[..n] + log[n..] == log;
    NothingNewDropped(log[..n], log[n..], after);
  }

  /** In a gapless answer nothing newer than the last poll was dropped. */
  lemma GaplessAnswer(full: FullLog, after: nat)
    requires Ordered(full.log) && Gapless(Abbreviate(full), after)
    ensures Newer(Abbreviate(full).events, after) == Newer(full.log, after)
  {
    TrimIsSuffix(full.log);
    NothingNewBefore(full.log, |full.log| - |Trim(full.log)|, after);
  }

  /** The events a stream adds to a log whose last frame was number `cursor`. */
  function Gained(cursor: nat, frames: seq<Frame>): seq<Event>
    decreases |frames|
  {
    if |frames| == 0 then []
    else if !Advances(cursor, frames[0]) then Gained(cursor, frames[1..])
    else (if frames[0].kind.Heartbeat? then [] else [StoredEvent(frames[0])]) + Gained(frames[0].seqNo, frames[1..])
  }

  lemma {:induction false} RecordAllGains(full: FullLog, frames: seq<Frame>)
    ensures RecordAll(full, frames).log == full.log + Gained(full.cursor, frames)
    decreases |frames|
  {
    if |frames| > 0 {
      RecordAllGains(Record(full, frames[0]), frames[1..]);
    }
  }

  /** The full log misses nothing: new frames in order are recorded one by one, kind, payload and all. */
  lemma {:induction false} LogShowsEverything(full: FullLog, frames: seq<Frame>)
    requires Fresh(full.cursor, frames)
    ensures RecordAll(full, frames).log == full.log + Shown(frames)
    ensures |frames| > 0 ==> RecordAll(full, frames).cursor == frames[|frames| - 1].seqNo
    decreases |frames|
  {
    if |frames| > 0 {
      RecordShows(full, frames[0]);
      FreshRest(full.cursor, frames);
      hide Record, Fresh;
      LogShowsEverything(Record(full, frames[0]), frames[1..]);
      assert Shown([frames[0]]) + Shown(frames[1..]) == Shown(frames) by { assert [frames[0]][1..] == []; }
      Reassociate(full.log, Shown([frames[0]]), Shown(frames[1..]));
    }
  }

  lemma RecordShows(full: FullLog, f: Frame)
    requires Fresh(full.cursor, [f])
    ensures Record(full, f) == FullLog(full.log + Shown([f]), f.seqNo)
  {
    StorableExactly(f);
    assert [f][0] == f && [f][1..] == [];
    hide Redact;
  }

  lemma FreshRest(cursor: nat, frames: seq<Frame>)
    requires Fresh(cursor, frames) && |frames| > 0
    ensures Fresh(cursor, [frames[0]]) && Fresh(frames[0].seqNo, frames[1..])
  {
  }

  lemma {:induction false} GainedIsNewer(cursor: nat, frames: seq<Frame>, after: nat)
    requires after <= cursor
    ensures forall i :: 0 <= i < |Gained(cursor, frames)| ==> Gained(cursor, frames)[i].sequence > after
    decreases |frames|
  {
    if |frames| > 0 {
      var next := if Advances(cursor, frames[0]) then frames[0].seqNo else cursor;
      GainedIsNewer(next, frames[1..], after);
    }
  }

  /** One gapless answer brings the client from the old log to the new one. */
  lemma GaplessPoll(full: FullLog, frames: seq<Frame>)
    requires WellFormedLog(full)
    requires Gapless(Abbreviate(RecordAll(full, frames)), full.cursor)
    ensures full.log + Newer(Abbreviate(RecordAll(full, frames)).events, full.cursor) == RecordAll(full, frames).log
  {
    var gained := Gained(full.cursor, frames);
    HistoryRefinesLog(full, frames);
    GaplessAnswer(RecordAll(full, frames), full.cursor);
    RecordAllGains(full, frames);
    GainedIsNewer(full.cursor, frames, full.cursor);
    NewerSkips(full.log, gained, full.cursor);
    NewerKeeps(gained, full.cursor);
  }

  /** All events a client is sent: `batches[n]` arrives before its poll number `n`. */
  function Received(w: Window, after: nat, batches: seq<seq<Frame>>): seq<Event>
    decreases |batches|
  {
    if |batches| == 0 then []
    else
      var next := AppendAll(w, batches[0]);
      Newer(next.events, after) + Received(next, next.cursor, batches[1..])
  }

  predicate AllGapless(w: Window, after: nat, batches: seq<seq<Frame>>)
    decreases |batches|
  {
    |batches| > 0 ==>
      var next := AppendAll(w, batches[0]);
      Gapless(next, after) && AllGapless(next, next.cursor, batches[1..])
  }

  function RecordBatches(full: FullLog, batches: seq<seq<Frame>>): FullLog
    decreases |batches|
  {
    if |batches| == 0 then full else RecordBatches(RecordAll(full, batches[0]), batches[1..])
  }

  /**
   A client that always polls from its last cursor receives, in order and once each, exactly
   the events the full log gained, provided every answer was gapless.
   */
  lemma {:induction false} PollingRefinesLog(full: FullLog, batches: seq<seq<Frame>>)
    requires WellFormedLog(full)
    requires AllGapless(Abbreviate(full), full.cursor, batches)
    ensures full.log + Received(Abbreviate(full), full.cursor, batches) == RecordBatches(full, batches).log
    decreases |batches|
  {
    if |batches| == 0 {
      assert full.log + [] == full.log;
    } else {
      var later := RecordAll(full, batches[0]);
      HistoryRefinesLog(full, batches[0]);
      PollStep(Abbreviate(full), full.cursor, batches);
      GaplessPoll(full, batches[0]);
      PollingRefinesLog(later, batches[1..]);
      assert RecordBatches(full, batches) == RecordBatches(later, batches[1..]);
      hide *;
      Reassociate(full.log, Newer(Abbreviate(later).events, full.cursor),
                  Received(Abbreviate(later), later.cursor, batches[1..]));
    }
  }

  lemma PollStep(w: Window, after: nat, batches: seq<seq<Frame>>)
    requires |batches| > 0
    ensures var next := AppendAll(w, batches[0]);
            && Received(w, after, batches) == Newer(next.events, after) + Received(next, next.cursor, batches[1..])
            && (AllGapless(w, after, batches) ==> Gapless(next, after) && AllGapless(next, next.cursor, batches[1..]))
  {
  }

  lemma Reassociate(a: seq<Event>, b: seq<Event>, c: seq<Event>)
    ensures a + (b + c) == (a + b) + c
  {
  }

  lemma {:induction false} NewerAppends(first: seq<Event>, second: seq<Event>, after: nat)
    ensures Newer(first + second, after) == Newer(first, after) + Newer(second, after)
    decreases |first|
  {
    if |first| == 0 {
      assert first + second == second;
    } else {
      assert (first + second)[1..] == first[1..] + second;
      NewerAppends(first[1..], second, after);
    }
  }

  lemma {:induction false} NothingNewerExactly(events: seq<Event>, after: nat)
    ensures Newer(events, after) == [] <==> forall i :: 0 <= i < |events| ==> events[i].sequence <= after
    decreases |events|
  {
    if |events| > 0 {
      NothingNewerExactly(events[1..], after);
      assert forall i :: 0 < i < |events| ==> events[i] == events[1..][i - 1];
    }
  }

  /** An answer is complete if and only if every event that was dropped is one the client has already seen. */
  lemma AnswerIsCompleteExactly(full: FullLog, after: nat)
    ensures var kept := Abbreviate(full).events;
            Newer(kept, after) == Newer(full.log, after) <==>
            forall i :: 0 <= i < |full.log| - |kept| ==> full.log[i].sequence <= after
  {
    var kept := Abbreviate(full).events;
    var dropped := full.log[..|full.log| - |kept|];
    TrimIsSuffix(full.log);
    assert full.log == dropped + kept;
    NewerAppends(dropped, kept, after);
    NothingNewerExactly(dropped, after);
    assert Newer(kept, after) == Newer(dropped, after) + Newer(kept, after) <==> |Newer(dropped, after)| == 0;
  }

  /** A proviso is needed: two large events arriving before the first poll lose the first. */
  lemma PollingCanMissEvents(a: Event, b: Event)
    requires a.encodedBytes == b.encodedBytes == 600_000 && a.sequence == 1 && b.sequence == 2
    ensures var w := Abbreviate(FullLog([a, b], 2));
            Newer(w.events, 0) == [b] && !Gapless(w, 0)
  {
    var both := [a, b];
    assert both[1..] == [b] && [b][1..] == [];
    assert HistoryBytes([b]) == 600_000;
    assert HistoryBytes(both) == a.encodedBytes + HistoryBytes([b]);
    assert Trim(both) == Trim([b]) == [b];
  }
}
