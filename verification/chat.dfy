/**
 One streamed chat turn: the upstream's chunks become client events, then the
 collected references and recommendations, the finish list and done follow.
 */
module Chat {
  import opened Sequences
  import opened Wrappers
  import opened ActiveStreams
  import opened StreamHandles
  import opened References
  import opened Thought
  import opened Tables
  import opened Content

  datatype Event =
    | Start
    | TextDelta(text: string)
    | StepShown(step: WorkflowStep)
    | ReferencesFound(refs: seq<Reference>)
    | RecommendationsFound(recs: seq<string>)
    | Failure(code: string)
    | Finish(messages: seq<MessageResponse>)
    | Done

  /** A workflow-step-start payload; displayName is "" for a step the display-name table does not know. */
  datatype StepStart = StepStart(stepName: string, id: string, displayName: string)

  datatype WorkflowEvent = WorkflowEvent(kind: string, payload: Option<StepStart>)

  /** A parsed upstream chunk.  A tool output that is empty or does not parse is None. */
  datatype Chunk =
    | TextChunk(text: string)
    | ToolCall(callId: string, name: string, displayName: string)
    | ToolAnswer(result: Option<ToolResult>)
    | ToolOutput(output: Option<WorkflowEvent>)
    | ErrorChunk
    | OtherChunk

  /** How the upstream request went. */
  datatype Upstream =
    | NotBuilt
    | NoResponse(stopped: bool)
    | NoContent
    | Refused(code: string)
    | Answered(runId: Protocol.RunId, chunks: seq<Chunk>, readFailed: bool, stopped: bool)

  const INTERNAL_ERROR := "INTERNAL_ERROR"
  const UPSTREAM_ERROR := "UPSTREAM_ERROR"

  // ----- the chunk loop -----

  /** What the loop has sent and collected so far. */
  datatype Pump = Pump(sent: seq<Event>, refs: seq<Reference>, recs: seq<string>, inThought: bool, failed: bool)

  const IDLE := Pump([], [], [], false, false)

  predicate IsStepStart(e: WorkflowEvent) {
    e.kind == "workflow-step-start" && e.payload.Some? && e.payload.value.stepName != "" && e.payload.value.displayName != ""
  }

  /** The step a chunk shows, if any. */
  function StepOf(c: Chunk): Option<WorkflowStep> {
    match c
    case ToolCall(callId, name, displayName) =>
      if !("workflow-" <= name) && name != "" then Some(WorkflowStep(callId, displayName)) else None
    case ToolOutput(Some(e)) =>
      if IsStepStart(e) then Some(WorkflowStep(e.payload.value.id, e.payload.value.displayName)) else None
    case ToolOutput(None) => None
    case TextChunk(_) => None
    case ToolAnswer(_) => None
    case ErrorChunk => None
    case OtherChunk => None
  }

  function Pumped(p: Pump, c: Chunk): Pump {
    if p.failed then p
    else
      match c
      case TextChunk(text) =>
        var kept := Filter(text, p.inThought);
        p.(inThought := kept.1, sent := if kept.0 != "" then p.sent + [TextDelta(kept.0)] else p.sent)
      case ToolAnswer(result) =>
        p.(refs := p.refs + ExtractedReferences(result), recs := p.recs + ExtractedRecommendations(result))
      case ErrorChunk =>
        p.(sent := p.sent + [Failure(UPSTREAM_ERROR)], failed := true)
      case ToolCall(_, _, _) =>
        if StepOf(c).Some? then p.(sent := p.sent + [StepShown(StepOf(c).value)]) else p
      case ToolOutput(_) =>
        if StepOf(c).Some? then p.(sent := p.sent + [StepShown(StepOf(c).value)]) else p
      case OtherChunk => p
  }

  function PumpAll(chunks: seq<Chunk>): Pump {
    if chunks == [] then IDLE else Pumped(PumpAll(chunks[..|chunks| - 1]), chunks[|chunks| - 1])
  }

  lemma OneMoreChunk(chunks: seq<Chunk>, i: nat)
    requires i < |chunks|
    ensures PumpAll(chunks[..i + 1]) == Pumped(PumpAll(chunks[..i]), chunks[i])
  {
    assert chunks[..i + 1][..i] == chunks[..i];
  }

  /** What the whole upstream exchange sends and yields. */
  function Exchanged(u: Upstream): Pump {
    match u
    case NotBuilt => IDLE.(sent := [Failure(INTERNAL_ERROR)], failed := true)
    case NoResponse(stopped) => if stopped then IDLE else IDLE.(sent := [Failure(UPSTREAM_ERROR)], failed := true)
    case NoContent => IDLE
    case Refused(code) => IDLE.(sent := [Failure(code)], failed := true)
    case Answered(_, chunks, readFailed, stopped) =>
      var p := PumpAll(chunks);
      if readFailed && !p.failed && !stopped
      then p.(sent := p.sent + [Failure(UPSTREAM_ERROR)], failed := true)
      else p
  }

  /** The run id the handle is settled with. */
  function SettledRun(u: Upstream): Protocol.RunId {
    if u.Answered? then u.runId else ""
  }

  /** The client's end: every event handed over is recorded; accepts decides what Write reports. */
  class Writer {
    var sent: seq<Event>
    const accepts: Event -> bool

    constructor (accepts: Event -> bool)
      ensures sent == [] && this.accepts == accepts
    {
      this.accepts := accepts;
      sent := [];
    }

    method Write(e: Event) returns (ok: bool)
      modifies this
      ensures sent == old(sent) + [e] && ok == accepts(e)
    {
      sent := sent + [e];
      ok := accepts(e);
    }
  }

  method ReadChunks(chunks: seq<Chunk>, w: Writer)
    returns (refs: seq<Reference>, recs: seq<string>, failed: bool)
    modifies w
    ensures var p := PumpAll(chunks);
            w.sent == old(w.sent) + p.sent && refs == p.refs && recs == p.recs && failed == p.failed
  {
    var inThought := false;
    refs, recs, failed := [], [], false;
    ghost var before, p := w.sent, IDLE;
    for i := 0 to |chunks|
      invariant p == PumpAll(chunks[..i])
      invariant w.sent == before + p.sent
      invariant refs == p.refs && recs == p.recs && inThought == p.inThought && failed == p.failed
    {
      OneMoreChunk(chunks, i);
      var chunk := chunks[i];
      p := Pumped(p, chunk);
      if failed && !chunk.ErrorChunk? {
        continue;
      }
      match chunk {
        case TextChunk(text) =>
          if text == "" {
            FilterEmpty(inThought);
            continue;
          }
          var kept, updated := FilterThought(text, inThought);
          inThought := updated;
          if kept != "" {
            var _ := w.Write(TextDelta(kept));
          }
        case ToolCall(callId, name, displayName) =>
          if !("workflow-" <= name) && name != "" {
            var _ := w.Write(StepShown(WorkflowStep(callId, displayName)));
          }
        case ToolAnswer(result) =>
          if result.None? {
            continue;
          }
          var extracted := ExtractReferences(result);
          refs := refs + extracted;
          recs := recs + ExtractedRecommendations(result);
        case ToolOutput(output) =>
          if output.None? {
            continue;
          }
          if output.value.kind == "workflow-step-start" && output.value.payload.Some? {
            var step := output.value.payload.value;
            if step.stepName == "" {
              continue;
            }
            if step.displayName == "" {
              continue;
            }
            var _ := w.Write(StepShown(WorkflowStep(step.id, step.displayName)));
          }
        case ErrorChunk =>
          if !failed {
            var _ := w.Write(Failure(UPSTREAM_ERROR));
            failed := true;
          }
        case OtherChunk =>
      }
    }
    assert chunks[..|chunks|] == chunks;
  }

  method Exchange(u: Upstream, w: Writer, h: StreamHandle)
    returns (refs: seq<Reference>, recs: seq<string>, failed: bool)
    modifies w, h
    ensures var p := Exchanged(u);
            w.sent == old(w.sent) + p.sent && refs == p.refs && recs == p.recs && failed == p.failed
    ensures h.State() == if u.Answered? then SettledOnce(old(h.State()), u.runId) else old(h.State())
  {
    match u {
      case NotBuilt =>
        var _ := w.Write(Failure(INTERNAL_ERROR));
        return [], [], true;
      case NoResponse(stopped) =>
        if stopped {
          return [], [], false;
        }
        var _ := w.Write(Failure(UPSTREAM_ERROR));
        return [], [], true;
      case NoContent =>
        return [], [], false;
      case Refused(code) =>
        var _ := w.Write(Failure(code));
        return [], [], true;
      case Answered(runId, chunks, readFailed, stopped) =>
        h.Settle(runId);
        refs, recs, failed := ReadChunks(chunks, w);
        if readFailed && !failed && !stopped {
          var _ := w.Write(Failure(UPSTREAM_ERROR));
          failed := true;
        }
    }
  }

  /** On every path the handle is settled when the upstream exchange returns. */
  method DoUpstreamStream(u: Upstream, w: Writer, h: StreamHandle)
    returns (refs: seq<Reference>, recs: seq<string>, failed: bool)
    modifies w, h
    ensures var p := Exchanged(u);
            w.sent == old(w.sent) + p.sent && refs == p.refs && recs == p.recs && failed == p.failed
    ensures h.State() == SettledOnce(old(h.State()), SettledRun(u))
  {
    refs, recs, failed := Exchange(u, w, h);
    h.Settle("");
  }

  // ----- the whole turn -----

  datatype Outcome = Ended | StartFailed | ClientNotified

  /** listed is what the finish list returned, None when it failed. */
  function Ending(p: Pump, listed: Option<seq<MessageResponse>>): seq<Event> {
    (if p.refs != [] then [ReferencesFound(p.refs)] else [])
    + ((if p.recs != [] then [RecommendationsFound(p.recs)] else [])
       + ((match listed
           case Some(messages) => [Finish(messages)]
           case None => if p.failed then [] else [Failure(INTERNAL_ERROR)])
          + [Done]))
  }

  function Trace(u: Upstream, listed: Option<seq<MessageResponse>>): seq<Event> {
    [Start] + (Exchanged(u).sent + Ending(Exchanged(u), listed))
  }

  function OutcomeOf(u: Upstream, listed: Option<seq<MessageResponse>>): Outcome {
    if Exchanged(u).failed || listed.None? then ClientNotified else Ended
  }

  method SendEnding(w: Writer, refs: seq<Reference>, recs: seq<string>, failed: bool, listed: Option<seq<MessageResponse>>)
    returns (failed': bool)
    modifies w
    ensures forall p: Pump :: p.refs == refs && p.recs == recs && p.failed == failed ==>
                                w.sent == old(w.sent) + Ending(p, listed)
    ensures failed' == (failed || listed.None?)
  {
    failed' := failed;
    if |refs| > 0 {
      var _ := w.Write(ReferencesFound(refs));
    }
    if |recs| > 0 {
      var _ := w.Write(RecommendationsFound(recs));
    }
    if listed.None? {
      if !failed' {
        var _ := w.Write(Failure(INTERNAL_ERROR));
        failed' := true;
      }
    } else {
      var _ := w.Write(Finish(listed.value));
    }
    var _ := w.Write(Done);
  }

  /** What the caller and the client get: started says whether the start event was written. */
  predicate Served(started: bool, u: Upstream, listed: Option<seq<MessageResponse>>, r: Outcome,
                   before: seq<Event>, after: seq<Event>)
  {
    if started then r == OutcomeOf(u, listed) && after == before + Trace(u, listed)
    else r == StartFailed && after == before + [Start]
  }

  /** The part of a turn after its stream is registered. */
  method Turn(w: Writer, h: StreamHandle, u: Upstream, listed: Option<seq<MessageResponse>>) returns (r: Outcome)
    modifies w, h
    ensures h.State() == if w.accepts(Start) then SettledOnce(old(h.State()), SettledRun(u)) else old(h.State())
    ensures Served(w.accepts(Start), u, listed, r, old(w.sent), w.sent)
  {
    ghost var before := w.sent;
    var ok := w.Write(Start);
    if !ok {
      return StartFailed;
    }
    var refs, recs, failed := DoUpstreamStream(u, w, h);
    failed := SendEnding(w, refs, recs, failed, listed);
    Assoc(before + [Start], Exchanged(u).sent, Ending(Exchanged(u), listed));
    Assoc(before, [Start], Exchanged(u).sent + Ending(Exchanged(u), listed));
    r := if failed then ClientNotified else Ended;
  }

  /**
   agentService.StreamChat with no other call in between: the interleavings are
   the transition system's.  Returns its handle for the contract's sake.
   */
  method StreamChat(registry: StreamRegistry, w: Writer, t: ThreadId, u: Upstream, listed: Option<seq<MessageResponse>>)
    returns (r: Outcome, ghost h: StreamHandle)
    modifies registry, registry.activeStreams.Values, w
    ensures fresh(h)
    ensures registry.activeStreams == old(registry.activeStreams) - {t}
    ensures forall g <- old(registry.activeStreams.Values) ::
              g.State() == if Bound(old(registry.activeStreams), t) == Some(g)
                           then old(g.State()).(cancelled := true) else old(g.State())
    ensures h.State() == NEW_HANDLE.(cancelled := true, settled := if w.accepts(Start) then Some(SettledRun(u)) else None)
    ensures Served(w.accepts(Start), u, listed, r, old(w.sent), w.sent)
  {
    var handle := new StreamHandle();
    h := handle;
    registry.Register(t, handle);
    r := Turn(w, handle, u, listed);
    registry.Deregister(t, handle);
    handle.Cancel();
  }

  // ----- the language of traces -----

  /**
   The places of a turn: 0 nothing sent, 1 streaming, 2 failed while streaming,
   3 references sent, 4 recommendations sent, 5 finished or failed to list, 6 done.
   */
  function Advance(place: nat, e: Event): Option<nat> {
    match e
    case Start => if place == 0 then Some(1) else None
    case TextDelta(text) => if place == 1 && text != "" then Some(1) else None
    case StepShown(_) => if place == 1 then Some(1) else None
    case Failure(_) => if place == 1 then Some(2) else if 3 <= place <= 4 then Some(5) else None
    case ReferencesFound(refs) => if 1 <= place <= 2 && refs != [] then Some(3) else None
    case RecommendationsFound(recs) => if 1 <= place <= 3 && recs != [] then Some(4) else None
    case Finish(_) => if 1 <= place <= 4 then Some(5) else None
    case Done => if 1 <= place <= 5 then Some(6) else None
  }

  function Run(place: nat, trace: seq<Event>): Option<nat>
    decreases |trace|
  {
    if trace == [] then Some(place)
    else
      match Advance(place, trace[0])
      case None => None
      case Some(next) => Run(next, trace[1..])
  }

  function Failures(trace: seq<Event>): nat {
    if trace == [] then 0 else (if trace[0].Failure? then 1 else 0) + Failures(trace[1..])
  }

  predicate IsFinish(e: Event) {
    e.Finish?
  }

  lemma {:induction false} RunJoin(place: nat, a: seq<Event>, b: seq<Event>)
    ensures Run(place, a + b) == if Run(place, a).Some? then Run(Run(place, a).value, b) else None
    ensures Failures(a + b) == Failures(a) + Failures(b)
    decreases |a|
  {
    if a == [] {
      assert [] + b == b;
    } else {
      assert (a + b)[1..] == a[1..] + b;
      RunJoin(match Advance(place, a[0]) case Some(next) => next case None => place, a[1..], b);
    }
  }

  lemma RunOne(place: nat, e: Event)
    ensures Run(place, [e]) == Advance(place, e)
    ensures Failures([e]) == if e.Failure? then 1 else 0
  {
    assert [e][1..] == [];
  }

  ghost predicate StreamedUntil(p: Pump) {
    && Run(1, p.sent) == Some(if p.failed then 2 else 1)
    && Failures(p.sent) == (if p.failed then 1 else 0)
    && !exists e <- p.sent :: IsFinish(e)
  }

  lemma SentOneMore(sent: seq<Event>, e: Event)
    ensures Run(1, sent + [e]) == if Run(1, sent).Some? then Advance(Run(1, sent).value, e) else None
    ensures Failures(sent + [e]) == Failures(sent) + if e.Failure? then 1 else 0
  {
    RunJoin(1, sent, [e]);
    if Run(1, sent).Some? {
      RunOne(Run(1, sent).value, e);
    }
    RunOne(1, e);
  }

  lemma {:induction false} ChunksStream(chunks: seq<Chunk>)
    ensures StreamedUntil(PumpAll(chunks))
  {
    if chunks != [] {
      var n := |chunks| - 1;
      var p := PumpAll(chunks[..n]);
      var q := PumpAll(chunks);
      ChunksStream(chunks[..n]);
      if q.sent != p.sent {
        var e := q.sent[|p.sent|];
        assert q.sent == p.sent + [e];
        SentOneMore(p.sent, e);
      }
    }
  }

  lemma ExchangeStreams(u: Upstream)
    ensures StreamedUntil(Exchanged(u))
  {
    var q := Exchanged(u);
    if u.Answered? {
      var p := PumpAll(u.chunks);
      ChunksStream(u.chunks);
      if q.sent != p.sent {
        SentOneMore(p.sent, Failure(UPSTREAM_ERROR));
      }
    } else if q.failed {
      RunOne(1, q.sent[0]);
    }
  }

  /** The finish list, or the failure to get it, and done: from any place of an unfinished stream. */
  lemma LastEvents(place: nat, failed: bool, listed: Option<seq<MessageResponse>>)
    requires 1 <= place <= 4 && (place == 2 ==> failed)
    ensures var last := (match listed
                         case Some(messages) => [Finish(messages)]
                         case None => if failed then [] else [Failure(INTERNAL_ERROR)]) + [Done];
            && Run(place, last) == Some(6)
            && Failures(last) == (if listed.None? && !failed then 1 else 0)
            && ((exists e <- last :: IsFinish(e)) <==> listed.Some?)
  {
    match listed
    case Some(messages) =>
      RunJoin(place, [Finish(messages)], [Done]);
      RunOne(place, Finish(messages));
      RunOne(5, Done);
      assert ([Finish(messages)] + [Done])[0] == Finish(messages) && IsFinish(Finish(messages));
    case None =>
      RunOne(place, Done);
      assert [] + [Done] == [Done];
      if !failed {
        RunJoin(place, [Failure(INTERNAL_ERROR)], [Done]);
        RunOne(place, Failure(INTERNAL_ERROR));
        RunOne(if place == 1 then 2 else 5, Done);
      }
  }

  /** One optional event, if it is sent, and what follows. */
  lemma OptionalEvent(place: nat, sending: bool, e: Event, rest: seq<Event>)
    requires sending ==> Advance(place, e).Some?
    ensures var all := (if sending then [e] else []) + rest;
            && Run(place, all) == (if sending then Run(Advance(place, e).value, rest) else Run(place, rest))
            && Failures(all) == (if sending && e.Failure? then 1 else 0) + Failures(rest)
            && (!IsFinish(e) ==> ((exists f <- all :: IsFinish(f)) <==> exists f <- rest :: IsFinish(f)))
  {
    if sending {
      RunJoin(place, [e], rest);
      RunOne(place, e);
      assert forall f :: f in [e] + rest <==> f == e || f in rest;
    } else {
      assert [] + rest == rest;
    }
  }

  lemma EndingRuns(p: Pump, listed: Option<seq<MessageResponse>>)
    ensures var ending := Ending(p, listed);
            && Run(if p.failed then 2 else 1, ending) == Some(6)
            && Failures(ending) == (if listed.None? && !p.failed then 1 else 0)
            && ((exists e <- ending :: IsFinish(e)) <==> listed.Some?)
  {
    var place := if p.failed then 2 else 1;
    var place' := if p.refs != [] then 3 else place;
    var place'' := if p.recs != [] then 4 else place';
    var last := (match listed
                 case Some(messages) => [Finish(messages)]
                 case None => if p.failed then [] else [Failure(INTERNAL_ERROR)]) + [Done];
    LastEvents(place'', p.failed, listed);
    OptionalEvent(place', p.recs != [], RecommendationsFound(p.recs), last);
    OptionalEvent(place, p.refs != [], ReferencesFound(p.refs),
                  (if p.recs != [] then [RecommendationsFound(p.recs)] else []) + last);
  }

  /**
   Every turn whose start was written is a word of the language: start; text and
   steps; at most one error, while streaming or instead of the finish list;
   references; recommendations; finish exactly when the list was read; done.  The
   caller is told ClientNotified exactly when the client got an error.
   */
  lemma TurnsSpeakTheLanguage(u: Upstream, listed: Option<seq<MessageResponse>>)
    ensures var trace := Trace(u, listed);
            && Run(0, trace) == Some(6)
            && Failures(trace) <= 1
            && (OutcomeOf(u, listed) == ClientNotified <==> Failures(trace) == 1)
            && ((exists e <- trace :: IsFinish(e)) <==> listed.Some?)
            && trace[|trace| - 1] == Done
  {
    var p := Exchanged(u);
    var ending := Ending(p, listed);
    ExchangeStreams(u);
    EndingRuns(p, listed);
    RunJoin(1, p.sent, ending);
    RunJoin(0, [Start], p.sent + ending);
    RunOne(0, Start);
    assert forall e :: e in Trace(u, listed) <==> e == Start || e in p.sent || e in ending;
  }

  // ----- what the chunks contribute, read from the first to the last -----

  /** The chunks before the first error chunk. */
  function BeforeError(chunks: seq<Chunk>): seq<Chunk> {
    if chunks == [] || chunks[0].ErrorChunk? then [] else [chunks[0]] + BeforeError(chunks[1..])
  }

  function ReferencesOf(c: Chunk): seq<Reference> {
    if c.ToolAnswer? then ExtractedReferences(c.result) else []
  }

  function RecommendationsOf(c: Chunk): seq<string> {
    if c.ToolAnswer? then ExtractedRecommendations(c.result) else []
  }

  function ChunkReferences(chunks: seq<Chunk>): seq<Reference> {
    if chunks == [] then [] else ReferencesOf(chunks[0]) + ChunkReferences(chunks[1..])
  }

  function ChunkRecommendations(chunks: seq<Chunk>): seq<string> {
    if chunks == [] then [] else RecommendationsOf(chunks[0]) + ChunkRecommendations(chunks[1..])
  }

  function ChunkSteps(chunks: seq<Chunk>): seq<WorkflowStep> {
    if chunks == [] then []
    else (if StepOf(chunks[0]).Some? then [StepOf(chunks[0]).value] else []) + ChunkSteps(chunks[1..])
  }

  function ChunkTexts(chunks: seq<Chunk>): seq<string> {
    if chunks == [] then []
    else (if chunks[0].TextChunk? then [chunks[0].text] else []) + ChunkTexts(chunks[1..])
  }

  function ThoughtAfter(c: Chunk, inThought: bool): bool {
    if c.TextChunk? then Filter(c.text, inThought).1 else inThought
  }

  function EventsOf(c: Chunk, inThought: bool): seq<Event> {
    if c.TextChunk? then
      var kept := Filter(c.text, inThought).0;
      if kept != "" then [TextDelta(kept)] else []
    else if StepOf(c).Some? then [StepShown(StepOf(c).value)]
    else []
  }

  /** The events of the chunks in order, up to and including the first error. */
  function Forwarded(chunks: seq<Chunk>, inThought: bool): seq<Event> {
    if chunks == [] then []
    else if chunks[0].ErrorChunk? then [Failure(UPSTREAM_ERROR)]
    else EventsOf(chunks[0], inThought) + Forwarded(chunks[1..], ThoughtAfter(chunks[0], inThought))
  }

  lemma PumpedOne(p: Pump, c: Chunk)
    requires !p.failed && !c.ErrorChunk?
    ensures Pumped(p, c) == Pump(p.sent + EventsOf(c, p.inThought), p.refs + ReferencesOf(c), p.recs + RecommendationsOf(c),
                                 ThoughtAfter(c, p.inThought), false)
  {
  }

  function PumpOn(p: Pump, chunks: seq<Chunk>): Pump
    decreases |chunks|
  {
    if chunks == [] then p else PumpOn(Pumped(p, chunks[0]), chunks[1..])
  }

  lemma {:induction false} PumpOnOneMore(p: Pump, chunks: seq<Chunk>, c: Chunk)
    ensures PumpOn(p, chunks + [c]) == Pumped(PumpOn(p, chunks), c)
    decreases |chunks|
  {
    if chunks == [] {
      assert [] + [c] == [c] && [c][1..] == [];
    } else {
      assert (chunks + [c])[1..] == chunks[1..] + [c];
      PumpOnOneMore(Pumped(p, chunks[0]), chunks[1..], c);
    }
  }

  lemma {:induction false} PumpAllIsPumpOn(chunks: seq<Chunk>)
    ensures PumpAll(chunks) == PumpOn(IDLE, chunks)
  {
    if chunks != [] {
      var n := |chunks| - 1;
      PumpAllIsPumpOn(chunks[..n]);
      PumpOnOneMore(IDLE, chunks[..n], chunks[n]);
      assert chunks == chunks[..n] + [chunks[n]];
    }
  }

  lemma {:induction false} FailedPumpStops(p: Pump, chunks: seq<Chunk>)
    requires p.failed
    ensures PumpOn(p, chunks) == p
  {
    if chunks != [] {
      FailedPumpStops(p, chunks[1..]);
    }
  }

  lemma {:induction false} PumpOnForwards(p: Pump, chunks: seq<Chunk>)
    requires !p.failed
    ensures var q, b := PumpOn(p, chunks), BeforeError(chunks);
            && q.sent == p.sent + Forwarded(chunks, p.inThought)
            && q.refs == p.refs + ChunkReferences(b)
            && q.recs == p.recs + ChunkRecommendations(b)
            && (q.failed <==> ErrorChunk in chunks)
    decreases |chunks|
  {
    if chunks != [] {
      var c, rest := chunks[0], chunks[1..];
      var p' := Pumped(p, c);
      assert ErrorChunk in chunks <==> c.ErrorChunk? || ErrorChunk in rest;
      if c.ErrorChunk? {
        FailedPumpStops(p', rest);
      } else {
        var b := BeforeError(rest);
        PumpedOne(p, c);
        PumpOnForwards(p', rest);
        assert BeforeError(chunks)[1..] == b;
        Assoc(p.sent, EventsOf(c, p.inThought), Forwarded(rest, p'.inThought));
        Assoc(p.refs, ReferencesOf(c), ChunkReferences(b));
        Assoc(p.recs, RecommendationsOf(c), ChunkRecommendations(b));
      }
    }
  }

  /** The text the client gets, and the steps. */
  function SentText(sent: seq<Event>): string {
    if sent == [] then ""
    else (if sent[0].TextDelta? then sent[0].text else "") + SentText(sent[1..])
  }

  function SentSteps(sent: seq<Event>): seq<WorkflowStep> {
    if sent == [] then []
    else (if sent[0].StepShown? then [sent[0].step] else []) + SentSteps(sent[1..])
  }

  lemma SentFirst(e: Event, rest: seq<Event>)
    ensures SentText([e] + rest) == (if e.TextDelta? then e.text + SentText(rest) else SentText(rest))
    ensures SentSteps([e] + rest) == (if e.StepShown? then [e.step] + SentSteps(rest) else SentSteps(rest))
  {
    assert ([e] + rest)[1..] == rest;
    assert "" + SentText(rest) == SentText(rest);
  }

  lemma ChunkFirst(c: Chunk, b: seq<Chunk>)
    ensures ChunkTexts([c] + b) == (if c.TextChunk? then [c.text] + ChunkTexts(b) else ChunkTexts(b))
    ensures ChunkSteps([c] + b) == (if StepOf(c).Some? then [StepOf(c).value] + ChunkSteps(b) else ChunkSteps(b))
  {
    assert ([c] + b)[1..] == b;
  }

  lemma FilterFirst(text: string, texts: seq<string>, inThought: bool)
    ensures FilterChunks([text] + texts, inThought).0
            == Filter(text, inThought).0 + FilterChunks(texts, Filter(text, inThought).1).0
  {
    assert ([text] + texts)[1..] == texts;
  }

  /** What one more chunk in front adds to the text and the steps. */
  lemma OneChunkInFront(c: Chunk, b: seq<Chunk>, inThought: bool, sent: seq<Event>)
    requires SentText(sent) == FilterChunks(ChunkTexts(b), ThoughtAfter(c, inThought)).0
    requires SentSteps(sent) == ChunkSteps(b)
    ensures SentText(EventsOf(c, inThought) + sent) == FilterChunks(ChunkTexts([c] + b), inThought).0
    ensures SentSteps(EventsOf(c, inThought) + sent) == ChunkSteps([c] + b)
  {
    ChunkFirst(c, b);
    Unit(sent);
    if c.TextChunk? {
      FilterFirst(c.text, ChunkTexts(b), inThought);
      SentFirst(TextDelta(Filter(c.text, inThought).0), sent);
      Unit(SentText(sent));
    } else if StepOf(c).Some? {
      SentFirst(StepShown(StepOf(c).value), sent);
    }
  }

  lemma {:induction false} ForwardedTextAndSteps(chunks: seq<Chunk>, inThought: bool)
    ensures var sent, b := Forwarded(chunks, inThought), BeforeError(chunks);
            && SentText(sent) == FilterChunks(ChunkTexts(b), inThought).0
            && SentSteps(sent) == ChunkSteps(b)
    decreases |chunks|
  {
    if chunks == [] {
    } else if chunks[0].ErrorChunk? {
      SentFirst(Failure(UPSTREAM_ERROR), []);
      Unit([Failure(UPSTREAM_ERROR)]);
    } else {
      var c, rest := chunks[0], chunks[1..];
      var next := ThoughtAfter(c, inThought);
      ForwardedTextAndSteps(rest, next);
      OneChunkInFront(c, BeforeError(rest), inThought, Forwarded(rest, next));
    }
  }

  /**
   What the client gets from the chunks comes from those before the first error
   chunk alone, in their order: the events, the text with its thoughts removed,
   the steps, and the references and recommendations of every tool result.
   */
  lemma OnlyChunksBeforeTheErrorCount(chunks: seq<Chunk>)
    ensures var p, b := PumpAll(chunks), BeforeError(chunks);
            && p.sent == Forwarded(chunks, false)
            && SentText(p.sent) == FilterChunks(ChunkTexts(b), false).0
            && SentSteps(p.sent) == ChunkSteps(b)
            && p.refs == ChunkReferences(b)
            && p.recs == ChunkRecommendations(b)
            && (p.failed <==> ErrorChunk in chunks)
  {
    PumpAllIsPumpOn(chunks);
    PumpOnForwards(IDLE, chunks);
    ForwardedTextAndSteps(chunks, false);
    assert [] + Forwarded(chunks, false) == Forwarded(chunks, false);
  }

  /** When no chunk ends in part of a tag, the client's text is the whole text filtered at once. */
  lemma StreamedTextIsTheWholeTextFiltered(chunks: seq<Chunk>)
    requires CleanCuts(ChunkTexts(BeforeError(chunks)), false)
    ensures SentText(PumpAll(chunks).sent) == Filter(Thought.Joined(ChunkTexts(BeforeError(chunks))), false).0
  {
    OnlyChunksBeforeTheErrorCount(chunks);
    ChunksFilterAsWhole(ChunkTexts(BeforeError(chunks)), false);
  }

  lemma {:induction false} ForwardedStopsAtError(chunks: seq<Chunk>, others: seq<Chunk>, inThought: bool)
    requires ErrorChunk in chunks && ErrorChunk in others && BeforeError(chunks) == BeforeError(others)
    ensures Forwarded(chunks, inThought) == Forwarded(others, inThought)
    decreases |chunks|
  {
    if !chunks[0].ErrorChunk? {
      assert chunks == [chunks[0]] + chunks[1..] && others == [others[0]] + others[1..];
      assert BeforeError(chunks)[0] == chunks[0] && !others[0].ErrorChunk?;
      assert BeforeError(chunks)[1..] == BeforeError(chunks[1..]);
      assert BeforeError(others)[1..] == BeforeError(others[1..]);
      var next := ThoughtAfter(chunks[0], inThought);
      ForwardedStopsAtError(chunks[1..], others[1..], next);
    }
  }

  /** After the first error chunk neither the rest of the stream nor how it ends changes anything the client gets. */
  lemma NothingAfterTheErrorCounts(u: Upstream, v: Upstream, listed: Option<seq<MessageResponse>>)
    requires u.Answered? && v.Answered? && ErrorChunk in u.chunks && ErrorChunk in v.chunks
    requires BeforeError(u.chunks) == BeforeError(v.chunks)
    ensures Trace(u, listed) == Trace(v, listed) && OutcomeOf(u, listed) == OutcomeOf(v, listed)
  {
    OnlyChunksBeforeTheErrorCount(u.chunks);
    OnlyChunksBeforeTheErrorCount(v.chunks);
    ForwardedStopsAtError(u.chunks, v.chunks, false);
  }

  /** A stopped stream is no failure: without an error chunk the client gets no error while it streams. */
  lemma StoppedIsNotFailed(runId: Protocol.RunId, chunks: seq<Chunk>, readFailed: bool, messages: seq<MessageResponse>)
    requires ErrorChunk !in chunks
    ensures OutcomeOf(Answered(runId, chunks, readFailed, true), Some(messages)) == Ended
    ensures Failures(Trace(Answered(runId, chunks, readFailed, true), Some(messages))) == 0
  {
    OnlyChunksBeforeTheErrorCount(chunks);
    TurnsSpeakTheLanguage(Answered(runId, chunks, readFailed, true), Some(messages));
  }

  // ----- what the client is told, in terms of the upstream's answer alone -----

  /** A text delta, a step or an error. */
  predicate IsStreamed(e: Event) {
    e.TextDelta? || e.StepShown? || e.Failure?
  }

  lemma {:induction false} ForwardedIsStreamed(chunks: seq<Chunk>, inThought: bool)
    ensures forall e <- Forwarded(chunks, inThought) :: IsStreamed(e) && (e.Failure? ==> e.code == "UPSTREAM_ERROR")
    decreases |chunks|
  {
    if chunks != [] && !chunks[0].ErrorChunk? {
      ForwardedIsStreamed(chunks[1..], ThoughtAfter(chunks[0], inThought));
    }
  }

  /** The references and recommendations a turn collects: of the tool results before the first error chunk. */
  function CollectedReferences(u: Upstream): seq<Reference> {
    if u.Answered? then ChunkReferences(BeforeError(u.chunks)) else []
  }

  function CollectedRecommendations(u: Upstream): seq<string> {
    if u.Answered? then ChunkRecommendations(BeforeError(u.chunks)) else []
  }

  /** The upstream failed the turn, and the code the client is told; None when it did not fail. */
  function UpstreamError(u: Upstream): Option<string> {
    match u
    case NotBuilt => Some("INTERNAL_ERROR")
    case NoResponse(stopped) => if stopped then None else Some("UPSTREAM_ERROR")
    case NoContent => None
    case Refused(code) => Some(code)
    case Answered(_, chunks, readFailed, stopped) =>
      if ErrorChunk in chunks || (readFailed && !stopped) then Some("UPSTREAM_ERROR") else None
  }

  lemma ExchangedIs(u: Upstream)
    ensures var p := Exchanged(u);
            && p.refs == CollectedReferences(u) && p.recs == CollectedRecommendations(u)
            && (p.failed <==> UpstreamError(u).Some?)
            && (forall e <- p.sent :: IsStreamed(e) && (e.Failure? ==> UpstreamError(u) == Some(e.code)))
  {
    if u.Answered? {
      OnlyChunksBeforeTheErrorCount(u.chunks);
      ForwardedIsStreamed(u.chunks, false);
      NoErrorForwarded(u.chunks, false);
    }
  }

  lemma {:induction false} NoErrorForwarded(chunks: seq<Chunk>, inThought: bool)
    ensures ErrorChunk !in chunks ==> forall e <- Forwarded(chunks, inThought) :: !e.Failure?
    decreases |chunks|
  {
    if chunks != [] {
      NoErrorForwarded(chunks[1..], ThoughtAfter(chunks[0], inThought));
    }
  }

  /** A turn's one error: the upstream's, or else that of the list. */
  function TurnError(u: Upstream, listed: Option<seq<MessageResponse>>): Option<string> {
    if UpstreamError(u).Some? then UpstreamError(u)
    else if listed == None then Some("INTERNAL_ERROR") else None
  }

  lemma EndingHas(p: Pump, listed: Option<seq<MessageResponse>>, e: Event)
    ensures e in Ending(p, listed) <==>
            || (p.refs != [] && e == ReferencesFound(p.refs))
            || (p.recs != [] && e == RecommendationsFound(p.recs))
            || (listed.Some? && e == Finish(listed.value))
            || (listed == None && !p.failed && e == Failure("INTERNAL_ERROR"))
            || e == Done
  {
    var refs := if p.refs != [] then [ReferencesFound(p.refs)] else [];
    var recs := if p.recs != [] then [RecommendationsFound(p.recs)] else [];
    var list := match listed
                case Some(messages) => [Finish(messages)]
                case None => if p.failed then [] else [Failure(INTERNAL_ERROR)];
    assert e in list + [Done] <==> e in list || e == Done;
    assert e in recs + (list + [Done]) <==> e in recs || e in list + [Done];
    assert e in refs + (recs + (list + [Done])) <==> e in refs || e in recs + (list + [Done]);
  }

  lemma LastTwo<T>(a: seq<T>, b: seq<T>, c: seq<T>, x: T, y: T)
    ensures var all := a + (b + (c + ([x] + [y]))); all[|all| - 2] == x && all[|all| - 1] == y
  {
  }

  /** Where the list was read, or failed after an unfailed stream, the event before done says so. */
  lemma TurnsEndWithTheList(u: Upstream, listed: Option<seq<MessageResponse>>)
    ensures var trace := Trace(u, listed);
            && |trace| >= 2 && trace[|trace| - 1] == Done
            && (listed.Some? ==> trace[|trace| - 2] == Finish(listed.value))
            && (listed == None && UpstreamError(u) == None ==> trace[|trace| - 2] == Failure("INTERNAL_ERROR"))
  {
    var p := Exchanged(u);
    ExchangedIs(u);
    var refs := if p.refs != [] then [ReferencesFound(p.refs)] else [];
    var recs := if p.recs != [] then [RecommendationsFound(p.recs)] else [];
    if listed.Some? || !p.failed {
      var last := if listed.Some? then Finish(listed.value) else Failure(INTERNAL_ERROR);
      LastTwo([Start] + p.sent, refs, recs, last, Done);
      Assoc([Start], p.sent, refs + (recs + ([last] + [Done])));
      assert Trace(u, listed) == ([Start] + p.sent) + (refs + (recs + ([last] + [Done])));
    }
  }

  lemma TraceHas(u: Upstream, listed: Option<seq<MessageResponse>>, e: Event)
    ensures e in Trace(u, listed) <==> e == Start || e in Exchanged(u).sent || e in Ending(Exchanged(u), listed)
  {
    var p := Exchanged(u);
    assert e in p.sent + Ending(p, listed) <==> e in p.sent || e in Ending(p, listed);
    assert e in [Start] + (p.sent + Ending(p, listed)) <==> e == Start || e in p.sent + Ending(p, listed);
  }

  /**
   A turn carries what was collected and listed: a references event, with all of them,
   exactly when there are any; likewise the recommendations; a finish event exactly
   with the messages listed.  The error events are exactly the turn's one error, if it
   has one.
   */
  lemma TurnsCarryWhatWasFound(u: Upstream, listed: Option<seq<MessageResponse>>, e: Event)
    ensures e.ReferencesFound? ==>
              (e in Trace(u, listed) <==> CollectedReferences(u) != [] && e.refs == CollectedReferences(u))
    ensures e.RecommendationsFound? ==>
              (e in Trace(u, listed) <==> CollectedRecommendations(u) != [] && e.recs == CollectedRecommendations(u))
    ensures e.Finish? ==> (e in Trace(u, listed) <==> listed == Some(e.messages))
    ensures e.Failure? && e in Trace(u, listed) ==> TurnError(u, listed) == Some(e.code)
  {
    ExchangedIs(u);
    TraceHas(u, listed, e);
    EndingHas(Exchanged(u), listed, e);
  }

  /** The caller is told ClientNotified exactly when the turn has an error. */
  lemma OutcomeIsTheError(u: Upstream, listed: Option<seq<MessageResponse>>)
    ensures OutcomeOf(u, listed) == (if TurnError(u, listed).Some? then ClientNotified else Ended)
  {
    ExchangedIs(u);
  }

  /** And the client got that error. */
  lemma TurnErrorsAreSent(u: Upstream, listed: Option<seq<MessageResponse>>)
    requires TurnError(u, listed).Some?
    ensures Failure(TurnError(u, listed).value) in Trace(u, listed)
  {
    TurnsSpeakTheLanguage(u, listed);
    OutcomeIsTheError(u, listed);
    var e := SomeFailure(Trace(u, listed));
    TurnsCarryWhatWasFound(u, listed, e);
  }

  lemma {:induction false} SomeFailure(trace: seq<Event>) returns (e: Event)
    requires Failures(trace) > 0
    ensures e in trace && e.Failure?
  {
    if trace[0].Failure? {
      e := trace[0];
    } else {
      e := SomeFailure(trace[1..]);
    }
  }

  /**
   What a stream of one chunk sends: a step for a named tool that is no workflow, and
   for the start of a workflow step that has a name and a display name; nothing for
   other calls and outputs; one error for an error chunk.
   */
  lemma OneChunkSends(c: Chunk)
    ensures var sent := PumpAll([c]).sent;
            && (c.TextChunk? ==> sent == if Filter(c.text, false).0 == "" then [] else [TextDelta(Filter(c.text, false).0)])
            && (c.ToolCall? ==>
                  sent == if c.name == "" || "workflow-" <= c.name then [] else [StepShown(WorkflowStep(c.callId, c.displayName))])
            && (c.ToolAnswer? || c.OtherChunk? || c == ToolOutput(None) ==> sent == [])
            && (c.ErrorChunk? ==> sent == [Failure("UPSTREAM_ERROR")])
    ensures var sent := PumpAll([c]).sent;
            c.ToolOutput? && c.output.Some? ==>
              match c.output.value
              case WorkflowEvent(kind, Some(StepStart(stepName, id, displayName))) =>
                sent == (if kind == "workflow-step-start" && stepName != "" && displayName != ""
                         then [StepShown(WorkflowStep(id, displayName))] else [])
              case WorkflowEvent(_, None) => sent == []
  {
    assert [c][..0] == [];
    assert PumpAll([c]) == Pumped(IDLE, c);
  }
}
