/**
 Message contents: what the owner's list shows of a stored message, and the plain
 text a shared page shows of it.
 */
module Content {
  import opened Sequences
  import opened Wrappers
  import opened Tables
  import opened References
  import Cursor

  datatype MessageResponse = MessageResponse(
    id: Id, role: Role, content: string, imageUrls: seq<string>, feedback: Option<string>,
    steps: seq<WorkflowStep>, references: seq<Reference>, hasResults: Option<bool>,
    recommendations: seq<string>, endedStatus: Option<RunStatus>)

  datatype SharedMessage = SharedMessage(
    id: Id, role: Role, content: string, createdAt: Cursor.Time, endedStatus: Option<RunStatus>)

  /** A content that does not parse, or has no format, is shown as it is stored. */
  predicate IsV2(c: Tables.Content) {
    c.parsed.Some? && c.parsed.value.format != 0
  }

  function JoinLines(lines: seq<string>): string {
    if lines == [] then ""
    else if |lines| == 1 then lines[0]
    else lines[0] + "\n" + JoinLines(lines[1..])
  }

  /** The non-empty text parts, in order. */
  function Texts(parts: seq<Part>): seq<string> {
    if parts == [] then []
    else if parts[0].Text? && parts[0].text != "" then [parts[0].text] + Texts(parts[1..])
    else Texts(parts[1..])
  }

  function TextContent(c: Tables.Content): string {
    if IsV2(c) then JoinLines(Texts(c.parsed.value.parts)) else c.raw
  }

  // ----- the accumulated reading of a message's parts -----

  datatype Reading = Reading(
    texts: seq<string>, images: seq<string>, steps: seq<WorkflowStep>,
    refs: seq<Reference>, recs: seq<string>, hasResults: Option<bool>)

  const NOTHING_READ := Reading([], [], [], [], [], None)

  predicate Finished(t: Tool) {
    t.state == "result" && t.result.Some?
  }

  function StepsOf(t: Tool): seq<WorkflowStep> {
    if "workflow-" <= t.name then t.innerSteps
    else if t.name != "" then [WorkflowStep(t.callId, t.displayName)]
    else []
  }

  function Absorbed(r: Reading, p: Part): Reading {
    match p
    case Text(text) => if text != "" then r.(texts := r.texts + [text]) else r
    case File(data) => if data != "" then r.(images := r.images + [data]) else r
    case OtherPart => r
    case ToolInvocation(None) => r
    case ToolInvocation(Some(t)) =>
      if !Finished(t) then r
      else r.(steps := r.steps + StepsOf(t),
              refs := r.refs + ExtractedReferences(t.result),
              recs := r.recs + ExtractedRecommendations(t.result),
              hasResults := if r.hasResults.None? then ExtractedHasResults(t.result) else r.hasResults)
  }

  function ReadParts(parts: seq<Part>): Reading {
    if parts == [] then NOTHING_READ
    else Absorbed(ReadParts(parts[..|parts| - 1]), parts[|parts| - 1])
  }

  /** Feedback defaults to "none" on assistant messages only. */
  function ShownFeedback(row: Row): Option<string> {
    if row.role.Assistant? && row.feedback.None? then Some("none") else row.feedback
  }

  function Parsed(row: Row): MessageResponse {
    var r := if IsV2(row.content) then ReadParts(row.content.parsed.value.parts) else NOTHING_READ;
    var content := if IsV2(row.content) then JoinLines(r.texts) else row.content.raw;
    MessageResponse(row.id, row.role, content, r.images, ShownFeedback(row),
                    r.steps, r.refs, r.hasResults, r.recs, row.endedStatus)
  }

  method ParseMessage(row: Row) returns (msg: MessageResponse)
    ensures msg == Parsed(row)
  {
    var feedback := row.feedback;
    if row.role.Assistant? && feedback.None? {
      feedback := Some("none");
    }
    msg := MessageResponse(row.id, row.role, "", [], feedback, [], [], None, [], row.endedStatus);
    if row.content.parsed.None? || row.content.parsed.value.format == 0 {
      msg := msg.(content := row.content.raw);
      return;
    }
    var parts := row.content.parsed.value.parts;
    var textParts, imageUrls, recs: seq<string> := [], [], [];
    var steps: seq<WorkflowStep> := [];
    var refs: seq<Reference> := [];
    var hasResults: Option<bool> := None;
    for i := 0 to |parts|
      invariant Reading(textParts, imageUrls, steps, refs, recs, hasResults) == ReadParts(parts[..i])
    {
      assert parts[..i + 1][..i] == parts[..i];
      match parts[i] {
        case Text(text) =>
          if text != "" {
            textParts := textParts + [text];
          }
        case File(data) =>
          if data != "" {
            imageUrls := imageUrls + [data];
          }
        case ToolInvocation(tool) =>
          if tool.Some? && tool.value.state == "result" && tool.value.result.Some? {
            var t := tool.value;
            if "workflow-" <= t.name {
              steps := steps + t.innerSteps;
            } else if t.name != "" {
              steps := steps + [WorkflowStep(t.callId, t.displayName)];
            }
            var extracted := ExtractReferences(t.result);
            refs := refs + extracted;
            recs := recs + ExtractedRecommendations(t.result);
            if hasResults.None? {
              hasResults := ExtractedHasResults(t.result);
            }
          }
        case OtherPart =>
      }
    }
    assert parts[..|parts|] == parts;
    msg := msg.(content := JoinLines(textParts), imageUrls := imageUrls, steps := steps,
                references := refs, recommendations := recs, hasResults := hasResults);
  }

  method ExtractTextContent(c: Tables.Content) returns (text: string)
    ensures text == TextContent(c)
  {
    if c.parsed.None? || c.parsed.value.format == 0 {
      return c.raw;
    }
    var parts := c.parsed.value.parts;
    var texts: seq<string> := [];
    for i := 0 to |parts|
      invariant texts + Texts(parts[i..]) == Texts(parts)
    {
      assert parts[i..][1..] == parts[i + 1..];
      if parts[i].Text? && parts[i].text != "" {
        texts := texts + [parts[i].text];
      }
    }
    assert parts[|parts|..] == [] && texts + [] == texts;
    text := JoinLines(texts);
  }

  // ----- what the reading of a message amounts to -----

  function FlatMap<A, B>(f: A -> seq<B>, xs: seq<A>): seq<B> {
    if xs == [] then [] else f(xs[0]) + FlatMap(f, xs[1..])
  }

  lemma {:induction false} FlatMapOneMore<A, B>(f: A -> seq<B>, xs: seq<A>, x: A)
    ensures FlatMap(f, xs + [x]) == FlatMap(f, xs) + f(x)
  {
    if xs == [] {
      assert [] + [x] == [x] && [x][1..] == [];
    } else {
      FlatMapOneMore(f, xs[1..], x);
      assert (xs + [x])[1..] == xs[1..] + [x];
    }
  }

  lemma FlatMapOne<A, B>(f: A -> seq<B>, x: A)
    ensures FlatMap(f, [x]) == f(x)
  {
    FlatMapOneMore(f, [], x);
    assert [] + [x] == [x] && [] + f(x) == f(x);
  }

  /** The text of a part, if it has any. */
  function TextOf(p: Part): seq<string> {
    if p.Text? && p.text != "" then [p.text] else []
  }

  function ImageOf(p: Part): seq<string> {
    if p.File? && p.data != "" then [p.data] else []
  }

  function FinishedTool(p: Part): seq<Tool> {
    if p.ToolInvocation? && p.tool.Some? && Finished(p.tool.value) then [p.tool.value] else []
  }

  function ToolReferences(t: Tool): seq<Reference> {
    ExtractedReferences(t.result)
  }

  function ToolRecommendations(t: Tool): seq<string> {
    ExtractedRecommendations(t.result)
  }

  /** The first tool that says whether it found anything. */
  function FirstHasResults(tools: seq<Tool>): Option<bool> {
    if tools == [] then None
    else if ExtractedHasResults(tools[0].result).Some? then ExtractedHasResults(tools[0].result)
    else FirstHasResults(tools[1..])
  }

  lemma {:induction false} FirstHasResultsOneMore(tools: seq<Tool>, t: Tool)
    ensures FirstHasResults(tools + [t]) ==
            if FirstHasResults(tools).Some? then FirstHasResults(tools) else ExtractedHasResults(t.result)
  {
    if tools == [] {
      assert [] + [t] == [t] && [t][1..] == [];
    } else {
      FirstHasResultsOneMore(tools[1..], t);
      assert (tools + [t])[1..] == tools[1..] + [t];
    }
  }

  function ToolsOf(parts: seq<Part>): seq<Tool> {
    FlatMap(FinishedTool, parts)
  }

  lemma OneMoreTool(tools: seq<Tool>, t: Tool)
    ensures FlatMap(StepsOf, tools + [t]) == FlatMap(StepsOf, tools) + StepsOf(t)
    ensures FlatMap(ToolReferences, tools + [t]) == FlatMap(ToolReferences, tools) + ExtractedReferences(t.result)
    ensures FlatMap(ToolRecommendations, tools + [t]) == FlatMap(ToolRecommendations, tools) + ExtractedRecommendations(t.result)
  {
    FlatMapOneMore(StepsOf, tools, t);
    FlatMapOneMore(ToolReferences, tools, t);
    FlatMapOneMore(ToolRecommendations, tools, t);
  }

  /** The reading holds, in order, the texts and images of the parts and what their finished tools hold. */
  predicate IsReadingOf(r: Reading, texts: seq<string>, images: seq<string>, tools: seq<Tool>) {
    r == Reading(texts, images, FlatMap(StepsOf, tools), FlatMap(ToolReferences, tools),
                 FlatMap(ToolRecommendations, tools), FirstHasResults(tools))
  }

  lemma OneMorePart(r: Reading, texts: seq<string>, images: seq<string>, tools: seq<Tool>, p: Part)
    requires IsReadingOf(r, texts, images, tools)
    ensures IsReadingOf(Absorbed(r, p), texts + TextOf(p), images + ImageOf(p), tools + FinishedTool(p))
  {
    Unit(texts);
    Unit(images);
    Unit(tools);
    if FinishedTool(p) != [] {
      OneMoreTool(tools, p.tool.value);
      FirstHasResultsOneMore(tools, p.tool.value);
    }
  }

  /**
   The owner sees a message's parts in their order: its texts and images, and of
   its finished tools the steps, references and recommendations, and the first
   tool's word on whether there were results.
   */
  lemma {:induction false} PartsAreReadInOrder(parts: seq<Part>)
    ensures IsReadingOf(ReadParts(parts), FlatMap(TextOf, parts), FlatMap(ImageOf, parts), ToolsOf(parts))
  {
    if parts != [] {
      var n := |parts| - 1;
      var before, p := parts[..n], parts[n];
      assert parts == before + [p];
      PartsAreReadInOrder(before);
      FlatMapOneMore(TextOf, before, p);
      FlatMapOneMore(ImageOf, before, p);
      FlatMapOneMore(FinishedTool, before, p);
      OneMorePart(ReadParts(before), FlatMap(TextOf, before), FlatMap(ImageOf, before), ToolsOf(before), p);
    }
  }

  lemma {:induction false} TextsAreInOrder(parts: seq<Part>)
    ensures Texts(parts) == FlatMap(TextOf, parts)
  {
    if parts != [] {
      TextsAreInOrder(parts[1..]);
    }
  }

  /** Joining puts one line break between any two neighbours, and nothing else. */
  lemma {:induction false} JoinLinesJoin(a: seq<string>, b: seq<string>)
    requires a != [] && b != []
    ensures JoinLines(a + b) == JoinLines(a) + ("\n" + JoinLines(b))
    ensures |a| == 1 ==> JoinLines(a) == a[0]
  {
    assert (a + b)[0] == a[0] && (a + b)[1..] == a[1..] + b;
    if |a| > 1 {
      JoinLinesJoin(a[1..], b);
      Assoc(a[0] + "\n", JoinLines(a[1..]), "\n" + JoinLines(b));
    } else {
      assert a[1..] + b == b;
      Assoc(a[0], "\n", JoinLines(b));
    }
  }

  /**
   The owner's response, field by field: of a parsed content with a format, what its
   parts and finished tools hold, in order; of any other, the raw text alone.  Feedback
   is the row's own, or "none" for an assistant message that has none.
   */
  lemma ResponseIsTheRow(row: Row)
    ensures var m := Parsed(row);
            && m.id == row.id && m.role == row.role && m.endedStatus == row.endedStatus
            && m.feedback == (if row.feedback == None && row.role == Assistant then Some("none") else row.feedback)
    ensures var m := Parsed(row);
            if row.content.parsed.Some? && row.content.parsed.value.format != 0 then
              var parts := row.content.parsed.value.parts;
              var tools := ToolsOf(parts);
              && m.content == JoinLines(FlatMap(TextOf, parts))
              && m.imageUrls == FlatMap(ImageOf, parts)
              && m.steps == FlatMap(StepsOf, tools)
              && m.references == FlatMap(ToolReferences, tools)
              && m.recommendations == FlatMap(ToolRecommendations, tools)
              && m.hasResults == FirstHasResults(tools)
            else
              && m.content == row.content.raw
              && m.imageUrls == [] && m.steps == [] && m.references == [] && m.recommendations == []
              && m.hasResults == None
  {
    if IsV2(row.content) {
      PartsAreReadInOrder(row.content.parsed.value.parts);
    }
  }

  /**
   What a single tool contributes: nothing unless it is in state "result" with a
   result; then a workflow's inner steps, or one step for any other named tool.
   */
  lemma OneToolMessage(row: Row, format: int, t: Tool)
    requires row.content.parsed == Some(V2(format, [ToolInvocation(Some(t))])) && format != 0
    ensures var m := Parsed(row);
            && m.content == "" && m.imageUrls == []
            && (t.state != "result" || t.result == None ==>
                  m.steps == [] && m.references == [] && m.recommendations == [] && m.hasResults == None)
            && (t.state == "result" && t.result.Some? ==>
                  && m.references == ExtractedReferences(t.result)
                  && m.recommendations == ExtractedRecommendations(t.result)
                  && m.hasResults == ExtractedHasResults(t.result)
                  && ("workflow-" <= t.name ==> m.steps == t.innerSteps)
                  && (!("workflow-" <= t.name) && t.name != "" ==> m.steps == [WorkflowStep(t.callId, t.displayName)])
                  && (t.name == "" ==> m.steps == []))
  {
    var p := ToolInvocation(Some(t));
    ResponseIsTheRow(row);
    FlatMapOne(TextOf, p);
    FlatMapOne(ImageOf, p);
    FlatMapOne(FinishedTool, p);
    if Finished(t) {
      FlatMapOne(StepsOf, t);
      FlatMapOne(ToolReferences, t);
      FlatMapOne(ToolRecommendations, t);
      assert [t][1..] == [];
    }
  }

  /** The owner's list and the shared page show the same text of every row. */
  lemma ReadersShowTheSameText(row: Row)
    ensures Parsed(row).content == TextContent(row.content)
  {
    if IsV2(row.content) {
      PartsAreReadInOrder(row.content.parsed.value.parts);
      TextsAreInOrder(row.content.parsed.value.parts);
    }
  }
}
