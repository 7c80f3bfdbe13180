/**
 * The response assembler: the socket's 'message' handler, given the event
 * already parsed. Transcript fragments accumulate in the transcription,
 * reply deltas in the message buffer, and `response.done` resolves the
 * reply, pairs it with the transcription into a turn, and resets.
 */
module Assembler {
  import opened Wrappers
  import opened JsText
  import opened Messages
  import opened Recorder

  /** A content part of a `response.done` output item: `{ type, text }`. */
  datatype ContentPart = ContentPart(partType: string, text: Option<string>)

  /** An item of `response.output`: `{ type, content }`. */
  datatype OutputItem = OutputItem(itemType: string, content: Option<seq<ContentPart>>)

  /**
   * A parsed server event. `ResponseDone(None)` stands for a missing
   * `response` or `response.output`; an absent or non-string text field is
   * `None`.
   */
  datatype ServerEvent =
    | SessionCreated
    | SessionUpdated
    | SpeechStarted
    | SpeechStopped
    | TranscriptionCompleted(transcript: Option<string>)
    | ResponseCreated
    | OutputTextDelta(delta: Option<string>)
    | OutputTextDone
    | ResponseDone(output: Option<seq<OutputItem>>)
    | ErrorEvent(message: Option<string>)
    | OtherEvent(eventType: string)

  /** `contentPart.type === 'text' && contentPart.text`. */
  predicate IsTextPart(p: ContentPart) {
    p.partType == "text" && Truthy(p.text)
  }

  /** `outputItem.type === 'message' && outputItem.content` (an array is always truthy). */
  predicate IsMessage(item: OutputItem) {
    item.itemType == "message" && item.content.Some?
  }

  /** The texts the structured output carries, in the order the loops visit them. */
  function PartTexts(parts: seq<ContentPart>): seq<string>
  {
    if parts == [] then []
    else (if IsTextPart(parts[0]) then [parts[0].text.value] else []) + PartTexts(parts[1..])
  }

  function ItemTexts(items: seq<OutputItem>): seq<string>
  {
    if items == [] then []
    else (if IsMessage(items[0]) then PartTexts(items[0].content.value) else []) + ItemTexts(items[1..])
  }

  /** The last of `texts`, or `fallback` when there is none. */
  function LastOr(texts: seq<string>, fallback: string): string {
    if texts == [] then fallback else texts[|texts| - 1]
  }

  /** One 'update-response' notification per text. */
  function Updates(texts: seq<string>): (notices: seq<Notice>)
    ensures |notices| == |texts|
    ensures forall i :: 0 <= i < |texts| ==> notices[i] == UpdateResponse(texts[i])
  {
    seq(|texts|, i requires 0 <= i < |texts| => UpdateResponse(texts[i]))
  }

  /** The message buffer after the output loops, and what they sent. */
  datatype Scanned = Scanned(buffer: string, notices: seq<Notice>)

  /** The inner loop over content parts: each text part overwrites the buffer and is sent. */
  function ScanParts(buffer: string, parts: seq<ContentPart>): Scanned
    decreases |parts|
  {
    if parts == [] then Scanned(buffer, [])
    else if IsTextPart(parts[0]) then
      var rest := ScanParts(parts[0].text.value, parts[1..]);
      Scanned(rest.buffer, [UpdateResponse(parts[0].text.value)] + rest.notices)
    else ScanParts(buffer, parts[1..])
  }

  /** The outer loop over output items. */
  function ScanItems(buffer: string, items: seq<OutputItem>): Scanned
    decreases |items|
  {
    if items == [] then Scanned(buffer, [])
    else
      var first := if IsMessage(items[0]) then ScanParts(buffer, items[0].content.value) else Scanned(buffer, []);
      var rest := ScanItems(first.buffer, items[1..]);
      Scanned(rest.buffer, first.notices + rest.notices)
  }

  lemma {:induction false} LastOrAppend(a: seq<string>, b: seq<string>, fallback: string)
    ensures LastOr(a + b, fallback) == LastOr(b, LastOr(a, fallback))
  {
    if b == [] { assert a + b == a; }
  }

  /**
   * The part loop leaves the last text part in the buffer (the buffer as it
   * was when there is none) and sends each text part once, in order.
   */
  lemma {:induction false} ScanPartsSpec(buffer: string, parts: seq<ContentPart>)
    ensures ScanParts(buffer, parts) == Scanned(LastOr(PartTexts(parts), buffer), Updates(PartTexts(parts)))
    decreases |parts|
  {
    if parts != [] {
      var head := if IsTextPart(parts[0]) then [parts[0].text.value] else [];
      var next := if IsTextPart(parts[0]) then parts[0].text.value else buffer;
      ScanPartsSpec(next, parts[1..]);
      LastOrAppend(head, PartTexts(parts[1..]), buffer);
      assert Updates(head + PartTexts(parts[1..])) == Updates(head) + Updates(PartTexts(parts[1..]));
    }
  }

  lemma UpdatesAppend(a: seq<string>, b: seq<string>)
    ensures Updates(a + b) == Updates(a) + Updates(b)
  {
  }

  /** The same for the item loop: last text part wins, one update per text part. */
  lemma {:induction false} ScanItemsSpec(buffer: string, items: seq<OutputItem>)
    ensures ScanItems(buffer, items) == Scanned(LastOr(ItemTexts(items), buffer), Updates(ItemTexts(items)))
    decreases |items|
  {
    if items != [] {
      var head := if IsMessage(items[0]) then PartTexts(items[0].content.value) else [];
      var tail := ItemTexts(items[1..]);
      var first := if IsMessage(items[0]) then ScanParts(buffer, items[0].content.value) else Scanned(buffer, []);
      assert first == Scanned(LastOr(head, buffer), Updates(head)) by {
        if IsMessage(items[0]) {
          ScanPartsSpec(buffer, items[0].content.value);
        }
      }
      var rest := ScanItems(first.buffer, items[1..]);
      ScanItemsSpec(first.buffer, items[1..]);
      assert ScanItems(buffer, items) == Scanned(rest.buffer, first.notices + rest.notices);
      assert ItemTexts(items) == head + tail;
      LastOrAppend(head, tail, buffer);
      UpdatesAppend(head, tail);
    }
  }

  /** The new state and the renderer notifications of one event, in order. */
  datatype Stepped = Stepped(conv: Conversation, notices: seq<Notice>)

  const ListeningStatus: string := "Listening..."

  /** The reply text `response.done` settles on before deciding whether to save a turn. */
  function ResolvedReply(c: Conversation, output: Option<seq<OutputItem>>): string {
    if output.Some? then LastOr(ItemTexts(output.value), c.buffer) else c.buffer
  }

  /** The output loops of `response.done`, skipped when `output` is absent. */
  function ScanOutput(c: Conversation, output: Option<seq<OutputItem>>): Scanned {
    if output.Some? then ScanItems(c.buffer, output.value) else Scanned(c.buffer, [])
  }

  /** The 'update-response' notifications of `response.done`: the loops', then the buffer fallback. */
  function ShownReplies(c: Conversation, output: Option<seq<OutputItem>>): seq<Notice> {
    var scanned := ScanOutput(c, output);
    scanned.notices + (if scanned.buffer != [] && output.None? then [UpdateResponse(scanned.buffer)] else [])
  }

  const Closing: seq<Notice> := [ResponseComplete, UpdateStatus(ListeningStatus)]

  /** After the reply is settled: pair it with the transcription into a turn, then reset. */
  function Settle(c: Conversation, reply: string, now: int, freshId: SessionId): Stepped {
    if c.transcription != [] && reply != [] then
      var saved := SaveConversationTurn(c, c.transcription, reply, now, freshId);
      Stepped(saved.conv.(transcription := [], buffer := []), [saved.notice] + Closing)
    else
      Stepped(c.(buffer := []), Closing)
  }

  /** The `response.done` branch. */
  function FinishResponse(c: Conversation, output: Option<seq<OutputItem>>,
                          now: int, freshId: SessionId): Stepped
  {
    var settled := Settle(c, ScanOutput(c, output).buffer, now, freshId);
    Stepped(settled.conv, ShownReplies(c, output) + settled.notices)
  }

  /**
   * The 'message' handler on one parsed event. `now` and `freshId` stand
   * for `Date.now()`, used only when a turn is saved. The turn log is
   * append-only: it gains at most one turn at the end per event.
   */
  function Step(c: Conversation, ev: ServerEvent, now: int, freshId: SessionId): (r: Stepped)
    ensures Valid(c) ==> Valid(r.conv)
    ensures Valid(c) ==> |c.history| <= |r.conv.history| <= |c.history| + 1
    ensures Valid(c) ==> r.conv.history[..|c.history|] == c.history
  {
    match ev
    case TranscriptionCompleted(t) =>
      if Truthy(t) then Stepped(c.(transcription := c.transcription + t.value + " "), [])
      else Stepped(c, [])
    case ResponseCreated =>
      Stepped(c.(buffer := []), [])
    case OutputTextDelta(d) =>
      if Truthy(d) then Stepped(c.(buffer := c.buffer + d.value), [])
      else Stepped(c, [])
    case OutputTextDone =>
      Stepped(c, [UpdateResponse(c.buffer)])
    case ResponseDone(output) =>
      FinishResponse(c, output, now, freshId)
    case ErrorEvent(m) =>
      Stepped(c, [UpdateStatus("Error: " + (if Truthy(m) then m.value else "Unknown error"))])
    case _ =>
      Stepped(c, [])
  }

  /** The events of one socket, handled in arrival order; the notifications concatenated. */
  function Run(c: Conversation, events: seq<ServerEvent>, now: int, freshId: SessionId): Stepped
    decreases |events|
  {
    if events == [] then Stepped(c, [])
    else
      var first := Step(c, events[0], now, freshId);
      var rest := Run(first.conv, events[1..], now, freshId);
      Stepped(rest.conv, first.notices + rest.notices)
  }

  /** A non-empty transcript fragment is appended with a trailing space; anything else changes nothing. */
  lemma TranscriptionStep(c: Conversation, t: Option<string>, now: int, freshId: SessionId)
    ensures var r := Step(c, TranscriptionCompleted(t), now, freshId);
            && r.notices == []
            && r.conv.buffer == c.buffer && r.conv.history == c.history && r.conv.sessionId == c.sessionId
            && r.conv.transcription == (if Truthy(t) then c.transcription + t.value + " " else c.transcription)
  {
  }

  /** `response.created` empties the reply buffer and nothing else. */
  lemma ResponseCreatedStep(c: Conversation, now: int, freshId: SessionId)
    ensures Step(c, ResponseCreated, now, freshId) == Stepped(c.(buffer := []), [])
  {
  }

  /** A delta is buffered silently: appended when non-empty, never shown to the renderer. */
  lemma DeltaStep(c: Conversation, d: Option<string>, now: int, freshId: SessionId)
    ensures var r := Step(c, OutputTextDelta(d), now, freshId);
            && r.notices == []
            && r.conv == c.(buffer := if Truthy(d) then c.buffer + d.value else c.buffer)
  {
  }

  /** `response.output_text.done` shows the buffered reply once and changes nothing. */
  lemma TextDoneStep(c: Conversation, now: int, freshId: SessionId)
    ensures Step(c, OutputTextDone, now, freshId) == Stepped(c, [UpdateResponse(c.buffer)])
  {
  }

  /** An error event only reports its message, or 'Unknown error' when it has none. */
  lemma ErrorStep(c: Conversation, m: Option<string>, now: int, freshId: SessionId)
    ensures var r := Step(c, ErrorEvent(m), now, freshId);
            && r.conv == c
            && r.notices == [UpdateStatus("Error: " + (if Truthy(m) then m.value else "Unknown error"))]
  {
  }

  /** Session and speech events, and kinds the handler does not know, are ignored. */
  lemma IgnoredEvents(c: Conversation, ev: ServerEvent, now: int, freshId: SessionId)
    requires ev.SessionCreated? || ev.SessionUpdated? || ev.SpeechStarted? || ev.SpeechStopped? || ev.OtherEvent?
    ensures Step(c, ev, now, freshId) == Stepped(c, [])
  {
  }

  /** The events a stream of reply deltas arrives as. */
  function DeltaEvents(deltas: seq<string>): (events: seq<ServerEvent>)
    ensures |events| == |deltas|
    ensures forall i :: 0 <= i < |deltas| ==> events[i] == OutputTextDelta(Some(deltas[i]))
  {
    seq(|deltas|, i requires 0 <= i < |deltas| => OutputTextDelta(Some(deltas[i])))
  }

  function Concat(parts: seq<string>): string
  {
    if parts == [] then [] else parts[0] + Concat(parts[1..])
  }

  /**
   * A run of deltas leaves their concatenation at the end of the buffer and
   * shows nothing; the rest of the state is untouched.
   */
  lemma {:induction false} DeltasAccumulate(c: Conversation, deltas: seq<string>, now: int, freshId: SessionId)
    ensures Run(c, DeltaEvents(deltas), now, freshId) == Stepped(c.(buffer := c.buffer + Concat(deltas)), [])
    decreases |deltas|
  {
    if deltas != [] {
      var events := DeltaEvents(deltas);
      var next := c.(buffer := c.buffer + deltas[0]);
      assert Step(c, events[0], now, freshId).conv == next;
      assert events[1..] == DeltaEvents(deltas[1..]);
      DeltasAccumulate(next, deltas[1..], now, freshId);
      assert next.buffer + Concat(deltas[1..]) == c.buffer + Concat(deltas);
    }
  }

  /** The text parts a `response.done` carries; none when `output` is absent. */
  function OutputTexts(output: Option<seq<OutputItem>>): seq<string> {
    if output.Some? then ItemTexts(output.value) else []
  }

  /** The output loops settle on the resolved reply and show each text part once. */
  lemma ScanOutputSpec(c: Conversation, output: Option<seq<OutputItem>>)
    ensures ScanOutput(c, output) == Scanned(ResolvedReply(c, output), Updates(OutputTexts(output)))
  {
    if output.Some? {
      ScanItemsSpec(c.buffer, output.value);
    }
  }

  /**
   * How `response.done` settles the reply: each text part of the structured
   * output is shown once, in order, and the last one becomes the reply; with
   * no `output` at all, a non-empty buffer is shown once as the reply; with an
   * `output` that has no text part, the delta buffer stays the reply and
   * nothing is shown.
   */
  lemma ResponseDoneResolves(c: Conversation, output: Option<seq<OutputItem>>, now: int, freshId: SessionId)
    ensures var r := Step(c, ResponseDone(output), now, freshId);
            var texts := OutputTexts(output);
            var shown := if output.None? && c.buffer != [] then 1 else 0;
            && |r.notices| >= |texts| + shown
            && r.notices[..|texts|] == Updates(texts)
            && (shown == 1 ==> r.notices[|texts|] == UpdateResponse(c.buffer))
            && ResolvedReply(c, output) == (if texts != [] then texts[|texts| - 1] else c.buffer)
            && forall i :: |texts| + shown <= i < |r.notices| ==> !r.notices[i].UpdateResponse?
  {
    var texts := OutputTexts(output);
    var shownList := ShownReplies(c, output);
    var extra := if output.None? && c.buffer != [] then [UpdateResponse(c.buffer)] else [];
    assert shownList == Updates(texts) + extra by {
      ScanOutputSpec(c, output);
    }
    var settled := Settle(c, ScanOutput(c, output).buffer, now, freshId);
    SettleShowsNothing(c, ScanOutput(c, output).buffer, now, freshId);
    StepDone(c, output, now, freshId);
    var notices := Step(c, ResponseDone(output), now, freshId).notices;
    assert notices == (Updates(texts) + extra) + settled.notices;
    assert notices[..|texts|] == Updates(texts);
    forall i | |texts| + |extra| <= i < |notices|
      ensures !notices[i].UpdateResponse?
    {
      assert notices[i] == settled.notices[i - |texts| - |extra|];
    }
  }

  /** Settling never shows a reply. */
  lemma SettleShowsNothing(c: Conversation, reply: string, now: int, freshId: SessionId)
    ensures var r := Settle(c, reply, now, freshId);
            forall i :: 0 <= i < |r.notices| ==> !r.notices[i].UpdateResponse?
  {
    var r := Settle(c, reply, now, freshId);
    if c.transcription != [] && reply != [] {
      var saved := SaveConversationTurn(c, c.transcription, reply, now, freshId);
      assert r.notices == [saved.notice, ResponseComplete, UpdateStatus(ListeningStatus)];
    } else {
      assert r.notices == [ResponseComplete, UpdateStatus(ListeningStatus)];
    }
  }

  /**
   * Pairing a settled reply with the transcription: a turn is saved exactly
   * when both are non-empty (the check sees the untrimmed strings, the saved
   * turn holds them trimmed); only then is the transcription cleared; the
   * buffer always ends empty; and it always ends with one 'response-complete'
   * and one 'Listening...' status, after at most one save notification.
   */
  lemma SettleSpec(c: Conversation, reply: string, now: int, freshId: SessionId)
    requires Valid(c)
    ensures var r := Settle(c, reply, now, freshId);
            var turn := Turn(now, Trim(c.transcription), Trim(reply));
            && r.conv.buffer == []
            && Valid(r.conv)
            && (c.transcription != [] && reply != [] ==>
                  && r.conv.history == c.history + [turn]
                  && r.conv.transcription == []
                  && r.notices == [SaveTurn(r.conv.sessionId.value, turn, r.conv.history)] + Closing)
            && (c.transcription == [] || reply == [] ==>
                  && r.conv == c.(buffer := [])
                  && r.notices == Closing)
  {
  }

  /**
   * `response.done` end to end: after the replies it shows, it saves a turn
   * exactly when the transcription and the resolved reply are both non-empty,
   * clears the transcription only then, always empties the buffer, and ends
   * with exactly one 'response-complete' and one 'Listening...' status.
   */
  lemma ResponseDoneFinishes(c: Conversation, output: Option<seq<OutputItem>>, now: int, freshId: SessionId)
    requires Valid(c)
    ensures var r := Step(c, ResponseDone(output), now, freshId);
            var reply := ResolvedReply(c, output);
            var turn := Turn(now, Trim(c.transcription), Trim(reply));
            var shown := ShownReplies(c, output);
            && r.conv.buffer == []
            && (c.transcription != [] && reply != [] ==>
                  && r.conv.history == c.history + [turn]
                  && r.conv.transcription == []
                  && r.notices == shown + [SaveTurn(r.conv.sessionId.value, turn, r.conv.history)] + Closing)
            && (c.transcription == [] || reply == [] ==>
                  && r.conv == c.(buffer := [])
                  && r.notices == shown + Closing)
            && forall i :: 0 <= i < |shown| ==> shown[i].UpdateResponse?
  {
    var shown := ShownReplies(c, output);
    var settled := Settle(c, ResolvedReply(c, output), now, freshId);
    assert Step(c, ResponseDone(output), now, freshId) == Stepped(settled.conv, shown + settled.notices) by {
      ScanOutputSpec(c, output);
      StepDone(c, output, now, freshId);
    }
    SettleSpec(c, ResolvedReply(c, output), now, freshId);
    var extra := if output.None? && c.buffer != [] then [UpdateResponse(c.buffer)] else [];
    assert shown == Updates(OutputTexts(output)) + extra by {
      ScanOutputSpec(c, output);
    }
    var reply := ResolvedReply(c, output);
    if c.transcription != [] && reply != [] {
      assert shown + settled.notices == shown + [settled.notices[0]] + Closing;
    }
  }

  /**
   * The end-to-end exchange: transcript "hello", deltas "Hi" and " there",
   * then `response.done` without structured output, records the turn
   * ("hello", "Hi there") and leaves both accumulators empty.
   */
  lemma HelloScenario(id: SessionId, now: int)
    ensures var c := Conversation(Some(id), [], [], []);
            var events := [TranscriptionCompleted(Some("hello")), ResponseCreated,
                           OutputTextDelta(Some("Hi")), OutputTextDelta(Some(" there")), ResponseDone(None)];
            var r := Run(c, events, now, id);
            && r.conv == Conversation(Some(id), [], [], [Turn(now, "hello", "Hi there")])
            && r.notices == [UpdateResponse("Hi there"), SaveTurn(id, Turn(now, "hello", "Hi there"), [Turn(now, "hello", "Hi there")]),
                             ResponseComplete, UpdateStatus(ListeningStatus)]
  {
    var c := Conversation(Some(id), [], [], []);
    var c1 := c.(transcription := "hello ");
    var c2 := c1.(buffer := "Hi");
    var c3 := c1.(buffer := "Hi there");
    var turn := Turn(now, "hello", "Hi there");
    var last := [ResponseDone(None)];
    HelloFinish(id, now);
    RunOne(c3, last, now, id);
    HelloQuietSteps(id, now);
    RunQuiet(c2, c3, OutputTextDelta(Some(" there")), last, now, id);
    RunQuiet(c1, c2, OutputTextDelta(Some("Hi")), [OutputTextDelta(Some(" there"))] + last, now, id);
    RunQuiet(c1, c1, ResponseCreated, [OutputTextDelta(Some("Hi"))] + ([OutputTextDelta(Some(" there"))] + last), now, id);
    RunQuiet(c, c1, TranscriptionCompleted(Some("hello")),
             [ResponseCreated] + ([OutputTextDelta(Some("Hi"))] + ([OutputTextDelta(Some(" there"))] + last)), now, id);
    assert [TranscriptionCompleted(Some("hello")), ResponseCreated,
            OutputTextDelta(Some("Hi")), OutputTextDelta(Some(" there")), ResponseDone(None)]
        == [TranscriptionCompleted(Some("hello"))]
           + ([ResponseCreated] + ([OutputTextDelta(Some("Hi"))] + ([OutputTextDelta(Some(" there"))] + last)));
  }

  /** The four events of the scenario before `response.done` show nothing. */
  lemma HelloQuietSteps(id: SessionId, now: int)
    ensures var c := Conversation(Some(id), [], [], []);
            var c1 := c.(transcription := "hello ");
            && Step(c, TranscriptionCompleted(Some("hello")), now, id) == Stepped(c1, [])
            && Step(c1, ResponseCreated, now, id) == Stepped(c1, [])
            && Step(c1, OutputTextDelta(Some("Hi")), now, id) == Stepped(c1.(buffer := "Hi"), [])
            && Step(c1.(buffer := "Hi"), OutputTextDelta(Some(" there")), now, id)
               == Stepped(c1.(buffer := "Hi there"), [])
  {
    assert [] + "hello" + " " == "hello ";
    assert [] + "Hi" == "Hi";
    assert "Hi" + " there" == "Hi there";
  }

  /** An event that shows nothing just hands its state to the rest of the run. */
  lemma RunQuiet(c: Conversation, next: Conversation, ev: ServerEvent, rest: seq<ServerEvent>,
                 now: int, freshId: SessionId)
    requires Step(c, ev, now, freshId) == Stepped(next, [])
    ensures Run(c, [ev] + rest, now, freshId) == Run(next, rest, now, freshId)
  {
    RunCons(c, [ev] + rest, now, freshId);
    assert ([ev] + rest)[1..] == rest;
  }

  /** The `response.done` of the scenario. */
  lemma HelloFinish(id: SessionId, now: int)
    ensures var c3 := Conversation(Some(id), "hello ", "Hi there", []);
            var turn := Turn(now, "hello", "Hi there");
            Step(c3, ResponseDone(None), now, id)
              == Stepped(Conversation(Some(id), [], [], [turn]),
                         [UpdateResponse("Hi there"), SaveTurn(id, turn, [turn])] + Closing)
  {
    var c3 := Conversation(Some(id), "hello ", "Hi there", []);
    var turn := Turn(now, "hello", "Hi there");
    HelloSettle(id, now);
    StepDone(c3, None, now, id);
    assert ScanOutput(c3, None).buffer == "Hi there";
    assert ShownReplies(c3, None) == [UpdateResponse("Hi there")];
    assert [UpdateResponse("Hi there")] + ([SaveTurn(id, turn, [turn])] + Closing)
        == [UpdateResponse("Hi there"), SaveTurn(id, turn, [turn])] + Closing;
  }

  /** The scenario's turn is saved into an empty log. */
  lemma HelloSettle(id: SessionId, now: int)
    ensures var c3 := Conversation(Some(id), "hello ", "Hi there", []);
            var turn := Turn(now, "hello", "Hi there");
            Settle(c3, "Hi there", now, id)
              == Stepped(Conversation(Some(id), [], [], [turn]), [SaveTurn(id, turn, [turn])] + Closing)
  {
    var c3 := Conversation(Some(id), "hello ", "Hi there", []);
    var turn := Turn(now, "hello", "Hi there");
    TrimKnown();
    assert Turn(now, Trim(c3.transcription), Trim("Hi there")) == turn;
    assert c3.history + [turn] == [turn];
    SettleSaves(c3, "Hi there", now);
  }

  /** Inside a session, settling a non-empty reply after a transcript saves their turn. */
  lemma SettleSaves(c: Conversation, reply: string, now: int)
    requires c.sessionId.Some? && c.transcription != [] && reply != []
    ensures var turn := Turn(now, Trim(c.transcription), Trim(reply));
            Settle(c, reply, now, c.sessionId.value)
              == Stepped(Conversation(c.sessionId, [], [], c.history + [turn]),
                         [SaveTurn(c.sessionId.value, turn, c.history + [turn])] + Closing)
  {
  }

  /** `Step` on `response.done` is `FinishResponse`. */
  lemma StepDone(c: Conversation, output: Option<seq<OutputItem>>, now: int, freshId: SessionId)
    ensures Step(c, ResponseDone(output), now, freshId) == FinishResponse(c, output, now, freshId)
  {
  }

  /** One unfolding of `Run`. */
  lemma RunCons(c: Conversation, events: seq<ServerEvent>, now: int, freshId: SessionId)
    requires events != []
    ensures var first := Step(c, events[0], now, freshId);
            var rest := Run(first.conv, events[1..], now, freshId);
            Run(c, events, now, freshId) == Stepped(rest.conv, first.notices + rest.notices)
  {
  }

  /** `Run` on a single event is that event's step. */
  lemma RunOne(c: Conversation, events: seq<ServerEvent>, now: int, freshId: SessionId)
    requires |events| == 1
    ensures Run(c, events, now, freshId) == Step(c, events[0], now, freshId)
  {
    assert events[1..] == [];
  }

  /** The two trims the scenario needs. */
  lemma TrimKnown()
    ensures Trim("hello ") == "hello"
    ensures Trim("Hi there") == "Hi there"
  {
    assert LeadingSpace("hello ") == 0;
    assert TrailingSpace("hello ") == 1 by {
      assert "hello "[..5] == "hello";
      assert TrailingSpace("hello") == 0;
    }
    assert "hello "[0..5] == "hello";
    assert LeadingSpace("Hi there") == 0;
    assert TrailingSpace("Hi there") == 0;
    assert "Hi there"[0..8] == "Hi there";
  }
}
