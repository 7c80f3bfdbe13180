/**
 * The conversation recorder: the current session id, the pending
 * transcription and reply text, and the append-only log of turns. Every
 * saved turn is also forwarded to the renderer for persistence.
 */
module Recorder {
  import opened Wrappers
  import opened JsText
  import opened Messages

  /**
   * `currentSessionId`, `currentTranscription`, `messageBuffer` and
   * `conversationHistory`.
   */
  datatype Conversation = Conversation(
    sessionId: Option<SessionId>,
    transcription: string,
    buffer: string,
    history: seq<Turn>)

  /** The values the module starts with. */
  const Initial: Conversation := Conversation(None, "", "", [])

  /** A log exists only inside a session: no session id means no turns. */
  predicate Valid(c: Conversation) {
    c.sessionId.None? ==> c.history == []
  }

  /**
   * `initializeNewSession()`: a fresh id, an empty transcription and an empty
   * log. The reply buffer is not the recorder's and is left alone.
   */
  function InitializeNewSession(c: Conversation, id: SessionId): (r: Conversation)
    ensures r.sessionId == Some(id)
    ensures r.transcription == [] && r.history == []
    ensures r.buffer == c.buffer
    ensures Valid(r)
  {
    Conversation(Some(id), "", c.buffer, [])
  }

  /** The new state and the one 'save-conversation-turn' notification of a save. */
  datatype Saved = Saved(conv: Conversation, notice: Notice)

  /**
   * `saveConversationTurn(transcription, aiResponse)`: start a session first
   * when there is none (with `freshId`), then append one turn stamped `now`
   * with both texts trimmed, and forward it with the whole log. On a valid
   * state this appends exactly one turn at the end and leaves the earlier
   * turns as they were.
   */
  function SaveConversationTurn(c: Conversation, transcription: string, aiResponse: string,
                                now: int, freshId: SessionId): (r: Saved)
    ensures Valid(r.conv)
    ensures Valid(c) ==> r.conv.history == c.history + [Turn(now, Trim(transcription), Trim(aiResponse))]
    ensures r.conv.sessionId == (if c.sessionId.Some? then c.sessionId else Some(freshId))
    ensures r.conv.transcription == (if c.sessionId.Some? then c.transcription else [])
    ensures r.conv.buffer == c.buffer
    ensures r.notice == SaveTurn(r.conv.sessionId.value, Turn(now, Trim(transcription), Trim(aiResponse)), r.conv.history)
  {
    var started := if c.sessionId.None? then InitializeNewSession(c, freshId) else c;
    var turn := Turn(now, Trim(transcription), Trim(aiResponse));
    var conv := started.(history := started.history + [turn]);
    Saved(conv, SaveTurn(conv.sessionId.value, turn, conv.history))
  }

  /** The `{ sessionId, history }` snapshot of `getCurrentSessionData()`. */
  datatype Snapshot = Snapshot(sessionId: Option<SessionId>, history: seq<Turn>)

  function CurrentSessionData(c: Conversation): Snapshot {
    Snapshot(c.sessionId, c.history)
  }
}
