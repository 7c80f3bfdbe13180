/**
 * The vocabulary the bridge speaks: conversation turns, notifications to the
 * renderer window, messages written to the realtime socket, and the other
 * outward effects (socket close, capture process signals), kept in one
 * ordered log so that their relative order can be stated.
 */
module Messages {
  import opened Pcm

  /** A session id: `Date.now().toString()`, never the empty string. */
  type SessionId = s: string | s != [] witness "0"

  /** One recorded exchange: `{ timestamp, transcription, ai_response }`. */
  datatype Turn = Turn(timestamp: int, transcription: string, aiResponse: string)

  /** A `sendToRenderer(channel, data)` call, one constructor per channel. */
  datatype Notice =
    | UpdateStatus(status: string)            // 'update-status'
    | SessionInitializing(active: bool)       // 'session-initializing'
    | UpdateResponse(text: string)            // 'update-response', always with animate: false
    | ResponseComplete                        // 'response-complete'
    | SaveTurn(sessionId: SessionId, turn: Turn, fullHistory: seq<Turn>)  // 'save-conversation-turn'

  /** The audio of an `input_audio_buffer.append` message. */
  datatype AudioPayload =
    | Pcm16(pcm: seq<byte>)      // mono PCM from the capture path, base64-encoded on the wire
    | Encoded(base64: string)    // audio the renderer already encoded

  /** A JSON message written to the realtime socket. */
  datatype WireMessage =
    | SessionUpdate(instructions: string, inputRate: nat)  // 'session.update': text output, semantic VAD
    | AudioAppend(audio: AudioPayload)                      // 'input_audio_buffer.append'
    | ItemCreate(text: string)                              // 'conversation.item.create', one input_text part
    | ResponseCreate                                        // 'response.create'

  /** Everything the bridge does to the outside world, in order. */
  datatype Effect =
    | Notify(notice: Notice)
    | Send(message: WireMessage)
    | CloseSocket                 // `socket.close()`
    | KillStaleCapture            // `pkill -f SystemAudioDump`
    | SpawnCapture(binary: string)
    | TerminateCapture            // `systemAudioProc.kill('SIGTERM')`

  /** The renderer notifications among a list of effects, in order. */
  function Notices(effects: seq<Effect>): seq<Notice>
  {
    if effects == [] then []
    else (if effects[0].Notify? then [effects[0].notice] else []) + Notices(effects[1..])
  }

  /** Renderer notifications lifted into the effect log. */
  function AsEffects(notices: seq<Notice>): (effects: seq<Effect>)
    ensures |effects| == |notices|
    ensures forall i :: 0 <= i < |notices| ==> effects[i] == Notify(notices[i])
    ensures Notices(effects) == notices
  {
    if notices == [] then []
    else
      var tail := AsEffects(notices[1..]);
      assert ([Notify(notices[0])] + tail)[1..] == tail;
      [Notify(notices[0])] + tail
  }

  /** True when the log writes nothing to the socket. */
  predicate NoSends(effects: seq<Effect>) {
    forall i :: 0 <= i < |effects| ==> !effects[i].Send?
  }
}
