/**
 * The session bridge's control state and handlers: session start with its
 * in-flight guard, the socket's open/message/error/close events, the IPC
 * commands (send text, relay audio, start/stop capture, close, start a new
 * conversation, snapshot) and the capture process's stdout handler. Each
 * run of a handler between two suspension points is a pure function from the
 * state before to the state after plus the effects it performed. Only the
 * capture start suspends: it awaits the kill of stale instances, so it is two
 * steps, and other events can run in between.
 */
module Bridge {
  import opened Wrappers
  import opened JsText
  import opened Pcm
  import opened Framing
  import opened Messages
  import opened Recorder
  import opened Assembler

  /** A WebSocket's `readyState`. */
  datatype ReadyState = Connecting | Open | Closing | Closed

  /**
   * The module-level variables. There are two references to the socket
   * besides `openaiWebSocket`: the module's own `openaiSessionRef`, which
   * the socket's close handler clears, and the ref object handed to the IPC
   * handlers, which every liveness check reads and only 'close-openai-session'
   * clears. All three point at the most recently created socket when set.
   */
  datatype Bridge = Bridge(
    conv: Conversation,
    initializing: bool,      // isInitializingSession
    instructions: string,    // the system prompt captured by the socket's open handler
    socket: ReadyState,      // readyState of the most recent socket (Closed before any)
    socketHeld: bool,        // openaiWebSocket !== null
    sessionRefHeld: bool,    // openaiSessionRef.current !== null (module level)
    handlerRefHeld: bool,    // .current of the ref the IPC handlers check
    captureRunning: bool,    // systemAudioProc !== null
    audioBuffer: seq<byte>,  // the capture handler's accumulation buffer
    pendingStarts: nat)      // capture starts suspended at their `await`

  /** The state when the module is loaded. */
  const Start: Bridge := Bridge(Recorder.Initial, false, [], Closed, false, false, false, false, [], 0)

  /** `ws.close()` and the library's error path: a connecting or open socket becomes CLOSING. */
  function StartClosing(state: ReadyState): (next: ReadyState)
    ensures next != Connecting && next != Open
    ensures state == Closing || state == Closed ==> next == state
  {
    if state == Connecting || state == Open then Closing else state
  }

  /** The liveness test of the outbound senders: a ref is held and its socket is OPEN. */
  predicate Live(b: Bridge) {
    b.handlerRefHeld && b.socket == Open
  }

  /** What a handler leaves behind: the new state, its effects in order, and its reply. */
  datatype Handled<R> = Handled(bridge: Bridge, effects: seq<Effect>, reply: R)

  const NoSession: string := "No active OpenAI session"
  const InvalidText: string := "Invalid text message"

  /**
   * What holds between any two handlers: the in-flight guard is down, the
   * turn log belongs to a session, a socket that may still open is the one
   * `openaiWebSocket` holds, and less than one frame of audio is buffered.
   */
  predicate Inv(b: Bridge) {
    && !b.initializing
    && Valid(b.conv)
    && (b.socket == Connecting || b.socket == Open ==> b.socketHeld)
    && |b.audioBuffer| < ChunkSize
  }

  lemma StartInv()
    ensures Inv(Start)
  {
  }

  // ---------------------------------------------------------------- session start

  /**
   * `initializeOpenAISession(...)`. `id` is the new session id, `prompt` the
   * system prompt, `constructed` whether `new WebSocket(...)` returned rather
   * than threw. The guard is raised and lowered within this one call: either
   * way the renderer sees 'session-initializing' true then false, and the
   * conversation is reset before the socket is created.
   */
  function InitializeSession(b: Bridge, id: SessionId, prompt: string, constructed: bool): (r: Handled<bool>)
    ensures b.initializing ==> r == Handled(b, [], false)
    ensures !b.initializing ==>
              && r.reply == constructed
              && !r.bridge.initializing
              && r.effects == [Notify(SessionInitializing(true)), Notify(SessionInitializing(false))]
              && r.bridge.conv == InitializeNewSession(b.conv, id)
              && r.bridge.captureRunning == b.captureRunning && r.bridge.audioBuffer == b.audioBuffer
              && r.bridge.handlerRefHeld == b.handlerRefHeld
    ensures !b.initializing && constructed ==>
              && r.bridge.socket == Connecting && r.bridge.socketHeld && r.bridge.sessionRefHeld
              && r.bridge.instructions == prompt
              && r.bridge.pendingStarts == b.pendingStarts
    ensures !b.initializing && !constructed ==> r.bridge == b.(conv := InitializeNewSession(b.conv, id))
  {
    if b.initializing then Handled(b, [], false)
    else
      var conv := InitializeNewSession(b.conv, id);
      var marks := [Notify(SessionInitializing(true)), Notify(SessionInitializing(false))];
      if constructed then
        Handled(b.(conv := conv, instructions := prompt, socket := Connecting, socketHeld := true,
                   sessionRefHeld := true, initializing := false), marks, true)
      else
        Handled(b.(conv := conv, initializing := false), marks, false)
  }

  /** 'initialize-openai': start a session and, on success, point the handlers' ref at the new socket. */
  function InitializeCommand(b: Bridge, id: SessionId, prompt: string, constructed: bool): (r: Handled<bool>)
    ensures var s := InitializeSession(b, id, prompt, constructed);
            r.reply == s.reply && r.effects == s.effects && r.bridge.(handlerRefHeld := b.handlerRefHeld) == s.bridge
    ensures r.reply ==> r.bridge.handlerRefHeld && r.bridge.socket == Connecting
    ensures !r.reply ==> r.bridge.handlerRefHeld == b.handlerRefHeld
  {
    var started := InitializeSession(b, id, prompt, constructed);
    if started.reply then started.(bridge := started.bridge.(handlerRefHeld := true)) else started
  }

  /**
   * The guard never turns a caller away: between handlers it is always down,
   * so a start request is never rejected, even while the previous socket is
   * still connecting, and a second connection is then opened.
   */
  lemma GuardNeverRejects(b: Bridge, id: SessionId, prompt: string, constructed: bool)
    requires Inv(b)
    ensures var r := InitializeCommand(b, id, prompt, constructed);
            && r.reply == constructed
            && r.effects == [Notify(SessionInitializing(true)), Notify(SessionInitializing(false))]
            && (constructed ==> Live(r.bridge) == false && r.bridge.socket == Connecting)
  {
  }

  // ---------------------------------------------------------------- socket events

  /**
   * The socket's 'open' event: report the connection and send the one
   * 'session.update' (text output, 24 kHz PCM input, semantic VAD, the
   * captured prompt) through `openaiWebSocket`.
   */
  function OnSocketOpen(b: Bridge): (r: Handled<()>)
    ensures b.socket == Connecting && b.socketHeld ==>
              && r.bridge == b.(socket := Open)
              && r.effects == [Notify(UpdateStatus("OpenAI session connected")),
                               Send(SessionUpdate(b.instructions, SampleRate))]
    ensures b.socket != Connecting ==> r == Handled(b, [], ())
  {
    if b.socket != Connecting then Handled(b, [], ())
    else
      // Without `openaiWebSocket` the send throws after the status is reported.
      var send := if b.socketHeld then [Send(SessionUpdate(b.instructions, SampleRate))] else [];
      Handled(b.(socket := Open), [Notify(UpdateStatus("OpenAI session connected"))] + send, ())
  }

  /** The socket's 'message' event: one assembler step; its notifications go to the renderer. */
  function OnSocketMessage(b: Bridge, ev: ServerEvent, now: int, freshId: SessionId): (r: Handled<()>)
    ensures Notices(r.effects) == Step(b.conv, ev, now, freshId).notices
    ensures NoSends(r.effects)
    ensures forall i :: 0 <= i < |r.effects| ==> r.effects[i].Notify?
    ensures r.bridge == b.(conv := Step(b.conv, ev, now, freshId).conv)
  {
    var stepped := Step(b.conv, ev, now, freshId);
    Handled(b.(conv := stepped.conv), AsEffects(stepped.notices), ())
  }

  /**
   * The socket's 'error' event: report it and lower the guard. The socket
   * library moves a connecting or open socket to CLOSING before it emits
   * 'error', so the senders' liveness checks fail from here on; the 'close'
   * event follows.
   */
  function OnSocketError(b: Bridge, message: Option<string>): (r: Handled<()>)
    ensures !r.bridge.initializing && r.bridge.(initializing := b.initializing, socket := b.socket) == b
    ensures b.socket == Connecting || b.socket == Open ==> r.bridge.socket == Closing
    ensures b.socket == Closing || b.socket == Closed ==> r.bridge.socket == b.socket
    ensures !Live(r.bridge)
    ensures |r.effects| == 2 && r.effects[1] == Notify(SessionInitializing(false))
    ensures Truthy(message) ==> r.effects[0] == Notify(UpdateStatus("Error: " + message.value))
    ensures !Truthy(message) ==> r.effects[0] == Notify(UpdateStatus("Error: Connection error"))
  {
    var text := if Truthy(message) then message.value else "Connection error";
    assert "Error: " + "Connection error" == "Error: Connection error";
    Handled(b.(initializing := false, socket := StartClosing(b.socket)),
            [Notify(UpdateStatus("Error: " + text)), Notify(SessionInitializing(false))], ())
  }

  /**
   * The socket's 'close' event: report it, drop `openaiWebSocket` and the
   * module's ref, lower the guard. The IPC handlers' ref keeps the closed
   * socket, so every liveness check fails from here on. Capture, the prompt
   * and the conversation are left as they are.
   */
  function OnSocketClose(b: Bridge): (r: Handled<()>)
    ensures r.bridge.socket == Closed && !Live(r.bridge)
    ensures !r.bridge.socketHeld && !r.bridge.sessionRefHeld && !r.bridge.initializing
    ensures r.bridge.(socket := b.socket, socketHeld := b.socketHeld, sessionRefHeld := b.sessionRefHeld,
                      initializing := b.initializing) == b
    ensures r.effects == [Notify(UpdateStatus("OpenAI session closed")), Notify(SessionInitializing(false))]
  {
    Handled(b.(socket := Closed, socketHeld := false, sessionRefHeld := false, initializing := false),
            [Notify(UpdateStatus("OpenAI session closed")), Notify(SessionInitializing(false))], ())
  }

  // ---------------------------------------------------------------- outbound commands

  /**
   * 'send-text-message-openai'. `text` is `None` when the argument is not a
   * string. Liveness is checked before the text; a blank text is refused
   * without writing; otherwise the trimmed text goes out as one
   * 'conversation.item.create' followed by one 'response.create'.
   */
  function SendText(b: Bridge, text: Option<string>): (r: Handled<Result<(), string>>)
    ensures r.bridge == b
    ensures !Live(b) ==> r.effects == [] && r.reply == Failure(NoSession)
    ensures Live(b) && (text.None? || IsBlank(text.value)) ==> r.effects == [] && r.reply == Failure(InvalidText)
    ensures Live(b) && text.Some? && !IsBlank(text.value) ==>
              && r.reply == Success(())
              && r.effects == [Send(ItemCreate(Trim(text.value))), Send(ResponseCreate)]
              && Trim(text.value) != []
  {
    if !Live(b) then Handled(b, [], Failure(NoSession))
    else if text.None? || Trim(text.value) == [] then Handled(b, [], Failure(InvalidText))
    else Handled(b, [Send(ItemCreate(Trim(text.value))), Send(ResponseCreate)], Success(()))
  }

  /**
   * 'send-audio-content-openai' and 'send-mic-audio-content-openai': relay
   * audio the renderer already encoded, as one 'input_audio_buffer.append'.
   */
  function SendAudioContent(b: Bridge, data: string): (r: Handled<Result<(), string>>)
    ensures r.bridge == b
    ensures Live(b) <==> r.reply.Success?
    ensures Live(b) ==> r.effects == [Send(AudioAppend(Encoded(data)))]
    ensures !Live(b) ==> r.effects == [] && r.reply == Failure(NoSession)
  {
    if !Live(b) then Handled(b, [], Failure(NoSession))
    else Handled(b, [Send(AudioAppend(Encoded(data)))], Success(()))
  }

  /** The socket writes of a data event: one append per mono frame, in order. */
  function AudioSends(monos: seq<seq<byte>>): (effects: seq<Effect>)
    ensures |effects| == |monos|
    ensures forall i :: 0 <= i < |monos| ==> effects[i] == Send(AudioAppend(Pcm16(monos[i])))
  {
    seq(|monos|, i requires 0 <= i < |monos| => Send(AudioAppend(Pcm16(monos[i]))))
  }

  /** The PCM bytes a log of effects writes to the socket, in order. */
  function SentPcm(effects: seq<Effect>): seq<byte>
  {
    if effects == [] then []
    else
      var e := effects[0];
      (if e.Send? && e.message.AudioAppend? && e.message.audio.Pcm16? then e.message.audio.pcm else [])
      + SentPcm(effects[1..])
  }

  lemma {:induction false} SentPcmOfSends(monos: seq<seq<byte>>)
    ensures SentPcm(AudioSends(monos)) == Flatten(monos)
  {
    if monos != [] {
      assert AudioSends(monos)[1..] == AudioSends(monos[1..]);
      SentPcmOfSends(monos[1..]);
    }
  }

  /**
   * The capture process's stdout 'data' event: cut frames, downmix each, and
   * append it to the socket only while the session is live; otherwise the
   * frames are dropped without a word. The socket receives one append per
   * whole frame (`CaptureSends`), together exactly the left channel of the
   * bytes consumed, in capture order, and less than one frame stays buffered.
   */
  function OnCaptureData(b: Bridge, data: seq<byte>): (r: Handled<()>)
    ensures |r.bridge.audioBuffer| < ChunkSize
    ensures r.bridge == b.(audioBuffer := r.bridge.audioBuffer)
    ensures exists consumed :: consumed + r.bridge.audioBuffer == b.audioBuffer + data
                               && |consumed| % ChunkSize == 0
                               && |consumed| % 4 == 0
                               && (Live(b) ==> SentPcm(r.effects) == LeftChannel(consumed))
    ensures !Live(b) ==> r.effects == []
    ensures forall i :: 0 <= i < |r.effects| ==> r.effects[i].Send? && r.effects[i].message.AudioAppend?
    ensures Live(b) ==> r.effects == CaptureSends(b.audioBuffer + data)
  {
    var cut := Feed(b.audioBuffer, data);
    ConsumedSent(b.audioBuffer + data);
    var consumed := Flatten(cut.frames);
    assert consumed + cut.rest == b.audioBuffer + data;
    var effects := if Live(b) then CaptureSends(b.audioBuffer + data) else [];
    Handled(b.(audioBuffer := cut.rest), effects, ())
  }

  /**
   * What the 'data' handler sends for an accumulated buffer when the session
   * is live: one append per whole 9600-byte window, each carrying that
   * window's left channel.
   */
  function CaptureSends(buf: seq<byte>): (effects: seq<Effect>)
    ensures |effects| == |buf| / ChunkSize
    ensures forall i :: 0 <= i < |effects| ==> effects[i] == Send(AudioAppend(Pcm16(LeftChannel(Window(buf, i)))))
  {
    FrameSends(buf);
    AudioSends(MonoFrames(Slice(buf).frames))
  }

  /**
   * While live, a data event sends once per whole 9600-byte frame of the
   * accumulated bytes (never one merged append), each carrying that frame's
   * 4800-byte left channel.
   */
  lemma CaptureDataPerFrame(b: Bridge, data: seq<byte>)
    requires Live(b)
    ensures var effects := OnCaptureData(b, data).effects;
            && |effects| == (|b.audioBuffer| + |data|) / ChunkSize
            && forall i :: 0 <= i < |effects| ==>
                 && effects[i] == Send(AudioAppend(Pcm16(LeftChannel(Window(b.audioBuffer + data, i)))))
                 && |LeftChannel(Window(b.audioBuffer + data, i))| == 4800
  {
  }

  /** One append per 9600-byte window of the buffer, each carrying that window's left channel. */
  lemma FrameSends(buf: seq<byte>)
    ensures var sends := AudioSends(MonoFrames(Slice(buf).frames));
            && |sends| == |buf| / ChunkSize
            && forall i :: 0 <= i < |sends| ==>
                 sends[i] == Send(AudioAppend(Pcm16(LeftChannel(Window(buf, i)))))
  {
    SliceFrames(buf);
  }

  /** The frames of one cut, sent in order, carry the left channel of every byte the cut consumed. */
  lemma ConsumedSent(buf: seq<byte>)
    ensures var cut := Slice(buf);
            && |Flatten(cut.frames)| % ChunkSize == 0
            && |Flatten(cut.frames)| % 4 == 0
            && SentPcm(AudioSends(MonoFrames(cut.frames))) == LeftChannel(Flatten(cut.frames))
  {
    var cut := Slice(buf);
    WholeFrames(cut.frames);
    MonoFramesFlatten(cut.frames);
    SentPcmOfSends(MonoFrames(cut.frames));
  }

  /** Full frames put together hold whole frames, and so whole stereo samples. */
  lemma WholeFrames(frames: seq<seq<byte>>)
    requires AllFullFrames(frames)
    ensures |Flatten(frames)| % ChunkSize == 0
  {
    FlattenLength(frames);
  }

  /** Full frames put together hold a whole number of frames. */
  lemma {:induction false} FlattenLength(frames: seq<seq<byte>>)
    requires AllFullFrames(frames)
    ensures |Flatten(frames)| == |frames| * ChunkSize
  {
    if frames != [] {
      FlattenLength(frames[1..]);
    }
  }

  // ---------------------------------------------------------------- capture process

  /** `process.arch` mapped to the capture binary: the x86 build only on Intel hosts. */
  function BinaryName(arch: string): (name: string)
    ensures name == "SystemAudioDump_x86" || name == "SystemAudioDump"
    ensures name == "SystemAudioDump_x86" <==> arch == "x64" || arch == "x86_64"
  {
    var systemArch := if arch == "x64" then "x86_64" else arch;
    if systemArch == "x86_64" then "SystemAudioDump_x86" else "SystemAudioDump"
  }

  /** How `spawn` of the capture binary went. */
  datatype SpawnOutcome =
    | Spawned                 // a process with a pid
    | SpawnedWithoutPid       // a process object without a pid
    | ArchitectureMismatch    // threw with errno -86
    | SpawnFailed(message: string)

  /** What the host tells the capture start: platform, architecture, binary presence, spawn result. */
  datatype CaptureHost = CaptureHost(isMac: bool, arch: string, binaryExists: bool, spawn: SpawnOutcome)

  /**
   * The reply of 'start-macos-audio-openai': `{ success }` once a start was
   * attempted, `{ success: false, error }` when the host is not macOS.
   */
  datatype CaptureReply = Attempted(success: bool) | Refused(error: string)

  const NotOnMac: string := "macOS audio capture only available on macOS"

  /**
   * 'start-macos-audio-openai' up to the `await` in `startMacOSAudioCapture`:
   * refuse off macOS; otherwise start killing stale instances and suspend,
   * with no reply yet.
   */
  function BeginCapture(b: Bridge, isMac: bool): (r: Handled<Option<CaptureReply>>)
    ensures !isMac ==> r == Handled(b, [], Some(Refused(NotOnMac)))
    ensures isMac ==> r.reply == None && r.effects == [KillStaleCapture]
    ensures isMac ==> r.bridge.pendingStarts == b.pendingStarts + 1 && r.bridge.(pendingStarts := b.pendingStarts) == b
  {
    if !isMac then Handled(b, [], Some(Refused(NotOnMac)))
    else Handled(b.(pendingStarts := b.pendingStarts + 1), [KillStaleCapture], None)
  }

  /**
   * The rest of a suspended capture start, once the kill settled (at most
   * 2 s later): try the binary for `arch`. A spawned process with a pid
   * starts capture with a fresh accumulation buffer. A process without a pid
   * is reported as a failure but stays recorded, so a later stop still
   * signals it. Whatever ran during the wait is not looked at again.
   */
  function ResumeCapture(b: Bridge, arch: string, binaryExists: bool, spawn: SpawnOutcome): (r: Handled<Option<CaptureReply>>)
    ensures b.pendingStarts == 0 ==> r == Handled(b, [], None)
    ensures b.pendingStarts > 0 ==> r.reply.Some? && r.reply.value.Attempted? && r.bridge.pendingStarts == b.pendingStarts - 1
    ensures r.reply == Some(Attempted(true)) <==> b.pendingStarts > 0 && binaryExists && spawn.Spawned?
    ensures b.pendingStarts > 0 && !binaryExists ==>
              r.bridge == b.(pendingStarts := b.pendingStarts - 1)
              && r.effects == [Notify(UpdateStatus("Error: SystemAudioDump binary not found"))]
    ensures b.pendingStarts > 0 && binaryExists ==> |r.effects| >= 1 && r.effects[0] == SpawnCapture(BinaryName(arch))
    ensures b.pendingStarts > 0 && binaryExists && spawn.Spawned? ==>
              && r.bridge == b.(pendingStarts := b.pendingStarts - 1, captureRunning := true, audioBuffer := [])
              && r.effects == [SpawnCapture(BinaryName(arch))]
    ensures b.pendingStarts > 0 && binaryExists && spawn.SpawnedWithoutPid? ==>
              && r.bridge == b.(pendingStarts := b.pendingStarts - 1, captureRunning := true)
              && r.effects[1..] == [Notify(UpdateStatus("Error: Failed to start SystemAudioDump"))]
    ensures b.pendingStarts > 0 && binaryExists && spawn.ArchitectureMismatch? ==>
              && r.bridge == b.(pendingStarts := b.pendingStarts - 1)
              && r.effects[1..] == [Notify(UpdateStatus("Error: SystemAudioDump architecture mismatch"))]
    ensures b.pendingStarts > 0 && binaryExists && spawn.SpawnFailed? ==>
              && r.bridge == b.(pendingStarts := b.pendingStarts - 1)
              && r.effects[1..] == [Notify(UpdateStatus("Error: Failed to start SystemAudioDump - " + spawn.message))]
    ensures NoSends(r.effects)
  {
    if b.pendingStarts == 0 then Handled(b, [], None)
    else
      var resumed := b.(pendingStarts := b.pendingStarts - 1);
      if !binaryExists then
        Handled(resumed, [Notify(UpdateStatus("Error: SystemAudioDump binary not found"))], Some(Attempted(false)))
      else
        var attempt := [SpawnCapture(BinaryName(arch))];
        match spawn
        case Spawned =>
          Handled(resumed.(captureRunning := true, audioBuffer := []), attempt, Some(Attempted(true)))
        case SpawnedWithoutPid =>
          Handled(resumed.(captureRunning := true), attempt + [Notify(UpdateStatus("Error: Failed to start SystemAudioDump"))], Some(Attempted(false)))
        case ArchitectureMismatch =>
          Handled(resumed, attempt + [Notify(UpdateStatus("Error: SystemAudioDump architecture mismatch"))], Some(Attempted(false)))
        case SpawnFailed(message) =>
          Handled(resumed, attempt + [Notify(UpdateStatus("Error: Failed to start SystemAudioDump - " + message))], Some(Attempted(false)))
  }

  /**
   * A whole capture start when nothing else runs during its wait: the
   * request and its resumption back to back, with the resumption's reply.
   */
  function StartCapture(b: Bridge, host: CaptureHost): (r: Handled<CaptureReply>)
    ensures !host.isMac ==> r == Handled(b, [], Refused(NotOnMac))
    ensures host.isMac ==> r.reply.Attempted? && |r.effects| >= 1 && r.effects[0] == KillStaleCapture
    ensures r.reply == Attempted(true) <==> host.isMac && host.binaryExists && host.spawn.Spawned?
    ensures host.isMac && !host.binaryExists ==>
              r == Handled(b, [KillStaleCapture, Notify(UpdateStatus("Error: SystemAudioDump binary not found"))], Attempted(false))
    ensures host.isMac && host.binaryExists ==>
              && |r.effects| >= 2
              && r.effects[..2] == [KillStaleCapture, SpawnCapture(BinaryName(host.arch))]
    ensures host.isMac && host.binaryExists && host.spawn.Spawned? ==>
              && r.bridge == b.(captureRunning := true, audioBuffer := [])
              && r.effects == [KillStaleCapture, SpawnCapture(BinaryName(host.arch))]
    ensures host.isMac && host.binaryExists && host.spawn.SpawnedWithoutPid? ==>
              && r.bridge == b.(captureRunning := true)
              && r.effects[2..] == [Notify(UpdateStatus("Error: Failed to start SystemAudioDump"))]
    ensures host.isMac && host.binaryExists && host.spawn.ArchitectureMismatch? ==>
              && r.bridge == b
              && r.effects[2..] == [Notify(UpdateStatus("Error: SystemAudioDump architecture mismatch"))]
    ensures host.isMac && host.binaryExists && host.spawn.SpawnFailed? ==>
              && r.bridge == b
              && r.effects[2..] == [Notify(UpdateStatus("Error: Failed to start SystemAudioDump - " + host.spawn.message))]
    ensures NoSends(r.effects)
  {
    var begun := BeginCapture(b, host.isMac);
    if !host.isMac then Handled(begun.bridge, begun.effects, Refused(NotOnMac))
    else
      var resumed := ResumeCapture(begun.bridge, host.arch, host.binaryExists, host.spawn);
      Handled(resumed.bridge, begun.effects + resumed.effects, resumed.reply.value)
  }

  /**
   * Which start attempts a later stop signals: every spawn that produced a
   * process object, the pid-less one included even though its start
   * replied failure. A spawn that threw, or a missing binary, leaves the
   * previous process state as it was.
   */
  lemma StopAfterStart(b: Bridge, host: CaptureHost)
    requires host.isMac && host.binaryExists
    ensures var started := StartCapture(b, host);
            && (host.spawn.Spawned? || host.spawn.SpawnedWithoutPid? ==>
                  StopCapture(started.bridge).effects == [TerminateCapture])
            && (host.spawn.SpawnedWithoutPid? ==> started.reply == Attempted(false))
            && (host.spawn.ArchitectureMismatch? || host.spawn.SpawnFailed? ==>
                  StopCapture(started.bridge) == StopCapture(b))
  {
  }

  /** The capture process's 'close' event: forget the process. */
  function OnCaptureClosed(b: Bridge): (r: Handled<()>)
    ensures !r.bridge.captureRunning && r.bridge.(captureRunning := b.captureRunning) == b
    ensures r.effects == []
  {
    Handled(b.(captureRunning := false), [], ())
  }

  /** The capture process's 'error' event: report it and forget the process. */
  function OnCaptureError(b: Bridge, archMismatch: bool, message: string): (r: Handled<()>)
    ensures !r.bridge.captureRunning && r.bridge.(captureRunning := b.captureRunning) == b
    ensures archMismatch ==> r.effects == [Notify(UpdateStatus("Error: SystemAudioDump architecture mismatch"))]
    ensures !archMismatch ==> r.effects == [Notify(UpdateStatus("Error: SystemAudioDump failed - " + message))]
  {
    var status := if archMismatch then "Error: SystemAudioDump architecture mismatch"
                  else "Error: SystemAudioDump failed - " + message;
    Handled(b.(captureRunning := false), [Notify(UpdateStatus(status))], ())
  }

  /**
   * `stopMacOSAudioCapture()` and 'stop-macos-audio-openai': signal the
   * process if there is one and forget it. It always succeeds.
   */
  function StopCapture(b: Bridge): (r: Handled<Result<(), string>>)
    ensures r.reply == Success(())
    ensures r.bridge == b.(captureRunning := false)
    ensures r.effects == (if b.captureRunning then [TerminateCapture] else [])
  {
    if b.captureRunning then Handled(b.(captureRunning := false), [TerminateCapture], Success(()))
    else Handled(b, [], Success(()))
  }

  /** Stopping twice is stopping once: the second stop does nothing and still succeeds. */
  lemma StopIdempotent(b: Bridge)
    ensures var once := StopCapture(b);
            StopCapture(once.bridge) == Handled(once.bridge, [], Success(()))
  {
  }

  /** A process that has closed or failed is forgotten, so neither a stop nor a close signals it. */
  lemma EndedProcessNotSignalled(b: Bridge, archMismatch: bool, message: string)
    ensures StopCapture(OnCaptureClosed(b).bridge).effects == []
    ensures StopCapture(OnCaptureError(b, archMismatch, message).bridge).effects == []
    ensures TerminateCapture !in CloseSession(OnCaptureClosed(b).bridge).effects
    ensures TerminateCapture !in CloseSession(OnCaptureError(b, archMismatch, message).bridge).effects
  {
  }

  // ---------------------------------------------------------------- closing and the recorder

  /**
   * 'close-openai-session': stop capture first, then close the socket the
   * handlers hold and drop the references. The close moves a connecting or
   * open socket to CLOSING; the 'close' event comes later. The conversation,
   * the prompt and the module's own ref are left as they are.
   */
  function CloseSession(b: Bridge): (r: Handled<Result<(), string>>)
    ensures r.reply == Success(())
    ensures !Live(r.bridge) && !r.bridge.captureRunning && !r.bridge.handlerRefHeld
    ensures b.handlerRefHeld ==> !r.bridge.socketHeld && r.bridge.socket != Connecting && r.bridge.socket != Open
    ensures b.handlerRefHeld ==> r.bridge.socket == StartClosing(b.socket)
    ensures b.handlerRefHeld && (b.socket == Connecting || b.socket == Open) ==> r.bridge.socket == Closing
    ensures b.handlerRefHeld && (b.socket == Closing || b.socket == Closed) ==> r.bridge.socket == b.socket
    ensures !b.handlerRefHeld ==> r.bridge.socket == b.socket && r.bridge.socketHeld == b.socketHeld
    ensures r.bridge.(socket := b.socket, socketHeld := b.socketHeld, handlerRefHeld := b.handlerRefHeld,
                      captureRunning := b.captureRunning) == b
    ensures Inv(b) ==> Inv(r.bridge)
    ensures r.effects == (if b.captureRunning then [TerminateCapture] else [])
                         + (if b.handlerRefHeld then [CloseSocket] else [])
  {
    var stopped := StopCapture(b);
    if stopped.bridge.handlerRefHeld then
      Handled(stopped.bridge.(socket := StartClosing(b.socket), handlerRefHeld := false, socketHeld := false),
              stopped.effects + [CloseSocket], Success(()))
    else
      Handled(stopped.bridge, stopped.effects, Success(()))
  }

  /** 'start-new-openai-session': a new conversation on the same connection. */
  function StartNewSession(b: Bridge, id: SessionId): (r: Handled<Result<SessionId, string>>)
    ensures r.reply == Success(id) && r.effects == []
    ensures r.bridge.(conv := b.conv) == b
    ensures r.bridge.conv.sessionId == Some(id) && r.bridge.conv.history == []
    ensures r.bridge.conv.transcription == [] && r.bridge.conv.buffer == b.conv.buffer
  {
    Handled(b.(conv := InitializeNewSession(b.conv, id)), [], Success(id))
  }

  /** 'get-current-openai-session': the id and the turn log, state untouched. */
  function GetCurrentSession(b: Bridge): (r: Handled<Result<Snapshot, string>>)
    ensures r.bridge == b && r.effects == []
    ensures r.reply.Success?
    ensures r.reply.value.sessionId == b.conv.sessionId && r.reply.value.history == b.conv.history
  {
    Handled(b, [], Success(CurrentSessionData(b.conv)))
  }

  // ---------------------------------------------------------------- everything together

  /** Anything that can happen to the bridge between two turns of the event loop. */
  datatype Input =
    | InitializeRequest(id: SessionId, prompt: string, constructed: bool)
    | SocketOpened
    | SocketMessage(event: ServerEvent, now: int, freshId: SessionId)
    | SocketError(message: Option<string>)
    | SocketClosed
    | SendTextRequest(text: Option<string>)
    | SendAudioRequest(data: string)
    | CaptureData(bytes: seq<byte>)
    | StartCaptureRequest(isMac: bool)
    | StaleCaptureKilled(arch: string, binaryExists: bool, spawn: SpawnOutcome)
    | CaptureClosed
    | CaptureError(archMismatch: bool, reason: string)
    | StopCaptureRequest
    | CloseSessionRequest
    | StartNewSessionRequest(id: SessionId)
    | GetSessionRequest

  /** Dispatch one input to its handler; every handler keeps the invariant. */
  function Apply(b: Bridge, input: Input): (r: Handled<()>)
    ensures Inv(b) ==> Inv(r.bridge)
  {
    match input
    case InitializeRequest(id, prompt, constructed) =>
      var h := InitializeCommand(b, id, prompt, constructed); Handled(h.bridge, h.effects, ())
    case SocketOpened => OnSocketOpen(b)
    case SocketMessage(ev, now, freshId) => OnSocketMessage(b, ev, now, freshId)
    case SocketError(message) => OnSocketError(b, message)
    case SocketClosed => OnSocketClose(b)
    case SendTextRequest(text) =>
      var h := SendText(b, text); Handled(h.bridge, h.effects, ())
    case SendAudioRequest(data) =>
      var h := SendAudioContent(b, data); Handled(h.bridge, h.effects, ())
    case CaptureData(bytes) => OnCaptureData(b, bytes)
    case StartCaptureRequest(isMac) =>
      var h := BeginCapture(b, isMac); Handled(h.bridge, h.effects, ())
    case StaleCaptureKilled(arch, binaryExists, spawn) =>
      var h := ResumeCapture(b, arch, binaryExists, spawn); Handled(h.bridge, h.effects, ())
    case CaptureClosed => OnCaptureClosed(b)
    case CaptureError(archMismatch, reason) => OnCaptureError(b, archMismatch, reason)
    case StopCaptureRequest =>
      var h := StopCapture(b); Handled(h.bridge, h.effects, ())
    case CloseSessionRequest =>
      var h := CloseSession(b); Handled(h.bridge, h.effects, ())
    case StartNewSessionRequest(id) =>
      var h := StartNewSession(b, id); Handled(h.bridge, h.effects, ())
    case GetSessionRequest =>
      var h := GetCurrentSession(b); Handled(h.bridge, h.effects, ())
  }

  /** A history of inputs, handled in order; the effects concatenated. */
  function RunInputs(b: Bridge, inputs: seq<Input>): Handled<()>
    decreases |inputs|
  {
    if inputs == [] then Handled(b, [], ())
    else
      var first := Apply(b, inputs[0]);
      var rest := RunInputs(first.bridge, inputs[1..]);
      Handled(rest.bridge, first.effects + rest.effects, ())
  }

  /**
   * Whatever happens after the module loads, the invariant holds at every
   * event boundary: in particular the in-flight guard is always down there.
   */
  lemma {:induction false} InvariantAlways(b: Bridge, inputs: seq<Input>)
    requires Inv(b)
    ensures Inv(RunInputs(b, inputs).bridge)
    decreases |inputs|
  {
    if inputs != [] {
      InvariantAlways(Apply(b, inputs[0]).bridge, inputs[1..]);
    }
  }

  /** After a close nothing reaches the socket: text is refused and captured audio is dropped. */
  lemma NothingSentAfterClose(b: Bridge, text: Option<string>, data: seq<byte>, encoded: string)
    ensures var closed := CloseSession(b).bridge;
            && SendText(closed, text).reply == Failure(NoSession)
            && SendText(closed, text).effects == []
            && OnCaptureData(closed, data).effects == []
            && SendAudioContent(closed, encoded) == Handled(closed, [], Failure(NoSession))
  {
  }

  /** Text sent before any session exists is refused without touching the socket. */
  lemma SendTextBeforeSession(text: Option<string>)
    ensures SendText(Start, text) == Handled(Start, [], Failure(NoSession))
  {
  }

  /**
   * Starting a session and its socket opening: the 'session.update' carries
   * the prompt of the start request, and audio and text are relayed only
   * from the open on.
   */
  lemma ConnectThenSend(b: Bridge, id: SessionId, prompt: string, text: Option<string>, encoded: string)
    requires Inv(b)
    ensures var connecting := InitializeCommand(b, id, prompt, true).bridge;
            var openEvent := OnSocketOpen(connecting);
            && SendAudioContent(connecting, encoded) == Handled(connecting, [], Failure(NoSession))
            && SendText(connecting, text) == Handled(connecting, [], Failure(NoSession))
            && openEvent.effects == [Notify(UpdateStatus("OpenAI session connected")), Send(SessionUpdate(prompt, SampleRate))]
            && Live(openEvent.bridge)
            && SendAudioContent(openEvent.bridge, encoded).effects == [Send(AudioAppend(Encoded(encoded)))]
            && (text.Some? && !IsBlank(text.value) ==>
                  SendText(openEvent.bridge, text).effects == [Send(ItemCreate(Trim(text.value))), Send(ResponseCreate)])
  {
  }

  /**
   * A socket error ends the relay at once, before its 'close' arrives:
   * text and renderer audio are refused and captured audio is dropped. The
   * log and capture are kept, and the 'close' that follows changes nothing
   * more about liveness.
   */
  lemma ErrorEndsRelay(b: Bridge, message: Option<string>, text: Option<string>, data: seq<byte>, encoded: string)
    ensures var after := OnSocketError(b, message).bridge;
            && !Live(after)
            && after.conv == b.conv && after.captureRunning == b.captureRunning
            && SendText(after, text) == Handled(after, [], Failure(NoSession))
            && SendAudioContent(after, encoded) == Handled(after, [], Failure(NoSession))
            && OnCaptureData(after, data).effects == []
            && !Live(OnSocketClose(after).bridge)
  {
  }

  /**
   * A stop or a close while a start waits for the kill replies success at
   * once, and capture starts anyway when the start resumes.
   */
  lemma StopDuringStart(b: Bridge, arch: string)
    ensures var waiting := BeginCapture(b, true).bridge;
            var stopped := StopCapture(waiting);
            var closed := CloseSession(waiting);
            && stopped.reply == Success(()) && closed.reply == Success(())
            && ResumeCapture(stopped.bridge, arch, true, Spawned).reply == Some(Attempted(true))
            && ResumeCapture(stopped.bridge, arch, true, Spawned).bridge.captureRunning
            && ResumeCapture(closed.bridge, arch, true, Spawned).bridge.captureRunning
  {
  }

  /**
   * Two starts whose waits overlap both spawn, after both kills ran, but
   * only the later process stays recorded: a stop then signals one process.
   */
  lemma OverlappingStarts(b: Bridge, arch: string, first: SpawnOutcome)
    requires first.Spawned? || first.SpawnedWithoutPid?
    ensures var waiting := BeginCapture(BeginCapture(b, true).bridge, true);
            var one := ResumeCapture(waiting.bridge, arch, true, first);
            var two := ResumeCapture(one.bridge, arch, true, Spawned);
            && waiting.effects == [KillStaleCapture]
            && one.effects[0] == SpawnCapture(BinaryName(arch))
            && two.effects == [SpawnCapture(BinaryName(arch))]
            && two.reply == Some(Attempted(true))
            && StopCapture(two.bridge).effects == [TerminateCapture]
  {
  }

  /** A new conversation keeps the connection and capture, and its snapshot is the new id with no turns. */
  lemma NewSessionKeepsConnection(b: Bridge, id: SessionId)
    ensures var renewed := StartNewSession(b, id).bridge;
            && GetCurrentSession(renewed).reply == Success(Snapshot(Some(id), []))
            && Live(renewed) == Live(b)
            && renewed.captureRunning == b.captureRunning
            && (Inv(b) ==> Inv(renewed))
  {
  }

  /**
   * Apart from starting a session or a new conversation, nothing rewrites
   * the log: the snapshot after any other input extends the one before.
   */
  lemma HistoryOnlyGrows(b: Bridge, input: Input)
    requires Inv(b)
    requires !input.InitializeRequest? && !input.StartNewSessionRequest?
    ensures var before := GetCurrentSession(b).reply.value.history;
            var after := GetCurrentSession(Apply(b, input).bridge).reply.value.history;
            && |before| <= |after|
            && after[..|before|] == before
  {
  }
}
