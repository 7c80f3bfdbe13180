# Realtime session bridge — a Dafny model

This project models the core of an Electron desktop assistant's bridge to a
realtime conversational endpoint (`src/utils/openai.js`), together with the
response navigation state of its assistant view
(`src/components/views/AssistantView.js`). The bridge has four parts:

- **Audio framing and downmix.** Raw 24 kHz 16-bit stereo bytes from the
  `SystemAudioDump` capture process are accumulated and cut into
  9600-byte frames (100 ms). Each frame is reduced to its left channel, and
  the result goes to the socket as `input_audio_buffer.append` only while
  the session is live. Modules `Pcm` and `Framing`, and `Bridge.OnCaptureData`.
- **Response assembler.** The socket's message handler runs over parsed
  server events. Transcript fragments accumulate in the transcription and
  reply deltas in the message buffer. `response.done` resolves the reply,
  pairs it with the transcription into a turn and resets. Module `Assembler`.
- **Conversation recorder.** An append-only log of turns keyed by a session
  id, with each saved turn forwarded to the renderer. Module `Recorder`.
- **Session and connection control.** The in-flight initialisation guard,
  the socket's open/error/close events, and the IPC handlers for text,
  audio relay, capture start/stop, close, new session and snapshot. Module
  `Bridge`. Each run of a handler up to its next suspension is a pure
  function from state to new state plus an ordered log of effects: renderer
  notifications, socket writes, socket close, capture process signals. Only
  the capture start suspends, at its `await` of the stale-instance kill, so it
  is two steps with other events possibly in between.

`ResponseView` models the assistant view's `responses` list. It covers the
shown index, the counter, the greeting fallback, previous/next navigation
and duplicate-free saving.

Clocks (`Date.now()`, `new Date().toISOString()`) are parameters. So are
the system prompt, the host platform and architecture, whether the capture
binary exists, and how `spawn` and `new WebSocket` went. Shared vocabulary
lives in `Messages`: turns, renderer notices, wire messages and effects.
JavaScript `trim` and integer-to-text rendering live in `JsText`.

## Behaviour worth knowing

Some of what the source does is easy to misread. The model keeps all of it.

- `convertStereoToMono` (src/utils/openai.js:408-418) throws when the
  length is not a multiple of 4. Its last iteration reads or writes past the
  end of a Node buffer. `Pcm.ConvertStereoToMono` returns `Failure(RangeError)`.
  The capture path only passes 9600-byte frames, so this never happens there.
- `isInitializingSession` (src/utils/openai.js:93-98) never rejects a start
  when the code up to the `try` returns normally. The flag is raised at line
  98 and lowered before the function returns (lines 245 and 250). There is no
  `await` in between. So a second start while the first socket is still
  connecting opens another connection (`Bridge.GuardNeverRejects`).
- On `response.done` the transcription is cleared only when a turn is saved
  (src/utils/openai.js:208-211). Otherwise it carries over into the next turn.
  The message buffer is always cleared (line 213).
- The save test at src/utils/openai.js:208 looks at the untrimmed strings.
  `saveConversationTurn` stores them trimmed (lines 45-46). So a
  whitespace-only transcript fragment yields a turn with an empty
  transcription.
- 'close-openai-session' (src/utils/openai.js:673-688) does not clear the
  message buffer. A partial reply stays until the next `response.created`
  (line 176).
- `startMacOSAudioCapture` (src/utils/openai.js:285-350) does not check for
  a running capture. It kills every instance by name and spawns a new
  process. A spawn without a pid (lines 330-336) replies failure but leaves
  the process recorded, so a later stop still signals it.
- The capture start awaits the kill of stale instances (src/utils/openai.js:288),
  up to 2 s (lines 278-281), before it spawns at line 330. A stop or a close
  in that window replies success, and capture starts afterwards anyway. Two
  starts whose waits overlap both spawn after both kills ran. Only the later
  process stays recorded, so a stop signals one of the two
  (`Bridge.StopDuringStart`, `Bridge.OverlappingStarts`).
- ws moves a connecting or open socket to CLOSING before it emits 'error'.
  So from an 'error' on, the liveness checks at src/utils/openai.js:429, 461,
  481 and 606 fail, before the 'close' event arrives (`Bridge.ErrorEndsRelay`).
- The `error` event's text is `event.message`, or 'Unknown error'
  (src/utils/openai.js:219-222).
- `profileNames[this.selectedProfile]`
  (src/components/views/AssistantView.js:374) is a plain-object lookup. The
  keys the object inherits from `Object.prototype` are found too. For
  `constructor` the greeting names `function Object() { [native code] }`, not
  'session'.

## Model

| member | source | states |
|---|---|---|
| JsText.Trim | src/utils/openai.js:45-46 | `trim` returns the infix of its input between leading and trailing whitespace runs; it is empty exactly when the input is all whitespace, and otherwise starts and ends with a non-whitespace character |
| JsText.TrimIdempotent | src/utils/openai.js:45-46 | trimming an already trimmed text changes nothing |
| JsText.DecimalRoundTrip | src/components/views/AssistantView.js:432 | the decimal rendering of a count reads back as that count |
| JsText.DecimalCanonical | src/components/views/AssistantView.js:432 | a digit string without a leading zero that reads back as n is the rendering of n, so rendering is the only such string |
| Pcm.WriteInt16LE | src/utils/openai.js:414 | the two little-endian bytes written for a sample read back as that sample |
| Pcm.WriteReadsBack | src/utils/openai.js:413-414 | writing back a sample just read reproduces the same two bytes |
| Pcm.LeftChannel | src/utils/openai.js:408-418 | the downmix of 4n stereo bytes has 2n bytes, and mono sample i equals the left sample of stereo pair i |
| Pcm.RightChannelIgnored | src/utils/openai.js:408-418 | two stereo buffers that agree on their left channels downmix to the same bytes: right-channel bytes never affect the output |
| Pcm.LeftChannelBytes | src/utils/openai.js:412-415 | mono bytes 2i and 2i+1 are stereo bytes 4i and 4i+1 |
| Pcm.LeftChannelAppend | src/utils/openai.js:408-418 | downmixing two buffers one after the other equals downmixing their concatenation |
| Pcm.ConvertStereoToMono | src/utils/openai.js:408-418 | succeeds exactly when the length is a multiple of 4, with half as many bytes holding the left samples; other lengths are an error |
| Framing.Slice | src/utils/openai.js:363-365 | every frame cut has exactly 9600 bytes, frames followed by the rest give back the buffer, and less than one frame is left |
| Framing.KeepTail | src/utils/openai.js:377-380 | the retained buffer is at most the cap, is the buffer itself when within the cap, and its last bytes otherwise |
| Framing.Feed | src/utils/openai.js:360-381 | a data event emits only 9600-byte frames, loses and reorders nothing (frames then kept bytes equal old buffer then data), keeps fewer than 9600 ≤ 48000 bytes, so the tail trim never fires |
| Framing.SliceUnique | src/utils/openai.js:363-365 | any cut of a buffer into full frames and a rest shorter than a frame is the one the loop produces |
| Framing.FeedSplit | src/utils/openai.js:360-375 | two consecutive data events emit the same frames and keep the same bytes as one event carrying both payloads |
| Framing.MonoFramesFlatten | src/utils/openai.js:363-369 | downmixing the frames one by one equals downmixing all consumed bytes at once |
| Framing.SliceFrames | src/utils/openai.js:363-365 | the loop cuts as many frames as whole 9600-byte windows fit, and frame i is bytes 9600·i up to 9600·(i+1) of the buffer |
| Recorder.InitializeNewSession | src/utils/openai.js:31-36 | a new session has the given id, no transcription and an empty log; the reply buffer is untouched |
| Recorder.SaveConversationTurn | src/utils/openai.js:38-58 | starts a session when there is none, appends exactly one turn with both texts trimmed at the end of the log leaving earlier turns as they were, and forwards that turn with the session id and full log once |
| Assembler.ScanPartsSpec | src/utils/openai.js:192-197 | the content-part loop leaves the last non-empty text part in the buffer (the buffer unchanged when there is none) and shows each such part once, in order |
| Assembler.ScanItemsSpec | src/utils/openai.js:189-200 | over all message items the last text part wins and each text part is shown once, in order |
| Assembler.Step | src/utils/openai.js:149-226 | on any event the turn log only grows at the end, by at most one turn, and a log without a session stays empty |
| Assembler.TranscriptionStep | src/utils/openai.js:166-172 | a non-empty transcript is appended with a trailing space, anything else changes nothing; nothing is shown |
| Assembler.ResponseCreatedStep | src/utils/openai.js:175-176 | `response.created` empties the buffer and changes nothing else |
| Assembler.DeltaStep | src/utils/openai.js:177-183 | a non-empty delta is appended to the buffer and nothing is shown |
| Assembler.DeltasAccumulate | src/utils/openai.js:177-183 | a run of deltas leaves their concatenation at the end of the buffer and shows nothing |
| Assembler.TextDoneStep | src/utils/openai.js:184-186 | `response.output_text.done` shows the buffer once and changes no state |
| Assembler.ResponseDoneResolves | src/utils/openai.js:187-205 | `response.done` shows each structured text part once and the last becomes the reply; with no output, a non-empty buffer is shown once; with output but no text part, the delta buffer stays the reply unshown |
| Assembler.SettleSpec | src/utils/openai.js:207-215 | a turn is saved iff transcription and reply are both non-empty; only then is the transcription cleared; the buffer ends empty; one 'response-complete' and one 'Listening...' always end the step |
| Assembler.ResponseDoneFinishes | src/utils/openai.js:187-216 | `response.done` end to end: replies shown first, then at most one save notification, then the closing pair; log and transcription change exactly when a turn is saved |
| Assembler.ErrorStep | src/utils/openai.js:219-222 | an error event only reports 'Error: ' and its message or 'Unknown error' |
| Assembler.IgnoredEvents | src/utils/openai.js:155-165 | session and speech events, and unknown kinds, change nothing and show nothing |
| Assembler.HelloScenario | src/utils/openai.js:149-216 | transcript "hello", deltas "Hi" and " there", then `response.done` without output record the turn ("hello", "Hi there") and leave both accumulators empty |
| Bridge.InitializeSession | src/utils/openai.js:92-254 | a start request announces initialising true then false and resets the conversation. When the socket is constructed it is connecting, held, and carries the request's prompt. Capture, the audio buffer, any capture start still waiting and the handlers' ref are untouched. A failed construction changes nothing but the conversation. The guard is lowered before returning |
| Bridge.InitializeCommand | src/utils/openai.js:451-458 | the command is the session start: same reply, same notices, same conversation reset and socket state, except the handlers' ref. On success that ref points at the new, still-connecting socket; on failure it is left as it was |
| Bridge.GuardNeverRejects | src/utils/openai.js:93-98 | between handlers the guard never turns a start request away, even while a previous socket is still connecting |
| Bridge.OnSocketOpen | src/utils/openai.js:114-147 | opening reports the connection and sends exactly one `session.update` with the prompt and a 24000 Hz input rate |
| Bridge.OnSocketMessage | src/utils/openai.js:149-226 | a message applies one assembler step and forwards its notifications. Every effect is a renderer notification, so nothing is written to or closes the socket and no process is signalled |
| Bridge.OnSocketError | src/utils/openai.js:228-233 | a socket error reports 'Error: ' and its message (or 'Connection error'), then initialising false. A connecting or open socket is CLOSING by then, as ws sets it, so the session is no longer live. Apart from the guard and the socket state nothing changes |
| Bridge.OnSocketClose | src/utils/openai.js:235-242 | a close reports it, drops the socket and module references and lowers the guard, leaving the socket CLOSED and the session not live. Capture, its buffer, the prompt, the handlers' ref and the conversation are unchanged |
| Bridge.SendText | src/utils/openai.js:605-644 | no live session gives 'No active OpenAI session' before any validation; a missing or blank text gives 'Invalid text message' with nothing sent; otherwise exactly the trimmed `conversation.item.create` then `response.create` |
| Bridge.SendAudioContent | src/utils/openai.js:460-498 | renderer audio (system or microphone) is relayed as one `input_audio_buffer.append` exactly when the session is live; otherwise 'No active OpenAI session' with nothing sent; the state never changes |
| Bridge.OnCaptureData | src/utils/openai.js:360-381 | a capture data event sends only while live: exactly `CaptureSends` of the accumulated bytes, together the left channel of the whole frames consumed, in order. It drops them silently otherwise and keeps less than one frame |
| Bridge.CaptureSends | src/utils/openai.js:363-369 | one append per whole 9600-byte window of the accumulated bytes, in order, each carrying that window's left channel |
| Bridge.CaptureDataPerFrame | src/utils/openai.js:363-369 | while live, a data event makes one append per frame, never a merged one, each carrying that frame's 4800-byte left channel |
| Bridge.BinaryName | src/utils/openai.js:295-296 | the x86 binary is chosen exactly for an x64 (or x86_64) architecture |
| Bridge.BeginCapture | src/utils/openai.js:646-661 | off macOS the request is refused at once with an error. Otherwise the kill of stale instances starts and the start waits, with no reply yet and nothing else changed |
| Bridge.ResumeCapture | src/utils/openai.js:288-350 | a waiting start resumes and replies success exactly when the binary exists and spawns with a pid, which starts capture with an empty buffer. Each failure has its own status: binary missing, no pid (the process stays recorded), architecture mismatch, or the spawn error's message. A resumption with no start waiting does nothing |
| Bridge.StartCapture | src/utils/openai.js:285-350 | a start with nothing in between its two steps: off macOS the request is refused with an error. Otherwise stale instances are killed first, and the reply is success exactly when the binary exists and spawns with a pid, which starts capture with an empty buffer. Each failure has its own status: binary missing, no pid (the process stays recorded), architecture mismatch, or the spawn error's message; after a thrown spawn or a missing binary the state is unchanged |
| Bridge.StopAfterStart | src/utils/openai.js:329-347 | every spawn that produced a process, the pid-less one included even though it replied failure, is signalled by a later stop; a spawn that threw leaves stop behaving as before |
| Bridge.OnCaptureClosed | src/utils/openai.js:387-390 | the process closing forgets it, changes nothing else and reports nothing |
| Bridge.OnCaptureError | src/utils/openai.js:392-403 | a process error reports the architecture mismatch or 'SystemAudioDump failed - ' and the message, and forgets the process, changing nothing else |
| Bridge.EndedProcessNotSignalled | src/utils/openai.js:387-403 | after the process closes or fails, neither a stop nor a close signals it |
| Bridge.StopCapture | src/utils/openai.js:420-426 | stopping always succeeds, signals the process only if there is one, and leaves no process |
| Bridge.StopIdempotent | src/utils/openai.js:663-671 | a second stop does nothing and still succeeds |
| Bridge.CloseSession | src/utils/openai.js:673-688 | closing stops capture before closing the held socket, always succeeds and leaves the session not live. With the handlers' ref held, the socket is dropped and no longer connecting or open (CLOSING, or as it was when already closing or closed). Without it, the socket is untouched. The guard, the prompt, the module's ref, the audio buffer and the conversation are unchanged, and the invariant is kept |
| Bridge.NothingSentAfterClose | src/utils/openai.js:605-608 | after a close, text and renderer audio are refused with 'No active OpenAI session', and captured audio is dropped, with no socket write |
| Bridge.SendTextBeforeSession | src/utils/openai.js:605-608 | text sent before any session is refused with no socket write and no state change |
| Bridge.StartNewSession | src/utils/openai.js:699-707 | replies the new id. The conversation gets that id, no transcription and an empty log, keeping the reply buffer. Connection and capture fields are untouched |
| Bridge.GetCurrentSession | src/utils/openai.js:690-697 | the snapshot is the current id and full log, with no state change and no effects |
| Bridge.NewSessionKeepsConnection | src/utils/openai.js:690-707 | after a new conversation the snapshot is the new id with no turns, while liveness, capture and the invariant are kept |
| Bridge.HistoryOnlyGrows | src/utils/openai.js:38-58 | apart from a session start or a new conversation, every input leaves a snapshot log that extends the previous one |
| Bridge.ConnectThenSend | src/utils/openai.js:114-147 | after a start request and the socket's open, the `session.update` carries that request's prompt. Before the open, any text and any audio are refused with 'No active OpenAI session' and nothing is written. After it, audio is relayed and every non-blank text goes out trimmed |
| Bridge.ErrorEndsRelay | src/utils/openai.js:228-233 | from a socket error on, before its close, text and renderer audio are refused with nothing written and captured audio is dropped; the log and capture are kept |
| Bridge.StopDuringStart | src/utils/openai.js:288 | a stop or a close while a start waits replies success, and the start then still starts capture |
| Bridge.OverlappingStarts | src/utils/openai.js:288-330 | two starts whose waits overlap kill first, then both spawn; only the later process stays recorded, so a stop signals one process |
| Bridge.Apply | src/utils/openai.js:9-21 | every handler keeps the invariant: guard down, no log without a session, a socket that may still open is held, less than one frame buffered |
| Bridge.InvariantAlways | src/utils/openai.js:9-21 | from any state satisfying the invariant, any sequence of events and commands keeps it |
| ResponseView.CurrentResponse | src/components/views/AssistantView.js:370-375 | the shown response is the one at the index when the index is valid, the greeting when there are none or the index is negative, undefined past the end |
| ResponseView.WelcomeNamesProfile | src/components/views/AssistantView.js:359-375 | the greeting names what the profile lookup finds, and 'session' exactly when the lookup finds nothing |
| ResponseView.ProfileNamesOfKeys | src/components/views/AssistantView.js:359-375 | the six profiles map to their display names; `constructor`, `__proto__` and `toString` map to what a template literal renders for the inherited property; other keys find nothing |
| ResponseView.ResponseCounter | src/components/views/AssistantView.js:431-433 | the counter is empty exactly when there are no responses. Otherwise it is two canonical decimals (no leading zero) around a slash, reading back as index+1 and the count. By `JsText.DecimalCanonical` these are the renderings of those numbers |
| ResponseView.NavigatePrevious | src/components/views/AssistantView.js:435-445 | steps back by one and dispatches one event with the new index iff the index is above 0, otherwise changes nothing |
| ResponseView.NavigateNext | src/components/views/AssistantView.js:447-457 | steps forward by one and dispatches one event with the new index iff the index is below length-1, otherwise changes nothing |
| ResponseView.NavigationStaysInRange | src/components/views/AssistantView.js:435-457 | from a valid index any sequence of presses keeps it valid, changes only the index, and the last event names the final index |
| ResponseView.AnySaved | src/components/views/AssistantView.js:596 | the `some` loop finds a match exactly when some saved entry has the shown text |
| ResponseView.IsResponseSaved | src/components/views/AssistantView.js:594-597 | true exactly when some saved entry has the shown response's text |
| ResponseView.SaveCurrentResponse | src/components/views/AssistantView.js:577-592 | appends exactly one entry with the shown text, timestamp and profile iff that text is non-empty and not yet saved; existing entries are never changed |
| ResponseView.SaveTwiceAddsAtMostOne | src/components/views/AssistantView.js:577-597 | saving again right after a save changes nothing |
| ResponseView.SaveKeepsDistinct | src/components/views/AssistantView.js:577-597 | a saved list without duplicate texts stays without duplicates |

## Left out

- WebSocket construction and transport, `child_process` spawning, `pkill` and its 2 s timeout, `fs.existsSync`, path resolution for packaged and development builds, `ipcMain` wiring and `BrowserWindow` messaging. These are I/O. Their outcomes are parameters (`CaptureHost`, `constructed`), and their actions are entries in the effect log.
- JSON parsing and serialisation. Events arrive as the parsed `ServerEvent` datatype, whose `output` is a list of items and each item's `content` a list of parts. A message that fails to parse throws before anything changes and is only logged.
- Malformed `response.done` output is not modelled. The loops at src/utils/openai.js:190-199 may meet a `null` item, or a non-iterable `content` after an earlier text part. They then throw partway, after `messageBuffer` was already overwritten and an 'update-response' sent. The save and the closing pair are skipped, and the earlier changes persist. A truthy non-array `output` behaves in one of two ways. A string does not throw: it is iterated without finding a message, and it suppresses the buffer fallback. A non-iterable value such as `{}` or a number throws a `TypeError` at the `for…of` on line 190 before anything changes. That skips the save and the closing pair.
- Server text fields of a type other than string. A truthy `transcript`, `delta`, `text` or `message` of another type is modelled as `None`. JavaScript would concatenate or render it: `transcript: 5` adds "5 " (src/utils/openai.js:167-170). Only malformed server data takes this path.
- Base64 encoding (`bufferToBase64`, `arrayBufferToBase64`). It is a Node `Buffer` call. Capture audio is logged as its PCM bytes (`Pcm16`), which the socket receives base64-encoded.
- `convertFloat32ToPCM16`. It is floating-point numerics and nothing in the file calls it.
- The screenshot analysis handler (`send-image-content-openai`). It is a call to an external API client.
- Debug audio saving, stdout progress dots and console logging.
- `getSystemPrompt` and the unused `language` argument. The prompt is a parameter.
- Bridge.GuardNeverRejects: assumes the code before the `try` of `initializeOpenAISession` returns normally. `getSystemPrompt` runs at src/utils/openai.js:104, before the `try` at line 106. If it threw, `isInitializingSession` would stay true, and every later start would return false at lines 93-96.
- The `catch` branches of the IPC handlers. Exceptions from `socket.send` and `process.kill` are not modelled.
- Several sockets alive at once. A re-initialisation replaces the modelled socket, and the late events of an older socket are not modelled. The same goes for an older capture process, whose late 'close' event would clear the newer process reference.
- Bridge.ResumeCapture: a process whose reference a later spawn overwrote is shown only by the spawn effect. Its own accumulation buffer (src/utils/openai.js:358) and its own data handler, which keep relaying audio, are not modelled. The model has one buffer, that of the recorded process.
- `sendToRenderer` when no window exists. Notifications are logged whether or not a window would receive them.
- Everything else in `AssistantView.js`: styles, markdown rendering, word-by-word animation, scrolling, `localStorage` persistence, IPC listeners. Also `src/components/views/ChatView.js` entirely, a UI component.
- ResponseView.ProfileName: the texts for the methods inherited from `Object.prototype` are what V8 (the engine Electron embeds) prints for a built-in function. Other engines may print them differently.
- JavaScript strings are UTF-16 code units, while Dafny strings are sequences of Unicode scalar values, so lone surrogates are not represented.
- Bridge.OnSocketOpen: states the behaviour only for a connecting socket whose reference is held. That is the only case that arises under the invariant. Without the reference, the source's send would throw after the status notice.
