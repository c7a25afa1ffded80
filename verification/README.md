# Voice transcription and voice quiz: a Dafny model

This project models the core of a French/English voice-answer application.

- **The transcription server.** Each WebSocket connection has a handler. It buffers audio messages and remembers the language from a `start` command. On `end` with audio buffered it joins the chunks and names an upload file after the MIME type, which defaults to "audio/webm". It then asks a speech-to-text provider for a transcript and answers with exactly one `transcript` or `error` frame. With nothing buffered, `end` is ignored. The server also has a few pure rules: the CORS origin check and the language and Whisper-prompt choice. It also defines a system-prompt helper, `getSystemPrompt`, that nothing calls; `BackendRules.SystemPromptFor` models it.
- **The browser recorder (`RecorderService`).** It opens the socket and sends `start` with the language. It picks the first audio format the browser supports and streams non-empty chunks while the socket is open. It sends `end` only while recording, and it releases the microphone tracks when the socket closes.
- **The voice quiz (`VoiceQuiz`).** It judges a spoken answer. The validation API is tried first; an expected answer found as a substring is the fallback. The quiz moves to the next question after a correct answer, shows the end message on the last question, and can be reset.

Modules:

| file | module | what it holds |
|---|---|---|
| `common.dfy` | `Common` | bytes, `Option` |
| `text.dfy` | `Text` | the JavaScript string built-ins the core relies on: `toLowerCase` (ASCII), `trim` (the ECMAScript white-space and line-terminator set), `includes`, `split` with a one-character separator |
| `protocol.dfy` | `Protocol` | the frames on the wire and how the server classifies an inbound message |
| `backend_rules.dfy` | `BackendRules` | CORS, language, prompts, MIME type defaulting, upload file name, `Buffer.concat` |
| `backend_session.dfy` | `BackendSession` | one connection:<br>• `Step` is the handler as a function of the session;<br>• `Run` applies it to a sequence of messages;<br>• the `Connection` class is updated in place by `OnMessage` |
| `recorder.dfy` | `Recorder` | the format choice and the `RecorderService` class, with the socket, recorder and media stream as abstract state |
| `quiz.dfy` | `Quiz` | answer validation and the `VoiceQuiz` component state |
| `pipeline.dfy` | `Pipeline` | the recorder's frames delivered to the server's handler, end to end |

The transcription provider is a parameter: `transcribe: Submission -> ProviderReply`. For a request it gives either the recognised text or a rejection, which stands for any thrown error. The validation API of the quiz is also a parameter (`ApiOutcome`). Browser events are methods the environment calls: the socket opening, a chunk being ready, a server frame, a socket error or close, a recognition result, and a timer firing.

Behaviours of the code a reader might not expect, which the model follows:

- **After a provider failure the buffer is not cleared.** The reset sits after the `transcript` send, inside the `try` (backend/src/index.js:254-266). The next recording on the same connection is therefore submitted with the rejected audio in front of it; `BackendSession.StaleAudioAfterFailure` states this.
- **The microphone is not released after a normal recording.** `stopRecording` stops the recorder and sends `end` but leaves releasing the tracks to the socket's `close` handler (frontend/src/services/recorderService.js:68-78). Nothing closes the socket after a transcript. A later `startRecording` replaces `this.stream` when its socket opens (frontend/src/services/recorderService.js:31), so the earlier stream's tracks are never stopped. `Recorder.RecordOnce` shows the track still live after `stopRecording`.
- **The recorder's last chunk is sent after `end`.** `stopRecording` sends `end` right after `mediaRecorder.stop()` (frontend/src/services/recorderService.js:70-74). The recorder delivers its last chunk after that, and the chunk goes out at lines 35-37. The server has already made its request by then, so that chunk is never transcribed; `Pipeline.LastChunkAfterEnd` states this.
- **A second `start` before `end` is accepted.** It changes only the language and keeps the audio already buffered, which is then submitted with the next `end` (backend/src/index.js:204-209).

## Model

| member | source | states |
|---|---|---|
| Text.LowerChar | frontend/src/components/VoiceQuiz.jsx:117 | upper-case ASCII letters move to lower case, every other character is kept, no upper-case ASCII letter remains |
| Text.Lower | frontend/src/components/VoiceQuiz.jsx:117 | `toLowerCase` keeps the length and lowercases character by character |
| Text.LowerAppend | frontend/src/components/VoiceQuiz.jsx:79 | lowercasing distributes over concatenation |
| Text.LowerIdempotent | frontend/src/components/VoiceQuiz.jsx:79 | lowercasing twice is lowercasing once |
| Text.LowerCharWhiteSpace | frontend/src/components/VoiceQuiz.jsx:79 | lowercasing never turns white space into non-white space or back |
| Text.TrimStartSpec | frontend/src/components/VoiceQuiz.jsx:117 | the leading part removed is all white space, and what remains does not start with white space |
| Text.TrimEndSpec | frontend/src/components/VoiceQuiz.jsx:117 | the trailing part removed is all white space, and what remains does not end with white space |
| Text.TrimDecompose | frontend/src/components/VoiceQuiz.jsx:117 | `s` is white space, then `trim(s)`, then white space, and `trim(s)` has no white space at either end |
| Text.TrimStartOfPadded | frontend/src/components/VoiceQuiz.jsx:117 | stripping white space in front of a part that starts otherwise gives exactly that part |
| Text.TrimEndOfPadded | frontend/src/components/VoiceQuiz.jsx:117 | stripping white space after a part that ends otherwise gives exactly that part |
| Text.TrimUnique | frontend/src/components/VoiceQuiz.jsx:117 | trimming white space around a trimmed string gives that string back |
| Text.TrimOfTrimmed | frontend/src/components/VoiceQuiz.jsx:79 | `trim` leaves a trimmed string unchanged |
| Text.TrimIdempotent | frontend/src/components/VoiceQuiz.jsx:79 | trimming twice is trimming once |
| Text.LowerAllWhiteSpace | frontend/src/components/VoiceQuiz.jsx:79 | lowercasing keeps an all-white-space string all white space |
| Text.LowerTrimmed | frontend/src/components/VoiceQuiz.jsx:79 | lowercasing keeps a trimmed string trimmed |
| Text.TrimLowerCommute | frontend/src/components/VoiceQuiz.jsx:79 | `trim(lower(s)) == lower(trim(s))`, so the two orders used by the quiz agree |
| Text.ContainsInside | frontend/src/components/VoiceQuiz.jsx:71 | a string is found wherever it sits inside another |
| Text.WhitePrefixBound | frontend/src/components/VoiceQuiz.jsx:79 | a white-space prefix ends before any non-white-space character |
| Text.WhiteSuffixBound | frontend/src/components/VoiceQuiz.jsx:79 | a white-space suffix starts after any non-white-space character |
| Text.ContainsInSlice | frontend/src/components/VoiceQuiz.jsx:81 | a part found in a slice that covers it |
| Text.TrimKeepsCore | frontend/src/components/VoiceQuiz.jsx:79-81 | trimming never cuts into a part with non-white-space ends, whatever surrounds it |
| Text.Split | backend/src/index.js:235 | `split` always yields at least one part |
| Text.SplitSpec | backend/src/index.js:235 | there is one part exactly when the separator is absent; no part contains the separator; the first part is the prefix up to the first separator |
| Text.JoinSplit | backend/src/index.js:235 | joining the parts with the separator gives the string back |
| Text.SplitPrefix | backend/src/index.js:235 | a separator-free prefix followed by the separator is the first part |
| Text.SplitJoin | backend/src/index.js:235 | splitting a join of separator-free parts gives the parts back |
| Text.FirstPart | backend/src/index.js:235 | the first part is the longest separator-free prefix |
| Text.SplitNoSeparator | backend/src/index.js:235 | without the separator the only part is the whole string |
| BackendRules.CheckOrigin | backend/src/index.js:26-35 | allowed exactly for no origin, the empty origin and the two localhost:3000 origins; otherwise denied with "Not allowed by CORS" |
| BackendRules.TranscriptionLanguageFor | backend/src/index.js:205 | "en" exactly for `lang === 'en-US'`, "fr" for anything else, including a missing or non-string `lang` |
| BackendRules.WhisperPrompt | backend/src/index.js:245-248 | the French prompt exactly for "fr", the English one otherwise |
| BackendRules.SystemPromptFor | backend/src/index.js:79-85 | the English correction prompt exactly when `lang` starts with "en" (a helper the server defines but never calls) |
| BackendRules.DeclaredMimeType | backend/src/index.js:234-235 | a non-empty string is kept; every falsy value gives "audio/webm"; a truthy non-string makes `split` throw |
| BackendRules.UploadFileName | backend/src/index.js:235 | a name exists exactly when the MIME type has a '/' (otherwise `split('/')[1]` is undefined and the handler throws) |
| BackendRules.UploadFileNameOf | backend/src/index.js:235 | the name is "upload." followed by the subtype: the text after the first '/' up to ';', '/' or the end |
| BackendRules.FileNameFor | backend/src/index.js:235 | `kind/ext` followed by parameters is named "upload.ext" |
| BackendRules.WebmOpusFileName | backend/src/index.js:235 | "audio/webm;codecs=opus" is uploaded as "upload.webm" |
| BackendRules.WebmFileName | backend/src/index.js:234-235 | "audio/webm", the default, is uploaded as "upload.webm" |
| BackendRules.OggOpusFileName | backend/src/index.js:235 | "audio/ogg;codecs=opus" is uploaded as "upload.ogg" |
| BackendRules.Mp4FileName | backend/src/index.js:235 | "audio/mp4" is uploaded as "upload.mp4" |
| BackendRules.Concat | backend/src/index.js:233 | the joined audio holds exactly as many bytes as all the chunks |
| BackendRules.TotalSizeUniform | backend/src/index.js:233 | n chunks of equal size s hold n·s bytes |
| BackendRules.ConcatAppend | backend/src/index.js:233 | joining two runs of chunks is joining each and concatenating |
| BackendRules.ConcatByteAt | backend/src/index.js:233 | byte j of chunk i sits right after all bytes of the earlier chunks: arrival order is kept byte for byte |
| BackendSession.PrepareSubmission | backend/src/index.js:232-249 | a request is made exactly when the MIME type is usable; it carries the joined chunks, the declared or default type, the derived file name, and the language with its prompt |
| BackendSession.StepSpec | backend/src/index.js:194-268 | a frame is sent exactly for an `end` that finds audio buffered, and such an `end` makes exactly the request `PrepareSubmission` describes (so one whenever the type, declared or defaulted, is usable); audio (not JSON, or JSON `null`) is appended as is; `start` only sets the language; any other command changes nothing; a transcript empties the buffer; an error leaves the session unchanged; conversely, a request answered with a transcript sends that transcript and empties the buffer, and a rejected one sends the error frame and keeps the session |
| BackendSession.RunAppend | backend/src/index.js:194 | running two message sequences one after the other is running their concatenation: frames and requests accumulate in order |
| BackendSession.AtMostOneReplyPerMessage | backend/src/index.js:194-266 | over any sequence of messages at most one frame is sent per message, and the provider is asked only for messages that are answered |
| BackendSession.AsBinary | backend/src/index.js:211-217 | the chunks arrive as non-JSON messages, one per chunk, in order |
| BackendSession.HandlerBuffersAudio | backend/src/index.js:211-217 | the handler appends every non-JSON message and does nothing else |
| BackendSession.AudioIsBuffered | backend/src/index.js:211-217 | any run of audio messages is appended in arrival order, with nothing sent and nothing requested |
| BackendSession.EndStep | backend/src/index.js:221-266 | any `end` with audio and a usable type, declared or defaulted, asks the provider exactly once; a transcript empties the buffer; a rejection keeps the session |
| BackendSession.EndCommandSubmission | backend/src/index.js:232-249 | a client `end` with a string type containing '/' requests the joined chunks under that type, its file name, the language and its prompt |
| BackendSession.DefaultTypeEnd | backend/src/index.js:234-235 | `end` with no type, an empty one or `false`, on buffered audio, asks the provider for that audio as "audio/webm" named "upload.webm", and a frame is sent |
| BackendSession.RecordingCycle | backend/src/index.js:194-268 | `start`, chunks, `end`: exactly one request with everything buffered joined in order and exactly one reply; the buffer is emptied after a transcript and kept after an error |
| BackendSession.StaleAudioAfterFailure | backend/src/index.js:254-266 | after a rejected recording, the next recording on the connection is submitted with the rejected audio in front of its own |
| BackendSession.FreshAudioAfterTranscript | backend/src/index.js:258 | after a transcript, the next recording is submitted with its own audio only |
| BackendSession.UnusableMimeType | backend/src/index.js:234-235 | `end` with audio but a truthy non-string type or a type without '/' gives the error frame, no request, and nothing changes |
| BackendSession.StartThenEnd | backend/src/index.js:223-228 | `start` then `end` with nothing recorded sends nothing and requests nothing |
| BackendSession.ThreeChunkRecording | backend/src/index.js:194-258 | three 500-byte chunks after "fr-FR", ended with "audio/webm": one French request of 1500 bytes named "upload.webm", and the provider's text comes back |
| BackendSession.Connection.constructor | backend/src/index.js:191-192 | a new connection has an empty buffer and the language "fr" |
| BackendSession.Connection.OnMessage | backend/src/index.js:194-268 | the new buffer, language and sent frames, and the request made, are exactly those of `Step` |
| Recorder.FirstSupportedIndex | frontend/src/services/recorderService.js:19-24 | the search stops at the first supported entry; every earlier entry is unsupported |
| Recorder.FirstSupported | frontend/src/services/recorderService.js:19-24 | None exactly when no entry is supported; otherwise a supported entry with no supported entry before it |
| Recorder.WebmOpusPreferred | frontend/src/services/recorderService.js:19-24 | a browser supporting WebM/Opus records in it |
| Recorder.OnlyMp4 | frontend/src/services/recorderService.js:19-24 | a browser supporting only MP4 records in MP4 |
| Recorder.MediaTrack.constructor | frontend/src/services/recorderService.js:31 | a captured track is live |
| Recorder.MediaTrack.Stop | frontend/src/services/recorderService.js:82 | a stopped track is no longer live |
| Recorder.MediaStream.constructor | frontend/src/services/recorderService.js:31 | a stream keeps its tracks |
| Recorder.OpenFailure | frontend/src/services/recorderService.js:26-31 | the open handler gives up exactly when no format is supported (with the fixed message) or the microphone is refused (with its message) |
| Recorder.Forward | frontend/src/services/recorderService.js:50-55 | only a transcript frame, and only with `onTranscript` given, reaches the page |
| Recorder.SendKeepsLog | frontend/src/services/recorderService.js:35-37 | sending a non-empty chunk or an `end` with a listed format keeps the socket's log well formed |
| Recorder.RecorderService.constructor | frontend/src/services/recorderService.js:2-7 | no recorder, no stream, no socket, no format |
| Recorder.RecorderService.StartRecording | frontend/src/services/recorderService.js:9-12 | a new connecting socket with nothing sent; the language defaults to "fr-FR"; recorder, stream and format are untouched |
| Recorder.RecorderService.NotifyError | frontend/src/services/recorderService.js:45 | `onError` gets the message only when it was given |
| Recorder.RecorderService.FailOpen | frontend/src/services/recorderService.js:43-47 | the error is reported and the socket is closing |
| Recorder.RecorderService.SendStart | frontend/src/services/recorderService.js:17 | the open socket's first and only frame is `start` with the language |
| Recorder.RecorderService.StartMedia | frontend/src/services/recorderService.js:29-41 | the chosen format is stored; with the microphone granted a recorder in that format is recording on the stream; refused: error reported, socket closing, no new recorder created (an earlier one is kept) |
| Recorder.RecorderService.OnOpen | frontend/src/services/recorderService.js:14-48 | `start` goes out first; without a supported format or microphone, `onError` and close, with no new recorder created (an earlier one is kept); otherwise a recording recorder in the first supported format |
| Recorder.RecorderService.OnDataAvailable | frontend/src/services/recorderService.js:34-39 | a chunk is sent exactly when it is non-empty and the socket is open; the log stays well formed |
| Recorder.RecorderService.StopRecording | frontend/src/services/recorderService.js:68-78 | only a recording recorder is stopped; `end` with the stored format is sent only then and only on an open socket |
| Recorder.RecorderService.OnServerMessage | frontend/src/services/recorderService.js:50-55 | transcripts are forwarded; error frames are not |
| Recorder.RecorderService.OnSocketError | frontend/src/services/recorderService.js:57-60 | a socket error reaches `onError` with the fixed message |
| Recorder.RecorderService.OnSocketClose | frontend/src/services/recorderService.js:62-65 | the socket is closed and every track of the stream is stopped, the stream dropped |
| Recorder.RecorderService.StopMediaStream | frontend/src/services/recorderService.js:80-85 | every track of the stream is stopped and the stream is dropped; without a stream nothing changes |
| Quiz.IncludesSome | frontend/src/components/VoiceQuiz.jsx:80-82 | true exactly when some expected answer, lowercased, occurs in the answer |
| Quiz.Validate | frontend/src/components/VoiceQuiz.jsx:51-94 | correct exactly when the API's lowercased text contains "oui" or the fallback rule matches |
| Quiz.FailedApiFallsBack | frontend/src/components/VoiceQuiz.jsx:84-93 | a failed API call leaves the fallback rule to decide |
| Quiz.SilentApiFallsBack | frontend/src/components/VoiceQuiz.jsx:67-82 | a reply without `cleanedText` or without "oui" leaves the fallback rule to decide |
| Quiz.FallbackCannotBeOverruled | frontend/src/components/VoiceQuiz.jsx:73-82 | an answer the fallback accepts is accepted whatever the API replies |
| Quiz.NormalizeStable | frontend/src/components/VoiceQuiz.jsx:79 | the validator's lowercase-and-trim changes nothing in the trimmed, lowercased transcript |
| Quiz.ExpectedAnswerAccepted | frontend/src/components/VoiceQuiz.jsx:78-82 | saying an expected answer in any letter case, with any words around it, is accepted |
| Quiz.EmptyExpectedAcceptsAll | frontend/src/components/VoiceQuiz.jsx:80-82 | an empty expected answer accepts every answer |
| Quiz.OuiInTextAccepted | frontend/src/components/VoiceQuiz.jsx:68-75 | any reply text containing "oui" accepts the answer for every question |
| Quiz.LouisAccepted | frontend/src/components/VoiceQuiz.jsx:71 | "Louis" contains "oui", so a reply echoing it accepts any answer |
| Quiz.DemoAnswer | frontend/src/components/VoiceQuiz.jsx:78-82 | an expected answer said on its own is accepted |
| Quiz.QuatreAccepted | frontend/src/components/VoiceQuiz.jsx:4-15 | "Quatre" answers the first question |
| Quiz.FourAccepted | frontend/src/components/VoiceQuiz.jsx:4-15 | "4" answers the first question |
| Quiz.ParisAccepted | frontend/src/components/VoiceQuiz.jsx:4-15 | "Paris" answers the second question |
| Quiz.VoiceQuiz.constructor | frontend/src/components/VoiceQuiz.jsx:4-20 | the two demo questions, on the first, with the placeholder text and no result |
| Quiz.VoiceQuiz.StartRecognition | frontend/src/components/VoiceQuiz.jsx:96-109 | listening starts only when the browser has speech recognition |
| Quiz.VoiceQuiz.OnRecognitionStart | frontend/src/components/VoiceQuiz.jsx:111-113 | the listening message is shown |
| Quiz.VoiceQuiz.OnResult | frontend/src/components/VoiceQuiz.jsx:115-124 | the trimmed, lowercased text is shown; a final result stops listening, shows the checking message and is validated |
| Quiz.VoiceQuiz.OnValidated | frontend/src/components/VoiceQuiz.jsx:125-143 | success or failure message by `Validate`, for the question current when recognition started; the timer is asked for exactly on success |
| Quiz.VoiceQuiz.AdvanceAfterCorrect | frontend/src/components/VoiceQuiz.jsx:132-139 | before the last question the index becomes the next one, with the display cleared when it changes; on the last question the index stays and the end message shows; the index stays inside the question list |
| Quiz.VoiceQuiz.OnRecognitionError | frontend/src/components/VoiceQuiz.jsx:150-153 | listening stops and the error is shown |
| Quiz.VoiceQuiz.OnRecognitionEnd | frontend/src/components/VoiceQuiz.jsx:155-157 | listening stops |
| Quiz.VoiceQuiz.ResetQuiz | frontend/src/components/VoiceQuiz.jsx:167-171 | back to the first question, with the result cleared and the recognised text back to its placeholder |
| Pipeline.Deliver | frontend/src/services/recorderService.js:17 | `start` and `end` frames reach the server as those commands; chunks arrive as audio |
| Pipeline.DeliverAll | frontend/src/services/recorderService.js:37 | frames are delivered one for one, in order |
| Pipeline.DeliverAllAppend | frontend/src/services/recorderService.js:37 | delivery distributes over concatenation |
| Pipeline.AudioFrames | frontend/src/services/recorderService.js:37 | one audio frame per chunk, in order |
| Pipeline.DeliverAudio | backend/src/index.js:211-217 | the recorder's chunks reach the server as the audio messages it buffers |
| Pipeline.DeliverRecording | frontend/src/services/recorderService.js:17-74 | the frames a recording sends up to `end` (`start`, the chunks sent before `end`, `end`) reach the server as one cycle |
| Pipeline.RecorderFormatsHaveFileNames | frontend/src/services/recorderService.js:19-24 | every format the recorder may choose gets an upload file name on the server |
| Pipeline.LogStartsTheCycle | frontend/src/services/recorderService.js:17 | the server sees `start` first and never again on that socket |
| Pipeline.ForwardAll | frontend/src/services/recorderService.js:50-55 | the page is told about at most one thing per server frame |
| Pipeline.EndToEnd | backend/src/index.js:194-266 | the chunks a browser recording sends before `end` become one request, joined in order, in English exactly for "en-US", named after the recorder's format; a transcript reaches `onTranscript`, a rejection reaches the page as nothing |
| Pipeline.RunThenAudio | backend/src/index.js:211-217 | an audio message after any sequence of messages only appends to the buffer: no frame, no request |
| Pipeline.LastChunkAfterEnd | frontend/src/services/recorderService.js:34-39 | with the recorder's last chunk arriving after `end`, there is still exactly one request and one reply, the request holds only the chunks sent before `end`, and the last chunk, arriving after the reply, stays buffered: alone after a transcript, after the kept audio after a rejection |
| Recorder.RecordOnce | frontend/src/services/recorderService.js:9-78 | start, open with the microphone granted, one chunk, `stopRecording`, last chunk: the socket carries `start`, the chunk, `end` with the first supported format, then the last chunk; the microphone track is still live afterwards |

## Left out

- The provider calls (`toFile`, `audio.transcriptions.create`) are foreign calls. They are the parameter `transcribe`; a thrown error is `Rejected`. The model does not capture the provider answering without a `text` (which would send a transcript frame without data).
- JSON parsing is not modelled. An inbound message is classified abstractly: not JSON, JSON `null`, or a JSON value with its `event`, `lang` and `mimeType` properties. A non-string truthy property is represented by its truthiness alone.
- Pipeline.Deliver: assumes that an audio chunk from the recorder is never valid JSON text. The server would take such a chunk for a command.
- Concurrency is left out: the handler is sequential per connection. In the server, messages that arrive while the provider call is awaited run before the buffer reset, so a success wipes a chunk that arrived then. The model handles every message after the previous one is answered. For the recorder's last chunk, which follows `end`, `Pipeline.LastChunkAfterEnd` therefore covers only its arrival after the reply, where it stays buffered; in both orders it is not in the request.
- The `/api/chat` and `/api/tts` handlers, their 400 guards, the unused `voice` value, Express and `server.listen`, the ORM models, migrations, seeder, services, controller and routes are not part of this model; they are library plumbing and LLM proxying.
- Text.Lower: models `toLowerCase` on ASCII letters only; accented capitals such as "É" are left unchanged, where JavaScript lowercases them.
- Recorder.RecorderService.OnOpen: takes the whole `open` handler as one step. Events that arrive while `getUserMedia` is awaited are not interleaved. A `MediaRecorder` constructor that throws is not modelled, and `start(1000)`'s one-second timeslice becomes `OnDataAvailable` events.
- Pipeline.EndToEnd: covers only the frames up to `end`. The recorder's last chunk, sent after `end`, is not in the request. `Pipeline.LastChunkAfterEnd` covers that log; chunks arriving while the provider call is awaited are not covered.
- Handlers of a socket replaced by a later `startRecording` are not modelled. Their handlers read `this.socket`, the current socket.
- Quiz.VoiceQuiz.OnValidated: the `catch` that shows "Erreur : …" is left out, because validation never throws. The spoken feedback (`speak`, `readQuestion`, `speechSynthesis`) is left out as browser output.
- The timers (the 1500 ms quiz delay) are events: `AdvanceAfterCorrect` is the timer firing, with the question index captured when recognition started.
- frontend/src/App.jsx, frontend/src/AppRouter.jsx and frontend/vite.config.js are not part of this model. They are user interface and configuration.
