/**
 * The two ends together: what the recorder sends is what the server's
 * handler receives, so the chunks a recording sends before `end` become one
 * request to the transcription provider, and the provider's answer comes
 * back to the page only when it is a transcript. The recorder's last chunk,
 * which it emits after `stop()` and so after `end`, is not in that request:
 * it stays in the connection's buffer.
 *
 * An audio chunk reaches the server as a binary message that `JSON.parse`
 * rejects; the compressed audio the recorder produces is taken never to be
 * valid JSON text.
 */
module Pipeline {
  import opened Common
  import opened Protocol
  import opened BackendRules
  import opened BackendSession
  import opened Recorder

  /** How the server classifies a frame the recorder sent. */
  function Deliver(f: ClientFrame): (m: Inbound)
    ensures f.StartFrame? ==> IsStart(m)
    ensures f.EndFrame? ==> IsEnd(m)
    ensures f.AudioChunk? ==> m == Binary(f.data)
  {
    match f
    case StartFrame(lang) => StartCommand(lang)
    case AudioChunk(data) => Binary(data)
    case EndFrame(mimeType) => EndCommand(mimeType)
  }

  function DeliverAll(fs: seq<ClientFrame>): (ms: seq<Inbound>)
    ensures |ms| == |fs|
    ensures forall i :: 0 <= i < |fs| ==> ms[i] == Deliver(fs[i])
  {
    if fs == [] then [] else [Deliver(fs[0])] + DeliverAll(fs[1..])
  }

  lemma {:induction false} DeliverAllAppend(a: seq<ClientFrame>, b: seq<ClientFrame>)
    ensures DeliverAll(a + b) == DeliverAll(a) + DeliverAll(b)
  {
    if a == [] {
      assert a + b == b;
    } else {
      assert (a + b)[1..] == a[1..] + b;
      DeliverAllAppend(a[1..], b);
    }
  }

  /** The recorder's audio frames for a list of chunks. */
  function AudioFrames(chunks: seq<Bytes>): (fs: seq<ClientFrame>)
    ensures |fs| == |chunks|
    ensures forall i :: 0 <= i < |chunks| ==> fs[i] == AudioChunk(chunks[i])
  {
    if chunks == [] then [] else [AudioChunk(chunks[0])] + AudioFrames(chunks[1..])
  }

  lemma DeliverAudio(chunks: seq<Bytes>)
    ensures DeliverAll(AudioFrames(chunks)) == AsBinary(chunks)
  {
  }

  /** The frames of one recording up to `end`: `start`, the chunks sent before it, `end`. */
  function RecordingLog(lang: string, chunks: seq<Bytes>, mimeType: string): seq<ClientFrame> {
    [StartFrame(lang)] + AudioFrames(chunks) + [EndFrame(mimeType)]
  }

  lemma DeliverRecording(lang: string, chunks: seq<Bytes>, mimeType: string)
    ensures DeliverAll(RecordingLog(lang, chunks, mimeType)) == Cycle(lang, chunks, mimeType)
  {
    DeliverAllAppend([StartFrame(lang)] + AudioFrames(chunks), [EndFrame(mimeType)]);
    DeliverAllAppend([StartFrame(lang)], AudioFrames(chunks));
    DeliverAudio(chunks);
  }

  /** Every format the recorder may choose is one the server can name a file for. */
  lemma RecorderFormatsHaveFileNames(mimeType: string)
    requires mimeType in MimePreferences
    ensures UploadFileName(mimeType).Some?
    ensures mimeType != "" && '/' in mimeType
  {
    WebmOpusFileName();
    WebmFileName();
    OggOpusFileName();
    Mp4FileName();
  }

  /** The recorder's logs obey the protocol the server expects: its first frame is `start`. */
  lemma LogStartsTheCycle(socket: Socket, language: string)
    requires WellFormedLog(socket, language) && socket.sent != []
    ensures IsStart(Deliver(socket.sent[0]))
    ensures forall i :: 0 < i < |socket.sent| ==> !IsStart(Deliver(socket.sent[i]))
  {
  }

  /** The frames the page is told about, for the frames the server sent. */
  function ForwardAll(frames: seq<ServerFrame>, hasOnTranscript: bool): (ns: seq<Notice>)
    ensures |ns| <= |frames|
  {
    if frames == [] then [] else Forward(frames[0], hasOnTranscript) + ForwardAll(frames[1..], hasOnTranscript)
  }

  /**
   * A recording from a fresh connection, end to end: the server makes one
   * request with the chunks sent before `end` joined in order, in English
   * exactly when the
   * page asked for "en-US", under a file name taken from the recorder's
   * format. A transcript reaches `onTranscript`; a rejection reaches the page
   * as nothing at all, because the recorder ignores error frames.
   */
  lemma EndToEnd(lang: string, chunks: seq<Bytes>, mimeType: string, transcribe: Submission -> ProviderReply)
    requires chunks != [] && mimeType in MimePreferences
    ensures var t := Run(InitialSession(), DeliverAll(RecordingLog(lang, chunks, mimeType)), HandlerFor(transcribe));
      && |t.submissions| == 1
      && t.submissions[0].audio == Concat(chunks)
      && (t.submissions[0].language == "en" <==> lang == "en-US")
      && t.submissions[0].mimeType == mimeType
      && UploadFileName(mimeType) == Some(t.submissions[0].fileName)
      && var outcome := transcribe(t.submissions[0]);
         && (outcome.Transcribed? ==> ForwardAll(t.replies, true) == [TranscriptNotice(outcome.text)])
         && (outcome.Rejected? ==> ForwardAll(t.replies, true) == [])
  {
    RecorderFormatsHaveFileNames(mimeType);
    DeliverRecording(lang, chunks, mimeType);
    assert InitialSession().audioChunks + chunks == chunks;
    RecordingCycle(InitialSession(), lang, chunks, mimeType, transcribe);
  }

  /** One more audio message after any sequence of messages only extends the buffer. */
  lemma RunThenAudio(s: Session, ms: seq<Inbound>, raw: Bytes, transcribe: Submission -> ProviderReply)
    ensures var ta := Run(s, ms, HandlerFor(transcribe));
      Run(s, ms + [Binary(raw)], HandlerFor(transcribe))
        == Trace(Session(ta.session.audioChunks + [raw], ta.session.transcriptionLanguage), ta.replies, ta.submissions)
  {
    var h := HandlerFor(transcribe);
    var ta := Run(s, ms, h);
    RunAppend(s, ms, [Binary(raw)], h);
    RunSingle(ta.session, Binary(raw), h);
    HandlerBuffersAudio(transcribe);
    assert ta.submissions + [] == ta.submissions;
    assert ta.replies + [] == ta.replies;
  }

  /**
   * The log a recording really leaves: `stopRecording` sends `end` as soon
   * as it has stopped the recorder, and the recorder's last chunk arrives
   * after that. The request holds only the chunks sent before `end`. A last
   * chunk handled after the reply stays buffered: alone after a transcript,
   * and after the kept audio following a rejection.
   */
  lemma LastChunkAfterEnd(lang: string, chunks: seq<Bytes>, mimeType: string, last: Bytes,
                          transcribe: Submission -> ProviderReply)
    requires chunks != [] && mimeType in MimePreferences
    ensures var t := Run(InitialSession(), DeliverAll(RecordingLog(lang, chunks, mimeType) + [AudioChunk(last)]),
                         HandlerFor(transcribe));
      && |t.submissions| == 1
      && t.submissions[0].audio == Concat(chunks)
      && |t.replies| == 1
      && (transcribe(t.submissions[0]).Transcribed? ==> t.session.audioChunks == [last])
      && (transcribe(t.submissions[0]).Rejected? ==> t.session.audioChunks == chunks + [last])
  {
    RecorderFormatsHaveFileNames(mimeType);
    DeliverRecording(lang, chunks, mimeType);
    DeliverAllAppend(RecordingLog(lang, chunks, mimeType), [AudioChunk(last)]);
    assert DeliverAll([AudioChunk(last)]) == [Binary(last)];
    assert InitialSession().audioChunks + chunks == chunks;
    RecordingCycle(InitialSession(), lang, chunks, mimeType, transcribe);
    RunThenAudio(InitialSession(), Cycle(lang, chunks, mimeType), last, transcribe);
  }
}
