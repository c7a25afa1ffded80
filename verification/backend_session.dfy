/**
 * One WebSocket connection of the transcription server: the buffer of audio
 * chunks and the language it holds, and what each inbound message does to
 * them, including the frame sent back and the request made to the
 * transcription provider.
 *
 * The provider (file upload plus transcription call) is a parameter: a
 * function from the request to either a text or a rejection.
 */
module BackendSession {
  import opened Common
  import opened Protocol
  import opened BackendRules

  /** What the transcription request carries. */
  datatype Submission = Submission(
    audio: Bytes,
    fileName: string,
    mimeType: string,
    language: string,
    prompt: string)

  /** The provider's answer: the recognised text, or a thrown error. */
  datatype ProviderReply = Transcribed(text: string) | Rejected

  /** The two closure variables of one connection. */
  datatype Session = Session(audioChunks: seq<Bytes>, transcriptionLanguage: string)

  function InitialSession(): Session {
    Session([], DefaultLanguage)
  }

  /** What handling one message does: the new session, the frame sent, the request made. */
  datatype Effect = Effect(next: Session, reply: Option<ServerFrame>, submitted: Option<Submission>)

  predicate IsStart(m: Inbound) {
    m.Command? && m.event == Str("start")
  }

  predicate IsEnd(m: Inbound) {
    m.Command? && m.event == Str("end")
  }

  /** Messages the handler keeps as audio. */
  predicate IsAudio(m: Inbound) {
    m.Binary? || m.NullJson?
  }

  /**
   * The request an `end` command leads to, or None when the handler throws
   * before making it (a non-string MIME type, or one without '/').
   */
  function PrepareSubmission(chunks: seq<Bytes>, language: string, mimeType: Field): (sub: Option<Submission>)
    ensures sub.None? <==> DeclaredMimeType(mimeType).None? || '/' !in DeclaredMimeType(mimeType).value
    ensures sub.Some? ==>
      && sub.value.audio == Concat(chunks)
      && Some(sub.value.mimeType) == DeclaredMimeType(mimeType)
      && UploadFileName(sub.value.mimeType) == Some(sub.value.fileName)
      && sub.value.language == language
      && sub.value.prompt == WhisperPrompt(language)
  {
    match DeclaredMimeType(mimeType)
    case None => None
    case Some(mt) =>
      match UploadFileName(mt)
      case None => None
      case Some(name) => Some(Submission(Concat(chunks), name, mt, language, WhisperPrompt(language)))
  }

  /** The `message` handler, as a function of the session before the message. */
  function Step(s: Session, m: Inbound, transcribe: Submission -> ProviderReply): Effect
  {
    match m
    case Binary(raw) => Effect(Session(s.audioChunks + [raw], s.transcriptionLanguage), None, None)
    case NullJson(raw) => Effect(Session(s.audioChunks + [raw], s.transcriptionLanguage), None, None)
    case Command(event, lang, mimeType) =>
      if event == Str("start") then
        Effect(Session(s.audioChunks, TranscriptionLanguageFor(lang)), None, None)
      else if event != Str("end") || s.audioChunks == [] then
        Effect(s, None, None)
      else
        match PrepareSubmission(s.audioChunks, s.transcriptionLanguage, mimeType)
        case None => Effect(s, Some(Error(ProcessingFailed)), None)
        case Some(sub) =>
          match transcribe(sub)
          case Transcribed(text) => Effect(Session([], s.transcriptionLanguage), Some(Transcript(text)), Some(sub))
          case Rejected => Effect(s, Some(Error(ProcessingFailed)), Some(sub))
  }

  /**
   * What one message does. A frame is sent exactly for an `end` that finds
   * audio buffered; audio is appended verbatim; `start` only sets the
   * language; a transcript empties the buffer, an error leaves the whole
   * session as it was; any other command changes nothing.
   */
  lemma StepSpec(s: Session, m: Inbound, transcribe: Submission -> ProviderReply)
    ensures var e := Step(s, m, transcribe);
      && (e.reply.Some? <==> IsEnd(m) && s.audioChunks != [])
      && (IsAudio(m) ==> e.next == Session(s.audioChunks + [m.raw], s.transcriptionLanguage))
      && (IsStart(m) ==> e.next == Session(s.audioChunks, TranscriptionLanguageFor(m.lang)))
      && (m.Command? && !IsStart(m) ==> e.next.transcriptionLanguage == s.transcriptionLanguage)
      && (m.Command? && !IsStart(m) && !IsEnd(m) ==> e.next == s)
      && (IsEnd(m) && s.audioChunks == [] ==> e.next == s)
      && (e.reply.Some? && e.reply.value.Transcript? ==>
            && e.next.audioChunks == []
            && e.submitted.Some?
            && transcribe(e.submitted.value) == Transcribed(e.reply.value.data))
      && (e.reply.Some? && e.reply.value.Error? ==>
            e.next == s && e.reply.value.message == ProcessingFailed)
      && (e.submitted.Some? ==>
            && IsEnd(m) && e.reply.Some?
            && e.submitted == PrepareSubmission(s.audioChunks, s.transcriptionLanguage, m.mimeType)
            && e.submitted.value.audio == Concat(s.audioChunks))
      && (IsEnd(m) && s.audioChunks != [] ==>
            e.submitted == PrepareSubmission(s.audioChunks, s.transcriptionLanguage, m.mimeType))
      && (e.submitted.Some? && transcribe(e.submitted.value).Transcribed? ==>
            && e.reply == Some(Transcript(transcribe(e.submitted.value).text))
            && e.next == Session([], s.transcriptionLanguage))
      && (e.submitted.Some? && transcribe(e.submitted.value).Rejected? ==>
            e.reply == Some(Error(ProcessingFailed)) && e.next == s)
  {
  }

  function OptionToSeq<T>(o: Option<T>): (xs: seq<T>)
    ensures |xs| <= 1 && (xs == [] <==> o.None?)
    ensures o.Some? ==> xs == [o.value]
  {
    if o.Some? then [o.value] else []
  }

  /** A message handler: what one message does to a session. */
  type Handler = (Session, Inbound) -> Effect

  /** The handler of a server whose provider answers with `transcribe`. */
  function HandlerFor(transcribe: Submission -> ProviderReply): Handler {
    (s, m) => Step(s, m, transcribe)
  }

  /** The session after a sequence of messages, with every frame sent and every request made, in order. */
  datatype Trace = Trace(session: Session, replies: seq<ServerFrame>, submissions: seq<Submission>)

  /** The trace of one step `e` followed by the trace `t` of the messages after it. */
  function Then(e: Effect, t: Trace): Trace {
    Trace(t.session, OptionToSeq(e.reply) + t.replies, OptionToSeq(e.submitted) + t.submissions)
  }

  /** Trace `ta` followed by trace `tb`, which starts where `ta` ends. */
  function Chain(ta: Trace, tb: Trace): Trace {
    Trace(tb.session, ta.replies + tb.replies, ta.submissions + tb.submissions)
  }

  /** What a connection does with a sequence of messages, one after the other. */
  function Run(s: Session, ms: seq<Inbound>, handler: Handler): Trace
    decreases |ms|
  {
    if ms == [] then Trace(s, [], [])
    else
      var e := handler(s, ms[0]);
      Then(e, Run(e.next, ms[1..], handler))
  }

  lemma RunCons(s: Session, m: Inbound, rest: seq<Inbound>, handler: Handler)
    ensures Run(s, [m] + rest, handler) == Then(handler(s, m), Run(handler(s, m).next, rest, handler))
  {
    assert ([m] + rest)[0] == m;
    assert ([m] + rest)[1..] == rest;
  }

  /** A step that sends nothing and requests nothing adds nothing to the trace. */
  lemma ThenQuiet(e: Effect, t: Trace)
    requires e.reply.None? && e.submitted.None?
    ensures Then(e, t) == t
  {
    assert [] + t.replies == t.replies;
    assert [] + t.submissions == t.submissions;
  }

  lemma ThenChain(e: Effect, t: Trace, u: Trace)
    ensures Then(e, Chain(t, u)) == Chain(Then(e, t), u)
  {
    assert OptionToSeq(e.reply) + (t.replies + u.replies) == (OptionToSeq(e.reply) + t.replies) + u.replies;
    assert OptionToSeq(e.submitted) + (t.submissions + u.submissions)
      == (OptionToSeq(e.submitted) + t.submissions) + u.submissions;
  }

  lemma ChainFromEmpty(s: Session, u: Trace)
    ensures Chain(Trace(s, [], []), u) == u
  {
    assert [] + u.replies == u.replies;
    assert [] + u.submissions == u.submissions;
  }

  /** Running one message is one step of the handler. */
  lemma RunSingle(s: Session, m: Inbound, handler: Handler)
    ensures var e := handler(s, m);
      Run(s, [m], handler) == Trace(e.next, OptionToSeq(e.reply), OptionToSeq(e.submitted))
  {
    var e := handler(s, m);
    assert [m] == [m] + [];
    RunCons(s, m, [], handler);
    assert OptionToSeq(e.reply) + [] == OptionToSeq(e.reply);
    assert OptionToSeq(e.submitted) + [] == OptionToSeq(e.submitted);
  }

  /** Running two message sequences one after the other is running their concatenation. */
  lemma {:induction false} RunAppend(s: Session, a: seq<Inbound>, b: seq<Inbound>, handler: Handler)
    ensures Run(s, a + b, handler) == Chain(Run(s, a, handler), Run(Run(s, a, handler).session, b, handler))
    decreases |a|
  {
    if a == [] {
      assert a + b == b;
      ChainFromEmpty(s, Run(s, b, handler));
    } else {
      var e := handler(s, a[0]);
      assert a == [a[0]] + a[1..];
      assert a + b == [a[0]] + (a[1..] + b);
      RunCons(s, a[0], a[1..] + b, handler);
      RunCons(s, a[0], a[1..], handler);
      RunAppend(e.next, a[1..], b, handler);
      var t := Run(e.next, a[1..], handler);
      ThenChain(e, t, Run(t.session, b, handler));
    }
  }

  /** Audio chunks as they reach the handler: none of them parses as JSON. */
  function AsBinary(chunks: seq<Bytes>): (ms: seq<Inbound>)
    ensures |ms| == |chunks|
    ensures forall i :: 0 <= i < |chunks| ==> ms[i] == Binary(chunks[i])
  {
    if chunks == [] then [] else [Binary(chunks[0])] + AsBinary(chunks[1..])
  }

  /** A handler that appends every non-JSON message to the buffer and does nothing else. */
  ghost predicate BuffersAudio(handler: Handler) {
    forall s: Session, raw: Bytes ::
      handler(s, Binary(raw)) == Effect(Session(s.audioChunks + [raw], s.transcriptionLanguage), None, None)
  }

  lemma HandlerBuffersAudio(transcribe: Submission -> ProviderReply)
    ensures BuffersAudio(HandlerFor(transcribe))
  {
  }

  lemma ShiftFirst<T>(a: seq<T>, c: seq<T>)
    requires c != []
    ensures a + [c[0]] + c[1..] == a + c
  {
    assert c == [c[0]] + c[1..];
  }

  /**
   * Over any sequence of messages a connection sends at most one frame per
   * message, and it asks the provider only for messages it answers.
   */
  lemma {:induction false} AtMostOneReplyPerMessage(s: Session, ms: seq<Inbound>, transcribe: Submission -> ProviderReply)
    ensures var t := Run(s, ms, HandlerFor(transcribe));
      |t.replies| <= |ms| && |t.submissions| <= |t.replies|
    decreases |ms|
  {
    if ms != [] {
      var e := Step(s, ms[0], transcribe);
      StepSpec(s, ms[0], transcribe);
      assert HandlerFor(transcribe)(s, ms[0]) == e;
      AtMostOneReplyPerMessage(e.next, ms[1..], transcribe);
    }
  }

  /** Audio messages are appended in arrival order, and nothing is sent or requested. */
  lemma {:induction false} AudioIsBuffered(s: Session, chunks: seq<Bytes>, handler: Handler)
    requires BuffersAudio(handler)
    ensures Run(s, AsBinary(chunks), handler)
      == Trace(Session(s.audioChunks + chunks, s.transcriptionLanguage), [], [])
    decreases |chunks|
  {
    if chunks == [] {
      assert s.audioChunks + chunks == s.audioChunks;
    } else {
      var s' := Session(s.audioChunks + [chunks[0]], s.transcriptionLanguage);
      assert AsBinary(chunks) == [Binary(chunks[0])] + AsBinary(chunks[1..]);
      RunCons(s, Binary(chunks[0]), AsBinary(chunks[1..]), handler);
      ThenQuiet(handler(s, Binary(chunks[0])), Run(s', AsBinary(chunks[1..]), handler));
      AudioIsBuffered(s', chunks[1..], handler);
      ShiftFirst(s.audioChunks, chunks);
    }
  }

  /** The `end` command that closes a recording cycle, as the client sends it. */
  function EndCommand(mimeType: string): Inbound {
    Command(Str("end"), Missing, Str(mimeType))
  }

  /** The `start` command that opens a recording cycle. */
  function StartCommand(lang: string): Inbound {
    Command(Str("start"), Str(lang), Missing)
  }

  /** The request the `end` command leads to once `chunks` are buffered under `language`. */
  function CycleSubmission(chunks: seq<Bytes>, language: string, mimeType: string): Submission
    requires '/' in mimeType
  {
    Submission(Concat(chunks), UploadFileName(mimeType).value, mimeType, language, WhisperPrompt(language))
  }

  /**
   * `end` on a non-empty buffer with a MIME type the handler can use
   * (declared, or defaulted to "audio/webm"): the provider is asked exactly
   * once, and its answer decides the one frame sent.
   */
  lemma EndStep(s: Session, m: Inbound, transcribe: Submission -> ProviderReply)
    requires IsEnd(m) && s.audioChunks != []
    requires PrepareSubmission(s.audioChunks, s.transcriptionLanguage, m.mimeType).Some?
    ensures var e := Step(s, m, transcribe);
      var sub := PrepareSubmission(s.audioChunks, s.transcriptionLanguage, m.mimeType).value;
      && e.submitted == Some(sub)
      && (transcribe(sub).Transcribed? ==>
            e.reply == Some(Transcript(transcribe(sub).text)) && e.next == Session([], s.transcriptionLanguage))
      && (transcribe(sub).Rejected? ==>
            e.reply == Some(Error(ProcessingFailed)) && e.next == s)
  {
  }

  /** A client `end` with a string MIME type that has a '/' leads to the cycle's request. */
  lemma EndCommandSubmission(chunks: seq<Bytes>, language: string, mimeType: string)
    requires '/' in mimeType
    ensures PrepareSubmission(chunks, language, Str(mimeType)) == Some(CycleSubmission(chunks, language, mimeType))
  {
    assert mimeType != [];
    assert DeclaredMimeType(Str(mimeType)) == Some(mimeType);
  }

  /**
   * `end` without a MIME type, or with an empty or false one, on a non-empty
   * buffer: the handler falls back to "audio/webm" and asks the provider for
   * the buffered audio as "upload.webm".
   */
  lemma DefaultTypeEnd(s: Session, m: Inbound, transcribe: Submission -> ProviderReply)
    requires IsEnd(m) && s.audioChunks != []
    requires m.mimeType == Missing || m.mimeType == Str("") || m.mimeType == Other(false)
    ensures var e := Step(s, m, transcribe);
      && e.submitted.Some?
      && e.submitted.value.mimeType == DefaultMimeType
      && e.submitted.value.fileName == "upload.webm"
      && e.submitted.value.audio == Concat(s.audioChunks)
      && e.submitted.value.language == s.transcriptionLanguage
      && e.reply.Some?
  {
    assert DeclaredMimeType(m.mimeType) == Some(DefaultMimeType);
    WebmFileName();
    var sub := Submission(Concat(s.audioChunks), "upload.webm", DefaultMimeType, s.transcriptionLanguage,
                          WhisperPrompt(s.transcriptionLanguage));
    assert PrepareSubmission(s.audioChunks, s.transcriptionLanguage, m.mimeType) == Some(sub);
    EndStep(s, m, transcribe);
  }

  /** One recording cycle as the client sends it: `start`, the audio chunks, `end`. */
  function Cycle(lang: string, chunks: seq<Bytes>, mimeType: string): seq<Inbound> {
    [StartCommand(lang)] + AsBinary(chunks) + [EndCommand(mimeType)]
  }

  /**
   * One recording cycle: `start`, the audio chunks, then `end` with a MIME
   * type that has a '/'. Exactly one request is made, carrying whatever was
   * buffered before followed by the new chunks, concatenated in order, and
   * exactly one frame comes back; a transcript empties the buffer, an error
   * keeps everything in it.
   */
  lemma RecordingCycle(s: Session, lang: string, chunks: seq<Bytes>, mimeType: string,
                       transcribe: Submission -> ProviderReply)
    requires s.audioChunks + chunks != []
    requires '/' in mimeType
    ensures var language := TranscriptionLanguageFor(Str(lang));
      var t := Run(s, Cycle(lang, chunks, mimeType), HandlerFor(transcribe));
      var sub := CycleSubmission(s.audioChunks + chunks, language, mimeType);
      && t.submissions == [sub]
      && |t.replies| == 1
      && (transcribe(sub).Transcribed? ==>
            t.replies == [Transcript(transcribe(sub).text)] && t.session == Session([], language))
      && (transcribe(sub).Rejected? ==>
            t.replies == [Error(ProcessingFailed)] && t.session == Session(s.audioChunks + chunks, language))
  {
    var h := HandlerFor(transcribe);
    var language := TranscriptionLanguageFor(Str(lang));
    var s1 := Session(s.audioChunks, language);
    var s2 := Session(s.audioChunks + chunks, language);
    assert h(s, StartCommand(lang)) == Effect(s1, None, None);
    RunSingle(s, StartCommand(lang), h);
    HandlerBuffersAudio(transcribe);
    AudioIsBuffered(s1, chunks, h);
    RunAppend(s, [StartCommand(lang)], AsBinary(chunks), h);
    ChainFromEmpty(s1, Run(s1, AsBinary(chunks), h));
    EndCommandSubmission(s2.audioChunks, language, mimeType);
    EndStep(s2, EndCommand(mimeType), transcribe);
    RunSingle(s2, EndCommand(mimeType), h);
    RunAppend(s, [StartCommand(lang)] + AsBinary(chunks), [EndCommand(mimeType)], h);
    ChainFromEmpty(s2, Run(s2, [EndCommand(mimeType)], h));
  }

  /**
   * The buffer is emptied only after a transcript is sent. When the provider
   * rejects a recording, the next recording on the same connection is
   * submitted with the rejected audio in front of it.
   */
  lemma StaleAudioAfterFailure(lang1: string, first: seq<Bytes>, mime1: string,
                               lang2: string, second: seq<Bytes>, mime2: string,
                               transcribe: Submission -> ProviderReply)
    requires first != [] && '/' in mime1 && '/' in mime2
    requires transcribe(CycleSubmission(first, TranscriptionLanguageFor(Str(lang1)), mime1)).Rejected?
    ensures var h := HandlerFor(transcribe);
      var t1 := Run(InitialSession(), Cycle(lang1, first, mime1), h);
      var t2 := Run(t1.session, Cycle(lang2, second, mime2), h);
      && t1.replies == [Error(ProcessingFailed)]
      && t2.submissions == [CycleSubmission(first + second, TranscriptionLanguageFor(Str(lang2)), mime2)]
      && t2.submissions[0].audio == Concat(first) + Concat(second)
  {
    var s0 := InitialSession();
    assert s0.audioChunks + first == first;
    RecordingCycle(s0, lang1, first, mime1, transcribe);
    var s1 := Session(first, TranscriptionLanguageFor(Str(lang1)));
    RecordingCycle(s1, lang2, second, mime2, transcribe);
    ConcatAppend(first, second);
  }

  /** After a transcript, the next recording is submitted with its own audio only. */
  lemma FreshAudioAfterTranscript(lang1: string, first: seq<Bytes>, mime1: string,
                                  lang2: string, second: seq<Bytes>, mime2: string,
                                  transcribe: Submission -> ProviderReply)
    requires first != [] && second != [] && '/' in mime1 && '/' in mime2
    requires transcribe(CycleSubmission(first, TranscriptionLanguageFor(Str(lang1)), mime1)).Transcribed?
    ensures var h := HandlerFor(transcribe);
      var t1 := Run(InitialSession(), Cycle(lang1, first, mime1), h);
      var t2 := Run(t1.session, Cycle(lang2, second, mime2), h);
      t2.submissions == [CycleSubmission(second, TranscriptionLanguageFor(Str(lang2)), mime2)]
  {
    var s0 := InitialSession();
    assert s0.audioChunks + first == first;
    RecordingCycle(s0, lang1, first, mime1, transcribe);
    var s1 := Session([], TranscriptionLanguageFor(Str(lang1)));
    assert s1.audioChunks + second == second;
    RecordingCycle(s1, lang2, second, mime2, transcribe);
  }

  /** `end` with buffered audio and a MIME type the handler cannot split: an error, no request, nothing changes. */
  lemma UnusableMimeType(s: Session, mimeType: Field, transcribe: Submission -> ProviderReply)
    requires s.audioChunks != []
    requires mimeType == Other(true) || (mimeType.Str? && mimeType.s != "" && '/' !in mimeType.s)
    ensures Step(s, Command(Str("end"), Missing, mimeType), transcribe) == Effect(s, Some(Error(ProcessingFailed)), None)
  {
  }

  /** `start` followed at once by `end`: nothing is sent and nothing is requested. */
  lemma StartThenEnd(lang: string, mimeType: string, transcribe: Submission -> ProviderReply)
    ensures var t := Run(InitialSession(), [StartCommand(lang), EndCommand(mimeType)], HandlerFor(transcribe));
      t.replies == [] && t.submissions == [] && t.session == Session([], TranscriptionLanguageFor(Str(lang)))
  {
    var h := HandlerFor(transcribe);
    var s1 := Session([], TranscriptionLanguageFor(Str(lang)));
    assert [StartCommand(lang), EndCommand(mimeType)] == [StartCommand(lang)] + [EndCommand(mimeType)];
    RunCons(InitialSession(), StartCommand(lang), [EndCommand(mimeType)], h);
    assert h(InitialSession(), StartCommand(lang)) == Effect(s1, None, None);
    ThenQuiet(h(InitialSession(), StartCommand(lang)), Run(s1, [EndCommand(mimeType)], h));
    RunSingle(s1, EndCommand(mimeType), h);
  }

  /**
   * Three 500-byte chunks recorded after `start` with "fr-FR" and closed
   * with "audio/webm": one request of 1500 bytes named `upload.webm` in
   * French, and the provider's text comes back as a transcript.
   */
  lemma ThreeChunkRecording(chunks: seq<Bytes>, transcribe: Submission -> ProviderReply)
    requires |chunks| == 3 && forall i :: 0 <= i < 3 ==> |chunks[i]| == 500
    requires transcribe(CycleSubmission(chunks, "fr", "audio/webm")) == Transcribed("bonjour")
    ensures var t := Run(InitialSession(), Cycle("fr-FR", chunks, "audio/webm"), HandlerFor(transcribe));
      && t.replies == [Transcript("bonjour")]
      && |t.submissions| == 1
      && |t.submissions[0].audio| == 1500
      && t.submissions[0].fileName == "upload.webm"
      && t.submissions[0].language == "fr"
      && t.session.audioChunks == []
  {
    assert InitialSession().audioChunks + chunks == chunks;
    assert TranscriptionLanguageFor(Str("fr-FR")) == "fr";
    RecordingCycle(InitialSession(), "fr-FR", chunks, "audio/webm", transcribe);
    WebmFileName();
    TotalSizeUniform(chunks, 500);
  }

  /**
   * One connection's state, updated in place by the `message` handler as the
   * server does: the buffered chunks, the language, and the frames sent so
   * far.
   */
  class Connection {
    var audioChunks: seq<Bytes>
    var transcriptionLanguage: string
    var outbox: seq<ServerFrame>

    function State(): Session
      reads this
    {
      Session(audioChunks, transcriptionLanguage)
    }

    /** A new connection: nothing buffered, French, nothing sent. */
    constructor()
      ensures State() == InitialSession() && outbox == []
    {
      audioChunks := [];
      transcriptionLanguage := DefaultLanguage;
      outbox := [];
    }

    /**
     * The `message` handler. The frames it sends are appended to `outbox`;
     * the request it makes to the provider is returned.
     */
    method OnMessage(m: Inbound, transcribe: Submission -> ProviderReply) returns (submitted: Option<Submission>)
      modifies this
      ensures var e := Step(old(State()), m, transcribe);
        && State() == e.next
        && outbox == old(outbox) + OptionToSeq(e.reply)
        && submitted == e.submitted
    {
      submitted := None;
      match m {
        case Binary(raw) =>
          audioChunks := audioChunks + [raw];
        case NullJson(raw) =>
          audioChunks := audioChunks + [raw];
        case Command(event, lang, mimeTypeField) =>
          if event == Str("start") {
            transcriptionLanguage := TranscriptionLanguageFor(lang);
            return;
          }
          if event != Str("end") || audioChunks == [] {
            return;
          }
          var audioBuffer := Concat(audioChunks);
          var mimeType := DeclaredMimeType(mimeTypeField);
          if mimeType.None? {
            outbox := outbox + [Error(ProcessingFailed)];
            return;
          }
          var fileName := UploadFileName(mimeType.value);
          if fileName.None? {
            outbox := outbox + [Error(ProcessingFailed)];
            return;
          }
          var sub := Submission(audioBuffer, fileName.value, mimeType.value,
                                transcriptionLanguage, WhisperPrompt(transcriptionLanguage));
          submitted := Some(sub);
          match transcribe(sub) {
            case Transcribed(text) =>
              outbox := outbox + [Transcript(text)];
              audioChunks := [];
            case Rejected =>
              outbox := outbox + [Error(ProcessingFailed)];
          }
      }
    }
  }
}
