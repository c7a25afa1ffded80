/**
 * The browser side of a recording: the `RecorderService` object, which opens
 * the WebSocket, chooses an audio format, streams the recorder's chunks and
 * signals the end of the recording.
 *
 * The browser objects it drives are abstract state: the socket is its ready
 * state and the frames sent on it, the media recorder is its state and
 * format, the media stream is its list of tracks. Browser events (the socket
 * opening, a chunk being ready, a server frame, a socket error or close) are
 * methods that the environment calls.
 */
module Recorder {
  import opened Common
  import opened Protocol

  // ---------------------------------------------------------------------------
  // Audio format choice
  // ---------------------------------------------------------------------------

  /** The formats the recorder tries, most preferred first. */
  const MimePreferences: seq<string> := ["audio/webm;codecs=opus", "audio/webm", "audio/ogg;codecs=opus", "audio/mp4"]

  const NoFormatMessage: string := "Navigateur non supporté: aucun format audio trouvé."
  const ConnectionErrorMessage: string := "Erreur de connexion WebSocket."

  /** The language sent when `startRecording` is called without one. */
  const DefaultRecordingLanguage: string := "fr-FR"

  /** Where `prefs.find(isTypeSupported)` stops: the first supported entry, or `|prefs|` when there is none. */
  function FirstSupportedIndex(prefs: seq<string>, isTypeSupported: string -> bool): (k: nat)
    ensures k <= |prefs|
    ensures forall i :: 0 <= i < k ==> !isTypeSupported(prefs[i])
    ensures k < |prefs| ==> isTypeSupported(prefs[k])
  {
    if prefs == [] || isTypeSupported(prefs[0]) then 0
    else 1 + FirstSupportedIndex(prefs[1..], isTypeSupported)
  }

  /**
   * `prefs.find(isTypeSupported)`: the first supported entry, or None when
   * the browser supports none of them.
   */
  function FirstSupported(prefs: seq<string>, isTypeSupported: string -> bool): (r: Option<string>)
    ensures r.None? <==> forall i :: 0 <= i < |prefs| ==> !isTypeSupported(prefs[i])
    ensures r.Some? ==> isTypeSupported(r.value)
    ensures r.Some? ==> exists k :: 0 <= k < |prefs| && prefs[k] == r.value && forall i :: 0 <= i < k ==> !isTypeSupported(prefs[i])
  {
    var k := FirstSupportedIndex(prefs, isTypeSupported);
    if k < |prefs| then Some(prefs[k]) else None
  }

  /** A browser that supports Opus in WebM records in that format. */
  lemma WebmOpusPreferred(isTypeSupported: string -> bool)
    requires isTypeSupported("audio/webm;codecs=opus")
    ensures FirstSupported(MimePreferences, isTypeSupported) == Some("audio/webm;codecs=opus")
  {
  }

  /** A browser that supports only MP4 audio (as Safari does) records in MP4. */
  lemma OnlyMp4(isTypeSupported: string -> bool)
    requires forall t :: isTypeSupported(t) <==> t == "audio/mp4"
    ensures FirstSupported(MimePreferences, isTypeSupported) == Some("audio/mp4")
  {
    assert !isTypeSupported(MimePreferences[0]) && !isTypeSupported(MimePreferences[1]);
    assert !isTypeSupported(MimePreferences[2]) && isTypeSupported(MimePreferences[3]);
  }

  // ---------------------------------------------------------------------------
  // Browser objects
  // ---------------------------------------------------------------------------

  /** `WebSocket.readyState`. */
  datatype ReadyState = Connecting | Open | Closing | Closed

  /** A WebSocket as the service sees it: its state and every frame sent on it, in order. */
  datatype Socket = Socket(readyState: ReadyState, sent: seq<ClientFrame>)

  /** `MediaRecorder.state`; the service never pauses a recorder. */
  datatype RecorderState = Inactive | Recording

  datatype MediaRecorder = MediaRecorder(state: RecorderState, mimeType: string)

  /** A call of one of the callbacks given to `startRecording`. */
  datatype Notice = TranscriptNotice(text: string) | ErrorNotice(message: string)

  /** One audio track of a captured stream; `live` until it is stopped. */
  class MediaTrack {
    var live: bool

    constructor()
      ensures live
    {
      live := true;
    }

    method Stop()
      modifies this
      ensures !live
    {
      live := false;
    }
  }

  /** A captured microphone stream: its tracks never change. */
  class MediaStream {
    const tracks: seq<MediaTrack>

    constructor(tracks: seq<MediaTrack>)
      ensures this.tracks == tracks
    {
      this.tracks := tracks;
    }
  }

  /** The result of `getUserMedia`: a stream, or a rejection with its message. */
  datatype MediaGrant = Granted(stream: MediaStream) | Denied(message: string)

  /**
   * Why the `open` handler gives up, if it does: no supported format, or the
   * microphone refused (with the browser's message).
   */
  function OpenFailure(chosen: Option<string>, grant: MediaGrant): (failure: Option<string>)
    ensures failure.None? <==> chosen.Some? && grant.Granted?
    ensures chosen.None? ==> failure == Some(NoFormatMessage)
    ensures chosen.Some? && grant.Denied? ==> failure == Some(grant.message)
  {
    if chosen.None? then Some(NoFormatMessage)
    else if grant.Denied? then Some(grant.message)
    else None
  }

  /** What the socket's `message` handler passes on for one server frame: transcripts only. */
  function Forward(frame: ServerFrame, hasOnTranscript: bool): (ns: seq<Notice>)
    ensures |ns| <= 1
    ensures ns != [] <==> frame.Transcript? && hasOnTranscript
    ensures ns != [] ==> ns[0] == TranscriptNotice(frame.data)
  {
    if frame.Transcript? && hasOnTranscript then [TranscriptNotice(frame.data)] else []
  }

  function TracksOf(stream: MediaStream?): set<MediaTrack> {
    if stream == null then {} else set t | t in stream.tracks
  }

  /**
   * What the service has sent on a socket opened for `language`: nothing
   * before the socket opens; then the `start` frame first and only once;
   * audio frames never empty; `end` frames only with a format from the
   * preference list.
   */
  predicate WellFormedLog(socket: Socket, language: string) {
    && (socket.readyState == Connecting ==> socket.sent == [])
    && (socket.readyState == Open ==> socket.sent != [])
    && (socket.sent != [] ==> socket.sent[0] == StartFrame(language))
    && (forall i :: 0 < i < |socket.sent| ==> !socket.sent[i].StartFrame?)
    && (forall i :: 0 <= i < |socket.sent| && socket.sent[i].AudioChunk? ==> |socket.sent[i].data| > 0)
    && (forall i :: 0 <= i < |socket.sent| && socket.sent[i].EndFrame? ==> socket.sent[i].mimeType in MimePreferences)
  }

  /** Appending a frame that keeps the log's rules keeps it well formed. */
  lemma {:induction false} SendKeepsLog(socket: Socket, language: string, f: ClientFrame)
    requires WellFormedLog(socket, language) && socket.readyState == Open
    requires !f.StartFrame?
    requires f.AudioChunk? ==> |f.data| > 0
    requires f.EndFrame? ==> f.mimeType in MimePreferences
    ensures WellFormedLog(Socket(socket.readyState, socket.sent + [f]), language)
  {
    var sent := socket.sent + [f];
    assert forall i :: 0 <= i < |socket.sent| ==> sent[i] == socket.sent[i];
    assert sent[|sent| - 1] == f;
  }

  // ---------------------------------------------------------------------------
  // The service
  // ---------------------------------------------------------------------------

  class RecorderService {
    var mediaRecorder: Option<MediaRecorder>
    var stream: MediaStream?
    var socket: Option<Socket>
    var mimeType: string

    // What the handlers installed by `startRecording` captured.
    var language: string
    var hasOnTranscript: bool
    var hasOnError: bool

    /** Every call of `onTranscript` and `onError`, in order. */
    var notices: seq<Notice>

    ghost predicate Valid()
      reads this
    {
      && (mimeType == "" || mimeType in MimePreferences)
      && (mediaRecorder.Some? ==> socket.Some? && mimeType != "" && mediaRecorder.value.mimeType in MimePreferences)
      && (socket.Some? ==> WellFormedLog(socket.value, language))
    }

    /** `new RecorderService()`: nothing open, no format chosen. */
    constructor()
      ensures Valid()
      ensures mediaRecorder == None && stream == null && socket == None && mimeType == ""
      ensures notices == []
    {
      mediaRecorder := None;
      stream := null;
      socket := None;
      mimeType := "";
      language := DefaultRecordingLanguage;
      hasOnTranscript := false;
      hasOnError := false;
      notices := [];
    }

    /**
     * `startRecording(onTranscript, onError, language)`: opens a new socket
     * and installs its handlers. A missing language is "fr-FR". The recorder,
     * the stream and the format of an earlier recording are left as they are.
     */
    method StartRecording(onTranscript: bool, onError: bool, lang: Option<string>)
      requires Valid()
      modifies this
      ensures Valid()
      ensures socket == Some(Socket(Connecting, []))
      ensures language == (if lang.Some? then lang.value else DefaultRecordingLanguage)
      ensures hasOnTranscript == onTranscript && hasOnError == onError
      ensures mediaRecorder == old(mediaRecorder) && stream == old(stream) && mimeType == old(mimeType)
      ensures notices == old(notices)
    {
      language := if lang.Some? then lang.value else DefaultRecordingLanguage;
      socket := Some(Socket(Connecting, []));
      hasOnTranscript := onTranscript;
      hasOnError := onError;
    }

    /** Reports a failure to `onError` when one was given. */
    method NotifyError(message: string)
      modifies this`notices
      ensures notices == old(notices) + (if hasOnError then [ErrorNotice(message)] else [])
    {
      if hasOnError {
        notices := notices + [ErrorNotice(message)];
      }
    }

    /** The `catch` of the `open` handler: `onError` gets the message and the socket is closed. */
    method FailOpen(message: string)
      requires Valid() && socket.Some? && socket.value.readyState == Open
      modifies this`notices, this`socket
      ensures Valid()
      ensures socket == Some(Socket(Closing, old(socket).value.sent))
      ensures notices == old(notices) + (if hasOnError then [ErrorNotice(message)] else [])
    {
      NotifyError(message);
      socket := Some(Socket(Closing, socket.value.sent));
    }

    /** The first thing the `open` handler does: send `start` with the language. */
    method SendStart()
      requires Valid() && socket.Some? && socket.value.readyState == Connecting
      modifies this`socket
      ensures Valid()
      ensures socket == Some(Socket(Open, [StartFrame(language)]))
    {
      socket := Some(Socket(Open, [StartFrame(language)]));
    }

    /**
     * The rest of the `open` handler, once `start` is sent: the microphone
     * is requested and, when granted, a recorder is created on the stream in
     * the chosen format and started.
     */
    method StartMedia(chosen: string, grant: MediaGrant)
      requires Valid() && socket.Some? && socket.value.readyState == Open && chosen in MimePreferences
      modifies this`mimeType, this`stream, this`mediaRecorder, this`notices, this`socket
      ensures Valid()
      ensures mimeType == chosen
      ensures grant.Granted? ==> && socket == old(socket) && notices == old(notices)
                                 && stream == grant.stream && mediaRecorder == Some(MediaRecorder(Recording, chosen))
      ensures grant.Denied? ==> && socket == Some(Socket(Closing, old(socket).value.sent))
                                && notices == old(notices) + (if hasOnError then [ErrorNotice(grant.message)] else [])
                                && stream == old(stream) && mediaRecorder == old(mediaRecorder)
    {
      mimeType := chosen;
      match grant {
        case Denied(message) =>
          FailOpen(message);
        case Granted(s) =>
          stream := s;
          mediaRecorder := Some(MediaRecorder(Recording, mimeType));
      }
    }

    /**
     * The socket's `open` handler. The `start` frame goes out first. Then the
     * first supported format is chosen and the microphone requested; when no
     * format is supported or the microphone is refused, `onError` gets the
     * message and the socket is closed, and no recorder is created. Otherwise
     * a recorder is created on the stream in that format and started.
     */
    method OnOpen(isTypeSupported: string -> bool, grant: MediaGrant)
      requires Valid() && socket.Some? && socket.value.readyState == Connecting
      modifies this`socket, this`mimeType, this`stream, this`mediaRecorder, this`notices
      ensures Valid()
      ensures var chosen := FirstSupported(MimePreferences, isTypeSupported);
        var failure := OpenFailure(chosen, grant);
        && socket == Some(Socket(if failure.Some? then Closing else Open, [StartFrame(language)]))
        && notices == old(notices) + (if failure.Some? && hasOnError then [ErrorNotice(failure.value)] else [])
        && mimeType == (if chosen.Some? then chosen.value else old(mimeType))
        && stream == (if failure.None? then grant.stream else old(stream))
        && mediaRecorder == (if failure.None? then Some(MediaRecorder(Recording, chosen.value)) else old(mediaRecorder))
    {
      SendStart();
      var supportedMimeType := FirstSupported(MimePreferences, isTypeSupported);
      if supportedMimeType.None? {
        FailOpen(NoFormatMessage);
      } else {
        StartMedia(supportedMimeType.value, grant);
      }
    }

    /**
     * The recorder's `dataavailable` handler: a chunk is sent when it holds
     * at least one byte and the socket is open, and dropped otherwise.
     */
    method OnDataAvailable(data: Bytes)
      requires Valid() && mediaRecorder.Some?
      modifies this`socket
      ensures Valid()
      ensures var sendIt := |data| > 0 && old(socket).value.readyState == Open;
        socket == if sendIt then Some(Socket(Open, old(socket).value.sent + [AudioChunk(data)])) else old(socket)
    {
      if |data| > 0 && socket.value.readyState == Open {
        SendKeepsLog(socket.value, language, AudioChunk(data));
        socket := Some(Socket(Open, socket.value.sent + [AudioChunk(data)]));
      }
    }

    /**
     * `stopRecording()`: only a recorder that is recording is stopped, and
     * only then, and only on an open socket, is `end` sent with the format
     * chosen at open. Nothing is closed here.
     */
    method StopRecording()
      requires Valid()
      modifies this`mediaRecorder, this`socket
      ensures Valid()
      ensures var wasRecording := old(mediaRecorder).Some? && old(mediaRecorder).value.state == Recording;
        var sendEnd := wasRecording && old(socket).Some? && old(socket).value.readyState == Open;
        && mediaRecorder == (if wasRecording then Some(MediaRecorder(Inactive, old(mediaRecorder).value.mimeType)) else old(mediaRecorder))
        && socket == (if sendEnd then Some(Socket(Open, old(socket).value.sent + [EndFrame(mimeType)])) else old(socket))
    {
      if mediaRecorder.Some? && mediaRecorder.value.state == Recording {
        mediaRecorder := Some(MediaRecorder(Inactive, mediaRecorder.value.mimeType));
        if socket.Some? && socket.value.readyState == Open {
          SendKeepsLog(socket.value, language, EndFrame(mimeType));
          socket := Some(Socket(Open, socket.value.sent + [EndFrame(mimeType)]));
        }
      }
    }

    /**
     * The socket's `message` handler: a transcript goes to `onTranscript`
     * when one was given; an error frame from the server is ignored.
     */
    method OnServerMessage(frame: ServerFrame)
      modifies this`notices
      ensures notices == old(notices) + Forward(frame, hasOnTranscript)
    {
      if frame.Transcript? && hasOnTranscript {
        notices := notices + [TranscriptNotice(frame.data)];
      }
    }

    /** The socket's `error` handler: `onError` always gets the same fixed message. */
    method OnSocketError()
      modifies this`notices
      ensures notices == old(notices) + (if hasOnError then [ErrorNotice(ConnectionErrorMessage)] else [])
    {
      NotifyError(ConnectionErrorMessage);
    }

    /** The socket's `close` handler: the socket is closed and the microphone released. */
    method OnSocketClose()
      requires Valid() && socket.Some?
      modifies this, TracksOf(stream)
      ensures Valid()
      ensures socket == Some(Socket(Closed, old(socket).value.sent))
      ensures stream == null
      ensures forall t :: t in TracksOf(old(stream)) ==> !t.live
      ensures mediaRecorder == old(mediaRecorder) && mimeType == old(mimeType) && notices == old(notices)
      ensures language == old(language) && hasOnTranscript == old(hasOnTranscript) && hasOnError == old(hasOnError)
    {
      socket := Some(Socket(Closed, socket.value.sent));
      StopMediaStream();
    }

    /**
     * `stopMediaStream()`: every track of the stream is stopped, then the
     * stream is dropped; without a stream nothing happens, so a second call
     * changes nothing.
     */
    method StopMediaStream()
      modifies this`stream, TracksOf(stream)
      ensures stream == null
      ensures forall t :: t in TracksOf(old(stream)) ==> !t.live
    {
      if stream != null {
        var tracks := stream.tracks;
        for i := 0 to |tracks|
          invariant forall j :: 0 <= j < i ==> !tracks[j].live
        {
          tracks[i].Stop();
        }
        stream := null;
      }
    }
  }

  /**
   * The four frames of `RecordOnce` appended one by one form its log; stated
   * apart so that the method's proof, with its heap, does not have to derive it.
   */
  lemma FourFrames(a: ClientFrame, b: ClientFrame, c: ClientFrame, d: ClientFrame)
    ensures [a] + [b] + [c] + [d] == [a, b, c, d]
  {
  }

  /**
   * One recording as the page drives it on a fresh service: start, the
   * socket opens with the microphone granted, one chunk, `stopRecording`,
   * then the recorder's last chunk. The socket's log has `end` before the
   * last chunk, and the microphone track is still live, because only the
   * socket's `close` handler releases it and nothing here closes the socket.
   */
  method RecordOnce(lang: string, isTypeSupported: string -> bool, chunk: Bytes, last: Bytes)
    returns (sent: seq<ClientFrame>, microphoneLive: bool)
    requires FirstSupported(MimePreferences, isTypeSupported).Some?
    requires |chunk| > 0 && |last| > 0
    ensures var format := FirstSupported(MimePreferences, isTypeSupported).value;
      sent == [StartFrame(lang), AudioChunk(chunk), EndFrame(format), AudioChunk(last)]
    ensures microphoneLive
  {
    var track := new MediaTrack();
    var stream := new MediaStream([track]);
    var service := new RecorderService();
    service.StartRecording(true, true, Some(lang));
    var format := FirstSupported(MimePreferences, isTypeSupported).value;
    service.OnOpen(isTypeSupported, Granted(stream));
    var log := [StartFrame(lang)];
    assert service.socket == Some(Socket(Open, log));
    assert service.mediaRecorder == Some(MediaRecorder(Recording, format)) && service.mimeType == format;
    service.OnDataAvailable(chunk);
    log := log + [AudioChunk(chunk)];
    assert service.socket == Some(Socket(Open, log));
    service.StopRecording();
    log := log + [EndFrame(format)];
    assert service.socket == Some(Socket(Open, log));
    service.OnDataAvailable(last);
    log := log + [AudioChunk(last)];
    assert service.socket.value.sent == log;
    FourFrames(StartFrame(lang), AudioChunk(chunk), EndFrame(format), AudioChunk(last));
    sent := service.socket.value.sent;
    microphoneLive := track.live;
  }
}
