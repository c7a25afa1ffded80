/**
 * The small pure rules of the backend server: the CORS origin check, the
 * transcription language and prompt choice, the upload file name derived
 * from a MIME type, and the assembly of buffered audio chunks.
 */
module BackendRules {
  import opened Common
  import opened Text
  import opened Protocol

  // ---------------------------------------------------------------------------
  // CORS
  // ---------------------------------------------------------------------------

  const AllowedOrigins: seq<string> := ["http://localhost:3000", "https://localhost:3000"]
  const CorsRejection: string := "Not allowed by CORS"

  /** What the `origin` callback passes on: `callback(null, true)` or `callback(new Error(...))`. */
  datatype CorsDecision = Allow | Deny(reason: string)

  /**
   * The CORS `origin` callback. `origin` is None when the request carries no
   * Origin header; the empty string is falsy in JavaScript and is let
   * through as well.
   */
  function CheckOrigin(origin: Option<string>): (d: CorsDecision)
    ensures d.Allow? <==> origin in {None, Some(""), Some("http://localhost:3000"), Some("https://localhost:3000")}
    ensures d.Deny? ==> d.reason == CorsRejection
  {
    if (origin.Some? && origin.value in AllowedOrigins) || origin.None? || origin.value == "" then
      Allow
    else
      Deny(CorsRejection)
  }

  // ---------------------------------------------------------------------------
  // Language and prompts
  // ---------------------------------------------------------------------------

  /** The language a connection starts with, before any `start` command. */
  const DefaultLanguage: string := "fr"

  /** `command.lang === 'en-US' ? 'en' : 'fr'`. */
  function TranscriptionLanguageFor(lang: Field): (code: string)
    ensures code == "en" <==> lang == Str("en-US")
    ensures code == "fr" <==> lang != Str("en-US")
  {
    if lang == Str("en-US") then "en" else "fr"
  }

  const FrenchPrompt: string := "Cette transcription est en français et concerne une conversation générale."
  const EnglishPrompt: string := "This transcription is in English and concerns a general conversation."

  /** The prompt passed to the transcription model for a language code. */
  function WhisperPrompt(language: string): (prompt: string)
    ensures prompt == FrenchPrompt <==> language == "fr"
    ensures prompt == EnglishPrompt <==> language != "fr"
  {
    if language == "fr" then FrenchPrompt else EnglishPrompt
  }

  /** The two system prompts of `getSystemPrompt`; their wording is not modelled. */
  datatype SystemPrompt = EnglishCorrection | FrenchCorrection

  /**
   * `getSystemPrompt(lang)`: English when `lang` starts with "en", French
   * otherwise. The server defines this helper but never calls it; its chat
   * endpoint builds its prompts inline.
   */
  function SystemPromptFor(lang: string): (p: SystemPrompt)
    ensures p == EnglishCorrection <==> |lang| >= 2 && lang[0] == 'e' && lang[1] == 'n'
  {
    if |lang| >= 2 && lang[..2] == "en" then EnglishCorrection else FrenchCorrection
  }

  // ---------------------------------------------------------------------------
  // MIME type and upload file name
  // ---------------------------------------------------------------------------

  const DefaultMimeType: string := "audio/webm"

  /**
   * `command.mimeType || 'audio/webm'` as the handler goes on to use it:
   * every falsy value (absent, "", null, 0, false) gives the default; a
   * truthy value that is not a string gives None, because calling `split`
   * on it throws.
   */
  function DeclaredMimeType(f: Field): (r: Option<string>)
    ensures r.None? <==> f == Other(true)
    ensures f.Str? && f.s != "" ==> r == Some(f.s)
    ensures f in {Missing, Str(""), Other(false)} ==> r == Some(DefaultMimeType)
  {
    match f
    case Missing => Some(DefaultMimeType)
    case Str(s) => if s == "" then Some(DefaultMimeType) else Some(s)
    case Other(truthy) => if truthy then None else Some(DefaultMimeType)
  }

  /**
   * `` `upload.${mimeType.split('/')[1].split(';')[0]}` ``, or None when the
   * MIME type has no '/', so that `split('/')[1]` is undefined and reading
   * `.split` on it throws.
   */
  function UploadFileName(mimeType: string): (name: Option<string>)
    ensures name.None? <==> '/' !in mimeType
  {
    SplitSpec(mimeType, '/');
    var parts := Split(mimeType, '/');
    if |parts| < 2 then None else Some("upload." + Split(parts[1], ';')[0])
  }

  /**
   * The file name keeps exactly the subtype: the text after the first '/'
   * up to the next ';' (codec parameters) or '/' or the end.
   */
  lemma UploadFileNameOf(kind: string, ext: string, rest: string)
    requires '/' !in kind && '/' !in ext && ';' !in ext
    requires rest == [] || rest[0] == '/' || rest[0] == ';'
    ensures UploadFileName(kind + "/" + ext + rest) == Some("upload." + ext)
  {
    var m := kind + "/" + ext + rest;
    assert m == kind + ['/'] + (ext + rest);
    SplitPrefix(kind, '/', ext + rest);
    SplitSpec(ext + rest, '/');
    var p := Split(ext + rest, '/')[0];
    assert Split(m, '/')[1] == p;
    assert (ext + rest)[..|ext|] == ext;
    if |p| < |ext| {
      assert false;
    }
    if rest == [] || rest[0] == '/' {
      FirstPart(ext + rest, '/', ext);
      FirstPart(ext, ';', ext);
    } else {
      assert p[..|ext|] == ext;
      assert |p| > |ext| ==> p[|ext|] == rest[0];
      FirstPart(p, ';', ext);
    }
  }

  /** The file name for `kind/ext` followed by `params`, spelled out on literals. */
  lemma FileNameFor(kind: string, ext: string, params: string, mimeType: string, fileName: string)
    requires '/' !in kind && '/' !in ext && ';' !in ext
    requires params == [] || params[0] == ';'
    requires mimeType == kind + "/" + ext + params && fileName == "upload." + ext
    ensures UploadFileName(mimeType) == Some(fileName)
  {
    UploadFileNameOf(kind, ext, params);
  }

  /** `audio/webm;codecs=opus`, the recorder's first choice, is uploaded as `upload.webm`. */
  lemma WebmOpusFileName()
    ensures UploadFileName("audio/webm;codecs=opus") == Some("upload.webm")
  {
    FileNameFor("audio", "webm", ";codecs=opus", "audio/webm;codecs=opus", "upload.webm");
  }

  /** `audio/webm`, also the default when no MIME type is declared, is uploaded as `upload.webm`. */
  lemma WebmFileName()
    ensures UploadFileName("audio/webm") == Some("upload.webm")
    ensures UploadFileName(DefaultMimeType) == Some("upload.webm")
  {
    FileNameFor("audio", "webm", "", "audio/webm", "upload.webm");
  }

  lemma OggOpusFileName()
    ensures UploadFileName("audio/ogg;codecs=opus") == Some("upload.ogg")
  {
    FileNameFor("audio", "ogg", ";codecs=opus", "audio/ogg;codecs=opus", "upload.ogg");
  }

  lemma Mp4FileName()
    ensures UploadFileName("audio/mp4") == Some("upload.mp4")
  {
    FileNameFor("audio", "mp4", "", "audio/mp4", "upload.mp4");
  }

  // ---------------------------------------------------------------------------
  // Assembling the audio: Buffer.concat
  // ---------------------------------------------------------------------------

  /** The number of bytes held by a list of chunks. */
  function TotalSize(chunks: seq<Bytes>): nat {
    if chunks == [] then 0 else |chunks[0]| + TotalSize(chunks[1..])
  }

  /** `Buffer.concat(chunks)`: the chunks' bytes one after another. */
  function Concat(chunks: seq<Bytes>): (audio: Bytes)
    ensures |audio| == TotalSize(chunks)
  {
    if chunks == [] then [] else chunks[0] + Concat(chunks[1..])
  }

  /** Chunks of one common size `n` hold `n` bytes each. */
  lemma {:induction false} TotalSizeUniform(chunks: seq<Bytes>, n: nat)
    requires forall i :: 0 <= i < |chunks| ==> |chunks[i]| == n
    ensures TotalSize(chunks) == |chunks| * n
  {
    if chunks != [] {
      assert forall i :: 0 <= i < |chunks[1..]| ==> chunks[1..][i] == chunks[i + 1];
      TotalSizeUniform(chunks[1..], n);
    }
  }

  lemma {:induction false} ConcatAppend(a: seq<Bytes>, b: seq<Bytes>)
    ensures Concat(a + b) == Concat(a) + Concat(b)
  {
    if a != [] {
      assert (a + b)[1..] == a[1..] + b;
      ConcatAppend(a[1..], b);
    } else {
      assert a + b == b;
    }
  }

  /**
   * Byte-exact order preservation: byte `j` of chunk `i` sits in the
   * assembled audio right after all bytes of the chunks that arrived before.
   */
  lemma ConcatByteAt(chunks: seq<Bytes>, i: nat, j: nat)
    requires i < |chunks| && j < |chunks[i]|
    ensures TotalSize(chunks[..i]) + j < |Concat(chunks)|
    ensures Concat(chunks)[TotalSize(chunks[..i]) + j] == chunks[i][j]
  {
    assert chunks == chunks[..i] + ([chunks[i]] + chunks[i + 1..]);
    ConcatAppend(chunks[..i], [chunks[i]] + chunks[i + 1..]);
    assert Concat([chunks[i]] + chunks[i + 1..]) == chunks[i] + Concat(chunks[i + 1..]);
  }
}
