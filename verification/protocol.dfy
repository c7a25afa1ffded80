/**
 * The frames exchanged over the transcription WebSocket, as each side sees
 * them once JSON has been parsed or before it is serialised.
 */
module Protocol {
  import opened Common

  /**
   * The value of one property of a parsed JSON command, as the handler reads
   * it with `command.x`: absent (`undefined`), a string, or some other JSON
   * value (null, a number, a boolean, an array or an object), of which only
   * its JavaScript truthiness matters here.
   */
  datatype Field = Missing | Str(s: string) | Other(truthy: bool)

  /**
   * How the server's handler classifies one inbound message, with the bytes
   * it keeps when it treats the message as audio.
   *   - Binary: `JSON.parse` throws.
   *   - NullJson: the text is JSON `null`, so reading `.event` throws inside
   *     the same `try` and the message is treated as audio too.
   *   - Command: any other JSON value; a primitive, an array or an object
   *     without the property reads as `Missing`.
   */
  datatype Inbound =
    | Binary(raw: Bytes)
    | NullJson(raw: Bytes)
    | Command(event: Field, lang: Field, mimeType: Field)

  /** Frames the client sends: `{event:'start', lang}`, a raw audio blob, `{event:'end', mimeType}`. */
  datatype ClientFrame =
    | StartFrame(lang: string)
    | AudioChunk(data: Bytes)
    | EndFrame(mimeType: string)

  /** Frames the server sends: `{event:'transcript', data}` or `{event:'error', message}`. */
  datatype ServerFrame =
    | Transcript(data: string)
    | Error(message: string)

  /** The only error message the server ever sends. */
  const ProcessingFailed: string := "Failed to process audio."
}
