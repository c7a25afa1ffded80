/** Small shared vocabulary: bytes and an optional value. */
module Common {

  /** One octet of a Node.js `Buffer` or a browser `Blob`. */
  newtype byte = x: int | 0 <= x < 256

  /** An opaque binary message: an audio chunk, or the bytes of a text frame. */
  type Bytes = seq<byte>

  datatype Option<+T> = None | Some(value: T)
}
