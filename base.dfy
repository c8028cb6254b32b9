/** Values shared by every part of the downloader model. */
module Base {

  /** A value that may be absent: a missing dictionary key, a failed request. */
  datatype Option<+T> = None | Some(value: T)

  /** One byte of downloaded file content. */
  newtype Byte = b: int | 0 <= b < 256

  /** Raw file content as returned by a download. */
  type Bytes = seq<Byte>
}
