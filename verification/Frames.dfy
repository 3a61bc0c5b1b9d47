/** What the receiving half of a file socket yields. */
module Frames {
  import opened Wire

  datatype Incoming = Binary(data: Bytes) | OtherFrame | CloseFrame | StreamEnd | StreamError(e: string)
}
