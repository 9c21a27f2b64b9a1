/** `communication.Message`: the raw frame payload both worker loops exchange through their queues. */
module Messages {

  type Byte = bv8

  /** A message's bytes, as `getBytes()` returns them, between the delimiters. */
  datatype Message = Message(bytes: seq<Byte>)
}
