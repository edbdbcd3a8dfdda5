/** What the operating system answers: everything a stream learns from its socket. */
module Io {
  import opened Bytes

  /** The mio interests the program uses. */
  datatype Interest = ReadOnly | ReadWrite {
    predicate IsWritable() {
      ReadWrite?
    }
  }

  /** The result of one `read` call; an empty chunk is the end of the stream. */
  datatype ReadOutcome = ReadBytes(chunk: bytes) | ReadFailed

  /** The result of one `write` call followed by `flush`. */
  datatype WriteOutcome = Wrote(count: nat, flushed: bool) | WriteFailed

  /** How a stream method ends. */
  datatype Status<E> = Done | IoError | Closed | Protocol(error: E)
}
