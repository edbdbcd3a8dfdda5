/** server/runmaster/clientstream.rs: the master reads exactly the first eight bytes of a connection. */
module MasterClientStream {
  import opened Bytes
  import Io
  import P = Protocol

  datatype ReadResult = Continue | Closed | Error | Done

  class ClientStream {
    const buffer: array<byte>
    var bytesRead: nat

    ghost predicate Valid()
      reads this
    {
      buffer.Length == P.REQUEST_HEADER_SIZE && bytesRead <= buffer.Length
    }

    /** What has been read of the header. */
    ghost function Head(): (s: bytes)
      reads this, buffer
      requires Valid()
      ensures |s| == bytesRead
    {
      buffer[..bytesRead]
    }

    constructor ()
      ensures Valid() && fresh(buffer) && Head() == []
    {
      buffer := new byte[P.REQUEST_HEADER_SIZE](_ => 0);
      bytesRead := 0;
    }

    /** The slice that is offered to the socket ends with the header, so no later byte is consumed; once
        the header is complete the slice is empty, and the read is taken for the end of the stream. */
    method Read(r: Io.ReadOutcome) returns (result: ReadResult)
      requires Valid()
      requires r.ReadBytes? ==> |r.chunk| <= P.REQUEST_HEADER_SIZE - bytesRead
      modifies `bytesRead, buffer
      ensures Valid()
      ensures r.ReadFailed? ==> result == Error && Head() == old(Head())
      ensures r.ReadBytes? ==> Head() == old(Head()) + r.chunk
      ensures r == Io.ReadBytes([]) ==> result == Closed
      ensures r.ReadBytes? && r.chunk != [] ==>
                result == if |Head()| == P.REQUEST_HEADER_SIZE then Done else Continue
      ensures old(bytesRead) == P.REQUEST_HEADER_SIZE ==> result == Closed || result == Error
    {
      if r.ReadFailed? {
        return Error;
      }
      for n := 0 to |r.chunk|
        invariant Valid() && bytesRead + |r.chunk| <= buffer.Length
        invariant buffer[..bytesRead] == old(buffer[..bytesRead])
        invariant buffer[bytesRead..bytesRead + n] == r.chunk[..n]
      {
        buffer[bytesRead + n] := r.chunk[n];
      }
      assert buffer[..bytesRead + |r.chunk|] == old(Head()) + r.chunk;
      if r.chunk == [] {
        return Closed;
      }
      bytesRead := bytesRead + |r.chunk|;
      result := if bytesRead == P.REQUEST_HEADER_SIZE then Done else Continue;
    }

    method Header() returns (header: P.RequestBuf)
      requires Valid()
      ensures header[..bytesRead] == Head()
    {
      header := buffer[..];
    }
  }
}
