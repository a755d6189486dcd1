/** Go's WriteFrame and ReadFrame over a byte stream that ends. */
module GoCodec {
  import opened Wire
  import Segmentation

  datatype Read = Frame(payload: Bytes, rest: Bytes) | Eof | UnexpectedEof | OversizedFrame | ShortPayload

  /** `stream` is all the reader will ever yield. */
  function ReadFrame(stream: Bytes): (r: Read)
    ensures r.Frame? ==> |r.rest| < |stream|
  {
    if stream == [] then Eof
    else if |stream| < 4 then UnexpectedEof
    else
      var size := ReadBe32(stream);
      if size == 0 then Frame([], stream[4..])
      else if size > MAX_FRAME_SIZE then OversizedFrame
      else if |stream| < 4 + size then ShortPayload
      else Frame(stream[4..4 + size], stream[4 + size..])
  }

  /** A reader over an io.Reader's remaining bytes. */
  class Reader {
    var remaining: Bytes

    constructor (stream: Bytes)
      ensures remaining == stream
    {
      remaining := stream;
    }

    /** io.ReadFull: all of `n` bytes, or as many as there are. */
    method ReadFull(n: nat) returns (got: Bytes)
      modifies this
      ensures got == if n <= |old(remaining)| then old(remaining)[..n] else old(remaining)
      ensures remaining == if n <= |old(remaining)| then old(remaining)[n..] else []
    {
      if n <= |remaining| {
        got, remaining := remaining[..n], remaining[n..];
      } else {
        got, remaining := remaining, [];
      }
    }

    method Next() returns (r: Read)
      modifies this
      ensures r == ReadFrame(old(remaining))
      ensures r.Frame? ==> remaining == r.rest
    {
      ghost var stream := remaining;
      var header := ReadFull(4);
      if |header| == 0 {
        return Eof;
      }
      if |header| < 4 {
        return UnexpectedEof;
      }
      var size := ReadBe32(header);
      hide Be32;
      assert stream[..4] == header;
      if size == 0 {
        return Frame([], remaining);
      }
      if size > MAX_FRAME_SIZE {
        return OversizedFrame;
      }
      var payload := ReadFull(size);
      if |payload| < size {
        return ShortPayload;
      }
      assert stream[4..][..size] == stream[4..4 + size] && stream[4..][size..] == stream[4 + size..];
      return Frame(payload, remaining);
    }
  }

  /** Reading undoes writing exactly up to the frame bound, which WriteFrame does not check. */
  lemma ReadUndoesWrite(p: Bytes, rest: Bytes)
    requires |p| < 0x1_0000_0000
    ensures ReadFrame(Prefixed(p) + rest) == (if |p| <= MAX_FRAME_SIZE then Frame(p, rest) else OversizedFrame)
  {
    ReadPrefixed(p, rest);
    var stream := Prefixed(p) + rest;
    hide Prefixed, ReadBe32;
    assert stream[4 + |p|..] == rest;
  }

  /** The stream reader and the incremental decoder of the other two implementations agree on every input: they
      take the same frames and refuse the same heads, and where the decoder waits the reader reports the end. */
  lemma ReadersAgree<F>(c: Segmentation.Codec<F>, buf: Bytes)
    ensures var r, d := ReadFrame(buf), Segmentation.TryDecode(c, buf);
            && (d.Got? <==> r.Frame? && c.decode(r.payload).Some?)
            && (d.Got? ==> c.decode(r.payload) == Some(d.frame) && r.rest == buf[d.consumed..])
            && (d.Malformed? <==> r.Frame? && c.decode(r.payload).None?)
            && (d.Oversized? <==> r.OversizedFrame?)
            && (d.Incomplete? <==> r.Eof? || r.UnexpectedEof? || r.ShortPayload?)
  {
  }
}
