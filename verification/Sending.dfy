/** The TypeScript send paths. Other tasks may write their own frames whenever a send awaits. */
module Sending {
  import opened Wire
  import opened Reassembly
  import opened Frames

  /** The outbound half of a Channel; `wire` is everything written so far. */
  class Outbound<B> {
    ghost var wire: seq<Envelope<B>>

    constructor ()
      ensures wire == []
    {
      wire := [];
    }

    /** While this frame waits for the buffer to drain, frames of other sequences may go first. */
    method Send(f: Envelope<B>)
      modifies this
      ensures old(wire) < wire
      ensures Project(wire, f.sequence) == old(Project(wire, f.sequence)) + [f.body]
    {
      ghost var others: seq<Envelope<B>> :| NoneOf(others, f.sequence) by { assert NoneOf<B>([], f.sequence); }
      OthersAreInvisible(wire, others, f.sequence);
      ProjectAppends(wire + others, f, f.sequence);
      wire := wire + others + [f];
    }
  }

  /** One turn of a send loop. */
  lemma NextPiece(payload: Bytes, off: nat, sent: seq<Chunk>)
    requires off < |payload| && Split(payload, 0, TS_CHUNK_SIZE) == sent + Split(payload, off, TS_CHUNK_SIZE)
    ensures var chunk := Chunk(|payload|, off, payload[off..Min(off + TS_CHUNK_SIZE, |payload|)]);
            && Split(payload, 0, TS_CHUNK_SIZE) == (sent + [chunk]) + Split(payload, off + TS_CHUNK_SIZE, TS_CHUNK_SIZE)
            && Requests(Pieces(sent + [chunk])) == Requests(Pieces(sent)) + [Data(Piece(chunk))]
            && Responses(Pieces(sent + [chunk])) == Responses(Pieces(sent)) + [ResponseData(Piece(chunk))]
  {
    var chunk := Chunk(|payload|, off, payload[off..Min(off + TS_CHUNK_SIZE, |payload|)]);
    var later := Split(payload, off + TS_CHUNK_SIZE, TS_CHUNK_SIZE);
    assert Split(payload, off, TS_CHUNK_SIZE) == [chunk] + later;
    assert sent + ([chunk] + later) == (sent + [chunk]) + later;
    hide Split;
  }

  lemma NoPieces(payload: Bytes, off: nat)
    requires off >= |payload|
    ensures Split(payload, off, TS_CHUNK_SIZE) == []
    ensures Requests(Pieces([])) == [] && Responses(Pieces([])) == []
  {
  }

  // ---------------------------------------------------------------- client

  method SendPayload(ch: Outbound<Request>, s: int, payload: Bytes)
    modifies ch
    ensures Project(ch.wire, s) == old(Project(ch.wire, s)) + Requests(Contents(payload, TS_CHUNK_SIZE))
  {
    hide Project;
    if |payload| <= MESSAGE_MAX {
      ch.Send(Envelope(s, Data(Message(payload))));
      return;
    }
    hide Split, Pieces, Requests;
    SendPieces(ch, s, payload);
  }

  /** The loop over the chunks. */
  method SendPieces(ch: Outbound<Request>, s: int, payload: Bytes)
    modifies ch
    ensures Project(ch.wire, s) == old(Project(ch.wire, s)) + Requests(Pieces(Split(payload, 0, TS_CHUNK_SIZE)))
  {
    hide Project, Split, Pieces, Requests;
    NoPieces(payload, |payload|);
    ghost var before := Project(ch.wire, s);
    var off := 0;
    ghost var sent: seq<Chunk> := [];
    assert before + [] == before;
    while off < |payload|
      invariant Split(payload, 0, TS_CHUNK_SIZE) == sent + Split(payload, off, TS_CHUNK_SIZE)
      invariant Project(ch.wire, s) == before + Requests(Pieces(sent))
    {
      var end := Min(off + TS_CHUNK_SIZE, |payload|);
      var chunk := Chunk(|payload|, off, payload[off..end]);
      ch.Send(Envelope(s, Data(Piece(chunk))));
      NextPiece(payload, off, sent);
      ghost var sofar := Requests(Pieces(sent));
      assert before + (sofar + [Data(Piece(chunk))]) == before + sofar + [Data(Piece(chunk))];
      sent := sent + [chunk];
      off := off + TS_CHUNK_SIZE;
    }
    NoPieces(payload, off);
    assert sent + [] == sent;
  }

  /** What opening a call puts on the wire: the payload rides inline when small, as Data frames otherwise. */
  function OpeningBodies(path: string, first: Option<Bytes>): (bs: seq<Request>)
    ensures bs != []
  {
    if first == None then [Call(path, None)]
    else if |first.value| <= INLINE_MAX then [Call(path, first)]
    else [Call(path, None)] + Requests(Contents(first.value, TS_CHUNK_SIZE))
  }

  method InvokeClientStreaming(ch: Outbound<Request>, s: int, path: string, first: Option<Bytes>)
    modifies ch
    ensures Project(ch.wire, s) == old(Project(ch.wire, s)) + OpeningBodies(path, first)
  {
    var inline := if first.Some? && |first.value| <= INLINE_MAX then first else None;
    ch.Send(Envelope(s, Call(path, inline)));
    if first.Some? && |first.value| > INLINE_MAX {
      SendPayload(ch, s, first.value);
    }
  }

  method InvokeUnaryRequest(ch: Outbound<Request>, s: int, path: string, req: Bytes)
    modifies ch
    ensures Project(ch.wire, s) == old(Project(ch.wire, s)) + OpeningBodies(path, Some(req)) + [End(true)]
  {
    hide Project, Contents, Requests;
    ghost var before := Project(ch.wire, s);
    var inline := if |req| <= INLINE_MAX then Some(req) else None;
    ch.Send(Envelope(s, Call(path, inline)));
    if inline == None && |req| > 0 {
      SendPayload(ch, s, req);
    }
    assert Project(ch.wire, s) == before + OpeningBodies(path, Some(req));
    ch.Send(Envelope(s, End(true)));
  }

  class ClientStream {
    const s: int
    const ch: Outbound<Request>
    var closed: bool

    constructor (s: int, ch: Outbound<Request>)
      ensures this.s == s && this.ch == ch && !closed
    {
      this.s, this.ch, closed := s, ch, false;
    }

    method Send(payload: Bytes) returns (ok: bool)
      modifies ch
      ensures ok == !closed
      ensures Project(ch.wire, s) ==
              old(Project(ch.wire, s)) + if ok then Requests(Contents(payload, TS_CHUNK_SIZE)) else []
    {
      if closed {
        return false;
      }
      SendPayload(ch, s, payload);
      return true;
    }

    method CloseSend()
      modifies this, ch
      ensures closed
      ensures Project(ch.wire, s) == old(Project(ch.wire, s)) + if old(closed) then [] else [End(true)]
    {
      if closed {
        return;
      }
      closed := true;
      ch.Send(Envelope(s, End(true)));
    }
  }

  // ---------------------------------------------------------------- server

  /** What one response puts on the wire. The first one opens with Begin and rides in it when small. */
  function ReplyBodies(headerSent: bool, payload: Bytes): (bs: seq<Response>)
    ensures bs != []
  {
    var data := Responses(Contents(payload, TS_CHUNK_SIZE));
    if headerSent then data
    else if |payload| <= INLINE_MAX then [Begin(map[], Some(payload))]
    else [Begin(map[], None)] + data
  }

  class ServerStream {
    const s: int
    const ch: Outbound<Response>
    var headerSent: bool

    constructor (s: int, ch: Outbound<Response>)
      ensures this.s == s && this.ch == ch && !headerSent
    {
      this.s, this.ch, headerSent := s, ch, false;
    }

    method Send(payload: Bytes)
      modifies this, ch
      ensures headerSent
      ensures Project(ch.wire, s) == old(Project(ch.wire, s)) + ReplyBodies(old(headerSent), payload)
    {
      hide Project;
      if !headerSent {
        headerSent := true;
        if |payload| <= INLINE_MAX {
          ch.Send(Envelope(s, Begin(map[], Some(payload))));
          return;
        }
        ch.Send(Envelope(s, Begin(map[], None)));
      }
      if |payload| <= MESSAGE_MAX {
        ch.Send(Envelope(s, ResponseData(Message(payload))));
        return;
      }
      NoPieces(payload, |payload|);
      hide Split, Pieces, Responses;
      ghost var before := Project(ch.wire, s);
      var off := 0;
      ghost var sent: seq<Chunk> := [];
      while off < |payload|
        invariant headerSent
        invariant Split(payload, 0, TS_CHUNK_SIZE) == sent + Split(payload, off, TS_CHUNK_SIZE)
        invariant Project(ch.wire, s) == before + Responses(Pieces(sent))
      {
        var end := Min(off + TS_CHUNK_SIZE, |payload|);
        var chunk := Chunk(|payload|, off, payload[off..end]);
        ch.Send(Envelope(s, ResponseData(Piece(chunk))));
        NextPiece(payload, off, sent);
        sent := sent + [chunk];
        off := off + TS_CHUNK_SIZE;
      }
      NoPieces(payload, off);
      assert sent + [] == sent;
    }

    method EndWith(status: Status)
      modifies ch
      ensures Project(ch.wire, s) == old(Project(ch.wire, s)) + [ResponseEnd(Some(status), map[])]
    {
      ch.Send(Envelope(s, ResponseEnd(Some(status), map[])));
    }
  }
}
