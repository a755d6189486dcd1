/** The frames of both directions, how payloads are cut into them, and how long they are on the wire. */
module Frames {
  import opened Wire
  import opened Reassembly

  datatype Status = Status(code: int, message: string)

  type Metadata = map<string, seq<string>>

  /** The content oneof of a Data frame. */
  datatype Content = Message(data: Bytes) | Piece(chunk: Chunk) | NoContent

  /** Any frame: Routing.sequence (0 when routing is missing) and the type oneof. */
  datatype Envelope<+B> = Envelope(sequence: int, body: B)

  /** Client to server. */
  datatype Request =
    | Call(path: string, inline: Option<Bytes>)
    | Data(content: Content)
    | End(closeSend: bool)
    | NoRequest

  /** Server to client. */
  datatype Response =
    | Begin(header: Metadata, beginInline: Option<Bytes>)
    | ResponseData(responseContent: Content)
    | ResponseEnd(status: Option<Status>, trailer: Metadata)
    | NoResponse

  type Frame = Envelope<Request>
  type ResponseFrame = Envelope<Response>

  /** An End without a status means OK. */
  function Final(status: Option<Status>): Status {
    if status.Some? then status.value else Status(0, "")
  }

  // ---------------------------------------------------------------- payloads

  /** The Data contents that carry one payload. */
  function Contents(payload: Bytes, chunkSize: nat): (cs: seq<Content>)
    requires chunkSize > 0
    ensures cs != []
  {
    if |payload| <= MESSAGE_MAX then [Message(payload)] else Pieces(Split(payload, 0, chunkSize))
  }

  function Pieces(chunks: seq<Chunk>): (cs: seq<Content>)
    ensures |cs| == |chunks|
  {
    seq(|chunks|, i requires 0 <= i < |chunks| => Piece(chunks[i]))
  }

  function Requests(cs: seq<Content>): seq<Request> {
    seq(|cs|, i requires 0 <= i < |cs| => Data(cs[i]))
  }

  function Responses(cs: seq<Content>): seq<Response> {
    seq(|cs|, i requires 0 <= i < |cs| => ResponseData(cs[i]))
  }

  /** The Data frames in which a Go or Rust handler sends one payload. */
  function DataBodies(payload: Bytes): seq<Response> {
    Responses(Contents(payload, GO_CHUNK_SIZE))
  }

  // ---------------------------------------------------------------- one sequence's share of the wire

  /** The bodies that carry sequence `s`, in order. */
  function Project<B>(wire: seq<Envelope<B>>, s: int): seq<B>
    decreases |wire|
  {
    if wire == [] then [] else
    var earlier, last := Project(wire[..|wire| - 1], s), wire[|wire| - 1];
    if last.sequence == s then earlier + [last.body] else earlier
  }

  lemma ProjectAppends<B>(wire: seq<Envelope<B>>, f: Envelope<B>, s: int)
    ensures Project(wire + [f], s) == if f.sequence == s then Project(wire, s) + [f.body] else Project(wire, s)
  {
  }

  predicate NoneOf<B>(frames: seq<Envelope<B>>, s: int) {
    forall i :: 0 <= i < |frames| ==> frames[i].sequence != s
  }

  lemma {:induction false} OthersAreInvisible<B>(wire: seq<Envelope<B>>, others: seq<Envelope<B>>, s: int)
    requires NoneOf(others, s)
    ensures Project(wire + others, s) == Project(wire, s)
    decreases |others|
  {
    if others == [] {
      assert wire + others == wire;
    } else {
      var front := others[..|others| - 1];
      OthersAreInvisible(wire, front, s);
      ProjectAppends(wire + front, others[|others| - 1], s);
      assert wire + others == (wire + front) + [others[|others| - 1]];
    }
  }

  lemma {:induction false} ProjectConcatenates<B>(a: seq<Envelope<B>>, b: seq<Envelope<B>>, s: int)
    ensures Project(a + b, s) == Project(a, s) + Project(b, s)
    decreases |b|
  {
    if b == [] {
      assert a + b == a;
      assert Project(a, s) + [] == Project(a, s);
    } else {
      var front, last := b[..|b| - 1], b[|b| - 1];
      ProjectConcatenates(a, front, s);
      ProjectAppends(front, last, s);
      ProjectAppends(a + front, last, s);
      hide Project;
      assert b == front + [last] && a + b == (a + front) + [last];
      assert Project(a, s) + (Project(front, s) + [last.body]) == (Project(a, s) + Project(front, s)) + [last.body];
    }
  }

  // ---------------------------------------------------------------- metadata in several frames

  /** The header metadata of the Begin frames, and the trailer metadata of the End frames. */
  function Headers(bodies: seq<Response>): seq<Metadata>
    decreases |bodies|
  {
    if bodies == [] then [] else
    var front, last := Headers(bodies[..|bodies| - 1]), bodies[|bodies| - 1];
    if last.Begin? then front + [last.header] else front
  }

  function Trailers(bodies: seq<Response>): seq<Metadata>
    decreases |bodies|
  {
    if bodies == [] then [] else
    var front, last := Trailers(bodies[..|bodies| - 1]), bodies[|bodies| - 1];
    if last.ResponseEnd? then front + [last.trailer] else front
  }

  /** The values the last of several metadata that names `key` gives it. */
  function LastNamed(md: seq<Metadata>, key: string): Option<seq<string>>
    decreases |md|
  {
    if md == [] then None
    else if key in md[|md| - 1] then Some(md[|md| - 1][key]) else LastNamed(md[..|md| - 1], key)
  }

  /** All values that any of them gives it, in order. */
  function AllNamed(md: seq<Metadata>, key: string): seq<string>
    decreases |md|
  {
    if md == [] then [] else
    AllNamed(md[..|md| - 1], key) + if key in md[|md| - 1] then md[|md| - 1][key] else []
  }

  /** Later values replace earlier ones, key by key. */
  ghost predicate Overlaid(all: Metadata, md: seq<Metadata>) {
    forall key :: if key in all then LastNamed(md, key) == Some(all[key]) else LastNamed(md, key) == None
  }

  /** Later values join earlier ones, key by key. */
  ghost predicate Gathered(all: Metadata, md: seq<Metadata>) {
    forall key ::
      if key in all then LastNamed(md, key).Some? && AllNamed(md, key) == all[key] else LastNamed(md, key) == None
  }

  lemma HeadersAppend(bodies: seq<Response>, b: Response)
    ensures Headers(bodies + [b]) == Headers(bodies) + if b.Begin? then [b.header] else []
    ensures Trailers(bodies + [b]) == Trailers(bodies) + if b.ResponseEnd? then [b.trailer] else []
  {
    assert (bodies + [b])[..|bodies|] == bodies;
  }

  lemma NamedAppends(md: seq<Metadata>, more: Metadata, key: string)
    ensures LastNamed(md + [more], key) == if key in more then Some(more[key]) else LastNamed(md, key)
    ensures AllNamed(md + [more], key) == AllNamed(md, key) + if key in more then more[key] else []
  {
    assert (md + [more])[..|md|] == md;
  }

  lemma {:induction false} UnnamedIsEmpty(md: seq<Metadata>, key: string)
    requires LastNamed(md, key) == None
    ensures AllNamed(md, key) == []
    decreases |md|
  {
    if md != [] { UnnamedIsEmpty(md[..|md| - 1], key); }
  }

  lemma OverlaidAppends(all: Metadata, md: seq<Metadata>, more: Metadata)
    requires Overlaid(all, md)
    ensures Overlaid(all + more, md + [more])
  {
    forall key
      ensures if key in all + more then LastNamed(md + [more], key) == Some((all + more)[key])
              else LastNamed(md + [more], key) == None
    {
      NamedAppends(md, more, key);
    }
  }

  // ---------------------------------------------------------------- sizes on the wire

  /** Bytes of a protobuf varint. */
  function VarintLen(n: nat): nat {
    if n < 128 then 1 else 1 + VarintLen(n / 128)
  }

  lemma VarintBounds(n: nat)
    ensures VarintLen(n) >= 1 && (n < 128 ==> VarintLen(n) == 1)
    ensures n < 0x20_0000 ==> VarintLen(n) <= 3
    ensures n < 0x8000_0000 ==> VarintLen(n) <= 5
  {
    if n >= 128 {
      assert VarintLen(n) == 1 + VarintLen(n / 128);
      var m := n / 128;
      assert m >= 128 ==> VarintLen(m) == 1 + VarintLen(m / 128);
      var k := m / 128;
      assert k >= 128 ==> VarintLen(k) == 1 + VarintLen(k / 128);
      var j := k / 128;
      assert j >= 128 ==> VarintLen(j) == 1 + VarintLen(j / 128);
    }
  }

  /** A scalar int32 field with a one-byte tag; proto3 leaves out zero. */
  function ScalarLen(n: nat): nat {
    if n == 0 then 0 else 1 + VarintLen(n)
  }

  /** A length-delimited field with a one-byte tag. */
  function FieldLen(n: nat): nat {
    1 + VarintLen(n) + n
  }

  function ContentLen(c: Content): nat {
    match c
    case Message(data) => FieldLen(|data|)
    case Piece(Chunk(total, offset, data)) =>
      FieldLen(ScalarLen(total) + ScalarLen(offset) + if data == [] then 0 else FieldLen(|data|))
    case NoContent => 0
  }

  /** The protobuf encoding of a Frame or ResponseFrame that carries a Data with this content. */
  function DataFrameLen(sequence: nat, c: Content): nat {
    FieldLen(ScalarLen(sequence)) + FieldLen(ContentLen(c))
  }

  /** Everything a send path emits fits its int32 fields and stays under the frame bound, prefix included, with
      at most 36 bytes on top of the payload bytes carried. */
  lemma DataFramesFit(sequence: nat, payload: Bytes, chunkSize: nat, c: Content)
    requires sequence < INT32_LIMIT && |payload| < INT32_LIMIT
    requires 0 < chunkSize <= MESSAGE_MAX
    requires c in Contents(payload, chunkSize)
    ensures !c.NoContent? && (c.Piece? ==> c.chunk.total < INT32_LIMIT && c.chunk.offset < INT32_LIMIT)
    ensures var carried := if c.Piece? then |c.chunk.data| else |c.data|;
            carried <= MESSAGE_MAX && 4 + DataFrameLen(sequence, c) <= carried + 36
    ensures 4 + DataFrameLen(sequence, c) <= MAX_FRAME_SIZE
  {
    hide VarintLen;
    VarintBounds(sequence);
    VarintBounds(ScalarLen(sequence));
    VarintBounds(ContentLen(c));
    if |payload| <= MESSAGE_MAX {
      VarintBounds(|payload|);
    } else {
      var chunks := Split(payload, 0, chunkSize);
      SplitPartitions(payload, 0, chunkSize);
      SplitBounds(payload, 0, chunkSize);
      var i :| 0 <= i < |chunks| && c == Piece(chunks[i]);
      assert chunks[i] in chunks && IsPiece(payload, chunks[i]);
      PieceFits(chunks[i]);
    }
  }

  lemma PieceFits(c: Chunk)
    requires c.total < INT32_LIMIT && c.offset < INT32_LIMIT && |c.data| <= MESSAGE_MAX
    ensures |c.data| <= ContentLen(Piece(c)) <= |c.data| + 20
  {
    var body := ScalarLen(c.total) + ScalarLen(c.offset) + if c.data == [] then 0 else FieldLen(|c.data|);
    hide VarintLen;
    VarintBounds(c.total);
    VarintBounds(c.offset);
    VarintBounds(|c.data|);
    VarintBounds(body);
  }

  lemma {:induction false} SplitBounds(payload: Bytes, offset: nat, size: nat)
    requires size > 0
    ensures forall c :: c in Split(payload, offset, size) ==> |c.data| <= size
    decreases |payload| - offset
  {
    if offset < |payload| {
      SplitBounds(payload, offset + size, size);
    }
  }
}
