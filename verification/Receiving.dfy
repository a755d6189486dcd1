/** What both TypeScript endpoints do with the content of a Data frame, and the view one sequence has of its frames
    at any endpoint. */
module Receiving {
  import opened Wire
  import opened Reassembly
  import opened AsyncQueues
  import opened Frames

  function Absorb(q: Queue<Bytes>, t: Table, s: int, c: Content): (Queue<Bytes>, Table) {
    match c
    case Message(data) => (AfterPush(q, data), t)
    case Piece(chunk) =>
      var (u, full) := Fold(t, s, chunk);
      (if full.Some? then AfterPush(q, full.value) else q, u)
    case NoContent => (q, t)
  }

  method Accept(q: AsyncQueue<Bytes>, reasm: Reassembler, s: int, c: Content)
    requires reasm.Valid() && q !in reasm.Repr
    modifies q, reasm.Repr
    ensures reasm.Valid() && fresh(reasm.Repr - old(reasm.Repr))
    ensures (q.State(), reasm.Contents()) == Absorb(old(q.State()), old(reasm.Contents()), s, c)
  {
    match c
    case Message(data) => q.Push(data);
    case Piece(chunk) =>
      var full := reasm.Reassemble(s, chunk);
      if full != null {
        q.Push(full[..]);
      }
    case NoContent =>
  }

  /** The same for a queue held by value. */
  method AcceptInto(q: Queue<Bytes>, reasm: Reassembler, s: int, c: Content) returns (next: Queue<Bytes>)
    requires reasm.Valid()
    modifies reasm.Repr
    ensures reasm.Valid() && fresh(reasm.Repr - old(reasm.Repr))
    ensures (next, reasm.Contents()) == Absorb(q, old(reasm.Contents()), s, c)
  {
    next := q;
    match c
    case Message(data) => next := AfterPush(q, data);
    case Piece(chunk) =>
      var full := reasm.Reassemble(s, chunk);
      if full != null {
        next := AfterPush(q, full[..]);
      }
    case NoContent =>
  }

  lemma AbsorbKeepsQueue(q: Queue<Bytes>, t: Table, s: int, content: Content)
    requires Consistent(q)
    ensures Consistent(Absorb(q, t, s, content).0)
  {
    match content
    case Message(data) => PushKeeps(q, data);
    case Piece(chunk) =>
      var full := Fold(t, s, chunk).1;
      if full.Some? { PushKeeps(q, full.value); }
    case NoContent =>
  }

  // ---------------------------------------------------------------- one sequence

  /** A stream as its sequence sees it: whether it is known, the payloads its queue accepted, whether that
      queue is closed, whether the endpoint still routes to it, and its partial message. */
  datatype Stream = Stream(known: bool, log: seq<Bytes>, closed: bool, live: bool, partial: Option<Partial>)

  const FRESH: Stream := Stream(false, [], false, false, None)

  function Append(st: Stream, payload: Bytes): Stream {
    if st.closed then st else st.(log := st.log + [payload])
  }

  function AbsorbOne(st: Stream, c: Content): Stream {
    match c
    case Message(data) => Append(st, data)
    case Piece(chunk) =>
      var (p, full) := FoldOne(st.partial, chunk);
      if full.Some? then Append(st.(partial := p), full.value) else st.(partial := p)
    case NoContent => st
  }

  function AbsorbAll(st: Stream, cs: seq<Content>): Stream
    decreases |cs|
  {
    if cs == [] then st else AbsorbAll(AbsorbOne(st, cs[0]), cs[1..])
  }

  lemma {:induction false} PiecesFeedTheQueue(st: Stream, chunks: seq<Chunk>)
    requires !st.closed
    ensures var (p, outs) := RunOne(st.partial, chunks);
            AbsorbAll(st, Pieces(chunks)) == st.(partial := p, log := st.log + outs)
    decreases |chunks|
  {
    hide FoldOne;
    var (p, outs) := RunOne(st.partial, chunks);
    if chunks == [] {
      assert st.log + outs == st.log;
    } else {
      var (q, full) := FoldOne(st.partial, chunks[0]);
      var next := AbsorbOne(st, Piece(chunks[0]));
      assert Pieces(chunks)[1..] == Pieces(chunks[1..]);
      PiecesFeedTheQueue(next, chunks[1..]);
      if full.Some? {
        var later := RunOne(q, chunks[1..]).1;
        assert (st.log + [full.value]) + later == st.log + ([full.value] + later);
      }
    }
  }

  /** The frames of one payload add exactly that payload to an open queue and leave no partial message. */
  lemma ContentsDeliver(st: Stream, payload: Bytes, chunkSize: nat)
    requires chunkSize > 0 && !st.closed && st.partial == None
    ensures AbsorbAll(st, Contents(payload, chunkSize)) == st.(log := st.log + [payload])
  {
    if |payload| > MESSAGE_MAX {
      var chunks := Split(payload, 0, chunkSize);
      AnyOrder(payload, chunkSize, None, chunks);
      PiecesFeedTheQueue(st, chunks);
    } else {
      assert [Message(payload)][1..] == [];
    }
  }

  /** Absorb on the shared table is AbsorbOne for its own sequence and invisible to the others. */
  lemma AbsorbMatches(q: Queue<Bytes>, t: Table, s: int, c: Content, st: Stream)
    requires st.log == q.log && st.closed == q.closed && st.partial == Lookup(t, s)
    ensures var (q', t') := Absorb(q, t, s, c);
            && AbsorbOne(st, c) == st.(log := q'.log, partial := Lookup(t', s))
            && q'.closed == q.closed
            && forall u :: u != s ==> Lookup(t', u) == Lookup(t, u)
  {
    hide FoldOne;
  }

  // ---------------------------------------------------------------- reading the frames of one sequence

  /** The bodies of one sequence, read in order. */
  function AfterReading<B>(step: (Stream, B) -> Stream, start: Stream, bodies: seq<B>): Stream
    decreases |bodies|
  {
    if bodies == [] then start else
    step(AfterReading(step, start, bodies[..|bodies| - 1]), bodies[|bodies| - 1])
  }

  lemma ReadingAppends<B>(step: (Stream, B) -> Stream, start: Stream, bodies: seq<B>, b: B)
    ensures AfterReading(step, start, bodies + [b]) == step(AfterReading(step, start, bodies), b)
  {
    assert (bodies + [b])[..|bodies|] == bodies;
  }

  /** The body at most adds payloads to an open stream. */
  ghost predicate OnlyAdds<B>(step: (Stream, B) -> Stream, b: B) {
    forall st: Stream :: !st.closed ==> !step(st, b).closed && st.log <= step(st, b).log
  }

  lemma GrowsByOne<B>(step: (Stream, B) -> Stream, start: Stream, bodies: seq<B>, b: B)
    requires OnlyAdds(step, b) && !AfterReading(step, start, bodies).closed
    ensures Grows(AfterReading(step, start, bodies), AfterReading(step, start, bodies + [b]))
  {
    ReadingAppends(step, start, bodies, b);
    hide AfterReading;
  }

  predicate Grows(before: Stream, after: Stream) {
    before.log <= after.log && !after.closed
  }

  ghost predicate AllOnlyAdd<B>(step: (Stream, B) -> Stream, bodies: seq<B>) {
    forall i :: 0 <= i < |bodies| ==> OnlyAdds(step, bodies[i])
  }

  lemma {:induction false} ReadingGrows<B>(step: (Stream, B) -> Stream, start: Stream, bodies: seq<B>, later: seq<B>)
    requires !AfterReading(step, start, bodies).closed && AllOnlyAdd(step, later)
    ensures Grows(AfterReading(step, start, bodies), AfterReading(step, start, bodies + later))
    decreases |later|
  {
    hide AfterReading, OnlyAdds;
    if later == [] {
      assert bodies + later == bodies;
    } else {
      var front, last := later[..|later| - 1], later[|later| - 1];
      ReadingGrows(step, start, bodies, front);
      assert OnlyAdds(step, last);
      hide AllOnlyAdd;
      assert bodies + later == (bodies + front) + [last];
      GrowsByOne(step, start, bodies + front, last);
    }
  }

  lemma {:induction false} ReadingStaysOpen<B>(step: (Stream, B) -> Stream, start: Stream, bodies: seq<B>)
    requires !start.closed && forall st: Stream, b: B :: !st.closed ==> !step(st, b).closed
    ensures !AfterReading(step, start, bodies).closed
    decreases |bodies|
  {
    if bodies != [] {
      ReadingStaysOpen(step, start, bodies[..|bodies| - 1]);
    }
  }

  function Wrapped<B>(wrap: Content -> B, cs: seq<Content>): (bs: seq<B>)
    ensures |bs| == |cs|
  {
    seq(|cs|, i requires 0 <= i < |cs| => wrap(cs[i]))
  }

  /** Data bodies are absorbed one by one. */
  lemma {:induction false} ReadingContents<B>(step: (Stream, B) -> Stream, start: Stream, bodies: seq<B>,
                                              wrap: Content -> B, cs: seq<Content>)
    requires forall st: Stream, c :: st.known == AfterReading(step, start, bodies).known ==>
               step(st, wrap(c)) == AbsorbOne(st, c)
    ensures AfterReading(step, start, bodies + Wrapped(wrap, cs)) == AbsorbAll(AfterReading(step, start, bodies), cs)
    decreases |cs|
  {
    if cs == [] {
      assert bodies + Wrapped(wrap, cs) == bodies;
    } else {
      var next := bodies + [wrap(cs[0])];
      ReadingAppends(step, start, bodies, wrap(cs[0]));
      AbsorbKeepsKnown(AfterReading(step, start, bodies), cs[0]);
      hide AfterReading, AbsorbOne;
      ReadingContents(step, start, next, wrap, cs[1..]);
      assert bodies + Wrapped(wrap, cs) == next + Wrapped(wrap, cs[1..]);
    }
  }

  lemma AbsorbKeepsKnown(st: Stream, c: Content)
    ensures AbsorbOne(st, c).known == st.known
  {
    hide FoldOne;
  }

  /** Exactly `payloads` arrived and no message is half way. */
  predicate Holds(st: Stream, payloads: seq<Bytes>) {
    !st.closed && st.partial == None && st.log == payloads
  }

  /** The Data bodies of one payload add exactly that payload. */
  lemma ReadingPayload<B>(step: (Stream, B) -> Stream, start: Stream, bodies: seq<B>, wrap: Content -> B,
                          payloads: seq<Bytes>, payload: Bytes, chunkSize: nat)
    requires chunkSize > 0 && Holds(AfterReading(step, start, bodies), payloads)
    requires forall st: Stream, c :: st.known == AfterReading(step, start, bodies).known ==>
               step(st, wrap(c)) == AbsorbOne(st, c)
    ensures var after := AfterReading(step, start, bodies + Wrapped(wrap, Contents(payload, chunkSize)));
            Holds(after, payloads + [payload]) && after.known == AfterReading(step, start, bodies).known
  {
    ReadingContents(step, start, bodies, wrap, Contents(payload, chunkSize));
    ContentsDeliver(AfterReading(step, start, bodies), payload, chunkSize);
    hide AfterReading, Contents, AbsorbAll, Wrapped, AbsorbOne;
  }
}
