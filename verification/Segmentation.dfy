/** Incremental decoding of length-prefixed frames from a byte stream that the transport cuts at will. */
module Segmentation {
  import opened Wire

  /** The protobuf library: an encoder and a decoder for one frame type. */
  datatype Codec<!F> = Codec(encode: F -> Bytes, decode: Bytes -> Option<F>)

  /** Oversized and Malformed are the two ways the TypeScript and Rust decoders raise an error. */
  datatype Decoded<+F> = Incomplete | Oversized | Malformed | Got(frame: F, consumed: nat)

  function TryDecode<F>(c: Codec<F>, buf: Bytes): (d: Decoded<F>)
    ensures d.Got? ==> 4 <= d.consumed <= |buf|
  {
    if |buf| < 4 then Incomplete else
    var length := ReadBe32(buf);
    if length > MAX_FRAME_SIZE then Oversized else
    var total := 4 + length;
    if |buf| < total then Incomplete else
    match c.decode(buf[4..total])
    case None => Malformed
    case Some(frame) => Got(frame, total)
  }

  /** Frames handed to the RPC layer, and the bytes kept for the next call. */
  datatype Drained<+F> = Drained(frames: seq<F>, rest: Bytes)

  function Drain<F>(c: Codec<F>, buf: Bytes): Drained<F>
    decreases |buf|
  {
    match TryDecode(c, buf)
    case Got(frame, consumed) =>
      var tail := Drain(c, buf[consumed..]);
      Drained([frame] + tail.frames, tail.rest)
    case _ => Drained([], buf)
  }

  /** The inbound half of the TypeScript Channel. */
  class Channel<F> {
    const codec: Codec<F>
    var inboundBuf: Bytes

    constructor (codec: Codec<F>)
      ensures this.codec == codec && inboundBuf == []
    {
      this.codec := codec;
      inboundBuf := [];
    }

    /** `frames` lists the calls of the frame callback in order. A decode error leaves the loop early. */
    method HandleMessage(incoming: Bytes) returns (frames: seq<F>)
      modifies this
      ensures Drained(frames, inboundBuf) == Drain(codec, old(inboundBuf) + incoming)
    {
      hide TryDecode;
      inboundBuf := inboundBuf + incoming;
      frames := [];
      while true
        invariant var later := Drain(codec, inboundBuf);
                  Drain(codec, old(inboundBuf) + incoming) == Drained(frames + later.frames, later.rest)
        decreases |inboundBuf|
      {
        var result := TryDecode(codec, inboundBuf);
        if !result.Got? {
          break;
        }
        ghost var later := Drain(codec, inboundBuf[result.consumed..]).frames;
        assert frames + ([result.frame] + later) == (frames + [result.frame]) + later;
        inboundBuf := inboundBuf[result.consumed..];
        frames := frames + [result.frame];
      }
    }
  }

  /** The state of the buffer and the frames emitted after a list of inbound messages. */
  function Feed<F>(c: Codec<F>, buf: Bytes, segments: seq<Bytes>): Drained<F>
    decreases |segments|
  {
    if segments == [] then Drained([], buf) else
    var first := Drain(c, buf + segments[0]);
    var later := Feed(c, first.rest, segments[1..]);
    Drained(first.frames + later.frames, later.rest)
  }

  function Flatten(segments: seq<Bytes>): Bytes {
    if segments == [] then [] else segments[0] + Flatten(segments[1..])
  }

  function Encoded<F>(c: Codec<F>, frames: seq<F>): Bytes {
    if frames == [] then [] else Prefixed(c.encode(frames[0])) + Encoded(c, frames[1..])
  }

  predicate Sendable<F(==)>(c: Codec<F>, frame: F) {
    c.decode(c.encode(frame)) == Some(frame) && |c.encode(frame)| <= MAX_FRAME_SIZE
  }

  predicate Stuck<F>(c: Codec<F>, buf: Bytes) {
    var d := TryDecode(c, buf);
    d.Oversized? || d.Malformed?
  }

  // ---------------------------------------------------------------- one decoding step

  /** More bytes never change a decision already taken. */
  lemma DecisionIsFinal<F>(c: Codec<F>, buf: Bytes, more: Bytes)
    requires !TryDecode(c, buf).Incomplete?
    ensures TryDecode(c, buf + more) == TryDecode(c, buf)
  {
    hide Be32;
    assert (buf + more)[..4] == buf[..4];
    var total := 4 + ReadBe32(buf);
    if total <= |buf| {
      assert (buf + more)[4..total] == buf[4..total];
    }
  }

  lemma DecodeWritten<F>(c: Codec<F>, frame: F, rest: Bytes)
    requires Sendable(c, frame)
    ensures TryDecode(c, Prefixed(c.encode(frame)) + rest) == Got(frame, |Prefixed(c.encode(frame))|)
  {
    hide Be32, ReadBe32;
    ReadPrefixed(c.encode(frame), rest);
  }

  // ---------------------------------------------------------------- whole buffers

  lemma {:induction false} DrainSplits<F>(c: Codec<F>, a: Bytes, b: Bytes)
    ensures Drain(c, a + b) == Join(Drain(c, a), Drain(c, Drain(c, a).rest + b))
    decreases |a|
  {
    var d := TryDecode(c, a);
    DrainSteps(c, a);
    hide Drain, TryDecode, Join;
    if d.Got? {
      DecisionIsFinal(c, a, b);
      DrainSteps(c, a + b);
      var tail := a[d.consumed..];
      assert (a + b)[d.consumed..] == tail + b;
      DrainSplits(c, tail, b);
      FirstJoins(d.frame, Drain(c, tail), Drain(c, Drain(c, tail).rest + b));
    } else {
      NothingJoins(a, Drain(c, a + b));
    }
  }

  /** Frames of one part, then those of the next. */
  function Join<F>(x: Drained<F>, y: Drained<F>): Drained<F> {
    Drained(x.frames + y.frames, y.rest)
  }

  lemma FirstJoins<F>(f: F, x: Drained<F>, y: Drained<F>)
    ensures Join(Drained([f] + x.frames, x.rest), y) == Drained([f] + Join(x, y).frames, Join(x, y).rest)
  {
    assert ([f] + x.frames) + y.frames == [f] + (x.frames + y.frames);
  }

  lemma NothingJoins<F>(rest: Bytes, y: Drained<F>)
    ensures Join(Drained([], rest), y) == y
  {
  }

  lemma DrainSteps<F>(c: Codec<F>, buf: Bytes)
    ensures var d := TryDecode(c, buf);
            if d.Got? then
              var tail := Drain(c, buf[d.consumed..]);
              Drain(c, buf) == Drained([d.frame] + tail.frames, tail.rest)
            else Drain(c, buf) == Drained([], buf)
  {
    hide TryDecode;
  }

  lemma {:induction false} DrainLeavesNothing<F>(c: Codec<F>, buf: Bytes)
    ensures Drain(c, Drain(c, buf).rest) == Drained([], Drain(c, buf).rest)
    decreases |buf|
  {
    var d := TryDecode(c, buf);
    if d.Got? {
      DrainLeavesNothing(c, buf[d.consumed..]);
    }
  }

  /** Feeding one list of messages and then another is feeding both. */
  lemma {:induction false} FeedSplits<F>(c: Codec<F>, buf: Bytes, early: seq<Bytes>, late: seq<Bytes>)
    ensures Feed(c, buf, early + late) == Join(Feed(c, buf, early), Feed(c, Feed(c, buf, early).rest, late))
    decreases |early|
  {
    hide Drain, Join;
    if early == [] {
      assert early + late == late;
      NothingJoins(buf, Feed(c, buf, late));
    } else {
      var first := Drain(c, buf + early[0]);
      assert (early + late)[1..] == early[1..] + late;
      FeedSplits(c, first.rest, early[1..], late);
      var x := Feed(c, first.rest, early[1..]);
      FramesJoin(first.frames, x, Feed(c, x.rest, late));
    }
  }

  lemma FramesJoin<F>(frames: seq<F>, x: Drained<F>, y: Drained<F>)
    ensures Join(Drained(frames + x.frames, x.rest), y) == Drained(frames + Join(x, y).frames, Join(x, y).rest)
  {
    assert (frames + x.frames) + y.frames == frames + (x.frames + y.frames);
  }

  /** However the bytes are cut, good stream or bad, the frames emitted and the bytes kept are those of the
      uncut stream. */
  lemma {:induction false} SegmentationIndependence<F>(c: Codec<F>, buf: Bytes, segments: seq<Bytes>)
    requires Drain(c, buf) == Drained([], buf)
    ensures Feed(c, buf, segments) == Drain(c, buf + Flatten(segments))
    decreases |segments|
  {
    hide Drain, TryDecode;
    if segments == [] {
      assert buf + [] == buf;
    } else {
      var first := Drain(c, buf + segments[0]);
      DrainLeavesNothing(c, buf + segments[0]);
      SegmentationIndependence(c, first.rest, segments[1..]);
      DrainSplits(c, buf + segments[0], Flatten(segments[1..]));
      assert buf + Flatten(segments) == (buf + segments[0]) + Flatten(segments[1..]);
    }
  }

  lemma DrainWritten<F>(c: Codec<F>, frame: F, tail: Bytes)
    requires Sendable(c, frame)
    ensures var d := Drain(c, tail);
            Drain(c, Prefixed(c.encode(frame)) + tail) == Drained([frame] + d.frames, d.rest)
  {
    hide Prefixed, TryDecode;
    var head := Prefixed(c.encode(frame));
    DecodeWritten(c, frame, tail);
    assert (head + tail)[|head|..] == tail;
  }

  lemma {:induction false} DrainStream<F>(c: Codec<F>, frames: seq<F>, rest: Bytes)
    requires forall f :: f in frames ==> Sendable(c, f)
    ensures Drain(c, Encoded(c, frames) + rest) == Drained(frames + Drain(c, rest).frames, Drain(c, rest).rest)
  {
    hide Prefixed, Drain;
    var d := Drain(c, rest);
    if frames == [] {
      assert Encoded(c, frames) + rest == rest;
      assert frames + d.frames == d.frames;
    } else {
      var head := Prefixed(c.encode(frames[0]));
      var tail := Encoded(c, frames[1..]) + rest;
      assert Encoded(c, frames) + rest == head + tail;
      DrainWritten(c, frames[0], tail);
      DrainStream(c, frames[1..], rest);
      assert [frames[0]] + (frames[1..] + d.frames) == frames + d.frames;
    }
  }

  /** A complete stream of sendable frames comes out as exactly those frames, whatever the cuts. */
  lemma CompleteStream<F>(c: Codec<F>, frames: seq<F>, segments: seq<Bytes>)
    requires forall f :: f in frames ==> Sendable(c, f)
    requires Flatten(segments) == Encoded(c, frames)
    ensures Feed(c, [], segments) == Drained(frames, [])
  {
    SegmentationIndependence(c, [], segments);
    assert [] + Flatten(segments) == Encoded(c, frames) + [];
    DrainStream(c, frames, []);
    assert frames + [] == frames;
  }

  /** While the stream is still arriving, the frames emitted are a prefix and the buffer holds exactly the
      start of the next one: a proper part of it, nothing else. */
  lemma PartialStream<F>(c: Codec<F>, frames: seq<F>, segments: seq<Bytes>, later: Bytes) returns (k: nat)
    requires forall f :: f in frames ==> Sendable(c, f)
    requires Flatten(segments) + later == Encoded(c, frames)
    ensures k <= |frames|
    ensures Feed(c, [], segments).frames == frames[..k]
    ensures Feed(c, [], segments).rest + later == Encoded(c, frames[k..])
    ensures if k == |frames| then Feed(c, [], segments).rest == []
            else |Feed(c, [], segments).rest| < |Prefixed(c.encode(frames[k]))|
  {
    SegmentationIndependence(c, [], segments);
    assert [] + Flatten(segments) == Flatten(segments);
    k := DrainPrefix(c, frames, Flatten(segments), later);
  }

  lemma {:induction false} DrainPrefix<F>(c: Codec<F>, frames: seq<F>, buf: Bytes, later: Bytes) returns (k: nat)
    requires forall f :: f in frames ==> Sendable(c, f)
    requires buf + later == Encoded(c, frames)
    ensures k <= |frames| && Drain(c, buf).frames == frames[..k]
    ensures Drain(c, buf).rest + later == Encoded(c, frames[k..])
    ensures if k == |frames| then Drain(c, buf).rest == []
            else |Drain(c, buf).rest| < |Prefixed(c.encode(frames[k]))|
    decreases |frames|
  {
    hide Prefixed, Drain;
    k := 0;
    if frames == [] {
      assert buf == [];
      DrainNothing(c);
      assert frames[..0] == [];
    } else {
      var head := Prefixed(c.encode(frames[0]));
      var tail := Encoded(c, frames[1..]);
      assert frames[0..] == frames;
      if |buf| < |head| {
        ShortHeadWaits(c, frames[0], buf, later, tail);
      } else {
        var more := buf[|head|..];
        assert buf == head + more by {
          assert buf[..|head|] == (buf + later)[..|head|] == head;
        }
        assert more + later == tail by {
          assert (buf + later)[|head|..] == more + later;
        }
        DrainWritten(c, frames[0], more);
        var j := DrainPrefix(c, frames[1..], more, later);
        k := j + 1;
        assert frames[..k] == [frames[0]] + frames[1..][..j];
        assert frames[k..] == frames[1..][j..];
      }
    }
  }

  lemma DrainNothing<F>(c: Codec<F>)
    ensures Drain(c, []) == Drained([], [])
  {
  }

  lemma ShortHeadWaits<F>(c: Codec<F>, frame: F, buf: Bytes, later: Bytes, tail: Bytes)
    requires Sendable(c, frame)
    requires buf + later == Prefixed(c.encode(frame)) + tail
    requires |buf| < |Prefixed(c.encode(frame))|
    ensures Drain(c, buf) == Drained([], buf)
  {
    hide Prefixed;
    DecodeWritten(c, frame, tail);
    if !TryDecode(c, buf).Incomplete? {
      DecisionIsFinal(c, buf, later);
    }
  }

  // ---------------------------------------------------------------- undecodable frames

  /** After an undecodable frame the TypeScript channel keeps it at the head of its buffer, so nothing that
      arrives later is ever delivered. (The comment in the constructor promises that a bad frame is dropped.) */
  lemma {:induction false} BadHeadStallsForever<F>(c: Codec<F>, buf: Bytes, segments: seq<Bytes>)
    requires Stuck(c, buf)
    ensures Feed(c, buf, segments) == Drained([], buf + Flatten(segments))
    decreases |segments|
  {
    if segments == [] {
      assert buf + [] == buf;
    } else {
      DecisionIsFinal(c, buf, segments[0]);
      BadHeadStallsForever(c, buf + segments[0], segments[1..]);
      assert buf + Flatten(segments) == (buf + segments[0]) + Flatten(segments[1..]);
    }
  }

  lemma StuckStays<F>(c: Codec<F>, buf: Bytes, more: Bytes)
    requires Stuck(c, buf)
    ensures Drain(c, buf + more) == Drained([], buf + more) && Stuck(c, buf + more)
  {
    DecisionIsFinal(c, buf, more);
  }

  /** Good frames in front of an undecodable head come out exactly, and nothing behind it ever does, however the
      bytes are cut. */
  lemma OnlyFramesBeforeBadHead<F>(c: Codec<F>, frames: seq<F>, bad: Bytes, segments: seq<Bytes>)
    requires (forall f :: f in frames ==> Sendable(c, f)) && Stuck(c, bad)
    requires Flatten(segments) == Encoded(c, frames) + bad
    ensures Feed(c, [], segments) == Drained(frames, bad)
  {
    DrainNothing(c);
    SegmentationIndependence(c, [], segments);
    assert [] + Flatten(segments) == Encoded(c, frames) + bad;
    DrainStream(c, frames, bad);
    StuckStays(c, bad, []);
    hide Drain, Feed, Encoded, Flatten, Stuck, Sendable;
    assert bad + [] == bad && frames + [] == frames;
  }

  /** Such a head, whatever the codec: a length just over the bound. */
  lemma OversizedHead<F>(c: Codec<F>)
    ensures Stuck(c, Be32(MAX_FRAME_SIZE + 1))
  {
    ReadWrittenLength(MAX_FRAME_SIZE + 1, []);
    assert Be32(MAX_FRAME_SIZE + 1) + [] == Be32(MAX_FRAME_SIZE + 1);
  }

  /** The Rust receive loops drop the whole buffer on a decode error instead. */
  function FeedClearing<F>(c: Codec<F>, buf: Bytes, segments: seq<Bytes>): Drained<F>
    decreases |segments|
  {
    if segments == [] then Drained([], buf) else
    var first := Drain(c, buf + segments[0]);
    var kept := if Stuck(c, first.rest) then [] else first.rest;
    var later := FeedClearing(c, kept, segments[1..]);
    Drained(first.frames + later.frames, later.rest)
  }

  /** On any stream whose end is not undecodable the two loops cannot be told apart. */
  lemma {:induction false} ClearingAgrees<F>(c: Codec<F>, buf: Bytes, segments: seq<Bytes>)
    requires Drain(c, buf) == Drained([], buf)
    requires !Stuck(c, Drain(c, buf + Flatten(segments)).rest)
    ensures FeedClearing(c, buf, segments) == Feed(c, buf, segments)
    decreases |segments|
  {
    hide Drain, TryDecode;
    if segments != [] {
      var first := Drain(c, buf + segments[0]);
      DrainLeavesNothing(c, buf + segments[0]);
      DrainSplits(c, buf + segments[0], Flatten(segments[1..]));
      assert buf + Flatten(segments) == (buf + segments[0]) + Flatten(segments[1..]);
      if Stuck(c, first.rest) {
        StuckStays(c, first.rest, Flatten(segments[1..]));
        assert false;
      }
      ClearingAgrees(c, first.rest, segments[1..]);
    }
  }

  lemma {:induction false} ClearingSplits<F>(c: Codec<F>, buf: Bytes, early: seq<Bytes>, late: seq<Bytes>)
    ensures var f := FeedClearing(c, buf, early);
            FeedClearing(c, buf, early + late) == Join(f, FeedClearing(c, f.rest, late))
    decreases |early|
  {
    hide Drain, Join, TryDecode;
    if early == [] {
      assert early + late == late;
      NothingJoins(buf, FeedClearing(c, buf, late));
    } else {
      var first := Drain(c, buf + early[0]);
      var kept := if Stuck(c, first.rest) then [] else first.rest;
      assert (early + late)[0] == early[0] && (early + late)[1..] == early[1..] + late;
      ClearingSplits(c, kept, early[1..], late);
      var x := FeedClearing(c, kept, early[1..]);
      FramesJoin(first.frames, x, FeedClearing(c, x.rest, late));
    }
  }

  /** The message that completes an undecodable head is the last of which anything is dropped. */
  lemma ClearingDrops<F>(c: Codec<F>, front: seq<Bytes>, last: Bytes)
    requires !Stuck(c, Drain(c, Flatten(front)).rest) && Stuck(c, Drain(c, Flatten(front) + last).rest)
    ensures FeedClearing(c, [], front + [last]) == Drained(Drain(c, Flatten(front) + last).frames, [])
  {
    var d := Drain(c, Flatten(front));
    DrainNothing(c);
    assert [] + Flatten(front) == Flatten(front);
    ClearingAgrees(c, [], front);
    SegmentationIndependence(c, [], front);
    ClearingSplits(c, [], front, [last]);
    DrainSplits(c, Flatten(front), last);
    ClearsOne(c, d.rest, last);
    hide Drain, TryDecode, FeedClearing, Stuck, Feed, Flatten;
  }

  lemma ClearsOne<F>(c: Codec<F>, buf: Bytes, last: Bytes)
    requires Stuck(c, Drain(c, buf + last).rest)
    ensures FeedClearing(c, buf, [last]) == Drained(Drain(c, buf + last).frames, [])
  {
    hide Drain, Stuck;
    assert [last][1..] == [];
    assert FeedClearing(c, [], []) == Drained([], []);
    var frames := Drain(c, buf + last).frames;
    assert frames + [] == frames;
  }

  /** The loop that clears recovers: good frames before an undecodable head and good frames in the messages after the
      one that completes it all come out, and nothing else, where the other loop stalls for ever. */
  lemma ClearingRecovers<F>(c: Codec<F>, before: seq<F>, bad: Bytes, front: seq<Bytes>, last: Bytes, after: seq<F>,
                            late: seq<Bytes>)
    requires forall f :: f in before + after ==> Sendable(c, f)
    requires Flatten(front) + last == Encoded(c, before) + bad && Flatten(late) == Encoded(c, after)
    requires Stuck(c, bad) && !Stuck(c, Drain(c, Flatten(front)).rest)
    ensures FeedClearing(c, [], front + [last] + late) == Drained(before + after, [])
  {
    DrainStream(c, before, bad);
    StuckStays(c, bad, []);
    assert bad + [] == bad && before + [] == before;
    ClearingDrops(c, front, last);
    ClearingSplits(c, [], front + [last], late);
    CompleteStream(c, after, late);
    DrainNothing(c);
    EmptyWaits(c);
    DrainStream(c, after, []);
    assert Encoded(c, after) + [] == [] + Flatten(late);
    ClearingAgrees(c, [], late);
    hide Drain, TryDecode, FeedClearing, Stuck, Feed, Flatten, Encoded, Sendable;
  }

  lemma EmptyWaits<F>(c: Codec<F>)
    ensures !Stuck(c, [])
  {
  }
}
