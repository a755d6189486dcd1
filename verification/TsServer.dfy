/** The TypeScript Server: routing of inbound frames to the streams of one channel. */
module TsServer {
  import opened Wire
  import opened Reassembly
  import opened AsyncQueues
  import opened Frames
  import opened Receiving

  /** `inboxes` holds the queue of the stream most recently opened on each sequence (its handler keeps reading it
      after routing stops), `live` the keys of the streams map, `reasm` the channel's partial messages. */
  datatype Srv = Srv(inboxes: map<int, Queue<Bytes>>, live: set<int>, reasm: Table)

  predicate WellFormed(sv: Srv) {
    sv.live <= sv.inboxes.Keys
  }

  const INITIAL: Srv := Srv(map[], {}, map[])

  function NewInbox(inline: Option<Bytes>): Queue<Bytes> {
    if inline.Some? && |inline.value| > 0 then AfterPush(Empty(), inline.value) else Empty()
  }

  /** `paths` are the registered methods. */
  function OnFrame(paths: set<string>, sv: Srv, f: Frame): (next: Srv)
    requires WellFormed(sv)
    ensures WellFormed(next)
  {
    var s := f.sequence;
    match f.body
    case Call(path, inline) =>
      if path !in paths then sv else sv.(inboxes := sv.inboxes[s := NewInbox(inline)], live := sv.live + {s})
    case Data(content) =>
      if s !in sv.live then sv else
      var (q, t) := Absorb(sv.inboxes[s], sv.reasm, s, content);
      sv.(inboxes := sv.inboxes[s := q], reasm := t)
    case End(_) =>
      if s !in sv.live then sv else
      sv.(inboxes := sv.inboxes[s := AfterClose(sv.inboxes[s])], live := sv.live - {s})
    case NoRequest => sv
  }

  method NewQueue(inline: Option<Bytes>) returns (q: AsyncQueue<Bytes>)
    ensures fresh(q) && q.State() == NewInbox(inline)
  {
    q := new AsyncQueue<Bytes>();
    if inline.Some? && |inline.value| > 0 {
      q.Push(inline.value);
    }
  }

  class Server {
    const paths: set<string>
    const reasm: Reassembler
    var streams: map<int, AsyncQueue<Bytes>>
    ghost var inboxes: map<int, AsyncQueue<Bytes>>

    ghost predicate Valid()
      reads this, reasm, reasm.Repr
    {
      && reasm.Valid() && this !in reasm.Repr
      && (forall s :: s in streams ==> s in inboxes && streams[s] == inboxes[s])
      && (forall s :: s in inboxes ==> inboxes[s] !in reasm.Repr)
      && (forall s, t :: s in inboxes && t in inboxes && s != t ==> inboxes[s] != inboxes[t])
    }

    ghost function State(): Srv
      requires Valid()
      reads this, reasm, reasm.Repr, inboxes.Values
      ensures WellFormed(State())
    {
      var queues := map s | s in inboxes :: inboxes[s].State();
      assert forall s :: s in streams.Keys ==> s in queues.Keys;
      Srv(queues, streams.Keys, reasm.Contents())
    }

    constructor (paths: set<string>)
      ensures Valid() && this.paths == paths && State() == INITIAL
      ensures fresh(reasm.Repr)
    {
      this.paths := paths;
      reasm := new Reassembler();
      streams, inboxes := map[], map[];
    }

    /** A step that changes nothing but the queue of `s` and the partial messages. */
    twostate lemma OneQueueChanged(s: int)
      requires old(Valid()) && Valid() && streams == old(streams) && inboxes == old(inboxes) && s in inboxes
      requires forall t :: t in inboxes && t != s ==> inboxes[t].State() == old(inboxes[t].State())
      ensures old(State()).inboxes[s] == old(inboxes[s].State())
      ensures State() == old(State()).(inboxes := old(State()).inboxes[s := inboxes[s].State()],
                                       reasm := reasm.Contents())
    {
      var after := old(State()).inboxes[s := inboxes[s].State()];
      forall t | t in inboxes ensures State().inboxes[t] == after[t] {
        if t != s { assert inboxes[t].State() == old(inboxes[t].State()); }
      }
      assert State().inboxes == after;
    }

    /** A step that only changes which streams are routed to. */
    twostate lemma OnlyRouting()
      requires old(Valid()) && Valid() && inboxes == old(inboxes) && reasm.Contents() == old(reasm.Contents())
      requires forall t :: t in inboxes ==> inboxes[t].State() == old(inboxes[t].State())
      ensures State() == old(State()).(live := streams.Keys)
    {
      forall t | t in inboxes ensures State().inboxes[t] == old(State()).inboxes[t] {
        assert inboxes[t].State() == old(inboxes[t].State());
      }
      assert State().inboxes == old(State()).inboxes;
    }

    ghost method Record(s: int, q: AsyncQueue<Bytes>)
      requires Valid() && s !in streams && q !in inboxes.Values && q !in reasm.Repr
      modifies this`inboxes
      ensures Valid() && inboxes == old(inboxes)[s := q]
      ensures State() == old(State()).(inboxes := old(State()).inboxes[s := old(q.State())])
    {
      inboxes := inboxes[s := q];
    }

    method Route(s: int, q: AsyncQueue<Bytes>)
      requires Valid() && s in inboxes && inboxes[s] == q
      modifies this`streams
      ensures Valid()
      ensures State() == old(State()).(live := old(State()).live + {s})
    {
      streams := streams[s := q];
      OnlyRouting();
    }

    /** A Call for a sequence in use replaces its stream. */
    method Register(s: int, q: AsyncQueue<Bytes>)
      requires Valid() && q !in inboxes.Values && q !in reasm.Repr
      modifies this
      ensures Valid()
      ensures State() == old(State()).(inboxes := old(State()).inboxes[s := old(q.State())],
                                       live := old(State()).live + {s})
    {
      Unregister(s);
      Record(s, q);
      Route(s, q);
    }

    method HandleCall(s: int, inline: Option<Bytes>)
      requires Valid()
      modifies this
      ensures Valid()
      ensures State() == old(State()).(inboxes := old(State()).inboxes[s := NewInbox(inline)],
                                       live := old(State()).live + {s})
    {
      ghost var before := State();
      var q := NewQueue(inline);
      assert State() == before;
      Register(s, q);
    }

    method HandleData(s: int, content: Content)
      requires Valid() && s in streams
      modifies reasm.Repr, streams[s]
      ensures Valid()
      ensures var (q, t) := Absorb(old(State()).inboxes[s], old(State()).reasm, s, content);
              State() == old(State()).(inboxes := old(State()).inboxes[s := q], reasm := t)
    {
      Accept(streams[s], reasm, s, content);
      OneQueueChanged(s);
    }

    method CloseInbox(s: int)
      requires Valid() && s in streams
      modifies streams[s]
      ensures Valid()
      ensures State() == old(State()).(inboxes := old(State()).inboxes[s := AfterClose(old(State()).inboxes[s])])
    {
      streams[s].Close();
      OneQueueChanged(s);
    }

    method Unregister(s: int)
      requires Valid()
      modifies this`streams
      ensures Valid() && s !in streams && inboxes == old(inboxes)
      ensures State() == old(State()).(live := old(State()).live - {s})
    {
      streams := streams - {s};
      OnlyRouting();
    }

    method HandleEnd(s: int)
      requires Valid() && s in streams
      modifies this`streams, streams[s]
      ensures Valid()
      ensures State() == old(State()).(inboxes := old(State()).inboxes[s := AfterClose(old(State()).inboxes[s])],
                                       live := old(State()).live - {s})
    {
      CloseInbox(s);
      Unregister(s);
    }

    /** The frame callback. A call to an unknown method is answered at once with UNIMPLEMENTED. */
    method HandleFrame(f: Frame) returns (reply: Option<ResponseFrame>)
      requires Valid()
      modifies this, reasm.Repr, streams.Values
      ensures Valid()
      ensures State() == OnFrame(paths, old(State()), f)
      ensures reply ==
              if f.body.Call? && f.body.path !in paths
              then Some(Envelope(f.sequence, ResponseEnd(Some(Status(12, "unimplemented: " + f.body.path)), map[])))
              else None
    {
      var s := f.sequence;
      reply := None;
      match f.body
      case Call(path, inline) =>
        if path !in paths {
          reply := Some(Envelope(s, ResponseEnd(Some(Status(12, "unimplemented: " + path)), map[])));
        } else {
          HandleCall(s, inline);
        }
      case Data(content) =>
        if s in streams {
          HandleData(s, content);
        }
      case End(_) =>
        if s in streams {
          HandleEnd(s);
        }
      case NoRequest =>
    }
  }

  // ---------------------------------------------------------------- one sequence's view

  function View(sv: Srv, s: int): Stream {
    var known := s in sv.inboxes;
    Stream(known, if known then sv.inboxes[s].log else [], known && sv.inboxes[s].closed, s in sv.live,
           Lookup(sv.reasm, s))
  }

  /** The same routing seen from one sequence. */
  function StreamStep(paths: set<string>, st: Stream, b: Request): Stream {
    match b
    case Call(path, inline) =>
      if path !in paths then st else
      Stream(true, if inline.Some? && |inline.value| > 0 then [inline.value] else [], false, true, st.partial)
    case Data(content) => if !st.live then st else AbsorbOne(st, content)
    case End(_) => if !st.live then st else st.(closed := true, live := false)
    case NoRequest => st
  }

  /** A frame moves the stream of its own sequence and no other. */
  lemma FrameTouchesOneStream(paths: set<string>, sv: Srv, f: Frame, s: int)
    requires WellFormed(sv)
    ensures View(OnFrame(paths, sv, f), s) ==
            if f.sequence == s then StreamStep(paths, View(sv, s), f.body) else View(sv, s)
  {
    hide Absorb, AbsorbOne, AfterClose;
    var t := f.sequence;
    if f.body.End? && t in sv.live {
      AfterCloseKeepsLog(sv.inboxes[t]);
    } else if f.body.Data? && t in sv.live {
      AbsorbMatches(sv.inboxes[t], sv.reasm, t, f.body.content, View(sv, t));
    }
  }

  function OnFrames(paths: set<string>, sv: Srv, frames: seq<Frame>): (next: Srv)
    requires WellFormed(sv)
    ensures WellFormed(next)
    decreases |frames|
  {
    if frames == [] then sv
    else OnFrame(paths, OnFrames(paths, sv, frames[..|frames| - 1]), frames[|frames| - 1])
  }

  function RunStream(paths: set<string>, st: Stream, bodies: seq<Request>): Stream
    decreases |bodies|
  {
    if bodies == [] then st else RunStream(paths, StreamStep(paths, st, bodies[0]), bodies[1..])
  }

  lemma {:induction false} RunStreamConcatenates(paths: set<string>, st: Stream, a: seq<Request>, b: seq<Request>)
    ensures RunStream(paths, st, a + b) == RunStream(paths, RunStream(paths, st, a), b)
    decreases |a|
  {
    if a == [] {
      assert a + b == b;
    } else {
      assert (a + b)[1..] == a[1..] + b;
      RunStreamConcatenates(paths, StreamStep(paths, st, a[0]), a[1..], b);
    }
  }

  /** Demultiplexing commutes with projection: a stream ends up where its own frames alone would take it. */
  lemma {:induction false} DemuxCommutes(paths: set<string>, sv: Srv, frames: seq<Frame>, s: int)
    requires WellFormed(sv)
    ensures View(OnFrames(paths, sv, frames), s) == RunStream(paths, View(sv, s), Project(frames, s))
    decreases |frames|
  {
    if frames != [] {
      hide View, OnFrame, StreamStep;
      var front, f := frames[..|frames| - 1], frames[|frames| - 1];
      DemuxCommutes(paths, sv, front, s);
      FrameTouchesOneStream(paths, OnFrames(paths, sv, front), f, s);
      RunStreamConcatenates(paths, View(sv, s), Project(front, s), [f.body]);
      assert [f.body][1..] == [];
    }
  }
}
