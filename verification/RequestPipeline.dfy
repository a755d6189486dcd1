/** End to end, client to server: concurrent streams, interleaved sends, a byte stream cut at will, routing,
    reassembly and queues behave like one private FIFO per stream. */
module RequestPipeline {
  import opened Wire
  import opened Segmentation
  import opened Reassembly
  import opened AsyncQueues
  import opened Frames
  import opened Sending
  import opened Receiving
  import opened TsServer

  // ---------------------------------------------------------------- the client as a step machine

  /** One call: what its caller has handed over so far, whether it half-closed, the frames its current operation
      has yet to write, and the payloads whose send has resolved. */
  datatype Lane = Lane(path: string, first: Option<Bytes>, sends: seq<Bytes>, closed: bool,
                       pending: seq<Request>, resolved: seq<Bytes>)

  datatype Client = Client(seqAlloc: nat, lanes: map<int, Lane>, wire: seq<Frame>)

  const NEW_CLIENT: Client := Client(1, map[], [])

  /** What can happen between two awaits: a new call, a send or half-close on an idle stream (its caller awaits
      each operation), or one frame of one stream reaching the DataChannel. Sequence numbers and payload sizes
      beyond int32 make the protobuf encoder throw before anything is written. */
  datatype Act =
    | Open(path: string, first: Option<Bytes>)
    | Send(s: int, payload: Bytes)
    | CloseSend(s: int)
    | Emit(s: int)

  function Update(c: Client, s: int, lane: Lane): Client {
    c.(lanes := c.lanes[s := lane])
  }

  predicate Idle(c: Client, s: int) {
    s in c.lanes && c.lanes[s].pending == [] && !c.lanes[s].closed
  }

  function Step(c: Client, act: Act): Client {
    match act
    case Open(path, first) =>
      if c.seqAlloc >= INT32_LIMIT || (first.Some? && |first.value| >= INT32_LIMIT) then c else
      Update(c, c.seqAlloc, Lane(path, first, [], false, OpeningBodies(path, first), []))
        .(seqAlloc := c.seqAlloc + 2)
    case Send(s, payload) =>
      if !Idle(c, s) || |payload| >= INT32_LIMIT then c else
      Update(c, s, c.lanes[s].(sends := c.lanes[s].sends + [payload],
                               pending := Requests(Contents(payload, TS_CHUNK_SIZE))))
    case CloseSend(s) =>
      if !Idle(c, s) then c else Update(c, s, c.lanes[s].(closed := true, pending := [End(true)]))
    case Emit(s) =>
      if s !in c.lanes || c.lanes[s].pending == [] then c else
      var lane := c.lanes[s];
      var rest := lane.pending[1..];
      Update(c, s, lane.(pending := rest, resolved := if rest == [] then Expected(lane) else lane.resolved))
        .(wire := c.wire + [Envelope(s, lane.pending[0])])
  }

  function Run(acts: seq<Act>): Client
    decreases |acts|
  {
    if acts == [] then NEW_CLIENT else Step(Run(acts[..|acts| - 1]), acts[|acts| - 1])
  }

  /** The payloads a stream is owed: everything sent on it, and the opening payload unless it is empty (an empty
      inline payload is not delivered). */
  function Owed(first: Option<Bytes>, sends: seq<Bytes>): seq<Bytes> {
    (if first.Some? && first.value != [] then [first.value] else []) + sends
  }

  function Expected(lane: Lane): seq<Bytes> {
    Owed(lane.first, lane.sends)
  }

  // ---------------------------------------------------------------- what the callers did, from the acts alone

  /** One stream as its caller knows it: how it was opened, what was sent on it, whether it was half-closed, all
      the frames this takes, and how many of them have been written. */
  datatype Told = Told(path: string, first: Option<Bytes>, sends: seq<Bytes>, closed: bool,
                       bodies: seq<Request>, written: nat)

  predicate Resting(t: Told) {
    t.written == |t.bodies| && !t.closed
  }

  predicate Encodable(first: Option<Bytes>) {
    first.Some? ==> |first.value| < INT32_LIMIT
  }

  /** How many calls were opened. */
  function Opened(acts: seq<Act>): nat
    decreases |acts|
  {
    if acts == [] then 0 else
    var before, last := Opened(acts[..|acts| - 1]), acts[|acts| - 1];
    if last.Open? && Encodable(last.first) && 2 * before + 1 < INT32_LIMIT then before + 1 else before
  }

  /** A send or half-close counts when the caller's last operation is written and the stream not half-closed. */
  function Retold(t: Told, act: Act): Told {
    match act
    case Open(_, _) => t
    case Send(_, payload) =>
      if !Resting(t) || |payload| >= INT32_LIMIT then t else
      t.(sends := t.sends + [payload], bodies := t.bodies + Requests(Contents(payload, TS_CHUNK_SIZE)))
    case CloseSend(_) => if !Resting(t) then t else t.(closed := true, bodies := t.bodies + [End(true)])
    case Emit(_) => if t.written < |t.bodies| then t.(written := t.written + 1) else t
  }

  /** The k-th call opened is stream 2k + 1. */
  function History(acts: seq<Act>, s: int): Option<Told>
    decreases |acts|
  {
    if acts == [] then None else
    var front, last := acts[..|acts| - 1], acts[|acts| - 1];
    if last.Open? then
      if s == 2 * Opened(front) + 1 && Opened(acts) > Opened(front)
      then Some(Told(last.path, last.first, [], false, OpeningBodies(last.path, last.first), 0))
      else History(front, s)
    else if last.s != s || History(front, s) == None then History(front, s)
    else Some(Retold(History(front, s).value, last))
  }

  /** The payloads whose send has returned: all, but for the one whose frames are not all written. */
  function Settled(t: Told): seq<Bytes> {
    if t.written == |t.bodies| || t.closed then Owed(t.first, t.sends)
    else if t.sends == [] then [] else Owed(t.first, t.sends[..|t.sends| - 1])
  }

  /** Everything the caller handed over. */
  function HandedOver(t: Told): seq<Bytes> {
    (if t.first.Some? then [t.first.value] else []) + t.sends
  }

  predicate SameLane(lane: Lane, t: Told, wire: seq<Request>) {
    && lane.path == t.path && lane.first == t.first && lane.sends == t.sends && lane.closed == t.closed
    && t.written <= |t.bodies| && wire == t.bodies[..t.written] && lane.pending == t.bodies[t.written..]
    && lane.resolved == Settled(t)
  }

  predicate Follows(c: Client, s: int, h: Option<Told>) {
    && (s in c.lanes <==> h.Some?)
    && if h.Some? then SameLane(c.lanes[s], h.value, Project(c.wire, s)) else Project(c.wire, s) == []
  }

  lemma SendFollows(lane: Lane, t: Told, wire: seq<Request>, act: Act)
    requires SameLane(lane, t, wire) && lane.pending == [] && !lane.closed
    requires (act.Send? && |act.payload| < INT32_LIMIT) || act.CloseSend?
    ensures var next := if act.CloseSend? then lane.(closed := true, pending := [End(true)])
                        else lane.(sends := lane.sends + [act.payload],
                                   pending := Requests(Contents(act.payload, TS_CHUNK_SIZE)));
            SameLane(next, Retold(t, act), wire)
  {
    var u := Retold(t, act);
    var more := if act.CloseSend? then [End(true)] else Requests(Contents(act.payload, TS_CHUNK_SIZE));
    hide Contents, Requests;
    assert u.bodies == t.bodies + more && t.bodies[..t.written] == t.bodies;
    assert u.bodies[..u.written] == t.bodies && u.bodies[u.written..] == more;
    if act.Send? { assert u.sends[..|u.sends| - 1] == t.sends; }
  }

  lemma EmitFollows(lane: Lane, t: Told, wire: seq<Request>, s: int)
    requires SameLane(lane, t, wire) && lane.pending != []
    ensures var rest := lane.pending[1..];
            SameLane(lane.(pending := rest, resolved := if rest == [] then Expected(lane) else lane.resolved),
                     Retold(t, Emit(s)), wire + [lane.pending[0]])
  {
    assert t.bodies[..t.written + 1] == t.bodies[..t.written] + [t.bodies[t.written]];
    hide Owed;
  }

  lemma OthersFollow(c: Client, act: Act, s: int, h: Option<Told>)
    requires Follows(c, s, h) && (!act.Open? ==> act.s != s) && (act.Open? ==> c.seqAlloc != s)
    ensures Follows(Step(c, act), s, h)
  {
    hide SameLane, OpeningBodies, Contents;
    if act.Emit? && act.s in c.lanes && c.lanes[act.s].pending != [] {
      ProjectAppends(c.wire, Envelope(act.s, c.lanes[act.s].pending[0]), s);
    }
    hide Project;
  }

  lemma OwnActFollows(c: Client, act: Act, s: int, t: Told)
    requires Follows(c, s, Some(t)) && !act.Open? && act.s == s
    ensures Follows(Step(c, act), s, Some(Retold(t, act)))
  {
    var lane := c.lanes[s];
    if act.Emit? {
      if lane.pending != [] {
        EmitFollows(lane, t, Project(c.wire, s), s);
        ProjectAppends(c.wire, Envelope(s, lane.pending[0]), s);
      }
    } else if Idle(c, s) && (act.Send? ==> |act.payload| < INT32_LIMIT) {
      SendFollows(lane, t, Project(c.wire, s), act);
    }
    hide Contents, Project, Owed;
  }

  /** The machine does what the acts say, no more and no less: a stream's lane is what its caller did, and its own
      frames on the wire are those this takes, as far as they have been written. */
  lemma {:induction false} RunFollowsActs(acts: seq<Act>, s: int)
    ensures Run(acts).seqAlloc == 2 * Opened(acts) + 1 && (s in Run(acts).lanes ==> s < Run(acts).seqAlloc)
    ensures Follows(Run(acts), s, History(acts, s))
    decreases |acts|
  {
    if acts != [] {
      var front, last := acts[..|acts| - 1], acts[|acts| - 1];
      var c := Run(front);
      RunFollowsActs(front, s);
      hide Follows, Retold, OpeningBodies, Contents;
      if last.Open? && s == c.seqAlloc {
        OpenFollows(c, last, History(front, s));
      } else if last.Open? || last.s != s {
        OthersFollow(c, last, s, History(front, s));
      } else if History(front, s).Some? {
        OwnActFollows(c, last, s, History(front, s).value);
      } else {
        NobodyActs(c, last, s);
      }
    }
  }

  lemma OpenFollows(c: Client, act: Act, h: Option<Told>)
    requires act.Open? && Follows(c, c.seqAlloc, h) && c.seqAlloc !in c.lanes
    ensures var opens := c.seqAlloc < INT32_LIMIT && Encodable(act.first);
            var t := Told(act.path, act.first, [], false, OpeningBodies(act.path, act.first), 0);
            Follows(Step(c, act), c.seqAlloc, if opens then Some(t) else h)
  {
    hide OpeningBodies, Project;
  }

  lemma NobodyActs(c: Client, act: Act, s: int)
    requires !act.Open? && act.s == s && Follows(c, s, None)
    ensures Step(c, act) == c
  {
  }

  // ---------------------------------------------------------------- the server endpoint

  datatype Event = Segment(bytes: Bytes) | RecvCall(s: int)

  datatype Node = Node(buf: Bytes, srv: Srv)

  function NodeStep(paths: set<string>, c: Codec<Frame>, n: Node, e: Event): (next: Node)
    requires WellFormed(n.srv)
    ensures WellFormed(next.srv)
  {
    match e
    case Segment(bytes) =>
      var d := Drain(c, n.buf + bytes);
      Node(d.rest, OnFrames(paths, n.srv, d.frames))
    case RecvCall(s) =>
      if s !in n.srv.inboxes then n else
      n.(srv := n.srv.(inboxes := n.srv.inboxes[s := AfterRecv(n.srv.inboxes[s])]))
  }

  function RunNode(paths: set<string>, c: Codec<Frame>, n: Node, events: seq<Event>): (next: Node)
    requires WellFormed(n.srv)
    ensures WellFormed(next.srv)
    decreases |events|
  {
    if events == [] then n else RunNode(paths, c, NodeStep(paths, c, n, events[0]), events[1..])
  }

  function Segments(events: seq<Event>): seq<Bytes> {
    if events == [] then [] else
    var later := Segments(events[1..]);
    if events[0].Segment? then [events[0].bytes] + later else later
  }

  // ---------------------------------------------------------------- the server side of the argument

  /** Receive calls and segmentation are invisible to a stream: it sees its own frames in stream order. */
  lemma {:induction false} NodeFollowsFrames(paths: set<string>, c: Codec<Frame>, n: Node, events: seq<Event>, s: int)
    requires WellFormed(n.srv)
    ensures View(RunNode(paths, c, n, events).srv, s) ==
            RunStream(paths, View(n.srv, s), Project(Feed(c, n.buf, Segments(events)).frames, s))
    decreases |events|
  {
    hide Drain, StreamStep, OnFrames;
    if events != [] {
      var next := NodeStep(paths, c, n, events[0]);
      NodeFollowsFrames(paths, c, next, events[1..], s);
      if events[0].Segment? {
        var d := Drain(c, n.buf + events[0].bytes);
        assert ([events[0].bytes] + Segments(events[1..]))[1..] == Segments(events[1..]);
        var later := Feed(c, d.rest, Segments(events[1..])).frames;
        DemuxCommutes(paths, n.srv, d.frames, s);
        ProjectConcatenates(d.frames, later, s);
        RunStreamConcatenates(paths, View(n.srv, s), Project(d.frames, s), Project(later, s));
      } else {
        assert View(next.srv, s) == View(n.srv, s);
      }
    }
  }

  /** How often the handler of `s` called recv. */
  function Receives(events: seq<Event>, s: int): nat {
    if events == [] then 0 else (if events[0] == RecvCall(s) then 1 else 0) + Receives(events[1..], s)
  }

  lemma FrameKeepsIssued(paths: set<string>, sv: Srv, f: Frame, s: int)
    requires WellFormed(sv) && s in sv.inboxes && (f.sequence == s ==> !f.body.Call?)
    ensures s in OnFrame(paths, sv, f).inboxes && OnFrame(paths, sv, f).inboxes[s].issued == sv.inboxes[s].issued
  {
    if f.sequence in sv.inboxes { PopWaitingKeepsLog(sv.inboxes[f.sequence].(closed := true)); }
    hide FoldOne, PopWaiting, NewInbox;
  }

  lemma {:induction false} FramesKeepIssued(paths: set<string>, sv: Srv, frames: seq<Frame>, s: int)
    requires WellFormed(sv) && s in sv.inboxes && NoCall(Project(frames, s))
    ensures s in OnFrames(paths, sv, frames).inboxes
    ensures OnFrames(paths, sv, frames).inboxes[s].issued == sv.inboxes[s].issued
    decreases |frames|
  {
    hide OnFrame;
    if frames != [] {
      var front, f := frames[..|frames| - 1], frames[|frames| - 1];
      ProjectAppends(front, f, s);
      assert front + [f] == frames;
      assert f.sequence == s ==> Project(frames, s)[|Project(front, s)|] == f.body;
      assert forall i :: 0 <= i < |Project(front, s)| ==> Project(front, s)[i] == Project(frames, s)[i];
      FramesKeepIssued(paths, sv, front, s);
      FrameKeepsIssued(paths, OnFrames(paths, sv, front), f, s);
    }
  }

  /** Once its stream is known, every recv of the handler is issued: it gets a ticket, whatever else happens. */
  lemma {:induction false} EveryReceiveIsIssued(paths: set<string>, c: Codec<Frame>, n: Node, events: seq<Event>,
                                                s: int)
    requires WellFormed(n.srv) && s in n.srv.inboxes
    requires NoCall(Project(Feed(c, n.buf, Segments(events)).frames, s))
    ensures var after := RunNode(paths, c, n, events).srv.inboxes;
            s in after && after[s].issued == n.srv.inboxes[s].issued + Receives(events, s)
    decreases |events|
  {
    hide Drain, OnFrames, PopWaiting;
    if events != [] {
      var next := NodeStep(paths, c, n, events[0]);
      if events[0].Segment? {
        var d := Drain(c, n.buf + events[0].bytes);
        assert ([events[0].bytes] + Segments(events[1..]))[1..] == Segments(events[1..]);
        var later := Feed(c, d.rest, Segments(events[1..])).frames;
        ProjectConcatenates(d.frames, later, s);
        NoCallSplits(Project(d.frames, s), Project(later, s));
        FramesKeepIssued(paths, n.srv, d.frames, s);
      }
      EveryReceiveIsIssued(paths, c, next, events[1..], s);
    }
  }

  lemma NoCallSplits(a: seq<Request>, b: seq<Request>)
    requires NoCall(a + b)
    ensures NoCall(a) && NoCall(b)
  {
    assert forall i :: 0 <= i < |a| ==> (a + b)[i] == a[i];
    assert forall i :: 0 <= i < |b| ==> (a + b)[|a| + i] == b[i];
  }

  ghost predicate QueuesConsistent(sv: Srv) {
    forall s :: s in sv.inboxes ==> Consistent(sv.inboxes[s])
  }

  lemma NewInboxIsConsistent(inline: Option<Bytes>)
    ensures Consistent(NewInbox(inline))
  {
  }

  lemma FrameKeepsQueues(paths: set<string>, sv: Srv, f: Frame)
    requires WellFormed(sv) && QueuesConsistent(sv)
    ensures QueuesConsistent(OnFrame(paths, sv, f))
  {
    hide Consistent, Absorb, AfterClose, NewInbox;
    var s := f.sequence;
    match f.body
    case Call(path, inline) => NewInboxIsConsistent(inline);
    case Data(content) => if s in sv.live { AbsorbKeepsQueue(sv.inboxes[s], sv.reasm, s, content); }
    case End(_) => if s in sv.live { CloseKeeps(sv.inboxes[s]); }
    case NoRequest =>
  }

  lemma {:induction false} FramesKeepQueues(paths: set<string>, sv: Srv, frames: seq<Frame>)
    requires WellFormed(sv) && QueuesConsistent(sv)
    ensures QueuesConsistent(OnFrames(paths, sv, frames))
    decreases |frames|
  {
    if frames != [] {
      FramesKeepQueues(paths, sv, frames[..|frames| - 1]);
      FrameKeepsQueues(paths, OnFrames(paths, sv, frames[..|frames| - 1]), frames[|frames| - 1]);
    }
  }

  lemma {:induction false} NodeKeepsQueues(paths: set<string>, c: Codec<Frame>, n: Node, events: seq<Event>)
    requires WellFormed(n.srv) && QueuesConsistent(n.srv)
    ensures QueuesConsistent(RunNode(paths, c, n, events).srv)
    decreases |events|
  {
    hide Consistent, OnFrames, Drain;
    if events != [] {
      match events[0] {
        case Segment(bytes) => FramesKeepQueues(paths, n.srv, Drain(c, n.buf + bytes).frames);
        case RecvCall(s) => if s in n.srv.inboxes { RecvKeeps(n.srv.inboxes[s]); }
      }
      NodeKeepsQueues(paths, c, NodeStep(paths, c, n, events[0]), events[1..]);
    }
  }

  // ---------------------------------------------------------------- the client side of the argument

  predicate NoCall(bodies: seq<Request>) {
    forall i :: 0 <= i < |bodies| ==> !bodies[i].Call?
  }

  /** A Call comes first or not at all, a half-close last or not at all. */
  predicate Shaped(bodies: seq<Request>) {
    forall i :: 0 <= i < |bodies| ==> (bodies[i].Call? ==> i == 0) && (bodies[i].End? ==> i == |bodies| - 1)
  }

  lemma {:induction false} LogGrows(paths: set<string>, st: Stream, bodies: seq<Request>)
    requires NoCall(bodies)
    ensures st.log <= RunStream(paths, st, bodies).log
    decreases |bodies|
  {
    hide FoldOne;
    if bodies != [] {
      var next := StreamStep(paths, st, bodies[0]);
      assert st.log <= next.log;
      LogGrows(paths, next, bodies[1..]);
    }
  }

  lemma {:induction false} RequestsAreAbsorbed(paths: set<string>, st: Stream, cs: seq<Content>)
    requires st.live
    ensures RunStream(paths, st, Requests(cs)) == AbsorbAll(st, cs)
    decreases |cs|
  {
    hide FoldOne;
    if cs != [] {
      assert Requests(cs)[1..] == Requests(cs[1..]);
      RequestsAreAbsorbed(paths, AbsorbOne(st, cs[0]), cs[1..]);
    }
  }

  lemma OpeningDelivers(paths: set<string>, path: string, first: Option<Bytes>)
    requires path in paths
    ensures RunStream(paths, FRESH, OpeningBodies(path, first)) ==
            Stream(true, if first.Some? && first.value != [] then [first.value] else [], false, true, None)
    ensures Shaped(OpeningBodies(path, first))
  {
    var bodies := OpeningBodies(path, first);
    var called := StreamStep(paths, FRESH, bodies[0]);
    if first.Some? && |first.value| > INLINE_MAX {
      var cs := Contents(first.value, TS_CHUNK_SIZE);
      assert bodies[1..] == Requests(cs);
      RequestsAreAbsorbed(paths, called, cs);
      ContentsDeliver(called, first.value, TS_CHUNK_SIZE);
    } else {
      assert bodies[1..] == [];
    }
  }

  lemma SendDelivers(paths: set<string>, st: Stream, payload: Bytes)
    requires st.live && !st.closed && st.partial == None
    ensures RunStream(paths, st, Requests(Contents(payload, TS_CHUNK_SIZE))) == st.(log := st.log + [payload])
    ensures Shaped(Requests(Contents(payload, TS_CHUNK_SIZE)))
  {
    RequestsAreAbsorbed(paths, st, Contents(payload, TS_CHUNK_SIZE));
    ContentsDeliver(st, payload, TS_CHUNK_SIZE);
  }

  /** How a lane and the stream its written frames lead to hang together. */
  ghost predicate LaneInv(paths: set<string>, lane: Lane, st: Stream) {
    && Shaped(lane.pending)
    && (lane.pending == [] ==> lane.resolved == Expected(lane))
    && (lane.pending != [] && lane.pending[0].Call? ==> st == FRESH)
    && (lane.path in paths ==>
          && RunStream(paths, st, lane.pending) == Stream(true, Expected(lane), lane.closed, !lane.closed, None)
          && lane.resolved <= st.log <= Expected(lane)
          && (st.closed ==> lane.pending == [] && lane.closed))
  }

  lemma EmitKeepsLane(paths: set<string>, lane: Lane, st: Stream)
    requires LaneInv(paths, lane, st) && lane.pending != []
    ensures var rest := lane.pending[1..];
            LaneInv(paths, lane.(pending := rest, resolved := if rest == [] then Expected(lane) else lane.resolved),
                    StreamStep(paths, st, lane.pending[0]))
  {
    hide FoldOne;
    var head, rest := lane.pending[0], lane.pending[1..];
    var next := StreamStep(paths, st, head);
    assert forall i :: 0 <= i < |rest| ==> rest[i] == lane.pending[i + 1];
    LogGrows(paths, next, rest);
    assert RunStream(paths, st, lane.pending) == RunStream(paths, next, rest);
    assert rest == [] ==> RunStream(paths, next, rest) == next;
    assert !head.Call? ==> st.log <= next.log;
  }

  function Seen(paths: set<string>, c: Client, s: int): Stream {
    RunStream(paths, FRESH, Project(c.wire, s))
  }

  ghost predicate ClientInv(paths: set<string>, c: Client) {
    && (forall s :: s in c.lanes ==> s < c.seqAlloc && LaneInv(paths, c.lanes[s], Seen(paths, c, s)))
    && (forall s :: s !in c.lanes ==> Project(c.wire, s) == [])
  }

  lemma StepKeepsClient(paths: set<string>, c: Client, act: Act)
    requires ClientInv(paths, c)
    ensures ClientInv(paths, Step(c, act))
  {
    hide LaneInv, StreamStep, Contents, OpeningBodies;
    match act
    case Open(path, first) => OpenKeepsClient(paths, c, path, first);
    case Send(s, payload) => if Idle(c, s) { SendKeepsLane(paths, c.lanes[s], Seen(paths, c, s), payload); }
    case CloseSend(s) => if Idle(c, s) { CloseKeepsLane(paths, c.lanes[s], Seen(paths, c, s)); }
    case Emit(s) => if s in c.lanes && c.lanes[s].pending != [] { EmitKeepsClient(paths, c, s); }
  }

  lemma OpenKeepsClient(paths: set<string>, c: Client, path: string, first: Option<Bytes>)
    requires ClientInv(paths, c)
    ensures ClientInv(paths, Step(c, Open(path, first)))
  {
    assert Project(c.wire, c.seqAlloc) == [];
    if path in paths {
      OpeningDelivers(paths, path, first);
    } else {
      OpeningDelivers({path}, path, first);
    }
  }

  lemma SendKeepsLane(paths: set<string>, lane: Lane, st: Stream, payload: Bytes)
    requires LaneInv(paths, lane, st) && lane.pending == [] && !lane.closed
    ensures LaneInv(paths, lane.(sends := lane.sends + [payload],
                                 pending := Requests(Contents(payload, TS_CHUNK_SIZE))), st)
  {
    var next := lane.(sends := lane.sends + [payload]);
    assert Expected(next) == Expected(lane) + [payload];
    if lane.path in paths {
      SendDelivers(paths, st, payload);
    }
  }

  lemma CloseKeepsLane(paths: set<string>, lane: Lane, st: Stream)
    requires LaneInv(paths, lane, st) && lane.pending == [] && !lane.closed
    ensures LaneInv(paths, lane.(closed := true, pending := [End(true)]), st)
  {
  }

  lemma EmitKeepsClient(paths: set<string>, c: Client, s: int)
    requires ClientInv(paths, c) && s in c.lanes && c.lanes[s].pending != []
    ensures ClientInv(paths, Step(c, Emit(s)))
  {
    hide LaneInv, StreamStep, RunStream, Project;
    var lane := c.lanes[s];
    var f := Envelope(s, lane.pending[0]);
    EmitKeepsLane(paths, lane, Seen(paths, c, s));
    var next := Step(c, Emit(s));
    forall t ensures Project(next.wire, t) == if t == s then Project(c.wire, s) + [f.body] else Project(c.wire, t) {
      ProjectAppends(c.wire, f, t);
    }
    OneMoreBody(paths, Project(c.wire, s), f.body);
  }

  lemma OneMoreBody(paths: set<string>, bodies: seq<Request>, b: Request)
    ensures RunStream(paths, FRESH, bodies + [b]) == StreamStep(paths, RunStream(paths, FRESH, bodies), b)
  {
    RunStreamConcatenates(paths, FRESH, bodies, [b]);
    assert [b][1..] == [];
  }

  lemma {:induction false} RunKeepsClient(paths: set<string>, acts: seq<Act>)
    ensures ClientInv(paths, Run(acts))
    decreases |acts|
  {
    if acts != [] {
      RunKeepsClient(paths, acts[..|acts| - 1]);
      hide ClientInv;
      StepKeepsClient(paths, Run(acts[..|acts| - 1]), acts[|acts| - 1]);
    }
  }

  // ---------------------------------------------------------------- prefixes of a run

  /** What a lane can turn into later: it accumulates, and nothing is added after the half-close. */
  predicate Later(early: Lane, late: Lane) {
    && early.path == late.path && early.first == late.first && early.sends <= late.sends
    && (early.closed ==> late.closed && late.sends == early.sends)
  }

  lemma NextSequenceIsNew(paths: set<string>, acts: seq<Act>)
    ensures Run(acts).seqAlloc !in Run(acts).lanes
  {
    RunKeepsClient(paths, acts);
  }

  lemma LaneAccumulates(c: Client, act: Act, s: int)
    requires s in c.lanes && c.seqAlloc !in c.lanes
    ensures s in Step(c, act).lanes && Later(c.lanes[s], Step(c, act).lanes[s])
  {
  }

  lemma {:induction false} LanesAccumulate(paths: set<string>, acts: seq<Act>, n: nat, s: int)
    requires n <= |acts| && s in Run(acts[..n]).lanes
    ensures s in Run(acts).lanes && Later(Run(acts[..n]).lanes[s], Run(acts).lanes[s])
    decreases |acts|
  {
    if n == |acts| {
      assert acts[..n] == acts;
    } else {
      var front, last := acts[..|acts| - 1], acts[|acts| - 1];
      assert front[..n] == acts[..n];
      LanesAccumulate(paths, front, n, s);
      NextSequenceIsNew(paths, front);
      LaneAccumulates(Run(front), last, s);
    }
  }

  /** Every prefix of the wire is the whole wire of some earlier moment. */
  lemma {:induction false} WirePrefix(acts: seq<Act>, k: nat) returns (n: nat)
    requires k <= |Run(acts).wire|
    ensures n <= |acts| && Run(acts[..n]).wire == Run(acts).wire[..k]
    decreases |acts|
  {
    var wire := Run(acts).wire;
    if k == |wire| {
      n := |acts|;
      assert acts[..n] == acts && wire[..k] == wire;
    } else {
      var front := acts[..|acts| - 1];
      hide Contents, OpeningBodies;
      assert Run(front).wire == wire || Run(front).wire == wire[..|wire| - 1];
      n := WirePrefix(front, k);
      assert front[..n] == acts[..n];
      assert Run(front).wire[..k] == wire[..k];
    }
  }

  // ---------------------------------------------------------------- what the codec has to do

  predicate InRange(f: Frame) {
    && 0 <= f.sequence < INT32_LIMIT
    && (f.body.Data? && f.body.content.Piece? ==>
          f.body.content.chunk.total < INT32_LIMIT && f.body.content.chunk.offset < INT32_LIMIT)
  }

  /** The protobuf library on requests: it decodes what it encodes as long as the int32 fields are in range, and
      lays Data and End frames out as section "Encoding" of the protobuf language guide says. */
  ghost predicate ProtobufRequests(c: Codec<Frame>) {
    forall f: Frame :: InRange(f) ==>
      && c.decode(c.encode(f)) == Some(f)
      && (f.body.Data? ==> |c.encode(f)| == DataFrameLen(f.sequence, f.body.content))
      && (f.body.End? ==>
            |c.encode(f)| == FieldLen(ScalarLen(f.sequence)) + FieldLen(if f.body.closeSend then 2 else 0))
  }

  /** A Call carries a method path and metadata of any length; the caller has to keep it under the frame bound. */
  ghost predicate CallsFit(c: Codec<Frame>, wire: seq<Frame>) {
    forall f :: f in wire && f.body.Call? ==> |c.encode(f)| <= MAX_FRAME_SIZE
  }

  /** A frame the client may write. */
  predicate Written(f: Frame) {
    && InRange(f)
    && (f.body.Data? ==> DataFrameLen(f.sequence, f.body.content) <= MAX_FRAME_SIZE)
    && !f.body.NoRequest?
  }

  lemma WrittenIsSendable(c: Codec<Frame>, wire: seq<Frame>, f: Frame)
    requires ProtobufRequests(c) && CallsFit(c, wire) && f in wire && Written(f)
    ensures Sendable(c, f)
  {
    VarintBounds(f.sequence);
    VarintBounds(ScalarLen(f.sequence));
    hide VarintLen;
    assert VarintLen(2) == 1 && VarintLen(0) == 1;
  }

  predicate AllWritten(s: int, bodies: seq<Request>) {
    forall i :: 0 <= i < |bodies| ==> Written(Envelope(s, bodies[i]))
  }

  lemma ContentsAreWritten(s: int, payload: Bytes)
    requires 0 <= s < INT32_LIMIT && |payload| < INT32_LIMIT
    ensures AllWritten(s, Requests(Contents(payload, TS_CHUNK_SIZE)))
  {
    hide DataFrameLen;
    var cs := Contents(payload, TS_CHUNK_SIZE);
    forall i | 0 <= i < |cs| ensures Written(Envelope(s, Data(cs[i]))) {
      DataFramesFit(s, payload, TS_CHUNK_SIZE, cs[i]);
    }
  }

  lemma OpeningIsWritten(s: int, path: string, first: Option<Bytes>)
    requires 0 <= s < INT32_LIMIT && (first.Some? ==> |first.value| < INT32_LIMIT)
    ensures AllWritten(s, OpeningBodies(path, first))
  {
    if first.Some? {
      ContentsAreWritten(s, first.value);
    }
  }

  lemma HalfCloseIsWritten(s: int)
    requires 0 <= s < INT32_LIMIT
    ensures AllWritten(s, [End(true)])
  {
  }

  ghost predicate WritesInRange(c: Client) {
    && (forall i :: 0 <= i < |c.wire| ==> Written(c.wire[i]))
    && (forall s :: s in c.lanes ==> 0 <= s < INT32_LIMIT && AllWritten(s, c.lanes[s].pending))
  }

  lemma {:induction false} RunWritesInRange(acts: seq<Act>)
    ensures WritesInRange(Run(acts))
    decreases |acts|
  {
    hide Contents, OpeningBodies, Written;
    if acts != [] {
      RunWritesInRange(acts[..|acts| - 1]);
      var c := Run(acts[..|acts| - 1]);
      match acts[|acts| - 1]
      case Open(path, first) =>
        if c.seqAlloc < INT32_LIMIT && (first.Some? ==> |first.value| < INT32_LIMIT) {
          OpeningIsWritten(c.seqAlloc, path, first);
        }
      case Send(s, payload) =>
        if Idle(c, s) && |payload| < INT32_LIMIT {
          ContentsAreWritten(s, payload);
        }
      case CloseSend(s) =>
        if Idle(c, s) {
          HalfCloseIsWritten(s);
        }
      case Emit(s) =>
    }
  }

  // ---------------------------------------------------------------- the theorem

  /** The server's queue for a stream, against what the caller of that stream did. */
  ghost predicate Faithful(owed: seq<Bytes>, closed: bool, q: Queue<Bytes>) {
    // nothing reordered, altered, invented or taken from another stream
    && q.log <= owed
    // end of stream only after everything, and only after the half-close
    && (q.closed ==> closed && q.log == owed)
    // receive call k yields the k-th payload, then null; it waits only for what has not arrived
    && (forall k: nat :: k < q.issued ==> (k in q.settled <==> k < |q.log| || q.closed))
    && (forall k: nat :: k < q.issued && k in q.settled ==> q.settled[k] == Answer(q.log, k))
  }

  /** The theorem for lanes. */
  lemma LanesArrive(paths: set<string>, c: Codec<Frame>, acts: seq<Act>, events: seq<Event>, later: Bytes, s: int)
    requires ProtobufRequests(c) && CallsFit(c, Run(acts).wire)
    requires Flatten(Segments(events)) + later == Encoded(c, Run(acts).wire)
    requires s in Run(acts).lanes && Run(acts).lanes[s].path in paths
    ensures var lane, srv := Run(acts).lanes[s], RunNode(paths, c, Node([], INITIAL), events).srv;
            && (s in srv.inboxes ==> Faithful(Expected(lane), lane.closed, srv.inboxes[s]))
            && (later == [] ==> lane.resolved <= View(srv, s).log)
            && (later == [] && lane.pending == [] ==>
                  s in srv.inboxes && srv.inboxes[s].log == Expected(lane) && srv.inboxes[s].closed == lane.closed)
  {
    hide Run, RunNode, RunStream, Project, Feed, Encoded, Flatten, Sendable, StreamStep, Faithful;
    var wire := Run(acts).wire;
    WireIsSendable(c, acts);
    var segments := Segments(events);
    var k := PartialStream(c, wire, segments, later);
    NodeFollowsFrames(paths, c, Node([], INITIAL), events, s);
    NodeKeepsQueues(paths, c, Node([], INITIAL), events);
    var srv := RunNode(paths, c, Node([], INITIAL), events).srv;
    assert View(INITIAL, s) == FRESH;
    assert View(srv, s) == RunStream(paths, FRESH, Project(wire[..k], s));
    if later == [] {
      FullyReceived(c, wire, k, Feed(c, [], segments).rest);
      assert wire[..k] == wire && acts[..|acts|] == acts;
      ReceivedIsFaithful(paths, acts, |acts|, srv, s);
    } else {
      var n := WirePrefix(acts, k);
      ReceivedIsFaithful(paths, acts, n, srv, s);
    }
  }

  /** For every run of the client, every cut of its byte stream and every interleaving with the handlers' receive
      calls: each stream of a registered method is a private FIFO of whole payloads. */
  lemma RequestsArrive(paths: set<string>, c: Codec<Frame>, acts: seq<Act>, events: seq<Event>, later: Bytes, s: int)
    requires ProtobufRequests(c) && CallsFit(c, Run(acts).wire)
    requires Flatten(Segments(events)) + later == Encoded(c, Run(acts).wire)
    requires History(acts, s).Some? && History(acts, s).value.path in paths
    ensures var t, srv := History(acts, s).value, RunNode(paths, c, Node([], INITIAL), events).srv;
            && (s in srv.inboxes ==> Faithful(Owed(t.first, t.sends), t.closed, srv.inboxes[s]))
            && (later == [] ==> Settled(t) <= View(srv, s).log)
            && (later == [] && t.written == |t.bodies| ==>
                  s in srv.inboxes && srv.inboxes[s].log == Owed(t.first, t.sends) && srv.inboxes[s].closed == t.closed)
  {
    RunFollowsActs(acts, s);
    hide RunNode, Project, Faithful, Encoded, Flatten, Settled, Owed, History, Run;
    LanesArrive(paths, c, acts, events, later, s);
  }

  lemma OwedIsEverything(t: Told)
    ensures Owed(t.first, t.sends) == HandedOver(t) <==> t.first != Some([])
  {
    if t.first == Some([]) {
      assert |Owed(t.first, t.sends)| < |HandedOver(t)|;
    }
  }

  /** Once every byte has arrived and no frame is pending, the server's queue has taken everything the caller handed
      over, exactly unless the stream was opened with an empty payload. */
  lemma NothingIsLostExactly(paths: set<string>, c: Codec<Frame>, acts: seq<Act>, events: seq<Event>, s: int)
    requires ProtobufRequests(c) && CallsFit(c, Run(acts).wire)
    requires Flatten(Segments(events)) == Encoded(c, Run(acts).wire)
    requires History(acts, s).Some?
    requires var t := History(acts, s).value; t.path in paths && t.written == |t.bodies|
    ensures var t, srv := History(acts, s).value, RunNode(paths, c, Node([], INITIAL), events).srv;
            s in srv.inboxes && (srv.inboxes[s].log == HandedOver(t) <==> t.first != Some([]))
  {
    assert Flatten(Segments(events)) + [] == Flatten(Segments(events));
    RequestsArrive(paths, c, acts, events, [], s);
    OwedIsEverything(History(acts, s).value);
    hide *;
  }

  lemma ReceivedIsFaithful(paths: set<string>, acts: seq<Act>, n: nat, srv: Srv, s: int)
    requires n <= |acts| && s in Run(acts).lanes && Run(acts).lanes[s].path in paths
    requires View(srv, s) == Seen(paths, Run(acts[..n]), s) && QueuesConsistent(srv)
    ensures var lane := Run(acts).lanes[s];
            && (s in srv.inboxes ==> Faithful(Expected(lane), lane.closed, srv.inboxes[s]))
            && (n == |acts| ==> lane.resolved <= View(srv, s).log)
            && (n == |acts| && lane.pending == [] ==>
                  s in srv.inboxes && srv.inboxes[s].log == Expected(lane) && srv.inboxes[s].closed == lane.closed)
  {
    var early := Run(acts[..n]);
    assert n == |acts| ==> acts[..n] == acts;
    RunKeepsClient(paths, acts[..n]);
    hide Run, RunStream, StreamStep, Consistent, Project, Faithful, LaneInv;
    if s in early.lanes {
      LanesAccumulate(paths, acts, n, s);
      LaneFacts(paths, early.lanes[s], Seen(paths, early, s));
      if s in srv.inboxes {
        QueueIsFaithful(paths, early.lanes[s], Run(acts).lanes[s], Seen(paths, early, s), srv.inboxes[s]);
      }
    } else {
      NothingSeen(paths, early, s);
    }
  }

  lemma NothingSeen(paths: set<string>, c: Client, s: int)
    requires Project(c.wire, s) == []
    ensures Seen(paths, c, s) == FRESH
  {
  }

  lemma LaneFacts(paths: set<string>, lane: Lane, st: Stream)
    requires LaneInv(paths, lane, st) && lane.path in paths
    ensures lane.resolved <= st.log
    ensures lane.pending == [] ==> st == Stream(true, Expected(lane), lane.closed, !lane.closed, None)
  {
  }

  lemma QueueIsFaithful(paths: set<string>, early: Lane, lane: Lane, st: Stream, q: Queue<Bytes>)
    requires LaneInv(paths, early, st) && Later(early, lane) && lane.path in paths
    requires Consistent(q) && q.log == st.log && q.closed == st.closed
    ensures Faithful(Expected(lane), lane.closed, q)
  {
  }

  lemma WireIsSendable(c: Codec<Frame>, acts: seq<Act>)
    requires ProtobufRequests(c) && CallsFit(c, Run(acts).wire)
    ensures forall f :: f in Run(acts).wire ==> Sendable(c, f)
  {
    RunWritesInRange(acts);
    var wire := Run(acts).wire;
    hide Run, Written, Sendable;
    forall f | f in wire ensures Sendable(c, f) {
      WrittenIsSendable(c, wire, f);
    }
  }

  /** When every byte has arrived, every frame has: a frame never encodes to nothing. */
  lemma FullyReceived(c: Codec<Frame>, wire: seq<Frame>, k: nat, rest: Bytes)
    requires k <= |wire| && rest + [] == Encoded(c, wire[k..])
    requires k < |wire| ==> |rest| < |Prefixed(c.encode(wire[k]))|
    ensures k == |wire|
  {
  }
}
