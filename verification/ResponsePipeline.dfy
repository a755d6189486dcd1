/** End to end, server to client: the mirror of RequestPipeline, with the final status. */
module ResponsePipeline {
  import opened Wire
  import opened Segmentation
  import opened Reassembly
  import opened AsyncQueues
  import opened Frames
  import opened Sending
  import opened Receiving
  import opened TsClient

  // ---------------------------------------------------------------- the handlers as a step machine

  /** One handler: the responses it has handed over, the status it ended with, the frames its current operation
      has yet to write, and the responses whose send has resolved. */
  datatype Lane = Lane(headerSent: bool, sends: seq<Bytes>, finished: Option<Status>,
                       pending: seq<Response>, resolved: seq<Bytes>)

  datatype Server = Server(lanes: map<int, Lane>, wire: seq<ResponseFrame>)

  const NEW_SERVER: Server := Server(map[], [])

  /** Start runs a handler, Reject answers an unknown method; a handler awaits each send. */
  datatype Act =
    | Start(s: int)
    | Reject(s: int, reason: Status)
    | Reply(s: int, payload: Bytes)
    | Finish(s: int, status: Status)
    | Emit(s: int)

  function Update(sv: Server, s: int, lane: Lane): Server {
    sv.(lanes := sv.lanes[s := lane])
  }

  predicate Idle(sv: Server, s: int) {
    s in sv.lanes && sv.lanes[s].pending == [] && sv.lanes[s].finished == None
  }

  function EndBody(status: Status): Response {
    ResponseEnd(Some(status), map[])
  }

  function Step(sv: Server, act: Act): Server {
    match act
    case Start(s) =>
      if s in sv.lanes || !(0 <= s < INT32_LIMIT) then sv else Update(sv, s, Lane(false, [], None, [], []))
    case Reject(s, reason) =>
      if s in sv.lanes || !(0 <= s < INT32_LIMIT) then sv else
      Update(sv, s, Lane(false, [], Some(reason), [EndBody(reason)], []))
    case Reply(s, payload) =>
      if !Idle(sv, s) || |payload| >= INT32_LIMIT then sv else
      var lane := sv.lanes[s];
      Update(sv, s, lane.(headerSent := true, sends := lane.sends + [payload],
                          pending := ReplyBodies(lane.headerSent, payload)))
    case Finish(s, status) =>
      if !Idle(sv, s) then sv else
      Update(sv, s, sv.lanes[s].(finished := Some(status), pending := [EndBody(status)]))
    case Emit(s) =>
      if s !in sv.lanes || sv.lanes[s].pending == [] then sv else
      var lane := sv.lanes[s];
      var rest := lane.pending[1..];
      Update(sv, s, lane.(pending := rest, resolved := if rest == [] then Expected(lane) else lane.resolved))
        .(wire := sv.wire + [Envelope(s, lane.pending[0])])
  }

  function Run(acts: seq<Act>): Server
    decreases |acts|
  {
    if acts == [] then NEW_SERVER else Step(Run(acts[..|acts| - 1]), acts[|acts| - 1])
  }

  /** The responses the client is owed: all of them, but for an empty first one, which rides inline in Begin and
      is not delivered. */
  function Owed(sends: seq<Bytes>): seq<Bytes> {
    if sends != [] && sends[0] == [] then sends[1..] else sends
  }

  function Expected(lane: Lane): seq<Bytes> {
    Owed(lane.sends)
  }

  // ---------------------------------------------------------------- what the handlers did, from the acts alone

  /** One handler by its own account: what it sent, the status it ended with, all the frames this takes, and how
      many of them have been written. */
  datatype Told = Told(sends: seq<Bytes>, finished: Option<Status>, bodies: seq<Response>, written: nat)

  predicate Resting(t: Told) {
    t.written == |t.bodies| && t.finished == None
  }

  /** A reply counts when the last one is written and the handler has not returned; the first one opens. */
  function Retold(t: Told, act: Act): Told {
    match act
    case Reply(_, payload) =>
      if !Resting(t) || |payload| >= INT32_LIMIT then t else
      t.(sends := t.sends + [payload], bodies := t.bodies + ReplyBodies(t.sends != [], payload))
    case Finish(_, status) =>
      if !Resting(t) then t
      else t.(finished := Some(status), bodies := t.bodies + [ResponseEnd(Some(status), map[])])
    case Emit(_) => if t.written < |t.bodies| then t.(written := t.written + 1) else t
    case _ => t
  }

  function History(acts: seq<Act>, s: int): Option<Told>
    decreases |acts|
  {
    if acts == [] then None else
    var before, last := History(acts[..|acts| - 1], s), acts[|acts| - 1];
    if last.s != s || !(0 <= s < INT32_LIMIT) then before
    else if before.Some? then Some(Retold(before.value, last))
    else match last
      case Start(_) => Some(Told([], None, [], 0))
      case Reject(_, reason) => Some(Told([], Some(reason), [ResponseEnd(Some(reason), map[])], 0))
      case _ => None
  }

  /** The responses whose send has returned. */
  function Settled(t: Told): seq<Bytes> {
    if t.written == |t.bodies| || t.finished.Some? then Owed(t.sends)
    else if t.sends == [] then [] else Owed(t.sends[..|t.sends| - 1])
  }

  predicate SameLane(lane: Lane, t: Told, wire: seq<Response>) {
    && lane.sends == t.sends && lane.finished == t.finished && (lane.headerSent <==> t.sends != [])
    && t.written <= |t.bodies| && wire == t.bodies[..t.written] && lane.pending == t.bodies[t.written..]
    && lane.resolved == Settled(t)
  }

  predicate Follows(sv: Server, s: int, h: Option<Told>) {
    && (s in sv.lanes <==> h.Some?)
    && if h.Some? then 0 <= s < INT32_LIMIT && SameLane(sv.lanes[s], h.value, Project(sv.wire, s))
       else Project(sv.wire, s) == []
  }

  lemma ReplyFollows(lane: Lane, t: Told, wire: seq<Response>, act: Act)
    requires SameLane(lane, t, wire) && lane.pending == [] && lane.finished == None
    requires (act.Reply? && |act.payload| < INT32_LIMIT) || act.Finish?
    ensures var next := if act.Finish? then lane.(finished := Some(act.status), pending := [EndBody(act.status)])
                        else lane.(headerSent := true, sends := lane.sends + [act.payload],
                                   pending := ReplyBodies(lane.headerSent, act.payload));
            SameLane(next, Retold(t, act), wire)
  {
    var u := Retold(t, act);
    var more := if act.Finish? then [EndBody(act.status)] else ReplyBodies(t.sends != [], act.payload);
    hide ReplyBodies, Owed;
    assert u.bodies == t.bodies + more && t.bodies[..t.written] == t.bodies;
    assert u.bodies[..u.written] == t.bodies && u.bodies[u.written..] == more;
    if act.Reply? { assert u.sends[..|u.sends| - 1] == t.sends; }
  }

  lemma EmitFollows(lane: Lane, t: Told, wire: seq<Response>, s: int)
    requires SameLane(lane, t, wire) && lane.pending != []
    ensures var rest := lane.pending[1..];
            SameLane(lane.(pending := rest, resolved := if rest == [] then Expected(lane) else lane.resolved),
                     Retold(t, Emit(s)), wire + [lane.pending[0]])
  {
    assert t.bodies[..t.written + 1] == t.bodies[..t.written] + [t.bodies[t.written]];
    hide Owed;
  }

  lemma OthersFollow(sv: Server, act: Act, s: int, h: Option<Told>)
    requires Follows(sv, s, h) && act.s != s
    ensures Follows(Step(sv, act), s, h)
  {
    hide SameLane, ReplyBodies;
    if act.Emit? && act.s in sv.lanes && sv.lanes[act.s].pending != [] {
      ProjectAppends(sv.wire, Envelope(act.s, sv.lanes[act.s].pending[0]), s);
    }
    hide Project;
  }

  lemma OwnActFollows(sv: Server, act: Act, s: int, t: Told)
    requires Follows(sv, s, Some(t)) && act.s == s
    ensures Follows(Step(sv, act), s, Some(Retold(t, act)))
  {
    var lane := sv.lanes[s];
    if act.Emit? {
      if lane.pending != [] {
        EmitFollows(lane, t, Project(sv.wire, s), s);
        ProjectAppends(sv.wire, Envelope(s, lane.pending[0]), s);
      }
    } else if Idle(sv, s) && (act.Finish? || (act.Reply? && |act.payload| < INT32_LIMIT)) {
      ReplyFollows(lane, t, Project(sv.wire, s), act);
    }
    hide ReplyBodies, Project, Owed;
  }

  lemma FirstActFollows(sv: Server, act: Act, s: int)
    requires Follows(sv, s, None) && act.s == s
    ensures Follows(Step(sv, act), s,
                    if !(0 <= s < INT32_LIMIT) then None
                    else match act
                      case Start(_) => Some(Told([], None, [], 0))
                      case Reject(_, reason) => Some(Told([], Some(reason), [ResponseEnd(Some(reason), map[])], 0))
                      case _ => None)
  {
    hide Project;
  }

  /** The machine does what the acts say, no more and no less. */
  lemma {:induction false} RunFollowsActs(acts: seq<Act>, s: int)
    ensures Follows(Run(acts), s, History(acts, s))
    decreases |acts|
  {
    if acts != [] {
      var front, last := acts[..|acts| - 1], acts[|acts| - 1];
      RunFollowsActs(front, s);
      var h := History(front, s);
      assert h.Some? ==> 0 <= s < INT32_LIMIT;
      hide Follows, Retold, Step;
      if last.s != s {
        OthersFollow(Run(front), last, s, h);
      } else if h.Some? {
        OwnActFollows(Run(front), last, s, h.value);
      } else {
        FirstActFollows(Run(front), last, s);
      }
    }
  }

  // ---------------------------------------------------------------- one sequence at the client

  datatype ReplyView = ReplyView(st: Stream, status: Option<Status>)

  const READY: ReplyView := ReplyView(Stream(true, [], false, true, None), None)

  function ViewOf(cl: Cli, s: int): ReplyView {
    var known := s in cl.calls;
    ReplyView(Stream(known, if known then cl.calls[s].inbox.log else [], known && cl.calls[s].inbox.closed,
                     s in cl.live, Lookup(cl.reasm, s)),
              if known then cl.calls[s].status else None)
  }

  function ReplyStep(v: ReplyView, b: Response): ReplyView {
    if !v.st.live then v else
    match b
    case Begin(_, inline) => if inline.Some? && |inline.value| > 0 then v.(st := Append(v.st, inline.value)) else v
    case ResponseData(content) => v.(st := AbsorbOne(v.st, content))
    case ResponseEnd(status, _) => ReplyView(v.st.(closed := true, live := false), Some(Final(status)))
    case NoResponse => v
  }

  function RunReplies(v: ReplyView, bodies: seq<Response>): ReplyView
    decreases |bodies|
  {
    if bodies == [] then v else RunReplies(ReplyStep(v, bodies[0]), bodies[1..])
  }

  lemma {:induction false} RunRepliesConcatenates(v: ReplyView, a: seq<Response>, b: seq<Response>)
    ensures RunReplies(v, a + b) == RunReplies(RunReplies(v, a), b)
    decreases |a|
  {
    hide ReplyStep;
    if a == [] {
      assert a + b == b;
    } else {
      assert (a + b)[1..] == a[1..] + b;
      RunRepliesConcatenates(ReplyStep(v, a[0]), a[1..], b);
    }
  }

  lemma OneMoreBody(v: ReplyView, bodies: seq<Response>, b: Response)
    ensures RunReplies(v, bodies + [b]) == ReplyStep(RunReplies(v, bodies), b)
  {
    RunRepliesConcatenates(v, bodies, [b]);
    assert [b][1..] == [];
  }

  lemma FrameTouchesOneView(cl: Cli, f: ResponseFrame, s: int)
    requires WellFormed(cl)
    ensures ViewOf(Dispatch(cl, f), s) == if f.sequence == s then ReplyStep(ViewOf(cl, s), f.body) else ViewOf(cl, s)
  {
    hide Absorb, AbsorbOne, AfterClose;
    var t := f.sequence;
    if t in cl.live {
      if f.body.ResponseEnd? {
        AfterCloseKeepsLog(cl.calls[t].inbox);
      } else if f.body.ResponseData? {
        AbsorbMatches(cl.calls[t].inbox, cl.reasm, t, f.body.responseContent, ViewOf(cl, t).st);
      }
    }
  }

  lemma {:induction false} ViewFollowsFrames(cl: Cli, frames: seq<ResponseFrame>, s: int)
    requires WellFormed(cl)
    ensures ViewOf(DispatchAll(cl, frames), s) == RunReplies(ViewOf(cl, s), Project(frames, s))
    decreases |frames|
  {
    hide ViewOf, ReplyStep, Dispatch;
    if frames != [] {
      var f := frames[0];
      FrameTouchesOneView(cl, f, s);
      ViewFollowsFrames(Dispatch(cl, f), frames[1..], s);
      assert frames == [f] + frames[1..];
      ProjectConcatenates([f], frames[1..], s);
      ProjectAppends([], f, s);
      assert [] + [f] == [f] && Project<Response>([], s) == [];
      RunRepliesConcatenates(ViewOf(cl, s), Project([f], s), Project(frames[1..], s));
      OneMoreBody(ViewOf(cl, s), [], f.body);
      assert [] + [f.body] == [f.body];
    }
  }

  // ---------------------------------------------------------------- the client endpoint

  datatype Arrival = Segment(bytes: Bytes) | Receive(s: int) | Opens(s: int)

  datatype Node = Node(buf: Bytes, cl: Cli)

  function NodeStep(c: Codec<ResponseFrame>, n: Node, e: Arrival): (next: Node)
    requires WellFormed(n.cl)
    ensures WellFormed(next.cl)
  {
    match e
    case Segment(bytes) =>
      var d := Drain(c, n.buf + bytes);
      Node(d.rest, DispatchAll(n.cl, d.frames))
    case Receive(s) => n.(cl := EventStep(n.cl, RecvCall(s)))
    case Opens(s) => n.(cl := EventStep(n.cl, Opened(s)))
  }

  function RunNode(c: Codec<ResponseFrame>, n: Node, events: seq<Arrival>): (next: Node)
    requires WellFormed(n.cl)
    ensures WellFormed(next.cl)
    decreases |events|
  {
    if events == [] then n else RunNode(c, NodeStep(c, n, events[0]), events[1..])
  }

  function Segments(events: seq<Arrival>): seq<Bytes> {
    if events == [] then [] else
    var later := Segments(events[1..]);
    if events[0].Segment? then [events[0].bytes] + later else later
  }

  lemma QuietStep(c: Codec<ResponseFrame>, n: Node, e: Arrival, s: int)
    requires WellFormed(n.cl) && s in n.cl.calls && !e.Segment?
    ensures ViewOf(NodeStep(c, n, e).cl, s) == ViewOf(n.cl, s) && NodeStep(c, n, e).buf == n.buf
    ensures s in NodeStep(c, n, e).cl.calls
  {
  }

  lemma {:induction false} DispatchKeepsCalls(cl: Cli, frames: seq<ResponseFrame>, s: int)
    requires WellFormed(cl) && s in cl.calls
    ensures s in DispatchAll(cl, frames).calls
    decreases |frames|
  {
    if frames != [] {
      DispatchKeepsCalls(Dispatch(cl, frames[0]), frames[1..], s);
    }
  }

  lemma {:induction false} NodeFollowsFrames(c: Codec<ResponseFrame>, n: Node, events: seq<Arrival>, s: int)
    requires WellFormed(n.cl) && s in n.cl.calls
    ensures ViewOf(RunNode(c, n, events).cl, s) ==
            RunReplies(ViewOf(n.cl, s), Project(Feed(c, n.buf, Segments(events)).frames, s))
    ensures s in RunNode(c, n, events).cl.calls
    decreases |events|
  {
    hide Drain, ReplyStep, DispatchAll, ViewOf, EventStep;
    if events != [] {
      var next := NodeStep(c, n, events[0]);
      if events[0].Segment? {
        var d := Drain(c, n.buf + events[0].bytes);
        DispatchKeepsCalls(n.cl, d.frames, s);
        NodeFollowsFrames(c, next, events[1..], s);
        assert ([events[0].bytes] + Segments(events[1..]))[1..] == Segments(events[1..]);
        var later := Feed(c, d.rest, Segments(events[1..])).frames;
        ViewFollowsFrames(n.cl, d.frames, s);
        ProjectConcatenates(d.frames, later, s);
        RunRepliesConcatenates(ViewOf(n.cl, s), Project(d.frames, s), Project(later, s));
      } else {
        QuietStep(c, n, events[0], s);
        NodeFollowsFrames(c, next, events[1..], s);
      }
    }
  }

  lemma {:induction false} RunNodeConcatenates(c: Codec<ResponseFrame>, n: Node, a: seq<Arrival>, b: seq<Arrival>)
    requires WellFormed(n.cl)
    ensures RunNode(c, n, a + b) == RunNode(c, RunNode(c, n, a), b)
    decreases |a|
  {
    hide NodeStep;
    if a == [] {
      assert a + b == b;
    } else {
      assert (a + b)[1..] == a[1..] + b;
      RunNodeConcatenates(c, NodeStep(c, n, a[0]), a[1..], b);
    }
  }

  lemma {:induction false} SegmentsConcatenate(a: seq<Arrival>, b: seq<Arrival>)
    ensures Segments(a + b) == Segments(a) + Segments(b)
    decreases |a|
  {
    if a == [] {
      assert a + b == b;
    } else {
      assert (a + b)[1..] == a[1..] + b;
      SegmentsConcatenate(a[1..], b);
    }
  }

  /** How often the caller of `s` called recv. */
  function Receives(events: seq<Arrival>, s: int): nat {
    if events == [] then 0 else (if events[0] == Receive(s) then 1 else 0) + Receives(events[1..], s)
  }

  lemma DispatchKeepsIssued(cl: Cli, f: ResponseFrame, s: int)
    requires WellFormed(cl) && s in cl.calls
    ensures s in Dispatch(cl, f).calls && Dispatch(cl, f).calls[s].inbox.issued == cl.calls[s].inbox.issued
  {
    if f.sequence in cl.calls { PopWaitingKeepsLog(cl.calls[f.sequence].inbox.(closed := true)); }
    hide FoldOne, PopWaiting;
  }

  lemma {:induction false} DispatchAllKeepsIssued(cl: Cli, frames: seq<ResponseFrame>, s: int)
    requires WellFormed(cl) && s in cl.calls
    ensures s in DispatchAll(cl, frames).calls
    ensures DispatchAll(cl, frames).calls[s].inbox.issued == cl.calls[s].inbox.issued
    decreases |frames|
  {
    hide Dispatch;
    if frames != [] {
      DispatchKeepsIssued(cl, frames[0], s);
      DispatchAllKeepsIssued(Dispatch(cl, frames[0]), frames[1..], s);
    }
  }

  /** Once the call is open every recv of its caller is issued: it gets a ticket, whatever else happens. */
  lemma {:induction false} EveryReceiveIsIssued(c: Codec<ResponseFrame>, n: Node, events: seq<Arrival>, s: int)
    requires WellFormed(n.cl) && s in n.cl.calls
    ensures var after := RunNode(c, n, events).cl.calls;
            s in after && after[s].inbox.issued == n.cl.calls[s].inbox.issued + Receives(events, s)
    decreases |events|
  {
    hide Drain, DispatchAll, PopWaiting;
    if events != [] {
      if events[0].Segment? { DispatchAllKeepsIssued(n.cl, Drain(c, n.buf + events[0].bytes).frames, s); }
      EveryReceiveIsIssued(c, NodeStep(c, n, events[0]), events[1..], s);
    }
  }

  /** Nothing is known of `s` at the client. */
  predicate Unopened(cl: Cli, s: int) {
    s !in cl.calls && s !in cl.live && s !in cl.reasm
  }

  lemma DispatchKeepsUnopened(cl: Cli, f: ResponseFrame, s: int)
    requires WellFormed(cl) && Unopened(cl, s)
    ensures Unopened(Dispatch(cl, f), s)
  {
    hide Begun, Ended, FoldOne, AfterPush;
  }

  lemma {:induction false} DispatchAllKeepsUnopened(cl: Cli, frames: seq<ResponseFrame>, s: int)
    requires WellFormed(cl) && Unopened(cl, s)
    ensures Unopened(DispatchAll(cl, frames), s)
    decreases |frames|
  {
    hide Dispatch, Unopened;
    if frames != [] {
      DispatchKeepsUnopened(cl, frames[0], s);
      DispatchAllKeepsUnopened(Dispatch(cl, frames[0]), frames[1..], s);
    }
  }

  /** Before the call is opened its frames pass without a trace; the bytes are decoded all the same. */
  lemma {:induction false} BeforeOpening(c: Codec<ResponseFrame>, n: Node, early: seq<Arrival>, s: int)
    requires WellFormed(n.cl) && Unopened(n.cl, s) && Opens(s) !in early
    ensures var mid := RunNode(c, n, early);
            Unopened(mid.cl, s) && mid.buf == Feed(c, n.buf, Segments(early)).rest
    decreases |early|
  {
    hide Drain, DispatchAll;
    if early != [] {
      if early[0].Segment? {
        var d := Drain(c, n.buf + early[0].bytes);
        DispatchAllKeepsUnopened(n.cl, d.frames, s);
        assert ([early[0].bytes] + Segments(early[1..]))[1..] == Segments(early[1..]);
      }
      BeforeOpening(c, NodeStep(c, n, early[0]), early[1..], s);
    }
  }

  const UNUSED: Node := Node([], Cli(map[], {}, map[]))

  /** A call sees exactly its own frames that come in after its opening, whatever else is in flight then. */
  lemma SeesItsFramesSince(c: Codec<ResponseFrame>, events: seq<Arrival>, i: nat, s: int)
    requires i < |events| && events[i] == Opens(s) && Opens(s) !in events[..i]
    ensures WellFormed(UNUSED.cl) && s in RunNode(c, UNUSED, events).cl.calls
    ensures var early := Feed(c, [], Segments(events[..i]));
            var late := Feed(c, early.rest, Segments(events[i + 1..]));
            && ViewOf(RunNode(c, UNUSED, events).cl, s) == RunReplies(READY, Project(late.frames, s))
            && Feed(c, [], Segments(events)) == Drained(early.frames + late.frames, late.rest)
  {
    var early, late := events[..i], events[i + 1..];
    var opening := [Opens(s)];
    assert events == early + (opening + late);
    assert (opening + late)[1..] == late;
    RunNodeConcatenates(c, UNUSED, early, opening + late);
    BeforeOpening(c, UNUSED, early, s);
    var mid := RunNode(c, UNUSED, early);
    var ready := NodeStep(c, mid, Opens(s));
    assert RunNode(c, UNUSED, events) == RunNode(c, ready, late);
    assert ViewOf(ready.cl, s) == READY && ready.buf == mid.buf;
    hide RunNode, NodeStep, Feed, Drain, RunReplies, ViewOf, Project;
    NodeFollowsFrames(c, ready, late, s);
    SegmentsConcatenate(early, opening + late);
    FeedSplits(c, [], Segments(early), Segments(late));
  }

  ghost predicate QueuesConsistent(cl: Cli) {
    forall s :: s in cl.calls ==> Consistent(cl.calls[s].inbox)
  }

  lemma DispatchKeepsQueues(cl: Cli, f: ResponseFrame)
    requires WellFormed(cl) && QueuesConsistent(cl)
    ensures QueuesConsistent(Dispatch(cl, f))
  {
    hide Consistent, Absorb, AfterClose, AfterPush;
    var s := f.sequence;
    if s in cl.live {
      var q := cl.calls[s].inbox;
      match f.body
      case Begin(_, inline) => if inline.Some? { PushKeeps(q, inline.value); }
      case ResponseData(content) => AbsorbKeepsQueue(q, cl.reasm, s, content);
      case ResponseEnd(_, _) => CloseKeeps(q);
      case NoResponse =>
    }
  }

  lemma {:induction false} DispatchAllKeepsQueues(cl: Cli, frames: seq<ResponseFrame>)
    requires WellFormed(cl) && QueuesConsistent(cl)
    ensures QueuesConsistent(DispatchAll(cl, frames))
    decreases |frames|
  {
    hide Consistent, Dispatch;
    if frames != [] {
      DispatchKeepsQueues(cl, frames[0]);
      DispatchAllKeepsQueues(Dispatch(cl, frames[0]), frames[1..]);
    }
  }

  lemma NewQueueIsConsistent()
    ensures Consistent(NEW_CALL.inbox)
  {
  }

  lemma {:induction false} NodeKeepsQueues(c: Codec<ResponseFrame>, n: Node, events: seq<Arrival>)
    requires WellFormed(n.cl) && QueuesConsistent(n.cl)
    ensures QueuesConsistent(RunNode(c, n, events).cl)
    decreases |events|
  {
    hide Consistent, DispatchAll, Drain, AfterRecv;
    if events != [] {
      match events[0] {
        case Segment(bytes) => DispatchAllKeepsQueues(n.cl, Drain(c, n.buf + bytes).frames);
        case Receive(s) => if s in n.cl.calls { RecvKeeps(n.cl.calls[s].inbox); }
        case Opens(s) => NewQueueIsConsistent();
      }
      NodeKeepsQueues(c, NodeStep(c, n, events[0]), events[1..]);
    }
  }

  // ---------------------------------------------------------------- the server side of the argument

  predicate NoEnd(bodies: seq<Response>) {
    forall i :: 0 <= i < |bodies| ==> !bodies[i].ResponseEnd?
  }

  predicate EndsLast(bodies: seq<Response>) {
    forall i :: 0 <= i < |bodies| ==> bodies[i].ResponseEnd? ==> i == |bodies| - 1
  }

  lemma {:induction false} LogGrows(v: ReplyView, bodies: seq<Response>)
    ensures v.st.log <= RunReplies(v, bodies).st.log
    decreases |bodies|
  {
    hide FoldOne;
    if bodies != [] {
      var next := ReplyStep(v, bodies[0]);
      assert v.st.log <= next.st.log;
      LogGrows(next, bodies[1..]);
    }
  }

  lemma {:induction false} ResponsesAreAbsorbed(v: ReplyView, cs: seq<Content>)
    requires v.st.live
    ensures RunReplies(v, Responses(cs)) == v.(st := AbsorbAll(v.st, cs))
    decreases |cs|
  {
    hide FoldOne;
    if cs != [] {
      assert Responses(cs)[1..] == Responses(cs[1..]);
      ResponsesAreAbsorbed(v.(st := AbsorbOne(v.st, cs[0])), cs[1..]);
    }
  }

  lemma ReplyDelivers(v: ReplyView, headerSent: bool, payload: Bytes)
    requires v.st.live && !v.st.closed && v.st.partial == None
    ensures RunReplies(v, ReplyBodies(headerSent, payload)) ==
            v.(st := v.st.(log := v.st.log + if !headerSent && payload == [] then [] else [payload]))
    ensures NoEnd(ReplyBodies(headerSent, payload))
  {
    var bodies := ReplyBodies(headerSent, payload);
    var cs := Contents(payload, TS_CHUNK_SIZE);
    if headerSent {
      ResponsesAreAbsorbed(v, cs);
      ContentsDeliver(v.st, payload, TS_CHUNK_SIZE);
    } else if |payload| <= INLINE_MAX {
      assert bodies[1..] == [];
      assert v.st.log + [] == v.st.log;
    } else {
      assert bodies[1..] == Responses(cs);
      ResponsesAreAbsorbed(v, cs);
      ContentsDeliver(v.st, payload, TS_CHUNK_SIZE);
    }
  }

  function Goal(lane: Lane): ReplyView {
    ReplyView(Stream(true, Expected(lane), lane.finished.Some?, lane.finished.None?, None), lane.finished)
  }

  ghost predicate LaneInv(lane: Lane, v: ReplyView) {
    && EndsLast(lane.pending)
    && (lane.headerSent <==> lane.sends != [])
    && (lane.pending == [] ==> lane.resolved == Expected(lane))
    && RunReplies(v, lane.pending) == Goal(lane)
    && lane.resolved <= v.st.log <= Expected(lane)
    && (v.st.closed ==> lane.pending == [])
    && v.st.live == !v.st.closed
  }

  lemma EmitKeepsLane(lane: Lane, v: ReplyView)
    requires LaneInv(lane, v) && lane.pending != []
    ensures var rest := lane.pending[1..];
            LaneInv(lane.(pending := rest, resolved := if rest == [] then Expected(lane) else lane.resolved),
                    ReplyStep(v, lane.pending[0]))
  {
    hide FoldOne;
    var head, rest := lane.pending[0], lane.pending[1..];
    var next := ReplyStep(v, head);
    assert forall i :: 0 <= i < |rest| ==> rest[i] == lane.pending[i + 1];
    LogGrows(next, rest);
    assert RunReplies(v, lane.pending) == RunReplies(next, rest);
    assert rest == [] ==> RunReplies(next, rest) == next;
    assert v.st.log <= next.st.log;
  }

  lemma ReplyKeepsLane(lane: Lane, v: ReplyView, payload: Bytes)
    requires LaneInv(lane, v) && lane.pending == [] && lane.finished == None
    ensures LaneInv(lane.(headerSent := true, sends := lane.sends + [payload],
                          pending := ReplyBodies(lane.headerSent, payload)), v)
  {
    var next := lane.(headerSent := true, sends := lane.sends + [payload]);
    ReplyDelivers(v, lane.headerSent, payload);
    hide ReplyBodies, ReplyStep;
    assert v == Goal(lane);
    assert Expected(next) == Expected(lane) + if !lane.headerSent && payload == [] then [] else [payload];
  }

  lemma FinishKeepsLane(lane: Lane, v: ReplyView, status: Status)
    requires LaneInv(lane, v) && lane.pending == [] && lane.finished == None
    ensures LaneInv(lane.(finished := Some(status), pending := [EndBody(status)]), v)
  {
  }

  function Seen(sv: Server, s: int): ReplyView {
    RunReplies(READY, Project(sv.wire, s))
  }

  ghost predicate ServerInv(sv: Server) {
    && (forall s :: s in sv.lanes ==> LaneInv(sv.lanes[s], Seen(sv, s)))
    && (forall s :: s !in sv.lanes ==> Project(sv.wire, s) == [])
  }

  lemma NewLanes(sv: Server, s: int, reason: Status)
    requires Project(sv.wire, s) == []
    ensures LaneInv(Lane(false, [], None, [], []), Seen(sv, s))
    ensures LaneInv(Lane(false, [], Some(reason), [EndBody(reason)], []), Seen(sv, s))
  {
  }

  lemma EmitKeepsServer(sv: Server, s: int)
    requires ServerInv(sv) && s in sv.lanes && sv.lanes[s].pending != []
    ensures ServerInv(Step(sv, Emit(s)))
  {
    hide LaneInv, ReplyStep, RunReplies, Project;
    var lane := sv.lanes[s];
    var f := Envelope(s, lane.pending[0]);
    EmitKeepsLane(lane, Seen(sv, s));
    var next := Step(sv, Emit(s));
    forall t ensures Project(next.wire, t) == if t == s then Project(sv.wire, s) + [f.body] else Project(sv.wire, t) {
      ProjectAppends(sv.wire, f, t);
    }
    OneMoreBody(READY, Project(sv.wire, s), f.body);
  }

  lemma StepKeepsServer(sv: Server, act: Act)
    requires ServerInv(sv)
    ensures ServerInv(Step(sv, act))
  {
    hide LaneInv, RunReplies, ReplyBodies, Project;
    match act
    case Start(s) => if s !in sv.lanes { NewLanes(sv, s, Status(0, "")); }
    case Reject(s, reason) => if s !in sv.lanes { NewLanes(sv, s, reason); }
    case Reply(s, payload) => if Idle(sv, s) { ReplyKeepsLane(sv.lanes[s], Seen(sv, s), payload); }
    case Finish(s, status) => if Idle(sv, s) { FinishKeepsLane(sv.lanes[s], Seen(sv, s), status); }
    case Emit(s) => if s in sv.lanes && sv.lanes[s].pending != [] { EmitKeepsServer(sv, s); }
  }

  lemma {:induction false} RunKeepsServer(acts: seq<Act>)
    ensures ServerInv(Run(acts))
    decreases |acts|
  {
    if acts != [] {
      RunKeepsServer(acts[..|acts| - 1]);
      hide ServerInv;
      StepKeepsServer(Run(acts[..|acts| - 1]), acts[|acts| - 1]);
    }
  }

  // ---------------------------------------------------------------- prefixes of a run

  predicate Later(early: Lane, late: Lane) {
    && early.sends <= late.sends
    && (early.finished.Some? ==> late.finished == early.finished && late.sends == early.sends)
  }

  lemma LaneAccumulates(sv: Server, act: Act, s: int)
    requires s in sv.lanes
    ensures s in Step(sv, act).lanes && Later(sv.lanes[s], Step(sv, act).lanes[s])
  {
  }

  lemma {:induction false} LanesAccumulate(acts: seq<Act>, n: nat, s: int)
    requires n <= |acts| && s in Run(acts[..n]).lanes
    ensures s in Run(acts).lanes && Later(Run(acts[..n]).lanes[s], Run(acts).lanes[s])
    decreases |acts|
  {
    if n == |acts| {
      assert acts[..n] == acts;
    } else {
      var front, last := acts[..|acts| - 1], acts[|acts| - 1];
      assert front[..n] == acts[..n];
      LanesAccumulate(front, n, s);
      LaneAccumulates(Run(front), last, s);
    }
  }

  lemma {:induction false} WirePrefix(acts: seq<Act>, k: nat) returns (n: nat)
    requires k <= |Run(acts).wire|
    ensures n <= |acts| && Run(acts[..n]).wire == Run(acts).wire[..k]
    decreases |acts|
  {
    var wire := Run(acts).wire;
    if k == |wire| {
      n := |acts|;
      assert acts[..n] == acts && wire[..k] == wire;
    } else {
      var front := acts[..|acts| - 1];
      hide ReplyBodies;
      assert Run(front).wire == wire || Run(front).wire == wire[..|wire| - 1];
      n := WirePrefix(front, k);
      assert front[..n] == acts[..n];
      assert Run(front).wire[..k] == wire[..k];
    }
  }

  // ---------------------------------------------------------------- what the codec has to do

  predicate InRange(f: ResponseFrame) {
    && 0 <= f.sequence < INT32_LIMIT
    && (f.body.ResponseData? && f.body.responseContent.Piece? ==>
          f.body.responseContent.chunk.total < INT32_LIMIT && f.body.responseContent.chunk.offset < INT32_LIMIT)
  }

  /** A Begin without header metadata, with its inline payload if any. */
  function BeginFrameLen(sequence: nat, inline: Option<Bytes>): nat {
    FieldLen(ScalarLen(sequence)) + FieldLen(if inline.Some? then FieldLen(|inline.value|) else 0)
  }

  /** The protobuf library on responses: it decodes what it encodes as long as the int32 fields are in range, and
      lays Data and header-less Begin frames out as the Protocol Buffers encoding prescribes. */
  ghost predicate ProtobufResponses(c: Codec<ResponseFrame>) {
    forall f: ResponseFrame :: InRange(f) ==>
      && c.decode(c.encode(f)) == Some(f)
      && (f.body.ResponseData? ==> |c.encode(f)| == DataFrameLen(f.sequence, f.body.responseContent))
      && (f.body.Begin? && f.body.header == map[] ==>
            |c.encode(f)| == BeginFrameLen(f.sequence, f.body.beginInline))
  }

  /** Status messages have any length; the handler has to keep them under the frame bound. */
  ghost predicate EndsFit(c: Codec<ResponseFrame>, wire: seq<ResponseFrame>) {
    forall f :: f in wire && f.body.ResponseEnd? ==> |c.encode(f)| <= MAX_FRAME_SIZE
  }

  /** A frame the server may write. */
  predicate Written(f: ResponseFrame) {
    && InRange(f)
    && (f.body.ResponseData? ==> DataFrameLen(f.sequence, f.body.responseContent) <= MAX_FRAME_SIZE)
    && (f.body.Begin? ==>
          f.body.header == map[] && (f.body.beginInline.Some? ==> |f.body.beginInline.value| <= INLINE_MAX))
    && !f.body.NoResponse?
  }

  lemma BeginFits(s: nat, inline: Option<Bytes>)
    requires s < INT32_LIMIT && (inline.Some? ==> |inline.value| <= INLINE_MAX)
    ensures BeginFrameLen(s, inline) <= MAX_FRAME_SIZE
  {
    VarintBounds(s);
    VarintBounds(ScalarLen(s));
    if inline.Some? {
      VarintBounds(|inline.value|);
      VarintBounds(FieldLen(|inline.value|));
    }
  }

  lemma WrittenIsSendable(c: Codec<ResponseFrame>, wire: seq<ResponseFrame>, f: ResponseFrame)
    requires ProtobufResponses(c) && EndsFit(c, wire) && f in wire && Written(f)
    ensures Sendable(c, f)
  {
    hide DataFrameLen, BeginFrameLen;
    if f.body.Begin? {
      BeginFits(f.sequence, f.body.beginInline);
    }
  }

  predicate AllWritten(s: int, bodies: seq<Response>) {
    forall i :: 0 <= i < |bodies| ==> Written(Envelope(s, bodies[i]))
  }

  lemma ReplyIsWritten(s: int, headerSent: bool, payload: Bytes)
    requires 0 <= s < INT32_LIMIT && |payload| < INT32_LIMIT
    ensures AllWritten(s, ReplyBodies(headerSent, payload))
  {
    hide DataFrameLen;
    var cs := Contents(payload, TS_CHUNK_SIZE);
    forall i | 0 <= i < |cs| ensures Written(Envelope(s, ResponseData(cs[i]))) {
      DataFramesFit(s, payload, TS_CHUNK_SIZE, cs[i]);
    }
  }

  lemma EndIsWritten(s: int, status: Status)
    requires 0 <= s < INT32_LIMIT
    ensures AllWritten(s, [EndBody(status)])
  {
  }

  ghost predicate WritesInRange(sv: Server) {
    && (forall i :: 0 <= i < |sv.wire| ==> Written(sv.wire[i]))
    && (forall s :: s in sv.lanes ==> 0 <= s < INT32_LIMIT && AllWritten(s, sv.lanes[s].pending))
  }

  lemma {:induction false} RunWritesInRange(acts: seq<Act>)
    ensures WritesInRange(Run(acts))
    decreases |acts|
  {
    hide ReplyBodies, Written, EndBody;
    if acts != [] {
      RunWritesInRange(acts[..|acts| - 1]);
      var sv := Run(acts[..|acts| - 1]);
      match acts[|acts| - 1]
      case Start(s) =>
      case Reject(s, reason) => if 0 <= s < INT32_LIMIT { EndIsWritten(s, reason); }
      case Reply(s, payload) =>
        if Idle(sv, s) && |payload| < INT32_LIMIT {
          ReplyIsWritten(s, sv.lanes[s].headerSent, payload);
        }
      case Finish(s, status) => if Idle(sv, s) { EndIsWritten(s, status); }
      case Emit(s) =>
    }
  }

  lemma WireIsSendable(c: Codec<ResponseFrame>, acts: seq<Act>)
    requires ProtobufResponses(c) && EndsFit(c, Run(acts).wire)
    ensures forall f :: f in Run(acts).wire ==> Sendable(c, f)
  {
    RunWritesInRange(acts);
    var wire := Run(acts).wire;
    hide Run, Written, Sendable;
    forall f | f in wire ensures Sendable(c, f) {
      WrittenIsSendable(c, wire, f);
    }
  }

  // ---------------------------------------------------------------- the theorem

  /** The client's call against what its handler did. */
  ghost predicate Faithful(owed: seq<Bytes>, finished: Option<Status>, call: CallState) {
    var q := call.inbox;
    && q.log <= owed
    // end of stream only after everything, and with the handler's own status
    && (q.closed ==> finished.Some? && q.log == owed && call.status == finished)
    && (!q.closed ==> call.status == None)
    && (forall k: nat :: k < q.issued ==> (k in q.settled <==> k < |q.log| || q.closed))
    && (forall k: nat :: k < q.issued && k in q.settled ==> q.settled[k] == Answer(q.log, k))
  }

  lemma CallIsFaithful(early: Lane, lane: Lane, v: ReplyView, call: CallState)
    requires LaneInv(early, v) && Later(early, lane)
    requires Consistent(call.inbox) && call.inbox.log == v.st.log && call.inbox.closed == v.st.closed
    requires call.status == v.status && (v.st.live ==> v.status == None)
    ensures Faithful(Expected(lane), lane.finished, call)
  {
  }

  /** A live call has no status yet. */
  lemma {:induction false} LiveHasNoStatus(v: ReplyView, bodies: seq<Response>)
    requires v.st.live ==> v.status == None
    ensures RunReplies(v, bodies).st.live ==> RunReplies(v, bodies).status == None
    decreases |bodies|
  {
    hide FoldOne;
    if bodies != [] {
      LiveHasNoStatus(ReplyStep(v, bodies[0]), bodies[1..]);
    }
  }

  lemma ReceivedIsFaithful(acts: seq<Act>, n: nat, cl: Cli, s: int)
    requires n <= |acts| && s in Run(acts).lanes && s in cl.calls
    requires ViewOf(cl, s) == Seen(Run(acts[..n]), s) && QueuesConsistent(cl)
    ensures var lane := Run(acts).lanes[s];
            && Faithful(Expected(lane), lane.finished, cl.calls[s])
            && (n == |acts| ==> lane.resolved <= cl.calls[s].inbox.log)
            && (n == |acts| && lane.pending == [] ==>
                  cl.calls[s].inbox.log == Expected(lane) && cl.calls[s].status == lane.finished)
  {
    var early := Run(acts[..n]);
    assert n == |acts| ==> acts[..n] == acts;
    RunKeepsServer(acts[..n]);
    LiveHasNoStatus(READY, Project(early.wire, s));
    hide Run, RunReplies, ReplyStep, Consistent, Project, Faithful, LaneInv;
    if s in early.lanes {
      LanesAccumulate(acts, n, s);
      LaneFacts(early.lanes[s], Seen(early, s));
      CallIsFaithful(early.lanes[s], Run(acts).lanes[s], Seen(early, s), cl.calls[s]);
    } else {
      NothingSeen(early, s);
      UnansweredIsFaithful(Run(acts).lanes[s], cl.calls[s]);
    }
  }

  lemma LaneFacts(lane: Lane, v: ReplyView)
    requires LaneInv(lane, v)
    ensures lane.resolved <= v.st.log
    ensures lane.pending == [] ==> v == Goal(lane)
  {
  }

  lemma NothingSeen(sv: Server, s: int)
    requires Project(sv.wire, s) == []
    ensures Seen(sv, s) == READY
  {
  }

  lemma UnansweredIsFaithful(lane: Lane, call: CallState)
    requires Consistent(call.inbox) && call.inbox.log == [] && !call.inbox.closed && call.status == None
    ensures Faithful(Expected(lane), lane.finished, call)
  {
  }

  lemma FullyReceived(c: Codec<ResponseFrame>, wire: seq<ResponseFrame>, k: nat, rest: Bytes)
    requires k <= |wire| && rest + [] == Encoded(c, wire[k..])
    requires k < |wire| ==> |rest| < |Prefixed(c.encode(wire[k]))|
    ensures k == |wire|
  {
  }

  /** Where the call is opened: before any frame of its own is complete at the client. */
  predicate OpenedInTime(c: Codec<ResponseFrame>, events: seq<Arrival>, i: nat, s: int) {
    && i < |events| && events[i] == Opens(s) && Opens(s) !in events[..i]
    && Project(Feed(c, [], Segments(events[..i])).frames, s) == []
  }

  /** The theorem for lanes. */
  lemma LanesArrive(c: Codec<ResponseFrame>, acts: seq<Act>, events: seq<Arrival>, i: nat, later: Bytes, s: int)
    requires ProtobufResponses(c) && EndsFit(c, Run(acts).wire)
    requires Flatten(Segments(events)) + later == Encoded(c, Run(acts).wire)
    requires OpenedInTime(c, events, i, s) && s in Run(acts).lanes
    ensures WellFormed(UNUSED.cl)
    ensures var lane, next := Run(acts).lanes[s], RunNode(c, UNUSED, events).cl;
            && s in next.calls && Faithful(Expected(lane), lane.finished, next.calls[s])
            && (later == [] ==> lane.resolved <= next.calls[s].inbox.log)
            && (later == [] && lane.pending == [] ==>
                  next.calls[s].inbox.log == Expected(lane) && next.calls[s].status == lane.finished)
  {
    hide Run, RunNode, RunReplies, Project, Feed, Encoded, Flatten, Sendable, ReplyStep, Faithful, ViewOf;
    var wire := Run(acts).wire;
    WireIsSendable(c, acts);
    var segments := Segments(events);
    var k := PartialStream(c, wire, segments, later);
    SeesItsFramesSince(c, events, i, s);
    FramesSince(c, events, i, s);
    NodeKeepsQueues(c, UNUSED, events);
    var next := RunNode(c, UNUSED, events).cl;
    if later == [] {
      FullyReceived(c, wire, k, Feed(c, [], segments).rest);
      assert wire[..k] == wire && acts[..|acts|] == acts;
      ReceivedIsFaithful(acts, |acts|, next, s);
    } else {
      var n := WirePrefix(acts, k);
      ReceivedIsFaithful(acts, n, next, s);
    }
  }

  /** Opened in time, a call misses no frame of its own. */
  lemma FramesSince(c: Codec<ResponseFrame>, events: seq<Arrival>, i: nat, s: int)
    requires OpenedInTime(c, events, i, s)
    ensures var early := Feed(c, [], Segments(events[..i]));
            var late := Feed(c, early.rest, Segments(events[i + 1..]));
            Project(late.frames, s) == Project(Feed(c, [], Segments(events)).frames, s)
  {
    SeesItsFramesSince(c, events, i, s);
    hide Feed, Project;
    var early := Feed(c, [], Segments(events[..i]));
    var late := Feed(c, early.rest, Segments(events[i + 1..]));
    ProjectConcatenates(early.frames, late.frames, s);
    assert [] + Project(late.frames, s) == Project(late.frames, s);
  }

  /** For every run of the handlers, every cut of the byte stream and every interleaving with receive calls and
      with the opening of calls while responses of others are in flight: a call opened before its own first
      response frame has come in gets its handler's responses as a private FIFO, then the handler's status. */
  lemma ResponsesArrive(c: Codec<ResponseFrame>, acts: seq<Act>, events: seq<Arrival>, i: nat, later: Bytes, s: int)
    requires ProtobufResponses(c) && EndsFit(c, Run(acts).wire)
    requires Flatten(Segments(events)) + later == Encoded(c, Run(acts).wire)
    requires OpenedInTime(c, events, i, s) && History(acts, s).Some?
    ensures WellFormed(UNUSED.cl)
    ensures var t, next := History(acts, s).value, RunNode(c, UNUSED, events).cl;
            && s in next.calls && Faithful(Owed(t.sends), t.finished, next.calls[s])
            && (later == [] ==> Settled(t) <= next.calls[s].inbox.log)
            && (later == [] && t.written == |t.bodies| ==>
                  next.calls[s].inbox.log == Owed(t.sends) && next.calls[s].status == t.finished)
  {
    RunFollowsActs(acts, s);
    hide RunNode, Project, Faithful, Encoded, Flatten, Settled, Owed, History, Run, Feed, OpenedInTime;
    LanesArrive(c, acts, events, i, later, s);
  }

  lemma OwedIsEverything(sends: seq<Bytes>)
    ensures Owed(sends) == sends <==> sends == [] || sends[0] != []
  {
    if sends != [] && sends[0] == [] {
      assert |Owed(sends)| < |sends|;
    }
  }

  /** Once every byte has arrived and no frame is pending, the caller's queue has taken every response the handler
      sent, exactly unless the first one was empty. */
  lemma NothingIsLostExactly(c: Codec<ResponseFrame>, acts: seq<Act>, events: seq<Arrival>, i: nat, s: int)
    requires ProtobufResponses(c) && EndsFit(c, Run(acts).wire)
    requires Flatten(Segments(events)) == Encoded(c, Run(acts).wire)
    requires OpenedInTime(c, events, i, s) && History(acts, s).Some?
    requires History(acts, s).value.written == |History(acts, s).value.bodies|
    ensures WellFormed(UNUSED.cl)
    ensures var t, next := History(acts, s).value, RunNode(c, UNUSED, events).cl;
            s in next.calls && (next.calls[s].inbox.log == t.sends <==> t.sends == [] || t.sends[0] != [])
  {
    assert Flatten(Segments(events)) + [] == Flatten(Segments(events));
    ResponsesArrive(c, acts, events, i, [], s);
    OwedIsEverything(History(acts, s).value.sends);
    hide *;
  }
}
