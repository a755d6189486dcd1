/** What the Go server's handlers receive: a prefix of what the client sent on their sequence. */
module GoServerDelivery {
  import opened Wire
  import opened Sequences
  import opened Frames
  import opened Receiving
  import opened GoServer
  import Reassembly

  // ---------------------------------------------------------------- one sequence's payloads

  function First(inline: Option<Bytes>): seq<Bytes> {
    if inline.Some? then [inline.value] else []
  }

  /** The payloads carried by one sequence's requests, whatever the server has time for: `known` once its Call
      was accepted, `log` the payloads, `partial` the message being put together. */
  function Take(paths: set<string>, st: Stream, b: Request): Stream {
    match b
    case Call(path, inline) =>
      if path in paths && !st.known
      then st.(known := true, log := First(inline)) else st
    case Data(content) => var next := AbsorbOne(st, content); if st.known then next else next.(log := st.log)
    case End(_) => st
    case NoRequest => st
  }

  function Taking(paths: set<string>): (Stream, Request) -> Stream {
    (st: Stream, b: Request) => Take(paths, st, b)
  }

  function Taken(paths: set<string>, bodies: seq<Request>): Stream {
    AfterReading(Taking(paths), FRESH, bodies)
  }
  function Sent(paths: set<string>, m: Mux, s: int): Stream {
    Taken(paths, Project(m.processed, s))
  }

  /** The payload the serve loop holds while the stream's inbound channel is full. */
  function InHand(m: Mux, s: int): seq<Bytes> {
    if m.serve.Delivering? && m.serve.s == s then [m.serve.payload] else []
  }

  function Arrived(m: Mux, h: Handler, s: int): seq<Bytes> {
    h.received + h.inbound + InHand(m, s)
  }

  // ---------------------------------------------------------------- invariants

  /** The routed payloads are those sent, as long as the stream is in the map. */
  predicate Routed(m: Mux, s: int, sent: Stream) {
    && sent.partial == Reassembly.Lookup(m.reasm, s)
    && !sent.closed
    && (sent.known <==> s in m.handlers)
    && (s in m.handlers ==> m.handlers[s].log <= sent.log && (s in m.live ==> m.handlers[s].log == sent.log))
  }

  predicate Kept(m: Mux, s: int) {
    s in m.handlers ==>
      var h := m.handlers[s];
      && |h.inbound| <= INBOUND_CAPACITY
      && Subsequence(Arrived(m, h, s), h.log)
      && (!h.ctxDone ==> Arrived(m, h, s) == h.log)
  }

  predicate Targets(m: Mux) {
    m.live <= m.handlers.Keys && (m.serve.Delivering? || m.serve.Cancelling? ==> m.serve.s in m.handlers)
  }

  lemma TakenAppends(paths: set<string>, bodies: seq<Request>, b: Request)
    ensures Taken(paths, bodies + [b]) == Take(paths, Taken(paths, bodies), b)
  {
    ReadingAppends(Taking(paths), FRESH, bodies, b);
    hide AfterReading;
  }

  lemma ServeKeepsRouted(paths: set<string>, m: Mux, f: Frame, reason: Response, s: int, sent: Stream)
    requires Targets(m) && Routed(m, s, sent) && Admissible(m, f)
    ensures Routed(ServeFrame(paths, m, f, reason), s, if f.sequence == s then Take(paths, sent, f.body) else sent)
  {
    if f.body.Data? {
      DataKeepsRouted(paths, m, f, reason, s, sent);
      hide *;
    } else {
      hide AbsorbOne;
    }
  }

  lemma DeliverRoutes(m: Mux, s: int, payload: Bytes, u: int, sent: Stream)
    requires Targets(m) && Routed(m, u, sent)
    ensures Routed(Deliver(m, s, payload), u,
                   if u == s && sent.known then sent.(log := sent.log + [payload]) else sent)
  {
  }

  lemma DataKeepsRouted(paths: set<string>, m: Mux, f: Frame, reason: Response, s: int, sent: Stream)
    requires Targets(m) && Routed(m, s, sent) && f.body.Data?
    ensures Routed(ServeFrame(paths, m, f, reason), s, if f.sequence == s then Take(paths, sent, f.body) else sent)
  {
    hide Reassembly.FoldOne, Deliver;
    match f.body.content
    case Message(data) => DeliverRoutes(m, f.sequence, data, s, sent);
    case Piece(chunk) =>
      var (t, full) := Reassembly.Fold(m.reasm, f.sequence, chunk);
      var next := if f.sequence == s then sent.(partial := Reassembly.FoldOne(sent.partial, chunk).0) else sent;
      assert Routed(m.(reasm := t), s, next);
      if full.Some? { DeliverRoutes(m.(reasm := t), f.sequence, full.value, s, next); }
    case NoContent =>
  }

  lemma {:induction false} RunKeepsRouted(paths: set<string>, acts: seq<Act>, s: int)
    ensures Targets(Run(paths, acts)) && Routed(Run(paths, acts), s, Sent(paths, Run(paths, acts), s))
    decreases |acts|
  {
    RunKeepsMux(paths, acts);
    if acts != [] {
      var m, act := Run(paths, acts[..|acts| - 1]), acts[|acts| - 1];
      RunKeepsRouted(paths, acts[..|acts| - 1], s);
      if act.Serve? && m.serve == Reading && Admissible(m, act.frame) && act.reason.ResponseEnd? {
        hide ServeFrame;
        var n := ServeFrame(paths, m, act.frame, act.reason);
        ServeKeepsRouted(paths, m, act.frame, act.reason, s, Sent(paths, m, s));
        ProjectAppends(m.processed, act.frame, s);
        TakenAppends(paths, Project(m.processed, s), act.frame.body);
        ServeKeepsProcessed(paths, m, act.frame, act.reason);
        hide Routed, Take, Taken, Project, Admissible, MuxInv;
        assert Step(paths, m, act) == n.(processed := m.processed + [act.frame]);
        RoutedIgnoresHistory(n, m.processed + [act.frame], s, Sent(paths, Run(paths, acts), s));
      } else {
        OtherStepsKeepRouted(paths, m, act, s, Sent(paths, m, s));
        hide *;
      }
    } else {
      hide MuxInv;
    }
  }

  lemma RoutedIgnoresHistory(n: Mux, processed: seq<Frame>, s: int, sent: Stream)
    requires Routed(n, s, sent)
    ensures Routed(n.(processed := processed), s, sent)
  {
  }

  lemma ServeKeepsProcessed(paths: set<string>, m: Mux, f: Frame, reason: Response)
    ensures ServeFrame(paths, m, f, reason).processed == m.processed
  {
  }

  lemma OtherStepsKeepRouted(paths: set<string>, m: Mux, act: Act, s: int, sent: Stream)
    requires Targets(m) && Routed(m, s, sent)
    requires !(act.Serve? && m.serve == Reading && Admissible(m, act.frame) && act.reason.ResponseEnd?)
    ensures var n := Step(paths, m, act); Routed(n, s, sent) && n.processed == m.processed
  {
    if act.Serve? {
      hide ServeFrame, Admissible;
    } else if !OfSender(act) && !OfReceiver(act) {
      ServeStepIsStep(paths, m, act);
      ServeStepKeepsRouted(m, act, s, sent);
      hide Step, ServeStep, Routed, Targets;
    } else {
      HandlerStep(paths, m, act);
      HandlerKeepsRouted(m, Step(paths, m, act), act, s, sent);
      hide Step, Routed, Targets;
    }
  }

  lemma HandlerKeepsRouted(m: Mux, n: Mux, act: Act, s: int, sent: Stream)
    requires Targets(m) && Routed(m, s, sent) && (OfSender(act) || OfReceiver(act)) && OnlyHandler(m, n, act)
    ensures Routed(n, s, sent) && n.processed == m.processed
  {
    hide RecvStep, SameInbox;
  }

  lemma ServeStepKeepsRouted(m: Mux, act: Act, s: int, sent: Stream)
    requires Targets(m) && Routed(m, s, sent) && !act.Serve? && !OfSender(act) && !OfReceiver(act)
    ensures var n := ServeStep(m, act); Targets(n) && Routed(n, s, sent) && n.processed == m.processed
  {
  }

  // ---------------------------------------------------------------- between routing and Recv

  lemma Shift(received: seq<Bytes>, inbound: seq<Bytes>, hand: seq<Bytes>)
    requires inbound != []
    ensures (received + [inbound[0]]) + inbound[1..] + hand == received + inbound + hand
  {
  }

  lemma RecvKeeps(m: Mux, act: Act, s: int)
    requires OfReceiver(act) && s in m.handlers && Kept(m, s)
    ensures Kept(Set(m, s, RecvStep(m.handlers[s], act)), s)
  {
    var h, hand := m.handlers[s], InHand(m, s);
    var k := RecvStep(h, act);
    TakesFromInbound(h, act, hand);
    hide RecvStep, Subsequence;
    var n := Set(m, s, k);
    assert Arrived(n, n.handlers[s], s) == Arrived(m, h, s);
  }

  lemma TakesFromInbound(h: Handler, act: Act, hand: seq<Bytes>)
    ensures var k := RecvStep(h, act);
            && k.received + k.inbound + hand == h.received + h.inbound + hand
            && |k.inbound| <= |h.inbound| && k.log == h.log && (h.ctxDone ==> k.ctxDone)
  {
    if h.inbound != [] {
      Shift(h.received, h.inbound, hand);
    }
  }

  lemma DeliverKeeps(m: Mux, s: int, payload: Bytes)
    requires s in m.handlers && Kept(m, s) && m.serve == Reading
    ensures Kept(Deliver(m, s, payload), s)
  {
    var h := m.handlers[s];
    BothLonger(Arrived(m, h, s), h.log, payload);
    hide Subsequence;
    assert h.received + h.inbound + [payload] == (h.received + h.inbound + []) + [payload];
  }

  lemma ServeKeepsKept(paths: set<string>, m: Mux, f: Frame, reason: Response, s: int)
    requires Kept(m, s) && m.serve == Reading && Admissible(m, f) && Targets(m)
    ensures Kept(ServeFrame(paths, m, f, reason), s)
  {
    hide Subsequence, Reassembly.Fold;
    match f.body
    case Call(path, inline) =>
      if f.sequence == s && path in paths {
        var first := NewHandler(inline).log;
        Itself(first);
        assert [] + first + [] == first;
      }
    case Data(content) =>
      if s in m.handlers && f.sequence == s {
        DataKeepsKept(paths, m, f, reason, s);
      }
    case _ =>
  }

  lemma DataKeepsKept(paths: set<string>, m: Mux, f: Frame, reason: Response, s: int)
    requires f.body.Data? && f.sequence == s && s in m.handlers && Kept(m, s) && m.serve == Reading
    ensures Kept(ServeFrame(paths, m, f, reason), s)
  {
    hide Subsequence, Deliver, Kept, Reassembly.Fold;
    match f.body.content
    case Message(data) => DeliverKeeps(m, s, data);
    case Piece(chunk) =>
      var (t, full) := Reassembly.Fold(m.reasm, s, chunk);
      TableIsApart(m, t, s);
      if full.Some? {
        DeliverKeeps(m.(reasm := t), s, full.value);
      }
    case NoContent =>
  }

  lemma TableIsApart(m: Mux, t: Reassembly.Table, s: int)
    requires Kept(m, s)
    ensures Kept(m.(reasm := t), s)
  {
  }

  lemma PushKeeps(m: Mux, s: int)
    requires Kept(m, s) && m.serve.Delivering? && m.serve.s == s
    ensures Kept(ServeStep(m, ServePush), s)
  {
    if s in m.handlers {
      var h := m.handlers[s];
      hide Subsequence;
      assert h.received + (h.inbound + [m.serve.payload]) + [] == h.received + h.inbound + [m.serve.payload];
    }
  }

  lemma DropKeeps(m: Mux, s: int)
    requires Kept(m, s) && m.serve.Delivering? && m.serve.s == s
    ensures Kept(ServeStep(m, ServeDrop), s)
  {
    if s in m.handlers {
      var h := m.handlers[s];
      WithoutSuffix(h.received + h.inbound, [m.serve.payload], h.log);
      hide Subsequence;
      assert h.received + h.inbound + [] == h.received + h.inbound;
    }
  }

  lemma ServeStepKeepsKept(m: Mux, act: Act, s: int)
    requires Kept(m, s) && !act.Serve? && !OfSender(act) && !OfReceiver(act)
    ensures Kept(ServeStep(m, act), s)
  {
    if act.ServePush? && m.serve.Delivering? && m.serve.s == s {
      PushKeeps(m, s);
      hide *;
    } else if act.ServeDrop? && m.serve.Delivering? && m.serve.s == s {
      DropKeeps(m, s);
      hide *;
    } else {
      ElsewhereKeepsKept(m, act, s);
      hide *;
    }
  }

  lemma ElsewhereKeepsKept(m: Mux, act: Act, s: int)
    requires Kept(m, s) && !act.Serve? && !OfSender(act) && !OfReceiver(act)
    requires !((act.ServePush? || act.ServeDrop?) && m.serve.Delivering? && m.serve.s == s)
    ensures Kept(ServeStep(m, act), s)
  {
  }

  /** What Kept looks at. */
  lemma KeptDependsOn(m: Mux, n: Mux, s: int)
    requires Kept(m, s) && InHand(m, s) == InHand(n, s) && (s in n.handlers <==> s in m.handlers)
    requires s in m.handlers ==>
      var h, k := m.handlers[s], n.handlers[s];
      k.received == h.received && k.inbound == h.inbound && k.log == h.log && (h.ctxDone ==> k.ctxDone)
    ensures Kept(n, s)
  {
  }

  lemma StepKeepsKept(paths: set<string>, m: Mux, act: Act, s: int)
    requires Kept(m, s) && Targets(m)
    ensures Kept(Step(paths, m, act), s)
  {
    hide Kept, ServeFrame, ServeStep, SendStep, RecvStep, Admissible, Targets;
    if act.Serve? {
      if m.serve == Reading && Admissible(m, act.frame) && act.reason.ResponseEnd? {
        ServeKeepsKept(paths, m, act.frame, act.reason, s);
        KeptDependsOn(ServeFrame(paths, m, act.frame, act.reason), Step(paths, m, act), s);
      }
    } else if !OfSender(act) && !OfReceiver(act) {
      ServeStepKeepsKept(m, act, s);
    } else if act.s in m.handlers {
      if OfReceiver(act) && act.s == s {
        RecvKeeps(m, act, s);
      } else {
        HandlerStep(paths, m, act);
        hide Step, InHand;
        SameHand(m, Step(paths, m, act), s);
        KeptDependsOn(m, Step(paths, m, act), s);
      }
    }
  }

  lemma SameHand(m: Mux, n: Mux, s: int)
    requires n.serve == m.serve
    ensures InHand(n, s) == InHand(m, s)
  {
  }

  lemma {:induction false} RunKeepsKept(paths: set<string>, acts: seq<Act>, s: int)
    ensures Kept(Run(paths, acts), s)
    decreases |acts|
  {
    if acts != [] {
      RunKeepsKept(paths, acts[..|acts| - 1], s);
      RunKeepsRouted(paths, acts[..|acts| - 1], s);
      hide Kept, Routed, Targets, Step;
      StepKeepsKept(paths, Run(paths, acts[..|acts| - 1]), acts[|acts| - 1], s);
    }
  }

  /** Whatever the interleaving of serve loop, writer and handler: a handler has received a prefix of the payloads
      sent on its own sequence for as long as its context is live, and never more than a subsequence of them; the
      inbound channel holds at most 16; and nothing is missing once the loop and the channel are empty. */
  lemma DeliveryIsPrefix(paths: set<string>, acts: seq<Act>, s: int)
    requires s in Run(paths, acts).handlers
    ensures var m := Run(paths, acts);
            var h, sent := m.handlers[s], Sent(paths, m, s).log;
            && |h.inbound| <= INBOUND_CAPACITY
            && Subsequence(h.received, h.log) && h.log <= sent
            && (!h.ctxDone ==> h.received <= sent)
            && (!h.ctxDone && s in m.live && m.serve == Reading && h.inbound == [] ==> h.received == sent)
  {
    var m := Run(paths, acts);
    RunKeepsRouted(paths, acts, s);
    RunKeepsKept(paths, acts, s);
    hide Run, Taken, Project;
    var h := m.handlers[s];
    assert Arrived(m, h, s) == h.received + (h.inbound + InHand(m, s));
    WithoutSuffix(h.received, h.inbound + InHand(m, s), h.log);
    hide Subsequence;
  }

  // ---------------------------------------------------------------- what the Go client sends

  function DataRequests(payload: Bytes): seq<Request> {
    Requests(Contents(payload, GO_CHUNK_SIZE))
  }

  function AllDataRequests(payloads: seq<Bytes>): seq<Request>
    decreases |payloads|
  {
    if payloads == [] then [] else AllDataRequests(payloads[..|payloads| - 1]) + DataRequests(payloads[|payloads| - 1])
  }

  /** A half-close or a cancel may stand anywhere. */
  function WithoutEnds(bodies: seq<Request>): seq<Request>
    decreases |bodies|
  {
    if bodies == [] then [] else
    var front, last := WithoutEnds(bodies[..|bodies| - 1]), bodies[|bodies| - 1];
    if last.End? then front else front + [last]
  }

  lemma {:induction false} EndsCarryNothing(paths: set<string>, bodies: seq<Request>)
    ensures Taken(paths, bodies) == Taken(paths, WithoutEnds(bodies))
    decreases |bodies|
  {
    if bodies != [] {
      var front, last := bodies[..|bodies| - 1], bodies[|bodies| - 1];
      EndsCarryNothing(paths, front);
      if !last.End? {
        TakenAppends(paths, WithoutEnds(front), last);
      }
    }
  }

  predicate NoCalls(bodies: seq<Request>) {
    forall i :: 0 <= i < |bodies| ==> !bodies[i].Call?
  }

  lemma TakenGrows(paths: set<string>, bodies: seq<Request>, later: seq<Request>)
    requires NoCalls(later) && !Taken(paths, bodies).closed
    ensures Taken(paths, bodies).log <= Taken(paths, bodies + later).log && !Taken(paths, bodies + later).closed
  {
    hide Reassembly.FoldOne, AfterReading;
    assert AllOnlyAdd(Taking(paths), later);
    ReadingGrows(Taking(paths), FRESH, bodies, later);
  }

  lemma CallIsTaken(paths: set<string>, path: string, inline: Option<Bytes>)
    requires path in paths
    ensures Taken(paths, [Call(path, inline)]) == FRESH.(known := true, log := First(inline))
  {
    NothingTaken(paths);
  }

  lemma OneMorePayload(paths: set<string>, bodies: seq<Request>, payloads: seq<Bytes>, payload: Bytes)
    requires Taken(paths, bodies).known && Holds(Taken(paths, bodies), payloads)
    ensures var st := Taken(paths, bodies + DataRequests(payload)); st.known && Holds(st, payloads + [payload])
  {
    hide AbsorbOne, AfterReading;
    var wrap := (c: Content) => Data(c);
    ReadingPayload(Taking(paths), FRESH, bodies, wrap, payloads, payload, GO_CHUNK_SIZE);
    hide Contents;
    assert Wrapped(wrap, Contents(payload, GO_CHUNK_SIZE)) == DataRequests(payload);
  }

  predicate Delivers(st: Stream, payloads: seq<Bytes>) {
    st.known && Holds(st, payloads)
  }

  lemma Regroup<T>(a: seq<T>, b: seq<T>, c: seq<T>)
    ensures a + (b + c) == (a + b) + c
  {
  }

  lemma ExtendByOne(paths: set<string>, bodies: seq<Request>, sofar: seq<Bytes>, front: seq<Bytes>, last: Bytes)
    requires Delivers(Taken(paths, bodies + AllDataRequests(front)), sofar + front)
    ensures Delivers(Taken(paths, bodies + AllDataRequests(front + [last])), sofar + (front + [last]))
  {
    assert (front + [last])[..|front|] == front;
    assert AllDataRequests(front + [last]) == AllDataRequests(front) + DataRequests(last);
    hide Taken, AllDataRequests, DataRequests, Holds;
    OneMorePayload(paths, bodies + AllDataRequests(front), sofar + front, last);
    Regroup(bodies, AllDataRequests(front), DataRequests(last));
    Regroup(sofar, front, [last]);
  }

  lemma {:induction false} PayloadsAreTaken(paths: set<string>, bodies: seq<Request>, sofar: seq<Bytes>,
                                           payloads: seq<Bytes>)
    requires Delivers(Taken(paths, bodies), sofar)
    ensures Delivers(Taken(paths, bodies + AllDataRequests(payloads)), sofar + payloads)
    decreases |payloads|
  {
    hide Taken, DataRequests, Holds, Delivers;
    if payloads == [] {
      assert bodies + [] == bodies && sofar + [] == sofar;
    } else {
      hide AllDataRequests;
      var front, last := payloads[..|payloads| - 1], payloads[|payloads| - 1];
      PayloadsAreTaken(paths, bodies, sofar, front);
      ExtendByOne(paths, bodies, sofar, front, last);
      assert front + [last] == payloads;
    }
  }

  lemma {:induction false} DataRequestsHaveNoCall(payloads: seq<Bytes>)
    ensures NoCalls(AllDataRequests(payloads))
    decreases |payloads|
  {
    if payloads != [] {
      DataRequestsHaveNoCall(payloads[..|payloads| - 1]);
      hide Contents;
    }
  }

  /** End to end for one sequence: the server has read some first part of a client's frames on the sequence, with
      half-close or cancel anywhere; as long as its context is live the handler has received a first part of the
      payloads the client handed over, and all of them once everything has been read and taken out. */
  lemma RequestsArriveInOrder(paths: set<string>, acts: seq<Act>, s: int, path: string, inline: Option<Bytes>,
                              payloads: seq<Bytes>)
    requires s in Run(paths, acts).handlers && path in paths
    requires WithoutEnds(Project(Run(paths, acts).processed, s)) <= [Call(path, inline)] + AllDataRequests(payloads)
    ensures var m := Run(paths, acts);
            var h := m.handlers[s];
            var all := First(inline) + payloads;
            && (!h.ctxDone ==> h.received <= all)
            && (!h.ctxDone && s in m.live && m.serve == Reading && h.inbound == []
                && WithoutEnds(Project(m.processed, s)) == [Call(path, inline)] + AllDataRequests(payloads)
                ==> h.received == all)
  {
    var m := Run(paths, acts);
    var read := WithoutEnds(Project(m.processed, s));
    var everything := [Call(path, inline)] + AllDataRequests(payloads);
    DeliveryIsPrefix(paths, acts, s);
    EndsCarryNothing(paths, Project(m.processed, s));
    CallIsTaken(paths, path, inline);
    PayloadsAreTaken(paths, [Call(path, inline)], First(inline), payloads);
    DataRequestsHaveNoCall(payloads);
    var sent, all := Taken(paths, everything), First(inline) + payloads;
    assert sent.log == all;
    PartIsTaken(paths, read, everything);
    assert read == everything ==> Taken(paths, read).log == all;
    hide *;
  }

  lemma PartIsTaken(paths: set<string>, read: seq<Request>, everything: seq<Request>)
    requires read <= everything && everything != [] && NoCalls(everything[1..])
    ensures Taken(paths, read).log <= Taken(paths, everything).log
  {
    hide Taken;
    if read == [] {
      NothingTaken(paths);
    } else {
      assert everything == read + everything[|read|..];
      TakenNeverCloses(paths, read);
      TakenGrows(paths, read, everything[|read|..]);
    }
  }

  lemma NothingTaken(paths: set<string>)
    ensures Taken(paths, []) == FRESH
  {
  }

  lemma TakenNeverCloses(paths: set<string>, bodies: seq<Request>)
    ensures !Taken(paths, bodies).closed
  {
    hide Reassembly.FoldOne, AfterReading;
    ReadingStaysOpen(Taking(paths), FRESH, bodies);
  }
}
