/** The Go server connection: serve loop, handler goroutines and writer goroutine as one step machine. The
    connection is up throughout, each handler sends from one goroutine (it may receive from another), and the
    client opens each sequence with at most one Call. */
module GoServer {
  import opened Wire
  import opened Reassembly
  import opened Frames

  const OUT_CAPACITY: nat := 256
  const INBOUND_CAPACITY: nat := 16

  // ---------------------------------------------------------------- state

  /** Where a goroutine goes once its queued frames are on the wire. */
  datatype After = ToFree | ToDelete(final: Response) | ToDone

  /** Where the sending goroutine of a handler stands. Queueing hands over the first of `todo`; Waiting holds the
      done signal of the frame handed over last. */
  datatype Pc =
    | Free
    | Looked(payload: Bytes)
    | Queueing(todo: seq<Response>, after: After)
    | Waiting(ticket: nat, todo: seq<Response>, after: After)
    | EndLooked(found: bool, final: Response)
    | Deleting(final: Response)
    | Done

  /** `started` and `messages` record the sends that passed the stream lookup and those that passed the header
      flag, `final` the End frame once endStream has reached it, `log` the payloads routed to the stream, `eofs` the
      receives that returned EOF. */
  datatype Handler = Handler(
    header: Option<Metadata>, pc: Pc, started: nat, messages: seq<Bytes>, final: Option<Response>, cancelled: bool,
    inbound: seq<Bytes>, halfClosed: bool, ctxDone: bool, recvBlocked: bool, received: seq<Bytes>, eofs: nat,
    log: seq<Bytes>)

  datatype ServePc =
    | Reading
    | Delivering(s: int, payload: Bytes)
    | Cancelling(s: int)
    | Rejecting(s: int, final: Response)
    | RejectWaiting(s: int, ticket: nat)

  datatype OutFrame = OutFrame(frame: ResponseFrame, ticket: nat)

  /** `handlers` are all streams ever opened, `live` the keys of the streams map; `processed` records the frames
      read, `accepted` the frames put into the out channel, `acked` the done signals that are closed. */
  datatype Mux = Mux(
    handlers: map<int, Handler>, live: set<int>, rejected: set<int>, reasm: Table, serve: ServePc,
    out: seq<OutFrame>, acked: set<nat>, tickets: nat,
    processed: seq<Frame>, accepted: seq<ResponseFrame>, wire: seq<ResponseFrame>)

  const INITIAL: Mux := Mux(map[], {}, {}, map[], Reading, [], {}, 0, [], [], [])

  // ---------------------------------------------------------------- steps

  datatype Act =
    | Serve(frame: Frame, reason: Response)
    | ServePush | ServeDrop | ServeDelete | ServeEnqueue | ServeAcked
    | Write
    | Expire(s: int)
    | TrySend(s: int, payload: Bytes)
    | Flush(s: int, hdr: Metadata)
    | Enqueue(s: int) | Acked(s: int) | Advance(s: int)
    | Return(s: int, final: Response)
    | EndHeader(s: int, hdr: Metadata)
    | Delete(s: int)
    | RecvTry(s: int) | RecvTake(s: int) | RecvEof(s: int) | RecvCancelled(s: int)

  function Set(m: Mux, s: int, h: Handler): Mux {
    m.(handlers := m.handlers[s := h])
  }

  function NewHandler(inline: Option<Bytes>): Handler {
    var first := if inline.Some? then [inline.value] else [];
    Handler(None, Free, 0, [], None, false, first, false, false, false, [], 0, first)
  }

  /** The client uses each sequence for at most one Call. */
  predicate Admissible(m: Mux, f: Frame) {
    f.body.Call? ==> f.sequence !in m.handlers && f.sequence !in m.rejected
  }

  /** deliverPayload: look the stream up, then block on its inbound channel. */
  function Deliver(m: Mux, s: int, payload: Bytes): Mux {
    if s !in m.live || s !in m.handlers then m else
    Set(m, s, m.handlers[s].(log := m.handlers[s].log + [payload])).(serve := Delivering(s, payload))
  }

  function ServeFrame(paths: set<string>, m: Mux, f: Frame, reason: Response): Mux {
    var s := f.sequence;
    match f.body
    case Call(path, inline) =>
      if path in paths then Set(m, s, NewHandler(inline)).(live := m.live + {s})
      else m.(rejected := m.rejected + {s}, serve := Rejecting(s, reason))
    case Data(content) =>
      (match content
       case Message(data) => Deliver(m, s, data)
       case Piece(chunk) =>
         var (t, full) := Fold(m.reasm, s, chunk);
         if full.Some? then Deliver(m.(reasm := t), s, full.value) else m.(reasm := t)
       case NoContent => m)
    case End(closeSend) =>
      if s !in m.live || s !in m.handlers then m
      else if closeSend then Set(m, s, m.handlers[s].(halfClosed := true))
      else Set(m, s, m.handlers[s].(ctxDone := true)).(serve := Cancelling(s))
    case NoRequest => m
  }

  /** Puts a frame into the out channel with a fresh done signal. */
  function PutOut(m: Mux, f: ResponseFrame): Mux {
    m.(out := m.out + [OutFrame(f, m.tickets)], tickets := m.tickets + 1, accepted := m.accepted + [f])
  }

  function ServeStep(m: Mux, act: Act): Mux {
    match act
    case ServePush =>
      if !m.serve.Delivering? || m.serve.s !in m.handlers then m else
      var h := m.handlers[m.serve.s];
      if |h.inbound| >= INBOUND_CAPACITY then m else
      Set(m, m.serve.s, h.(inbound := h.inbound + [m.serve.payload])).(serve := Reading)
    case ServeDrop =>
      if !m.serve.Delivering? || m.serve.s !in m.handlers || !m.handlers[m.serve.s].ctxDone then m
      else m.(serve := Reading)
    case ServeDelete =>
      if !m.serve.Cancelling? || m.serve.s !in m.handlers then m else
      Set(m, m.serve.s, m.handlers[m.serve.s].(cancelled := true))
        .(live := m.live - {m.serve.s}, serve := Reading)
    case ServeEnqueue =>
      if !m.serve.Rejecting? || |m.out| >= OUT_CAPACITY then m else
      PutOut(m, Envelope(m.serve.s, m.serve.final)).(serve := RejectWaiting(m.serve.s, m.tickets))
    case ServeAcked =>
      if !m.serve.RejectWaiting? || m.serve.ticket !in m.acked then m else m.(serve := Reading)
    case Write =>
      if m.out == [] then m else
      m.(wire := m.wire + [m.out[0].frame], acked := m.acked + {m.out[0].ticket}, out := m.out[1..])
    case _ => m
  }

  /** The goroutine that sends: ServerStream.Send, flushBeginOnce, queue, and runHandler's endStream. */
  function SendStep(live: bool, acked: set<nat>, h: Handler, act: Act): Handler {
    match act
    case TrySend(_, payload) =>
      if h.pc != Free || !live then h else h.(pc := Looked(payload), started := h.started + 1)
    case Flush(_, hdr) =>
      if !h.pc.Looked? then h else
      var data := DataBodies(h.pc.payload);
      h.(header := Some(if h.header.Some? then h.header.value else hdr), messages := h.messages + [h.pc.payload],
         pc := Queueing(if h.header.Some? then data else [Begin(hdr, None)] + data, ToFree))
    case Acked(_) =>
      if !h.pc.Waiting? || h.pc.ticket !in acked then h else h.(pc := Queueing(h.pc.todo, h.pc.after))
    case Advance(_) =>
      if !h.pc.Queueing? || h.pc.todo != [] then h else
      (match h.pc.after
       case ToFree => h.(pc := Free)
       case ToDelete(final) => h.(pc := Deleting(final))
       case ToDone => h.(pc := Done, ctxDone := true))
    case Return(_, final) => if h.pc != Free then h else h.(pc := EndLooked(live, final))
    case EndHeader(_, hdr) =>
      if !h.pc.EndLooked? then h
      else if h.pc.found && h.header == None then
        h.(header := Some(hdr), pc := Queueing([Begin(hdr, None)], ToDelete(h.pc.final)))
      else h.(pc := Deleting(h.pc.final))
    case Delete(_) =>
      if !h.pc.Deleting? then h else h.(final := Some(h.pc.final), pc := Queueing([h.pc.final], ToDone))
    case _ => h
  }

  /** The deadline, and the goroutine that receives: a non-blocking look first, then a select that may pick any
      ready case. */
  function RecvStep(h: Handler, act: Act): Handler {
    match act
    case Expire(_) => h.(ctxDone := true)
    case RecvTry(_) =>
      if h.recvBlocked then h
      else if h.inbound != [] then h.(received := h.received + [h.inbound[0]], inbound := h.inbound[1..])
      else h.(recvBlocked := true)
    case RecvTake(_) =>
      if !h.recvBlocked || h.inbound == [] then h else
      h.(recvBlocked := false, received := h.received + [h.inbound[0]], inbound := h.inbound[1..])
    case RecvEof(_) => if !h.recvBlocked || !h.halfClosed then h else h.(recvBlocked := false, eofs := h.eofs + 1)
    case RecvCancelled(_) => if !h.recvBlocked || !h.ctxDone then h else h.(recvBlocked := false)
    case _ => h
  }

  predicate OfSender(act: Act) {
    act.TrySend? || act.Flush? || act.Enqueue? || act.Acked? || act.Advance? || act.Return? || act.EndHeader?
    || act.Delete?
  }

  predicate OfReceiver(act: Act) {
    act.Expire? || act.RecvTry? || act.RecvTake? || act.RecvEof? || act.RecvCancelled?
  }

  function Step(paths: set<string>, m: Mux, act: Act): Mux {
    if act.Serve? then
      if m.serve != Reading || !Admissible(m, act.frame) || !act.reason.ResponseEnd? then m
      else ServeFrame(paths, m, act.frame, act.reason).(processed := m.processed + [act.frame])
    else if !OfSender(act) && !OfReceiver(act) then ServeStep(m, act)
    else if act.s !in m.handlers then m
    else if OfReceiver(act) then Set(m, act.s, RecvStep(m.handlers[act.s], act))
    else
      var s, h := act.s, m.handlers[act.s];
      if act.Enqueue? then
        if !h.pc.Queueing? || h.pc.todo == [] || |m.out| >= OUT_CAPACITY then m else
        PutOut(Set(m, s, h.(pc := Waiting(m.tickets, h.pc.todo[1..], h.pc.after))), Envelope(s, h.pc.todo[0]))
      else if act.Return? && !act.final.ResponseEnd? then m
      else
        var next := Set(m, s, SendStep(s in m.live, m.acked, h, act));
        if act.Delete? && h.pc.Deleting? then next.(live := m.live - {s}) else next
  }

  function Run(paths: set<string>, acts: seq<Act>): Mux
    decreases |acts|
  {
    if acts == [] then INITIAL else Step(paths, Run(paths, acts[..|acts| - 1]), acts[|acts| - 1])
  }

  // ---------------------------------------------------------------- what a stream may put on the wire

  function AllData(messages: seq<Bytes>): seq<Response>
    decreases |messages|
  {
    if messages == [] then [] else AllData(messages[..|messages| - 1]) + DataBodies(messages[|messages| - 1])
  }

  /** Everything the handler has committed itself to write: its header, its messages, its End. */
  function Script(h: Handler): seq<Response> {
    ScriptOf(h.header, h.messages, h.final)
  }

  function ScriptOf(header: Option<Metadata>, messages: seq<Bytes>, final: Option<Response>): seq<Response> {
    (if header.Some? then [Begin(header.value, None)] else []) + AllData(messages)
    + (if final.Some? then [final.value] else [])
  }

  function Todo(pc: Pc): seq<Response> {
    if pc.Queueing? || pc.Waiting? then pc.todo else []
  }

  /** endStream has reached its End frame. */
  predicate PastDelete(pc: Pc) {
    pc == Done || ((pc.Queueing? || pc.Waiting?) && pc.after == ToDone)
  }

  predicate HeaderDecided(pc: Pc) {
    pc.Deleting? || ((pc.Queueing? || pc.Waiting?) && pc.after.ToDelete?)
  }

  predicate PcCarriesEnd(pc: Pc) {
    && (pc.EndLooked? || pc.Deleting? ==> pc.final.ResponseEnd?)
    && ((pc.Queueing? || pc.Waiting?) && pc.after.ToDelete? ==> pc.after.final.ResponseEnd?)
  }

  /** Frames accepted so far and frames still to be handed over make up the script. */
  predicate Accounted(h: Handler, emitted: seq<Response>) {
    emitted + Todo(h.pc) == Script(h)
  }

  predicate FlagsAgree(h: Handler, live: bool) {
    && (h.header == None ==> h.messages == [])
    && h.started == |h.messages| + (if h.pc.Looked? then 1 else 0)
    && (h.final.Some? <==> PastDelete(h.pc))
    && (h.final.Some? ==> h.final.value.ResponseEnd?)
    && PcCarriesEnd(h.pc)
    && (!live <==> h.cancelled || h.final.Some?)
    && (h.pc.EndLooked? && !h.pc.found ==> h.cancelled)
    && ((HeaderDecided(h.pc) || PastDelete(h.pc)) && !h.cancelled ==> h.header.Some?)
  }

  lemma FlushExtends(h: Handler, payload: Bytes, hdr: Metadata)
    requires h.final == None && (h.header == None ==> h.messages == [])
    ensures var data := DataBodies(payload);
            var header := Some(if h.header.Some? then h.header.value else hdr);
            var next := h.(header := header, messages := h.messages + [payload]);
            Script(next) == Script(h) + if h.header.Some? then data else [Begin(hdr, None)] + data
  {
  }

  lemma HeaderExtends(h: Handler, hdr: Metadata)
    requires h.final == None && h.header == None && h.messages == []
    ensures Script(h.(header := Some(hdr))) == Script(h) + [Begin(hdr, None)]
  {
  }

  lemma EndExtends(h: Handler, final: Response)
    requires h.final == None
    ensures Script(h.(final := Some(final))) == Script(h) + [final]
  {
  }

  ghost predicate HandlerInv(h: Handler, live: bool, emitted: seq<Response>) {
    Accounted(h, emitted) && FlagsAgree(h, live)
  }

  /** The step commits the handler to the frames it has to hand over next. */
  lemma CommittedStep(h: Handler, live: bool, acked: set<nat>, act: Act)
    requires FlagsAgree(h, live)
    requires (act.Flush? && h.pc.Looked?) || (act.Delete? && h.pc.Deleting?)
             || (act.EndHeader? && h.pc.EndLooked? && h.pc.found && h.header == None)
    ensures var next := SendStep(live, acked, h, act);
            Todo(h.pc) == [] && Script(next) == Script(h) + Todo(next.pc)
  {
    hide DataBodies, ScriptOf;
    if act.Flush? {
      FlushExtends(h, h.pc.payload, act.hdr);
      hide FlagsAgree;
      var data := DataBodies(h.pc.payload);
      assert Todo(SendStep(live, acked, h, act).pc) == if h.header.Some? then data else [Begin(act.hdr, None)] + data;
    } else if act.EndHeader? {
      HeaderExtends(h, act.hdr);
      hide FlagsAgree;
    } else {
      EndExtends(h, h.pc.final);
      hide FlagsAgree;
    }
  }

  lemma Settle(h: Handler, next: Handler, emitted: seq<Response>)
    requires Accounted(h, emitted) && Todo(h.pc) == [] && Script(next) == Script(h) + Todo(next.pc)
    ensures Accounted(next, emitted)
  {
    hide Script, Todo;
    assert emitted + [] == emitted;
  }

  lemma StepKeepsAccount(h: Handler, live: bool, acked: set<nat>, act: Act, emitted: seq<Response>)
    requires HandlerInv(h, live, emitted)
    ensures Accounted(SendStep(live, acked, h, act), emitted)
  {
    assert Accounted(h, emitted) && FlagsAgree(h, live);
    hide Accounted, FlagsAgree, SendStep, Script, Todo;
    if (act.Flush? && h.pc.Looked?) || (act.Delete? && h.pc.Deleting?)
       || (act.EndHeader? && h.pc.EndLooked? && h.pc.found && h.header == None) {
      CommittedStep(h, live, acked, act);
      Settle(h, SendStep(live, acked, h, act), emitted);
    } else {
      QuietStep(h, live, acked, act);
      StillAccounted(h, SendStep(live, acked, h, act), emitted);
    }
  }

  lemma StillAccounted(h: Handler, next: Handler, emitted: seq<Response>)
    requires Accounted(h, emitted) && Todo(h.pc) == Todo(next.pc) && Script(next) == Script(h)
    ensures Accounted(next, emitted)
  {
    hide Script, Todo;
  }

  lemma QuietStep(h: Handler, live: bool, acked: set<nat>, act: Act)
    requires !(act.Flush? && h.pc.Looked?) && !(act.Delete? && h.pc.Deleting?)
    requires !(act.EndHeader? && h.pc.EndLooked? && h.pc.found && h.header == None)
    ensures var next := SendStep(live, acked, h, act);
            Script(next) == Script(h) && Todo(next.pc) == Todo(h.pc)
  {
    hide DataBodies, ScriptOf;
  }

  lemma StepKeepsFlags(h: Handler, live: bool, acked: set<nat>, act: Act)
    requires FlagsAgree(h, live)
    requires act.Return? ==> act.final.ResponseEnd?
    ensures FlagsAgree(SendStep(live, acked, h, act), live && !(act.Delete? && h.pc.Deleting?))
  {
    if act.TrySend? || act.Flush? || act.Acked? || act.Advance? {
      SendingKeepsFlags(h, live, acked, act);
    } else {
      EndingKeepsFlags(h, live, acked, act);
    }
    hide *;
  }

  lemma SendingKeepsFlags(h: Handler, live: bool, acked: set<nat>, act: Act)
    requires FlagsAgree(h, live) && (act.TrySend? || act.Flush? || act.Acked? || act.Advance?)
    ensures FlagsAgree(SendStep(live, acked, h, act), live)
  {
    hide DataBodies;
  }

  lemma EndingKeepsFlags(h: Handler, live: bool, acked: set<nat>, act: Act)
    requires FlagsAgree(h, live) && !(act.TrySend? || act.Flush? || act.Acked? || act.Advance?)
    requires act.Return? ==> act.final.ResponseEnd?
    ensures FlagsAgree(SendStep(live, acked, h, act), live && !(act.Delete? && h.pc.Deleting?))
  {
    hide DataBodies;
  }

  lemma SendStepKeeps(h: Handler, live: bool, acked: set<nat>, act: Act, emitted: seq<Response>)
    requires HandlerInv(h, live, emitted)
    requires act.Return? ==> act.final.ResponseEnd?
    ensures HandlerInv(SendStep(live, acked, h, act), live && !(act.Delete? && h.pc.Deleting?), emitted)
  {
    hide Accounted, FlagsAgree, SendStep;
    StepKeepsAccount(h, live, acked, act, emitted);
    StepKeepsFlags(h, live, acked, act);
  }

  lemma RecvStepKeeps(h: Handler, live: bool, act: Act, emitted: seq<Response>)
    requires HandlerInv(h, live, emitted)
    ensures HandlerInv(RecvStep(h, act), live, emitted)
  {
    hide ScriptOf;
  }

  // ---------------------------------------------------------------- the whole connection

  function FramesOf(out: seq<OutFrame>): (fs: seq<ResponseFrame>)
    ensures |fs| == |out|
  {
    seq(|out|, i requires 0 <= i < |out| => out[i].frame)
  }

  /** A sequence without handler got one End, or is about to. */
  predicate RejectedOnce(serve: ServePc, s: int, emitted: seq<Response>) {
    if serve.Rejecting? && serve.s == s then emitted == [] && serve.final.ResponseEnd?
    else |emitted| == 1 && emitted[0].ResponseEnd?
  }

  predicate ServeTargetsKnown(m: Mux) {
    match m.serve
    case Reading => true
    case Delivering(s, _) => s in m.handlers
    case Cancelling(s) => s in m.handlers
    case Rejecting(s, _) => s in m.rejected
    case RejectWaiting(s, _) => s in m.rejected
  }

  ghost predicate MuxInv(m: Mux) {
    && m.live <= m.handlers.Keys
    && m.rejected !! m.handlers.Keys
    && ServeTargetsKnown(m)
    && m.accepted == m.wire + FramesOf(m.out)
    && (forall s :: s in m.handlers ==> HandlerInv(m.handlers[s], s in m.live, Project(m.accepted, s)))
    && (forall s :: s in m.rejected ==> RejectedOnce(m.serve, s, Project(m.accepted, s)))
    && (forall s :: s !in m.handlers && s !in m.rejected ==> Project(m.accepted, s) == [])
  }

  lemma NewHandlerInv(inline: Option<Bytes>)
    ensures HandlerInv(NewHandler(inline), true, [])
  {
  }

  lemma InboundKeepsHandler(h: Handler, live: bool, emitted: seq<Response>)
    requires HandlerInv(h, live, emitted)
    ensures forall log :: HandlerInv(h.(log := log), live, emitted)
    ensures HandlerInv(h.(halfClosed := true), live, emitted) && HandlerInv(h.(ctxDone := true), live, emitted)
    ensures forall inbound :: HandlerInv(h.(inbound := inbound), live, emitted)
    ensures HandlerInv(h.(cancelled := true), false, emitted)
  {
    hide ScriptOf;
  }

  lemma ServeKeepsMux(paths: set<string>, m: Mux, f: Frame, reason: Response)
    requires MuxInv(m) && m.serve == Reading && Admissible(m, f) && reason.ResponseEnd?
    ensures MuxInv(ServeFrame(paths, m, f, reason))
  {
    if f.body.Call? {
      CallKeepsMux(paths, m, f, reason);
    } else if f.body.Data? {
      DataKeepsMux(paths, m, f, reason);
    } else {
      EndKeepsMux(paths, m, f, reason);
    }
    hide *;
  }

  lemma CallKeepsMux(paths: set<string>, m: Mux, f: Frame, reason: Response)
    requires MuxInv(m) && m.serve == Reading && Admissible(m, f) && reason.ResponseEnd? && f.body.Call?
    ensures MuxInv(ServeFrame(paths, m, f, reason))
  {
    hide Fold, Project, FramesOf, HandlerInv, Deliver;
    NewHandlerInv(f.body.inline);
  }

  lemma DeliverKeepsMux(m: Mux, s: int, payload: Bytes)
    requires MuxInv(m) && m.serve == Reading
    ensures MuxInv(Deliver(m, s, payload))
  {
    hide Project, FramesOf, HandlerInv;
    if s in m.live {
      InboundKeepsHandler(m.handlers[s], true, Project(m.accepted, s));
    }
  }

  lemma DataKeepsMux(paths: set<string>, m: Mux, f: Frame, reason: Response)
    requires MuxInv(m) && m.serve == Reading && f.body.Data?
    ensures MuxInv(ServeFrame(paths, m, f, reason))
  {
    hide Fold, Project, FramesOf, HandlerInv, Deliver;
    match f.body.content
    case Message(data) => DeliverKeepsMux(m, f.sequence, data);
    case Piece(chunk) =>
      var (t, full) := Fold(m.reasm, f.sequence, chunk);
      assert MuxInv(m.(reasm := t));
      if full.Some? { DeliverKeepsMux(m.(reasm := t), f.sequence, full.value); }
    case NoContent =>
  }

  lemma EndKeepsMux(paths: set<string>, m: Mux, f: Frame, reason: Response)
    requires MuxInv(m) && m.serve == Reading && !f.body.Call? && !f.body.Data?
    ensures MuxInv(ServeFrame(paths, m, f, reason))
  {
    hide Fold, Project, FramesOf, HandlerInv, Deliver;
    var s := f.sequence;
    if s in m.live {
      InboundKeepsHandler(m.handlers[s], true, Project(m.accepted, s));
    }
  }

  /** Only the frame's own sequence sees a frame put into the out channel. */
  lemma PutOutProjects(m: Mux, f: ResponseFrame)
    requires m.accepted == m.wire + FramesOf(m.out)
    ensures var n := PutOut(m, f);
            && n.accepted == n.wire + FramesOf(n.out)
            && forall s :: Project(n.accepted, s) ==
                 if s == f.sequence then Project(m.accepted, s) + [f.body] else Project(m.accepted, s)
  {
  }

  lemma ServeStepKeepsMux(m: Mux, act: Act)
    requires MuxInv(m) && !act.Serve? && !OfSender(act) && !OfReceiver(act)
    ensures MuxInv(ServeStep(m, act))
  {
    hide Project, FramesOf, HandlerInv;
    match act
    case ServeEnqueue =>
      if m.serve.Rejecting? { PutOutProjects(m, Envelope(m.serve.s, m.serve.final)); }
    case Write => if m.out != [] { WriteMoves(m); }
    case ServePush => InboxKeepsMux(m, act);
    case ServeDelete => InboxKeepsMux(m, act);
    case _ =>
  }

  lemma InboxKeepsMux(m: Mux, act: Act)
    requires MuxInv(m) && (act.ServePush? || act.ServeDelete?)
    ensures MuxInv(ServeStep(m, act))
  {
    hide Project, FramesOf, HandlerInv;
    if (m.serve.Delivering? || m.serve.Cancelling?) && m.serve.s in m.handlers {
      InboundKeepsHandler(m.handlers[m.serve.s], m.serve.s in m.live, Project(m.accepted, m.serve.s));
    }
  }

  lemma WriteMoves(m: Mux)
    requires m.accepted == m.wire + FramesOf(m.out) && m.out != []
    ensures m.accepted == (m.wire + [m.out[0].frame]) + FramesOf(m.out[1..])
  {
  }

  lemma EnqueueKeepsHandler(h: Handler, live: bool, ticket: nat, emitted: seq<Response>)
    requires HandlerInv(h, live, emitted) && h.pc.Queueing? && h.pc.todo != []
    ensures HandlerInv(h.(pc := Waiting(ticket, h.pc.todo[1..], h.pc.after)), live, emitted + [h.pc.todo[0]])
  {
  }

  lemma StepKeepsMux(paths: set<string>, m: Mux, act: Act)
    requires MuxInv(m)
    ensures MuxInv(Step(paths, m, act))
  {
    hide Project, ScriptOf, FramesOf, HandlerInv, ServeFrame, ServeStep, SendStep, RecvStep;
    if act.Serve? {
      if m.serve == Reading && Admissible(m, act.frame) && act.reason.ResponseEnd? {
        ServeKeepsMux(paths, m, act.frame, act.reason);
      }
    } else if !OfSender(act) && !OfReceiver(act) {
      ServeStepKeepsMux(m, act);
    } else if act.s in m.handlers {
      var s, h := act.s, m.handlers[act.s];
      if OfReceiver(act) {
        RecvStepKeeps(h, s in m.live, act, Project(m.accepted, s));
      } else if act.Enqueue? {
        if h.pc.Queueing? && h.pc.todo != [] && |m.out| < OUT_CAPACITY {
          var w := Set(m, s, h.(pc := Waiting(m.tickets, h.pc.todo[1..], h.pc.after)));
          PutOutProjects(w, Envelope(s, h.pc.todo[0]));
          EnqueueKeepsHandler(h, s in m.live, m.tickets, Project(m.accepted, s));
        }
      } else if !(act.Return? && !act.final.ResponseEnd?) {
        SendStepKeeps(h, s in m.live, m.acked, act, Project(m.accepted, s));
      }
    }
  }

  /** What the receiving goroutine and the serve loop see of a handler. */
  predicate SameInbox(h: Handler, n: Handler) {
    && n.inbound == h.inbound && n.received == h.received && n.log == h.log && n.eofs == h.eofs
    && n.halfClosed == h.halfClosed && n.recvBlocked == h.recvBlocked && (h.ctxDone ==> n.ctxDone)
  }

  lemma SenderKeepsInbox(live: bool, acked: set<nat>, h: Handler, act: Act)
    ensures SameInbox(h, SendStep(live, acked, h, act)) && SendStep(live, acked, h, act).log == h.log
  {
    hide DataBodies;
  }

  /** A step of one handler's goroutines touches that handler, the map entry and the out channel at most. */
  predicate OnlyHandler(m: Mux, n: Mux, act: Act)
    requires OfSender(act) || OfReceiver(act)
  {
    && n.serve == m.serve && n.processed == m.processed && n.reasm == m.reasm && n.live <= m.live
    && n.handlers.Keys == m.handlers.Keys
    && (forall k :: k in m.handlers && k != act.s ==> n.handlers[k] == m.handlers[k])
    && (act.s in m.handlers ==>
          && n.handlers[act.s].log == m.handlers[act.s].log
          && if OfReceiver(act) then n.handlers[act.s] == RecvStep(m.handlers[act.s], act)
             else SameInbox(m.handlers[act.s], n.handlers[act.s]))
  }

  lemma ServeStepIsStep(paths: set<string>, m: Mux, act: Act)
    requires !act.Serve? && !OfSender(act) && !OfReceiver(act)
    ensures Step(paths, m, act) == ServeStep(m, act)
  {
    hide ServeStep;
  }

  lemma EnqueueStep(paths: set<string>, m: Mux, act: Act)
    requires act.Enqueue?
    ensures OnlyHandler(m, Step(paths, m, act), act)
  {
  }

  lemma SendingStepSets(paths: set<string>, m: Mux, act: Act)
    requires OfSender(act) && !act.Enqueue?
    ensures var n := Step(paths, m, act);
            n == m ||
            (act.s in m.handlers && n.live <= m.live &&
             var next := SendStep(act.s in m.live, m.acked, m.handlers[act.s], act);
             n == Set(m, act.s, next).(live := n.live))
  {
    hide SendStep;
  }

  lemma SendingStep(paths: set<string>, m: Mux, act: Act)
    requires OfSender(act) && !act.Enqueue?
    ensures OnlyHandler(m, Step(paths, m, act), act)
  {
    SendingStepSets(paths, m, act);
    hide Step, SendStep, RecvStep, SameInbox;
    SameInboxAsBefore(m, act);
    if act.s in m.handlers {
      SenderKeepsInbox(act.s in m.live, m.acked, m.handlers[act.s], act);
    }
  }

  lemma SameInboxAsBefore(m: Mux, act: Act)
    requires OfSender(act)
    ensures act.s in m.handlers ==> SameInbox(m.handlers[act.s], m.handlers[act.s])
  {
  }

  lemma ReceivingStep(paths: set<string>, m: Mux, act: Act)
    requires OfReceiver(act)
    ensures OnlyHandler(m, Step(paths, m, act), act)
  {
    if act.s in m.handlers { RecvKeepsLog(m.handlers[act.s], act); }
    hide RecvStep;
  }

  lemma RecvKeepsLog(h: Handler, act: Act)
    ensures RecvStep(h, act).log == h.log
  {
  }

  lemma HandlerStep(paths: set<string>, m: Mux, act: Act)
    requires OfSender(act) || OfReceiver(act)
    ensures OnlyHandler(m, Step(paths, m, act), act)
  {
    if act.Enqueue? {
      EnqueueStep(paths, m, act);
    } else if OfSender(act) {
      SendingStep(paths, m, act);
    } else {
      ReceivingStep(paths, m, act);
    }
    hide *;
  }

  lemma RunAppends(paths: set<string>, acts: seq<Act>, act: Act)
    ensures Run(paths, acts + [act]) == Step(paths, Run(paths, acts), act)
  {
    assert (acts + [act])[..|acts|] == acts;
    hide Step;
  }

  lemma {:induction false} RunKeepsMux(paths: set<string>, acts: seq<Act>)
    ensures MuxInv(Run(paths, acts))
    decreases |acts|
  {
    if acts == [] {
      assert FramesOf([]) == [];
    } else {
      RunKeepsMux(paths, acts[..|acts| - 1]);
      hide MuxInv, Step;
      StepKeepsMux(paths, Run(paths, acts[..|acts| - 1]), acts[|acts| - 1]);
    }
  }
}
