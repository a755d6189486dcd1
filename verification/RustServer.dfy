/** The Rust server: its serve loop against handlers that receive, and send from any number of tasks. */
module RustServer {
  import opened Wire
  import opened Mailboxes
  import opened Frames
  import opened Receiving
  import Reassembly
  import Sequences
  import opened GoServerWire

  const INBOUND_CAPACITY: nat := 16

  // ---------------------------------------------------------------- state

  /** `dropped` once the map lets go of the channel's sender; `gone` once the handler lets go of its receiver: what
      waits then stays unread, and `refused` records the payloads that came later. `eofs` counts receives that
      returned None; `tasks` are the frames each send under way has yet to queue. */
  datatype Handler = Handler(inbound: Mailbox<Bytes>, dropped: bool, gone: bool, refused: seq<Bytes>, eofs: nat,
                             headerSent: bool, tasks: map<int, seq<Response>>, ended: bool)

  /** `processed` records the frames handled, `queued` the frames put into the unbounded response channel, of which
      the serve loop has written the first `written`. */
  datatype Server = Server(handlers: map<int, Handler>, rejected: set<int>, reasm: Reassembly.Table,
                           processed: seq<Frame>, queued: seq<ResponseFrame>, written: nat)

  const INITIAL: Server := Server(map[], {}, map[], [], [], 0)
  const BEGIN: Response := Begin(map[], None)

  datatype Act =
    | Serve(frame: Frame, reason: Response)
    | Write
    | Recv(s: int)
    | Release(s: int)
    | Send(s: int, task: int, payload: Bytes)
    | Queue(s: int, task: int)
    | Return(s: int, final: Response)

  function Set(sv: Server, s: int, h: Handler): Server {
    sv.(handlers := sv.handlers[s := h])
  }

  function Say(sv: Server, s: int, body: Response): Server {
    sv.(queued := sv.queued + [Envelope(s, body)])
  }

  function NewHandler(inline: Option<Bytes>): Handler {
    var some := inline.Some? && inline.value != [];
    var box := if some then Put(EmptyBox(), inline.value, INBOUND_CAPACITY) else EmptyBox();
    Handler(box, false, false, [], 0, false, map[], false)
  }

  function Offered(h: Handler, payload: Bytes): Handler {
    if h.gone then h.(refused := h.refused + [payload])
    else h.(inbound := Put(h.inbound, payload, INBOUND_CAPACITY))
  }

  /** try_send, if the stream still has a sender. */
  function Offer(sv: Server, s: int, payload: Bytes): Server {
    if s !in sv.handlers || sv.handlers[s].dropped then sv else
    Set(sv, s, Offered(sv.handlers[s], payload))
  }

  predicate Admissible(sv: Server, f: Frame) {
    f.body.Call? ==> f.sequence !in sv.handlers && f.sequence !in sv.rejected
  }

  function Handle(paths: set<string>, sv: Server, f: Frame, reason: Response): Server {
    var s := f.sequence;
    match f.body
    case Call(path, inline) =>
      if path in paths then Set(sv, s, NewHandler(inline))
      else Say(sv.(rejected := sv.rejected + {s}), s, reason)
    case Data(content) =>
      (match content
       case Message(data) => Offer(sv, s, data)
       case Piece(chunk) =>
         var (t, full) := Reassembly.Fold(sv.reasm, s, chunk);
         if full.Some? then Offer(sv.(reasm := t), s, full.value) else sv.(reasm := t)
       case NoContent => sv)
    case End(_) => if s in sv.handlers then Set(sv, s, sv.handlers[s].(dropped := true)) else sv
    case NoRequest => sv
  }

  function Todo(h: Handler, task: int): seq<Response> {
    if task in h.tasks then h.tasks[task] else []
  }

  /** A receive that does not have to wait. */
  function Received(h: Handler): Handler {
    if h.gone then h
    else if h.inbound.queue != [] then h.(inbound := Get(h.inbound))
    else if h.dropped then h.(eofs := h.eofs + 1) else h
  }

  /** send up to its first queueing: the swap of the header flag decides whether a Begin goes first. */
  function Begun(h: Handler, task: int, payload: Bytes): Handler {
    if Todo(h, task) != [] then h else
    h.(headerSent := true, tasks := h.tasks[task := (if h.headerSent then [] else [BEGIN]) + DataBodies(payload)])
  }

  function Step(paths: set<string>, sv: Server, act: Act): Server {
    match act
    case Serve(f, reason) =>
      if !Admissible(sv, f) || !reason.ResponseEnd? then sv
      else Handle(paths, sv, f, reason).(processed := sv.processed + [f])
    case Write => if sv.written < |sv.queued| then sv.(written := sv.written + 1) else sv
    case Recv(s) => if s in sv.handlers then Set(sv, s, Received(sv.handlers[s])) else sv
    case Release(s) => if s in sv.handlers then Set(sv, s, sv.handlers[s].(gone := true)) else sv
    case Send(s, task, payload) => if s in sv.handlers then Set(sv, s, Begun(sv.handlers[s], task, payload)) else sv
    case Queue(s, task) =>
      if s !in sv.handlers || Todo(sv.handlers[s], task) == [] then sv else
      var h := sv.handlers[s];
      Say(Set(sv, s, h.(tasks := h.tasks[task := h.tasks[task][1..]])), s, h.tasks[task][0])
    case Return(s, final) =>
      if s !in sv.handlers || sv.handlers[s].ended || !final.ResponseEnd? then sv
      else Say(Set(sv, s, sv.handlers[s].(ended := true)), s, final)
  }

  function Run(paths: set<string>, acts: seq<Act>): Server
    decreases |acts|
  {
    if acts == [] then INITIAL else Step(paths, Run(paths, acts[..|acts| - 1]), acts[|acts| - 1])
  }

  // ---------------------------------------------------------------- requests

  /** The payloads carried by one sequence's requests up to its End. */
  function Take(paths: set<string>, st: Stream, b: Request): Stream {
    match b
    case Call(path, inline) =>
      if path in paths && !st.known
      then st.(known := true, closed := false, log := if inline.Some? && inline.value != [] then [inline.value] else [])
      else st
    case Data(content) => AbsorbOne(st, content)
    case End(_) => st.(closed := true)
    case NoRequest => st
  }

  /** A sequence without handler accepts nothing. */
  const UNKNOWN: Stream := FRESH.(closed := true)

  function Taking(paths: set<string>): (Stream, Request) -> Stream {
    (st: Stream, b: Request) => Take(paths, st, b)
  }

  function Taken(paths: set<string>, bodies: seq<Request>): Stream {
    AfterReading(Taking(paths), UNKNOWN, bodies)
  }

  predicate Routed(sv: Server, s: int, st: Stream) {
    && st.partial == Reassembly.Lookup(sv.reasm, s)
    && (st.known <==> s in sv.handlers)
    && (!st.known ==> st.closed)
    && (s in sv.handlers ==> (sv.handlers[s].dropped <==> st.closed) && Met(sv.handlers[s]) == st.log)
  }

  /** The payloads that came while the stream had a sender. */
  function Met(h: Handler): seq<Bytes> {
    Items(h.inbound.offers) + h.refused
  }

  ghost predicate InboxOk(h: Handler) {
    && Conserves(h.inbound, INBOUND_CAPACITY)
    && (!h.gone ==> h.refused == [])
    && (h.eofs > 0 ==> h.dropped && h.inbound.queue == [])
  }

  lemma TakenAppends(paths: set<string>, bodies: seq<Request>, b: Request)
    ensures Taken(paths, bodies + [b]) == Take(paths, Taken(paths, bodies), b)
  {
    ReadingAppends(Taking(paths), UNKNOWN, bodies, b);
    hide AfterReading;
  }

  lemma NewHandlerOk(inline: Option<Bytes>)
    ensures InboxOk(NewHandler(inline)) && !NewHandler(inline).dropped
    ensures Met(NewHandler(inline)) == if inline.Some? && inline.value != [] then [inline.value] else []
  {
    if inline.Some? { PutConserves(EmptyBox(), inline.value, INBOUND_CAPACITY); }
  }

  lemma OfferedMet(h: Handler, payload: Bytes)
    requires InboxOk(h) && !h.dropped
    ensures InboxOk(Offered(h, payload))
    ensures Met(Offered(h, payload)) == Met(h) + [payload]
  {
    var all := Items(h.inbound.offers);
    hide Conserves, Items, Put;
    if h.gone {
      assert all + (h.refused + [payload]) == (all + h.refused) + [payload];
    } else {
      PutConserves(h.inbound, payload, INBOUND_CAPACITY);
      assert all + [] == all && all + [payload] + [] == all + [payload];
    }
  }

  lemma OfferRoutes(sv: Server, s: int, payload: Bytes, st: Stream)
    requires Routed(sv, s, st) && (s in sv.handlers ==> InboxOk(sv.handlers[s]))
    ensures Routed(Offer(sv, s, payload), s, Append(st, payload))
    ensures s in sv.handlers ==> InboxOk(Offer(sv, s, payload).handlers[s])
  {
    if s in sv.handlers && !sv.handlers[s].dropped { OfferedMet(sv.handlers[s], payload); }
    hide Conserves, Met, Put;
  }

  /** A frame reaches its own stream as Take says. */
  lemma HandleRoutes(paths: set<string>, sv: Server, f: Frame, reason: Response, st: Stream)
    requires Routed(sv, f.sequence, st) && Admissible(sv, f)
    requires f.sequence in sv.handlers ==> InboxOk(sv.handlers[f.sequence])
    ensures var n := Handle(paths, sv, f, reason);
            && Routed(n, f.sequence, Take(paths, st, f.body))
            && (f.sequence in n.handlers ==> InboxOk(n.handlers[f.sequence]))
  {
    hide Conserves, Met, NewHandler, Offer;
    match f.body
    case Call(_, inline) => NewHandlerOk(inline);
    case Data(content) => DataRoutes(paths, sv, f, reason, st);
    case End(_) => if f.sequence in sv.handlers { DropKeeps(sv.handlers[f.sequence]); }
    case NoRequest =>
  }

  lemma DropKeeps(h: Handler)
    ensures Met(h.(dropped := true)) == Met(h)
  {
  }

  lemma DataRoutes(paths: set<string>, sv: Server, f: Frame, reason: Response, st: Stream)
    requires Routed(sv, f.sequence, st) && f.body.Data?
    requires f.sequence in sv.handlers ==> InboxOk(sv.handlers[f.sequence])
    ensures var n := Handle(paths, sv, f, reason);
            && Routed(n, f.sequence, Take(paths, st, f.body))
            && (f.sequence in n.handlers ==> InboxOk(n.handlers[f.sequence]))
  {
    var s := f.sequence;
    match f.body.content
    case Message(data) => OfferRoutes(sv, s, data, st);
    case Piece(chunk) =>
      var (t, full) := Reassembly.Fold(sv.reasm, s, chunk);
      var p := Reassembly.FoldOne(st.partial, chunk).0;
      assert Routed(sv.(reasm := t), s, st.(partial := p));
      if full.Some? { OfferRoutes(sv.(reasm := t), s, full.value, st.(partial := p)); }
      hide Reassembly.FoldOne, Offer, InboxOk;
    case NoContent =>
  }

  /** And leaves every other stream alone. */
  lemma HandleIsLocal(paths: set<string>, sv: Server, f: Frame, reason: Response, s: int, st: Stream)
    requires Routed(sv, s, st) && s != f.sequence
    ensures var n := Handle(paths, sv, f, reason);
            Routed(n, s, st) && (s in n.handlers <==> s in sv.handlers)
                && (s in sv.handlers ==> n.handlers[s] == sv.handlers[s])
  {
    hide Reassembly.FoldOne, NewHandler, Met;
  }

  ghost predicate RequestsOk(paths: set<string>, sv: Server, s: int) {
    Routed(sv, s, Taken(paths, Project(sv.processed, s))) && (s in sv.handlers ==> InboxOk(sv.handlers[s]))
  }

  lemma ServeKeepsRequests(paths: set<string>, sv: Server, f: Frame, reason: Response, s: int)
    requires RequestsOk(paths, sv, s) && Admissible(sv, f)
    ensures RequestsOk(paths, Handle(paths, sv, f, reason).(processed := sv.processed + [f]), s)
  {
    var st := Taken(paths, Project(sv.processed, s));
    ProjectAppends(sv.processed, f, s);
    TakenAppends(paths, Project(sv.processed, s), f.body);
    if f.sequence == s {
      HandleRoutes(paths, sv, f, reason, st);
    } else {
      HandleIsLocal(paths, sv, f, reason, s, st);
    }
    hide Handle, Take, Taken, Project, InboxOk, Met;
  }

  lemma ReceiveKeeps(h: Handler)
    requires InboxOk(h)
    ensures InboxOk(Received(h)) && Met(Received(h)) == Met(h) && Received(h).dropped == h.dropped
  {
    GetConserves(h.inbound, INBOUND_CAPACITY);
    hide Conserves;
  }

  lemma ReleaseKeeps(h: Handler)
    requires InboxOk(h)
    ensures InboxOk(h.(gone := true)) && Met(h.(gone := true)) == Met(h)
  {
    hide Conserves;
  }

  lemma StepKeepsRequests(paths: set<string>, sv: Server, act: Act, s: int)
    requires RequestsOk(paths, sv, s)
    ensures RequestsOk(paths, Step(paths, sv, act), s)
  {
    hide Handle, Taken, Project, DataBodies, Received, Conserves, Admissible;
    match act
    case Serve(f, reason) =>
      if Admissible(sv, f) { ServeKeepsRequests(paths, sv, f, reason, s); }
      hide RequestsOk;
    case Recv(u) => if s in sv.handlers { ReceiveKeeps(sv.handlers[s]); }
    case Release(u) => if s in sv.handlers { ReleaseKeeps(sv.handlers[s]); }
    case _ =>
  }

  lemma {:induction false} RunKeepsRequests(paths: set<string>, acts: seq<Act>, s: int)
    ensures RequestsOk(paths, Run(paths, acts), s)
    decreases |acts|
  {
    if acts != [] {
      RunKeepsRequests(paths, acts[..|acts| - 1], s);
      hide RequestsOk, Step;
      StepKeepsRequests(paths, Run(paths, acts[..|acts| - 1]), acts[|acts| - 1], s);
    } else {
      assert Items<Bytes>([]) == [];
    }
  }

  /** What the handler has received or still can. */
  function Within(h: Handler): seq<Bytes> {
    h.inbound.received + if h.gone then [] else h.inbound.queue
  }

  lemma WithinReach(h: Handler)
    requires InboxOk(h)
    ensures Within(h) == Met(h) <==>
              AlwaysRoom(h.inbound.offers, INBOUND_CAPACITY) && (h.gone ==> h.inbound.queue == [] && h.refused == [])
  {
    var b, offers := h.inbound, h.inbound.offers;
    var kept, all := Accepted(offers, INBOUND_CAPACITY), Items(offers);
    LosslessExactly(offers, INBOUND_CAPACITY);
    AcceptedIsSubsequence(offers, INBOUND_CAPACITY);
    hide Accepted, Items, AlwaysRoom, Sequences.Subsequence;
    assert b.received + b.queue == kept && |kept| <= |all|;
    assert all + [] == all && b.received + [] == b.received;
    if h.gone {
      assert |b.received| + |b.queue| == |kept|;
      assert Within(h) == Met(h) ==> |b.received| == |all| + |h.refused|;
    }
  }

  /** In every run a handler has received, in order, the payloads sent on its own sequence less exactly those that
      met 16 waiting or came after it let go of its receiver; it is told the end only when the channel is closed and
      drained; and all that was sent is received, or still can be, exactly if none met a full queue and, once the
      receiver is let go of, none was waiting and none came later. */
  lemma DeliveryIsLossyExactly(paths: set<string>, acts: seq<Act>, s: int)
    requires s in Run(paths, acts).handlers
    ensures var sv := Run(paths, acts);
            var h, sent := sv.handlers[s], Taken(paths, Project(sv.processed, s));
            && Items(h.inbound.offers) + h.refused == sent.log && (!h.gone ==> h.refused == [])
            && h.inbound.received + h.inbound.queue == Accepted(h.inbound.offers, INBOUND_CAPACITY)
            && (h.eofs > 0 ==> sent.closed && h.inbound.received == Accepted(h.inbound.offers, INBOUND_CAPACITY))
            && (Within(h) == sent.log <==>
                  && AlwaysRoom(h.inbound.offers, INBOUND_CAPACITY)
                  && (h.gone ==> h.inbound.queue == [] && h.refused == []))
  {
    RunKeepsRequests(paths, acts, s);
    var sv := Run(paths, acts);
    hide Run, Taken, Project;
    WithinReach(sv.handlers[s]);
    hide Accepted, Items, AlwaysRoom, Within;
  }

  // ---------------------------------------------------------------- responses

  predicate Holds(h: Handler, task: int) {
    Todo(h, task) != [] && Todo(h, task)[0].Begin?
  }

  /** Some send has taken the header flag and not queued its Begin yet. */
  predicate BeginHeld(h: Handler) {
    exists t :: t in h.tasks && Holds(h, t)
  }

  predicate TasksOk(h: Handler) {
    && (forall t, i :: t in h.tasks && 0 <= i < |h.tasks[t]| ==>
          h.tasks[t][i].ResponseData? || (i == 0 && h.tasks[t][i].Begin?))
    && (forall t, u :: t in h.tasks && u in h.tasks && Holds(h, t) && Holds(h, u) ==> t == u)
    && (!h.headerSent ==> forall t :: t in h.tasks ==> h.tasks[t] == [])
  }

  predicate Has(bodies: seq<Response>, begin: bool) {
    exists i :: 0 <= i < |bodies| && if begin then bodies[i].Begin? else bodies[i].ResponseEnd?
  }

  /** At most one Begin, at most one End, and otherwise Data. */
  predicate Tidy(bodies: seq<Response>) {
    && (forall i :: 0 <= i < |bodies| ==> bodies[i] != NoResponse)
    && (forall i, j :: 0 <= i < j < |bodies| ==> !(bodies[i].Begin? && bodies[j].Begin?))
    && (forall i, j :: 0 <= i < j < |bodies| ==> !(bodies[i].ResponseEnd? && bodies[j].ResponseEnd?))
  }

  predicate EmittedOk(h: Handler, emitted: seq<Response>) {
    && Tidy(emitted)
    && (Has(emitted, true) <==> h.headerSent && !BeginHeld(h))
    && (Has(emitted, false) <==> h.ended)
    && (!h.headerSent ==> forall i :: 0 <= i < |emitted| ==> emitted[i].ResponseEnd?)
  }

  lemma TidyAppends(bodies: seq<Response>, b: Response)
    requires Tidy(bodies) && b != NoResponse
    requires (b.Begin? ==> !Has(bodies, true)) && (b.ResponseEnd? ==> !Has(bodies, false))
    ensures Tidy(bodies + [b])
    ensures Has(bodies + [b], true) <==> Has(bodies, true) || b.Begin?
    ensures Has(bodies + [b], false) <==> Has(bodies, false) || b.ResponseEnd?
  {
    var all := bodies + [b];
    assert all[|bodies|] == b;
    assert forall i :: 0 <= i < |bodies| ==> all[i] == bodies[i];
  }

  function Popped(h: Handler, task: int): Handler
    requires task in h.tasks && h.tasks[task] != []
  {
    h.(tasks := h.tasks[task := h.tasks[task][1..]])
  }

  lemma PopKeepsTasks(h: Handler, task: int)
    requires TasksOk(h) && task in h.tasks && h.tasks[task] != []
    ensures TasksOk(Popped(h, task))
    ensures BeginHeld(Popped(h, task)) <==> BeginHeld(h) && !h.tasks[task][0].Begin?
  {
    var n := Popped(h, task);
    assert forall t :: t in h.tasks && t != task ==> n.tasks[t] == h.tasks[t] && (Holds(n, t) <==> Holds(h, t));
    assert !Holds(n, task);
    if h.tasks[task][0].Begin? {
      assert Holds(h, task);
    } else if BeginHeld(h) {
      var t :| t in h.tasks && Holds(h, t);
      assert t in n.tasks && Holds(n, t);
    }
  }

  lemma QueueKeepsEmitted(h: Handler, task: int, emitted: seq<Response>)
    requires TasksOk(h) && EmittedOk(h, emitted) && task in h.tasks && h.tasks[task] != []
    ensures TasksOk(Popped(h, task)) && EmittedOk(Popped(h, task), emitted + [h.tasks[task][0]])
  {
    var b := h.tasks[task][0];
    PopKeepsTasks(h, task);
    if b.Begin? { assert Holds(h, task); }
    TidyAppends(emitted, b);
    hide Tidy, Has, BeginHeld, TasksOk, Popped;
    assert Popped(h, task).headerSent == h.headerSent && Popped(h, task).ended == h.ended;
  }

  lemma SendKeepsEmitted(h: Handler, task: int, payload: Bytes, emitted: seq<Response>)
    requires TasksOk(h) && EmittedOk(h, emitted)
    ensures TasksOk(Begun(h, task, payload)) && EmittedOk(Begun(h, task, payload), emitted)
  {
    if Todo(h, task) == [] {
      BegunTasks(h, task, payload);
      NoBeginYet(h, emitted);
      hide Tidy, Has, BeginHeld, TasksOk, Begun;
    }
  }

  lemma NoBeginYet(h: Handler, emitted: seq<Response>)
    requires EmittedOk(h, emitted)
    ensures !h.headerSent ==> !Has(emitted, true)
  {
  }

  lemma BegunTasks(h: Handler, task: int, payload: Bytes)
    requires TasksOk(h) && Todo(h, task) == []
    ensures var n := Begun(h, task, payload);
            && TasksOk(n) && n.headerSent && n.ended == h.ended
            && (BeginHeld(n) <==> !h.headerSent || BeginHeld(h))
  {
    var n := Begun(h, task, payload);
    var data := DataBodies(payload);
    assert |data| > 0 && forall i :: 0 <= i < |data| ==> data[i].ResponseData?;
    hide DataBodies;
    var todo := (if h.headerSent then [] else [BEGIN]) + data;
    assert n.tasks == h.tasks[task := todo] && (todo[0].Begin? <==> !h.headerSent);
    assert forall t :: t in h.tasks && t != task ==> n.tasks[t] == h.tasks[t] && (Holds(n, t) <==> Holds(h, t));
    assert Holds(n, task) <==> !h.headerSent;
    if h.headerSent && BeginHeld(h) {
      var t :| t in h.tasks && Holds(h, t);
      assert t != task && Holds(n, t);
    }
  }

  lemma ReturnKeepsEmitted(h: Handler, final: Response, emitted: seq<Response>)
    requires TasksOk(h) && EmittedOk(h, emitted) && !h.ended && final.ResponseEnd?
    ensures TasksOk(h.(ended := true)) && EmittedOk(h.(ended := true), emitted + [final])
  {
    TidyAppends(emitted, final);
    BeginStays(h);
    hide Tidy, Has, BeginHeld, TasksOk;
  }

  /** Neither receiving nor returning touches the sends under way. */
  lemma BeginStays(h: Handler)
    requires TasksOk(h)
    ensures forall n: Handler :: n.tasks == h.tasks && n.headerSent == h.headerSent ==>
              TasksOk(n) && (BeginHeld(n) <==> BeginHeld(h))
  {
    forall n: Handler | n.tasks == h.tasks && n.headerSent == h.headerSent
      ensures TasksOk(n) && (BeginHeld(n) <==> BeginHeld(h)) {
      assert forall t :: t in h.tasks ==> (Holds(n, t) <==> Holds(h, t));
    }
  }

  ghost predicate ResponsesOk(sv: Server, s: int) {
    var emitted := Project(sv.queued, s);
    && sv.rejected !! sv.handlers.Keys && sv.written <= |sv.queued|
    && (s in sv.handlers ==> TasksOk(sv.handlers[s]) && EmittedOk(sv.handlers[s], emitted))
    && (s in sv.rejected ==> |emitted| == 1 && emitted[0].ResponseEnd?)
    && (s !in sv.handlers && s !in sv.rejected ==> emitted == [])
  }

  /** What a frame does to the response side: a new handler, a rejection, or nothing. */
  lemma HandleResponds(paths: set<string>, sv: Server, f: Frame, reason: Response)
    requires Admissible(sv, f)
    ensures var n := Handle(paths, sv, f, reason);
            && n.written == sv.written
            && n.queued == sv.queued +
                 (if f.body.Call? && f.body.path !in paths then [Envelope(f.sequence, reason)] else [])
            && n.rejected == sv.rejected + (if f.body.Call? && f.body.path !in paths then {f.sequence} else {})
            && n.handlers.Keys == sv.handlers.Keys + (if f.body.Call? && f.body.path in paths then {f.sequence} else {})
            && (forall s :: s in sv.handlers ==> var h, k := sv.handlers[s], n.handlers[s];
                  k.tasks == h.tasks && k.headerSent == h.headerSent && k.ended == h.ended)
            && (f.body.Call? && f.body.path in paths ==> n.handlers[f.sequence] == NewHandler(f.body.inline))
  {
    if f.body.Data? {
      DataResponds(paths, sv, f, reason);
    }
    hide Reassembly.Fold, NewHandler, Offer;
  }

  lemma OfferResponds(sv: Server, s: int, payload: Bytes)
    ensures var n := Offer(sv, s, payload);
            && n.written == sv.written && n.queued == sv.queued && n.rejected == sv.rejected
            && n.handlers.Keys == sv.handlers.Keys
            && forall k :: k in sv.handlers ==>
                 var h, u := sv.handlers[k], n.handlers[k];
                 u.tasks == h.tasks && u.headerSent == h.headerSent && u.ended == h.ended
  {
  }

  lemma DataResponds(paths: set<string>, sv: Server, f: Frame, reason: Response)
    requires f.body.Data?
    ensures var n := Handle(paths, sv, f, reason);
            && n.written == sv.written && n.queued == sv.queued && n.rejected == sv.rejected
            && n.handlers.Keys == sv.handlers.Keys
            && forall k :: k in sv.handlers ==>
                 var h, u := sv.handlers[k], n.handlers[k];
                 u.tasks == h.tasks && u.headerSent == h.headerSent && u.ended == h.ended
  {
    hide Reassembly.Fold, Offer;
    match f.body.content
    case Message(data) => OfferResponds(sv, f.sequence, data);
    case Piece(chunk) =>
      var (t, full) := Reassembly.Fold(sv.reasm, f.sequence, chunk);
      if full.Some? { OfferResponds(sv.(reasm := t), f.sequence, full.value); }
    case NoContent =>
  }

  lemma FreshHandlerOk(inline: Option<Bytes>)
    ensures TasksOk(NewHandler(inline)) && EmittedOk(NewHandler(inline), [])
  {
  }

  lemma SameConversation(h: Handler, n: Handler, emitted: seq<Response>)
    requires TasksOk(h) && EmittedOk(h, emitted)
    requires n.tasks == h.tasks && n.headerSent == h.headerSent && n.ended == h.ended
    ensures TasksOk(n) && EmittedOk(n, emitted)
  {
    BeginStays(h);
    hide TasksOk, BeginHeld, Tidy, Has;
  }

  lemma OtherHandlersRespond(sv: Server, n: Server, s: int)
    requires ResponsesOk(sv, s) && n.written == sv.written && n.queued == sv.queued && n.rejected == sv.rejected
    requires n.rejected !! n.handlers.Keys && (s in n.handlers <==> s in sv.handlers)
    requires s in sv.handlers ==> var h, k := sv.handlers[s], n.handlers[s];
               k.tasks == h.tasks && k.headerSent == h.headerSent && k.ended == h.ended
    ensures ResponsesOk(n, s)
  {
    hide TasksOk, EmittedOk, Project;
    if s in sv.handlers {
      SameConversation(sv.handlers[s], n.handlers[s], Project(sv.queued, s));
    }
  }

  lemma RejectionResponds(paths: set<string>, sv: Server, f: Frame, reason: Response, s: int)
    requires ResponsesOk(sv, s) && Admissible(sv, f) && reason.ResponseEnd? && f.body.Call? && f.body.path !in paths
    ensures ResponsesOk(Handle(paths, sv, f, reason), s)
  {
    hide TasksOk, EmittedOk, Project;
    ProjectAppends(sv.queued, Envelope(f.sequence, reason), s);
    assert [] + [reason] == [reason];
  }

  lemma ServeKeepsResponses(paths: set<string>, sv: Server, f: Frame, reason: Response, s: int)
    requires ResponsesOk(sv, s) && Admissible(sv, f) && reason.ResponseEnd?
    ensures ResponsesOk(Handle(paths, sv, f, reason), s)
  {
    var n := Handle(paths, sv, f, reason);
    if f.body.Call? && f.body.path !in paths {
      RejectionResponds(paths, sv, f, reason, s);
      hide *;
    } else {
      HandleResponds(paths, sv, f, reason);
      assert sv.queued + [] == sv.queued;
      hide Handle, Project, TasksOk, EmittedOk, NewHandler;
      if f.body.Call? && f.sequence == s {
        FreshHandlerOk(f.body.inline);
      } else {
        OtherHandlersRespond(sv, n, s);
      }
    }
  }

  lemma StepKeepsResponses(paths: set<string>, sv: Server, act: Act, s: int)
    requires ResponsesOk(sv, s)
    ensures ResponsesOk(Step(paths, sv, act), s)
  {
    hide Handle, Admissible;
    match act
    case Serve(f, reason) =>
      if Admissible(sv, f) && reason.ResponseEnd? { ServeKeepsResponses(paths, sv, f, reason, s); }
      HistoryIsApart(Handle(paths, sv, f, reason), sv.processed + [f], s);
      hide ResponsesOk;
    case _ => HandlerKeepsResponses(paths, sv, act, s); hide *;
  }

  lemma HistoryIsApart(sv: Server, processed: seq<Frame>, s: int)
    ensures ResponsesOk(sv, s) ==> ResponsesOk(sv.(processed := processed), s)
  {
    hide TasksOk, EmittedOk, Project;
  }

  lemma HandlerKeepsResponses(paths: set<string>, sv: Server, act: Act, s: int)
    requires ResponsesOk(sv, s) && !act.Serve?
    ensures ResponsesOk(Step(paths, sv, act), s)
  {
    hide TasksOk, EmittedOk, Project, Begun, DataBodies, Received;
    match act
    case Write =>
    case Recv(u) =>
      if u == s && s in sv.handlers {
        ReceivingIsApart(sv.handlers[s]);
        SameConversation(sv.handlers[s], Received(sv.handlers[s]), Project(sv.queued, s));
      }
    case Release(u) =>
      if u == s && s in sv.handlers {
        SameConversation(sv.handlers[s], sv.handlers[s].(gone := true), Project(sv.queued, s));
      }
    case Send(u, task, payload) =>
      if u == s && s in sv.handlers { SendKeepsEmitted(sv.handlers[s], task, payload, Project(sv.queued, s)); }
    case Queue(u, task) =>
      if u in sv.handlers && Todo(sv.handlers[u], task) != [] {
        ProjectAppends(sv.queued, Envelope(u, sv.handlers[u].tasks[task][0]), s);
        if u == s { QueueKeepsEmitted(sv.handlers[s], task, Project(sv.queued, s)); }
      }
    case Return(u, final) =>
      if u in sv.handlers && !sv.handlers[u].ended && final.ResponseEnd? {
        ProjectAppends(sv.queued, Envelope(u, final), s);
        if u == s { ReturnKeepsEmitted(sv.handlers[s], final, Project(sv.queued, s)); }
      }
  }

  lemma ReceivingIsApart(h: Handler)
    ensures Received(h).tasks == h.tasks && Received(h).headerSent == h.headerSent && Received(h).ended == h.ended
  {
  }

  lemma {:induction false} RunKeepsResponses(paths: set<string>, acts: seq<Act>, s: int)
    ensures ResponsesOk(Run(paths, acts), s)
    decreases |acts|
  {
    if acts != [] {
      RunKeepsResponses(paths, acts[..|acts| - 1], s);
      hide ResponsesOk, Step;
      StepKeepsResponses(paths, Run(paths, acts[..|acts| - 1]), acts[|acts| - 1], s);
    }
  }

  /** With any number of tasks sending at once, in every run: a sequence never gets a second Begin or a second End on
      the wire, and one without handler gets at most an End. */
  lemma OneBeginOneEnd(paths: set<string>, acts: seq<Act>, s: int)
    ensures var sv := Run(paths, acts);
            && sv.written <= |sv.queued|
            && Tidy(Project(sv.queued[..sv.written], s))
            && (s !in sv.handlers ==> |Project(sv.queued[..sv.written], s)| <= 1)
  {
    var sv := Run(paths, acts);
    RunKeepsResponses(paths, acts, s);
    hide Run, TasksOk, BeginHeld;
    var sent, rest := sv.queued[..sv.written], sv.queued[sv.written..];
    ProjectConcatenates(sent, rest, s);
    assert sent + rest == sv.queued;
    TidyPrefix(Project(sent, s), Project(rest, s));
    hide Project;
    assert Tidy(Project(sv.queued, s));
  }

  lemma TidyPrefix(a: seq<Response>, b: seq<Response>)
    ensures Tidy(a + b) ==> Tidy(a)
  {
    assert forall i :: 0 <= i < |a| ==> (a + b)[i] == a[i];
  }

  // ---------------------------------------------------------------- when the conversation is well formed

  /** Queueing a frame keeps the conversation well formed exactly if the handler has not returned and no other send
      still holds the Begin: the flag is taken before the Begin is queued, so a second task can get ahead of it. */
  lemma RaceBreaksGrammarExactly(h: Handler, task: int, emitted: seq<Response>)
    requires TasksOk(h) && EmittedOk(h, emitted) && Grammatical(emitted)
    requires task in h.tasks && h.tasks[task] != []
    ensures Grammatical(emitted + [h.tasks[task][0]]) <==> !h.ended && (BeginHeld(h) ==> Holds(h, task))
  {
    var b := h.tasks[task][0];
    var all := emitted + [b];
    assert all[|emitted|] == b && forall i :: 0 <= i < |emitted| ==> all[i] == emitted[i];
    assert emitted != [] ==> emitted[0].Begin? || emitted[0].ResponseEnd?;
    assert Has(emitted, false) <==> emitted != [] && emitted[|emitted| - 1].ResponseEnd?;
    assert Holds(h, task) ==> BeginHeld(h);
    if h.ended {
      assert all[|emitted| - 1].ResponseEnd?;
    } else {
      assert Has(emitted, true) <==> emitted != [];
    }
    hide TasksOk, EmittedOk, BeginHeld;
  }

  lemma RunAppends(paths: set<string>, acts: seq<Act>, act: Act)
    ensures Run(paths, acts + [act]) == Step(paths, Run(paths, acts), act)
  {
    assert (acts + [act])[..|acts|] == acts;
    hide Step;
  }

  lemma TwoSends(h: Handler, x: Bytes, y: Bytes)
    requires h.tasks == map[] && !h.headerSent
    ensures var n := Begun(Begun(h, 1, x), 2, y);
            BeginHeld(n) && 2 in n.tasks && n.tasks[2] != [] && !Holds(n, 2)
  {
    assert DataBodies(x) != [] && DataBodies(y) != [] && DataBodies(y)[0].ResponseData?;
    hide DataBodies;
    var n := Begun(Begun(h, 1, x), 2, y);
    assert 1 in n.tasks && Holds(n, 1);
  }

  /** Two sends at once on a fresh stream reach it: the second has its Data ready while the first holds the Begin. */
  lemma RaceIsReachable(paths: set<string>, path: string, x: Bytes, y: Bytes, reason: Response)
    requires path in paths && reason.ResponseEnd?
    ensures exists acts :: var sv := Run(paths, acts);
              1 in sv.handlers && BeginHeld(sv.handlers[1])
              && 2 in sv.handlers[1].tasks && sv.handlers[1].tasks[2] != [] && !Holds(sv.handlers[1], 2)
  {
    var a1 := [Serve(Envelope(1, Call(path, None)), reason)];
    var a2 := a1 + [Send(1, 1, x)];
    var a3 := a2 + [Send(1, 2, y)];
    assert Run(paths, []) == INITIAL;
    RunAppends(paths, [], a1[0]);
    assert [] + a1 == a1;
    RunAppends(paths, a1, Send(1, 1, x));
    RunAppends(paths, a2, Send(1, 2, y));
    TwoSends(NewHandler(None), x, y);
    ThreeSteps(paths, path, x, y, reason);
    hide Run, Begun, BeginHeld, Step, NewHandler;
    var sv := Run(paths, a3);
    assert sv.handlers[1] == Begun(Begun(NewHandler(None), 1, x), 2, y);
  }

  lemma ThreeSteps(paths: set<string>, path: string, x: Bytes, y: Bytes, reason: Response)
    requires path in paths && reason.ResponseEnd?
    ensures var sv1 := Step(paths, INITIAL, Serve(Envelope(1, Call(path, None)), reason));
            var sv3 := Step(paths, Step(paths, sv1, Send(1, 1, x)), Send(1, 2, y));
            1 in sv3.handlers && sv3.handlers[1] == Begun(Begun(NewHandler(None), 1, x), 2, y)
  {
    hide Begun, NewHandler, Reassembly.Fold;
  }

  lemma EndKeepsGrammar(h: Handler, final: Response, emitted: seq<Response>)
    requires EmittedOk(h, emitted) && Grammatical(emitted) && !h.ended && final.ResponseEnd?
    ensures Grammatical(emitted + [final])
  {
    var all := emitted + [final];
    assert all[|emitted|] == final && forall i :: 0 <= i < |emitted| ==> all[i] == emitted[i];
    assert emitted != [] && emitted[|emitted| - 1].ResponseEnd? ==> Has(emitted, false);
    hide TasksOk, EmittedOk, BeginHeld, Tidy;
  }

  predicate Quiet(h: Handler) {
    forall t :: t in h.tasks ==> h.tasks[t] == []
  }

  /** Every handler finishes one send before it begins the next or returns. */
  predicate Orderly(paths: set<string>, acts: seq<Act>)
    decreases |acts|
  {
    acts == [] ||
    (var sv, act := Run(paths, acts[..|acts| - 1]), acts[|acts| - 1];
     && Orderly(paths, acts[..|acts| - 1])
     && (act.Send? && act.s in sv.handlers ==> Quiet(sv.handlers[act.s]) && !sv.handlers[act.s].ended)
     && (act.Return? && act.s in sv.handlers ==> Quiet(sv.handlers[act.s])))
  }

  predicate OneAtATime(h: Handler) {
    && (forall t, u :: t in h.tasks && u in h.tasks && h.tasks[t] != [] && h.tasks[u] != [] ==> t == u)
    && (h.ended ==> Quiet(h))
  }

  ghost predicate InOrder(sv: Server, s: int) {
    Grammatical(Project(sv.queued, s)) && (s in sv.handlers ==> OneAtATime(sv.handlers[s]))
  }

  lemma BegunAlone(h: Handler, task: int, payload: Bytes)
    requires Quiet(h) && !h.ended
    ensures OneAtATime(Begun(h, task, payload))
  {
    hide DataBodies;
  }

  lemma QueueInOrder(h: Handler, task: int, emitted: seq<Response>)
    requires TasksOk(h) && EmittedOk(h, emitted) && Grammatical(emitted) && OneAtATime(h)
    requires task in h.tasks && h.tasks[task] != []
    ensures OneAtATime(Popped(h, task)) && Grammatical(emitted + [h.tasks[task][0]])
  {
    RaceBreaksGrammarExactly(h, task, emitted);
    hide TasksOk, EmittedOk, Grammatical;
    if BeginHeld(h) {
      var t :| t in h.tasks && Holds(h, t);
      assert t == task;
    }
  }

  lemma HandlerKeepsOrder(paths: set<string>, sv: Server, act: Act, s: int)
    requires InOrder(sv, s) && ResponsesOk(sv, s) && !act.Serve?
    requires act.Send? && act.s in sv.handlers ==> Quiet(sv.handlers[act.s]) && !sv.handlers[act.s].ended
    requires act.Return? && act.s in sv.handlers ==> Quiet(sv.handlers[act.s])
    ensures InOrder(Step(paths, sv, act), s)
  {
    hide TasksOk, EmittedOk, Grammatical, Project, Begun, DataBodies;
    match act
    case Write =>
    case Recv(u) => hide Quiet;
    case Release(u) => hide Quiet;
    case Send(u, task, payload) =>
      if u == s && s in sv.handlers { BegunAlone(sv.handlers[s], task, payload); }
    case Queue(u, task) =>
      if u in sv.handlers && Todo(sv.handlers[u], task) != [] {
        ProjectAppends(sv.queued, Envelope(u, sv.handlers[u].tasks[task][0]), s);
        if u == s { QueueInOrder(sv.handlers[s], task, Project(sv.queued, s)); }
      }
    case Return(u, final) =>
      if u in sv.handlers && !sv.handlers[u].ended && final.ResponseEnd? {
        ProjectAppends(sv.queued, Envelope(u, final), s);
        if u == s { EndKeepsGrammar(sv.handlers[s], final, Project(sv.queued, s)); }
      }
  }

  lemma ServeKeepsOrder(paths: set<string>, sv: Server, f: Frame, reason: Response, s: int)
    requires InOrder(sv, s) && ResponsesOk(sv, s) && Admissible(sv, f) && reason.ResponseEnd?
    ensures InOrder(Handle(paths, sv, f, reason).(processed := sv.processed + [f]), s)
  {
    HandleResponds(paths, sv, f, reason);
    ProjectAppends(sv.queued, Envelope(f.sequence, reason), s);
    assert sv.queued + [] == sv.queued;
    assert Grammatical([reason]);
    hide Handle, Project, TasksOk, EmittedOk, Grammatical;
    assert [] + [reason] == [reason];
  }

  lemma {:induction false} RunKeepsOrder(paths: set<string>, acts: seq<Act>, s: int)
    requires Orderly(paths, acts)
    ensures InOrder(Run(paths, acts), s)
    decreases |acts|
  {
    if acts != [] {
      var sv, act := Run(paths, acts[..|acts| - 1]), acts[|acts| - 1];
      RunKeepsOrder(paths, acts[..|acts| - 1], s);
      RunKeepsResponses(paths, acts[..|acts| - 1], s);
      hide InOrder, ResponsesOk, Handle, Quiet, Admissible;
      if act.Serve? {
        if Admissible(sv, act.frame) && act.reason.ResponseEnd? {
          ServeKeepsOrder(paths, sv, act.frame, act.reason, s);
        }
      } else {
        HandlerKeepsOrder(paths, sv, act, s);
        hide Step;
      }
    }
  }

  /** If every handler finishes one send before the next and before it returns, the wire projected to any sequence
      is a prefix of (Begin Data*)? End. */
  lemma OrderlyIsGrammatical(paths: set<string>, acts: seq<Act>, s: int)
    requires Orderly(paths, acts)
    ensures var sv := Run(paths, acts);
            sv.written <= |sv.queued| && Grammatical(Project(sv.queued[..sv.written], s))
  {
    var sv := Run(paths, acts);
    RunKeepsOrder(paths, acts, s);
    RunKeepsResponses(paths, acts, s);
    hide Run, Orderly, TasksOk, EmittedOk, Project, Grammatical, OneAtATime;
    WrittenFirst(sv, s);
    PrefixIsGrammatical(Project(sv.queued[..sv.written], s), Project(sv.queued, s));
  }

  lemma WrittenFirst(sv: Server, s: int)
    requires sv.written <= |sv.queued|
    ensures Project(sv.queued[..sv.written], s) <= Project(sv.queued, s)
  {
    hide Project;
    var sent, rest := sv.queued[..sv.written], sv.queued[sv.written..];
    ProjectConcatenates(sent, rest, s);
    assert sent + rest == sv.queued;
  }
}
