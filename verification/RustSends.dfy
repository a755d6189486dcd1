/** When the messages that several tasks of one Rust handler send at once are received whole. */
module RustSends {
  import opened Wire
  import opened Frames
  import opened Receiving
  import opened Reassembly
  import opened RustServer
  import GoClient
  import GoReplies

  // ---------------------------------------------------------------- what was sent

  /** `payloads` has what each task of one stream sent last, `completed` the payloads whose last frame has been
      queued, in that order. */
  datatype Sends = Sends(payloads: map<int, Bytes>, completed: seq<Bytes>)

  const NOTHING: Sends := Sends(map[], [])

  function Payload(b: Sends, task: int): Bytes {
    if task in b.payloads then b.payloads[task] else []
  }

  function Noted(h: Handler, b: Sends, act: Act): Sends {
    match act
    case Send(_, task, payload) => if Todo(h, task) != [] then b else b.(payloads := b.payloads[task := payload])
    case Queue(_, task) => if |Todo(h, task)| != 1 then b else b.(completed := b.completed + [Payload(b, task)])
    case _ => b
  }

  predicate OfTask(sv: Server, act: Act, s: int) {
    (act.Send? || act.Queue?) && act.s == s && s in sv.handlers
  }

  function Sent(paths: set<string>, acts: seq<Act>, s: int): Sends
    decreases |acts|
  {
    if acts == [] then NOTHING else
    var front, last := acts[..|acts| - 1], acts[|acts| - 1];
    var sv := RustServer.Run(paths, front);
    if OfTask(sv, last, s) then Noted(sv.handlers[s], Sent(paths, front, s), last) else Sent(paths, front, s)
  }

  /** Some of the task's chunks are queued and some are not. */
  predicate MidWay(h: Handler, b: Sends, task: int) {
    0 < |Todo(h, task)| < |DataBodies(Payload(b, task))|
  }

  predicate IsChunk(b: Response) {
    b.ResponseData? && b.responseContent.Piece?
  }

  /** The step queues a chunk while another task of the stream is mid-way. */
  ghost predicate Mixes(h: Handler, b: Sends, act: Act) {
    && act.Queue? && Todo(h, act.task) != [] && IsChunk(Todo(h, act.task)[0])
    && exists t :: t != act.task && MidWay(h, b, t)
  }

  /** No step of the run mixes chunks on stream `s`. */
  ghost predicate Unmixed(paths: set<string>, acts: seq<Act>, s: int)
    decreases |acts|
  {
    acts == [] ||
    (var front, last := acts[..|acts| - 1], acts[|acts| - 1];
     var sv := RustServer.Run(paths, front);
     && Unmixed(paths, front, s)
     && (OfTask(sv, last, s) ==> !Mixes(sv.handlers[s], Sent(paths, front, s), last)))
  }

  // ---------------------------------------------------------------- a payload in parts

  function Chunks(payload: Bytes): seq<Chunk> {
    Split(payload, 0, GO_CHUNK_SIZE)
  }

  /** The partial message after the first `k` chunks. */
  function PartOf(payload: Bytes, k: nat): Option<Partial>
    requires k <= |Chunks(payload)|
  {
    RunOne(None, Chunks(payload)[..k]).0
  }

  lemma {:induction false} RunOneConcatenates(p: Option<Partial>, a: seq<Chunk>, b: seq<Chunk>)
    ensures var (q, outs) := RunOne(p, a);
            var (r, more) := RunOne(q, b);
            RunOne(p, a + b) == (r, outs + more)
    decreases |a|
  {
    hide FoldOne;
    if a == [] {
      assert a + b == b && [] + RunOne(p, b).1 == RunOne(p, b).1;
    } else {
      var (q, out) := FoldOne(p, a[0]);
      RunOneConcatenates(q, a[1..], b);
      var outs, more := RunOne(q, a[1..]).1, RunOne(RunOne(q, a[1..]).0, b).1;
      assert (a + b)[1..] == a[1..] + b;
      if out.Some? { assert ([out.value] + outs) + more == [out.value] + (outs + more); }
    }
  }

  lemma RunOneAppends(p: Option<Partial>, cs: seq<Chunk>, c: Chunk)
    ensures var (q, outs) := RunOne(p, cs);
            var (r, out) := FoldOne(q, c);
            RunOne(p, cs + [c]) == (r, if out.Some? then outs + [out.value] else outs)
  {
    RunOneConcatenates(p, cs, [c]);
    hide FoldOne;
    var (q, outs) := RunOne(p, cs);
    var (r, out) := FoldOne(q, c);
    assert [c][1..] == [] && RunOne(r, []) == (r, []) && outs + [] == outs;
    if out.Some? { assert [out.value] + [] == [out.value]; }
  }

  lemma PartsEnds(payload: Bytes)
    requires |payload| > MESSAGE_MAX
    ensures PartOf(payload, 0) == None && PartOf(payload, |Chunks(payload)|) == None
  {
    var cs := Chunks(payload);
    AnyOrder(payload, GO_CHUNK_SIZE, None, cs);
    assert RunOne(None, []) == (None, []) && cs[..0] == [];
    assert cs[..|cs|] == cs;
    hide RunOne, Split;
  }

  lemma ChunkByChunk(payload: Bytes, k: nat)
    requires |payload| > MESSAGE_MAX && k < |Chunks(payload)|
    ensures FoldOne(PartOf(payload, k), Chunks(payload)[k])
         == (PartOf(payload, k + 1), if k + 1 == |Chunks(payload)| then Some(payload) else None)
  {
    var cs := Chunks(payload);
    AnyOrder(payload, GO_CHUNK_SIZE, None, cs);
    RunOneAppends(None, cs[..k], cs[k]);
    hide FoldOne, Split, RunOne;
    var (next, out) := FoldOne(PartOf(payload, k), cs[k]);
    assert cs[..k] + [cs[k]] == cs[..k + 1];
    assert RunOne(None, cs[..k]).1 == [];
    if out.Some? { assert [] + [out.value] == [out.value]; }
    if k + 1 < |cs| {
      assert RunOne(None, cs[..k + 1]).1 == [];
    } else {
      assert cs[..k + 1] == cs;
      assert [payload][0] == payload;
    }
  }

  lemma BodiesOf(payload: Bytes)
    ensures DataBodies(payload) != []
    ensures |payload| <= MESSAGE_MAX ==> DataBodies(payload) == [ResponseData(Message(payload))]
    ensures |payload| > MESSAGE_MAX ==>
              && |DataBodies(payload)| == |Chunks(payload)|
              && forall k :: 0 <= k < |Chunks(payload)| ==>
                   DataBodies(payload)[k] == ResponseData(Piece(Chunks(payload)[k]))
  {
    hide Split;
  }

  // ---------------------------------------------------------------- every step

  /** What is left of a send: the last of its frames. */
  predicate Rest(todo: seq<Response>, payload: Bytes) {
    var data := DataBodies(payload);
    if |todo| <= |data| then todo == data[|data| - |todo|..] else todo == [BEGIN] + data
  }

  /** The frames left are the last of the payload's, and the receiver has the part of it that is not. */
  predicate TaskOk(h: Handler, b: Sends, partial: Option<Partial>, task: int) {
    var todo, payload := Todo(h, task), Payload(b, task);
    && (todo != [] ==> Rest(todo, payload))
    && (MidWay(h, b, task) ==>
          && |payload| > MESSAGE_MAX && |todo| <= |Chunks(payload)|
          && partial == PartOf(payload, |Chunks(payload)| - |todo|))
  }

  ghost predicate NoneMidWay(h: Handler, b: Sends) {
    forall t :: !MidWay(h, b, t)
  }

  ghost predicate OneMidWay(h: Handler, b: Sends) {
    forall t, u :: MidWay(h, b, t) && MidWay(h, b, u) ==> t == u
  }

  ghost predicate PartsOk(h: Handler, b: Sends, partial: Option<Partial>) {
    && (forall t :: TaskOk(h, b, partial, t))
    && OneMidWay(h, b)
    && (NoneMidWay(h, b) ==> partial == None)
  }

  ghost predicate SendsOk(h: Handler, b: Sends, st: Stream) {
    !st.closed && st.log == b.completed && PartsOk(h, b, st.partial)
  }

  ghost predicate SameBut(h: Handler, n: Handler, b: Sends, c: Sends, task: int) {
    forall t :: t != task ==> Todo(n, t) == Todo(h, t) && Payload(c, t) == Payload(b, t)
  }

  ghost predicate NoneMidWayBut(h: Handler, b: Sends, task: int) {
    forall t :: t != task ==> !MidWay(h, b, t)
  }

  /** The other tasks stand where they stood. */
  lemma SameElsewhere(h: Handler, n: Handler, b: Sends, c: Sends, partial: Option<Partial>, task: int)
    requires SameBut(h, n, b, c, task)
    ensures forall t :: t != task ==>
              (MidWay(n, c, t) <==> MidWay(h, b, t)) && (TaskOk(n, c, partial, t) <==> TaskOk(h, b, partial, t))
  {
    hide DataBodies, PartOf, Chunks, Todo, Payload, Rest;
  }

  /** A task that is mid-way neither before nor after leaves the parts as they are. */
  lemma NotMidWay(h: Handler, n: Handler, b: Sends, c: Sends, partial: Option<Partial>, task: int)
    requires PartsOk(h, b, partial)
    requires SameBut(h, n, b, c, task)
    requires !MidWay(h, b, task) && !MidWay(n, c, task)
    requires Todo(n, task) != [] ==> Rest(Todo(n, task), Payload(c, task))
    ensures PartsOk(n, c, partial)
  {
    SameElsewhere(h, n, b, c, partial, task);
    assert TaskOk(n, c, partial, task);
    hide TaskOk, MidWay, Todo, Payload, Rest;
    forall t ensures TaskOk(n, c, partial, t) && (MidWay(n, c, t) <==> MidWay(h, b, t)) {
      assert TaskOk(h, b, partial, t);
    }
  }

  lemma PoppedTodo(h: Handler, b: Sends, c: Sends, task: int)
    requires Todo(h, task) != [] && c.payloads == b.payloads
    ensures Todo(Popped(h, task), task) == Todo(h, task)[1..] && SameBut(h, Popped(h, task), b, c, task)
  {
  }

  lemma RestOf(h: Handler, b: Sends, partial: Option<Partial>, task: int)
    requires PartsOk(h, b, partial) && Todo(h, task) != []
    ensures Rest(Todo(h, task), Payload(b, task))
  {
    assert TaskOk(h, b, partial, task);
  }

  lemma NotedQueue(h: Handler, b: Sends, s: int, task: int)
    ensures var c := Noted(h, b, Queue(s, task));
            c.payloads == b.payloads
            && c.completed == if |Todo(h, task)| == 1 then b.completed + [Payload(b, task)] else b.completed
  {
  }

  /** A Begin, or a message in one frame. */
  lemma WholeFrame(h: Handler, b: Sends, s: int, task: int, st: Stream)
    requires SendsOk(h, b, st) && Todo(h, task) != [] && !IsChunk(Todo(h, task)[0])
    ensures SendsOk(Popped(h, task), Noted(h, b, Queue(s, task)), GoClient.Take(st, Todo(h, task)[0]))
  {
    var todo, payload, n, c := Todo(h, task), Payload(b, task), Popped(h, task), Noted(h, b, Queue(s, task));
    hide Todo, Payload, Rest, DataBodies, Popped, PartsOk, Noted, SameBut;
    RestOf(h, b, st.partial, task);
    WholeRest(todo, payload);
    NotedQueue(h, b, s, task);
    PoppedTodo(h, b, c, task);
    assert Payload(c, task) == payload by { SamePayload(b, c, task); }
    NotMidWay(h, n, b, c, st.partial, task);
  }

  lemma SamePayload(b: Sends, c: Sends, task: int)
    requires c.payloads == b.payloads
    ensures Payload(c, task) == Payload(b, task)
  {
  }

  lemma WholeRest(todo: seq<Response>, payload: Bytes)
    requires todo != [] && Rest(todo, payload) && !IsChunk(todo[0])
    ensures Rest(todo[1..], payload) && |todo| >= |DataBodies(payload)|
    ensures if todo[0] == BEGIN then |todo| > 1 && |todo[1..]| == |DataBodies(payload)|
            else todo == [ResponseData(Message(payload))]
  {
    BodiesOf(payload);
    var data := DataBodies(payload);
    hide DataBodies, Chunks;
    if |todo| <= |data| {
      assert todo[0] == data[|data| - |todo|];
      if |payload| > MESSAGE_MAX { assert false; }
    }
  }

  lemma ChunkRest(todo: seq<Response>, payload: Bytes)
    requires todo != [] && Rest(todo, payload) && IsChunk(todo[0])
    ensures |payload| > MESSAGE_MAX && |todo| <= |Chunks(payload)| == |DataBodies(payload)|
    ensures todo[0] == ResponseData(Piece(Chunks(payload)[|Chunks(payload)| - |todo|])) && Rest(todo[1..], payload)
  {
    BodiesOf(payload);
    var data := DataBodies(payload);
    hide DataBodies, Chunks;
    if |todo| <= |data| { assert todo[0] == data[|data| - |todo|]; }
  }

  /** With no other task mid-way the receiver has exactly the part of this one. */
  lemma PartBefore(h: Handler, b: Sends, partial: Option<Partial>, task: int)
    requires PartsOk(h, b, partial) && NoneMidWayBut(h, b, task)
    requires var payload := Payload(b, task); |payload| > MESSAGE_MAX && 0 < |Todo(h, task)| <= |Chunks(payload)|
    ensures var payload := Payload(b, task); partial == PartOf(payload, |Chunks(payload)| - |Todo(h, task)|)
  {
    var payload := Payload(b, task);
    assert TaskOk(h, b, partial, task);
    BodiesOf(payload);
    PartsEnds(payload);
    hide PartOf, Chunks, DataBodies;
  }

  lemma PartAfter(n: Handler, c: Sends, task: int)
    requires NoneMidWayBut(n, c, task)
    requires forall t :: Todo(n, t) != [] ==> Rest(Todo(n, t), Payload(c, t))
    requires var payload := Payload(c, task); |payload| > MESSAGE_MAX && |Todo(n, task)| < |Chunks(payload)|
    ensures var payload := Payload(c, task); PartsOk(n, c, PartOf(payload, |Chunks(payload)| - |Todo(n, task)|))
  {
    var payload := Payload(c, task);
    var partial := PartOf(payload, |Chunks(payload)| - |Todo(n, task)|);
    BodiesOf(payload);
    PartsEnds(payload);
    hide Chunks, DataBodies, Rest, Todo, PartOf, Payload;
    assert MidWay(n, c, task) <==> Todo(n, task) != [];
    forall t ensures TaskOk(n, c, partial, t) {
    }
    hide TaskOk, MidWay;
    assert OneMidWay(n, c);
  }

  lemma ChunkTaken(st: Stream, chunk: Chunk, next: Option<Partial>, full: Option<Bytes>)
    requires !st.closed && FoldOne(st.partial, chunk) == (next, full)
    ensures GoClient.Take(st, ResponseData(Piece(chunk)))
         == st.(partial := next, log := if full.Some? then st.log + [full.value] else st.log)
  {
    hide FoldOne;
  }

  lemma OthersStayOut(h: Handler, n: Handler, b: Sends, c: Sends, partial: Option<Partial>, task: int)
    requires PartsOk(h, b, partial) && SameBut(h, n, b, c, task) && NoneMidWayBut(h, b, task)
    requires Todo(n, task) != [] ==> Rest(Todo(n, task), Payload(c, task))
    ensures NoneMidWayBut(n, c, task) && forall t :: Todo(n, t) != [] ==> Rest(Todo(n, t), Payload(c, t))
  {
    hide Todo, Payload, Rest, DataBodies, PartOf, Chunks;
    forall t | t != task && Todo(n, t) != [] ensures Rest(Todo(n, t), Payload(c, t)) {
      assert TaskOk(h, b, partial, t);
    }
    forall t | t != task ensures !MidWay(n, c, t) {
      assert !MidWay(h, b, t);
    }
  }

  /** One chunk further. */
  lemma NextPart(h: Handler, n: Handler, b: Sends, c: Sends, partial: Option<Partial>, task: int)
    requires PartsOk(h, b, partial) && Todo(h, task) != [] && Todo(n, task) == Todo(h, task)[1..]
    requires SameBut(h, n, b, c, task) && Payload(c, task) == Payload(b, task) && NoneMidWayBut(h, b, task)
    requires var payload := Payload(b, task);
             |payload| > MESSAGE_MAX && |Todo(h, task)| <= |Chunks(payload)| && Rest(Todo(h, task)[1..], payload)
    ensures var payload := Payload(b, task);
            var k := |Chunks(payload)| - |Todo(h, task)|;
            partial == PartOf(payload, k) && PartsOk(n, c, PartOf(payload, k + 1))
  {
    hide Todo, Payload, Rest, Chunks, DataBodies, PartOf, PartsOk, SameBut, NoneMidWayBut;
    PartBefore(h, b, partial, task);
    OthersStayOut(h, n, b, c, partial, task);
    PartAfter(n, c, task);
  }

  lemma NoneElse(h: Handler, b: Sends, s: int, task: int)
    requires Todo(h, task) != [] && IsChunk(Todo(h, task)[0]) && !Mixes(h, b, Queue(s, task))
    ensures NoneMidWayBut(h, b, task)
  {
    hide MidWay;
  }

  /** A chunk: no other task is mid-way before it, so none is after it. */
  lemma ChunkQueued(h: Handler, b: Sends, s: int, task: int, st: Stream)
    requires SendsOk(h, b, st) && Todo(h, task) != [] && IsChunk(Todo(h, task)[0])
    requires !Mixes(h, b, Queue(s, task))
    ensures SendsOk(Popped(h, task), Noted(h, b, Queue(s, task)), GoClient.Take(st, Todo(h, task)[0]))
  {
    var n, c := Popped(h, task), Noted(h, b, Queue(s, task));
    assert !st.closed && st.log == b.completed;
    hide *;
    NextChunk(h, n, b, c, s, task, st);
    ChunkEnds(h, n, b, c, s, task, st);
  }

  lemma NextChunk(h: Handler, n: Handler, b: Sends, c: Sends, s: int, task: int, st: Stream)
    requires SendsOk(h, b, st) && Todo(h, task) != [] && IsChunk(Todo(h, task)[0])
    requires !Mixes(h, b, Queue(s, task)) && n == Popped(h, task) && c == Noted(h, b, Queue(s, task))
    ensures InPart(Todo(h, task), Payload(b, task), st)
    ensures PartsOk(n, c, PartOf(Payload(b, task), |Chunks(Payload(b, task))| - |Todo(h, task)| + 1))
  {
    hide Todo, Payload, Rest, Chunks, DataBodies, PartOf, Popped, PartsOk, Noted, SameBut, NoneMidWayBut, Mixes;
    NoneElse(h, b, s, task);
    RestOf(h, b, st.partial, task);
    ChunkRest(Todo(h, task), Payload(b, task));
    NotedQueue(h, b, s, task);
    PoppedTodo(h, b, c, task);
    SamePayload(b, c, task);
    NextPart(h, n, b, c, st.partial, task);
  }

  /** The receiver has the chunks before the first of `todo`. */
  predicate InPart(todo: seq<Response>, payload: Bytes, st: Stream) {
    && |payload| > MESSAGE_MAX && 0 < |todo| <= |Chunks(payload)|
    && todo[0] == ResponseData(Piece(Chunks(payload)[|Chunks(payload)| - |todo|]))
    && st.partial == PartOf(payload, |Chunks(payload)| - |todo|)
  }

  lemma ChunkEnds(h: Handler, n: Handler, b: Sends, c: Sends, s: int, task: int, st: Stream)
    requires !st.closed && st.log == b.completed && c == Noted(h, b, Queue(s, task))
    requires InPart(Todo(h, task), Payload(b, task), st)
    requires PartsOk(n, c, PartOf(Payload(b, task), |Chunks(Payload(b, task))| - |Todo(h, task)| + 1))
    ensures SendsOk(n, c, GoClient.Take(st, Todo(h, task)[0]))
  {
    var todo, payload := Todo(h, task), Payload(b, task);
    var all := Chunks(payload);
    var k := |all| - |todo|;
    NotedQueue(h, b, s, task);
    hide Todo, Payload, Chunks, PartOf, PartsOk, Noted, FoldOne, GoClient.Take;
    ChunkByChunk(payload, k);
    ChunkTaken(st, all[k], PartOf(payload, k + 1), if k + 1 == |all| then Some(payload) else None);
  }

  lemma QueueKeepsSends(h: Handler, b: Sends, s: int, task: int, st: Stream)
    requires SendsOk(h, b, st) && Todo(h, task) != [] && !Mixes(h, b, Queue(s, task))
    ensures SendsOk(Popped(h, task), Noted(h, b, Queue(s, task)), GoClient.Take(st, Todo(h, task)[0]))
  {
    if IsChunk(Todo(h, task)[0]) { ChunkQueued(h, b, s, task, st); } else { WholeFrame(h, b, s, task, st); }
    hide SendsOk, GoClient.Take, Mixes, Noted;
  }

  lemma BegunTodo(h: Handler, task: int, payload: Bytes)
    requires Todo(h, task) == []
    ensures var n := Begun(h, task, payload);
            && Rest(Todo(n, task), payload) && |Todo(n, task)| >= |DataBodies(payload)|
            && forall t :: t != task ==> Todo(n, t) == Todo(h, t)
  {
    hide DataBodies;
  }

  lemma SendKeepsSends(h: Handler, b: Sends, s: int, task: int, payload: Bytes, st: Stream)
    requires SendsOk(h, b, st)
    ensures SendsOk(Begun(h, task, payload), Noted(h, b, Send(s, task, payload)), st)
  {
    if Todo(h, task) == [] {
      BegunTodo(h, task, payload);
      hide Begun, DataBodies, TaskOk;
      NotMidWay(h, Begun(h, task, payload), b, Noted(h, b, Send(s, task, payload)), st.partial, task);
      hide PartsOk;
    }
  }

  /** The steps that leave the sends alone. */
  lemma SameSends(h: Handler, n: Handler, b: Sends, st: Stream)
    requires SendsOk(h, b, st) && n.tasks == h.tasks
    ensures SendsOk(n, b, st)
  {
    hide DataBodies, PartOf, Chunks, Rest;
    assert forall t :: Todo(n, t) == Todo(h, t);
    assert forall t :: MidWay(n, b, t) <==> MidWay(h, b, t);
    assert forall t :: TaskOk(h, b, st.partial, t) ==> TaskOk(n, b, st.partial, t);
  }

  // ---------------------------------------------------------------- over whole runs

  function View(sv: Server, s: int): Stream {
    GoClient.Taken(Project(sv.queued, s))
  }

  ghost predicate SendingOk(sv: Server, s: int, b: Sends) {
    if s in sv.handlers then SendsOk(sv.handlers[s], b, View(sv, s)) else b == NOTHING
  }

  lemma SaidView(sv: Server, f: ResponseFrame, s: int)
    ensures GoClient.Taken(Project(sv.queued + [f], s))
         == if f.sequence == s then GoClient.Take(View(sv, s), f.body) else View(sv, s)
  {
    ProjectAppends(sv.queued, f, s);
    GoClient.TakenAppends(Project(sv.queued, s), f.body);
    hide Project, GoClient.Taken, GoClient.Take;
  }

  lemma NewSends(inline: Option<Bytes>)
    ensures SendsOk(NewHandler(inline), NOTHING, FRESH)
  {
    var h := NewHandler(inline);
    assert h.tasks == map[];
    hide NewHandler, DataBodies, PartOf, Chunks, Rest;
    assert forall t :: TaskOk(h, NOTHING, None, t) && !MidWay(h, NOTHING, t);
  }

  lemma ServeKeepsSends(paths: set<string>, sv: Server, f: Frame, reason: Response, s: int, b: Sends)
    requires SendingOk(sv, s, b) && ResponsesOk(sv, s) && Admissible(sv, f) && reason.ResponseEnd?
    ensures SendingOk(Handle(paths, sv, f, reason).(processed := sv.processed + [f]), s, b)
  {
    var n := Handle(paths, sv, f, reason);
    HandleResponds(paths, sv, f, reason);
    SaidView(sv, Envelope(f.sequence, reason), s);
    assert sv.queued + [] == sv.queued;
    assert GoClient.Taken([]) == FRESH;
    hide Handle, Project, GoClient.Taken, SendsOk, NewHandler, TasksOk, EmittedOk;
    if f.body.Call? && f.body.path in paths && f.sequence == s {
      NewSends(f.body.inline);
    } else if s in sv.handlers {
      SameSends(sv.handlers[s], n.handlers[s], b, View(sv, s));
    }
  }

  lemma HandlerKeepsSends(paths: set<string>, sv: Server, act: Act, s: int, b: Sends)
    requires SendingOk(sv, s, b) && !act.Serve?
    requires OfTask(sv, act, s) ==> !Mixes(sv.handlers[s], b, act)
    ensures SendingOk(RustServer.Step(paths, sv, act), s,
                      if OfTask(sv, act, s) then Noted(sv.handlers[s], b, act) else b)
  {
    hide Project, GoClient.Taken, SendsOk, Mixes, Noted, Begun, Received;
    match act
    case Write =>
    case Recv(u) =>
      if u == s && s in sv.handlers {
        ReceivingIsApart(sv.handlers[s]);
        SameSends(sv.handlers[s], Received(sv.handlers[s]), b, View(sv, s));
      }
    case Release(u) =>
      if u == s && s in sv.handlers { SameSends(sv.handlers[s], sv.handlers[s].(gone := true), b, View(sv, s)); }
    case Send(u, task, payload) =>
      if u == s && s in sv.handlers { SendKeepsSends(sv.handlers[s], b, s, task, payload, View(sv, s)); }
    case Queue(u, task) => QueueKeepsSending(paths, sv, u, task, s, b);
    case Return(u, final) => ReturnKeepsSending(paths, sv, u, final, s, b);
  }

  lemma QueueKeepsSending(paths: set<string>, sv: Server, u: int, task: int, s: int, b: Sends)
    requires SendingOk(sv, s, b) && (u == s && s in sv.handlers ==> !Mixes(sv.handlers[s], b, Queue(u, task)))
    ensures SendingOk(RustServer.Step(paths, sv, Queue(u, task)), s,
                      if u == s && s in sv.handlers then Noted(sv.handlers[s], b, Queue(u, task)) else b)
  {
    hide Project, GoClient.Taken, GoClient.Take, SendsOk, Mixes;
    if u in sv.handlers && Todo(sv.handlers[u], task) != [] {
      SaidView(sv, Envelope(u, Todo(sv.handlers[u], task)[0]), s);
      if u == s { QueueKeepsSends(sv.handlers[s], b, s, task, View(sv, s)); }
    }
  }

  lemma ReturnKeepsSending(paths: set<string>, sv: Server, u: int, final: Response, s: int, b: Sends)
    requires SendingOk(sv, s, b)
    ensures SendingOk(RustServer.Step(paths, sv, Return(u, final)), s, b)
  {
    hide Project, GoClient.Taken, SendsOk;
    if u in sv.handlers && final.ResponseEnd? {
      SaidView(sv, Envelope(u, final), s);
      if u == s { SameSends(sv.handlers[s], sv.handlers[s].(ended := true), b, View(sv, s)); }
    }
  }

  lemma {:induction false} RunKeepsSends(paths: set<string>, acts: seq<Act>, s: int)
    requires Unmixed(paths, acts, s)
    ensures SendingOk(RustServer.Run(paths, acts), s, Sent(paths, acts, s))
    decreases |acts|
  {
    if acts != [] {
      var front, act := acts[..|acts| - 1], acts[|acts| - 1];
      var sv, b := RustServer.Run(paths, front), Sent(paths, front, s);
      RunKeepsSends(paths, front, s);
      RunKeepsResponses(paths, front, s);
      hide SendingOk, ResponsesOk, Handle, Mixes, Noted, Admissible;
      if act.Serve? {
        if Admissible(sv, act.frame) && act.reason.ResponseEnd? {
          ServeKeepsSends(paths, sv, act.frame, act.reason, s, b);
        }
      } else {
        HandlerKeepsSends(paths, sv, act, s, b);
        hide RustServer.Step;
      }
    }
  }

  lemma WrittenView(sv: Server, s: int)
    requires sv.written <= |sv.queued|
    ensures GoClient.Taken(Project(sv.queued[..sv.written], s)).log <= View(sv, s).log
  {
    WrittenFirst(sv, s);
    hide Project, GoClient.Taken;
    var all, part := Project(sv.queued, s), Project(sv.queued[..sv.written], s);
    GoReplies.TakenGrows(part, all[|part|..]);
    assert part + all[|part|..] == all;
  }

  /** Whatever the interleaving of its tasks: if no chunk of a message is queued while another task is mid-way
      through its own, what a receiver makes of the frames queued for a stream is exactly the messages whose last
      frame is queued, whole and in that order, and a partial message only while a task is mid-way; of the frames
      written it makes a first part of them. */
  lemma UnmixedArriveWhole(paths: set<string>, acts: seq<Act>, s: int)
    requires Unmixed(paths, acts, s) && s in RustServer.Run(paths, acts).handlers
    ensures var sv, b := RustServer.Run(paths, acts), Sent(paths, acts, s);
            && GoClient.Taken(Project(sv.queued, s)).log == b.completed
            && (NoneMidWay(sv.handlers[s], b) ==> GoClient.Taken(Project(sv.queued, s)).partial == None)
            && sv.written <= |sv.queued| && GoClient.Taken(Project(sv.queued[..sv.written], s)).log <= b.completed
  {
    RunKeepsSends(paths, acts, s);
    RunKeepsResponses(paths, acts, s);
    hide RustServer.Run, Sent, Unmixed, Project, GoClient.Taken, TasksOk, EmittedOk, NoneMidWay, OneMidWay, TaskOk;
    WrittenView(RustServer.Run(paths, acts), s);
  }

  /** One send at a time never mixes. */
  lemma {:induction false} OrderlyIsUnmixed(paths: set<string>, acts: seq<Act>, s: int)
    requires Orderly(paths, acts)
    ensures Unmixed(paths, acts, s)
    decreases |acts|
  {
    if acts != [] {
      OrderlyIsUnmixed(paths, acts[..|acts| - 1], s);
      RunKeepsOrder(paths, acts[..|acts| - 1], s);
      hide GoServerWire.Grammatical, DataBodies, RustServer.Run, Project;
    }
  }

  // ---------------------------------------------------------------- what mixing does

  /** The chunks of two tasks in the order in which they were queued. */
  datatype Queued = Queued(task: bool, chunk: Chunk)

  function By(task: bool, qs: seq<Queued>): seq<Chunk>
    decreases |qs|
  {
    if qs == [] then [] else
    if qs[0].task == task then [qs[0].chunk] + By(task, qs[1..]) else By(task, qs[1..])
  }

  function All(qs: seq<Queued>): seq<Chunk> {
    if qs == [] then [] else [qs[0].chunk] + All(qs[1..])
  }

  /** One task's chunks all come before the other's. */
  predicate Apart(qs: seq<Queued>) {
    forall i, j, k :: 0 <= i < j < k < |qs| && qs[i].task == qs[k].task ==> qs[j].task == qs[i].task
  }

  predicate NoneOfLength(outs: seq<Bytes>, n: nat) {
    forall i :: 0 <= i < |outs| ==> |outs[i]| != n
  }

  /** Bytes that count towards a message of length `n`. */
  function Towards(p: Option<Partial>, cs: seq<Chunk>, n: nat): nat
    decreases |cs|
  {
    if cs == [] then (if p.Some? && |p.value.buf| == n then p.value.got else 0)
    else (if cs[0].total == n then |cs[0].data| else 0) + Towards(p, cs[1..], n)
  }

  /** Too few bytes never complete a message. */
  lemma {:induction false} NeverWhole(p: Option<Partial>, cs: seq<Chunk>, n: nat)
    requires Towards(p, cs, n) < n
    ensures NoneOfLength(RunOne(p, cs).1, n)
    decreases |cs|
  {
    if cs != [] {
      var (q, out) := FoldOne(p, cs[0]);
      FoldCounts(p, cs, n);
      hide FoldOne;
      NeverWhole(q, cs[1..], n);
    }
  }

  lemma FoldCounts(p: Option<Partial>, cs: seq<Chunk>, n: nat)
    requires cs != [] && Towards(p, cs, n) < n
    ensures var (q, out) := FoldOne(p, cs[0]);
            Towards(q, cs[1..], n) <= Towards(p, cs, n) && (out.Some? ==> |out.value| != n)
  {
    TowardsSplits(p, cs[1..], n);
    TowardsSplits(FoldOne(p, cs[0]).0, cs[1..], n);
  }

  lemma {:induction false} TowardsSplits(p: Option<Partial>, cs: seq<Chunk>, n: nat)
    ensures Towards(p, cs, n) == Towards(None, cs, n) + Towards(p, [], n)
    decreases |cs|
  {
    if cs != [] { TowardsSplits(p, cs[1..], n); }
  }

  lemma {:induction false} ByConcatenates(task: bool, a: seq<Queued>, b: seq<Queued>)
    ensures By(task, a + b) == By(task, a) + By(task, b)
    decreases |a|
  {
    if a == [] {
      assert a + b == b;
    } else {
      ByConcatenates(task, a[1..], b);
      assert (a + b)[0] == a[0] && (a + b)[1..] == a[1..] + b;
      var front, back := By(task, a[1..]), By(task, b);
      assert ([a[0].chunk] + front) + back == [a[0].chunk] + (front + back);
    }
  }

  lemma {:induction false} AllConcatenates(a: seq<Queued>, b: seq<Queued>)
    ensures All(a + b) == All(a) + All(b)
    decreases |a|
  {
    if a == [] {
      assert a + b == b;
    } else {
      AllConcatenates(a[1..], b);
      assert (a + b)[0] == a[0] && (a + b)[1..] == a[1..] + b;
      assert ([a[0].chunk] + All(a[1..])) + All(b) == [a[0].chunk] + (All(a[1..]) + All(b));
    }
  }

  /** Every chunk carries the length of its task's message. */
  predicate Lengths(qs: seq<Queued>, task: bool, n: nat) {
    forall i :: 0 <= i < |qs| ==> (qs[i].task == task <==> qs[i].chunk.total == n)
  }

  lemma {:induction false} TowardsIsLen(qs: seq<Queued>, task: bool, n: nat)
    requires Lengths(qs, task, n)
    ensures Towards(None, All(qs), n) == Len(By(task, qs))
    decreases |qs|
  {
    if qs != [] {
      TowardsIsLen(qs[1..], task, n);
      assert All(qs)[1..] == All(qs[1..]);
    }
  }

  lemma {:induction false} HasBytes(qs: seq<Queued>, task: bool, i: nat)
    requires i < |qs| && qs[i].task == task && qs[i].chunk.data != []
    ensures Len(By(task, qs)) > 0
    decreases |qs|
  {
    if i > 0 { HasBytes(qs[1..], task, i - 1); }
    assert qs[0].task == task ==> By(task, qs)[1..] == By(task, qs[1..]);
  }

  /** A message whose chunks another task's get in between of is never completed. */
  lemma InterruptedIsLost(qs: seq<Queued>, n: nat, i: nat, j: nat, k: nat)
    requires i < j < k < |qs| && qs[i].task == qs[k].task != qs[j].task
    requires Lengths(qs, qs[i].task, n) && Len(By(qs[i].task, qs)) == n
    requires qs[i].chunk.data != [] && qs[k].chunk.data != []
    ensures NoneOfLength(RunOne(None, All(qs)).1, n)
  {
    var task, a, c, b := qs[i].task, qs[..j], qs[j].chunk, qs[j + 1..];
    SumSplits(qs, task, j);
    HasBytes(a, task, i);
    HasBytes(b, task, k - j - 1);
    TowardsIsLen(a, task, n);
    TowardsIsLen(b, task, n);
    hide Len, By, RunOne;
    assert c.total != n;
    CutInTwo(All(a), c, All(b), n);
    AllAround(qs, j);
  }

  lemma AllAround(qs: seq<Queued>, j: nat)
    requires j < |qs|
    ensures All(qs) == All(qs[..j]) + ([qs[j].chunk] + All(qs[j + 1..]))
  {
    AllConcatenates(qs[..j], qs[j..]);
    assert qs[..j] + qs[j..] == qs && qs[j..][1..] == qs[j + 1..];
  }

  lemma SumSplits(qs: seq<Queued>, task: bool, j: nat)
    requires j < |qs| && qs[j].task != task
    ensures Len(By(task, qs)) == Len(By(task, qs[..j])) + Len(By(task, qs[j + 1..]))
  {
    ByConcatenates(task, qs[..j], qs[j..]);
    LenAppends(By(task, qs[..j]), By(task, qs[j..]));
    assert qs[..j] + qs[j..] == qs && qs[j..][1..] == qs[j + 1..];
    assert By(task, qs[j..]) == By(task, qs[j + 1..]);
  }

  /** A chunk of another length in the middle makes what came before worthless. */
  lemma CutInTwo(a: seq<Chunk>, c: Chunk, b: seq<Chunk>, n: nat)
    requires c.total != n && Towards(None, a, n) < n && Towards(None, b, n) < n
    ensures NoneOfLength(RunOne(None, a + ([c] + b)).1, n)
  {
    var p := RunOne(None, a).0;
    var (q, out) := FoldOne(p, c);
    NeverWhole(None, a, n);
    FoldsOther(p, c, n);
    TowardsSplits(q, b, n);
    NeverWhole(q, b, n);
    RunOneConcatenates(None, a, [c] + b);
    hide FoldOne, Towards;
    assert ([c] + b)[1..] == b;
  }

  lemma FoldsOther(p: Option<Partial>, c: Chunk, n: nat)
    requires c.total != n
    ensures var (q, out) := FoldOne(p, c); Towards(q, [], n) == 0 && (out.Some? ==> |out.value| != n)
  {
  }

  predicate AllOf(task: bool, qs: seq<Queued>) {
    forall i :: 0 <= i < |qs| ==> qs[i].task == task
  }

  lemma {:induction false} OneTask(task: bool, qs: seq<Queued>)
    requires AllOf(task, qs)
    ensures By(task, qs) == All(qs) && By(!task, qs) == []
    decreases |qs|
  {
    if qs != [] { OneTask(task, qs[1..]); }
  }

  /** How many chunks the first task has at the front. */
  function Front(task: bool, qs: seq<Queued>): (c: nat)
    ensures c <= |qs| && AllOf(task, qs[..c]) && (c < |qs| ==> qs[c].task != task)
  {
    if qs == [] || qs[0].task != task then 0 else
    var c := Front(task, qs[1..]);
    assert qs[..c + 1] == [qs[0]] + qs[1..][..c];
    c + 1
  }

  lemma ApartInOrder(qs: seq<Queued>)
    requires Apart(qs) && qs != []
    ensures var first := qs[0].task; All(qs) == By(first, qs) + By(!first, qs)
  {
    var first := qs[0].task;
    var c := Front(first, qs);
    var a, b := qs[..c], qs[c..];
    hide All, By, Front;
    assert AllOf(!first, b);
    OneTask(first, a);
    OneTask(!first, b);
    hide Apart, AllOf;
    assert a + b == qs;
    ByConcatenates(first, a, b);
    ByConcatenates(!first, a, b);
    AllConcatenates(a, b);
    assert By(first, a) + [] == By(first, a) && [] + By(!first, b) == By(!first, b);
  }

  lemma TwoInOrder(x: Bytes, y: Bytes)
    requires |x| > MESSAGE_MAX && |y| > MESSAGE_MAX
    ensures RunOne(None, Chunks(x) + Chunks(y)) == (None, [x, y])
  {
    AnyOrder(x, GO_CHUNK_SIZE, None, Chunks(x));
    AnyOrder(y, GO_CHUNK_SIZE, None, Chunks(y));
    RunOneConcatenates(None, Chunks(x), Chunks(y));
    hide RunOne, Split;
    assert [x] + [y] == [x, y];
  }

  lemma {:induction false} InBy(qs: seq<Queued>, i: nat)
    requires i < |qs|
    ensures qs[i].chunk in By(qs[i].task, qs)
    decreases |qs|
  {
    if i > 0 { InBy(qs[1..], i - 1); }
  }

  lemma ChunkHasBytes(payload: Bytes, c: Chunk)
    requires |payload| > MESSAGE_MAX && c in Chunks(payload)
    ensures c.total == |payload| && c.data != [] && Len(Chunks(payload)) == |payload|
  {
    SplitPartitions(payload, 0, GO_CHUNK_SIZE);
    hide Split;
  }

  predicate InSomeOrder(outs: seq<Bytes>, x: Bytes, y: Bytes) {
    outs == [x, y] || outs == [y, x]
  }

  /** Two messages of different lengths, in chunks, from two tasks at once: both are received exactly if the chunks
      of one all come before those of the other; else one whose chunks were interrupted never is. */
  lemma MixingLosesExactly(x: Bytes, y: Bytes, qs: seq<Queued>)
    requires |x| > MESSAGE_MAX && |y| > MESSAGE_MAX && |x| != |y|
    requires By(true, qs) == Chunks(x) && By(false, qs) == Chunks(y)
    ensures InSomeOrder(RunOne(None, All(qs)).1, x, y) <==> Apart(qs)
  {
    if Apart(qs) {
      ApartArrive(x, y, qs);
    } else {
      SomeInterrupted(x, y, qs);
    }
  }

  lemma SomeInterrupted(x: Bytes, y: Bytes, qs: seq<Queued>)
    requires |x| > MESSAGE_MAX && |y| > MESSAGE_MAX && |x| != |y| && !Apart(qs)
    requires By(true, qs) == Chunks(x) && By(false, qs) == Chunks(y)
    ensures !InSomeOrder(RunOne(None, All(qs)).1, x, y)
  {
    var i, j, k :| 0 <= i < j < k < |qs| && qs[i].task == qs[k].task && qs[j].task != qs[i].task;
    var payload := if qs[i].task then x else y;
    LengthsOf(x, y, qs, qs[i].task);
    hide All, By, Chunks, RunOne, Apart, Len, Lengths;
    InterruptedIsLost(qs, |payload|, i, j, k);
    var outs := RunOne(None, All(qs)).1;
    assert |outs| == 2 ==> |outs[0]| != |payload| && |outs[1]| != |payload|;
  }

  lemma ApartArrive(x: Bytes, y: Bytes, qs: seq<Queued>)
    requires |x| > MESSAGE_MAX && |y| > MESSAGE_MAX && Apart(qs)
    requires By(true, qs) == Chunks(x) && By(false, qs) == Chunks(y)
    ensures InSomeOrder(RunOne(None, All(qs)).1, x, y)
  {
    BodiesOf(x);
    assert qs != [];
    ApartInOrder(qs);
    TwoInOrder(x, y);
    TwoInOrder(y, x);
    hide By, All, RunOne, Chunks, DataBodies;
  }

  lemma LengthsOf(x: Bytes, y: Bytes, qs: seq<Queued>, task: bool)
    requires |x| > MESSAGE_MAX && |y| > MESSAGE_MAX && |x| != |y|
    requires By(true, qs) == Chunks(x) && By(false, qs) == Chunks(y)
    ensures var n := if task then |x| else |y|; Lengths(qs, task, n) && Len(By(task, qs)) == n
    ensures forall i :: 0 <= i < |qs| ==> qs[i].chunk.data != []
  {
    forall i | 0 <= i < |qs|
      ensures qs[i].chunk.data != [] && qs[i].chunk.total == if qs[i].task then |x| else |y|
    {
      InBy(qs, i);
      ChunkHasBytes(if qs[i].task then x else y, qs[i].chunk);
    }
    SplitPartitions(x, 0, GO_CHUNK_SIZE);
    SplitPartitions(y, 0, GO_CHUNK_SIZE);
    hide By, Split, Len;
  }
}
