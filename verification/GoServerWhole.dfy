/** What each operation of the Go server comes to when nothing else happens meanwhile. */
module GoServerWhole {
  import opened Wire
  import opened Frames
  import opened GoServer
  import Reassembly

  // ---------------------------------------------------------------- sending

  function Under(s: int, bodies: seq<Response>): (fs: seq<ResponseFrame>)
    ensures |fs| == |bodies|
  {
    seq(|bodies|, i requires 0 <= i < |bodies| => Envelope(s, bodies[i]))
  }

  /** The handler of `s` hands over a frame, and waits until it is written. */
  function OneOut(paths: set<string>, m: Mux, s: int): Mux {
    Step(paths, Step(paths, Step(paths, m, Enqueue(s)), Write), Acked(s))
  }

  /** The same for `count` frames. */
  function WriteOut(paths: set<string>, m: Mux, s: int, count: nat): Mux
    decreases count
  {
    if count == 0 then m else WriteOut(paths, OneOut(paths, m, s), s, count - 1)
  }

  predicate Queues(m: Mux, s: int, todo: seq<Response>, after: After) {
    s in m.handlers && m.handlers[s].pc == Queueing(todo, after) && m.out == []
  }

  /** Nothing has changed but what is written and what the handler has yet to hand over. */
  predicate Wrote(m: Mux, n: Mux, s: int, bodies: seq<Response>, todo: seq<Response>, after: After) {
    && s in m.handlers && n.handlers == m.handlers[s := m.handlers[s].(pc := Queueing(todo, after))]
    && n.wire == m.wire + Under(s, bodies) && n.out == []
    && n.live == m.live && n.serve == m.serve && n.rejected == m.rejected
  }

  lemma Enqueues(paths: set<string>, m: Mux, s: int, todo: seq<Response>, after: After)
    requires Queues(m, s, todo, after) && todo != []
    ensures var n := Step(paths, m, Enqueue(s));
            && n.handlers == m.handlers[s := m.handlers[s].(pc := Waiting(m.tickets, todo[1..], after))]
            && n.out == [OutFrame(Envelope(s, todo[0]), m.tickets)] && n.wire == m.wire
            && n.live == m.live && n.serve == m.serve && n.rejected == m.rejected
  {
    hide SendStep, RecvStep;
  }

  lemma WritesAndWakes(paths: set<string>, m: Mux, s: int, ticket: nat, f: ResponseFrame)
    requires m.out == [OutFrame(f, ticket)]
    requires s in m.handlers && m.handlers[s].pc.Waiting? && m.handlers[s].pc.ticket == ticket
    ensures var h, n := m.handlers[s], Step(paths, Step(paths, m, Write), Acked(s));
            && n.handlers == m.handlers[s := h.(pc := Queueing(h.pc.todo, h.pc.after))]
            && n.out == [] && n.wire == m.wire + [f]
            && n.live == m.live && n.serve == m.serve && n.rejected == m.rejected
  {
    var m1 := Step(paths, m, Write);
    assert m1.out == [] && m1.handlers == m.handlers && ticket in m1.acked && m1.wire == m.wire + [f];
    hide RecvStep, DataBodies;
  }

  lemma OneFrameOut(paths: set<string>, m: Mux, s: int, todo: seq<Response>, after: After)
    requires Queues(m, s, todo, after) && todo != []
    ensures var n := OneOut(paths, m, s);
            Wrote(m, n, s, [todo[0]], todo[1..], after) && Queues(n, s, todo[1..], after)
  {
    Enqueues(paths, m, s, todo, after);
    var m1 := Step(paths, m, Enqueue(s));
    hide Step;
    WritesAndWakes(paths, m1, s, m.tickets, Envelope(s, todo[0]));
    assert Under(s, [todo[0]]) == [Envelope(s, todo[0])];
    hide Under;
  }

  lemma WroteMore(m: Mux, k: Mux, n: Mux, s: int, todo: seq<Response>, after: After)
    requires todo != [] && Wrote(m, k, s, [todo[0]], todo[1..], after) && Wrote(k, n, s, todo[1..], [], after)
    ensures Wrote(m, n, s, todo, [], after)
  {
    assert Under(s, [todo[0]]) + Under(s, todo[1..]) == Under(s, todo);
    assert (m.wire + Under(s, [todo[0]])) + Under(s, todo[1..]) == m.wire + (Under(s, [todo[0]]) + Under(s, todo[1..]));
  }

  lemma {:induction false} AllFramesOut(paths: set<string>, m: Mux, s: int, todo: seq<Response>, after: After)
    requires Queues(m, s, todo, after)
    ensures var n := WriteOut(paths, m, s, |todo|); Wrote(m, n, s, todo, [], after) && Queues(n, s, [], after)
    decreases |todo|
  {
    if todo == [] {
      assert m.wire + Under(s, todo) == m.wire;
    } else {
      var next := OneOut(paths, m, s);
      assert WriteOut(paths, m, s, |todo|) == WriteOut(paths, next, s, |todo[1..]|);
      hide OneOut, Wrote, Queues, Under, WriteOut, Step;
      OneFrameOut(paths, m, s, todo, after);
      AllFramesOut(paths, next, s, todo[1..], after);
      WroteMore(m, next, WriteOut(paths, next, s, |todo[1..]|), s, todo, after);
    }
  }

  /** What a send adds to the wire. */
  function Spoken(header: Option<Metadata>, hdr: Metadata, payload: Bytes): seq<Response> {
    (if header.Some? then [] else [Begin(hdr, None)]) + DataBodies(payload)
  }

  function WholeSend(paths: set<string>, m: Mux, s: int, payload: Bytes, hdr: Metadata, count: nat): Mux {
    Step(paths, WriteOut(paths, Step(paths, Step(paths, m, TrySend(s, payload)), Flush(s, hdr)), s, count), Advance(s))
  }

  lemma Commits(paths: set<string>, m: Mux, s: int, payload: Bytes, hdr: Metadata)
    requires s in m.handlers && m.handlers[s].pc == Free && s in m.live
    ensures var n := Step(paths, Step(paths, m, TrySend(s, payload)), Flush(s, hdr));
            && s in n.handlers && n.handlers.Keys == m.handlers.Keys
            && n.handlers[s].pc == Queueing(Spoken(m.handlers[s].header, hdr, payload), ToFree)
            && n.handlers[s].messages == m.handlers[s].messages + [payload] && n.handlers[s].header.Some?
            && n.wire == m.wire && n.out == m.out && n.live == m.live
  {
    hide DataBodies;
    assert [] + DataBodies(payload) == DataBodies(payload);
    var h := m.handlers[s];
    var m1 := Step(paths, m, TrySend(s, payload));
    assert m1 == Set(m, s, h.(pc := Looked(payload), started := h.started + 1));
  }

  lemma Freed(paths: set<string>, m: Mux, s: int)
    requires Queues(m, s, [], ToFree)
    ensures Step(paths, m, Advance(s)) == Set(m, s, m.handlers[s].(pc := Free))
  {
  }

  /** A Send on a live stream writes a Begin if there was none and the frames of its payload, in order, and leaves
      the handler free to send again. */
  lemma SendWrites(paths: set<string>, m: Mux, s: int, payload: Bytes, hdr: Metadata)
    requires s in m.handlers && m.handlers[s].pc == Free && s in m.live && m.out == []
    ensures var spoken := Spoken(m.handlers[s].header, hdr, payload);
            var n := WholeSend(paths, m, s, payload, hdr, |spoken|);
            && n.wire == m.wire + Under(s, spoken) && n.out == [] && n.live == m.live
            && s in n.handlers && n.handlers[s].pc == Free
            && n.handlers[s].messages == m.handlers[s].messages + [payload]
  {
    var spoken := Spoken(m.handlers[s].header, hdr, payload);
    Commits(paths, m, s, payload, hdr);
    var n := Step(paths, Step(paths, m, TrySend(s, payload)), Flush(s, hdr));
    AllFramesOut(paths, n, s, spoken, ToFree);
    var written := WriteOut(paths, n, s, |spoken|);
    hide WriteOut, Spoken, DataBodies, Under;
    Freed(paths, written, s);
    hide Step;
  }

  // ---------------------------------------------------------------- returning

  /** The handler returns, and has its Begin written if there is still one to write. */
  function ReturnBegins(paths: set<string>, m: Mux, s: int, final: Response, hdr: Metadata, begins: bool): Mux {
    var n := Step(paths, Step(paths, m, Return(s, final)), EndHeader(s, hdr));
    if begins then Step(paths, WriteOut(paths, n, s, 1), Advance(s)) else n
  }

  /** It takes its stream out of the map and has its End written. */
  function DeleteEnds(paths: set<string>, m: Mux, s: int): Mux {
    Step(paths, WriteOut(paths, Step(paths, m, Delete(s)), s, 1), Advance(s))
  }

  function WholeReturn(paths: set<string>, m: Mux, s: int, final: Response, hdr: Metadata, begins: bool): Mux {
    DeleteEnds(paths, ReturnBegins(paths, m, s, final, hdr, begins), s)
  }

  lemma Returns(paths: set<string>, m: Mux, s: int, final: Response, hdr: Metadata)
    requires s in m.handlers && m.handlers[s].pc == Free && final.ResponseEnd?
    ensures var n := Step(paths, Step(paths, m, Return(s, final)), EndHeader(s, hdr));
            && s in n.handlers && n.wire == m.wire && n.out == m.out && n.live == m.live
            && n.handlers[s].pc ==
                 (if s in m.live && m.handlers[s].header == None then Queueing([Begin(hdr, None)], ToDelete(final))
                  else Deleting(final))
  {
    var h := m.handlers[s];
    var m1 := Step(paths, m, Return(s, final));
    assert m1 == Set(m, s, h.(pc := EndLooked(s in m.live, final)));
  }

  lemma Deletable(paths: set<string>, m: Mux, s: int, final: Response)
    requires Queues(m, s, [], ToDelete(final))
    ensures Step(paths, m, Advance(s)) == Set(m, s, m.handlers[s].(pc := Deleting(final)))
  {
  }

  lemma BeginsThenDeletes(paths: set<string>, m: Mux, s: int, final: Response, hdr: Metadata)
    requires s in m.handlers && m.handlers[s].pc == Free && final.ResponseEnd? && m.out == []
    ensures var begins := s in m.live && m.handlers[s].header == None;
            var n := ReturnBegins(paths, m, s, final, hdr, begins);
            && s in n.handlers && n.handlers[s].pc == Deleting(final) && n.out == [] && n.live == m.live
            && n.wire == m.wire + Under(s, if begins then [Begin(hdr, None)] else [])
  {
    Returns(paths, m, s, final, hdr);
    var n := Step(paths, Step(paths, m, Return(s, final)), EndHeader(s, hdr));
    if n.handlers[s].pc.Queueing? {
      AllFramesOut(paths, n, s, [Begin(hdr, None)], ToDelete(final));
      var written := WriteOut(paths, n, s, 1);
      hide WriteOut, Under;
      Deletable(paths, written, s, final);
      hide Step;
    } else {
      assert m.wire + Under(s, []) == m.wire;
    }
  }

  lemma Finishes(paths: set<string>, m: Mux, s: int)
    requires Queues(m, s, [], ToDone)
    ensures Step(paths, m, Advance(s)) == Set(m, s, m.handlers[s].(pc := Done, ctxDone := true))
  {
  }

  lemma LeavesMap(paths: set<string>, m: Mux, s: int, final: Response)
    requires s in m.handlers && m.handlers[s].pc == Deleting(final) && m.out == []
    ensures var n := Step(paths, m, Delete(s)); Queues(n, s, [final], ToDone) && s !in n.live && n.wire == m.wire
  {
  }

  lemma Deletes(paths: set<string>, m: Mux, s: int, final: Response)
    requires s in m.handlers && m.handlers[s].pc == Deleting(final) && m.out == []
    ensures var n := DeleteEnds(paths, m, s);
            && s in n.handlers && n.handlers[s].pc == Done && n.handlers[s].ctxDone && s !in n.live
            && n.wire == m.wire + [Envelope(s, final)] && n.out == []
  {
    LeavesMap(paths, m, s, final);
    var m1 := Step(paths, m, Delete(s));
    AllFramesOut(paths, m1, s, [final], ToDone);
    Finishes(paths, WriteOut(paths, m1, s, 1), s);
    assert Under(s, [final]) == [Envelope(s, final)];
    hide WriteOut, Step, Under;
  }

  /** A return writes a Begin if the stream is still in the map and had none, then the End; the stream is out of the
      map and its context has ended. */
  lemma ReturnWrites(paths: set<string>, m: Mux, s: int, final: Response, hdr: Metadata)
    requires s in m.handlers && m.handlers[s].pc == Free && final.ResponseEnd? && m.out == []
    ensures var begins := s in m.live && m.handlers[s].header == None;
            var n := WholeReturn(paths, m, s, final, hdr, begins);
            && n.wire == m.wire + Under(s, (if begins then [Begin(hdr, None)] else []) + [final]) && n.out == []
            && s in n.handlers && n.handlers[s].pc == Done && n.handlers[s].ctxDone && s !in n.live
  {
    var begins := s in m.live && m.handlers[s].header == None;
    var first := if begins then [Begin(hdr, None)] else [];
    hide WriteOut, Step, ReturnBegins, DeleteEnds, Under;
    BeginsThenDeletes(paths, m, s, final, hdr);
    Deletes(paths, ReturnBegins(paths, m, s, final, hdr, begins), s, final);
    OneMoreUnder(m.wire, s, first, final);
  }

  lemma OneMoreUnder(wire: seq<ResponseFrame>, s: int, bodies: seq<Response>, b: Response)
    ensures (wire + Under(s, bodies)) + [Envelope(s, b)] == wire + Under(s, bodies + [b])
  {
    assert Under(s, bodies + [b]) == Under(s, bodies) + [Envelope(s, b)];
    hide Under;
  }

  // ---------------------------------------------------------------- serving

  lemma Rejects(paths: set<string>, m: Mux, s: int, path: string, inline: Option<Bytes>, reason: Response)
    requires m.serve == Reading && s !in m.handlers && s !in m.rejected && path !in paths && reason.ResponseEnd?
    ensures var f := Envelope(s, Call(path, inline));
            Step(paths, m, Serve(f, reason))
            == m.(rejected := m.rejected + {s}, serve := Rejecting(s, reason), processed := m.processed + [f])
  {
    hide Reassembly.Fold;
  }

  lemma Answers(paths: set<string>, m: Mux, s: int, reason: Response)
    requires m.serve == Rejecting(s, reason) && m.out == []
    ensures var n := Step(paths, Step(paths, Step(paths, m, ServeEnqueue), Write), ServeAcked);
            && n.wire == m.wire + [Envelope(s, reason)] && n.out == [] && n.serve == Reading
            && n.handlers == m.handlers && n.live == m.live && n.rejected == m.rejected
  {
    var m1 := ServeStep(m, ServeEnqueue);
    var m2 := ServeStep(m1, Write);
    ServeStepIsStep(paths, m, ServeEnqueue);
    ServeStepIsStep(paths, m1, Write);
    ServeStepIsStep(paths, m2, ServeAcked);
    hide Step;
    assert m1.out == [OutFrame(Envelope(s, reason), m.tickets)] && m1.serve == RejectWaiting(s, m.tickets);
  }

  /** A Call of an unknown method is answered by its End and nothing else. */
  lemma RejectionWrites(paths: set<string>, m: Mux, s: int, path: string, inline: Option<Bytes>, reason: Response)
    requires m.serve == Reading && m.out == [] && s !in m.handlers && s !in m.rejected
    requires path !in paths && reason.ResponseEnd?
    ensures var n := Step(paths, Step(paths, Step(paths, Step(paths,
                       m, Serve(Envelope(s, Call(path, inline)), reason)), ServeEnqueue), Write), ServeAcked);
            && n.wire == m.wire + [Envelope(s, reason)] && n.out == [] && n.serve == Reading
            && n.handlers == m.handlers && n.live == m.live && n.rejected == m.rejected + {s}
  {
    Rejects(paths, m, s, path, inline, reason);
    hide Step;
    Answers(paths, Step(paths, m, Serve(Envelope(s, Call(path, inline)), reason)), s, reason);
  }

  /** A Call of a known method starts a handler whose first receive finds the inline payload, if there is one. */
  lemma CallStarts(paths: set<string>, m: Mux, s: int, path: string, inline: Option<Bytes>, reason: Response)
    requires m.serve == Reading && s !in m.handlers && s !in m.rejected && path in paths && reason.ResponseEnd?
    ensures var n := Step(paths, m, Serve(Envelope(s, Call(path, inline)), reason));
            && n.handlers.Keys == m.handlers.Keys + {s} && n.live == m.live + {s} && n.serve == Reading
            && (forall k :: k in m.handlers ==> n.handlers[k] == m.handlers[k])
            && n.handlers[s].inbound == (if inline.Some? then [inline.value] else [])
            && n.handlers[s].pc == Free && !n.handlers[s].ctxDone && !n.handlers[s].halfClosed
  {
    hide Reassembly.Fold;
  }

  /** A payload for a stream in the map joins its inbound channel if there is room. */
  lemma PayloadArrives(paths: set<string>, m: Mux, s: int, payload: Bytes, reason: Response)
    requires m.serve == Reading && s in m.handlers && s in m.live && reason.ResponseEnd?
    requires |m.handlers[s].inbound| < 16
    ensures var h := m.handlers[s];
            var n := Step(paths, Step(paths, m, Serve(Envelope(s, Data(Message(payload))), reason)), ServePush);
            && n.handlers == m.handlers[s := h.(inbound := h.inbound + [payload], log := h.log + [payload])]
            && n.serve == Reading && n.live == m.live && n.wire == m.wire
  {
    hide Reassembly.Fold;
  }

  /** A serve loop that waits for room in the channel of an ended stream may go on. */
  lemma EndedStreamReleases(paths: set<string>, m: Mux)
    requires m.serve.Delivering? && m.serve.s in m.handlers && m.handlers[m.serve.s].ctxDone
    ensures Step(paths, m, ServeDrop) == m.(serve := Reading)
  {
  }

  lemma ReceiverActs(paths: set<string>, m: Mux, s: int, act: Act)
    requires s in m.handlers && OfReceiver(act) && act.s == s
    ensures Step(paths, m, act) == m.(handlers := m.handlers[s := RecvStep(m.handlers[s], act)])
  {
    hide RecvStep;
  }

  /** A Recv takes the first payload that waits; finding none it waits, and then returns with the next payload, with
      EOF after a half-close, or with an error once the context has ended. */
  lemma ReceiveReturns(h: Handler, s: int, x: Bytes)
    requires !h.recvBlocked
    ensures var tried := RecvStep(h, RecvTry(s));
            if h.inbound != [] then tried == h.(received := h.received + [h.inbound[0]], inbound := h.inbound[1..])
            else
              && RecvStep(tried.(inbound := [x]), RecvTake(s)) == h.(received := h.received + [x])
              && RecvStep(tried, RecvEof(s)) == (if h.halfClosed then h.(eofs := h.eofs + 1) else tried)
              && RecvStep(tried, RecvCancelled(s)) == (if h.ctxDone then h else tried)
  {
    assert [x][1..] == [];
  }
}
