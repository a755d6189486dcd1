/** When the Go server's Recv returns EOF although a payload is queued, and when it cannot. */
module GoServerEof {
  import opened Wire
  import opened Frames
  import opened Receiving
  import opened GoServer
  import opened GoServerDelivery
  import Reassembly
  import Sequences

  // ---------------------------------------------------------------- what happened since a Recv began

  /** The step starts a Recv that finds nothing and has to wait. */
  predicate Blocks(m: Mux, act: Act, s: int) {
    act == RecvTry(s) && s in m.handlers && !m.handlers[s].recvBlocked && m.handlers[s].inbound == []
  }

  /** The step puts a payload into the stream's inbound channel. */
  predicate Pushes(m: Mux, act: Act, s: int) {
    act == ServePush && m.serve.Delivering? && m.serve.s == s && s in m.handlers
    && |m.handlers[s].inbound| < INBOUND_CAPACITY
  }

  /** The step ends a waiting Recv with EOF. */
  predicate ReturnsEof(m: Mux, act: Act, s: int) {
    act == RecvEof(s) && s in m.handlers && m.handlers[s].recvBlocked && m.handlers[s].halfClosed
  }

  /** A payload was pushed after the last Recv that had to wait began to. */
  predicate PushedSince(paths: set<string>, acts: seq<Act>, s: int)
    decreases |acts|
  {
    acts != [] &&
    var front, last := acts[..|acts| - 1], acts[|acts| - 1];
    !Blocks(Run(paths, front), last, s) && (Pushes(Run(paths, front), last, s) || PushedSince(paths, front, s))
  }

  /** The half-close was processed before the last Recv that had to wait began to. */
  predicate BegunAfterClose(paths: set<string>, acts: seq<Act>, s: int)
    decreases |acts|
  {
    acts != [] &&
    var front, last := acts[..|acts| - 1], acts[|acts| - 1];
    if Blocks(Run(paths, front), last, s) then Run(paths, front).handlers[s].halfClosed
    else BegunAfterClose(paths, front, s)
  }

  // ---------------------------------------------------------------- EOF over queued data

  /** While a Recv waits its channel holds something exactly if something was pushed meanwhile. */
  predicate WaitsRight(m: Mux, s: int, pushed: bool) {
    s in m.handlers && m.handlers[s].recvBlocked ==> (m.handlers[s].inbound != [] <==> pushed)
  }

  lemma ServeKeepsWaiting(paths: set<string>, m: Mux, f: Frame, reason: Response, s: int)
    requires Admissible(m, f)
    ensures var n := ServeFrame(paths, m, f, reason);
            && (s in m.handlers ==> s in n.handlers && n.handlers[s].inbound == m.handlers[s].inbound
                                    && n.handlers[s].recvBlocked == m.handlers[s].recvBlocked)
            && (s !in m.handlers && s in n.handlers ==> !n.handlers[s].recvBlocked)
  {
    if f.body.Data? {
      match f.body.content
      case Message(data) => DeliverKeepsWaiting(m, f.sequence, data, s);
      case Piece(chunk) =>
        var (t, full) := Reassembly.Fold(m.reasm, f.sequence, chunk);
        if full.Some? { DeliverKeepsWaiting(m.(reasm := t), f.sequence, full.value, s); }
      case NoContent =>
    }
    hide Reassembly.Fold, Deliver;
  }

  lemma DeliverKeepsWaiting(m: Mux, u: int, payload: Bytes, s: int)
    ensures var n := Deliver(m, u, payload);
            && (s in m.handlers <==> s in n.handlers)
            && (s in m.handlers ==> n.handlers[s].inbound == m.handlers[s].inbound
                                    && n.handlers[s].recvBlocked == m.handlers[s].recvBlocked)
  {
  }

  lemma ServeStepKeepsWaiting(m: Mux, act: Act, s: int, pushed: bool)
    requires !act.Serve? && !OfSender(act) && !OfReceiver(act) && WaitsRight(m, s, pushed)
    ensures WaitsRight(ServeStep(m, act), s, pushed || Pushes(m, act, s))
  {
  }

  lemma StepKeepsWaiting(paths: set<string>, m: Mux, act: Act, s: int, pushed: bool)
    requires WaitsRight(m, s, pushed)
    ensures WaitsRight(Step(paths, m, act), s, !Blocks(m, act, s) && (Pushes(m, act, s) || pushed))
  {
    if act.Serve? {
      if Admissible(m, act.frame) { ServeKeepsWaiting(paths, m, act.frame, act.reason, s); }
      hide ServeFrame, Admissible;
    } else if !OfSender(act) && !OfReceiver(act) {
      ServeStepIsStep(paths, m, act);
      ServeStepKeepsWaiting(m, act, s, pushed);
      hide Step, ServeStep, WaitsRight, Pushes;
    } else {
      HandlerStep(paths, m, act);
      HandlerKeepsWaiting(m, Step(paths, m, act), act, s, pushed);
      hide Step, WaitsRight;
    }
  }

  lemma HandlerKeepsWaiting(m: Mux, n: Mux, act: Act, s: int, pushed: bool)
    requires WaitsRight(m, s, pushed) && (OfSender(act) || OfReceiver(act)) && OnlyHandler(m, n, act)
    ensures WaitsRight(n, s, !Blocks(m, act, s) && pushed)
  {
  }

  lemma {:induction false} RunKeepsWaiting(paths: set<string>, acts: seq<Act>, s: int)
    ensures WaitsRight(Run(paths, acts), s, PushedSince(paths, acts, s))
    decreases |acts|
  {
    if acts != [] {
      RunKeepsWaiting(paths, acts[..|acts| - 1], s);
      hide WaitsRight, Step, Blocks, Pushes;
      StepKeepsWaiting(paths, Run(paths, acts[..|acts| - 1]), acts[|acts| - 1], s,
                       PushedSince(paths, acts[..|acts| - 1], s));
    }
  }

  /** In every run: a Recv returns EOF over queued payloads exactly if one was pushed between its own first look
      and its return. */
  lemma EofOvertakesExactly(paths: set<string>, acts: seq<Act>, act: Act, s: int)
    requires ReturnsEof(Run(paths, acts), act, s)
    ensures var h, n := Run(paths, acts).handlers[s], Run(paths, acts + [act]).handlers;
            && (h.inbound != [] <==> PushedSince(paths, acts, s))
            && s in n && n[s] == h.(recvBlocked := false, eofs := h.eofs + 1)
  {
    RunKeepsWaiting(paths, acts, s);
    RunAppends(paths, acts, act);
    hide Run, PushedSince;
  }

  // ---------------------------------------------------------------- clients that stop at their half-close

  /** No Data follows a half-close. */
  predicate SilentAfterClose(bodies: seq<Request>) {
    forall i, j :: 0 <= i < j < |bodies| && bodies[i] == End(true) ==> !bodies[j].Data?
  }

  predicate HasClose(bodies: seq<Request>) {
    exists i :: 0 <= i < |bodies| && bodies[i] == End(true)
  }

  /** Once a half-close was processed the serve loop has nothing more for the stream, and routed it everything. */
  predicate AllRouted(m: Mux, s: int, bodies: seq<Request>, sent: seq<Bytes>) {
    s in m.handlers && m.handlers[s].halfClosed && SilentAfterClose(bodies) ==>
      HasClose(bodies) && InHand(m, s) == [] && m.handlers[s].log == sent
  }

  lemma SilenceOfPrefix(bodies: seq<Request>, b: Request)
    ensures SilentAfterClose(bodies + [b]) ==> SilentAfterClose(bodies) && (HasClose(bodies) ==> !b.Data?)
    ensures HasClose(bodies + [b]) <==> HasClose(bodies) || b == End(true)
  {
    var all := bodies + [b];
    assert all[|bodies|] == b && forall i :: 0 <= i < |bodies| ==> all[i] == bodies[i];
  }

  lemma OthersKeepAllRouted(paths: set<string>, m: Mux, f: Frame, reason: Response, s: int, bodies: seq<Request>,
                            sent: seq<Bytes>)
    requires AllRouted(m, s, bodies, sent) && Admissible(m, f) && m.serve == Reading && f.sequence != s
    ensures AllRouted(ServeFrame(paths, m, f, reason), s, bodies, sent)
  {
    hide Reassembly.Fold, SilentAfterClose, HasClose;
  }

  /** A frame of the stream itself. */
  lemma OwnKeepsAllRouted(paths: set<string>, m: Mux, f: Frame, reason: Response, bodies: seq<Request>, sent: Stream)
    requires var s := f.sequence; AllRouted(m, s, bodies, sent.log) && Routed(m, s, sent) && Targets(m)
    requires Admissible(m, f) && m.serve == Reading
    ensures AllRouted(ServeFrame(paths, m, f, reason), f.sequence, bodies + [f.body], Take(paths, sent, f.body).log)
  {
    SilenceOfPrefix(bodies, f.body);
    hide Reassembly.FoldOne, AbsorbOne, SilentAfterClose, HasClose;
  }

  /** What AllRouted looks at. */
  lemma AllRoutedDependsOn(m: Mux, n: Mux, s: int, bodies: seq<Request>, sent: seq<Bytes>)
    requires AllRouted(m, s, bodies, sent) && n.serve == m.serve && (s in n.handlers ==> s in m.handlers)
    requires s in n.handlers ==>
      n.handlers[s].halfClosed == m.handlers[s].halfClosed && n.handlers[s].log == m.handlers[s].log
    ensures AllRouted(n, s, bodies, sent)
  {
    hide SilentAfterClose, HasClose;
  }

  /** Every step other than reading a frame. */
  lemma QuietStepKeepsAllRouted(paths: set<string>, m: Mux, act: Act, s: int, bodies: seq<Request>, sent: seq<Bytes>)
    requires AllRouted(m, s, bodies, sent) && (act.Serve? ==> Step(paths, m, act) == m)
    ensures AllRouted(Step(paths, m, act), s, bodies, sent)
  {
    if act.Serve? {
      hide *;
    } else if !OfSender(act) && !OfReceiver(act) {
      ServeStepIsStep(paths, m, act);
      ServeStepKeepsAllRouted(m, act, s, bodies, sent);
      hide Step, ServeStep, AllRouted;
    } else {
      HandlerStep(paths, m, act);
      hide Step, AllRouted;
      AllRoutedDependsOn(m, Step(paths, m, act), s, bodies, sent);
    }
  }

  lemma ServeStepKeepsAllRouted(m: Mux, act: Act, s: int, bodies: seq<Request>, sent: seq<Bytes>)
    requires AllRouted(m, s, bodies, sent) && !act.Serve? && !OfSender(act) && !OfReceiver(act)
    ensures AllRouted(ServeStep(m, act), s, bodies, sent)
  {
    hide SilentAfterClose, HasClose;
  }

  predicate SilentClient(m: Mux, s: int) {
    SilentAfterClose(Project(m.processed, s))
  }

  ghost predicate RunRouted(paths: set<string>, m: Mux, s: int) {
    AllRouted(m, s, Project(m.processed, s), Sent(paths, m, s).log)
  }

  /** A frame was read. */
  predicate Reads(m: Mux, act: Act) {
    act.Serve? && m.serve == Reading && Admissible(m, act.frame) && act.reason.ResponseEnd?
  }

  lemma ReadKeepsRunRouted(paths: set<string>, m: Mux, act: Act, s: int)
    requires RunRouted(paths, m, s) && Reads(m, act)
    requires Targets(m) && Routed(m, s, Sent(paths, m, s))
    ensures RunRouted(paths, Step(paths, m, act), s)
  {
    var f, bodies := act.frame, Project(m.processed, s);
    var n := ServeFrame(paths, m, f, act.reason);
    ServeKeepsProcessed(paths, m, f, act.reason);
    ProjectAppends(m.processed, f, s);
    TakenAppends(paths, bodies, f.body);
    if f.sequence == s {
      OwnKeepsAllRouted(paths, m, f, act.reason, bodies, Sent(paths, m, s));
    } else {
      OthersKeepAllRouted(paths, m, f, act.reason, s, bodies, Sent(paths, m, s).log);
    }
    hide ServeFrame, Taken, Take, Project, Admissible, SilentAfterClose, HasClose, Routed, Targets;
    assert Step(paths, m, act) == n.(processed := m.processed + [f]);
  }

  lemma StepKeepsRunRouted(paths: set<string>, m: Mux, act: Act, s: int)
    requires RunRouted(paths, m, s) && Targets(m) && Routed(m, s, Sent(paths, m, s))
    ensures RunRouted(paths, Step(paths, m, act), s)
  {
    if Reads(m, act) {
      ReadKeepsRunRouted(paths, m, act, s);
      hide *;
    } else {
      QuietStepKeepsAllRouted(paths, m, act, s, Project(m.processed, s), Sent(paths, m, s).log);
      OtherStepsKeepRouted(paths, m, act, s, Sent(paths, m, s));
      hide AllRouted, Step, Routed, Targets, Project, Taken;
    }
  }

  lemma {:induction false} RunKeepsRunRouted(paths: set<string>, acts: seq<Act>, s: int)
    ensures RunRouted(paths, Run(paths, acts), s)
    decreases |acts|
  {
    if acts != [] {
      RunKeepsRunRouted(paths, acts[..|acts| - 1], s);
      RunKeepsRouted(paths, acts[..|acts| - 1], s);
      hide RunRouted, Step, Routed, Targets;
      StepKeepsRunRouted(paths, Run(paths, acts[..|acts| - 1]), acts[|acts| - 1], s);
    }
  }

  // ---------------------------------------------------------------- a Recv begun after the half-close

  /** Nothing is pushed for a Recv that began after the half-close. */
  predicate NothingComes(m: Mux, s: int, begun: bool, pushed: bool) {
    s in m.handlers && m.handlers[s].recvBlocked && begun && SilentClient(m, s) ==>
      m.handlers[s].halfClosed && !pushed
  }

  lemma StepHistory(paths: set<string>, m: Mux, act: Act, s: int)
    requires Targets(m) && Routed(m, s, Sent(paths, m, s))
    ensures var n := Step(paths, m, act);
            && (SilentClient(n, s) ==> SilentClient(m, s))
            && (s in m.handlers ==> s in n.handlers && (m.handlers[s].halfClosed ==> n.handlers[s].halfClosed))
            && (s in n.handlers && n.handlers[s].recvBlocked ==>
                  s in m.handlers && (m.handlers[s].recvBlocked || Blocks(m, act, s)))
  {
    if Reads(m, act) {
      ReadHistory(paths, m, act, s);
    } else {
      OtherStepsKeepRouted(paths, m, act, s, Sent(paths, m, s));
      QuietHistory(paths, m, act, s);
    }
    hide *;
  }

  lemma ReadHistory(paths: set<string>, m: Mux, act: Act, s: int)
    requires Reads(m, act)
    ensures var n := Step(paths, m, act);
            && (SilentClient(n, s) ==> SilentClient(m, s))
            && (s in m.handlers ==> s in n.handlers && (m.handlers[s].halfClosed ==> n.handlers[s].halfClosed))
            && (s in n.handlers && n.handlers[s].recvBlocked ==> s in m.handlers && m.handlers[s].recvBlocked)
  {
    ProjectAppends(m.processed, act.frame, s);
    SilenceOfPrefix(Project(m.processed, s), act.frame.body);
    ServeKeepsProcessed(paths, m, act.frame, act.reason);
    if s in m.handlers { ServeKeepsClose(paths, m, act.frame, act.reason, s); }
    ServeKeepsWaiting(paths, m, act.frame, act.reason, s);
    hide ServeFrame, Project, SilentAfterClose, HasClose, Admissible;
  }

  lemma ServeKeepsClose(paths: set<string>, m: Mux, f: Frame, reason: Response, s: int)
    requires Admissible(m, f) && s in m.handlers
    ensures var n := ServeFrame(paths, m, f, reason);
            s in n.handlers && (m.handlers[s].halfClosed ==> n.handlers[s].halfClosed)
  {
    hide Reassembly.Fold;
  }

  lemma QuietHistory(paths: set<string>, m: Mux, act: Act, s: int)
    requires !Reads(m, act) && Step(paths, m, act).processed == m.processed
    ensures var n := Step(paths, m, act);
            && (SilentClient(n, s) ==> SilentClient(m, s))
            && (s in m.handlers ==> s in n.handlers && n.handlers[s].halfClosed == m.handlers[s].halfClosed)
            && (s in n.handlers && n.handlers[s].recvBlocked ==>
                  s in m.handlers && (m.handlers[s].recvBlocked || Blocks(m, act, s)))
  {
    hide ServeFrame, SilentAfterClose, Project, Admissible;
    if OfSender(act) || OfReceiver(act) {
      HandlerStep(paths, m, act);
      hide Step;
    }
  }

  lemma StepKeepsNothingComes(paths: set<string>, m: Mux, act: Act, s: int, begun: bool, pushed: bool)
    requires NothingComes(m, s, begun, pushed) && RunRouted(paths, m, s)
    requires Targets(m) && Routed(m, s, Sent(paths, m, s))
    ensures var blocks := Blocks(m, act, s);
            NothingComes(Step(paths, m, act), s, if blocks then m.handlers[s].halfClosed else begun,
                         !blocks && (Pushes(m, act, s) || pushed))
  {
    StepHistory(paths, m, act, s);
    hide Step, Routed, Targets, Project, Taken, SilentAfterClose, HasClose;
  }

  lemma {:induction false} RunKeepsNothingComes(paths: set<string>, acts: seq<Act>, s: int)
    ensures NothingComes(Run(paths, acts), s, BegunAfterClose(paths, acts, s), PushedSince(paths, acts, s))
    decreases |acts|
  {
    if acts != [] {
      var front := acts[..|acts| - 1];
      RunKeepsNothingComes(paths, front, s);
      RunKeepsRouted(paths, front, s);
      RunKeepsRunRouted(paths, front, s);
      hide Step, Routed, Targets, RunRouted, NothingComes, Pushes;
      StepKeepsNothingComes(paths, Run(paths, front), acts[|acts| - 1], s,
                            BegunAfterClose(paths, front, s), PushedSince(paths, front, s));
    }
  }

  /** If the client sends no Data after its half-close and the stream's context is live, then in every run a Recv
      that returns EOF has left nothing behind exactly if nothing was pushed since its first look; and that is so
      whenever the half-close had been processed before the Recv began. */
  lemma EofIsTheEndExactly(paths: set<string>, acts: seq<Act>, act: Act, s: int)
    requires ReturnsEof(Run(paths, acts), act, s)
    requires SilentClient(Run(paths, acts), s) && !Run(paths, acts).handlers[s].ctxDone
    ensures var m := Run(paths, acts);
            && (m.handlers[s].received == Sent(paths, m, s).log <==> !PushedSince(paths, acts, s))
            && (BegunAfterClose(paths, acts, s) ==> m.handlers[s].received == Sent(paths, m, s).log)
  {
    var m := Run(paths, acts);
    EofOvertakesExactly(paths, acts, act, s);
    RunKeepsRunRouted(paths, acts, s);
    RunKeepsNothingComes(paths, acts, s);
    RunKeepsKept(paths, acts, s);
    hide Run, PushedSince, BegunAfterClose, Project, Taken, Sequences.Subsequence;
    var h := m.handlers[s];
    assert h.received + h.inbound + [] == Sent(paths, m, s).log;
    assert h.received + h.inbound + [] == h.received + h.inbound;
    if h.inbound != [] {
      assert |h.received + h.inbound| > |h.received|;
    }
  }

  // ---------------------------------------------------------------- the race, step by step

  predicate At(m: Mux, h: Handler, serve: ServePc) {
    1 in m.handlers && m.handlers[1] == h && 1 in m.live && m.serve == serve
  }

  /** From a waiting Recv: a payload and a half-close come in before it wakes. */
  lemma BothReady(paths: set<string>, m: Mux, h: Handler, payload: Bytes, reason: Response)
    requires At(m, h, Reading) && h.recvBlocked && h.inbound == [] && reason.ResponseEnd?
    ensures var m1 := Step(paths, m, Serve(Envelope(1, Data(Message(payload))), reason));
            var m2 := Step(paths, m1, ServePush);
            var m3 := Step(paths, m2, Serve(Envelope(1, End(true)), reason));
            At(m3, h.(inbound := [payload], log := h.log + [payload], halfClosed := true), Reading)
  {
    var m1 := Step(paths, m, Serve(Envelope(1, Data(Message(payload))), reason));
    hide Reassembly.Fold, DataBodies;
    assert At(m1, h.(log := h.log + [payload]), Delivering(1, payload));
    var m2 := Step(paths, m1, ServePush);
    assert At(m2, h.(inbound := [payload], log := h.log + [payload]), Reading);
  }

  lemma FirstRecvWaits(paths: set<string>, path: string, reason: Response)
    requires path in paths && reason.ResponseEnd?
    ensures var m1 := Step(paths, INITIAL, Serve(Envelope(1, Call(path, None)), reason));
            At(Step(paths, m1, RecvTry(1)), NewHandler(None).(recvBlocked := true), Reading)
  {
    hide Reassembly.Fold, DataBodies;
  }

  /** A waiting Recv may return EOF over this payload, in a live context. */
  predicate EofOver(m: Mux, s: int, payload: Bytes) {
    ReturnsEof(m, RecvEof(s), s) && m.handlers[s].inbound == [payload] && !m.handlers[s].ctxDone
  }

  /** It happens: both cases of the second select are ready when the payload and the half-close come in while it
      waits. */
  lemma EofCanOvertakeData(paths: set<string>, path: string, payload: Bytes, reason: Response)
    requires path in paths && reason.ResponseEnd?
    ensures exists acts :: EofOver(Run(paths, acts), 1, payload)
  {
    var a1 := [Serve(Envelope(1, Call(path, None)), reason)];
    var a2 := a1 + [RecvTry(1)];
    var a3 := a2 + [Serve(Envelope(1, Data(Message(payload))), reason)];
    var a4 := a3 + [ServePush];
    var a5 := a4 + [Serve(Envelope(1, End(true)), reason)];
    var waiting := NewHandler(None).(recvBlocked := true);
    var caught := waiting.(inbound := [payload], log := waiting.log + [payload], halfClosed := true);
    NoSteps(paths);
    hide Run, Step, At, EofOver;
    RunAppends(paths, [], a1[0]);
    RunAppends(paths, a1, RecvTry(1));
    RunAppends(paths, a2, Serve(Envelope(1, Data(Message(payload))), reason));
    RunAppends(paths, a3, ServePush);
    RunAppends(paths, a4, Serve(Envelope(1, End(true)), reason));
    FirstRecvWaits(paths, path, reason);
    assert [] + a1 == a1;
    BothReady(paths, Run(paths, a2), waiting, payload, reason);
    CanReturn(Run(paths, a5), caught, payload);
  }

  lemma CanReturn(m: Mux, h: Handler, payload: Bytes)
    requires At(m, h, Reading) && h.recvBlocked && h.halfClosed && h.inbound == [payload] && !h.ctxDone
    ensures EofOver(m, 1, payload)
  {
  }

  lemma NoSteps(paths: set<string>)
    ensures Run(paths, []) == INITIAL
  {
  }
}
