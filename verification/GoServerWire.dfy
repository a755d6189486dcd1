/** What every run of the Go server puts on the wire for one sequence. */
module GoServerWire {
  import opened Wire
  import opened Frames
  import opened GoServer
  import opened GoServerSaid

  // ---------------------------------------------------------------- the grammar, position by position

  /** (Begin Data*)? End and its prefixes. */
  ghost predicate Grammatical(bodies: seq<Response>) {
    forall i :: 0 <= i < |bodies| ==>
      && bodies[i] != NoResponse
      && (bodies[i].Begin? <==> i == 0 && !bodies[i].ResponseEnd?)
      && (bodies[i].ResponseEnd? ==> i == |bodies| - 1)
  }

  lemma PrefixIsGrammatical(w: seq<Response>, bodies: seq<Response>)
    requires w <= bodies && Grammatical(bodies)
    ensures Grammatical(w)
  {
  }

  predicate OnlyData(bodies: seq<Response>) {
    forall i :: 0 <= i < |bodies| ==> bodies[i].ResponseData?
  }

  lemma {:induction false} MessagesAreData(messages: seq<Bytes>)
    ensures OnlyData(AllData(messages))
    decreases |messages|
  {
    if messages != [] {
      MessagesAreData(messages[..|messages| - 1]);
    }
  }

  lemma ScriptIsGrammatical(h: Handler)
    requires h.header == None ==> h.messages == []
    requires h.final.Some? ==> h.final.value.ResponseEnd?
    ensures Grammatical(Script(h))
  {
    MessagesAreData(h.messages);
    assert AllData([]) == [];
    hide AllData;
  }

  // ---------------------------------------------------------------- over whole runs

  lemma WireIsPrefix(m: Mux, s: int)
    requires MuxInv(m)
    ensures Project(m.wire, s) <= Project(m.accepted, s)
  {
    ProjectConcatenates(m.wire, FramesOf(m.out), s);
  }

  /** Under every interleaving of serve loop, handlers, receivers and writer: what is on the wire for a handled
      sequence is a prefix of what its handler was told to say (its header, the payloads handed to it in order, its
      End), hence of (Begin Data*)? End; a sequence without handler has at most one frame, an End; and a finished
      stream that was not cancelled has its Begin. */
  lemma ResponseGrammar(paths: set<string>, acts: seq<Act>, s: int)
    ensures var m, b := Run(paths, acts), SaidBy(paths, acts, s);
            var w := Project(m.wire, s);
            && Grammatical(w)
            && (s in m.handlers ==> w <= ScriptOf(b.header, b.messages, b.final) == Script(m.handlers[s]))
            && (s in m.handlers && !m.handlers[s].cancelled && w != [] ==> w[0].Begin?)
            && (s in m.rejected ==> |w| <= 1 && forall i :: 0 <= i < |w| ==> w[i].ResponseEnd?)
            && (s !in m.handlers && s !in m.rejected ==> w == [])
  {
    var m := Run(paths, acts);
    RunKeepsMux(paths, acts);
    if s in m.handlers { ScriptIsWhatWasSaid(paths, acts, s); }
    hide Run, SaidBy, ScriptOf;
    WireIsPrefix(m, s);
    var w, e := Project(m.wire, s), Project(m.accepted, s);
    hide Project, FramesOf;
    if s in m.handlers {
      var h := m.handlers[s];
      ScriptIsGrammatical(h);
      PrefixIsGrammatical(w, Script(h));
      hide Grammatical;
      if w != [] && !h.cancelled {
        StartsWithBegin(h, s in m.live, e);
        assert w[0] == Script(h)[0];
      }
    }
  }

  lemma StartsWithBegin(h: Handler, live: bool, emitted: seq<Response>)
    requires HandlerInv(h, live, emitted) && !h.cancelled && Script(h) != []
    ensures Script(h)[0].Begin?
  {
  }

  // ---------------------------------------------------------------- cancellation

  predicate Stopped(m: Mux, s: int, started: nat) {
    s in m.handlers && s !in m.live && m.handlers[s].cancelled && m.handlers[s].started == started
  }

  lemma StepKeepsStopped(paths: set<string>, m: Mux, act: Act, s: int, started: nat)
    requires Stopped(m, s, started)
    ensures Stopped(Step(paths, m, act), s, started)
  {
    hide ServeFrame, ServeStep, SendStep, RecvStep, Admissible;
    if act.Serve? {
      if Admissible(m, act.frame) { ServeKeepsStopped(paths, m, act.frame, act.reason, s, started); }
    } else if !OfSender(act) && !OfReceiver(act) {
      ServeStepKeepsStopped(m, act, s, started);
    } else {
      SenderKeepsStopped(m, act, s, started);
      ReceiverKeepsStopped(m, act, s);
    }
  }

  lemma ServeKeepsStopped(paths: set<string>, m: Mux, f: Frame, reason: Response, s: int, started: nat)
    requires Stopped(m, s, started) && Admissible(m, f)
    ensures Stopped(ServeFrame(paths, m, f, reason), s, started)
  {
    hide Reassembly.Fold;
  }

  lemma ServeStepKeepsStopped(m: Mux, act: Act, s: int, started: nat)
    requires Stopped(m, s, started)
    ensures Stopped(ServeStep(m, act), s, started)
  {
  }

  /** Without its map entry a stream passes no further lookup. */
  lemma SenderKeepsStopped(m: Mux, act: Act, s: int, started: nat)
    requires Stopped(m, s, started)
    ensures var n := SendStep(false, m.acked, m.handlers[s], act); n.started == started && n.cancelled
  {
    hide DataBodies;
  }

  lemma ReceiverKeepsStopped(m: Mux, act: Act, s: int)
    requires s in m.handlers
    ensures var h, n := m.handlers[s], RecvStep(m.handlers[s], act);
            n.started == h.started && n.cancelled == h.cancelled
  {
  }

  /** No send is begun on a stream after its cancel has been read and acted upon, whatever happens later; at most
      the one send then past its lookup still goes through. */
  lemma CancelledStartsNothing(paths: set<string>, acts: seq<Act>, more: seq<Act>, s: int)
    requires EndRead(paths, acts, s, false) && Run(paths, acts).serve != Cancelling(s)
    ensures s in Run(paths, acts).handlers && s in Run(paths, acts + more).handlers
    ensures var before, after := Run(paths, acts).handlers[s], Run(paths, acts + more).handlers[s];
            && before.ctxDone && s !in Run(paths, acts).live && s !in Run(paths, acts + more).live
            && after.started == before.started
            && |after.messages| <= |before.messages| + if before.pc.Looked? then 1 else 0
  {
    EndReadIsKnown(paths, acts, s, false);
    EndsAreHeeded(paths, acts, s);
    RunKeepsMux(paths, acts);
    RunKeepsMux(paths, acts + more);
    hide EndRead;
    StoppedForGood(paths, acts, more, s);
    hide Run, Script, Project;
  }

  lemma CancelledIsStopped(m: Mux, s: int)
    requires MuxInv(m) && s in m.handlers && m.handlers[s].cancelled
    ensures Stopped(m, s, m.handlers[s].started)
  {
    hide Accounted, Project;
  }

  lemma {:induction false} StoppedForGood(paths: set<string>, acts: seq<Act>, more: seq<Act>, s: int)
    requires s in Run(paths, acts).handlers && Run(paths, acts).handlers[s].cancelled
    ensures Stopped(Run(paths, acts + more), s, Run(paths, acts).handlers[s].started)
    decreases |more|
  {
    hide Run, Step, Stopped, MuxInv;
    if more == [] {
      assert acts + more == acts;
      RunKeepsMux(paths, acts);
      CancelledIsStopped(Run(paths, acts), s);
    } else {
      var front, last := more[..|more| - 1], more[|more| - 1];
      StoppedForGood(paths, acts, front, s);
      StepKeepsStopped(paths, Run(paths, acts + front), last, s, Run(paths, acts).handlers[s].started);
      assert acts + more == (acts + front) + [last];
      RunAppends(paths, acts + front, last);
    }
  }

  // ---------------------------------------------------------------- when Send returns

  /** The goroutine that handed over `o` is waiting for it. */
  predicate Awaited(m: Mux, o: OutFrame) {
    var s := o.frame.sequence;
    if s in m.handlers then m.handlers[s].pc.Waiting? && m.handlers[s].pc.ticket == o.ticket
    else m.serve == RejectWaiting(s, o.ticket)
  }

  ghost predicate TicketInv(m: Mux) {
    && (forall t :: t in m.acked ==> t < m.tickets)
    && (forall i :: 0 <= i < |m.out| ==>
          m.out[i].ticket < m.tickets && m.out[i].ticket !in m.acked && Awaited(m, m.out[i]))
    && (forall i, j :: 0 <= i < j < |m.out| ==> m.out[i].ticket < m.out[j].ticket)
  }

  lemma PutOutKeepsTickets(m: Mux, n: Mux, f: ResponseFrame)
    requires TicketInv(m) && n == PutOut(m, f).(handlers := n.handlers, serve := n.serve)
    requires Awaited(n, OutFrame(f, m.tickets))
    requires forall i :: 0 <= i < |m.out| ==> Awaited(n, m.out[i])
    ensures TicketInv(n)
  {
  }

  lemma ServeStepKeepsTickets(m: Mux, act: Act)
    requires TicketInv(m) && MuxInv(m) && !act.Serve? && !OfSender(act) && !OfReceiver(act)
    ensures TicketInv(ServeStep(m, act))
  {
    hide HandlerInv, Project, FramesOf;
    if act.ServeEnqueue? && m.serve.Rejecting? && |m.out| < OUT_CAPACITY {
      PutOutKeepsTickets(m, ServeStep(m, act), Envelope(m.serve.s, m.serve.final));
    }
  }

  lemma ServeKeepsTickets(paths: set<string>, m: Mux, f: Frame, reason: Response)
    requires TicketInv(m) && m.serve == Reading && Admissible(m, f)
    ensures TicketInv(ServeFrame(paths, m, f, reason))
  {
    var n := ServeFrame(paths, m, f, reason);
    ServeKeepsOut(paths, m, f, reason);
    hide ServeFrame;
    forall i | 0 <= i < |m.out| ensures Awaited(n, m.out[i]) {
      assert Awaited(m, m.out[i]);
    }
  }

  /** Reading a frame leaves the out channel and every sending goroutine where they are. */
  lemma ServeKeepsOut(paths: set<string>, m: Mux, f: Frame, reason: Response)
    requires Admissible(m, f)
    ensures var n := ServeFrame(paths, m, f, reason);
            && n.out == m.out && n.acked == m.acked && n.tickets == m.tickets
            && forall s :: s in m.handlers ==> s in n.handlers && n.handlers[s].pc == m.handlers[s].pc
  {
    if f.body.Data? {
      match f.body.content
      case Message(data) => DeliverKeepsOut(m, f.sequence, data);
      case Piece(chunk) =>
        var (t, full) := Reassembly.Fold(m.reasm, f.sequence, chunk);
        if full.Some? { DeliverKeepsOut(m.(reasm := t), f.sequence, full.value); }
      case NoContent =>
    }
    hide Reassembly.Fold, Deliver;
  }

  lemma DeliverKeepsOut(m: Mux, s: int, payload: Bytes)
    ensures var n := Deliver(m, s, payload);
            && n.out == m.out && n.acked == m.acked && n.tickets == m.tickets
            && forall s :: s in m.handlers ==> s in n.handlers && n.handlers[s].pc == m.handlers[s].pc
  {
  }

  /** A step that leaves the waiting pc of one handler alone, or whose ticket was written. */
  lemma HandlerKeepsTickets(m: Mux, n: Mux, s: int, h: Handler)
    requires TicketInv(m) && s in m.handlers && n == Set(m, s, h).(live := n.live)
    requires m.handlers[s].pc.Waiting? && m.handlers[s].pc.ticket !in m.acked ==> h.pc == m.handlers[s].pc
    ensures TicketInv(n)
  {
  }

  lemma OnlyAcksWake(live: bool, acked: set<nat>, h: Handler, act: Act)
    requires h.pc.Waiting? && h.pc.ticket !in acked
    ensures SendStep(live, acked, h, act).pc == h.pc
  {
  }

  lemma StepKeepsTickets(paths: set<string>, m: Mux, act: Act)
    requires TicketInv(m) && MuxInv(m)
    ensures TicketInv(Step(paths, m, act))
  {
    hide MuxInv, TicketInv, ServeStep, ServeFrame, SendStep, RecvStep, Admissible;
    if act.Serve? {
      if m.serve == Reading && Admissible(m, act.frame) {
        ServeKeepsTickets(paths, m, act.frame, act.reason);
      }
      ProcessedIsNotAwaited(paths, m, act);
    } else if !OfSender(act) && !OfReceiver(act) {
      ServeStepKeepsTickets(m, act);
    } else if act.s in m.handlers {
      var s, h, n := act.s, m.handlers[act.s], Step(paths, m, act);
      if OfReceiver(act) {
        ReceiverKeepsPc(h, act);
        HandlerKeepsTickets(m, n, s, RecvStep(h, act));
      } else if act.Enqueue? {
        EnqueueKeepsTickets(paths, m, act);
      } else if !(act.Return? && !act.final.ResponseEnd?) {
        if h.pc.Waiting? && h.pc.ticket !in m.acked {
          OnlyAcksWake(s in m.live, m.acked, h, act);
        }
        HandlerKeepsTickets(m, n, s, SendStep(s in m.live, m.acked, h, act));
      }
    }
  }

  lemma ReceiverKeepsPc(h: Handler, act: Act)
    ensures RecvStep(h, act).pc == h.pc
  {
  }

  lemma ProcessedIsNotAwaited(paths: set<string>, m: Mux, act: Act)
    requires act.Serve? && TicketInv(m)
    requires m.serve == Reading && Admissible(m, act.frame) ==> TicketInv(ServeFrame(paths, m, act.frame, act.reason))
    ensures TicketInv(Step(paths, m, act))
  {
  }

  lemma EnqueueKeepsTickets(paths: set<string>, m: Mux, act: Act)
    requires TicketInv(m) && act.Enqueue? && act.s in m.handlers
    ensures TicketInv(Step(paths, m, act))
  {
    var s, h, n := act.s, m.handlers[act.s], Step(paths, m, act);
    if h.pc.Queueing? && h.pc.todo != [] && |m.out| < OUT_CAPACITY {
      forall i | 0 <= i < |m.out| ensures Awaited(n, m.out[i]) {
        assert Awaited(m, m.out[i]);
      }
      PutOutKeepsTickets(m, n, Envelope(s, h.pc.todo[0]));
    }
  }

  lemma {:induction false} RunKeepsTickets(paths: set<string>, acts: seq<Act>)
    ensures TicketInv(Run(paths, acts))
    decreases |acts|
  {
    if acts != [] {
      RunKeepsTickets(paths, acts[..|acts| - 1]);
      RunKeepsMux(paths, acts[..|acts| - 1]);
      hide MuxInv, TicketInv, Step;
      StepKeepsTickets(paths, Run(paths, acts[..|acts| - 1]), acts[|acts| - 1]);
    }
  }

  lemma {:induction false} NothingProjected(fs: seq<ResponseFrame>, s: int)
    requires NoneOf(fs, s)
    ensures Project(fs, s) == []
  {
    OthersAreInvisible([], fs, s);
    assert [] + fs == fs;
  }

  /** A handler waits for each frame it hands over until the writer has written it: whenever no send is under
      way, everything the handler was ever told to send is already on the wire, in order and unbroken. */
  lemma SendReturnsOnceWritten(paths: set<string>, acts: seq<Act>, s: int)
    requires s in Run(paths, acts).handlers
    requires var pc := Run(paths, acts).handlers[s].pc; !pc.Waiting? && Todo(pc) == []
    ensures var b := SaidBy(paths, acts, s);
            Project(Run(paths, acts).wire, s) == ScriptOf(b.header, b.messages, b.final)
  {
    ScriptIsWhatWasSaid(paths, acts, s);
    hide ScriptOf, SaidBy;
    var m := Run(paths, acts);
    RunKeepsMux(paths, acts);
    RunKeepsTickets(paths, acts);
    hide Run, Script;
    var fs := FramesOf(m.out);
    forall i | 0 <= i < |fs| ensures fs[i].sequence != s {
      assert Awaited(m, m.out[i]);
    }
    NothingProjected(fs, s);
    ProjectConcatenates(m.wire, fs, s);
  }
}
