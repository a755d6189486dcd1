/** What a handler of the Go server said and what its client asked of it, told from the acts of a run. */
module GoServerSaid {
  import opened Wire
  import opened Frames
  import opened GoServer
  import Reassembly

  // ---------------------------------------------------------------- what a handler handed over

  /** `inHand` is the payload of the last send begun, `messages` the payloads of those that went on to write;
      `returned` is what the handler ended with, `final` the same once its End frame is to be written. */
  datatype Said = Said(inHand: Bytes, messages: seq<Bytes>, header: Option<Metadata>, returned: Option<Response>,
                       final: Option<Response>)

  const SILENT: Said := Said([], [], None, None, None)

  /** The header is the one of the step that came first. */
  function Or(header: Option<Metadata>, hdr: Metadata): Option<Metadata> {
    if header.Some? then header else Some(hdr)
  }

  function Noted(h: Handler, live: bool, b: Said, act: Act): Said {
    match act
    case TrySend(_, payload) => if h.pc == Free && live then b.(inHand := payload) else b
    case Flush(_, hdr) =>
      if h.pc.Looked? then b.(messages := b.messages + [b.inHand], header := Or(b.header, hdr)) else b
    case Return(_, final) => if h.pc == Free && final.ResponseEnd? then b.(returned := Some(final)) else b
    case EndHeader(_, hdr) => if h.pc.EndLooked? && h.pc.found then b.(header := Or(b.header, hdr)) else b
    case Delete(_) => if h.pc.Deleting? then b.(final := b.returned) else b
    case _ => b
  }

  function SaidBy(paths: set<string>, acts: seq<Act>, s: int): Said
    decreases |acts|
  {
    if acts == [] then SILENT else
    var front, last := acts[..|acts| - 1], acts[|acts| - 1];
    var m, b := Run(paths, front), SaidBy(paths, front, s);
    if OfSender(last) && last.s == s && s in m.handlers then Noted(m.handlers[s], s in m.live, b, last) else b
  }

  /** The End frame a handler on its way out is going to write. */
  predicate Carries(pc: Pc, final: Option<Response>) {
    match pc
    case EndLooked(_, f) => final == Some(f)
    case Deleting(f) => final == Some(f)
    case Queueing(_, after) => after.ToDelete? ==> final == Some(after.final)
    case Waiting(_, _, after) => after.ToDelete? ==> final == Some(after.final)
    case _ => true
  }

  predicate Agrees(h: Handler, b: Said) {
    && h.messages == b.messages && h.header == b.header && h.final == b.final
    && (h.pc.Looked? ==> h.pc.payload == b.inHand)
    && Carries(h.pc, b.returned)
  }

  lemma SendStepAgrees(h: Handler, live: bool, acked: set<nat>, b: Said, act: Act)
    requires Agrees(h, b) && (act.Return? ==> act.final.ResponseEnd?)
    ensures Agrees(SendStep(live, acked, h, act), Noted(h, live, b, act))
  {
    if act.TrySend? || act.Flush? || act.Acked? || act.Advance? {
      SendingAgrees(h, live, acked, b, act);
    } else {
      ReturningAgrees(h, live, acked, b, act);
    }
    hide *;
  }

  lemma SendingAgrees(h: Handler, live: bool, acked: set<nat>, b: Said, act: Act)
    requires Agrees(h, b) && (act.TrySend? || act.Flush? || act.Acked? || act.Advance?)
    ensures Agrees(SendStep(live, acked, h, act), Noted(h, live, b, act))
  {
    hide DataBodies;
  }

  lemma ReturningAgrees(h: Handler, live: bool, acked: set<nat>, b: Said, act: Act)
    requires Agrees(h, b) && !act.TrySend? && !act.Flush? && !act.Acked? && !act.Advance?
    requires act.Return? ==> act.final.ResponseEnd?
    ensures Agrees(SendStep(live, acked, h, act), Noted(h, live, b, act))
  {
    hide DataBodies;
  }

  lemma EnqueueAgrees(h: Handler, b: Said, ticket: nat)
    requires Agrees(h, b) && h.pc.Queueing? && h.pc.todo != []
    ensures Agrees(h.(pc := Waiting(ticket, h.pc.todo[1..], h.pc.after)), b)
  {
  }

  /** Only what the goroutines of the handler do shows in what it said. */
  predicate SameTalk(h: Handler, n: Handler) {
    n.pc == h.pc && n.messages == h.messages && n.header == h.header && n.final == h.final
  }

  lemma SameTalkAgrees(h: Handler, n: Handler, b: Said)
    requires Agrees(h, b) && SameTalk(h, n)
    ensures Agrees(n, b)
  {
  }

  lemma RecvKeepsTalk(h: Handler, act: Act)
    ensures SameTalk(h, RecvStep(h, act))
  {
  }

  lemma DeliverKeepsTalk(m: Mux, s: int, payload: Bytes)
    ensures var n := Deliver(m, s, payload);
            n.handlers.Keys == m.handlers.Keys
            && forall k :: k in m.handlers ==> SameTalk(m.handlers[k], n.handlers[k])
  {
  }

  lemma ServeKeepsTalk(paths: set<string>, m: Mux, f: Frame, reason: Response)
    requires Admissible(m, f)
    ensures var n := ServeFrame(paths, m, f, reason);
            && (forall k :: k in m.handlers ==> k in n.handlers && SameTalk(m.handlers[k], n.handlers[k]))
            && (forall k :: k in n.handlers && k !in m.handlers ==> Agrees(n.handlers[k], SILENT))
  {
    hide Deliver, Reassembly.Fold;
    if f.body.Data? {
      match f.body.content
      case Message(data) => DeliverKeepsTalk(m, f.sequence, data);
      case Piece(chunk) =>
        var (t, full) := Reassembly.Fold(m.reasm, f.sequence, chunk);
        if full.Some? { DeliverKeepsTalk(m.(reasm := t), f.sequence, full.value); }
      case NoContent =>
    }
  }

  lemma ServeStepKeepsTalk(m: Mux, act: Act)
    ensures var n := ServeStep(m, act);
            n.handlers.Keys == m.handlers.Keys
            && forall k :: k in m.handlers ==> SameTalk(m.handlers[k], n.handlers[k])
  {
  }

  ghost predicate AllAgree(m: Mux, s: int, b: Said) {
    if s in m.handlers then Agrees(m.handlers[s], b) else b == SILENT
  }

  lemma ServingAgrees(paths: set<string>, m: Mux, act: Act, s: int, b: Said)
    requires AllAgree(m, s, b) && !OfSender(act) && !OfReceiver(act)
    ensures AllAgree(Step(paths, m, act), s, b)
  {
    hide Agrees, SameTalk, ServeFrame, ServeStep, Admissible;
    if act.Serve? {
      if Admissible(m, act.frame) {
        ServeKeepsTalk(paths, m, act.frame, act.reason);
        var n := ServeFrame(paths, m, act.frame, act.reason);
        if s in m.handlers { SameTalkAgrees(m.handlers[s], n.handlers[s], b); }
      }
    } else {
      ServeStepKeepsTalk(m, act);
      if s in m.handlers { SameTalkAgrees(m.handlers[s], ServeStep(m, act).handlers[s], b); }
    }
  }

  lemma HandlerAgrees(paths: set<string>, m: Mux, act: Act, s: int, b: Said)
    requires AllAgree(m, s, b) && (OfSender(act) || OfReceiver(act))
    ensures var noted := OfSender(act) && act.s == s && s in m.handlers;
            AllAgree(Step(paths, m, act), s, if noted then Noted(m.handlers[s], s in m.live, b, act) else b)
  {
    hide Agrees, SendStep, RecvStep;
    if act.s == s && s in m.handlers {
      var h := m.handlers[s];
      if OfReceiver(act) {
        RecvKeepsTalk(h, act);
        SameTalkAgrees(h, RecvStep(h, act), b);
      } else if act.Enqueue? {
        if h.pc.Queueing? && h.pc.todo != [] { EnqueueAgrees(h, b, m.tickets); }
      } else if !(act.Return? && !act.final.ResponseEnd?) {
        SendStepAgrees(h, s in m.live, m.acked, b, act);
      }
    }
  }

  /** In every run what a handler has committed itself to write is what was handed over to it: the payloads sent, in
      order, the header of the step that came first, and the End frame of its return. */
  lemma {:induction false} HandlersSayWhatTheyAreTold(paths: set<string>, acts: seq<Act>, s: int)
    ensures AllAgree(Run(paths, acts), s, SaidBy(paths, acts, s))
    decreases |acts|
  {
    if acts != [] {
      var front, last := acts[..|acts| - 1], acts[|acts| - 1];
      HandlersSayWhatTheyAreTold(paths, front, s);
      hide AllAgree, Step, Noted;
      if OfSender(last) || OfReceiver(last) {
        HandlerAgrees(paths, Run(paths, front), last, s, SaidBy(paths, front, s));
      } else {
        ServingAgrees(paths, Run(paths, front), last, s, SaidBy(paths, front, s));
      }
    }
  }

  lemma ScriptIsWhatWasSaid(paths: set<string>, acts: seq<Act>, s: int)
    requires s in Run(paths, acts).handlers
    ensures var h, b := Run(paths, acts).handlers[s], SaidBy(paths, acts, s);
            && h.messages == b.messages && h.header == b.header && h.final == b.final
            && Script(h) == ScriptOf(b.header, b.messages, b.final)
  {
    HandlersSayWhatTheyAreTold(paths, acts, s);
    hide Run, SaidBy, ScriptOf;
  }

  // ---------------------------------------------------------------- what a client asked for

  predicate Reads(m: Mux, act: Act) {
    act.Serve? && m.serve == Reading && Admissible(m, act.frame) && act.reason.ResponseEnd?
  }

  predicate ReadsEnd(m: Mux, act: Act, s: int, closeSend: bool) {
    Reads(m, act) && act.frame == Envelope(s, End(closeSend)) && s in m.live
  }

  /** A half-close (or else a cancel) of `s` was read while the stream was in the map. */
  predicate EndRead(paths: set<string>, acts: seq<Act>, s: int, closeSend: bool)
    decreases |acts|
  {
    acts != [] &&
    var front, last := acts[..|acts| - 1], acts[|acts| - 1];
    EndRead(paths, front, s, closeSend) || ReadsEnd(Run(paths, front), last, s, closeSend)
  }

  /** The deadline of `s` passed. */
  predicate Expired(paths: set<string>, acts: seq<Act>, s: int)
    decreases |acts|
  {
    acts != [] &&
    var front, last := acts[..|acts| - 1], acts[|acts| - 1];
    Expired(paths, front, s) || (last == Expire(s) && s in Run(paths, front).handlers)
  }

  predicate Heeds(m: Mux, s: int, half: bool, cancel: bool, expired: bool) {
    && (m.serve == Cancelling(s) ==> cancel)
    && if s !in m.handlers then !half && !cancel && !expired else
       var h := m.handlers[s];
       && (h.halfClosed <==> half)
       && (h.cancelled <==> cancel && m.serve != Cancelling(s))
       && (h.ctxDone <==> cancel || expired || h.pc == Done)
  }

  lemma DeliverHeeds(m: Mux, u: int, payload: Bytes, s: int, half: bool, cancel: bool, expired: bool)
    requires Heeds(m, s, half, cancel, expired) && m.serve == Reading
    ensures Heeds(Deliver(m, u, payload), s, half, cancel, expired)
  {
  }

  lemma ReadHeeds(paths: set<string>, m: Mux, act: Act, s: int, half: bool, cancel: bool, expired: bool)
    requires Heeds(m, s, half, cancel, expired) && Reads(m, act)
    requires s in m.handlers && m.handlers[s].cancelled ==> s !in m.live
    requires m.live <= m.handlers.Keys
    ensures Heeds(ServeFrame(paths, m, act.frame, act.reason), s, half || ReadsEnd(m, act, s, true),
                  cancel || ReadsEnd(m, act, s, false), expired)
  {
    hide Deliver, Reassembly.Fold;
    var f := act.frame;
    if f.body.Data? {
      match f.body.content
      case Message(data) => DeliverHeeds(m, f.sequence, data, s, half, cancel, expired);
      case Piece(chunk) =>
        var (t, full) := Reassembly.Fold(m.reasm, f.sequence, chunk);
        assert Heeds(m.(reasm := t), s, half, cancel, expired);
        if full.Some? { DeliverHeeds(m.(reasm := t), f.sequence, full.value, s, half, cancel, expired); }
      case NoContent =>
    }
  }

  lemma ServingHeeds(m: Mux, act: Act, s: int, half: bool, cancel: bool, expired: bool)
    requires Heeds(m, s, half, cancel, expired) && !act.Serve?
    ensures Heeds(ServeStep(m, act), s, half, cancel, expired)
  {
  }

  /** What a handler's own step does to the signs of an end. */
  predicate Moves(h: Handler, n: Handler, expire: bool) {
    && n.halfClosed == h.halfClosed && n.cancelled == h.cancelled && (h.pc == Done ==> n.pc == Done)
    && (n.ctxDone <==> h.ctxDone || expire || n.pc == Done)
  }

  lemma SenderMoves(live: bool, acked: set<nat>, h: Handler, act: Act)
    requires OfSender(act) && (h.pc == Done ==> h.ctxDone)
    ensures Moves(h, SendStep(live, acked, h, act), false)
  {
    hide DataBodies;
  }

  lemma ReceiverMoves(h: Handler, act: Act)
    requires OfReceiver(act) && (h.pc == Done ==> h.ctxDone)
    ensures Moves(h, RecvStep(h, act), act.Expire?)
  {
  }

  lemma EnqueueMoves(h: Handler, ticket: nat)
    requires h.pc.Queueing? && h.pc.todo != []
    ensures Moves(h, h.(pc := Waiting(ticket, h.pc.todo[1..], h.pc.after)), false)
  {
  }

  lemma HandlerMoves(paths: set<string>, m: Mux, act: Act)
    requires OfSender(act) || OfReceiver(act)
    requires act.s in m.handlers && (m.handlers[act.s].pc == Done ==> m.handlers[act.s].ctxDone)
    ensures var n := Step(paths, m, act);
            act.s in n.handlers && Moves(m.handlers[act.s], n.handlers[act.s], act.Expire?)
  {
    var h := m.handlers[act.s];
    if act.Enqueue? {
      if h.pc.Queueing? && h.pc.todo != [] { EnqueueMoves(h, m.tickets); }
    } else if OfSender(act) {
      SendingStepSets(paths, m, act);
      SenderMoves(act.s in m.live, m.acked, h, act);
      hide Step, SendStep;
    } else {
      ReceiverMoves(h, act);
      hide RecvStep;
    }
  }

  lemma HandlerHeeds(paths: set<string>, m: Mux, act: Act, s: int, half: bool, cancel: bool, expired: bool)
    requires Heeds(m, s, half, cancel, expired) && (OfSender(act) || OfReceiver(act))
    ensures Heeds(Step(paths, m, act), s, half, cancel, expired || (act == Expire(s) && s in m.handlers))
  {
    HandlerStep(paths, m, act);
    if s !in m.handlers || act.s != s {
      hide Step, SendStep, RecvStep, SameInbox;
    } else {
      HandlerMoves(paths, m, act);
      var n := Step(paths, m, act);
      assert n.serve == m.serve && s in n.handlers;
      hide Step, OnlyHandler;
    }
  }

  lemma StepHeeds(paths: set<string>, m: Mux, act: Act, s: int, half: bool, cancel: bool, expired: bool)
    requires Heeds(m, s, half, cancel, expired)
    requires s in m.handlers && m.handlers[s].cancelled ==> s !in m.live
    requires m.live <= m.handlers.Keys
    ensures Heeds(Step(paths, m, act), s, half || ReadsEnd(m, act, s, true), cancel || ReadsEnd(m, act, s, false),
                  expired || (act == Expire(s) && s in m.handlers))
  {
    if act.Serve? {
      if Reads(m, act) { ReadHeeds(paths, m, act, s, half, cancel, expired); }
      hide ServeFrame, Admissible;
    } else if OfSender(act) || OfReceiver(act) {
      HandlerHeeds(paths, m, act, s, half, cancel, expired);
      hide *;
    } else {
      ServingHeeds(m, act, s, half, cancel, expired);
      hide ServeStep, Heeds;
    }
  }

  lemma CancelledIsOut(m: Mux, s: int)
    requires MuxInv(m)
    ensures m.live <= m.handlers.Keys && (s in m.handlers && m.handlers[s].cancelled ==> s !in m.live)
  {
    hide Accounted, Project;
  }

  lemma {:induction false} RunHeeds(paths: set<string>, acts: seq<Act>, s: int)
    ensures Heeds(Run(paths, acts), s, EndRead(paths, acts, s, true), EndRead(paths, acts, s, false),
                  Expired(paths, acts, s))
    decreases |acts|
  {
    if acts != [] {
      var front, last := acts[..|acts| - 1], acts[|acts| - 1];
      RunHeeds(paths, front, s);
      RunKeepsMux(paths, front);
      CancelledIsOut(Run(paths, front), s);
      hide Heeds, Step, ReadsEnd, MuxInv;
      StepHeeds(paths, Run(paths, front), last, s, EndRead(paths, front, s, true), EndRead(paths, front, s, false),
                Expired(paths, front, s));
    }
  }

  /** In every run: a stream is half-closed exactly if its half-close was read while it was in the map; its context
      has ended exactly if its cancel was read so, its deadline passed or its handler is done; and once the serve
      loop is past such a cancel the stream is marked cancelled, and out of the map. */
  lemma EndsAreHeeded(paths: set<string>, acts: seq<Act>, s: int)
    requires s in Run(paths, acts).handlers
    ensures var m := Run(paths, acts);
            var h := m.handlers[s];
            && (h.halfClosed <==> EndRead(paths, acts, s, true))
            && (h.ctxDone <==> EndRead(paths, acts, s, false) || Expired(paths, acts, s) || h.pc == Done)
            && (h.cancelled <==> EndRead(paths, acts, s, false) && m.serve != Cancelling(s))
            && (EndRead(paths, acts, s, false) && m.serve != Cancelling(s) ==> s !in m.live)
  {
    RunHeeds(paths, acts, s);
    RunKeepsMux(paths, acts);
    CancelledIsOut(Run(paths, acts), s);
    hide Run, EndRead, Expired, MuxInv;
  }

  /** Nothing was asked of a stream that was never opened. */
  lemma EndReadIsKnown(paths: set<string>, acts: seq<Act>, s: int, closeSend: bool)
    requires EndRead(paths, acts, s, closeSend)
    ensures s in Run(paths, acts).handlers
  {
    RunHeeds(paths, acts, s);
    hide Run, EndRead, Expired;
  }
}
