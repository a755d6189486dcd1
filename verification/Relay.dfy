/** The relay: two byte pumps over bounded queues, and what relayed frames look like at the far end. */
module Relay {
  import opened Wire
  import opened Segmentation

  const RECV_CAPACITY: nat := 256

  // ---------------------------------------------------------------- the pumps

  /** One direction. `arrived` and `written` record what came in from the source's DataChannel and what went out to
      the destination's; `inbox` is the source channel's receive queue, `outbound` the destination slot's queue,
      `held` what the reader has received and not queued, `taken` what the writer has taken and not written. */
  datatype Pump = Pump(
    arrived: seq<Bytes>, inbox: seq<Bytes>, held: seq<Bytes>, outbound: seq<Bytes>, taken: seq<Bytes>,
        written: seq<Bytes>,
    reading: bool, writing: bool)

  const IDLE: Pump := Pump([], [], [], [], [], [], true, true)

  datatype Move = Arrive(message: Bytes) | Recv | Queue | Dequeue | Write | StopReader | StopWriter

  function PumpStep(capacity: nat, p: Pump, move: Move): Pump {
    match move
    case Arrive(message) =>
      if |p.inbox| >= RECV_CAPACITY then p else p.(arrived := p.arrived + [message], inbox := p.inbox + [message])
    case Recv =>
      if !p.reading || p.held != [] || p.inbox == [] then p
      else p.(inbox := p.inbox[1..], held := [StripPrefix(p.inbox[0])])
    case Queue =>
      if !p.reading || p.held == [] || |p.outbound| >= capacity then p
      else p.(outbound := p.outbound + p.held, held := [])
    case Dequeue =>
      if !p.writing || p.taken != [] || p.outbound == [] then p
      else p.(outbound := p.outbound[1..], taken := [p.outbound[0]])
    case Write => if !p.writing then p else p.(written := p.written + p.taken, taken := [])
    case StopReader => p.(reading := false)
    case StopWriter => p.(writing := false)
  }

  /** Both directions of a session: the pump from the first peer to the second, and back. */
  datatype Session = Session(there: Pump, back: Pump)

  datatype Act = There(move: Move) | Back(move: Move)

  function Step(capacity: nat, s: Session, act: Act): Session {
    match act
    case There(move) => s.(there := PumpStep(capacity, s.there, move))
    case Back(move) => s.(back := PumpStep(capacity, s.back, move))
  }

  function Run(capacity: nat, acts: seq<Act>): Session
    decreases |acts|
  {
    if acts == [] then Session(IDLE, IDLE) else Step(capacity, Run(capacity, acts[..|acts| - 1]), acts[|acts| - 1])
  }

  function Stripped(messages: seq<Bytes>): (out: seq<Bytes>)
    ensures |out| == |messages|
  {
    seq(|messages|, i requires 0 <= i < |messages| => StripPrefix(messages[i]))
  }

  /** Everything that arrived is, in order, written, taken, queued, held or still to be received. */
  predicate Conserves(capacity: nat, p: Pump) {
    && p.written + p.taken + p.outbound + p.held + Stripped(p.inbox) == Stripped(p.arrived)
    && |p.taken| <= 1 && |p.held| <= 1 && |p.outbound| <= capacity && |p.inbox| <= RECV_CAPACITY
  }

  lemma StrippedAppends(messages: seq<Bytes>, message: Bytes)
    ensures Stripped(messages + [message]) == Stripped(messages) + [StripPrefix(message)]
  {
  }

  lemma StrippedHead(messages: seq<Bytes>)
    requires messages != []
    ensures Stripped(messages) == [StripPrefix(messages[0])] + Stripped(messages[1..])
  {
  }

  lemma ArriveConserves(capacity: nat, p: Pump, message: Bytes)
    requires Conserves(capacity, p)
    ensures Conserves(capacity, PumpStep(capacity, p, Arrive(message)))
  {
    StrippedAppends(p.inbox, message);
    StrippedAppends(p.arrived, message);
    hide Stripped, StripPrefix;
    var front := p.written + p.taken + p.outbound + p.held;
    assert front + (Stripped(p.inbox) + [StripPrefix(message)]) == (front + Stripped(p.inbox)) + [StripPrefix(message)];
  }

  lemma RecvConserves(capacity: nat, p: Pump)
    requires Conserves(capacity, p)
    ensures Conserves(capacity, PumpStep(capacity, p, Recv))
  {
    if p.reading && p.held == [] && p.inbox != [] {
      StrippedHead(p.inbox);
      hide Stripped, StripPrefix;
      var front, head, rest := p.written + p.taken + p.outbound, [StripPrefix(p.inbox[0])], Stripped(p.inbox[1..]);
      assert front + [] + (head + rest) == front + head + rest;
    }
  }

  lemma MoveConserves(capacity: nat, p: Pump, move: Move)
    requires Conserves(capacity, p) && (move.Queue? || move.Dequeue? || move.Write?)
    ensures Conserves(capacity, PumpStep(capacity, p, move))
  {
    hide Stripped, StripPrefix;
    var n := PumpStep(capacity, p, move);
    assert n.written + n.taken + n.outbound + n.held == p.written + p.taken + p.outbound + p.held;
  }

  lemma PumpConserves(capacity: nat, p: Pump, move: Move)
    requires Conserves(capacity, p)
    ensures Conserves(capacity, PumpStep(capacity, p, move))
  {
    match move
    case Arrive(message) => ArriveConserves(capacity, p, message); hide *;
    case Recv => RecvConserves(capacity, p); hide *;
    case StopReader => hide Stripped;
    case StopWriter => hide Stripped;
    case _ => MoveConserves(capacity, p, move); hide *;
  }

  lemma {:induction false} RunConserves(capacity: nat, acts: seq<Act>)
    ensures Conserves(capacity, Run(capacity, acts).there) && Conserves(capacity, Run(capacity, acts).back)
    decreases |acts|
  {
    if acts != [] {
      RunConserves(capacity, acts[..|acts| - 1]);
      var s, act := Run(capacity, acts[..|acts| - 1]), acts[|acts| - 1];
      hide PumpStep, Conserves;
      PumpConserves(capacity, if act.There? then s.there else s.back, act.move);
    }
  }

  /** Under every interleaving of the four goroutines, wherever either of them stops: each direction has written a
      prefix of what arrived on it, prefix by prefix stripped, nothing from the other direction, and all of it
      once its queues are empty. */
  lemma WrittenIsPrefix(capacity: nat, acts: seq<Act>)
    ensures var s := Run(capacity, acts);
            && s.there.written <= Stripped(s.there.arrived) && s.back.written <= Stripped(s.back.arrived)
            && |s.there.outbound| <= capacity && |s.back.outbound| <= capacity
            && (s.there.inbox == s.there.held == s.there.outbound == s.there.taken == []
                ==> s.there.written == Stripped(s.there.arrived))
            && (s.back.inbox == s.back.held == s.back.outbound == s.back.taken == []
                ==> s.back.written == Stripped(s.back.arrived))
  {
    RunConserves(capacity, acts);
    hide Run;
    FrontIsPrefix(capacity, Run(capacity, acts).there);
    FrontIsPrefix(capacity, Run(capacity, acts).back);
  }

  lemma FrontIsPrefix(capacity: nat, p: Pump)
    requires Conserves(capacity, p)
    ensures p.written <= Stripped(p.arrived)
    ensures p.inbox == p.held == p.outbound == p.taken == [] ==> p.written == Stripped(p.arrived)
  {
  }

  // ---------------------------------------------------------------- the two directions, and stopping

  function MovesOf(acts: seq<Act>, there: bool): seq<Move>
    decreases |acts|
  {
    if acts == [] then [] else
    var front, last := MovesOf(acts[..|acts| - 1], there), acts[|acts| - 1];
    if last.There? == there then front + [last.move] else front
  }

  function PumpRun(capacity: nat, moves: seq<Move>): Pump
    decreases |moves|
  {
    if moves == [] then IDLE
    else PumpStep(capacity, PumpRun(capacity, moves[..|moves| - 1]), moves[|moves| - 1])
  }

  /** The directions of a session do not touch each other: each is where its own moves alone take it. */
  lemma {:induction false} DirectionsApart(capacity: nat, acts: seq<Act>)
    ensures Run(capacity, acts).there == PumpRun(capacity, MovesOf(acts, true))
    ensures Run(capacity, acts).back == PumpRun(capacity, MovesOf(acts, false))
    decreases |acts|
  {
    hide PumpStep;
    if acts != [] {
      var front, last := acts[..|acts| - 1], acts[|acts| - 1];
      DirectionsApart(capacity, front);
      OneMoreMove(capacity, MovesOf(front, last.There?), last.move);
    }
  }

  lemma OneMoreMove(capacity: nat, moves: seq<Move>, move: Move)
    ensures PumpRun(capacity, moves + [move]) == PumpStep(capacity, PumpRun(capacity, moves), move)
  {
    hide PumpStep;
    assert (moves + [move])[..|moves|] == moves;
  }

  /** A message that arrives at a pump at rest, with nobody stopped, goes out without its prefix, and the pump is at
      rest again. */
  lemma PassesOn(capacity: nat, p: Pump, message: Bytes)
    requires p.reading && p.writing && capacity > 0
    requires p.inbox == [] && p.held == [] && p.outbound == [] && p.taken == []
    ensures var p1 := PumpStep(capacity, PumpStep(capacity, p, Arrive(message)), Recv);
            PumpStep(capacity, PumpStep(capacity, PumpStep(capacity, p1, Queue), Dequeue), Write)
            == p.(arrived := p.arrived + [message], written := p.written + [StripPrefix(message)])
  {
    hide StripPrefix;
    var p1 := PumpStep(capacity, PumpStep(capacity, p, Arrive(message)), Recv);
    assert p1 == p.(arrived := p.arrived + [message], held := [StripPrefix(message)]);
    var p2 := PumpStep(capacity, p1, Queue);
    assert p2 == p1.(outbound := [StripPrefix(message)], held := []);
    assert PumpStep(capacity, p2, Dequeue) == p2.(outbound := [], taken := [StripPrefix(message)]);
  }

  /** What the reader has handed over. */
  function Past(p: Pump): seq<Bytes> {
    p.written + p.taken + p.outbound
  }

  lemma StepStopped(capacity: nat, p: Pump, move: Move)
    ensures var n := PumpStep(capacity, p, move);
            && (n.reading <==> p.reading && move != StopReader) && (n.writing <==> p.writing && move != StopWriter)
            && (!p.reading ==> Past(n) == Past(p)) && (!p.writing ==> n.written == p.written && n.taken == p.taken)
  {
    hide StripPrefix;
  }

  /** Once the reader has stopped nothing more is handed over; once the writer has stopped nothing more is written;
      and only stopping stops them. */
  lemma {:induction false} StoppedForGood(capacity: nat, moves: seq<Move>, more: seq<Move>)
    ensures var p, n := PumpRun(capacity, moves), PumpRun(capacity, moves + more);
            && (n.reading <==> p.reading && StopReader !in more) && (n.writing <==> p.writing && StopWriter !in more)
            && (!p.reading ==> Past(n) == Past(p)) && (!p.writing ==> n.written == p.written)
    decreases |more|
  {
    hide PumpRun, PumpStep, Past;
    if more == [] {
      assert moves + more == moves;
    } else {
      var front, last := more[..|more| - 1], more[|more| - 1];
      StoppedForGood(capacity, moves, front);
      OneMoreMove(capacity, moves + front, last);
      assert moves + more == (moves + front) + [last] && more == front + [last];
      StepStopped(capacity, PumpRun(capacity, moves + front), last);
    }
  }

  // ---------------------------------------------------------------- at the far end

  /** A marshaled frame: it starts with a protobuf tag, whose field number is not 0, and fits the frame bound. */
  predicate Tagged(p: Bytes) {
    p != [] && p[0] != 0 && |p| <= MAX_FRAME_SIZE
  }

  function AllPrefixed(payloads: seq<Bytes>): (out: seq<Bytes>)
    ensures |out| == |payloads|
  {
    seq(|payloads|, i requires 0 <= i < |payloads| => Prefixed(payloads[i]))
  }

  /** A Go receiver gets the same frames through the relay as it gets directly. */
  lemma GoReceivesTheSame(payloads: seq<Bytes>)
    requires forall i :: 0 <= i < |payloads| ==> Tagged(payloads[i])
    ensures Stripped(AllPrefixed(payloads)) == payloads
    ensures Stripped(Stripped(AllPrefixed(payloads))) == payloads
  {
    var direct := Stripped(AllPrefixed(payloads));
    forall i | 0 <= i < |payloads| ensures direct[i] == payloads[i] && StripPrefix(direct[i]) == payloads[i] {
      assert direct[i] == StripPrefix(Prefixed(payloads[i]));
      StripUndoesPrefix(payloads[i], []);
      StripKeepsTagged(payloads[i]);
    }
    hide StripPrefix, Prefixed;
    assert direct == payloads;
  }

  /** A TypeScript receiver gets every frame directly and none through the relay: the relay has taken the length
      prefix off, and the decode loop reads the tag byte as the top of a length beyond the bound. */
  lemma TsReceivesNothing<F>(c: Codec<F>, frames: seq<F>)
    requires frames != [] && forall f :: f in frames ==> Sendable(c, f) && Tagged(c.encode(f))
    ensures var payloads := seq(|frames|, i requires 0 <= i < |frames| => c.encode(frames[i]));
            && Feed(c, [], AllPrefixed(payloads)) == Drained(frames, [])
            && Feed(c, [], Stripped(AllPrefixed(payloads))).frames == []
  {
    var payloads := seq(|frames|, i requires 0 <= i < |frames| => c.encode(frames[i]));
    forall i | 0 <= i < |payloads| ensures Tagged(payloads[i]) { assert frames[i] in frames; }
    GoReceivesTheSame(payloads);
    PrefixedIsEncoded(c, frames);
    CompleteStream(c, frames, AllPrefixed(payloads));
    hide Prefixed, StripPrefix, Stripped, AllPrefixed;
    UnprefixedNeverDecode(c, [], payloads);
  }

  lemma {:induction false} PrefixedIsEncoded<F>(c: Codec<F>, frames: seq<F>)
    ensures var payloads := seq(|frames|, i requires 0 <= i < |frames| => c.encode(frames[i]));
            Flatten(AllPrefixed(payloads)) == Encoded(c, frames)
  {
    hide Prefixed;
    if frames != [] {
      var payloads := seq(|frames|, i requires 0 <= i < |frames| => c.encode(frames[i]));
      var later := seq(|frames[1..]|, i requires 0 <= i < |frames[1..]| => c.encode(frames[1..][i]));
      PrefixedIsEncoded(c, frames[1..]);
      assert AllPrefixed(payloads)[1..] == AllPrefixed(later);
    }
  }

  lemma {:induction false} UnprefixedNeverDecode<F>(c: Codec<F>, buf: Bytes, segments: seq<Bytes>)
    requires buf != [] ==> buf[0] != 0
    requires forall i :: 0 <= i < |segments| ==> Tagged(segments[i])
    ensures Feed(c, buf, segments).frames == []
    decreases |segments|
  {
    if segments != [] {
      var next := buf + segments[0];
      assert Tagged(segments[0]) && next[0] != 0;
      TagBlocks(c, next);
      UnprefixedNeverDecode(c, next, segments[1..]);
      hide Drain;
    }
  }

  lemma TagBlocks<F>(c: Codec<F>, buf: Bytes)
    requires buf != [] && buf[0] != 0
    ensures Drain(c, buf) == Drained([], buf)
  {
  }
}
