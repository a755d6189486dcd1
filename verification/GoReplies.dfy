/** Replies from a Go handler to a Go caller: demultiplexing at the client, and the whole way. */
module GoReplies {
  import opened Wire
  import opened Frames
  import opened Receiving
  import opened GoClient
  import GoServer
  import GoServerWire
  import GoServerSaid
  import GoCalls
  import Reassembly

  // ---------------------------------------------------------------- demultiplexing

  /** The frames read since the call was opened that carry its number. */
  function Since(c: Cli, r: nat): seq<Response>
    requires r < |c.calls|
  {
    if c.calls[r].openedAt <= |c.read| then Project(c.read[c.calls[r].openedAt..], Sequence(r)) else []
  }

  /** A frame found to be the call's and not handled yet. */
  function InFlight(c: Cli, r: nat): seq<Response> {
    if c.pc.Handling? && c.pc.r == r then [c.pc.body] else []
  }

  predicate InMap(c: Cli, r: nat) {
    Sequence(r) in c.streams && c.streams[Sequence(r)] == r
  }

  predicate Owns(c: Cli, r: nat)
    requires r < |c.calls|
  {
    var found := c.calls[r].frames + InFlight(c, r);
    && c.calls[r].openedAt <= |c.read|
    && found <= Since(c, r)
    && (InMap(c, r) ==> found == Since(c, r))
  }

  lemma ReadAppends(read: seq<ResponseFrame>, at: nat, f: ResponseFrame, s: int)
    requires at <= |read|
    ensures Project((read + [f])[at..], s)
         == if f.sequence == s then Project(read[at..], s) + [f.body] else Project(read[at..], s)
  {
    assert (read + [f])[at..] == read[at..] + [f];
    ProjectAppends(read[at..], f, s);
  }

  lemma LookKeepsOwns(c: Cli, f: ResponseFrame, r: nat)
    requires StreamsOk(c) && r < |c.calls| && Owns(c, r) && c.pc == Reading
    ensures Owns(Step(c, Look(f)), r)
  {
    ReadAppends(c.read, c.calls[r].openedAt, f, Sequence(r));
    hide Project, Sequence;
    assert c.calls[r].frames + [] == c.calls[r].frames;
  }

  lemma DispatchKeepsOwns(c: Cli, r: nat)
    requires c.pc.Handling? && c.pc.r < |c.calls| && r < |c.calls| && Owns(c, r)
    requires c.calls[c.pc.r].ends == 0 && CallsOk(c)
    ensures Owns(Step(c, Handle), r)
  {
    var k, body := c.pc.r, c.pc.body;
    HearKeepsCall(c.calls[k].(frames := c.calls[k].frames + [body]), c.reasm, Sequence(k), body);
    hide Hear, Project, Sequence;
    var d := Dispatch(c, k, body);
    assert d.calls[r].frames + [] == c.calls[r].frames + InFlight(c, r);
  }

  lemma OpenOwns(c: Cli, r: nat)
    requires PcOk(c) && r <= |c.calls| && (r < |c.calls| ==> Owns(c, r))
    ensures Owns(Step(c, Open), r)
  {
    if r == |c.calls| {
      hide Sequence;
    } else {
      hide Project, Sequence;
    }
  }

  lemma OthersAside(c: Cli, act: Act, r: nat)
    requires !act.Open? && !act.Look? && !act.Handle? && r < |c.calls|
    ensures var d := Step(c, act);
            && r < |d.calls| && d.calls[r].frames == c.calls[r].frames && d.calls[r].openedAt == c.calls[r].openedAt
            && d.read == c.read && InFlight(d, r) == InFlight(c, r) && (InMap(d, r) ==> InMap(c, r))
  {
    if OfCaller(act) && act.r < |c.calls| { ReceiveKeepsEnding(c.calls[act.r], act); }
    hide Sequence, Dispatch, Receive;
  }

  /** The other steps touch neither the frames read nor those found. */
  lemma OthersKeepOwns(c: Cli, act: Act, r: nat)
    requires !act.Open? && !act.Look? && !act.Handle? && r < |c.calls| && Owns(c, r)
    ensures r < |Step(c, act).calls| && Owns(Step(c, act), r)
  {
    OthersAside(c, act, r);
    hide Project, Sequence, Step, InMap, InFlight;
  }

  lemma StepKeepsOwns(c: Cli, act: Act, r: nat)
    requires Inv(c) && r < |Step(c, act).calls| && (r < |c.calls| ==> Owns(c, r))
    ensures Owns(Step(c, act), r)
  {
    CallsStay(c, act);
    hide Owns, Sequence, Dispatch;
    match act
    case Open => OpenOwns(c, r);
    case Look(f) => if c.pc == Reading { LookKeepsOwns(c, f, r); }
    case Handle => if c.pc.Handling? { DispatchKeepsOwns(c, r); }
    case _ => OthersKeepOwns(c, act, r);
  }

  /** Demultiplexing is projection: in every run the frames found to be a call's are, in order, those read since it
      was opened that carry its number, as long as it is in the map, and a first part of them ever after. */
  lemma {:induction false} DemuxIsProjection(acts: seq<Act>, r: nat)
    requires r < |Run(acts).calls|
    ensures Owns(Run(acts), r)
    decreases |acts|
  {
    if acts != [] {
      var front := acts[..|acts| - 1];
      RunKeepsInv(front);
      if r < |Run(front).calls| { DemuxIsProjection(front, r); }
      hide Inv, Owns, Step;
      StepKeepsOwns(Run(front), acts[|acts| - 1], r);
    }
  }

  // ---------------------------------------------------------------- what a handler's frames carry

  lemma OneMoreMessage(bodies: seq<Response>, messages: seq<Bytes>, payload: Bytes)
    requires Holds(Taken(bodies), messages)
    ensures Holds(Taken(bodies + DataBodies(payload)), messages + [payload])
  {
    hide AbsorbOne, AfterReading;
    var wrap := (c: Content) => ResponseData(c);
    ReadingPayload(Take, FRESH, bodies, wrap, messages, payload, GO_CHUNK_SIZE);
    hide Contents;
    assert Wrapped(wrap, Contents(payload, GO_CHUNK_SIZE)) == DataBodies(payload);
  }

  lemma {:induction false} MessagesAreTaken(bodies: seq<Response>, messages: seq<Bytes>)
    requires Holds(Taken(bodies), [])
    ensures Holds(Taken(bodies + GoServer.AllData(messages)), messages)
    decreases |messages|
  {
    hide Taken, DataBodies, Holds;
    if messages == [] {
      assert bodies + GoServer.AllData([]) == bodies;
    } else {
      var front, last := messages[..|messages| - 1], messages[|messages| - 1];
      MessagesAreTaken(bodies, front);
      var sofar := GoServer.AllData(front);
      assert GoServer.AllData(messages) == sofar + DataBodies(last);
      hide GoServer.AllData;
      OneMoreMessage(bodies + sofar, front, last);
      assert bodies + (sofar + DataBodies(last)) == (bodies + sofar) + DataBodies(last);
      assert front + [last] == messages;
    }
  }

  lemma BareBodies(header: Option<Metadata>)
    ensures Holds(Taken(if header.Some? then [Begin(header.value, None)] else []), [])
  {
    if header.Some? {
      TakenAppends([], Begin(header.value, None));
      assert [] + [Begin(header.value, None)] == [Begin(header.value, None)];
    }
  }

  /** A whole conversation carries exactly the messages sent. */
  lemma ScriptCarriesMessages(h: GoServer.Handler)
    requires h.final.Some? ==> h.final.value.ResponseEnd?
    ensures Holds(Taken(GoServer.Script(h)), h.messages)
  {
    var opening := if h.header.Some? then [Begin(h.header.value, None)] else [];
    BareBodies(h.header);
    MessagesAreTaken(opening, h.messages);
    var data := opening + GoServer.AllData(h.messages);
    hide GoServer.AllData, Holds, Taken;
    if h.final.Some? {
      TakenAppends(data, h.final.value);
    } else {
      assert data + [] == data;
    }
  }

  lemma TakenGrows(bodies: seq<Response>, later: seq<Response>)
    ensures Taken(bodies).log <= Taken(bodies + later).log
  {
    hide Reassembly.FoldOne, AfterReading;
    assert AllOnlyAdd(Take, later);
    ReadingStaysOpen(Take, FRESH, bodies);
    ReadingGrows(Take, FRESH, bodies, later);
  }

  lemma PartCarriesPart(w: seq<Response>, h: GoServer.Handler)
    requires w <= GoServer.Script(h) && (h.final.Some? ==> h.final.value.ResponseEnd?)
    ensures Taken(w).log <= h.messages
    ensures w == GoServer.Script(h) ==> Taken(w).log == h.messages
  {
    ScriptCarriesMessages(h);
    TakenGrows(w, GoServer.Script(h)[|w|..]);
    assert w + GoServer.Script(h)[|w|..] == GoServer.Script(h);
    hide Taken, GoServer.Script;
  }

  // ---------------------------------------------------------------- the whole way

  /** Server and client over one connection, by what each has done. */
  datatype Pair = Pair(server: seq<GoServer.Act>, client: seq<Act>)

  datatype Move = ServerDoes(served: GoServer.Act) | ClientDoes(act: Act)

  function Numbers(c: Cli): set<int> {
    set r | 0 <= r < |c.calls| :: Sequence(r)
  }

  /** The connection is one queue: the client reads the next frame written. A Call is only sent for a call that has
      been opened. */
  predicate Possible(m: GoServer.Mux, c: Cli, move: Move) {
    match move
    case ServerDoes(act) => act.Serve? && act.frame.body.Call? ==> act.frame.sequence in Numbers(c)
    case ClientDoes(act) => act.Look? ==> |c.read| < |m.wire| && act.frame == m.wire[|c.read|]
  }

  function Does(paths: set<string>, p: Pair, move: Move): Pair {
    if !Possible(GoServer.Run(paths, p.server), Run(p.client), move) then p
    else match move
      case ServerDoes(act) => p.(server := p.server + [act])
      case ClientDoes(act) => p.(client := p.client + [act])
  }

  function Together(paths: set<string>, moves: seq<Move>): Pair
    decreases |moves|
  {
    if moves == [] then Pair([], []) else Does(paths, Together(paths, moves[..|moves| - 1]), moves[|moves| - 1])
  }

  /** A move that is possible happens, on its own side, and one that is not does not. */
  lemma PossibleMovesHappen(paths: set<string>, moves: seq<Move>, move: Move)
    ensures var p, n := Together(paths, moves), Together(paths, moves + [move]);
            var possible := Possible(GoServer.Run(paths, p.server), Run(p.client), move);
            && n.server == p.server + (if possible && move.ServerDoes? then [move.served] else [])
            && n.client == p.client + (if possible && move.ClientDoes? then [move.act] else [])
  {
    assert (moves + [move])[..|moves|] == moves;
    hide Possible, GoServer.Run, Run;
  }

  /** What came in before the call was opened was not for it. */
  predicate NoneBefore(c: Cli, r: nat)
    requires r < |c.calls|
  {
    c.calls[r].openedAt <= |c.read| && Project(c.read[..c.calls[r].openedAt], Sequence(r)) == []
  }

  predicate Linked(m: GoServer.Mux, c: Cli) {
    && c.read <= m.wire
    && m.handlers.Keys + m.rejected <= Numbers(c)
    && (|c.calls| <= CYCLE ==> forall r :: 0 <= r < |c.calls| ==> NoneBefore(c, r))
  }

  lemma ServerOnlyAdds(paths: set<string>, m: GoServer.Mux, act: GoServer.Act)
    ensures var n := GoServer.Step(paths, m, act);
            && m.wire <= n.wire
            && n.handlers.Keys + n.rejected <= m.handlers.Keys + m.rejected +
                 if act.Serve? && act.frame.body.Call? then {act.frame.sequence} else {}
  {
    if act.Serve? {
      ServeOnlyAdds(paths, m, act.frame, act.reason);
      hide GoServer.ServeFrame, GoServer.Admissible;
    } else if GoServer.OfSender(act) || GoServer.OfReceiver(act) {
      HandlersWriteNothing(paths, m, act);
      hide *;
    } else {
      GoServer.ServeStepIsStep(paths, m, act);
      ServeStepOnlyAdds(m, act);
      hide *;
    }
  }

  lemma ServeOnlyAdds(paths: set<string>, m: GoServer.Mux, f: Frame, reason: Response)
    ensures var n := GoServer.ServeFrame(paths, m, f, reason);
            && n.wire == m.wire
            && n.handlers.Keys + n.rejected <= m.handlers.Keys + m.rejected +
                 if f.body.Call? then {f.sequence} else {}
  {
    hide Reassembly.Fold;
  }

  lemma ServeStepOnlyAdds(m: GoServer.Mux, act: GoServer.Act)
    ensures var n := GoServer.ServeStep(m, act);
            m.wire <= n.wire && n.handlers.Keys == m.handlers.Keys && n.rejected == m.rejected
  {
  }

  lemma HandlersWriteNothing(paths: set<string>, m: GoServer.Mux, act: GoServer.Act)
    requires GoServer.OfSender(act) || GoServer.OfReceiver(act)
    ensures var n := GoServer.Step(paths, m, act);
            n.wire == m.wire && n.handlers.Keys == m.handlers.Keys && n.rejected == m.rejected
  {
    hide GoServer.SendStep, GoServer.RecvStep;
  }

  lemma ServerKeepsLinked(paths: set<string>, m: GoServer.Mux, c: Cli, act: GoServer.Act)
    requires Linked(m, c) && Possible(m, c, ServerDoes(act))
    ensures Linked(GoServer.Step(paths, m, act), c)
  {
    ServerOnlyAdds(paths, m, act);
    hide GoServer.Step, NoneBefore, Numbers;
  }

  lemma PartProjects(w: seq<ResponseFrame>, v: seq<ResponseFrame>, s: int)
    requires w <= v
    ensures Project(w, s) <= Project(v, s)
  {
    ProjectConcatenates(w, v[|w|..], s);
    assert w + v[|w|..] == v;
  }

  /** A number that is new to the client has not been written. */
  lemma NewNumberIsUnused(m: GoServer.Mux, c: Cli)
    requires GoServer.MuxInv(m) && Linked(m, c) && |c.calls| < CYCLE
    ensures Project(c.read, Sequence(|c.calls|)) == []
  {
    var s := Sequence(|c.calls|);
    if s in Numbers(c) {
      var r :| 0 <= r < |c.calls| && s == Sequence(r);
      Distinct(r, |c.calls|);
    }
    GoServerWire.WireIsPrefix(m, s);
    PartProjects(c.read, m.wire, s);
    hide Project, Sequence;
  }

  /** Calls are only added, and keep the place where they were opened. */
  lemma ClientOnlyAdds(c: Cli, act: Act, r: nat)
    requires r < |c.calls|
    ensures r < |Step(c, act).calls| && Step(c, act).calls[r].openedAt == c.calls[r].openedAt
    ensures c.read <= Step(c, act).read
  {
    if OfCaller(act) && act.r < |c.calls| { ReceiveKeepsEnding(c.calls[act.r], act); }
    hide Sequence, Reassembly.Fold, Merge, Receive;
  }

  lemma ClientKeepsNoneBefore(m: GoServer.Mux, c: Cli, act: Act, r: nat)
    requires GoServer.MuxInv(m) && Linked(m, c) && Inv(c) && r < |Step(c, act).calls| <= CYCLE
    ensures NoneBefore(Step(c, act), r)
  {
    CallsStay(c, act);
    if r < |c.calls| {
      ClientOnlyAdds(c, act, r);
      assert NoneBefore(c, r);
      hide Step;
      var at, read := c.calls[r].openedAt, Step(c, act).read;
      assert read[..at] == c.read[..at];
    } else {
      NewNumberIsUnused(m, c);
      assert c.read[..|c.read|] == c.read;
    }
  }

  lemma ReadFollowsWire(m: GoServer.Mux, c: Cli, act: Act)
    requires c.read <= m.wire && Possible(m, c, ClientDoes(act))
    ensures Step(c, act).read <= m.wire
  {
    hide Sequence, Reassembly.Fold, Merge;
  }

  lemma ClientKeepsLinked(m: GoServer.Mux, c: Cli, act: Act)
    requires GoServer.MuxInv(m) && Linked(m, c) && Inv(c) && Possible(m, c, ClientDoes(act))
    ensures Linked(m, Step(c, act))
  {
    var d := Step(c, act);
    CallsStay(c, act);
    ReadFollowsWire(m, c, act);
    assert Numbers(c) <= Numbers(d);
    if |d.calls| <= CYCLE {
      forall r | 0 <= r < |d.calls| ensures NoneBefore(d, r) { ClientKeepsNoneBefore(m, c, act, r); }
    }
    hide *;
  }

  lemma {:induction false} TogetherLinked(paths: set<string>, moves: seq<Move>)
    ensures var p := Together(paths, moves); Linked(GoServer.Run(paths, p.server), Run(p.client))
    decreases |moves|
  {
    if moves != [] {
      var move := moves[|moves| - 1];
      var p := Together(paths, moves[..|moves| - 1]);
      TogetherLinked(paths, moves[..|moves| - 1]);
      hide Linked, GoServer.Step, Step, GoServer.Run, Run, Possible, GoServer.MuxInv, Inv;
      var m, c := GoServer.Run(paths, p.server), Run(p.client);
      GoServer.RunKeepsMux(paths, p.server);
      RunKeepsInv(p.client);
      if Possible(m, c, move) {
        match move
        case ServerDoes(act) => GoServer.RunAppends(paths, p.server, act); ServerKeepsLinked(paths, m, c, act);
        case ClientDoes(act) => RunAppends(p.client, act); ClientKeepsLinked(m, c, act);
      }
    }
  }

  lemma ReadSinceIsWritten(m: GoServer.Mux, c: Cli, r: nat)
    requires Linked(m, c) && r < |c.calls| <= CYCLE
    ensures Since(c, r) <= Project(m.wire, Sequence(r))
  {
    assert NoneBefore(c, r) && c.read <= m.wire;
    var at, s := c.calls[r].openedAt, Sequence(r);
    hide Sequence, Project, Linked;
    assert c.read[..at] + c.read[at..] == c.read;
    ProjectConcatenates(c.read[..at], c.read[at..], s);
    PartProjects(c.read, m.wire, s);
    assert [] + Since(c, r) == Since(c, r);
  }

  lemma FoundIsWritten(paths: set<string>, moves: seq<Move>, r: nat)
    requires var c := Run(Together(paths, moves).client); r < |c.calls| <= CYCLE
    ensures var p := Together(paths, moves);
            Run(p.client).calls[r].frames <= Project(GoServer.Run(paths, p.server).wire, Sequence(r))
  {
    var p := Together(paths, moves);
    TogetherLinked(paths, moves);
    DemuxIsProjection(p.client, r);
    ReadSinceIsWritten(GoServer.Run(paths, p.server), Run(p.client), r);
    hide Run, GoServer.Run, Project, Sequence, Together, Linked;
    var c := Run(p.client);
    assert c.calls[r].frames <= c.calls[r].frames + InFlight(c, r);
  }

  /** Handler to caller: under every interleaving of a server and a client over one connection, and until the
      numbers come round again, a caller has received a first part of the messages handed to its handler's sends, in
      order; once the End has been found nothing is missing but what waits in its channel, and the caller's status
      is the one the handler returned. */
  lemma HandlerToCaller(paths: set<string>, moves: seq<Move>, r: nat)
    requires r < |Run(Together(paths, moves).client).calls| <= CYCLE
    ensures var p := Together(paths, moves);
            var c, b := Run(p.client), GoServerSaid.SaidBy(paths, p.server, Sequence(r));
            var call := c.calls[r];
            && call.received <= b.messages
            && (GoCalls.EndOf(call.frames).Some? ==>
                  && call.received + call.inbound + InHand(c, r) == b.messages
                  && call.result == GoCalls.EndOf(call.frames)
                  && (Sequence(r) in GoServer.Run(paths, p.server).handlers ==>
                        && b.final.Some? && b.final.value.ResponseEnd?
                        && call.result == Some(Final(b.final.value.status))))
  {
    var p, s := Together(paths, moves), Sequence(r);
    var frames := Run(p.client).calls[r].frames;
    FoundIsWritten(paths, moves, r);
    RepliesArriveInOrder(p.client, r);
    GoCalls.CallShowsItsFrames(p.client, r);
    hide Run, GoServer.Run, Project, Sequence, Together, Taken, InHand, GoServerSaid.SaidBy, GoCalls.EndOf, Gathered;
    FramesCarryMessages(paths, p.server, s, frames);
  }

  /** A first part of what a sequence has on the wire carries a first part of what its handler was told to send. */
  lemma FramesCarryMessages(paths: set<string>, server: seq<GoServer.Act>, s: int, frames: seq<Response>)
    requires frames <= Project(GoServer.Run(paths, server).wire, s)
    ensures var b := GoServerSaid.SaidBy(paths, server, s);
            && Taken(frames).log <= b.messages
            && (GoCalls.EndOf(frames).Some? ==> Taken(frames).log == b.messages)
            && (GoCalls.EndOf(frames).Some? && s in GoServer.Run(paths, server).handlers ==>
                  && b.final.Some? && b.final.value.ResponseEnd?
                  && GoCalls.EndOf(frames) == Some(Final(b.final.value.status)))
  {
    GoServer.RunKeepsMux(paths, server);
    GoServerWire.ResponseGrammar(paths, server, s);
    GoServerSaid.HandlersSayWhatTheyAreTold(paths, server, s);
    var m := GoServer.Run(paths, server);
    FinalIsEnd(m, s);
    hide GoServer.Run, GoServer.MuxInv, Project, Taken, GoServer.ScriptOf, GoServerWire.Grammatical;
    hide GoServerSaid.SaidBy;
    if s in m.handlers {
      HandlerFrames(m.handlers[s], frames);
    } else {
      EndCarriesNothing(frames);
    }
  }

  lemma HandlerFrames(h: GoServer.Handler, frames: seq<Response>)
    requires frames <= GoServer.Script(h)
    requires (h.final.Some? ==> h.final.value.ResponseEnd?) && (h.header == None ==> h.messages == [])
    ensures Taken(frames).log <= h.messages
    ensures GoCalls.EndOf(frames).Some? ==>
              && Taken(frames).log == h.messages
              && h.final.Some? && GoCalls.EndOf(frames) == Some(Final(h.final.value.status))
  {
    PartCarriesPart(frames, h);
    hide Taken;
    if GoCalls.EndOf(frames).Some? {
      EndIsLast(h, frames);
      EndIsFinal(h);
    }
    hide GoServer.Script;
  }

  lemma EndIsFinal(h: GoServer.Handler)
    requires GoServer.Script(h) != [] && GoServer.Script(h)[|GoServer.Script(h)| - 1].ResponseEnd?
    ensures h.final == Some(GoServer.Script(h)[|GoServer.Script(h)| - 1])
  {
    GoServerWire.MessagesAreData(h.messages);
    hide GoServer.AllData;
  }

  /** All a stream without handler has on the wire is at most one End. */
  lemma EndCarriesNothing(frames: seq<Response>)
    requires |frames| <= 1 && forall i :: 0 <= i < |frames| ==> frames[i].ResponseEnd?
    ensures Taken(frames).log == []
  {
    assert Taken([]) == FRESH;
    hide Taken, AbsorbOne;
    if frames != [] {
      TakenAppends([], frames[0]);
      assert [] + [frames[0]] == frames;
    }
  }

  lemma FinalIsEnd(m: GoServer.Mux, s: int)
    requires GoServer.MuxInv(m)
    ensures s in m.handlers ==>
            var h := m.handlers[s];
            && (h.final.Some? ==> h.final.value.ResponseEnd?) && (h.header == None ==> h.messages == [])
  {
    hide GoServer.Accounted, Project, GoServer.FramesOf;
  }

  lemma EndIsLast(h: GoServer.Handler, frames: seq<Response>)
    requires frames != [] && frames <= GoServer.Script(h) && frames[|frames| - 1].ResponseEnd?
    requires (h.final.Some? ==> h.final.value.ResponseEnd?) && (h.header == None ==> h.messages == [])
    ensures frames == GoServer.Script(h)
  {
    GoServerWire.ScriptIsGrammatical(h);
    hide GoServer.Script;
    assert GoServer.Script(h)[|frames| - 1].ResponseEnd?;
  }
}
