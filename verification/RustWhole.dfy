/** What each operation of the Rust server comes to when nothing else happens meanwhile. */
module RustWhole {
  import opened Wire
  import opened Frames
  import opened RustServer
  import Reassembly

  function Under(s: int, bodies: seq<Response>): (fs: seq<ResponseFrame>)
    ensures |fs| == |bodies|
  {
    seq(|bodies|, i requires 0 <= i < |bodies| => Envelope(s, bodies[i]))
  }

  // ---------------------------------------------------------------- sending

  /** The task queues `count` frames. */
  function QueueAll(paths: set<string>, sv: Server, s: int, task: int, count: nat): Server
    decreases count
  {
    if count == 0 then sv else QueueAll(paths, Step(paths, sv, Queue(s, task)), s, task, count - 1)
  }

  lemma OneQueued(paths: set<string>, sv: Server, s: int, task: int)
    requires s in sv.handlers && Todo(sv.handlers[s], task) != []
    ensures var h, todo := sv.handlers[s], Todo(sv.handlers[s], task);
            Step(paths, sv, Queue(s, task))
            == sv.(handlers := sv.handlers[s := h.(tasks := h.tasks[task := todo[1..]])],
                   queued := sv.queued + [Envelope(s, todo[0])])
  {
  }

  function Done(sv: Server, s: int, task: int, todo: seq<Response>): Server
    requires s in sv.handlers
  {
    var h := sv.handlers[s];
    sv.(handlers := sv.handlers[s := h.(tasks := h.tasks[task := []])], queued := sv.queued + Under(s, todo))
  }

  lemma OneMoreDone(sv: Server, s: int, task: int, todo: seq<Response>)
    requires s in sv.handlers && todo != []
    ensures var h := sv.handlers[s];
            var next := sv.(handlers := sv.handlers[s := h.(tasks := h.tasks[task := todo[1..]])],
                            queued := sv.queued + [Envelope(s, todo[0])]);
            Done(next, s, task, todo[1..]) == Done(sv, s, task, todo)
  {
    var h := sv.handlers[s];
    assert h.tasks[task := todo[1..]][task := []] == h.tasks[task := []];
    var half, last := h.(tasks := h.tasks[task := todo[1..]]), h.(tasks := h.tasks[task := []]);
    assert sv.handlers[s := half][s := last] == sv.handlers[s := last];
    assert sv.queued + Under(s, todo) == (sv.queued + [Envelope(s, todo[0])]) + Under(s, todo[1..]);
  }

  lemma {:induction false} AllQueued(paths: set<string>, sv: Server, s: int, task: int, todo: seq<Response>)
    requires s in sv.handlers && task in sv.handlers[s].tasks && sv.handlers[s].tasks[task] == todo
    ensures QueueAll(paths, sv, s, task, |todo|) == Done(sv, s, task, todo)
    decreases |todo|
  {
    if todo == [] {
      var h := sv.handlers[s];
      assert sv.queued + Under(s, todo) == sv.queued;
      assert h.tasks[task := []] == h.tasks && sv.handlers[s := h] == sv.handlers;
    } else {
      OneQueued(paths, sv, s, task);
      var next := Step(paths, sv, Queue(s, task));
      assert QueueAll(paths, sv, s, task, |todo|) == QueueAll(paths, next, s, task, |todo[1..]|);
      hide Step, QueueAll, Done;
      AllQueued(paths, next, s, task, todo[1..]);
      OneMoreDone(sv, s, task, todo);
    }
  }

  function Spoken(headerSent: bool, payload: Bytes): seq<Response> {
    (if headerSent then [] else [BEGIN]) + DataBodies(payload)
  }

  /** A send by a task that has none under way queues a Begin if there was none, and the frames of its payload in
      order; nothing else of the stream changes. */
  lemma SendQueues(paths: set<string>, sv: Server, s: int, task: int, payload: Bytes)
    requires s in sv.handlers && Todo(sv.handlers[s], task) == []
    ensures var h, spoken := sv.handlers[s], Spoken(sv.handlers[s].headerSent, payload);
            var n := QueueAll(paths, Step(paths, sv, Send(s, task, payload)), s, task, |spoken|);
            && n.queued == sv.queued + Under(s, spoken)
            && n.handlers == sv.handlers[s := h.(headerSent := true, tasks := h.tasks[task := []])]
            && n.written == sv.written && n.processed == sv.processed
  {
    var h, spoken := sv.handlers[s], Spoken(sv.handlers[s].headerSent, payload);
    var m := Step(paths, sv, Send(s, task, payload));
    assert m == sv.(handlers := sv.handlers[s := h.(headerSent := true, tasks := h.tasks[task := spoken])]);
    hide Step, DataBodies, Spoken;
    AllQueued(paths, m, s, task, spoken);
    assert h.tasks[task := spoken][task := []] == h.tasks[task := []];
    var last := h.(headerSent := true, tasks := h.tasks[task := []]);
    assert m.handlers[s := last] == sv.handlers[s := last];
  }

  /** A return queues the End, once. */
  lemma ReturnQueues(paths: set<string>, sv: Server, s: int, final: Response)
    requires s in sv.handlers && final.ResponseEnd?
    ensures var h := sv.handlers[s];
            Step(paths, sv, Return(s, final)) ==
            if h.ended then sv
            else sv.(handlers := sv.handlers[s := h.(ended := true)], queued := sv.queued + [Envelope(s, final)])
  {
  }

  /** The serve loop writes what is queued, one frame after the other. */
  lemma WriteMoves(paths: set<string>, sv: Server)
    ensures Step(paths, sv, Write) == if sv.written < |sv.queued| then sv.(written := sv.written + 1) else sv
  {
  }

  // ---------------------------------------------------------------- serving

  /** A Call starts a handler that finds a non-empty inline payload waiting, or is answered by its End. */
  lemma CallStarts(paths: set<string>, sv: Server, s: int, path: string, inline: Option<Bytes>, reason: Response)
    requires s !in sv.handlers && s !in sv.rejected && reason.ResponseEnd?
    ensures var n := Step(paths, sv, Serve(Envelope(s, Call(path, inline)), reason));
            if path in paths then
              && n.handlers.Keys == sv.handlers.Keys + {s} && n.queued == sv.queued
              && (forall k :: k in sv.handlers ==> n.handlers[k] == sv.handlers[k])
              && n.handlers[s].inbound.queue == (if inline.Some? && inline.value != [] then [inline.value] else [])
              && !n.handlers[s].dropped && !n.handlers[s].gone && !n.handlers[s].headerSent && !n.handlers[s].ended
            else n.handlers == sv.handlers && n.queued == sv.queued + [Envelope(s, reason)] && s in n.rejected
  {
    hide Reassembly.Fold;
  }

  /** A payload joins the queue of its stream if there is room, and is lost if not, if the receiver is gone or the
      stream has ended. */
  lemma PayloadIsOffered(paths: set<string>, sv: Server, s: int, payload: Bytes, reason: Response)
    requires s in sv.handlers && reason.ResponseEnd?
    ensures var h, n := sv.handlers[s], Step(paths, sv, Serve(Envelope(s, Data(Message(payload))), reason));
            var room := !h.dropped && !h.gone && |h.inbound.queue| < 16;
            && n.handlers.Keys == sv.handlers.Keys && n.queued == sv.queued
            && (forall k :: k in sv.handlers && k != s ==> n.handlers[k] == sv.handlers[k])
            && n.handlers[s].inbound.queue == (if room then h.inbound.queue + [payload] else h.inbound.queue)
            && n.handlers[s].inbound.received == h.inbound.received
  {
    hide Reassembly.Fold;
  }

  /** An End of either kind lets go of the sender. */
  lemma EndCloses(paths: set<string>, sv: Server, s: int, closeSend: bool, reason: Response)
    requires s in sv.handlers && reason.ResponseEnd?
    ensures var n := Step(paths, sv, Serve(Envelope(s, End(closeSend)), reason));
            n.handlers == sv.handlers[s := sv.handlers[s].(dropped := true)] && n.queued == sv.queued
  {
    hide Reassembly.Fold;
  }

  /** A receive takes what waits first; a closed and empty channel tells the end; without its receiver a stream
      takes nothing more. */
  lemma ReceiveTakes(paths: set<string>, sv: Server, s: int)
    requires s in sv.handlers
    ensures var h, n := sv.handlers[s], Step(paths, sv, Recv(s));
            && n == sv.(handlers := n.handlers) && n.handlers == sv.handlers[s := n.handlers[s]]
            && n.handlers[s] ==
                 (if h.gone then h
                  else if h.inbound.queue != [] then
                    h.(inbound := h.inbound.(queue := h.inbound.queue[1..],
                                             received := h.inbound.received + [h.inbound.queue[0]]))
                  else if h.dropped then h.(eofs := h.eofs + 1) else h)
            && Step(paths, sv, Release(s)) == sv.(handlers := sv.handlers[s := h.(gone := true)])
  {
  }

  // ---------------------------------------------------------------- over whole runs, from the acts

  function CalledIn(frames: seq<Frame>): set<int>
    decreases |frames|
  {
    if frames == [] then {} else
    var front, last := CalledIn(frames[..|frames| - 1]), frames[|frames| - 1];
    if last.body.Call? then front + {last.sequence} else front
  }

  /** The frames the serve loop was given, less a second Call on a sequence. */
  function Given(acts: seq<Act>): seq<Frame>
    decreases |acts|
  {
    if acts == [] then [] else
    var front, last := Given(acts[..|acts| - 1]), acts[|acts| - 1];
    if last.Serve? && last.reason.ResponseEnd? && (last.frame.body.Call? ==> last.frame.sequence !in CalledIn(front))
    then front + [last.frame] else front
  }

  lemma CalledAppends(frames: seq<Frame>, f: Frame)
    ensures CalledIn(frames + [f]) == CalledIn(frames) + if f.body.Call? then {f.sequence} else {}
  {
    assert (frames + [f])[..|frames|] == frames;
  }

  predicate Knows(sv: Server) {
    sv.handlers.Keys + sv.rejected == CalledIn(sv.processed)
  }

  lemma ServeKnows(paths: set<string>, sv: Server, f: Frame, reason: Response)
    requires Knows(sv)
    ensures var n := Step(paths, sv, Serve(f, reason));
            Knows(n) && n.processed == sv.processed +
              if reason.ResponseEnd? && (f.body.Call? ==> f.sequence !in CalledIn(sv.processed)) then [f] else []
  {
    CalledAppends(sv.processed, f);
    if Admissible(sv, f) { HandleResponds(paths, sv, f, reason); }
    assert sv.processed + [] == sv.processed;
    hide Handle, CalledIn;
  }

  lemma OthersKnow(paths: set<string>, sv: Server, act: Act)
    requires Knows(sv) && !act.Serve?
    ensures Knows(Step(paths, sv, act)) && Step(paths, sv, act).processed == sv.processed
  {
    hide CalledIn, Begun, Received;
  }

  /** In every run the frames acted upon are those given, in order. */
  lemma {:induction false} GivenIsProcessed(paths: set<string>, acts: seq<Act>)
    ensures Knows(Run(paths, acts)) && Run(paths, acts).processed == Given(acts)
    decreases |acts|
  {
    if acts != [] {
      var front, last := acts[..|acts| - 1], acts[|acts| - 1];
      GivenIsProcessed(paths, front);
      hide Knows, Step, CalledIn;
      if last.Serve? {
        ServeKnows(paths, Run(paths, front), last.frame, last.reason);
      } else {
        OthersKnow(paths, Run(paths, front), last);
      }
    }
  }

  /** What the handler of `s` returned first. */
  function Returned(paths: set<string>, acts: seq<Act>, s: int): seq<Response>
    decreases |acts|
  {
    if acts == [] then [] else
    var front, last := acts[..|acts| - 1], acts[|acts| - 1];
    var before := Returned(paths, front, s);
    if before == [] && last.Return? && last.s == s && last.final.ResponseEnd? && s in Run(paths, front).handlers
    then [last.final] else before
  }

  function Ends(bodies: seq<Response>): seq<Response>
    decreases |bodies|
  {
    if bodies == [] then [] else
    var front, last := Ends(bodies[..|bodies| - 1]), bodies[|bodies| - 1];
    if last.ResponseEnd? then front + [last] else front
  }

  lemma EndsAppend(bodies: seq<Response>, b: Response)
    ensures Ends(bodies + [b]) == Ends(bodies) + if b.ResponseEnd? then [b] else []
  {
    assert (bodies + [b])[..|bodies|] == bodies;
  }

  predicate EndsAre(sv: Server, s: int, returned: seq<Response>) {
    if s in sv.handlers then (sv.handlers[s].ended <==> returned != []) && Ends(Project(sv.queued, s)) == returned
    else returned == []
  }

  lemma SaidEnds(queued: seq<ResponseFrame>, f: ResponseFrame, s: int)
    ensures Ends(Project(queued + [f], s))
         == Ends(Project(queued, s)) + if f.sequence == s && f.body.ResponseEnd? then [f.body] else []
  {
    ProjectAppends(queued, f, s);
    EndsAppend(Project(queued, s), f.body);
    hide Project, Ends;
    assert Ends(Project(queued, s)) + [] == Ends(Project(queued, s));
  }

  lemma ServeKeepsEnds(paths: set<string>, sv: Server, f: Frame, reason: Response, s: int, returned: seq<Response>)
    requires EndsAre(sv, s, returned) && ResponsesOk(sv, s) && reason.ResponseEnd?
    ensures EndsAre(Step(paths, sv, Serve(f, reason)), s, returned)
  {
    if Admissible(sv, f) {
      HandleResponds(paths, sv, f, reason);
      SaidEnds(sv.queued, Envelope(f.sequence, reason), s);
      assert sv.queued + [] == sv.queued && Ends([]) == [];
    }
    hide Handle, Project, Ends, TasksOk, EmittedOk;
  }

  lemma HandlerKeepsEnds(paths: set<string>, sv: Server, act: Act, s: int, returned: seq<Response>)
    requires EndsAre(sv, s, returned) && ResponsesOk(sv, s) && !act.Serve?
    ensures EndsAre(Step(paths, sv, act), s,
                    if returned == [] && act.Return? && act.s == s && act.final.ResponseEnd? && s in sv.handlers
                    then [act.final] else returned)
  {
    if act.Return? {
      SaidEnds(sv.queued, Envelope(act.s, act.final), s);
      assert [] + [act.final] == [act.final];
      hide Project, Ends, EmittedOk, TasksOk, Begun, Received;
    } else if act.Queue? {
      QueueKeepsEnds(paths, sv, act.s, act.task, s, returned);
      hide *;
    } else {
      hide Project, Ends, EmittedOk, TasksOk, DataBodies, Received;
    }
  }

  lemma QueueKeepsEnds(paths: set<string>, sv: Server, u: int, task: int, s: int, returned: seq<Response>)
    requires EndsAre(sv, s, returned) && ResponsesOk(sv, s)
    ensures EndsAre(Step(paths, sv, Queue(u, task)), s, returned)
  {
    if u in sv.handlers && Todo(sv.handlers[u], task) != [] {
      SaidEnds(sv.queued, Envelope(u, Todo(sv.handlers[u], task)[0]), s);
      assert Ends(Project(sv.queued, s)) + [] == Ends(Project(sv.queued, s));
    }
    hide Project, Ends, EmittedOk;
  }

  /** In every run the End frames queued for a handled stream are what its handler returned first, once, and none
      before it returned. */
  lemma {:induction false} EndIsWhatWasReturned(paths: set<string>, acts: seq<Act>, s: int)
    ensures EndsAre(Run(paths, acts), s, Returned(paths, acts, s))
    decreases |acts|
  {
    if acts != [] {
      var front, last := acts[..|acts| - 1], acts[|acts| - 1];
      EndIsWhatWasReturned(paths, front, s);
      RunKeepsResponses(paths, front, s);
      hide EndsAre, Step, ResponsesOk;
      if last.Serve? {
        if last.reason.ResponseEnd? {
          ServeKeepsEnds(paths, Run(paths, front), last.frame, last.reason, s, Returned(paths, front, s));
        } else {
          NotGiven(paths, Run(paths, front), last);
        }
      } else {
        HandlerKeepsEnds(paths, Run(paths, front), last, s, Returned(paths, front, s));
      }
    }
  }

  lemma NotGiven(paths: set<string>, sv: Server, act: Act)
    requires act.Serve? && !act.reason.ResponseEnd?
    ensures Step(paths, sv, act) == sv
  {
  }
}
