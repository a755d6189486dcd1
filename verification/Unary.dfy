/** When a TypeScript unary call resolves. */
module Unary {
  import opened Wire
  import opened AsyncQueues
  import opened Frames

  /** Receiving: the promise of recv is not handled yet. Installed: resolveEnd is the one that completes the call. */
  datatype Phase = Sending | Receiving | Installed(response: Bytes) | Resolved(response: Bytes, status: Status)

  datatype Call = Call(inbox: Queue<Bytes>, status: Option<Status>, phase: Phase)

  const OPENED: Call := Call.Call(Empty(), None, Sending)

  /** Payload and Ended come from dispatch or failAll; Collect is the start of collectUnary, once the request is
      written; Resume is its continuation after the recv. */
  datatype Event = Payload(data: Bytes) | Ended(final: Status) | Collect | Resume

  function Step(u: Call, e: Event): Call {
    match e
    case Payload(data) => if u.status.Some? then u else u.(inbox := AfterPush(u.inbox, data))
    case Ended(final) =>
      if u.status.Some? then u else
      u.(status := Some(final), inbox := AfterClose(u.inbox),
         phase := if u.phase.Installed? then Resolved(u.phase.response, final) else u.phase)
    case Collect => if u.phase != Sending then u else u.(inbox := AfterRecv(u.inbox), phase := Receiving)
    case Resume =>
      if u.phase != Receiving || 0 !in u.inbox.settled then u else
      match u.inbox.settled[0]
      case Some(response) => u.(phase := Installed(response))
      case None => u.(phase := Resolved([], if u.status.Some? then u.status.value else Status(0, "")))
  }

  function Run(events: seq<Event>): Call
    decreases |events|
  {
    if events == [] then OPENED else Step(Run(events[..|events| - 1]), events[|events| - 1])
  }

  predicate AnyEnded(events: seq<Event>) {
    exists i :: 0 <= i < |events| && events[i].Ended?
  }

  predicate AnyCollect(events: seq<Event>) {
    exists i :: 0 <= i < |events| && events[i].Collect?
  }

  predicate AnyPayload(events: seq<Event>) {
    exists i :: 0 <= i < |events| && events[i].Payload?
  }

  /** The continuation ran after the collecting began and a payload came, and before the call ended. */
  predicate ReadyInTime(events: seq<Event>) {
    exists i :: 0 <= i < |events| && events[i].Resume? && FindsPayload(events[..i])
  }

  predicate FindsPayload(before: seq<Event>) {
    AnyCollect(before) && AnyPayload(before) && !AnyEnded(before)
  }

  lemma OneMoreEvent(front: seq<Event>, e: Event)
    ensures AnyEnded(front + [e]) <==> AnyEnded(front) || e.Ended?
    ensures AnyCollect(front + [e]) <==> AnyCollect(front) || e.Collect?
    ensures AnyPayload(front + [e]) <==> AnyPayload(front) || e.Payload?
    ensures ReadyInTime(front + [e]) <==> ReadyInTime(front) || (e.Resume? && FindsPayload(front))
  {
    var all := front + [e];
    assert all[|front|] == e && all[..|front|] == front;
    assert forall i :: 0 <= i < |front| ==> all[i] == front[i] && all[..i] == front[..i];
    hide FindsPayload;
    if ReadyInTime(front) {
      var i :| 0 <= i < |front| && front[i].Resume? && FindsPayload(front[..i]);
      assert all[i].Resume? && FindsPayload(all[..i]);
    }
    if ReadyInTime(all) {
      var i :| 0 <= i < |all| && all[i].Resume? && FindsPayload(all[..i]);
      if i < |front| { assert front[i].Resume? && FindsPayload(front[..i]); }
    }
  }

  /** What the state tells of the events so far. */
  predicate Recalls(u: Call, events: seq<Event>) {
    && (u.status == None <==> !AnyEnded(events))
    && (u.status == None ==>
          (u.phase != Sending <==> AnyCollect(events)) && (u.inbox.log != [] <==> AnyPayload(events)))
  }

  ghost predicate Inv(u: Call, ready: bool) {
    && Consistent(u.inbox)
    && u.inbox.issued == (if u.phase == Sending then 0 else 1)
    && (u.inbox.closed <==> u.status.Some?)
    && match u.phase
       case Sending => !ready
       case Receiving => !ready
       case Installed(r) => u.inbox.log != [] && r == u.inbox.log[0] && (ready <==> u.status == None)
       case Resolved(r, s) =>
         && u.status == Some(s)
         && (ready <==> u.inbox.log != [])
         && r == if ready then u.inbox.log[0] else []
  }

  lemma PushExtends(q: Queue<Bytes>, x: Bytes)
    requires Consistent(q) && !q.closed
    ensures var p := AfterPush(q, x); p.log == q.log + [x] && p.closed == q.closed && p.issued == q.issued
  {
  }

  lemma PayloadKeeps(u: Call, data: Bytes, ready: bool)
    requires Inv(u, ready) && u.status == None
    ensures Inv(Step(u, Payload(data)), ready)
  {
    PushKeeps(u.inbox, data);
    PushExtends(u.inbox, data);
    hide Consistent, AfterPush;
  }

  lemma EndedKeeps(u: Call, final: Status, ready: bool)
    requires Inv(u, ready) && u.status == None
    ensures Inv(Step(u, Ended(final)), ready)
  {
    CloseKeeps(u.inbox);
    PopWaitingKeepsLog(u.inbox.(closed := true));
    hide Consistent, PopWaiting;
  }

  lemma CollectKeeps(u: Call, ready: bool)
    requires Inv(u, ready)
    ensures Inv(Step(u, Collect), ready)
  {
    RecvKeeps(u.inbox);
    hide Consistent;
  }

  lemma ResumeKeeps(u: Call, ready: bool)
    requires Inv(u, ready)
    ensures var n := Step(u, Resume); Inv(n, ready || (n.phase.Installed? && n.status == None))
  {
  }

  lemma StepKeeps(u: Call, e: Event, ready: bool)
    requires Inv(u, ready)
    ensures var n := Step(u, e); Inv(n, ready || (n.phase.Installed? && n.status == None))
  {
    hide Consistent, AfterPush, AfterClose, AfterRecv;
    match e
    case Payload(data) => if u.status == None { PayloadKeeps(u, data, ready); }
    case Ended(final) => if u.status == None { EndedKeeps(u, final, ready); }
    case Collect => CollectKeeps(u, ready);
    case Resume => ResumeKeeps(u, ready);
  }

  lemma StepRecalls(u: Call, e: Event, events: seq<Event>, ready: bool)
    requires Recalls(u, events) && Inv(u, ready)
    ensures Recalls(Step(u, e), events + [e])
    ensures var n := Step(u, e);
            ready || (n.phase.Installed? && n.status == None) <==> ready || (e.Resume? && FindsPayload(events))
  {
    OneMoreEvent(events, e);
    hide AnyEnded, AnyCollect, AnyPayload;
    if e.Payload? && u.status == None { PushExtends(u.inbox, e.data); }
    hide AfterPush, AfterClose;
  }

  predicate Recounts(events: seq<Event>) {
    Recalls(Run(events), events)
  }

  lemma OneMoreKeeps(front: seq<Event>, e: Event)
    requires Inv(Run(front), ReadyInTime(front)) && Recounts(front)
    ensures Inv(Run(front + [e]), ReadyInTime(front + [e])) && Recounts(front + [e])
  {
    RunAppends(front, e);
    hide Run, Step, Inv, Recalls, ReadyInTime, FindsPayload;
    StepKeeps(Run(front), e, ReadyInTime(front));
    StepRecalls(Run(front), e, front, ReadyInTime(front));
    OneMoreEvent(front, e);
  }

  lemma {:induction false} RunKeeps(events: seq<Event>)
    ensures Inv(Run(events), ReadyInTime(events)) && Recounts(events)
    decreases |events|
  {
    if events != [] {
      var front, e := events[..|events| - 1], events[|events| - 1];
      hide Run, Inv, Recounts, ReadyInTime;
      RunKeeps(front);
      OneMoreKeeps(front, e);
      assert front + [e] == events;
    }
  }

  lemma RunAppends(events: seq<Event>, e: Event)
    ensures Run(events + [e]) == Step(Run(events), e)
  {
    assert (events + [e])[..|events|] == events;
    hide Step;
  }

  /** An ended unary call whose continuation has run resolves exactly if no response came, or the continuation ran
      on a payload before the call ended; else it stays pending for ever. When it resolves, it is with the first
      response and the final status. */
  lemma UnaryResolvesExactly(events: seq<Event>)
    requires var u := Run(events); u.status.Some? && u.phase != Sending && u.phase != Receiving
    ensures var u := Run(events);
            && (u.phase.Resolved? <==> u.inbox.log == [] || ReadyInTime(events))
            && (u.phase.Resolved? ==>
                  && Some(u.phase.status) == u.status
                  && u.phase.response == if u.inbox.log == [] then [] else u.inbox.log[0])
            && forall e :: Step(u, e).phase == u.phase
  {
    RunKeeps(events);
    hide Run, ReadyInTime, Consistent;
    var u := Run(events);
    assert u.phase.Installed? ==> u.inbox.log != [];
  }

  /** It happens when response and End come in one message: both are dispatched before any continuation runs. */
  lemma UnaryCanHang(response: Bytes, final: Status)
    ensures var u := Run([Collect, Payload(response), Ended(final), Resume]);
            u.status == Some(final) && u.phase == Installed(response)
  {
    var events := [Collect, Payload(response), Ended(final), Resume];
    assert events[..3] == [Collect, Payload(response), Ended(final)];
    assert events[..3][..2] == [Collect, Payload(response)];
    assert events[..3][..2][..1] == [Collect];
    assert events[..3][..2][..1][..0] == [];
    var u1 := Run([Collect]);
    assert u1.inbox.resolvers == [0] && u1.phase == Receiving;
    var u2 := Run([Collect, Payload(response)]);
    assert u2.inbox.settled == map[0 := Some(response)] && u2.inbox.resolvers == [];
    var u3 := Run(events[..3]);
    assert u3.inbox.settled == u2.inbox.settled && u3.phase == Receiving;
  }
}
