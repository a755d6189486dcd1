/** The TypeScript Client: dispatch of inbound frames to open calls, and how calls end. */
module TsClient {
  import opened Wire
  import opened Reassembly
  import opened AsyncQueues
  import opened Frames
  import opened Receiving

  const UNAVAILABLE: Status := Status(14, "transport closed")

  /** One StreamState; `ends` counts how often its resolveEnd was called. */
  datatype CallState = CallState(inbox: Queue<Bytes>, header: Metadata, trailer: Metadata,
                                 done: bool, status: Option<Status>, ends: nat)

  /** `calls` are all calls ever opened, `live` the keys of the streams map. */
  datatype Cli = Cli(calls: map<int, CallState>, live: set<int>, reasm: Table)

  predicate WellFormed(cl: Cli) {
    cl.live <= cl.calls.Keys
  }

  const NEW_CALL: CallState := CallState(Empty(), map[], map[], false, None, 0)

  function Begun(call: CallState, header: Metadata, inline: Option<Bytes>): CallState {
    call.(header := call.header + header,
          inbox := if inline.Some? && |inline.value| > 0 then AfterPush(call.inbox, inline.value) else call.inbox)
  }

  function Ended(call: CallState, status: Status): CallState {
    call.(done := true, status := Some(status), inbox := AfterClose(call.inbox), ends := call.ends + 1)
  }
  function OpenCall(cl: Cli, s: int): (next: Cli)
    requires WellFormed(cl)
    ensures WellFormed(next)
  {
    cl.(calls := cl.calls[s := NEW_CALL], live := cl.live + {s})
  }

  function Dispatch(cl: Cli, f: ResponseFrame): (next: Cli)
    requires WellFormed(cl)
    ensures WellFormed(next)
  {
    var s := f.sequence;
    if s !in cl.live then cl else
    var call := cl.calls[s];
    match f.body
    case Begin(header, inline) => cl.(calls := cl.calls[s := Begun(call, header, inline)])
    case ResponseData(content) =>
      var (q, t) := Absorb(call.inbox, cl.reasm, s, content);
      cl.(calls := cl.calls[s := call.(inbox := q)], reasm := t)
    case ResponseEnd(status, trailer) =>
      cl.(calls := cl.calls[s := Ended(call.(trailer := call.trailer + trailer), Final(status))], live := cl.live - {s})
    case NoResponse => cl
  }

  function Failed(call: CallState): CallState {
    if call.done then call else Ended(call, UNAVAILABLE)
  }

  /** The live calls failed, but for those in `todo`. */
  function FailedExcept(cl: Cli, todo: set<int>): map<int, CallState> {
    map s | s in cl.calls :: if s in cl.live && s !in todo then Failed(cl.calls[s]) else cl.calls[s]
  }

  function FailAll(cl: Cli): (next: Cli)
    requires WellFormed(cl)
    ensures WellFormed(next)
  {
    cl.(calls := FailedExcept(cl, {}), live := {})
  }

  lemma FailOneMore(cl: Cli, todo: set<int>, s: int)
    requires WellFormed(cl) && s in todo && todo <= cl.live
    ensures s in FailedExcept(cl, todo) && FailedExcept(cl, todo)[s] == cl.calls[s]
    ensures FailedExcept(cl, todo)[s := Failed(cl.calls[s])] == FailedExcept(cl, todo - {s})
  {
  }

  lemma FailNone(cl: Cli)
    ensures FailedExcept(cl, cl.live) == cl.calls
  {
  }

  // ---------------------------------------------------------------- the classes

  /** `inbound` is the AsyncQueue of the call, held by value. */
  class StreamState {
    var inbound: Queue<Bytes>
    var header: Metadata
    var trailer: Metadata
    var done: bool
    var status: Option<Status>
    ghost var ends: nat

    ghost function State(): CallState
      reads this
    {
      CallState(inbound, header, trailer, done, status, ends)
    }

    constructor ()
      ensures State() == NEW_CALL
    {
      inbound := Empty();
      header, trailer, done, status, ends := map[], map[], false, None, 0;
    }

    method TakeBegin(hdr: Metadata, inline: Option<Bytes>)
      modifies this
      ensures State() == Begun(old(State()), hdr, inline)
    {
      header := header + hdr;
      if inline.Some? && |inline.value| > 0 {
        inbound := AfterPush(inbound, inline.value);
      }
    }

    method Finish(tr: Metadata, s: Status)
      modifies this
      ensures State() == Ended(old(State()).(trailer := old(trailer) + tr), s)
    {
      trailer := trailer + tr;
      done := true;
      status := Some(s);
      inbound := AfterClose(inbound);
      ends := ends + 1;
    }
  }

  class Client {
    const reasm: Reassembler
    var seqAlloc: nat
    var streams: map<int, StreamState>
    ghost var calls: map<int, StreamState>

    ghost predicate Valid()
      reads this, reasm, reasm.Repr
    {
      && reasm.Valid() && this !in reasm.Repr
      && seqAlloc % 2 == 1
      && (forall s :: s in streams ==> s in calls && streams[s] == calls[s])
      && (forall s :: s in calls ==> s < seqAlloc && calls[s] !in reasm.Repr)
      && (forall s, t :: s in calls && t in calls && s != t ==> calls[s] != calls[t])
    }

    ghost function State(): Cli
      requires Valid()
      reads this, reasm, reasm.Repr, calls.Values
      ensures WellFormed(State())
    {
      var states := map s | s in calls :: calls[s].State();
      assert forall s :: s in streams.Keys ==> s in states.Keys;
      Cli(states, streams.Keys, reasm.Contents())
    }

    constructor ()
      ensures Valid() && State() == Cli(map[], {}, map[]) && seqAlloc == 1
    {
      reasm := new Reassembler();
      seqAlloc := 1;
      streams, calls := map[], map[];
    }

    /** A step that changes nothing but the call of `s`. */
    twostate lemma OneCallChanged(s: int)
      requires old(Valid()) && Valid() && streams == old(streams) && calls == old(calls) && s in calls
      requires reasm.Contents() == old(reasm.Contents())
      requires forall t :: t in calls && t != s ==> calls[t].State() == old(calls[t].State())
      ensures old(State()).calls[s] == old(calls[s].State())
      ensures State() == old(State()).(calls := old(State()).calls[s := calls[s].State()])
    {
      var after := old(State()).calls[s := calls[s].State()];
      forall t | t in calls ensures State().calls[t] == after[t] {
        if t != s { assert calls[t].State() == old(calls[t].State()); }
      }
      assert State().calls == after;
    }

    /** A step that only changes which calls are routed to. */
    twostate lemma OnlyRouting()
      requires old(Valid()) && Valid() && calls == old(calls) && reasm.Contents() == old(reasm.Contents())
      requires forall t :: t in calls ==> calls[t].State() == old(calls[t].State())
      ensures State() == old(State()).(live := streams.Keys)
    {
      forall t | t in calls ensures State().calls[t] == old(State()).calls[t] {
        assert calls[t].State() == old(calls[t].State());
      }
      assert State().calls == old(State()).calls;
    }

    ghost method Record(s: int, st: StreamState)
      requires Valid() && s !in calls && st !in calls.Values && st !in reasm.Repr && s < seqAlloc
      modifies this`calls
      ensures Valid() && calls == old(calls)[s := st]
      ensures State() == old(State()).(calls := old(State()).calls[s := old(st.State())])
    {
      calls := calls[s := st];
    }

    method Route(s: int, st: StreamState)
      requires Valid() && s in calls && calls[s] == st
      modifies this`streams
      ensures Valid()
      ensures State() == old(State()).(live := old(State()).live + {s})
    {
      streams := streams[s := st];
      OnlyRouting();
    }

    method OpenStream() returns (s: nat)
      requires Valid()
      modifies this
      ensures Valid()
      ensures s == old(seqAlloc) && s % 2 == 1 && seqAlloc == s + 2 && s !in old(State()).calls
      ensures State() == OpenCall(old(State()), s)
    {
      s := seqAlloc;
      ghost var before := State();
      seqAlloc := seqAlloc + 2;
      var st := new StreamState();
      assert State() == before;
      Record(s, st);
      Route(s, st);
    }

    method HandleBegin(s: int, header: Metadata, inline: Option<Bytes>)
      requires Valid() && s in streams
      modifies streams[s]
      ensures Valid()
      ensures State() == old(State()).(calls := old(State()).calls[s := Begun(old(State()).calls[s], header, inline)])
    {
      streams[s].TakeBegin(header, inline);
      OneCallChanged(s);
    }

    method SetInbound(s: int, q: Queue<Bytes>)
      requires Valid() && s in streams
      modifies streams[s]
      ensures Valid()
      ensures State() == old(State()).(calls := old(State()).calls[s := old(State()).calls[s].(inbox := q)])
    {
      streams[s].inbound := q;
      OneCallChanged(s);
    }

    method HandleData(s: int, content: Content)
      requires Valid() && s in streams
      modifies reasm.Repr, streams[s]
      ensures Valid()
      ensures var call := old(State()).calls[s];
              var (q, t) := Absorb(call.inbox, old(State()).reasm, s, content);
              State() == old(State()).(calls := old(State()).calls[s := call.(inbox := q)], reasm := t)
    {
      ghost var before := State();
      var q := AcceptInto(streams[s].inbound, reasm, s, content);
      assert forall t :: t in calls ==> calls[t].State() == before.calls[t];
      assert State() == before.(reasm := reasm.Contents());
      SetInbound(s, q);
    }

    method FinishOne(s: int, status: Option<Status>, trailer: Metadata)
      requires Valid() && s in streams
      modifies streams[s]
      ensures Valid()
      ensures var call := old(State()).calls[s];
              State() == old(State()).(calls := old(State()).calls[s :=
                Ended(call.(trailer := call.trailer + trailer), Final(status))])
    {
      streams[s].Finish(trailer, Final(status));
      OneCallChanged(s);
    }

    method Unregister(s: int)
      requires Valid()
      modifies this`streams
      ensures Valid()
      ensures State() == old(State()).(live := old(State()).live - {s})
    {
      streams := streams - {s};
      OnlyRouting();
    }

    method HandleEnd(s: int, status: Option<Status>, trailer: Metadata)
      requires Valid() && s in streams
      modifies this`streams, streams[s]
      ensures Valid()
      ensures var call := old(State()).calls[s];
              State() == old(State()).(live := old(State()).live - {s}, calls := old(State()).calls[s :=
                Ended(call.(trailer := call.trailer + trailer), Final(status))])
    {
      FinishOne(s, status, trailer);
      Unregister(s);
    }

    /** The frame callback; frames of unknown sequences are dropped. */
    method HandleFrame(f: ResponseFrame)
      requires Valid()
      modifies this`streams, reasm.Repr, calls.Values
      ensures Valid()
      ensures State() == Dispatch(old(State()), f)
    {
      var s := f.sequence;
      if s !in streams {
        return;
      }
      match f.body
      case Begin(header, inline) => HandleBegin(s, header, inline);
      case ResponseData(content) => HandleData(s, content);
      case ResponseEnd(status, trailer) => HandleEnd(s, status, trailer);
      case NoResponse =>
    }

    method FailOne(s: int)
      requires Valid() && s in streams
      modifies streams[s]
      ensures Valid()
      ensures State() == old(State()).(calls := old(State()).calls[s := Failed(old(State()).calls[s])])
    {
      ghost var call := streams[s].State();
      if !streams[s].done {
        streams[s].Finish(map[], UNAVAILABLE);
        assert call.trailer + map[] == call.trailer;
      }
      assert streams[s].State() == Failed(call);
      OneCallChanged(s);
    }

    /** One turn of the loop over the streams. */
    method FailNext(ghost before: Cli, ghost todo: set<int>, s: int)
      requires Valid() && s in streams && s in todo && WellFormed(before) && todo <= before.live
      requires State() == before.(calls := FailedExcept(before, todo))
      modifies streams[s]
      ensures Valid() && State() == before.(calls := FailedExcept(before, todo - {s}))
    {
      FailOneMore(before, todo, s);
      hide FailedExcept, Failed;
      FailOne(s);
    }

    method ClearStreams()
      requires Valid()
      modifies this`streams
      ensures Valid()
      ensures State() == old(State()).(live := {})
    {
      streams := map[];
      OnlyRouting();
    }

    /** The transport closed: every call that is still open ends with UNAVAILABLE. */
    method FailAllStreams()
      requires Valid()
      modifies this`streams, calls.Values
      ensures Valid()
      ensures State() == FailAll(old(State()))
    {
      ghost var before := State();
      var todo: set<int> := streams.Keys;
      FailNone(before);
      hide FailedExcept, Failed;
      while exists s :: s in todo
        invariant Valid() && streams == old(streams) && calls == old(calls)
        invariant todo <= streams.Keys
        invariant State() == before.(calls := FailedExcept(before, todo))
        decreases |todo|
      {
        var s :| s in todo;
        FailNext(before, todo, s);
        todo := todo - {s};
      }
      assert todo == {};
      ClearStreams();
    }
  }

  // ---------------------------------------------------------------- how calls end

  /** Everything that can happen to a client between two awaits. */
  datatype Event = Opened(s: int) | Arrived(frame: ResponseFrame) | TransportClosed | RecvCall(s: int)

  function EventStep(cl: Cli, e: Event): (next: Cli)
    requires WellFormed(cl)
    ensures WellFormed(next)
  {
    match e
    case Opened(s) => if s in cl.calls then cl else OpenCall(cl, s)
    case Arrived(f) => Dispatch(cl, f)
    case TransportClosed => FailAll(cl)
    case RecvCall(s) =>
      if s !in cl.calls then cl else
      cl.(calls := cl.calls[s := cl.calls[s].(inbox := AfterRecv(cl.calls[s].inbox))])
  }

  function AfterEvents(cl: Cli, events: seq<Event>): (next: Cli)
    requires WellFormed(cl)
    ensures WellFormed(next)
    decreases |events|
  {
    if events == [] then cl else AfterEvents(EventStep(cl, events[0]), events[1..])
  }

  /** A call has ended once when it is done, not at all before; it is routed exactly until then. */
  ghost predicate EndsTracked(cl: Cli) {
    forall s :: s in cl.calls ==>
      var call := cl.calls[s];
      && call.ends == (if call.done then 1 else 0)
      && (call.done <==> call.status.Some?)
      && (call.done <==> s !in cl.live)
  }

  lemma EventKeepsEnds(cl: Cli, e: Event)
    requires WellFormed(cl) && EndsTracked(cl)
    ensures EndsTracked(EventStep(cl, e))
  {
    hide AfterPush, AfterClose, AfterRecv, Absorb;
  }

  /** What must not change once a call has ended. */
  predicate SameEnding(a: CallState, b: CallState) {
    && b.done && b.ends == a.ends && b.status == a.status && b.header == a.header && b.trailer == a.trailer
    && b.inbox.log == a.inbox.log
  }

  lemma EventKeepsEnding(cl: Cli, e: Event, s: int)
    requires WellFormed(cl) && EndsTracked(cl) && s in cl.calls && cl.calls[s].done
    ensures s in EventStep(cl, e).calls && SameEnding(cl.calls[s], EventStep(cl, e).calls[s])
  {
    hide AfterPush, AfterClose, Absorb;
  }

  /** Over every sequence of openings, frames, receive calls and transport failures each call ends at most once,
      exactly when it leaves the streams map, and its outcome never changes afterwards. */
  lemma {:induction false} CallsEndOnce(cl: Cli, events: seq<Event>, s: int)
    requires WellFormed(cl) && EndsTracked(cl)
    ensures EndsTracked(AfterEvents(cl, events))
    ensures s in cl.calls ==> s in AfterEvents(cl, events).calls
    ensures s in cl.calls && cl.calls[s].done ==> SameEnding(cl.calls[s], AfterEvents(cl, events).calls[s])
    decreases |events|
  {
    if events != [] {
      EventKeepsEnds(cl, events[0]);
      CallsEndOnce(EventStep(cl, events[0]), events[1..], s);
      if s in cl.calls {
        EventIsMonotone(cl, events[0], s);
        if cl.calls[s].done {
          EventKeepsEnding(cl, events[0], s);
        }
      }
    }
  }

  lemma EventIsMonotone(cl: Cli, e: Event, s: int)
    requires WellFormed(cl) && s in cl.calls
    ensures s in EventStep(cl, e).calls
  {
  }

  /** A transport failure leaves no call open: those that were get UNAVAILABLE, the others keep their status. */
  lemma FailAllEndsEverything(cl: Cli, s: int)
    requires WellFormed(cl) && EndsTracked(cl) && s in cl.calls
    ensures var next := FailAll(cl);
            && next.live == {} && s in next.calls && next.calls[s].done
            && next.calls[s].status == (if s in cl.live then Some(UNAVAILABLE) else cl.calls[s].status)
            && next.calls[s].inbox.log == cl.calls[s].inbox.log
  {
    AfterCloseKeepsLog(cl.calls[s].inbox);
  }

  // ---------------------------------------------------------------- demultiplexing

  /** Everything the client holds about one sequence: queue, header, trailer, status, routing, partial message. */
  datatype Slice = Slice(call: Option<CallState>, live: bool, partial: Option<Partial>)

  function SliceOf(cl: Cli, s: int): Slice {
    Slice(if s in cl.calls then Some(cl.calls[s]) else None, s in cl.live, Lookup(cl.reasm, s))
  }

  function DispatchAll(cl: Cli, frames: seq<ResponseFrame>): (next: Cli)
    requires WellFormed(cl)
    ensures WellFormed(next)
    decreases |frames|
  {
    if frames == [] then cl else DispatchAll(Dispatch(cl, frames[0]), frames[1..])
  }

  /** The frames that carry sequence `s`. */
  function Only(frames: seq<ResponseFrame>, s: int): seq<ResponseFrame> {
    var bodies := Project(frames, s);
    seq(|bodies|, i requires 0 <= i < |bodies| => Envelope(s, bodies[i]))
  }

  lemma OnlyFromFront(f: ResponseFrame, later: seq<ResponseFrame>, s: int)
    ensures Only([f] + later, s) == (if f.sequence == s then [f] else []) + Only(later, s)
  {
    ProjectConcatenates([f], later, s);
    ProjectAppends([], f, s);
    assert [] + [f] == [f] && Project<Response>([], s) == [];
    hide Project;
  }

  lemma DispatchIsLocal(a: Cli, b: Cli, f: ResponseFrame, s: int)
    requires WellFormed(a) && WellFormed(b) && SliceOf(a, s) == SliceOf(b, s)
    ensures f.sequence == s ==> SliceOf(Dispatch(a, f), s) == SliceOf(Dispatch(b, f), s)
    ensures f.sequence != s ==> SliceOf(Dispatch(a, f), s) == SliceOf(a, s)
  {
    hide Begun, Ended, Final, FoldOne, AfterPush;
  }

  /** The state of a stream after dispatching a whole list of frames is its state after dispatching only the
      frames that carry its sequence. */
  lemma {:induction false} DemuxCommutes(a: Cli, b: Cli, frames: seq<ResponseFrame>, s: int)
    requires WellFormed(a) && WellFormed(b) && SliceOf(a, s) == SliceOf(b, s)
    ensures SliceOf(DispatchAll(a, frames), s) == SliceOf(DispatchAll(b, Only(frames, s)), s)
    decreases |frames|
  {
    hide SliceOf, Dispatch;
    if frames != [] {
      var f := frames[0];
      DispatchIsLocal(a, b, f, s);
      OnlyFromFront(f, frames[1..], s);
      assert frames == [f] + frames[1..];
      hide Only;
      if f.sequence == s {
        DemuxCommutes(Dispatch(a, f), Dispatch(b, f), frames[1..], s);
        assert ([f] + Only(frames[1..], s))[1..] == Only(frames[1..], s);
      } else {
        DemuxCommutes(Dispatch(a, f), b, frames[1..], s);
        assert [] + Only(frames[1..], s) == Only(frames[1..], s);
      }
    }
  }
}
