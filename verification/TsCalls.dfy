/** What the caller of a TypeScript client gets to see of its call, told from the events alone. */
module TsCalls {
  import opened Wire
  import opened Reassembly
  import opened AsyncQueues
  import opened Frames
  import opened Receiving
  import opened TsClient

  const UNUSED: Cli := Cli(map[], {}, map[])

  /** A call by what happened to it: the bodies of its own frames that arrived between its opening and its end, and
      whether the transport closed on it. */
  datatype Heard = Heard(open: bool, live: bool, bodies: seq<Response>, failed: bool)

  const UNHEARD: Heard := Heard(false, false, [], false)

  function Hears(b: Heard, e: Event, s: int): Heard {
    match e
    case Opened(t) => if t == s && !b.open then Heard(true, true, [], false) else b
    case Arrived(f) =>
      if f.sequence == s && b.live then b.(bodies := b.bodies + [f.body], live := !f.body.ResponseEnd?) else b
    case TransportClosed => if b.live then b.(live := false, failed := true) else b
    case RecvCall(_) => b
  }

  function HeardOf(events: seq<Event>, s: int): Heard
    decreases |events|
  {
    if events == [] then UNHEARD else Hears(HeardOf(events[..|events| - 1], s), events[|events| - 1], s)
  }

  function Outcome(b: Heard): Option<Status> {
    if b.bodies != [] && b.bodies[|b.bodies| - 1].ResponseEnd? then Some(Final(b.bodies[|b.bodies| - 1].status))
    else if b.failed then Some(UNAVAILABLE) else None
  }

  ghost predicate Shows(call: CallState, b: Heard) {
    && Overlaid(call.header, Headers(b.bodies)) && Overlaid(call.trailer, Trailers(b.bodies))
    && call.status == Outcome(b) && call.done == !b.live && call.inbox.closed == !b.live
  }

  ghost predicate Tracks(cl: Cli, s: int, b: Heard) {
    && (s in cl.calls <==> b.open) && (s in cl.live <==> b.live) && (b.live ==> b.open && Outcome(b) == None)
    && (!b.open ==> b == UNHEARD)
    && (s in cl.calls ==> Shows(cl.calls[s], b))
  }

  lemma BodyShows(call: CallState, b: Heard, body: Response, q: Queue<Bytes>)
    requires Shows(call, b) && b.live && Outcome(b) == None && q.closed == call.inbox.closed
    ensures var n := match body
                     case Begin(header, inline) => Begun(call, header, inline)
                     case ResponseData(_) => call.(inbox := q)
                     case ResponseEnd(status, trailer) =>
                       Ended(call.(trailer := call.trailer + trailer), Final(status))
                     case NoResponse => call;
            var m := b.(bodies := b.bodies + [body], live := !body.ResponseEnd?);
            Shows(n, m) && (m.live ==> Outcome(m) == None)
  {
    HeadersAppend(b.bodies, body);
    assert Headers(b.bodies) + [] == Headers(b.bodies) && Trailers(b.bodies) + [] == Trailers(b.bodies);
    if body.Begin? { OverlaidAppends(call.header, Headers(b.bodies), body.header); }
    if body.ResponseEnd? { OverlaidAppends(call.trailer, Trailers(b.bodies), body.trailer); }
    AfterCloseKeepsLog(call.inbox);
    if body.Begin? && body.beginInline.Some? { PushKeepsOpen(call.inbox, body.beginInline.value); }
    hide Overlaid, Headers, Trailers, AfterPush, AfterClose;
  }

  lemma PushKeepsOpen(q: Queue<Bytes>, payload: Bytes)
    ensures AfterPush(q, payload).closed == q.closed
  {
  }

  lemma AbsorbKeepsOpen(q: Queue<Bytes>, t: Table, s: int, content: Content)
    ensures Absorb(q, t, s, content).0.closed == q.closed
  {
    hide Fold;
  }

  lemma ArrivedTracks(cl: Cli, f: ResponseFrame, s: int, b: Heard)
    requires WellFormed(cl) && Tracks(cl, s, b)
    ensures Tracks(Dispatch(cl, f), s, Hears(b, Arrived(f), s))
  {
    hide Shows, Outcome, Absorb, Begun, Ended;
    if f.sequence == s && s in cl.live {
      var call := cl.calls[s];
      var q := if f.body.ResponseData? then Absorb(call.inbox, cl.reasm, s, f.body.responseContent).0 else call.inbox;
      if f.body.ResponseData? { AbsorbKeepsOpen(call.inbox, cl.reasm, s, f.body.responseContent); }
      BodyShows(call, b, f.body, q);
    }
  }

  lemma OthersTrack(cl: Cli, e: Event, s: int, b: Heard)
    requires WellFormed(cl) && Tracks(cl, s, b) && !e.Arrived?
    ensures Tracks(EventStep(cl, e), s, Hears(b, e, s))
  {
    if s in cl.calls { AfterCloseKeepsLog(cl.calls[s].inbox); }
    hide AfterClose;
  }

  lemma EventsAppend(cl: Cli, events: seq<Event>, e: Event)
    requires WellFormed(cl)
    ensures AfterEvents(cl, events + [e]) == EventStep(AfterEvents(cl, events), e)
    decreases |events|
  {
    if events == [] {
      assert [] + [e] == [e] && [e][1..] == [];
    } else {
      assert (events + [e])[1..] == events[1..] + [e];
      EventsAppend(EventStep(cl, events[0]), events[1..], e);
    }
  }

  lemma {:induction false} RunTracks(events: seq<Event>, s: int)
    ensures WellFormed(UNUSED) && Tracks(AfterEvents(UNUSED, events), s, HeardOf(events, s))
    decreases |events|
  {
    if events == [] {
      assert Overlaid(map[], []);
    } else {
      var front, e := events[..|events| - 1], events[|events| - 1];
      assert front + [e] == events;
      RunTracks(front, s);
      EventsAppend(UNUSED, front, e);
      hide Tracks, Hears, EventStep;
      if e.Arrived? {
        ArrivedTracks(AfterEvents(UNUSED, front), e.frame, s, HeardOf(front, s));
        assert EventStep(AfterEvents(UNUSED, front), e) == Dispatch(AfterEvents(UNUSED, front), e.frame) by {
          ArrivedDispatches(AfterEvents(UNUSED, front), e.frame);
        }
      } else {
        OthersTrack(AfterEvents(UNUSED, front), e, s, HeardOf(front, s));
      }
    }
  }

  lemma ArrivedDispatches(cl: Cli, f: ResponseFrame)
    requires WellFormed(cl)
    ensures EventStep(cl, Arrived(f)) == Dispatch(cl, f)
  {
  }

  /** After any openings, frames, receive calls and transport failures: a call is there exactly if it was opened, and
      is done exactly if its End came since, or the transport closed on it first, with the status that says so. Its
      header has, key by key, the values of the last of its own Begin frames that names the key, its trailer those
      of its End; frames of others, and those before its opening or after its end, leave no trace. */
  lemma CallShowsItsFrames(events: seq<Event>, s: int)
    ensures WellFormed(UNUSED)
    ensures var cl, b := AfterEvents(UNUSED, events), HeardOf(events, s);
            && (s in cl.calls <==> b.open)
            && (b.open ==>
                  var call := cl.calls[s];
                  && Overlaid(call.header, Headers(b.bodies)) && Overlaid(call.trailer, Trailers(b.bodies))
                  && call.status == Outcome(b) && call.done == !b.live && call.inbox.closed == !b.live
                  && (s in cl.live <==> b.live))
  {
    RunTracks(events, s);
    hide AfterEvents, HeardOf, Overlaid, Headers, Trailers, Outcome;
  }
}
