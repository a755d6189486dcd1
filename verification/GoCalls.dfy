/** What a Go caller gets to see of its call: header, trailer and status. */
module GoCalls {
  import opened Wire
  import opened Frames
  import opened GoClient
  import Reassembly

  /** The message of the failure that ended the Attach loop. */
  function FailedWith(acts: seq<Act>): Option<string>
    decreases |acts|
  {
    if acts == [] then None else
    var front, last := acts[..|acts| - 1], acts[|acts| - 1];
    if last.FailAll? && Run(front).pc == Reading then Some(last.message) else FailedWith(front)
  }

  function EndOf(frames: seq<Response>): Option<Status> {
    if frames != [] && frames[|frames| - 1].ResponseEnd? then Some(Final(frames[|frames| - 1].status)) else None
  }

  ghost predicate Shows(call: Call, failed: Option<string>) {
    && Gathered(call.header, Headers(call.frames)) && Gathered(call.trailer, Trailers(call.frames))
    && (call.ends == 0 ==> call.result == None && EndOf(call.frames) == None)
    && (EndOf(call.frames).Some? ==> call.result == EndOf(call.frames))
    && (call.ends > 0 && EndOf(call.frames) == None ==>
          failed.Some? && call.result == Some(Status(UNAVAILABLE, failed.value)))
  }

  ghost predicate AllShow(c: Cli, failed: Option<string>) {
    && (failed.Some? ==> c.pc == Returned)
    && forall r :: 0 <= r < |c.calls| ==> Shows(c.calls[r], failed)
  }

  lemma GatheredMerges(all: Metadata, md: seq<Metadata>, more: Metadata)
    requires Gathered(all, md)
    ensures Gathered(Merge(all, more), md + [more])
  {
    var merged := Merge(all, more);
    forall key
      ensures if key in merged then LastNamed(md + [more], key).Some? && AllNamed(md + [more], key) == merged[key]
              else LastNamed(md + [more], key) == None
    {
      NamedAppends(md, more, key);
      if key !in all { UnnamedIsEmpty(md, key); }
    }
  }

  lemma HearInParts(call: Call, t: Reassembly.Table, s: nat, body: Response)
    requires call.ends == 0
    ensures var n := Hear(call, t, s, body).0;
            && n.frames == call.frames
            && n.header == (if body.Begin? then Merge(call.header, body.header) else call.header)
            && n.trailer == (if body.ResponseEnd? then Merge(call.trailer, body.trailer) else call.trailer)
            && n.ends == (if body.ResponseEnd? then 1 else 0)
            && n.result == (if body.ResponseEnd? then Some(Final(body.status)) else call.result)
  {
    hide Merge, Reassembly.Fold;
  }

  lemma MoreGathers(header: Metadata, trailer: Metadata, frames: seq<Response>, body: Response)
    requires Gathered(header, Headers(frames)) && Gathered(trailer, Trailers(frames))
    ensures Gathered(if body.Begin? then Merge(header, body.header) else header, Headers(frames + [body]))
    ensures Gathered(if body.ResponseEnd? then Merge(trailer, body.trailer) else trailer, Trailers(frames + [body]))
  {
    HeadersAppend(frames, body);
    hide Gathered, Headers, Trailers, Merge;
    assert Headers(frames) + [] == Headers(frames) && Trailers(frames) + [] == Trailers(frames);
    if body.Begin? { GatheredMerges(header, Headers(frames), body.header); }
    if body.ResponseEnd? { GatheredMerges(trailer, Trailers(frames), body.trailer); }
  }

  /** One more frame of a call that has not ended. */
  lemma HearShows(call: Call, t: Reassembly.Table, s: nat, body: Response, failed: Option<string>)
    requires Shows(call, failed) && call.ends == 0
    ensures Shows(Hear(call.(frames := call.frames + [body]), t, s, body).0, failed)
  {
    HearInParts(call.(frames := call.frames + [body]), t, s, body);
    MoreGathers(call.header, call.trailer, call.frames, body);
    hide Gathered, Headers, Trailers, Merge, Hear;
  }

  lemma LogShows(call: Call, log: seq<Bytes>, failed: Option<string>)
    ensures Shows(call, failed) ==> Shows(call.(log := log), failed)
  {
    hide Gathered, Headers, Trailers;
  }

  lemma DispatchShows(c: Cli, r: nat, body: Response, failed: Option<string>)
    requires r < |c.calls| && AllShow(c, failed) && c.calls[r].ends == 0 && c.pc == Handling(r, body)
    ensures AllShow(Dispatch(c, r, body), failed)
  {
    DispatchInParts(c, r, body);
    HearShows(c.calls[r], c.reasm, Sequence(r), body, failed);
    var n := Hear(c.calls[r].(frames := c.calls[r].frames + [body]), c.reasm, Sequence(r), body).0;
    LogShows(n, Dispatch(c, r, body).calls[r].log, failed);
    hide Shows, Dispatch, Hear, Sequence, InHand;
  }

  /** What a call shows depends on these alone. */
  predicate SameShow(a: Call, b: Call) {
    b.header == a.header && b.trailer == a.trailer && b.frames == a.frames && b.ends == a.ends && b.result == a.result
  }

  lemma SameShowShows(a: Call, b: Call, failed: Option<string>)
    requires Shows(a, failed) && SameShow(a, b)
    ensures Shows(b, failed)
  {
    hide Gathered, Headers, Trailers;
  }

  lemma QuietStep(c: Cli, act: Act, r: nat)
    requires !act.Handle? && !act.FailAll? && r < |Step(c, act).calls|
    ensures if r < |c.calls| then SameShow(c.calls[r], Step(c, act).calls[r])
            else SameShow(NewCall(|c.read|), Step(c, act).calls[r])
  {
    hide Sequence;
  }

  lemma QuietShows(c: Cli, act: Act, failed: Option<string>)
    requires !act.Handle? && !act.FailAll? && AllShow(c, failed)
    ensures AllShow(Step(c, act), failed)
  {
    var d := Step(c, act);
    NewShows(|c.read|, failed);
    if c.pc == Returned { QuietPc(c, act); }
    hide Shows, SameShow, Step;
    forall r | 0 <= r < |d.calls| ensures Shows(d.calls[r], failed) {
      QuietStep(c, act, r);
      if r < |c.calls| { SameShowShows(c.calls[r], d.calls[r], failed); }
      else { SameShowShows(NewCall(|c.read|), d.calls[r], failed); }
    }
  }

  lemma QuietPc(c: Cli, act: Act)
    requires !act.Handle? && !act.FailAll? && c.pc == Returned
    ensures Step(c, act).pc == Returned
  {
    hide Sequence;
  }

  lemma NewShows(openedAt: nat, failed: Option<string>)
    ensures Shows(NewCall(openedAt), failed)
  {
    assert Headers([]) == [] && Trailers([]) == [];
  }

  lemma FailShows(c: Cli, message: string)
    requires AllShow(c, None) && c.pc == Reading
    ensures AllShow(Step(c, FailAll(message)), Some(message))
  {
    var d := Step(c, FailAll(message));
    hide Gathered, Headers, Trailers, Sequence;
    forall r | 0 <= r < |d.calls| ensures Shows(d.calls[r], Some(message)) {
      assert Shows(c.calls[r], None);
    }
  }

  lemma {:induction false} RunShows(acts: seq<Act>)
    ensures AllShow(Run(acts), FailedWith(acts))
    decreases |acts|
  {
    if acts != [] {
      var front, act := acts[..|acts| - 1], acts[|acts| - 1];
      var c := Run(front);
      RunShows(front);
      RunKeepsInv(front);
      if act.FailAll? {
        if c.pc == Reading { FailShows(c, act.message); }
        hide Shows;
      } else if act.Handle? {
        if c.pc.Handling? { DispatchShows(c, c.pc.r, c.pc.body, FailedWith(front)); }
        hide Shows, Dispatch;
      } else {
        QuietShows(c, act, FailedWith(front));
        hide *;
      }
    }
  }

  /** In every run: a call's header has, key by key, all the values its own Begin frames give the key, in order, and
      its trailer those of its End; if its End was found its result is that End's status, and if it has ended without,
      the transport failed and the result says so. */
  lemma CallShowsItsFrames(acts: seq<Act>, r: nat)
    requires r < |Run(acts).calls|
    ensures var call := Run(acts).calls[r];
            && Gathered(call.header, Headers(call.frames)) && Gathered(call.trailer, Trailers(call.frames))
            && (EndOf(call.frames).Some? ==> call.result == EndOf(call.frames))
            && (call.ends > 0 && EndOf(call.frames) == None ==>
                  FailedWith(acts).Some? && call.result == Some(Status(UNAVAILABLE, FailedWith(acts).value)))
  {
    RunShows(acts);
    hide Run, Gathered, Headers, Trailers, EndOf, FailedWith;
    assert Shows(Run(acts).calls[r], FailedWith(acts));
  }
}
