/** When a Go caller returns on the end of its call although a reply is queued, and when it cannot. */
module GoClientEof {
  import opened Wire
  import opened Frames
  import opened Receiving
  import opened GoClient

  /** The caller starts to wait: Recv when its first look finds nothing, a unary call at once. */
  predicate Waits(c: Cli, act: Act, r: nat) {
    r < |c.calls| && !c.calls[r].waiting && (act == Await(r) || (act == RecvTry(r) && c.calls[r].inbound == []))
  }

  predicate Pushes(c: Cli, act: Act, r: nat) {
    act == Push && c.pc.Delivering? && c.pc.r == r < |c.calls| && |c.calls[r].inbound| < INBOUND_CAPACITY
  }

  /** The caller returns on the end channel. */
  predicate ReturnsEnd(c: Cli, act: Act, r: nat) {
    act == RecvEnd(r) && r < |c.calls| && c.calls[r].waiting && c.calls[r].ends > 0
  }

  /** A reply was pushed after the caller last started to wait. */
  predicate PushedSince(acts: seq<Act>, r: nat)
    decreases |acts|
  {
    acts != [] &&
    var front, last := acts[..|acts| - 1], acts[|acts| - 1];
    !Waits(Run(front), last, r) && (Pushes(Run(front), last, r) || PushedSince(front, r))
  }

  /** A reply was there already when the caller last started to wait: only a unary call does not look first. */
  predicate WaitsOver(acts: seq<Act>, r: nat)
    decreases |acts|
  {
    acts != [] &&
    var front, last := acts[..|acts| - 1], acts[|acts| - 1];
    if Waits(Run(front), last, r) then Run(front).calls[r].inbound != [] else WaitsOver(front, r)
  }

  /** The call had ended when the caller last started to wait. */
  predicate WaitsAfterEnd(acts: seq<Act>, r: nat)
    decreases |acts|
  {
    acts != [] &&
    var front, last := acts[..|acts| - 1], acts[|acts| - 1];
    if Waits(Run(front), last, r) then Run(front).calls[r].ends > 0 else WaitsAfterEnd(front, r)
  }

  // ---------------------------------------------------------------- every step

  /** What a waiting caller can tell from its channel. */
  predicate WaitsRight(c: Cli, r: nat, over: bool, pushed: bool, afterEnd: bool) {
    r < |c.calls| && c.calls[r].waiting ==>
      && (c.calls[r].inbound != [] <==> over || pushed)
      && (afterEnd ==> c.calls[r].ends > 0 && !pushed)
  }

  /** What the steps of the Attach loop and of other callers leave alone. */
  lemma InboxSteps(c: Cli, act: Act, r: nat)
    requires Inv(c) && r < |Step(c, act).calls| && !(OfCaller(act) && act.r == r)
    ensures var d := Step(c, act);
            && (r >= |c.calls| ==> !d.calls[r].waiting)
            && (r < |c.calls| ==>
                  && d.calls[r].waiting == c.calls[r].waiting && (c.calls[r].ends > 0 ==> d.calls[r].ends > 0)
                  && d.calls[r].inbound == c.calls[r].inbound + if Pushes(c, act, r) then [c.pc.payload] else [])
  {
    if act.Handle? && c.pc.Handling? {
      hide Sequence, Dispatch;
      DispatchKeepsInbox(c, c.pc.r, c.pc.body);
      if r < |c.calls| { assert c.calls[r].inbound + [] == c.calls[r].inbound; }
    } else {
      OtherInboxSteps(c, act, r);
      hide *;
    }
  }

  lemma OtherInboxSteps(c: Cli, act: Act, r: nat)
    requires !(act.Handle? && c.pc.Handling?) && r < |Step(c, act).calls| && !(OfCaller(act) && act.r == r)
    ensures var d := Step(c, act);
            && (r >= |c.calls| ==> !d.calls[r].waiting)
            && (r < |c.calls| ==>
                  && d.calls[r].waiting == c.calls[r].waiting && (c.calls[r].ends > 0 ==> d.calls[r].ends > 0)
                  && d.calls[r].inbound == c.calls[r].inbound + if Pushes(c, act, r) then [c.pc.payload] else [])
  {
    hide Sequence, Dispatch, Receive;
    if r < |c.calls| { assert c.calls[r].inbound + [] == c.calls[r].inbound; }
  }

  lemma DispatchKeepsInbox(c: Cli, r: nat, body: Response)
    requires r < |c.calls| && c.calls[r].ends == 0 && CallsOk(c)
    ensures var d := Dispatch(c, r, body);
            && |d.calls| == |c.calls|
            && d.calls[r].inbound == c.calls[r].inbound && d.calls[r].waiting == c.calls[r].waiting
            && forall k :: 0 <= k < |c.calls| && k != r ==> d.calls[k] == c.calls[k]
  {
    var call := c.calls[r].(frames := c.calls[r].frames + [body]);
    DispatchInParts(c, r, body);
    HearKeepsCall(call, c.reasm, Sequence(r), body);
    hide Hear, Dispatch, Sequence;
  }

  lemma StepKeepsWaiting(c: Cli, act: Act, r: nat, over: bool, pushed: bool, afterEnd: bool)
    requires Inv(c) && WaitsRight(c, r, over, pushed, afterEnd)
    ensures var waits := Waits(c, act, r);
            WaitsRight(Step(c, act), r, if waits then c.calls[r].inbound != [] else over,
                       !waits && (Pushes(c, act, r) || pushed), if waits then c.calls[r].ends > 0 else afterEnd)
  {
    if r < |Step(c, act).calls| {
      if OfCaller(act) && act.r == r {
        OwnStepKeepsWaiting(c, act, r, over, pushed, afterEnd);
        hide *;
      } else {
        InboxSteps(c, act, r);
        hide Step, CallsOk, StreamsOk, Tracked;
        NotPushedAfterEnd(c, act, r);
      }
    }
  }

  /** Nothing is pushed for a call that has ended. */
  lemma NotPushedAfterEnd(c: Cli, act: Act, r: nat)
    requires PcOk(c) && r < |Step(c, act).calls|
    ensures Pushes(c, act, r) ==> c.calls[r].ends == 0
  {
    hide Step;
  }

  lemma OwnStepKeepsWaiting(c: Cli, act: Act, r: nat, over: bool, pushed: bool, afterEnd: bool)
    requires OfCaller(act) && act.r == r < |c.calls| && WaitsRight(c, r, over, pushed, afterEnd)
    ensures var waits := Waits(c, act, r);
            WaitsRight(Step(c, act), r, if waits then c.calls[r].inbound != [] else over,
                       !waits && pushed, if waits then c.calls[r].ends > 0 else afterEnd)
  {
  }

  lemma {:induction false} RunKeepsWaiting(acts: seq<Act>, r: nat)
    ensures WaitsRight(Run(acts), r, WaitsOver(acts, r), PushedSince(acts, r), WaitsAfterEnd(acts, r))
    decreases |acts|
  {
    if acts != [] {
      var front := acts[..|acts| - 1];
      RunKeepsWaiting(front, r);
      RunKeepsInv(front);
      hide Inv, WaitsRight, Step, Waits, Pushes;
      StepKeepsWaiting(Run(front), acts[|acts| - 1], r,
                       WaitsOver(front, r), PushedSince(front, r), WaitsAfterEnd(front, r));
    }
  }

  // ---------------------------------------------------------------- exactly when

  /** In every run a caller returns on the end of its call over queued replies exactly if one was there when it
      started to wait or was pushed since; and none is pushed for a caller that started after the end. */
  lemma EndOvertakesExactly(acts: seq<Act>, act: Act, r: nat)
    requires ReturnsEnd(Run(acts), act, r)
    ensures var call, after := Run(acts).calls[r], Run(acts + [act]).calls;
            && (call.inbound != [] <==> WaitsOver(acts, r) || PushedSince(acts, r))
            && (WaitsAfterEnd(acts, r) ==> !PushedSince(acts, r))
            && r < |after| && after[r] == call.(waiting := false, eofs := call.eofs + 1)
  {
    RunKeepsWaiting(acts, r);
    RunAppends(acts, act);
    hide Run, PushedSince, WaitsOver, WaitsAfterEnd;
  }

  lemma {:induction false} RecvLooksFirst(acts: seq<Act>, r: nat)
    requires Await(r) !in acts
    ensures !WaitsOver(acts, r)
    decreases |acts|
  {
    if acts != [] {
      RecvLooksFirst(acts[..|acts| - 1], r);
      hide Run;
    }
  }

  /** Until the numbers come round again: a caller that returns on the end has every payload of its call's frames
      exactly if none was there when it started to wait and none was pushed since. So a Recv, which looks first,
      has them all whenever the call had ended before it began. */
  lemma EndIsTheEndExactly(acts: seq<Act>, act: Act, r: nat)
    requires ReturnsEnd(Run(acts), act, r) && |Run(acts).calls| <= CYCLE
    ensures var call := Run(acts).calls[r];
            && (call.received == Taken(call.frames).log <==> !WaitsOver(acts, r) && !PushedSince(acts, r))
            && (WaitsAfterEnd(acts, r) && Await(r) !in acts ==> call.received == Taken(call.frames).log)
  {
    EndOvertakesExactly(acts, act, r);
    RepliesArriveInOrder(acts, r);
    RunKeepsInv(acts);
    if Await(r) !in acts { RecvLooksFirst(acts, r); }
    NothingInHand(Run(acts), r);
    hide Run, PushedSince, WaitsOver, WaitsAfterEnd, Taken, Inv;
    var call := Run(acts).calls[r];
    assert call.received + call.inbound + [] == call.received + call.inbound;
    assert call.inbound == [] ==> call.received + call.inbound == call.received;
    assert call.inbound != [] ==> |call.received + call.inbound| > |call.received|;
  }

  lemma NothingInHand(c: Cli, r: nat)
    requires Inv(c) && r < |c.calls| && c.calls[r].ends > 0
    ensures InHand(c, r) == []
  {
    hide CallsOk, StreamsOk, Tracked;
  }

  // ---------------------------------------------------------------- a unary call without its reply

  predicate At(c: Cli, call: Call, pc: Pc) {
    c.calls == [call] && c.streams == map[3 := 0] && c.pc == pc
  }

  predicate Replied(c: Cli, payload: Bytes) {
    && c.calls != [] && At(c, c.calls[0], Reading)
    && c.calls[0].inbound == [payload] && c.calls[0].ends == 0 && c.calls[0].received == []
  }

  predicate Ended(c: Cli, payload: Bytes, status: Status) {
    && |c.calls| == 1 && c.calls[0].ends == 1 && c.calls[0].result == Some(status)
    && c.calls[0].inbound == [payload] && c.calls[0].received == []
  }

  /** The caller waits with the reply queued and the call ended: either case of its select may be picked. */
  predicate MayMissReply(c: Cli, payload: Bytes, status: Status) {
    && ReturnsEnd(c, RecvEnd(0), 0)
    && c.calls[0].inbound == [payload] && c.calls[0].result == Some(status) && c.calls[0].received == []
  }

  lemma ReplyComes(payload: Bytes)
    ensures var reply := Look(Envelope(3, ResponseData(Message(payload))));
            Replied(Step(Step(Step(Step(INITIAL, Open), reply), Handle), Push), payload)
  {
    var c1 := Step(INITIAL, Open);
    assert At(c1, NewCall(0), Reading);
    var c2 := Step(c1, Look(Envelope(3, ResponseData(Message(payload)))));
    assert At(c2, NewCall(0), Handling(0, ResponseData(Message(payload))));
  }

  lemma EndComes(c: Cli, payload: Bytes, status: Status)
    requires Replied(c, payload)
    ensures Ended(Step(Step(c, Look(Envelope(3, ResponseEnd(Some(status), map[])))), Handle), payload, status)
  {
    hide Merge;
  }

  lemma WaitsForBoth(c: Cli, payload: Bytes, status: Status)
    requires Ended(c, payload, status)
    ensures MayMissReply(Step(c, Await(0)), payload, status)
  {
  }

  lemma RunAppendsTwo(acts: seq<Act>, a: Act, b: Act)
    ensures Run(acts + [a] + [b]) == Step(Step(Run(acts), a), b)
  {
    RunAppends(acts, a);
    RunAppends(acts + [a], b);
    hide Run, Step;
  }

  lemma ReplyRuns(payload: Bytes)
    ensures exists acts :: Replied(Run(acts), payload)
  {
    var reply := Look(Envelope(3, ResponseData(Message(payload))));
    assert Run([]) == INITIAL;
    hide Run, Step, Replied;
    RunAppendsTwo([], Open, reply);
    RunAppendsTwo([] + [Open] + [reply], Handle, Push);
    ReplyComes(payload);
  }

  /** It happens to a unary call whose reply and End both come before it waits. */
  lemma UnaryCanMissItsReply(payload: Bytes, status: Status)
    ensures exists acts :: MayMissReply(Run(acts), payload, status)
  {
    hide Run, Step, Replied, Ended, MayMissReply;
    ReplyRuns(payload);
    var acts :| Replied(Run(acts), payload);
    var end := Look(Envelope(3, ResponseEnd(Some(status), map[])));
    RunAppendsTwo(acts, end, Handle);
    EndComes(Run(acts), payload, status);
    WaitsForBoth(Run(acts + [end] + [Handle]), payload, status);
    RunAppends(acts + [end] + [Handle], Await(0));
  }
}
