/** What each operation of the Go client comes to when nothing else happens meanwhile. */
module GoClientWhole {
  import opened Wire
  import opened Frames
  import opened GoClient

  predicate InMap(c: Cli, r: nat) {
    r < |c.calls| && Sequence(r) in c.streams && c.streams[Sequence(r)] == r
  }

  /** Opening adds a call that has neither heard nor got anything, and routes its number to it. */
  lemma OpenAdds(c: Cli)
    ensures var n := Step(c, Open);
            && n.calls == c.calls + [NewCall(|c.read|)] && InMap(n, |c.calls|) && n.read == c.read && n.pc == c.pc
            && forall s :: s in c.streams && s != Sequence(|c.calls|) ==> s in n.streams && n.streams[s] == c.streams[s]
  {
    hide Sequence;
  }

  /** A frame of an unknown number is read and dropped. */
  lemma UnknownIsDropped(c: Cli, f: ResponseFrame)
    requires c.pc == Reading && f.sequence !in c.streams
    ensures Step(c, Look(f)) == c.(read := c.read + [f])
  {
  }

  lemma Finds(c: Cli, r: nat, body: Response)
    requires c.pc == Reading && InMap(c, r)
    ensures var f := Envelope(Sequence(r), body);
            Step(c, Look(f)) == c.(read := c.read + [f], pc := Handling(r, body))
  {
    hide Sequence;
  }

  /** A payload for a call in the map joins its inbound channel if there is room, and the loop goes on. */
  lemma ReplyArrives(c: Cli, r: nat, payload: Bytes)
    requires c.pc == Reading && InMap(c, r) && |c.calls[r].inbound| < 16
    ensures var call, body := c.calls[r], ResponseData(Message(payload));
            var f := Envelope(Sequence(r), body);
            var n := Step(Step(Step(c, Look(f)), Handle), Push);
            && n.calls == c.calls[r := call.(frames := call.frames + [body], log := call.log + [payload],
                                             inbound := call.inbound + [payload])]
            && n.read == c.read + [f] && n.pc == Reading && n.streams == c.streams
  {
    var body := ResponseData(Message(payload));
    Finds(c, r, body);
    hide Sequence;
    var n1 := c.(read := c.read + [Envelope(Sequence(r), body)], pc := Handling(r, body));
    var call := c.calls[r];
    var heard := call.(frames := call.frames + [body], log := call.log + [payload]);
    assert Step(n1, Handle) == n1.(calls := c.calls[r := heard], pc := Delivering(r, payload));
  }

  /** A Begin for a call in the map adds its header, and its inline payload, unless empty, as a reply. */
  lemma BeginArrives(c: Cli, r: nat, header: Metadata, inline: Option<Bytes>)
    requires c.pc == Reading && InMap(c, r) && |c.calls[r].inbound| < 16
    ensures var call, body := c.calls[r], Begin(header, inline);
            var more := if inline.Some? && inline.value != [] then [inline.value] else [];
            var n := Step(Step(Step(c, Look(Envelope(Sequence(r), body))), Handle), Push);
            && n.calls == c.calls[r := call.(frames := call.frames + [body], header := Merge(call.header, header),
                                             log := call.log + more, inbound := call.inbound + more)]
            && n.pc == Reading && n.streams == c.streams
  {
    var body := Begin(header, inline);
    Finds(c, r, body);
    hide Sequence, Merge;
    var n1 := c.(read := c.read + [Envelope(Sequence(r), body)], pc := Handling(r, body));
    var call := c.calls[r];
    var heard := call.(frames := call.frames + [body], header := Merge(call.header, header));
    assert call.log + [] == call.log && call.inbound + [] == call.inbound;
    if inline.Some? && inline.value != [] {
      assert Step(n1, Handle) == n1.(calls := c.calls[r := heard.(log := call.log + [inline.value])],
                                     pc := Delivering(r, inline.value));
    } else {
      assert Step(n1, Handle) == n1.(calls := c.calls[r := heard], pc := Reading);
    }
  }

  /** An End for a call in the map that has not ended ends it with the frame's status and trailer, takes its number
      out of the map, and the loop goes on. */
  lemma EndArrives(c: Cli, r: nat, status: Option<Status>, trailer: Metadata)
    requires c.pc == Reading && InMap(c, r) && c.calls[r].ends == 0
    ensures var call, body := c.calls[r], ResponseEnd(status, trailer);
            var f := Envelope(Sequence(r), body);
            var n := Step(Step(Step(c, Look(f)), Handle), Delete);
            && n.calls == c.calls[r := call.(frames := call.frames + [body], trailer := Merge(call.trailer, trailer),
                                             ends := 1, result := Some(Final(status)))]
            && n.read == c.read + [f] && n.pc == Reading && n.streams == c.streams - {Sequence(r)}
  {
    var body := ResponseEnd(status, trailer);
    Finds(c, r, body);
    hide Sequence, Merge;
    var n1 := c.(read := c.read + [Envelope(Sequence(r), body)], pc := Handling(r, body));
    var call := c.calls[r];
    var heard := call.(frames := call.frames + [body], trailer := Merge(call.trailer, trailer),
                       ends := 1, result := Some(Final(status)));
    assert Step(n1, Handle) == n1.(calls := c.calls[r := heard], pc := Deleting(r));
  }

  /** A caller that gives its call up takes its number out of the map. */
  lemma CleanupReleases(c: Cli, r: nat)
    requires r < |c.calls|
    ensures Step(c, Cleanup(r))
         == c.(calls := c.calls[r := c.calls[r].(cleaned := true)], streams := c.streams - {Sequence(r)})
  {
    hide Sequence;
  }

  lemma CallerActs(c: Cli, act: Act)
    requires OfCaller(act) && act.r < |c.calls|
    ensures Step(c, act) == c.(calls := c.calls[act.r := Receive(c.calls[act.r], act)])
  {
    hide Receive;
  }

  /** A Recv takes the first reply that waits; finding none it waits, as a unary call does at once, and then returns
      with the next reply, on the end of the call, or because its context has ended. */
  lemma ReceiveReturns(call: Call, r: nat, x: Bytes)
    requires !call.waiting
    ensures var tried, waits := Receive(call, RecvTry(r)), Receive(call, Await(r));
            && waits == call.(waiting := true)
            && (if call.inbound != []
                then tried == call.(received := call.received + [call.inbound[0]], inbound := call.inbound[1..])
                else tried == waits)
            && Receive(waits.(inbound := [x] + call.inbound), RecvTake(r)) == call.(received := call.received + [x])
            && Receive(waits, RecvEnd(r)) == (if call.ends > 0 then call.(eofs := call.eofs + 1) else waits)
            && Receive(waits, RecvCancelled(r)) == call
  {
    assert ([x] + call.inbound)[1..] == call.inbound;
  }
}
