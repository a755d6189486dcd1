/** What Join, Leave and Send of the signaling store come to. */
module StoreWhole {
  import opened Mailboxes
  import opened Store
  import opened StoreOrphans

  // ---------------------------------------------------------------- closing

  /** Closing closes that inbox, and changes nothing else of it or of any other. */
  lemma CloseCloses(h: Heap, r: nat)
    requires r < |h.inboxes|
    ensures var n := CloseInbox(h, r);
            && |n.inboxes| == |h.inboxes| && n.inboxes[r].closed
            && (forall k :: 0 <= k < |h.inboxes| && k != r ==> n.inboxes[k] == h.inboxes[k])
            && n.inboxes[r].id == h.inboxes[r].id && n.inboxes[r].service == h.inboxes[r].service
            && n.inboxes[r].box == h.inboxes[r].box && n.inboxes[r].joinedAt == h.inboxes[r].joinedAt
            && n.inboxes[r].leftAt == h.inboxes[r].leftAt
            && n.registry == h.registry && n.objects == h.objects
  {
  }

  /** Somebody is about to close the inbox. */
  predicate AboutToClose(m: State, r: nat) {
    exists t :: t in m.busy && m.busy[t].Closing? && m.busy[t].r == r
  }

  /** An inbox is closed exactly if its peer has left, unless the Leave has still to close it. */
  predicate ClosedExactly(m: State, r: nat)
    requires r < |m.heap.inboxes|
  {
    m.heap.inboxes[r].closed <==> m.heap.inboxes[r].leftAt != STAYING && !AboutToClose(m, r)
  }

  ghost predicate LeaversClosed(m: State) {
    forall r :: 0 <= r < |m.heap.inboxes| ==> ClosedExactly(m, r)
  }

  /** Steps that neither close an inbox nor take a peer out. */
  lemma QuietKeepsClosed(m: State, n: State)
    requires Safe(m) && LeaversClosed(m) && |m.heap.inboxes| <= |n.heap.inboxes|
    requires forall r :: 0 <= r < |m.heap.inboxes| ==>
               && n.heap.inboxes[r].closed == m.heap.inboxes[r].closed
               && n.heap.inboxes[r].leftAt == m.heap.inboxes[r].leftAt
    requires forall r :: |m.heap.inboxes| <= r < |n.heap.inboxes| ==>
               !n.heap.inboxes[r].closed && n.heap.inboxes[r].leftAt == STAYING
    requires forall r: nat :: AboutToClose(n, r) <==> AboutToClose(m, r)
    ensures LeaversClosed(n)
  {
    hide Safe, AboutToClose;
    forall r | 0 <= r < |n.heap.inboxes| ensures ClosedExactly(n, r) {
      if r < |m.heap.inboxes| { assert ClosedExactly(m, r); }
    }
  }

  lemma BusyBefore(m: State, t: int, pc: Pc)
    requires !pc.Closing? && (t in m.busy ==> !m.busy[t].Closing?)
    ensures forall r: nat :: AboutToClose(m.(busy := m.busy[t := pc]), r) <==> AboutToClose(m, r)
    ensures forall r: nat :: AboutToClose(m.(busy := m.busy - {t}), r) <==> AboutToClose(m, r)
  {
    var a, b := m.(busy := m.busy[t := pc]), m.(busy := m.busy - {t});
    forall r: nat ensures AboutToClose(a, r) <==> AboutToClose(m, r)
      ensures AboutToClose(b, r) <==> AboutToClose(m, r)
    {
      if AboutToClose(m, r) {
        var u :| u in m.busy && m.busy[u].Closing? && m.busy[u].r == r;
        assert u in a.busy && a.busy[u] == m.busy[u] && u in b.busy && b.busy[u] == m.busy[u];
      }
    }
  }

  lemma HeapOnly(m: State, h: Heap)
    ensures forall r: nat :: AboutToClose(m.(heap := h), r) <==> AboutToClose(m, r)
  {
  }

  /** The step that takes a peer out is about to close its inbox. */
  lemma RemoveKeepsClosed(m: State, t: int, id: string, name: string, o: nat)
    requires Safe(m) && LeaversClosed(m) && t in m.busy && m.busy[t] == Leaving(id, name, o)
    requires o < |m.heap.objects| && id in m.heap.objects[o].peers
    ensures LeaversClosed(StepOn(m, t, m.busy[t]))
  {
    var h, r := m.heap, m.heap.objects[o].peers[id];
    assert PeersOk(h, o);
    var n := StepOn(m, t, m.busy[t]);
    assert n.busy == m.busy[t := n.busy[t]] && n.busy[t].Closing? && n.busy[t].r == r;
    assert AboutToClose(n, r);
    forall k | 0 <= k < |n.heap.inboxes| ensures ClosedExactly(n, k) {
      assert ClosedExactly(m, k);
      if k != r {
        if AboutToClose(m, k) {
          var u :| u in m.busy && m.busy[u].Closing? && m.busy[u].r == k;
          assert u in n.busy && n.busy[u] == m.busy[u];
        }
      }
    }
    hide *;
  }

  lemma CloseKeepsClosed(m: State, t: int)
    requires Safe(m) && LeaversClosed(m) && t in m.busy && m.busy[t].Closing?
    ensures LeaversClosed(StepOn(m, t, m.busy[t]))
  {
    var h, r := m.heap, m.busy[t].r;
    assert PcOk(h, m.busy[t]);
    var n := StepOn(m, t, m.busy[t]);
    CloseCloses(h, r);
    hide HeapOk, CloseInbox;
    assert n.heap == CloseInbox(h, r) && (t in n.busy ==> n.busy[t].Collecting?);
    assert forall u :: u in n.busy && u != t ==> u in m.busy && m.busy[u] == n.busy[u];
    assert forall u :: u in m.busy && u != t ==> u in n.busy && m.busy[u] == n.busy[u];
    forall k | 0 <= k < |n.heap.inboxes| ensures ClosedExactly(n, k) {
      assert ClosedExactly(m, k);
      if k == r {
        assert forall u :: u in n.busy && n.busy[u].Closing? ==> !BothClose(m.busy[u], m.busy[t]);
      } else if AboutToClose(m, k) {
        var u :| u in m.busy && m.busy[u].Closing? && m.busy[u].r == k;
        assert u != t && u in n.busy && n.busy[u] == m.busy[u];
      }
    }
  }

  lemma ContinueKeepsClosed(m: State, t: int)
    requires Safe(m) && LeaversClosed(m) && t in m.busy
    ensures LeaversClosed(StepOn(m, t, m.busy[t]))
  {
    var pc := m.busy[t];
    assert PcOk(m.heap, pc);
    if pc.Closing? {
      CloseKeepsClosed(m, t);
    } else if pc.Leaving? && pc.id in m.heap.objects[pc.o].peers {
      RemoveKeepsClosed(m, t, pc.id, pc.name, pc.o);
    } else {
      BusyBefore(m, t, pc);
      var n := StepOn(m, t, pc);
      HeapOnly(m.(busy := m.busy - {t}), n.heap);
      hide Safe, LeaversClosed, AboutToClose;
      assert n == m.(busy := m.busy - {t}).(heap := n.heap);
      QuietKeepsClosed(m, n);
    }
  }

  lemma SendKeepsClosed(m: State, sender: nat, body: int)
    requires Safe(m) && LeaversClosed(m)
    ensures LeaversClosed(Step(m, Say(sender, body)))
  {
    var h := m.heap;
    if sender < |h.inboxes| {
      assert InboxOk(h, sender);
      var svc := h.objects[h.inboxes[sender].service];
      var msg := Message(svc.name, h.inboxes[sender].id, body);
      SpreadKeepsIdentity(h, svc, msg, svc.peers.Keys);
      HeapOnly(m, Send(h, sender, body));
      hide Safe, LeaversClosed, AboutToClose, Spread;
      QuietKeepsClosed(m, Step(m, Say(sender, body)));
    }
  }

  lemma BeginKeepsClosed(m: State, act: Act)
    requires Safe(m) && LeaversClosed(m) && (act.BeginJoin? || act.BeginLeave?)
    ensures LeaversClosed(Step(m, act))
  {
    var n := Step(m, act);
    if n != m {
      assert act.t !in m.busy && act.t in n.busy;
      BusyBefore(m, act.t, n.busy[act.t]);
      HeapOnly(m.(busy := n.busy), n.heap);
      assert n.busy == m.busy[act.t := n.busy[act.t]] && n == m.(busy := n.busy).(heap := n.heap);
      hide Safe, LeaversClosed, AboutToClose;
      QuietKeepsClosed(m, n);
    }
  }

  lemma TakeKeepsClosed(m: State, r: nat)
    requires Safe(m) && LeaversClosed(m)
    ensures LeaversClosed(Step(m, Take(r)))
  {
    var n := Step(m, Take(r));
    HeapOnly(m, n.heap);
    hide Safe, LeaversClosed, AboutToClose;
    QuietKeepsClosed(m, n);
  }

  lemma StepKeepsClosed(m: State, act: Act)
    requires Safe(m) && LeaversClosed(m)
    ensures LeaversClosed(Step(m, act))
  {
    hide Safe, LeaversClosed, StepOn;
    match act
    case Continue(t) => if t in m.busy { ContinueKeepsClosed(m, t); }
    case Say(sender, body) => SendKeepsClosed(m, sender, body);
    case Take(r) => TakeKeepsClosed(m, r);
    case _ => BeginKeepsClosed(m, act);
  }

  /** In every interleaving an inbox is closed exactly if its peer has left and the Leave has got past closing it:
      every receiver whose peer has left is told so, and no other. */
  lemma {:induction false} LeaversAreClosedExactly(acts: seq<Act>)
    ensures LeaversClosed(Run(INITIAL, acts))
    decreases |acts|
  {
    if acts != [] {
      LeaversAreClosedExactly(acts[..|acts| - 1]);
      RunKeepsSafe(INITIAL, acts[..|acts| - 1]);
      hide Safe, LeaversClosed, Step;
      StepKeepsClosed(Run(INITIAL, acts[..|acts| - 1]), acts[|acts| - 1]);
    }
  }

  // ---------------------------------------------------------------- joining and leaving

  /** A peer of that id stays in the service. */
  predicate Present(h: Heap, o: nat, id: string) {
    exists r :: 0 <= r < |h.inboxes|
      && h.inboxes[r].service == o && h.inboxes[r].id == id && h.inboxes[r].leftAt == STAYING
  }

  lemma PeersArePresent(h: Heap, o: nat, id: string)
    requires HeapOk(h) && o < |h.objects|
    ensures id in h.objects[o].peers <==> Present(h, o, id)
  {
    assert PeersOk(h, o);
    if id in h.objects[o].peers {
      var r := h.objects[o].peers[id];
      assert h.inboxes[r].service == o && h.inboxes[r].id == id;
    }
    if Present(h, o, id) {
      var r :| 0 <= r < |h.inboxes|
        && h.inboxes[r].service == o && h.inboxes[r].id == id && h.inboxes[r].leftAt == STAYING;
      assert InboxOk(h, r);
    }
  }

  /** A Join is told that the id exists exactly if a peer of that id stays in the service, that the service is full
      exactly if none does and ten others stay, and else gets a fresh inbox under its id; unless it joined,
      nothing has changed. */
  lemma JoinTells(h: Heap, o: nat, id: string)
    requires HeapOk(h) && o < |h.objects|
    ensures var (n, res) := Insert(h, o, id);
            && (res == AlreadyExists <==> Present(h, o, id))
            && (res == Full <==> !Present(h, o, id) && |h.objects[o].peers| == 10)
            && (!res.Joined? ==> n == h)
            && (res.Joined? ==>
                  && res.inbox == |h.inboxes| && |n.inboxes| == |h.inboxes| + 1 && n.inboxes[..|h.inboxes|] == h.inboxes
                  && n.inboxes[res.inbox] == Inbox(id, o, EmptyBox(), false, |h.objects[o].log|, STAYING)
                  && Present(n, o, id) && n.objects[o].peers == h.objects[o].peers[id := res.inbox])
  {
    PeersArePresent(h, o, id);
    assert PeersOk(h, o);
    hide HeapOk, PeersOk, EmptyBox;
    var (n, res) := Insert(h, o, id);
    if res.Joined? {
      assert n.inboxes[res.inbox].service == o && n.inboxes[res.inbox].id == id;
    }
    assert |h.objects[o].peers| <= MAX_PEERS by { assert PeersOk(h, o); }
  }

  /** A Join that nobody interleaves with puts the peer into the service of that name, which it creates if need be. */
  lemma WholeJoinJoins(m: State, t: int, id: string, name: string)
    requires Safe(m) && m.busy == map[] && name != "" && id != ""
    ensures var n := WholeJoin(m, t, id, name);
            var o := if Knows(m.heap, name) then m.heap.registry[name] else |m.heap.objects|;
            var before := if Knows(m.heap, name) then m.heap.objects[o].peers else map[];
            && n.busy == map[] && Knows(n.heap, name) && n.heap.registry[name] == o
            && (id in before || |before| == 10 ==>
                  n.heap.objects[o].peers == before && n.heap.inboxes == m.heap.inboxes)
            && (id !in before && |before| < 10 ==>
                  && n.heap.objects[o].peers == before[id := |m.heap.inboxes|]
                  && |n.heap.inboxes| == |m.heap.inboxes| + 1 && !n.heap.inboxes[|m.heap.inboxes|].closed)
  {
    var h1 := FindOrCreate(m.heap, name).0;
    var o := FindOrCreate(m.heap, name).1;
    var m1 := Step(m, BeginJoin(t, id, name));
    assert m1 == State(h1, map[t := Joining(id, o)]);
    assert h1.inboxes == m.heap.inboxes;
    if Knows(m.heap, name) { assert PeersOk(m.heap, o); }
    hide HeapOk, InboxOk, PcOk, EmptyBox;
  }

  /** A Leave of a peer that is there takes it out, closes its inbox and no other, and ends. */
  lemma WholeLeaveCloses(m: State, t: int, id: string, name: string)
    requires Safe(m) && m.busy == map[] && Knows(m.heap, name) && id in m.heap.objects[m.heap.registry[name]].peers
    ensures var n, o := WholeLeave(m, t, id, name), m.heap.registry[name];
            var r := m.heap.objects[o].peers[id];
            && n.busy == map[] && |n.heap.objects| == |m.heap.objects| && |n.heap.inboxes| == |m.heap.inboxes|
            && n.heap.objects[o].peers == m.heap.objects[o].peers - {id}
            && r < |m.heap.inboxes| && n.heap.inboxes[r].closed && n.heap.inboxes[r].leftAt != STAYING
            && (forall k :: 0 <= k < |m.heap.inboxes| && k != r ==> n.heap.inboxes[k] == m.heap.inboxes[k])
            && (name in n.heap.registry <==> n.heap.objects[o].peers != map[])
  {
    var h, o := m.heap, m.heap.registry[name];
    var r := h.objects[o].peers[id];
    assert PeersOk(h, o);
    hide HeapOk, PeersOk, InboxOk, PcOk;
    var m1 := Step(m, BeginLeave(t, id, name));
    assert m1 == State(h, map[t := Leaving(id, name, o)]);
    var h1 := Remove(h, o, id);
    var empty := h1.objects[o].peers == map[];
    var m2 := Step(m1, Continue(t));
    assert m2 == State(h1, map[t := Closing(r, name, empty)]);
    var m3 := Step(m2, Continue(t));
    assert m3 == State(CloseInbox(h1, r), if empty then map[t := Collecting(name)] else map[]);
  }

  // ---------------------------------------------------------------- sending and receiving

  /** The messages said in a service, from the acts: who says something is a peer that joined it once. */
  function SaidIn(acts: seq<Act>, o: nat): seq<Message>
    decreases |acts|
  {
    if acts == [] then [] else
    var front, last := acts[..|acts| - 1], acts[|acts| - 1];
    var h := Run(INITIAL, front).heap;
    if last.Say? && last.sender < |h.inboxes| && h.inboxes[last.sender].service == o < |h.objects|
    then SaidIn(front, o) + [Message(h.objects[o].name, h.inboxes[last.sender].id, last.body)]
    else SaidIn(front, o)
  }

  predicate LogIs(h: Heap, o: nat, said: seq<Message>) {
    if o < |h.objects| then h.objects[o].log == said else said == []
  }

  lemma QuietLog(m: State, act: Act, o: nat, said: seq<Message>)
    requires Safe(m) && LogIs(m.heap, o, said) && !act.Say?
    ensures LogIs(Step(m, act).heap, o, said)
  {
    if act.Continue? {
      if act.t in m.busy { ContinueLog(m, act.t, o, said); }
      hide StepOn, Safe;
    } else {
      hide HeapOk, StepOn;
    }
  }

  lemma ContinueLog(m: State, t: int, o: nat, said: seq<Message>)
    requires LogIs(m.heap, o, said) && t in m.busy
    ensures LogIs(StepOn(m, t, m.busy[t]).heap, o, said)
  {
    hide EmptyBox;
  }

  lemma SayLogs(m: State, sender: nat, body: int, o: nat, said: seq<Message>)
    requires Safe(m) && LogIs(m.heap, o, said)
    ensures var h := m.heap;
            var heard := sender < |h.inboxes| && h.inboxes[sender].service == o < |h.objects|;
            LogIs(Step(m, Say(sender, body)).heap, o,
                  if heard then said + [Message(h.objects[o].name, h.inboxes[sender].id, body)] else said)
  {
    if sender < |m.heap.inboxes| { assert InboxOk(m.heap, sender); }
    hide Spread, Safe;
  }

  /** In every interleaving the log of a service is what was said in it. */
  lemma {:induction false} LogIsWhatWasSaid(acts: seq<Act>, o: nat)
    ensures LogIs(Run(INITIAL, acts).heap, o, SaidIn(acts, o))
    decreases |acts|
  {
    if acts != [] {
      var front, last := acts[..|acts| - 1], acts[|acts| - 1];
      LogIsWhatWasSaid(front, o);
      RunKeepsSafe(INITIAL, front);
      hide Safe, Step, LogIs;
      if last.Say? {
        SayLogs(Run(INITIAL, front), last.sender, last.body, o, SaidIn(front, o));
      } else {
        QuietLog(Run(INITIAL, front), last, o, SaidIn(front, o));
      }
    }
  }

  /** A receive takes the message that waits first. */
  lemma TakeReceives(m: State, r: nat)
    requires r < |m.heap.inboxes|
    ensures var b, n := m.heap.inboxes[r], Step(m, Take(r));
            if b.box.queue == [] then n == m else
            var taken := b.box.(queue := b.box.queue[1..], received := b.box.received + [b.box.queue[0]]);
            n == m.(heap := m.heap.(inboxes := m.heap.inboxes[r := b.(box := taken)]))
  {
  }
}
