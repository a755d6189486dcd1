/** When a service drops out of the signaling store's registry although a peer is in it. */
module StoreOrphans {
  import opened Store

  predicate IsRegistered(h: Heap, o: nat)
    requires o < |h.objects|
  {
    h.objects[o].name in h.registry && h.registry[h.objects[o].name] == o
  }

  /** Every service with peers can be found by its name. */
  ghost predicate Registered(h: Heap) {
    forall o :: 0 <= o < |h.objects| && h.objects[o].peers != map[] ==> IsRegistered(h, o)
  }

  /** A Join that looked its service up goes on after a Leave has collected that service. */
  predicate JoinsOrphan(m: State, act: Act) {
    act.Continue? && act.t in m.busy && m.busy[act.t].Joining? && m.busy[act.t].o < |m.heap.objects|
    && !IsRegistered(m.heap, m.busy[act.t].o)
  }

  lemma InsertMayOrphan(h: Heap, o: nat, id: string)
    requires HeapOk(h) && Registered(h) && o < |h.objects|
    ensures Registered(Insert(h, o, id).0) <==> IsRegistered(h, o)
  {
    var n := Insert(h, o, id).0;
    hide HeapOk;
    if IsRegistered(h, o) {
      forall q | 0 <= q < |n.objects| && n.objects[q].peers != map[] ensures IsRegistered(n, q) {
        assert q != o ==> h.objects[q].peers != map[];
      }
    } else {
      assert h.objects[o].peers == map[];
      assert id in n.objects[o].peers && !IsRegistered(n, o);
    }
  }

  lemma OthersKeepRegistered(m: State, act: Act)
    requires Safe(m) && Registered(m.heap)
    requires !(act.Continue? && act.t in m.busy && m.busy[act.t].Joining?)
    ensures Registered(Step(m, act).heap)
  {
    var h, n := m.heap, Step(m, act).heap;
    hide PcOk, PeersOk, InboxOk, Spread;
    forall q | 0 <= q < |n.objects| && n.objects[q].peers != map[] ensures IsRegistered(n, q) {
      assert q < |h.objects| && h.objects[q].peers != map[];
      assert IsRegistered(h, q);
    }
  }

  /** The registry loses a service with peers in exactly one kind of step: a Join that goes on in a service which
      a Leave collected after the Join had looked it up. */
  lemma OrphansComeFromOneRace(m: State, act: Act)
    requires Safe(m) && Registered(m.heap)
    ensures Registered(Step(m, act).heap) <==> !JoinsOrphan(m, act)
  {
    hide HeapOk, Registered, IsRegistered, Insert;
    if act.Continue? && act.t in m.busy && m.busy[act.t].Joining? {
      assert PcOk(m.heap, m.busy[act.t]);
      InsertMayOrphan(m.heap, m.busy[act.t].o, m.busy[act.t].id);
    } else {
      OthersKeepRegistered(m, act);
    }
  }

  // ---------------------------------------------------------------- an orphan stays one

  /** Peers in a service nobody can find, and nobody on the way to remove one. */
  predicate Stranded(m: State, o: nat) {
    && o < |m.heap.objects| && m.heap.objects[o].peers != map[] && !IsRegistered(m.heap, o)
    && forall t :: t in m.busy && m.busy[t].Leaving? ==> m.busy[t].o != o
  }

  predicate Grows(before: Service, after: Service) {
    && after.name == before.name
    && forall id :: id in before.peers ==> id in after.peers && after.peers[id] == before.peers[id]
  }

  lemma StepKeepsStranded(m: State, act: Act, o: nat)
    requires Safe(m) && Stranded(m, o)
    ensures var n := Step(m, act); Stranded(n, o) && Grows(m.heap.objects[o], n.heap.objects[o])
  {
    hide StepOn, HeapOk, PcOk, Send, Receive;
    match act
    case Continue(t) => if t in m.busy { ContinueKeepsStranded(m, t, o); }
    case Say(sender, body) => SendKeepsStranded(m, sender, body, o);
    case Take(r) => TakeKeepsStranded(m, r, o);
    case _ => BeginKeepsStranded(m, act, o);
  }

  lemma SendKeepsStranded(m: State, sender: nat, body: int, o: nat)
    requires Stranded(m, o)
    ensures var n := Step(m, Say(sender, body)); Stranded(n, o) && Grows(m.heap.objects[o], n.heap.objects[o])
  {
  }

  lemma TakeKeepsStranded(m: State, r: nat, o: nat)
    requires Stranded(m, o)
    ensures var n := Step(m, Take(r)); Stranded(n, o) && Grows(m.heap.objects[o], n.heap.objects[o])
  {
  }

  lemma BeginKeepsStranded(m: State, act: Act, o: nat)
    requires Safe(m) && Stranded(m, o) && (act.BeginJoin? || act.BeginLeave?)
    ensures var n := Step(m, act); Stranded(n, o) && Grows(m.heap.objects[o], n.heap.objects[o])
  {
  }

  lemma ContinueKeepsStranded(m: State, t: int, o: nat)
    requires Stranded(m, o) && t in m.busy
    ensures var n := StepOn(m, t, m.busy[t]); Stranded(n, o) && Grows(m.heap.objects[o], n.heap.objects[o])
  {
    var id :| id in m.heap.objects[o].peers;
    var n := StepOn(m, t, m.busy[t]);
    assert Grows(m.heap.objects[o], n.heap.objects[o]);
    assert id in n.heap.objects[o].peers;
  }

  /** Once stranded a peer stays in its service with an open inbox for ever: whatever anyone does from then on,
      no Leave takes it out. */
  lemma {:induction false} StrandedForever(m: State, o: nat, acts: seq<Act>)
    requires Safe(m) && Stranded(m, o)
    ensures var h := Run(m, acts).heap;
            && Stranded(Run(m, acts), o) && Grows(m.heap.objects[o], h.objects[o])
            && forall id :: id in m.heap.objects[o].peers ==>
                 var r := m.heap.objects[o].peers[id];
                 r < |h.inboxes| && !h.inboxes[r].closed && h.inboxes[r].leftAt == STAYING
    decreases |acts|
  {
    RunKeepsSafe(m, acts);
    StrandedGrows(m, o, acts);
    hide Run, InboxOk, RegistryOk, PcOk;
    var h := Run(m, acts).heap;
    assert PeersOk(h, o);
  }

  lemma {:induction false} StrandedGrows(m: State, o: nat, acts: seq<Act>)
    requires Safe(m) && Stranded(m, o)
    ensures Stranded(Run(m, acts), o) && Grows(m.heap.objects[o], Run(m, acts).heap.objects[o])
    decreases |acts|
  {
    if acts != [] {
      var front := acts[..|acts| - 1];
      StrandedGrows(m, o, front);
      RunKeepsSafe(m, front);
      hide Safe, Stranded, Step;
      StepKeepsStranded(Run(m, front), acts[|acts| - 1], o);
    }
  }

  // ---------------------------------------------------------------- the race, step by step

  lemma OneMoreStep(m: State, acts: seq<Act>, act: Act)
    ensures Run(m, acts + [act]) == Step(Run(m, acts), act)
  {
  }

  predicate Alone(h: Heap, id: string) {
    |h.objects| == 1 && h.registry == map["s" := 0] && h.objects[0].name == "s" && h.objects[0].peers == map[id := 0]
    && |h.inboxes| == 1
  }

  lemma FirstJoin()
    ensures Alone(Step(Step(INITIAL, BeginJoin(1, "a", "s")), Continue(1)).heap, "a")
    ensures Step(Step(INITIAL, BeginJoin(1, "a", "s")), Continue(1)).busy == map[]
  {
  }

  lemma BothUnderWay(m: State)
    requires Alone(m.heap, "a") && m.busy == map[]
    ensures var n := Step(Step(m, BeginJoin(2, "b", "s")), BeginLeave(1, "a", "s"));
            n.heap == m.heap && n.busy == map[2 := Joining("b", 0), 1 := Leaving("a", "s", 0)]
  {
  }

  lemma LeaveCompletes(m: State)
    requires Alone(m.heap, "a") && m.busy == map[2 := Joining("b", 0), 1 := Leaving("a", "s", 0)]
    ensures var n := Step(Step(Step(m, Continue(1)), Continue(1)), Continue(1));
            && n.busy == map[2 := Joining("b", 0)] && n.heap.registry == map[]
            && |n.heap.objects| == 1 && n.heap.objects[0].name == "s" && n.heap.objects[0].peers == map[]
  {
    var m1 := Step(m, Continue(1));
    assert m1.heap.objects[0].peers == map[];
    assert m1.busy == map[2 := Joining("b", 0), 1 := Closing(0, "s", true)];
    var m2 := Step(m1, Continue(1));
    assert m2.busy == map[2 := Joining("b", 0), 1 := Collecting("s")];
    assert m2.heap.registry == map["s" := 0] && m2.heap.objects == m1.heap.objects;
  }

  lemma JoinStrands(m: State)
    requires m.busy == map[2 := Joining("b", 0)] && m.heap.registry == map[]
    requires |m.heap.objects| == 1 && m.heap.objects[0].name == "s" && m.heap.objects[0].peers == map[]
    ensures Stranded(Step(m, Continue(2)), 0)
  {
  }

  /** The race happens: one peer leaves while the next one joins, and the next one is stranded. */
  lemma RaceIsReachable()
    ensures exists acts :: Stranded(Run(INITIAL, acts), 0)
  {
    hide Step;
    var a2 := [BeginJoin(1, "a", "s"), Continue(1)];
    var a4 := a2 + [BeginJoin(2, "b", "s")] + [BeginLeave(1, "a", "s")];
    var a7 := a4 + [Continue(1)] + [Continue(1)] + [Continue(1)];
    assert Run(INITIAL, []) == INITIAL;
    OneMoreStep(INITIAL, [], BeginJoin(1, "a", "s"));
    assert [] + [BeginJoin(1, "a", "s")] == [BeginJoin(1, "a", "s")];
    OneMoreStep(INITIAL, [BeginJoin(1, "a", "s")], Continue(1));
    assert [BeginJoin(1, "a", "s")] + [Continue(1)] == a2;
    hide Run;
    FirstJoin();
    OneMoreStep(INITIAL, a2, BeginJoin(2, "b", "s"));
    OneMoreStep(INITIAL, a2 + [BeginJoin(2, "b", "s")], BeginLeave(1, "a", "s"));
    BothUnderWay(Run(INITIAL, a2));
    OneMoreStep(INITIAL, a4, Continue(1));
    OneMoreStep(INITIAL, a4 + [Continue(1)], Continue(1));
    OneMoreStep(INITIAL, a4 + [Continue(1)] + [Continue(1)], Continue(1));
    LeaveCompletes(Run(INITIAL, a4));
    OneMoreStep(INITIAL, a7, Continue(2));
    JoinStrands(Run(INITIAL, a7));
  }

  // ---------------------------------------------------------------- without the race

  /** The registry holds exactly the services with peers. */
  ghost predicate Exact(h: Heap) {
    && Registered(h)
    && forall n :: n in h.registry ==> h.registry[n] < |h.objects| && h.objects[h.registry[n]].peers != map[]
  }

  function WholeJoin(m: State, t: int, id: string, name: string): State {
    Step(Step(m, BeginJoin(t, id, name)), Continue(t))
  }

  function WholeLeave(m: State, t: int, id: string, name: string): State {
    Step(Step(Step(Step(m, BeginLeave(t, id, name)), Continue(t)), Continue(t)), Continue(t))
  }

  lemma InsertFills(h: Heap, o: nat, id: string)
    requires HeapOk(h) && o < |h.objects|
    ensures Insert(h, o, id).0.objects[o].peers != map[]
    ensures forall q :: 0 <= q < |h.objects| && h.objects[q].peers != map[] ==>
              Insert(h, o, id).0.objects[q].peers != map[]
  {
    assert PeersOk(h, o);
    var n := Insert(h, o, id).0;
    if Insert(h, o, id).1.Joined? { assert id in n.objects[o].peers; }
  }

  /** A Join or Leave that nobody interleaves with leaves in the registry exactly the services with peers. */
  lemma WholeJoinIsExact(m: State, t: int, id: string, name: string)
    requires Safe(m) && Exact(m.heap) && m.busy == map[]
    ensures Exact(WholeJoin(m, t, id, name).heap) && WholeJoin(m, t, id, name).busy == map[]
  {
    hide HeapOk, Insert, PcOk;
    if name != "" && id != "" {
      var m1 := Step(m, BeginJoin(t, id, name));
      var o := FindOrCreate(m.heap, name).1;
      StepKeepsSafe(m, BeginJoin(t, id, name));
      assert m1.busy == map[t := Joining(id, o)];
      OthersKeepRegistered(m, BeginJoin(t, id, name));
      assert IsRegistered(m1.heap, o) by { NamesAgree(m.heap); }
      InsertMayOrphan(m1.heap, o, id);
      InsertFills(m1.heap, o, id);
      InsertKeepsRest(m1.heap, o, id);
    }
  }

  lemma NamesAgree(h: Heap)
    requires HeapOk(h)
    ensures RegistryOk(h)
  {
  }

  lemma InsertKeepsRest(h: Heap, o: nat, id: string)
    requires o < |h.objects|
    ensures Insert(h, o, id).0.registry == h.registry && |Insert(h, o, id).0.objects| == |h.objects|
  {
  }

  lemma WholeLeaveIsExact(m: State, t: int, id: string, name: string)
    requires Safe(m) && Exact(m.heap) && m.busy == map[]
    ensures Exact(WholeLeave(m, t, id, name).heap) && WholeLeave(m, t, id, name).busy == map[]
  {
    var h := m.heap;
    hide InboxOk, PcOk;
    if Knows(h, name) {
      var o := h.registry[name];
      assert PeersOk(h, o);
      hide PeersOk;
      var m1 := Step(m, BeginLeave(t, id, name));
      assert m1.heap == h && m1.busy == map[t := Leaving(id, name, o)];
      if id in h.objects[o].peers {
        LeaveFrom(m1, t, id, name, o);
      } else {
        assert Step(m1, Continue(t)) == m;
      }
    }
  }

  lemma LeaveFrom(m: State, t: int, id: string, name: string, o: nat)
    requires Exact(m.heap) && m.busy == map[t := Leaving(id, name, o)]
    requires name in m.heap.registry && m.heap.registry[name] == o < |m.heap.objects| && m.heap.objects[o].name == name
    requires id in m.heap.objects[o].peers && m.heap.objects[o].peers[id] < |m.heap.inboxes|
    requires RegistryOk(m.heap)
    ensures var n := Step(Step(Step(m, Continue(t)), Continue(t)), Continue(t)); Exact(n.heap) && n.busy == map[]
  {
    var h := m.heap;
    var r := h.objects[o].peers[id];
    var m1 := Step(m, Continue(t));
    var h1 := Remove(h, o, id);
    var empty := h1.objects[o].peers == map[];
    assert m1.heap == h1 && m1.busy == map[t := Closing(r, name, empty)];
    var m2 := Step(m1, Continue(t));
    var h2 := CloseInbox(h1, r);
    assert m2.heap == h2 && m2.busy == if empty then map[t := Collecting(name)] else map[];
    var m3 := Step(m2, Continue(t));
    assert m3.busy == map[] && m3.heap == if empty then Collect(h2, name) else h2;
    forall q | 0 <= q < |h.objects| && m3.heap.objects[q].peers != map[] ensures IsRegistered(m3.heap, q) {
      assert q != o ==> m3.heap.objects[q].peers == h.objects[q].peers;
      assert IsRegistered(h, q);
    }
  }
}
