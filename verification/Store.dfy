/** The signaling server's in-memory store: its critical sections, and every interleaving of them. */
module Store {
  import opened Mailboxes

  const MAX_PEERS: nat := 10
  const INBOX_CAPACITY: nat := 32

  // ---------------------------------------------------------------- state

  datatype Message = Message(service: string, sender: string, body: int)

  /** `peers` maps ids to inboxes; `log` records the messages sent into this service. */
  datatype Service = Service(name: string, peers: map<string, nat>, log: seq<Message>)

  /** `service` is the object joined, `joinedAt` and `leftAt` delimit the stay in its log. */
  datatype Inbox = Inbox(id: string, service: nat, box: Mailbox<Message>, closed: bool, joinedAt: nat, leftAt: int)

  const STAYING: int := -1

  /** Objects and inboxes are referred to by their position; `registry` is the map from service names. */
  datatype Heap = Heap(registry: map<string, nat>, objects: seq<Service>, inboxes: seq<Inbox>)

  datatype JoinResult = Joined(inbox: nat) | AlreadyExists | Full

  // ---------------------------------------------------------------- critical sections

  predicate Knows(h: Heap, name: string) {
    name in h.registry && h.registry[name] < |h.objects|
  }

  function FindOrCreate(h: Heap, name: string): (Heap, nat) {
    if Knows(h, name) then (h, h.registry[name])
    else (Heap(h.registry[name := |h.objects|], h.objects + [Service(name, map[], [])], h.inboxes), |h.objects|)
  }

  function Insert(h: Heap, o: nat, id: string): (Heap, JoinResult)
    requires o < |h.objects|
  {
    var svc := h.objects[o];
    if id in svc.peers then (h, AlreadyExists)
    else if |svc.peers| >= MAX_PEERS then (h, Full)
    else
      (h.(objects := h.objects[o := svc.(peers := svc.peers[id := |h.inboxes|])],
          inboxes := h.inboxes + [Inbox(id, o, EmptyBox(), false, |svc.log|, STAYING)]),
       Joined(|h.inboxes|))
  }

  function Remove(h: Heap, o: nat, id: string): Heap
    requires o < |h.objects| && id in h.objects[o].peers && h.objects[o].peers[id] < |h.inboxes|
  {
    var svc, r := h.objects[o], h.objects[o].peers[id];
    h.(objects := h.objects[o := svc.(peers := svc.peers - {id})],
       inboxes := h.inboxes[r := h.inboxes[r].(leftAt := |svc.log|)])
  }

  function CloseInbox(h: Heap, r: nat): Heap
    requires r < |h.inboxes|
  {
    h.(inboxes := h.inboxes[r := h.inboxes[r].(closed := true)])
  }

  /** Looks the name up again: it may stand for another object by now. */
  function Collect(h: Heap, name: string): Heap {
    if Knows(h, name) && h.objects[h.registry[name]].peers == map[] then h.(registry := h.registry - {name}) else h
  }

  function Offered(b: Inbox, msg: Message): Inbox {
    b.(box := Put(b.box, msg, INBOX_CAPACITY))
  }

  predicate Hears(svc: Service, sender: string, ids: set<string>, r: nat, b: Inbox) {
    b.id in ids && b.id in svc.peers && svc.peers[b.id] == r && b.id != sender
  }

  /** Every inbox of the service whose id is among `ids`, other than the sender's, is offered the message. */
  function Spread(inboxes: seq<Inbox>, svc: Service, msg: Message, ids: set<string>): (out: seq<Inbox>)
    ensures |out| == |inboxes|
  {
    seq(|inboxes|, r requires 0 <= r < |inboxes| =>
      if Hears(svc, msg.sender, ids, r, inboxes[r]) then Offered(inboxes[r], msg) else inboxes[r])
  }

  function Send(h: Heap, sender: nat, body: int): Heap
    requires sender < |h.inboxes| && h.inboxes[sender].service < |h.objects|
  {
    var o := h.inboxes[sender].service;
    var svc := h.objects[o];
    var msg := Message(svc.name, h.inboxes[sender].id, body);
    h.(objects := h.objects[o := svc.(log := svc.log + [msg])],
       inboxes := Spread(h.inboxes, svc, msg, svc.peers.Keys))
  }

  function Receive(h: Heap, r: nat): Heap
    requires r < |h.inboxes|
  {
    h.(inboxes := h.inboxes[r := h.inboxes[r].(box := Get(h.inboxes[r].box))])
  }

  // ---------------------------------------------------------------- the class

  /** Each method is one critical section. */
  class Memory {
    var registry: map<string, nat>
    var objects: seq<Service>
    var inboxes: seq<Inbox>

    ghost function State(): Heap
      reads this
    {
      Heap(registry, objects, inboxes)
    }

    constructor ()
      ensures State() == Heap(map[], [], [])
    {
      registry, objects, inboxes := map[], [], [];
    }

    method ServiceForJoin(name: string) returns (o: nat)
      modifies this
      ensures (State(), o) == FindOrCreate(old(State()), name)
    {
      if name in registry && registry[name] < |objects| {
        return registry[name];
      }
      o := |objects|;
      objects := objects + [Service(name, map[], [])];
      registry := registry[name := o];
    }

    method InsertPeer(o: nat, id: string) returns (res: JoinResult)
      requires o < |objects|
      modifies this
      ensures (State(), res) == Insert(old(State()), o, id)
    {
      var svc := objects[o];
      if id in svc.peers {
        return AlreadyExists;
      }
      if |svc.peers| >= MAX_PEERS {
        return Full;
      }
      res := Joined(|inboxes|);
      objects := objects[o := svc.(peers := svc.peers[id := |inboxes|])];
      inboxes := inboxes + [Inbox(id, o, EmptyBox(), false, |svc.log|, STAYING)];
    }

    /** Returns the inbox taken out, if there was one, and whether the service is empty now. */
    method RemovePeer(o: nat, id: string) returns (r: nat, found: bool, empty: bool)
      requires o < |objects| && forall i :: i in objects[o].peers ==> objects[o].peers[i] < |inboxes|
      modifies this
      ensures found == (id in old(objects[o].peers))
      ensures State() == if found then Remove(old(State()), o, id) else old(State())
      ensures found ==> r == old(objects[o].peers)[id] && empty == (objects[o].peers == map[])
    {
      var svc := objects[o];
      if id !in svc.peers {
        return 0, false, false;
      }
      r, found := svc.peers[id], true;
      objects := objects[o := svc.(peers := svc.peers - {id})];
      inboxes := inboxes[r := inboxes[r].(leftAt := |svc.log|)];
      empty := |objects[o].peers| == 0;
    }

    method CloseOnce(r: nat)
      requires r < |inboxes|
      modifies this
      ensures State() == CloseInbox(old(State()), r)
      ensures |inboxes| == |old(inboxes)| && inboxes[r].closed
      ensures forall k :: 0 <= k < |inboxes| && k != r ==> inboxes[k] == old(inboxes[k])
    {
      if !inboxes[r].closed {
        inboxes := inboxes[r := inboxes[r].(closed := true)];
      }
    }

    method CollectIfEmpty(name: string)
      modifies this
      ensures State() == Collect(old(State()), name)
    {
      if name in registry && registry[name] < |objects| && |objects[registry[name]].peers| == 0 {
        registry := registry - {name};
      }
    }

    /** One turn of the loop over the peers. */
    method OfferToOne(ghost before: seq<Inbox>, svc: Service, msg: Message, ghost done: set<string>, id: string)
      requires id in svc.peers && id !in done && svc.peers[id] < |before| && before[svc.peers[id]].id == id
      requires inboxes == Spread(before, svc, msg, done)
      modifies this`inboxes
      ensures inboxes == Spread(before, svc, msg, done + {id})
    {
      SpreadOneMore(before, svc, msg, done, id);
      hide Spread, Offered;
      var r := svc.peers[id];
      if id != msg.sender {
        inboxes := inboxes[r := Offered(inboxes[r], msg)];
      }
    }

    method OfferToAll(svc: Service, msg: Message)
      requires forall id :: id in svc.peers ==> svc.peers[id] < |inboxes| && inboxes[svc.peers[id]].id == id
      modifies this`inboxes
      ensures inboxes == Spread(old(inboxes), svc, msg, svc.peers.Keys)
    {
      var todo := svc.peers.Keys;
      ghost var before := inboxes;
      SpreadToNobody(before, svc, msg);
      hide Spread, Offered, Hears;
      assert svc.peers.Keys - todo == {};
      while exists id :: id in todo
        invariant todo <= svc.peers.Keys
        invariant inboxes == Spread(before, svc, msg, svc.peers.Keys - todo)
        decreases |todo|
      {
        var id :| id in todo;
        OfferToOne(before, svc, msg, svc.peers.Keys - todo, id);
        assert svc.peers.Keys - (todo - {id}) == svc.peers.Keys - todo + {id};
        todo := todo - {id};
      }
      assert svc.peers.Keys - todo == svc.peers.Keys;
    }

    method Broadcast(sender: nat, body: int)
      requires sender < |inboxes| && inboxes[sender].service < |objects|
      requires forall id :: id in objects[inboxes[sender].service].peers ==>
                 var r := objects[inboxes[sender].service].peers[id]; r < |inboxes| && inboxes[r].id == id
      modifies this
      ensures State() == Send(old(State()), sender, body)
    {
      hide Spread;
      var o := inboxes[sender].service;
      var svc := objects[o];
      var msg := Message(svc.name, inboxes[sender].id, body);
      OfferToAll(svc, msg);
      objects := objects[o := svc.(log := svc.log + [msg])];
    }
  }

  lemma SpreadToNobody(inboxes: seq<Inbox>, svc: Service, msg: Message)
    ensures Spread(inboxes, svc, msg, {}) == inboxes
  {
  }

  lemma SpreadOneMore(inboxes: seq<Inbox>, svc: Service, msg: Message, ids: set<string>, id: string)
    requires id in svc.peers && svc.peers[id] < |inboxes| && inboxes[svc.peers[id]].id == id && id !in ids
    ensures var r, sofar := svc.peers[id], Spread(inboxes, svc, msg, ids);
            var next := if id == msg.sender then sofar else sofar[r := Offered(sofar[r], msg)];
            Spread(inboxes, svc, msg, ids + {id}) == next
  {
  }

  // ---------------------------------------------------------------- interleavings

  /** Where a goroutine stands between two critical sections of Join or Leave. */
  datatype Pc =
    | Joining(id: string, o: nat)
    | Leaving(id: string, name: string, o: nat)
    | Closing(r: nat, name: string, empty: bool)
    | Collecting(name: string)

  datatype State = State(heap: Heap, busy: map<int, Pc>)

  const INITIAL: State := State(Heap(map[], [], []), map[])

  datatype Act =
    | BeginJoin(t: int, id: string, name: string)
    | BeginLeave(t: int, id: string, name: string)
    | Continue(t: int)
    | Say(sender: nat, body: int)
    | Take(r: nat)

  function Go(m: State, h: Heap, t: int, pc: Pc): State {
    State(h, m.busy[t := pc])
  }

  function Finish(m: State, h: Heap, t: int): State {
    State(h, m.busy - {t})
  }

  function StepOn(m: State, t: int, pc: Pc): State {
    var h := m.heap;
    match pc
    case Joining(id, o) =>
      if o >= |h.objects| then m else Finish(m, Insert(h, o, id).0, t)
    case Leaving(id, name, o) =>
      if o >= |h.objects| then m
      else if id !in h.objects[o].peers || h.objects[o].peers[id] >= |h.inboxes| then Finish(m, h, t)
      else
        var next := Remove(h, o, id);
        Go(m, next, t, Closing(h.objects[o].peers[id], name, next.objects[o].peers == map[]))
    case Closing(r, name, empty) =>
      if r >= |h.inboxes| then m
      else if empty then Go(m, CloseInbox(h, r), t, Collecting(name)) else Finish(m, CloseInbox(h, r), t)
    case Collecting(name) => Finish(m, Collect(h, name), t)
  }

  function Step(m: State, act: Act): State {
    var h := m.heap;
    match act
    case BeginJoin(t, id, name) =>
      if t in m.busy || name == "" || id == "" then m else
      var (next, o) := FindOrCreate(h, name);
      Go(m, next, t, Joining(id, o))
    case BeginLeave(t, id, name) =>
      if t in m.busy || !Knows(h, name) then m else Go(m, h, t, Leaving(id, name, h.registry[name]))
    case Continue(t) => if t in m.busy then StepOn(m, t, m.busy[t]) else m
    case Say(sender, body) =>
      if sender < |h.inboxes| && h.inboxes[sender].service < |h.objects| then m.(heap := Send(h, sender, body)) else m
    case Take(r) => if r < |h.inboxes| then m.(heap := Receive(h, r)) else m
  }

  function Run(m: State, acts: seq<Act>): State
    decreases |acts|
  {
    if acts == [] then m else Step(Run(m, acts[..|acts| - 1]), acts[|acts| - 1])
  }

  // ---------------------------------------------------------------- safety

  /** The registry leads to objects of that name. */
  predicate RegistryOk(h: Heap) {
    forall n :: n in h.registry ==> h.registry[n] < |h.objects| && h.objects[h.registry[n]].name == n
  }

  /** Everything in a peers map is an open inbox of that very id and service, and there are at most ten. */
  ghost predicate PeersOk(h: Heap, o: nat)
    requires o < |h.objects|
  {
    && |h.objects[o].peers| <= MAX_PEERS
    && forall id :: id in h.objects[o].peers ==>
         var r := h.objects[o].peers[id];
         && r < |h.inboxes| && h.inboxes[r].id == id && h.inboxes[r].service == o
         && !h.inboxes[r].closed && h.inboxes[r].leftAt == STAYING
  }

  predicate InboxOk(h: Heap, r: nat)
    requires r < |h.inboxes|
  {
    var b := h.inboxes[r];
    && b.service < |h.objects|
    && (b.leftAt == STAYING ==> b.id in h.objects[b.service].peers && h.objects[b.service].peers[b.id] == r)
    && (b.closed ==> b.leftAt != STAYING)
  }

  predicate PcOk(h: Heap, pc: Pc) {
    match pc
    case Joining(_, o) => o < |h.objects|
    case Leaving(_, _, o) => o < |h.objects|
    case Closing(r, _, _) => r < |h.inboxes| && h.inboxes[r].leftAt != STAYING && !h.inboxes[r].closed
    case Collecting(_) => true
  }

  ghost predicate HeapOk(h: Heap) {
    && RegistryOk(h)
    && (forall o :: 0 <= o < |h.objects| ==> PeersOk(h, o))
    && (forall r :: 0 <= r < |h.inboxes| ==> InboxOk(h, r))
  }

  predicate BothClose(a: Pc, b: Pc) {
    a.Closing? && b.Closing? && a.r == b.r
  }

  ghost predicate Safe(m: State) {
    && HeapOk(m.heap)
    && (forall t :: t in m.busy ==> PcOk(m.heap, m.busy[t]))
    && (forall t, u :: t in m.busy && u in m.busy && BothClose(m.busy[t], m.busy[u]) ==> t == u)
  }

  lemma SpreadKeepsIdentity(h: Heap, svc: Service, msg: Message, ids: set<string>)
    ensures forall r :: 0 <= r < |h.inboxes| ==>
              var b, a := h.inboxes[r], Spread(h.inboxes, svc, msg, ids)[r];
              && a.id == b.id && a.service == b.service && a.closed == b.closed
              && a.leftAt == b.leftAt && a.joinedAt == b.joinedAt
  {
  }

  lemma SendKeepsSafe(m: State, sender: nat, body: int)
    requires Safe(m) && sender < |m.heap.inboxes|
    ensures m.heap.inboxes[sender].service < |m.heap.objects| && Safe(m.(heap := Send(m.heap, sender, body)))
  {
    var h := m.heap;
    assert InboxOk(h, sender);
    var o := h.inboxes[sender].service;
    var svc := h.objects[o];
    var msg := Message(svc.name, h.inboxes[sender].id, body);
    SpreadKeepsIdentity(h, svc, msg, svc.peers.Keys);
    hide Spread;
    var n := Send(h, sender, body);
    forall q | 0 <= q < |n.objects| ensures PeersOk(n, q) { assert PeersOk(h, q); }
    forall r | 0 <= r < |n.inboxes| ensures InboxOk(n, r) { assert InboxOk(h, r); }
  }

  lemma ReceiveKeepsSafe(m: State, r: nat)
    requires Safe(m) && r < |m.heap.inboxes|
    ensures Safe(m.(heap := Receive(m.heap, r)))
  {
    var h, n := m.heap, Receive(m.heap, r);
    forall q | 0 <= q < |n.objects| ensures PeersOk(n, q) { assert PeersOk(h, q); }
    forall k | 0 <= k < |n.inboxes| ensures InboxOk(n, k) { assert InboxOk(h, k); }
  }

  lemma BeginJoinKeepsSafe(m: State, t: int, id: string, name: string)
    requires Safe(m)
    ensures Safe(Step(m, BeginJoin(t, id, name)))
  {
    var h, n := m.heap, FindOrCreate(m.heap, name).0;
    forall q | 0 <= q < |n.objects| ensures PeersOk(n, q) { if q < |h.objects| { assert PeersOk(h, q); } }
    forall k | 0 <= k < |n.inboxes| ensures InboxOk(n, k) { assert InboxOk(h, k); }
    hide InboxOk, PeersOk;
  }

  lemma InsertKeepsPeers(h: Heap, o: nat, id: string, q: nat)
    requires o < |h.objects| && q < |h.objects| && PeersOk(h, q)
    ensures |Insert(h, o, id).0.objects| == |h.objects| && PeersOk(Insert(h, o, id).0, q)
  {
  }

  lemma InsertKeepsInbox(h: Heap, o: nat, id: string, k: nat)
    requires o < |h.objects| && k < |Insert(h, o, id).0.inboxes| && (k < |h.inboxes| ==> InboxOk(h, k))
    ensures InboxOk(Insert(h, o, id).0, k)
  {
  }

  lemma InsertKeepsHeap(h: Heap, o: nat, id: string)
    requires HeapOk(h) && o < |h.objects|
    ensures HeapOk(Insert(h, o, id).0)
  {
    var n := Insert(h, o, id).0;
    hide InboxOk, PeersOk;
    forall q | 0 <= q < |n.objects| ensures PeersOk(n, q) { InsertKeepsPeers(h, o, id, q); }
    forall k | 0 <= k < |n.inboxes| ensures InboxOk(n, k) { InsertKeepsInbox(h, o, id, k); }
  }

  lemma RemoveKeepsHeap(h: Heap, o: nat, id: string)
    requires HeapOk(h) && o < |h.objects| && id in h.objects[o].peers
    ensures h.objects[o].peers[id] < |h.inboxes| && HeapOk(Remove(h, o, id))
  {
    assert PeersOk(h, o);
    var n, r := Remove(h, o, id), h.objects[o].peers[id];
    forall q | 0 <= q < |n.objects| ensures PeersOk(n, q) { assert PeersOk(h, q); }
    forall k | 0 <= k < |n.inboxes| ensures InboxOk(n, k) { assert InboxOk(h, k); }
    hide InboxOk, PeersOk;
  }

  lemma CloseKeepsHeap(h: Heap, r: nat)
    requires HeapOk(h) && r < |h.inboxes| && h.inboxes[r].leftAt != STAYING
    ensures HeapOk(CloseInbox(h, r))
  {
    var n := CloseInbox(h, r);
    forall q | 0 <= q < |n.objects| ensures PeersOk(n, q) { assert PeersOk(h, q); }
    forall k | 0 <= k < |n.inboxes| ensures InboxOk(n, k) { assert InboxOk(h, k); }
  }

  lemma ContinueKeepsSafe(m: State, t: int)
    requires Safe(m) && t in m.busy
    ensures Safe(StepOn(m, t, m.busy[t]))
  {
    var h, n := m.heap, StepOn(m, t, m.busy[t]);
    assert PcOk(h, m.busy[t]);
    match m.busy[t]
    case Joining(id, o) =>
      InsertKeepsHeap(h, o, id);
      hide HeapOk;
    case Leaving(id, name, o) =>
      if id in h.objects[o].peers {
        RemoveKeepsHeap(h, o, id);
        assert PeersOk(h, o);
        hide HeapOk;
      }
    case Closing(r, name, empty) =>
      CloseKeepsHeap(h, r);
      hide HeapOk;
    case Collecting(name) =>
      forall q | 0 <= q < |h.objects| ensures PeersOk(n.heap, q) { assert PeersOk(h, q); }
      forall k | 0 <= k < |h.inboxes| ensures InboxOk(n.heap, k) { assert InboxOk(h, k); }
  }

  lemma StepKeepsSafe(m: State, act: Act)
    requires Safe(m)
    ensures Safe(Step(m, act))
  {
    hide HeapOk, PcOk, StepOn, Send, Receive;
    match act
    case BeginJoin(t, id, name) => BeginJoinKeepsSafe(m, t, id, name);
    case BeginLeave(t, id, name) => BeginLeaveKeepsSafe(m, t, id, name);
    case Continue(t) => if t in m.busy { ContinueKeepsSafe(m, t); }
    case Say(sender, body) => if sender < |m.heap.inboxes| { SendKeepsSafe(m, sender, body); }
    case Take(r) => if r < |m.heap.inboxes| { ReceiveKeepsSafe(m, r); }
  }

  lemma BeginLeaveKeepsSafe(m: State, t: int, id: string, name: string)
    requires Safe(m)
    ensures Safe(Step(m, BeginLeave(t, id, name)))
  {
  }

  lemma {:induction false} RunKeepsSafe(m: State, acts: seq<Act>)
    requires Safe(m)
    ensures Safe(Run(m, acts))
    decreases |acts|
  {
    if acts != [] {
      RunKeepsSafe(m, acts[..|acts| - 1]);
      hide Safe, Step;
      StepKeepsSafe(Run(m, acts[..|acts| - 1]), acts[|acts| - 1]);
    }
  }
}
