/** What holds of the signaling store under every interleaving of its critical sections. */
module StoreRuns {
  import opened Sequences
  import opened Mailboxes
  import opened Store

  // ---------------------------------------------------------------- closed channels

  /** The step would send on a closed channel, or close one again. */
  ghost predicate Faulty(m: State, act: Act) {
    match act
    case Say(sender, _) =>
      sender < |m.heap.inboxes| && m.heap.inboxes[sender].service < |m.heap.objects| &&
      exists r :: 0 <= r < |m.heap.inboxes|
        && Hears(m.heap.objects[m.heap.inboxes[sender].service], m.heap.inboxes[sender].id,
                 m.heap.objects[m.heap.inboxes[sender].service].peers.Keys, r, m.heap.inboxes[r])
        && m.heap.inboxes[r].closed
    case Continue(t) =>
      t in m.busy && m.busy[t].Closing? && m.busy[t].r < |m.heap.inboxes| && m.heap.inboxes[m.busy[t].r].closed
    case _ => false
  }

  /** In every interleaving no peers map holds a closed inbox or more than ten peers, no send meets a closed inbox
      and no inbox is closed a second time. */
  lemma StoreIsSafe(acts: seq<Act>, act: Act)
    ensures var m := Run(INITIAL, acts); Safe(m) && !Faulty(m, act)
  {
    RunKeepsSafe(INITIAL, acts);
    var m := Run(INITIAL, acts);
    hide Run;
    if act.Say? && act.sender < |m.heap.inboxes| {
      assert InboxOk(m.heap, act.sender);
      var o := m.heap.inboxes[act.sender].service;
      assert PeersOk(m.heap, o);
    } else if act.Continue? && act.t in m.busy {
      assert PcOk(m.heap, m.busy[act.t]);
    }
  }

  // ---------------------------------------------------------------- delivery

  function Others(log: seq<Message>, id: string): seq<Message>
    decreases |log|
  {
    if log == [] then [] else
    var front, last := Others(log[..|log| - 1], id), log[|log| - 1];
    if last.sender == id then front else front + [last]
  }

  /** The messages sent into the service while the inbox belonged to it. */
  function Stay(h: Heap, r: nat): seq<Message>
    requires r < |h.inboxes| && h.inboxes[r].service < |h.objects|
  {
    var b := h.inboxes[r];
    var log := h.objects[b.service].log;
    var end := if b.leftAt == STAYING then |log| else b.leftAt;
    if b.joinedAt <= end <= |log| then log[b.joinedAt..end] else []
  }

  ghost predicate MailOk(h: Heap, r: nat)
    requires r < |h.inboxes| && h.inboxes[r].service < |h.objects|
  {
    var b := h.inboxes[r];
    && b.joinedAt <= |h.objects[b.service].log|
    && (b.leftAt != STAYING ==> b.joinedAt <= b.leftAt <= |h.objects[b.service].log|)
    && Items(b.box.offers) == Others(Stay(h, r), b.id)
    && Conserves(b.box, INBOX_CAPACITY)
  }

  ghost predicate AllMail(h: Heap) {
    forall r :: 0 <= r < |h.inboxes| ==> h.inboxes[r].service < |h.objects| && MailOk(h, r)
  }

  lemma OthersAppends(log: seq<Message>, msg: Message, id: string)
    ensures Others(log + [msg], id) == if msg.sender == id then Others(log, id) else Others(log, id) + [msg]
  {
  }

  /** Send offers the message to exactly those who are in the sender's service now under another id. */
  lemma SendReaches(h: Heap, sender: nat, body: int, r: nat)
    requires HeapOk(h) && sender < |h.inboxes| && r < |h.inboxes|
    ensures h.inboxes[sender].service < |h.objects| && h.inboxes[r].service < |h.objects|
    ensures var n, b, from := Send(h, sender, body), h.inboxes[r], h.inboxes[sender];
            var msg := Message(h.objects[from.service].name, from.id, body);
            && |n.inboxes| == |h.inboxes| && |n.objects| == |h.objects|
            && n.inboxes[r] ==
                 (if b.service == from.service && b.leftAt == STAYING && b.id != from.id then Offered(b, msg) else b)
            && n.objects[b.service].log == h.objects[b.service].log + if b.service == from.service then [msg] else []
  {
    assert InboxOk(h, sender) && InboxOk(h, r);
    assert PeersOk(h, h.inboxes[sender].service);
    hide Offered, PeersOk, InboxOk;
  }

  lemma SendKeepsMailOf(h: Heap, sender: nat, body: int, r: nat)
    requires HeapOk(h) && sender < |h.inboxes| && r < |h.inboxes|
    requires h.inboxes[r].service < |h.objects| && MailOk(h, r)
    ensures h.inboxes[sender].service < |h.objects|
    ensures var n := Send(h, sender, body);
            |n.inboxes| == |h.inboxes| && n.inboxes[r].service < |n.objects| && MailOk(n, r)
  {
    SendReaches(h, sender, body, r);
    hide HeapOk, Send, MailOk, Offered;
    var n, b, from := Send(h, sender, body), h.inboxes[r], h.inboxes[sender];
    var msg := Message(h.objects[from.service].name, from.id, body);
    if b.service == from.service && b.leftAt == STAYING {
      PresentKeepsMail(h, n, r, msg);
    } else {
      var log := h.objects[b.service].log;
      assert log + [] == log;
      AbsentKeepsMail(h, n, r, msg);
    }
  }

  /** A peer in the service is offered the message, unless it is its own. */
  lemma PresentKeepsMail(h: Heap, n: Heap, r: nat, msg: Message)
    requires r < |h.inboxes| && r < |n.inboxes| && h.inboxes[r].service < |h.objects| == |n.objects| && MailOk(h, r)
    requires var b := h.inboxes[r];
             && b.leftAt == STAYING && n.objects[b.service].log == h.objects[b.service].log + [msg]
             && n.inboxes[r] == if b.id != msg.sender then Offered(b, msg) else b
    ensures n.inboxes[r].service < |n.objects| && MailOk(n, r)
  {
    var b := h.inboxes[r];
    PutConserves(b.box, msg, INBOX_CAPACITY);
    assert Stay(n, r) == Stay(h, r) + [msg];
    OthersAppends(Stay(h, r), msg, b.id);
    hide Stay, Others, Items, Conserves, Put;
  }

  /** For the others at most the log has grown behind their stay. */
  lemma AbsentKeepsMail(h: Heap, n: Heap, r: nat, msg: Message)
    requires r < |h.inboxes| && r < |n.inboxes| && h.inboxes[r].service < |h.objects| == |n.objects| && MailOk(h, r)
    requires var b := h.inboxes[r];
             && n.inboxes[r] == b
             && (n.objects[b.service].log == h.objects[b.service].log
                 || (b.leftAt != STAYING && n.objects[b.service].log == h.objects[b.service].log + [msg]))
    ensures n.inboxes[r].service < |n.objects| && MailOk(n, r)
  {
    assert Stay(n, r) == Stay(h, r);
    hide Stay, Others, Items, Conserves;
  }

  lemma SendKeepsMail(h: Heap, sender: nat, body: int)
    requires HeapOk(h) && AllMail(h) && sender < |h.inboxes|
    ensures h.inboxes[sender].service < |h.objects| && AllMail(Send(h, sender, body))
  {
    hide HeapOk, MailOk, Send;
    SendReaches(h, sender, body, sender);
    var n := Send(h, sender, body);
    forall r | 0 <= r < |n.inboxes| ensures n.inboxes[r].service < |n.objects| && MailOk(n, r) {
      SendKeepsMailSize(h, sender, body);
      SendKeepsMailOf(h, sender, body, r);
    }
  }

  lemma SendKeepsMailSize(h: Heap, sender: nat, body: int)
    requires sender < |h.inboxes| && h.inboxes[sender].service < |h.objects|
    ensures |Send(h, sender, body).inboxes| == |h.inboxes|
  {
  }

  /** A step that keeps the logs and, of each old inbox, the offers made to it. */
  lemma MailDependsOn(h: Heap, n: Heap, r: nat)
    requires r < |h.inboxes| && r < |n.inboxes| && h.inboxes[r].service < |h.objects| && MailOk(h, r)
    requires var a, b := n.inboxes[r], h.inboxes[r];
             && a.service == b.service && a.id == b.id && a.joinedAt == b.joinedAt
             && a.box.offers == b.box.offers && (Conserves(b.box, INBOX_CAPACITY) ==> Conserves(a.box, INBOX_CAPACITY))
             && b.service < |n.objects| && n.objects[b.service].log == h.objects[b.service].log
             && (a.leftAt == b.leftAt || (b.leftAt == STAYING && a.leftAt == |h.objects[b.service].log|))
    ensures MailOk(n, r)
  {
  }

  lemma BeginJoinKeepsMail(h: Heap, name: string)
    requires AllMail(h)
    ensures AllMail(FindOrCreate(h, name).0)
  {
    var n := FindOrCreate(h, name).0;
    hide MailOk;
    forall r | 0 <= r < |n.inboxes| ensures n.inboxes[r].service < |n.objects| && MailOk(n, r) {
      MailDependsOn(h, n, r);
    }
  }

  lemma InsertKeepsMail(h: Heap, o: nat, id: string)
    requires AllMail(h) && o < |h.objects|
    ensures AllMail(Insert(h, o, id).0)
  {
  }

  lemma RemoveKeepsMailOf(h: Heap, o: nat, id: string, r: nat)
    requires o < |h.objects| && id in h.objects[o].peers && h.objects[o].peers[id] < |h.inboxes|
    requires var left := h.inboxes[h.objects[o].peers[id]]; left.service == o && left.leftAt == STAYING
    requires r < |h.inboxes| && h.inboxes[r].service < |h.objects| && MailOk(h, r)
    ensures var n := Remove(h, o, id);
            |n.inboxes| == |h.inboxes| && n.inboxes[r].service < |n.objects| && MailOk(n, r)
  {
    hide MailOk, Conserves;
    MailDependsOn(h, Remove(h, o, id), r);
  }

  lemma RemoveKeepsMail(h: Heap, o: nat, id: string)
    requires HeapOk(h) && AllMail(h) && o < |h.objects| && id in h.objects[o].peers
    ensures h.objects[o].peers[id] < |h.inboxes| && AllMail(Remove(h, o, id))
  {
    assert PeersOk(h, o);
    hide MailOk, HeapOk, PeersOk, Remove;
    var n := Remove(h, o, id);
    RemoveKeepsMailOf(h, o, id, h.objects[o].peers[id]);
    forall r | 0 <= r < |n.inboxes| ensures n.inboxes[r].service < |n.objects| && MailOk(n, r) {
      RemoveKeepsMailOf(h, o, id, r);
    }
  }

  lemma CloseKeepsMail(h: Heap, r: nat)
    requires AllMail(h) && r < |h.inboxes|
    ensures AllMail(CloseInbox(h, r))
  {
    hide MailOk;
    var n := CloseInbox(h, r);
    forall k | 0 <= k < |n.inboxes| ensures n.inboxes[k].service < |n.objects| && MailOk(n, k) {
      MailDependsOn(h, n, k);
    }
  }

  lemma CollectKeepsMail(h: Heap, name: string)
    requires AllMail(h)
    ensures AllMail(Collect(h, name))
  {
  }

  lemma ReceiveKeepsMail(h: Heap, r: nat)
    requires AllMail(h) && r < |h.inboxes|
    ensures AllMail(Receive(h, r))
  {
    var n := Receive(h, r);
    assert MailOk(h, r);
    GetConserves(h.inboxes[r].box, INBOX_CAPACITY);
    hide MailOk, Conserves;
    forall k | 0 <= k < |n.inboxes| ensures n.inboxes[k].service < |n.objects| && MailOk(n, k) {
      MailDependsOn(h, n, k);
    }
  }

  lemma ContinueKeepsMail(m: State, t: int)
    requires Safe(m) && AllMail(m.heap) && t in m.busy
    ensures AllMail(StepOn(m, t, m.busy[t]).heap)
  {
    hide AllMail, HeapOk, Insert, Remove, CloseInbox, Collect;
    var h := m.heap;
    assert PcOk(h, m.busy[t]);
    match m.busy[t]
    case Joining(id, o) => InsertKeepsMail(h, o, id);
    case Leaving(id, name, o) => if id in h.objects[o].peers { RemoveKeepsMail(h, o, id); }
    case Closing(r, name, empty) => CloseKeepsMail(h, r);
    case Collecting(name) => CollectKeepsMail(h, name);
  }

  lemma StepKeepsMail(m: State, act: Act)
    requires Safe(m) && AllMail(m.heap)
    ensures AllMail(Step(m, act).heap)
  {
    hide AllMail, StepOn, FindOrCreate, Send, Receive;
    match act
    case BeginJoin(t, id, name) => BeginJoinKeepsMail(m.heap, name);
    case BeginLeave(t, id, name) =>
    case Continue(t) => if t in m.busy { ContinueKeepsMail(m, t); }
    case Say(sender, body) => if sender < |m.heap.inboxes| { SendKeepsMail(m.heap, sender, body); }
    case Take(r) => if r < |m.heap.inboxes| { ReceiveKeepsMail(m.heap, r); }
  }

  lemma {:induction false} RunKeepsMail(acts: seq<Act>)
    ensures AllMail(Run(INITIAL, acts).heap)
    decreases |acts|
  {
    if acts != [] {
      RunKeepsMail(acts[..|acts| - 1]);
      RunKeepsSafe(INITIAL, acts[..|acts| - 1]);
      hide Safe, AllMail, Step;
      StepKeepsMail(Run(INITIAL, acts[..|acts| - 1]), acts[|acts| - 1]);
    }
  }

  lemma {:induction false} NeverItsOwn(log: seq<Message>, id: string)
    ensures forall i :: 0 <= i < |Others(log, id)| ==> Others(log, id)[i].sender != id
    decreases |log|
  {
    if log != [] {
      NeverItsOwn(log[..|log| - 1], id);
    }
  }

  /** For every peer, at every moment of every run: what it received and what waits for it are, in order, the
      messages other ids sent into its service during its stay, less exactly those that met 32 waiting. */
  lemma DeliveryIsBestEffort(acts: seq<Act>, r: nat)
    requires r < |Run(INITIAL, acts).heap.inboxes|
    ensures var h := Run(INITIAL, acts).heap;
            var b := h.inboxes[r];
            && b.service < |h.objects|
            && Items(b.box.offers) == Others(Stay(h, r), b.id)
            && b.box.received + b.box.queue == Accepted(b.box.offers, INBOX_CAPACITY) && |b.box.queue| <= INBOX_CAPACITY
            && Subsequence(b.box.received + b.box.queue, Others(Stay(h, r), b.id))
            && (forall i :: 0 <= i < |b.box.received| ==> b.box.received[i].sender != b.id)
  {
    RunKeepsMail(acts);
    var h := Run(INITIAL, acts).heap;
    var b := h.inboxes[r];
    assert MailOk(h, r);
    hide Run, Stay;
    AcceptedIsSubsequence(b.box.offers, INBOX_CAPACITY);
    NeverItsOwn(Stay(h, r), b.id);
    var got := b.box.received + b.box.queue;
    hide Others, Items, Accepted;
    forall i | 0 <= i < |b.box.received| ensures b.box.received[i].sender != b.id {
      assert b.box.received[i] == got[i];
      SubsequenceMembers(got, Others(Stay(h, r), b.id), i);
    }
  }
}
