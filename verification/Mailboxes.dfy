/** Bounded queues whose senders never wait: what finds no room is dropped. */
module Mailboxes {
  import opened Sequences

  /** An item a queue was offered, and how many were waiting in it then. */
  datatype Offer<T> = Offer(item: T, waiting: nat)

  /** `received` and `offers` record what came out and what was to go in. */
  datatype Mailbox<T> = Mailbox(queue: seq<T>, received: seq<T>, offers: seq<Offer<T>>)

  function EmptyBox<T>(): Mailbox<T> {
    Mailbox([], [], [])
  }

  function Put<T>(b: Mailbox<T>, item: T, capacity: nat): Mailbox<T> {
    var offered := b.(offers := b.offers + [Offer(item, |b.queue|)]);
    if |b.queue| >= capacity then offered else offered.(queue := b.queue + [item])
  }

  function Get<T>(b: Mailbox<T>): Mailbox<T> {
    if b.queue == [] then b else b.(queue := b.queue[1..], received := b.received + [b.queue[0]])
  }

  function Items<T>(offers: seq<Offer<T>>): seq<T>
    decreases |offers|
  {
    if offers == [] then [] else Items(offers[..|offers| - 1]) + [offers[|offers| - 1].item]
  }

  /** The items that found room. */
  function Accepted<T>(offers: seq<Offer<T>>, capacity: nat): seq<T>
    decreases |offers|
  {
    if offers == [] then [] else
    var front, last := Accepted(offers[..|offers| - 1], capacity), offers[|offers| - 1];
    if last.waiting < capacity then front + [last.item] else front
  }

  ghost predicate Conserves<T>(b: Mailbox<T>, capacity: nat) {
    b.received + b.queue == Accepted(b.offers, capacity) && |b.queue| <= capacity
  }

  lemma PutConserves<T>(b: Mailbox<T>, item: T, capacity: nat)
    requires Conserves(b, capacity)
    ensures Conserves(Put(b, item, capacity), capacity)
    ensures Items(Put(b, item, capacity).offers) == Items(b.offers) + [item]
  {
    var o := Offer(item, |b.queue|);
    assert (b.offers + [o])[..|b.offers|] == b.offers;
    assert b.received + (b.queue + [item]) == (b.received + b.queue) + [item];
  }

  lemma GetConserves<T>(b: Mailbox<T>, capacity: nat)
    requires Conserves(b, capacity)
    ensures Conserves(Get(b), capacity)
  {
    if b.queue != [] {
      assert (b.received + [b.queue[0]]) + b.queue[1..] == b.received + b.queue;
    }
  }

  lemma {:induction false} AcceptedIsSubsequence<T>(offers: seq<Offer<T>>, capacity: nat)
    ensures Subsequence(Accepted(offers, capacity), Items(offers))
    ensures |Accepted(offers, capacity)| <= |offers| == |Items(offers)|
    decreases |offers|
  {
    if offers != [] {
      var front, last := offers[..|offers| - 1], offers[|offers| - 1];
      AcceptedIsSubsequence(front, capacity);
      if last.waiting < capacity {
        BothLonger(Accepted(front, capacity), Items(front), last.item);
      } else {
        Longer(Accepted(front, capacity), Items(front), last.item);
      }
    }
  }

  lemma LastCancels<T>(a: seq<T>, b: seq<T>, x: T)
    ensures a + [x] == b + [x] <==> a == b
  {
    assert (a + [x])[..|a|] == a && (b + [x])[..|b|] == b;
  }

  predicate AlwaysRoom<T>(offers: seq<Offer<T>>, capacity: nat) {
    forall i :: 0 <= i < |offers| ==> offers[i].waiting < capacity
  }

  lemma RoomSplits<T>(front: seq<Offer<T>>, last: Offer<T>, capacity: nat)
    ensures AlwaysRoom(front + [last], capacity) <==> AlwaysRoom(front, capacity) && last.waiting < capacity
  {
    var all := front + [last];
    assert all[|front|] == last;
    assert forall i :: 0 <= i < |front| ==> all[i] == front[i];
  }

  /** Nothing is lost exactly if no offer met a full queue. */
  lemma {:induction false} LosslessExactly<T>(offers: seq<Offer<T>>, capacity: nat)
    ensures Accepted(offers, capacity) == Items(offers) <==> AlwaysRoom(offers, capacity)
    decreases |offers|
  {
    if offers != [] {
      var front, last := offers[..|offers| - 1], offers[|offers| - 1];
      LosslessExactly(front, capacity);
      AcceptedIsSubsequence(front, capacity);
      RoomSplits(front, last, capacity);
      assert front + [last] == offers;
      var kept, all := Accepted(front, capacity), Items(front);
      assert Accepted(offers, capacity) == if last.waiting < capacity then kept + [last.item] else kept;
      assert Items(offers) == all + [last.item];
      hide Subsequence, Accepted, Items, AlwaysRoom;
      LastCancels(kept, all, last.item);
      assert |kept| < |all + [last.item]|;
    }
  }
}
