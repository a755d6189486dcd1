/** The TypeScript AsyncQueue: a FIFO with asynchronous receive. */
module AsyncQueues {
  import opened Wire

  /** `resolvers` holds the pending receive calls as tickets (the k-th call to recv has ticket k);
      `settled` maps a ticket to what its promise resolved to (None is the EOF null);
      `log` records every accepted item. */
  datatype Queue<T> = Queue(items: seq<T>, resolvers: seq<nat>, closed: bool,
                            log: seq<T>, issued: nat, settled: map<nat, Option<T>>)

  function Empty<T>(): Queue<T> {
    Queue([], [], false, [], 0, map[])
  }

  function AfterPush<T>(q: Queue<T>, x: T): Queue<T> {
    if q.closed then q
    else if q.resolvers != [] then
      q.(resolvers := q.resolvers[1..], settled := q.settled[q.resolvers[0] := Some(x)], log := q.log + [x])
    else q.(items := q.items + [x], log := q.log + [x])
  }

  /** Resolves with null, last come first, every waiter beyond the buffered items. */
  function PopWaiting<T>(q: Queue<T>): Queue<T>
    decreases |q.resolvers|
  {
    if |q.resolvers| <= |q.items| then q else
    var last := |q.resolvers| - 1;
    PopWaiting(q.(resolvers := q.resolvers[..last], settled := q.settled[q.resolvers[last] := None]))
  }

  function AfterClose<T>(q: Queue<T>): Queue<T> {
    if q.closed then q else PopWaiting(q.(closed := true))
  }

  function AfterRecv<T>(q: Queue<T>): Queue<T> {
    var ticket, p := q.issued, q.(issued := q.issued + 1);
    if q.items != [] then p.(items := q.items[1..], settled := q.settled[ticket := Some(q.items[0])])
    else if q.closed then p.(settled := q.settled[ticket := None])
    else p.(resolvers := q.resolvers + [ticket])
  }

  class AsyncQueue<T(==)> {
    var items: seq<T>
    var resolvers: seq<nat>
    var closed: bool
    var issued: nat
    ghost var log: seq<T>
    ghost var settled: map<nat, Option<T>>

    ghost function State(): Queue<T>
      reads this
    {
      Queue(items, resolvers, closed, log, issued, settled)
    }

    constructor ()
      ensures State() == Empty()
    {
      items, resolvers, closed, issued := [], [], false, 0;
      log, settled := [], map[];
    }

    method Push(item: T)
      modifies this
      ensures State() == AfterPush(old(State()), item)
    {
      if closed {
        return;
      }
      if |resolvers| > 0 {
        settled := settled[resolvers[0] := Some(item)];
        resolvers := resolvers[1..];
      } else {
        items := items + [item];
      }
      log := log + [item];
    }

    method Close()
      modifies this
      ensures State() == AfterClose(old(State()))
    {
      if closed {
        return;
      }
      closed := true;
      while |resolvers| > |items|
        invariant PopWaiting(State()) == AfterClose(old(State()))
        decreases |resolvers|
      {
        settled := settled[resolvers[|resolvers| - 1] := None];
        resolvers := resolvers[..|resolvers| - 1];
      }
    }

    method Recv() returns (ticket: nat)
      modifies this
      ensures State() == AfterRecv(old(State())) && ticket == old(issued)
    {
      ticket := issued;
      issued := issued + 1;
      if |items| > 0 {
        settled := settled[ticket := Some(items[0])];
        items := items[1..];
      } else if closed {
        settled := settled[ticket := None];
      } else {
        resolvers := resolvers + [ticket];
      }
    }
  }

  // ---------------------------------------------------------------- what every operation keeps

  /** Tickets below this one have been settled, the others wait. */
  function Served<T>(q: Queue<T>): int {
    q.issued - |q.resolvers|
  }

  /** What ticket `k` resolves to once it is settled. */
  function Answer<T>(log: seq<T>, k: nat): Option<T> {
    if k < |log| then Some(log[k]) else None
  }

  ghost predicate Consistent<T>(q: Queue<T>) {
    && Served(q) >= 0
    && q.items == (if Served(q) <= |q.log| then q.log[Served(q)..] else [])
    && (q.closed ==> q.resolvers == [])
    && (!q.closed ==> Served(q) <= |q.log|)
    && (q.resolvers != [] ==> Served(q) == |q.log|)
    && (forall i :: 0 <= i < |q.resolvers| ==> q.resolvers[i] == Served(q) + i)
    && (forall k: nat :: k in q.settled <==> k < Served(q))
    && (forall k: nat :: k in q.settled ==> q.settled[k] == Answer(q.log, k))
  }

  lemma PushKeeps<T>(q: Queue<T>, x: T)
    requires Consistent(q)
    ensures Consistent(AfterPush(q, x))
  {
  }

  lemma RecvKeeps<T>(q: Queue<T>)
    requires Consistent(q)
    ensures Consistent(AfterRecv(q))
  {
  }

  /** Popping from the back settles exactly the waiters, all with null. */
  lemma {:induction false} PopWaitingSettlesAll<T>(q: Queue<T>)
    requires q.items == []
    ensures var r := PopWaiting(q);
            && r.(settled := q.settled) == q.(resolvers := [])
            && (forall k: nat :: k in r.settled <==> k in q.settled || k in q.resolvers)
            && (forall k: nat :: k in q.resolvers ==> r.settled[k] == None)
            && (forall k: nat :: k in q.settled && k !in q.resolvers ==> r.settled[k] == q.settled[k])
    decreases |q.resolvers|
  {
    if q.resolvers != [] {
      var last := |q.resolvers| - 1;
      assert q.resolvers == q.resolvers[..last] + [q.resolvers[last]];
      PopWaitingSettlesAll(q.(resolvers := q.resolvers[..last], settled := q.settled[q.resolvers[last] := None]));
    }
  }

  lemma CloseKeeps<T>(q: Queue<T>)
    requires Consistent(q)
    ensures Consistent(AfterClose(q)) && AfterClose(q).closed
    ensures AfterClose(q).log == q.log && AfterClose(q).issued == q.issued
  {
    if !q.closed {
      if q.resolvers != [] {
        PopWaitingSettlesAll(q.(closed := true));
        forall k: nat ensures k in q.resolvers <==> Served(q) <= k < q.issued {
          if Served(q) <= k < q.issued {
            assert q.resolvers[k - Served(q)] == k;
          }
        }
      }
    }
  }

  lemma AfterCloseKeepsLog<T>(q: Queue<T>)
    ensures AfterClose(q).log == q.log && AfterClose(q).closed
  {
    if !q.closed {
      PopWaitingKeepsLog(q.(closed := true));
    }
  }

  lemma {:induction false} PopWaitingKeepsLog<T>(q: Queue<T>)
    ensures var p := PopWaiting(q); p.log == q.log && p.closed == q.closed && p.issued == q.issued
    decreases |q.resolvers|
  {
    if |q.resolvers| > |q.items| {
      var last := |q.resolvers| - 1;
      PopWaitingKeepsLog(q.(resolvers := q.resolvers[..last], settled := q.settled[q.resolvers[last] := None]));
    }
  }

  // ---------------------------------------------------------------- whole histories

  datatype Op<T> = DoPush(item: T) | DoClose | DoRecv

  function Step<T>(q: Queue<T>, op: Op<T>): Queue<T> {
    match op
    case DoPush(x) => AfterPush(q, x)
    case DoClose => AfterClose(q)
    case DoRecv => AfterRecv(q)
  }

  function History<T>(ops: seq<Op<T>>): Queue<T>
    decreases |ops|
  {
    if ops == [] then Empty() else Step(History(ops[..|ops| - 1]), ops[|ops| - 1])
  }

  /** The reference: items pushed before the first close, whether there was a close, and the receive calls. */
  function PushedBeforeClose<T>(ops: seq<Op<T>>): seq<T>
    decreases |ops|
  {
    if ops == [] then [] else
    var earlier := ops[..|ops| - 1];
    var last := ops[|ops| - 1];
    if last.DoPush? && !HasClose(earlier) then PushedBeforeClose(earlier) + [last.item] else PushedBeforeClose(earlier)
  }

  predicate HasClose<T>(ops: seq<Op<T>>) {
    exists i :: 0 <= i < |ops| && ops[i].DoClose?
  }

  function Receives<T>(ops: seq<Op<T>>): nat
    decreases |ops|
  {
    if ops == [] then 0 else Receives(ops[..|ops| - 1]) + if ops[|ops| - 1].DoRecv? then 1 else 0
  }

  lemma {:induction false} HistoryMatchesLog<T>(ops: seq<Op<T>>)
    ensures Consistent(History(ops))
    ensures History(ops).log == PushedBeforeClose(ops)
    ensures History(ops).closed <==> HasClose(ops)
    ensures History(ops).issued == Receives(ops)
    decreases |ops|
  {
    if ops != [] {
      var earlier, last := ops[..|ops| - 1], ops[|ops| - 1];
      HistoryMatchesLog(earlier);
      var q := History(earlier);
      assert HasClose(ops) <==> HasClose(earlier) || last.DoClose?;
      match last
      case DoPush(x) => PushKeeps(q, x);
      case DoClose => CloseKeeps(q);
      case DoRecv => RecvKeeps(q);
    }
  }

  /** What a consistent queue has told its callers: ticket `k` holds the k-th item of the log, or null when the
      queue is closed with at most `k` items, and otherwise still waits. */
  lemma Answers<T>(q: Queue<T>, k: nat)
    requires Consistent(q) && k < q.issued
    ensures k in q.settled <==> k < |q.log| || q.closed
    ensures k in q.settled ==> q.settled[k] == Answer(q.log, k)
    ensures k in q.resolvers <==> k !in q.settled
  {
    if k >= Served(q) {
      assert q.resolvers[k - Served(q)] == k;
    }
  }

  /** The queue is a FIFO log: over every sequence of push, recv and close calls the k-th receive resolves to
      the k-th item pushed before the first close, to null exactly when there is no such item and a close came,
      and is pending otherwise. Items and waiters never coexist, and a closed queue has no waiter. */
  lemma RefinesLog<T>(ops: seq<Op<T>>, k: nat)
    ensures var q, log := History(ops), PushedBeforeClose(ops);
            && (q.items == [] || q.resolvers == [])
            && (HasClose(ops) ==> q.resolvers == [])
            && (k in q.settled <==> k < Receives(ops) && (k < |log| || HasClose(ops)))
            && (k in q.settled ==> q.settled[k] == Answer(log, k))
  {
    HistoryMatchesLog(ops);
    if k < Receives(ops) {
      Answers(History(ops), k);
    }
  }
}
