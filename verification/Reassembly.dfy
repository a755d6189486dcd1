/** Splitting large payloads into chunks and putting them together again, per sequence number. */
module Reassembly {
  import opened Wire

  datatype Chunk = Chunk(total: nat, offset: nat, data: Bytes)

  /** Partial message of one sequence. */
  datatype Partial = Partial(buf: Bytes, got: nat)

  type Table = map<int, Partial>

  function Zeros(n: nat): (z: Bytes)
    ensures |z| == n
  {
    seq(n, _ => 0)
  }

  function Overwrite(buf: Bytes, c: Chunk): (out: Bytes)
    requires c.offset + |c.data| <= |buf|
    ensures |out| == |buf|
  {
    buf[..c.offset] + c.data + buf[c.offset + |c.data|..]
  }

  /** One chunk meets the partial message of its sequence (if any). */
  function FoldOne(p: Option<Partial>, c: Chunk): (Option<Partial>, Option<Bytes>) {
    var start := if p.Some? && |p.value.buf| == c.total then p.value else Partial(Zeros(c.total), 0);
    var end := c.offset + |c.data|;
    if end > |start.buf| then (Some(start), None) else
    var buf := Overwrite(start.buf, c);
    var got := start.got + |c.data|;
    if got >= c.total then (None, Some(buf)) else (Some(Partial(buf, got)), None)
  }

  function Lookup(t: Table, s: int): Option<Partial> {
    if s in t then Some(t[s]) else None
  }

  function Store(t: Table, s: int, p: Option<Partial>): Table {
    match p
    case None => t - {s}
    case Some(v) => t[s := v]
  }

  function Fold(t: Table, s: int, c: Chunk): (Table, Option<Bytes>) {
    var (p, out) := FoldOne(Lookup(t, s), c);
    (Store(t, s, p), out)
  }

  // ---------------------------------------------------------------- the classes

  class Assembler {
    const buf: array<byte>
    var got: nat

    ghost function State(): Partial
      reads this, buf
    {
      Partial(buf[..], got)
    }

    constructor (total: nat)
      ensures fresh(buf) && State() == Partial(Zeros(total), 0)
    {
      buf := new byte[total](_ => 0);
      got := 0;
    }

    method Write(offset: nat, data: Bytes)
      requires offset + |data| <= buf.Length
      modifies this, buf
      ensures State() == Partial(old(buf[..offset]) + data + old(buf[offset + |data|..]), old(got) + |data|)
    {
      forall i | 0 <= i < |data| {
        buf[offset + i] := data[i];
      }
      got := got + |data|;
    }
  }

  class Reassembler {
    var chunks: map<int, Assembler>
    ghost var Repr: set<object>

    ghost predicate Valid()
      reads this, Repr
      ensures Valid() ==> this in Repr
    {
      && this in Repr
      && (forall s :: s in chunks ==> chunks[s] in Repr && chunks[s].buf in Repr)
      && (forall s, t :: s in chunks && t in chunks && s != t ==>
            chunks[s] != chunks[t] && chunks[s].buf != chunks[t].buf)
    }

    ghost function Contents(): Table
      requires Valid()
      reads this, Repr
    {
      map s | s in chunks :: chunks[s].State()
    }

    constructor ()
      ensures Valid() && fresh(Repr) && Contents() == map[]
    {
      chunks := map[];
      Repr := {this};
    }

    method Insert(s: int, total: nat) returns (a: Assembler)
      requires Valid()
      modifies this
      ensures Valid() && fresh(Repr - old(Repr))
      ensures s in chunks && chunks[s] == a && a.buf.Length == total && a.State() == Partial(Zeros(total), 0)
      ensures Contents() == old(Contents())[s := a.State()]
    {
      a := new Assembler(total);
      chunks := chunks[s := a];
      Repr := Repr + {a, a.buf};
    }

    /** The partial message of `s`, started afresh when there is none of the announced size. */
    method Entry(s: int, total: nat) returns (a: Assembler)
      requires Valid()
      modifies this
      ensures Valid() && fresh(Repr - old(Repr))
      ensures s in chunks && chunks[s] == a && a.buf.Length == total
      ensures Contents() == old(Contents())[s := a.State()]
      ensures a.State() == (match Lookup(old(Contents()), s)
                            case Some(p) => if |p.buf| == total then p else Partial(Zeros(total), 0)
                            case None => Partial(Zeros(total), 0))
    {
      if s in chunks && chunks[s].buf.Length == total {
        return chunks[s];
      }
      a := Insert(s, total);
    }

    /** The Rust form of Entry: insert when absent, then replace on a size mismatch. */
    method EntryOrInsert(s: int, total: nat) returns (a: Assembler)
      requires Valid()
      modifies this
      ensures Valid() && fresh(Repr - old(Repr))
      ensures s in chunks && chunks[s] == a && a.buf.Length == total
      ensures Contents() == old(Contents())[s := a.State()]
      ensures a.State() == (match Lookup(old(Contents()), s)
                            case Some(p) => if |p.buf| == total then p else Partial(Zeros(total), 0)
                            case None => Partial(Zeros(total), 0))
    {
      if s !in chunks {
        a := Insert(s, total);
      }
      a := chunks[s];
      if a.buf.Length != total {
        a := Insert(s, total);
      }
    }

    method Fill(s: int, a: Assembler, offset: nat, data: Bytes)
      requires Valid() && s in chunks && chunks[s] == a
      requires offset + |data| <= a.buf.Length
      modifies a, a.buf
      ensures Valid()
      ensures a.State() == old(Partial(a.buf[..offset] + data + a.buf[offset + |data|..], a.got + |data|))
      ensures Contents() == old(Contents())[s := a.State()]
    {
      ghost var before := Contents();
      a.Write(offset, data);
      assert forall t :: t in chunks && t != s ==> chunks[t].State() == before[t];
    }

    method Take(s: int) returns (buf: array<byte>)
      requires Valid() && s in chunks
      modifies this
      ensures Valid() && Repr <= old(Repr)
      ensures buf == old(chunks[s].buf) && buf !in Repr
      ensures Contents() == old(Contents()) - {s}
    {
      var a := chunks[s];
      chunks := chunks - {s};
      Repr := Repr - {a, a.buf};
      return a.buf;
    }

    /** Go, TypeScript and Rust alike. A returned buffer has left the footprint: no later call writes it. */
    method Reassemble(s: int, c: Chunk) returns (out: array?<byte>)
      requires Valid()
      modifies Repr
      ensures Valid() && fresh(Repr - old(Repr)) && (out != null ==> out !in Repr)
      ensures Contents() == Fold(old(Contents()), s, c).0
      ensures (if out == null then None else Some(out[..])) == Fold(old(Contents()), s, c).1
    {
      ghost var before := Contents();
      FoldInSteps(before, s, c);
      hide Fold, FoldOne, Store, Zeros, Overwrite, Extended;
      var a := Entry(s, c.total);
      ghost var start := a.State();
      var end := c.offset + |c.data|;
      if end > a.buf.Length {
        return null;
      }
      Overwrites(before, s, start, Extended(start, c));
      out := Extend(s, a, c);
    }

    /** Copies the chunk in, and takes the message out once it is complete. */
    method Extend(s: int, a: Assembler, c: Chunk) returns (out: array?<byte>)
      requires Valid() && s in chunks && chunks[s] == a
      requires c.offset + |c.data| <= a.buf.Length == c.total
      modifies this, a, a.buf
      ensures Valid() && Repr <= old(Repr) && (out != null ==> out !in Repr)
      ensures var next := Extended(old(a.State()), c);
              if next.got >= c.total
              then out != null && out[..] == next.buf && Contents() == old(Contents()) - {s}
              else out == null && Contents() == old(Contents())[s := next]
    {
      Fill(s, a, c.offset, c.data);
      if a.got >= c.total {
        out := Take(s);
      } else {
        out := null;
      }
    }
  }

  function Extended(p: Partial, c: Chunk): Partial
    requires c.offset + |c.data| <= |p.buf|
  {
    Partial(p.buf[..c.offset] + c.data + p.buf[c.offset + |c.data|..], p.got + |c.data|)
  }

  /** Fold the way the classes go about it. */
  lemma FoldInSteps(t: Table, s: int, c: Chunk)
    ensures var start := match Lookup(t, s)
                         case Some(p) => if |p.buf| == c.total then p else Partial(Zeros(c.total), 0)
                         case None => Partial(Zeros(c.total), 0);
            if c.offset + |c.data| > |start.buf| then Fold(t, s, c) == (t[s := start], None) else
            var next := Extended(start, c);
            Fold(t, s, c) == if next.got >= c.total then (t - {s}, Some(next.buf)) else (t[s := next], None)
  {
  }

  lemma Overwrites(t: Table, s: int, a: Partial, b: Partial)
    ensures t[s := a][s := b] == t[s := b] && t[s := a] - {s} == t - {s}
  {
  }

  // ---------------------------------------------------------------- splitting

  function Min(a: int, b: int): int {
    if a <= b then a else b
  }

  /** The chunks of `payload` from `offset` on, as the send loops emit them. */
  function Split(payload: Bytes, offset: nat, size: nat): seq<Chunk>
    requires size > 0
    decreases |payload| - offset
  {
    if offset >= |payload| then [] else
    [Chunk(|payload|, offset, payload[offset..Min(offset + size, |payload|)])] + Split(payload, offset + size, size)
  }

  /** `c` carries its own part of `payload`. */
  predicate IsPiece(payload: Bytes, c: Chunk) {
    && c.total == |payload|
    && |c.data| > 0
    && c.offset + |c.data| <= |payload|
    && c.data == payload[c.offset..c.offset + |c.data|]
  }

  predicate Covers(c: Chunk, i: nat) {
    c.offset <= i < c.offset + |c.data|
  }

  ghost predicate Covered(cs: seq<Chunk>, i: nat) {
    exists c :: c in cs && Covers(c, i)
  }

  function Len(cs: seq<Chunk>): nat {
    if cs == [] then 0 else |cs[0].data| + Len(cs[1..])
  }

  lemma {:induction false} SplitPartitions(payload: Bytes, offset: nat, size: nat)
    requires size > 0
    ensures forall c :: c in Split(payload, offset, size) ==> IsPiece(payload, c)
    ensures forall i :: offset <= i < |payload| ==> Covered(Split(payload, offset, size), i)
    ensures Len(Split(payload, offset, size)) == if offset <= |payload| then |payload| - offset else 0
    decreases |payload| - offset
  {
    if offset < |payload| {
      var cs := Split(payload, offset, size);
      SplitPartitions(payload, offset + size, size);
      forall i | offset <= i < |payload|
        ensures Covered(cs, i)
      {
        if i < offset + size {
          assert cs[0] in cs && Covers(cs[0], i);
        } else {
          assert Covered(cs[1..], i);
          var c :| c in cs[1..] && Covers(c, i);
          assert c in cs;
        }
      }
    }
  }

  lemma {:induction false} LenAppends(a: seq<Chunk>, b: seq<Chunk>)
    ensures Len(a + b) == Len(a) + Len(b)
  {
    if a == [] {
      assert a + b == b;
    } else {
      assert (a + b)[1..] == a[1..] + b;
      LenAppends(a[1..], b);
    }
  }

  /** Taking one chunk out. */
  lemma Without(b: seq<Chunk>, j: nat)
    requires j < |b|
    ensures var rest := b[..j] + b[j + 1..];
            Len(b) == |b[j].data| + Len(rest) && multiset(b) == multiset{b[j]} + multiset(rest)
  {
    assert b == b[..j] + ([b[j]] + b[j + 1..]);
    LenAppends(b[..j], [b[j]] + b[j + 1..]);
    LenAppends(b[..j], b[j + 1..]);
    assert ([b[j]] + b[j + 1..])[1..] == b[j + 1..];
    assert multiset(b) == multiset(b[..j] + ([b[j]] + b[j + 1..]));
  }

  lemma WithoutHead(a: seq<Chunk>)
    requires a != []
    ensures Len(a) == |a[0].data| + Len(a[1..]) && multiset(a) == multiset{a[0]} + multiset(a[1..])
  {
    assert a == [a[0]] + a[1..];
  }

  lemma OneLess(c: Chunk, a: multiset<Chunk>, b: multiset<Chunk>)
    requires multiset{c} + a == multiset{c} + b
    ensures a == b
  {
    assert a == (multiset{c} + a) - multiset{c};
  }

  lemma Cancel(a: seq<Chunk>, b: seq<Chunk>, j: nat)
    requires multiset(a) == multiset(b) && a != [] && j < |b| && b[j] == a[0]
    ensures var rest := b[..j] + b[j + 1..];
            && multiset(a[1..]) == multiset(rest)
            && Len(a) == |a[0].data| + Len(a[1..]) && Len(b) == |a[0].data| + Len(rest)
  {
    hide Len;
    WithoutHead(a);
    Without(b, j);
    OneLess(a[0], multiset(a[1..]), multiset(b[..j] + b[j + 1..]));
  }

  lemma {:induction false} LenPermutes(a: seq<Chunk>, b: seq<Chunk>)
    requires multiset(a) == multiset(b)
    ensures Len(a) == Len(b)
    decreases |a|
  {
    if a == [] {
      assert |b| == |multiset(b)| == 0;
    } else {
      assert a[0] in multiset(b);
      var j :| 0 <= j < |b| && b[j] == a[0];
      hide Len;
      Cancel(a, b, j);
      LenPermutes(a[1..], b[..j] + b[j + 1..]);
    }
  }

  // ---------------------------------------------------------------- one sequence

  /** Feeds the chunks of one sequence; the payloads come out in completion order. */
  function RunOne(p: Option<Partial>, cs: seq<Chunk>): (Option<Partial>, seq<Bytes>)
    decreases |cs|
  {
    if cs == [] then (p, []) else
    var (q, out) := FoldOne(p, cs[0]);
    var (last, outs) := RunOne(q, cs[1..]);
    (last, if out.Some? then [out.value] + outs else outs)
  }

  /** Writing a piece makes its range agree with the payload and leaves the rest alone. */
  lemma OverwriteAgrees(payload: Bytes, buf: Bytes, cs: seq<Chunk>)
    requires |buf| == |payload| && cs != [] && IsPiece(payload, cs[0])
    requires forall i :: 0 <= i < |payload| ==> buf[i] == payload[i] || Covered(cs, i)
    ensures forall i :: 0 <= i < |payload| ==> Overwrite(buf, cs[0])[i] == payload[i] || Covered(cs[1..], i)
  {
  }

  /** With `stale` bytes already counted, the pieces still complete the payload on the last of them as long as
      the last one is longer than the stale count. */
  lemma {:induction false} Completes(payload: Bytes, p: Partial, cs: seq<Chunk>, stale: nat)
    requires |p.buf| == |payload| && cs != []
    requires forall c :: c in cs ==> IsPiece(payload, c)
    requires p.got + Len(cs) == |payload| + stale
    requires forall i :: 0 <= i < |payload| ==> p.buf[i] == payload[i] || Covered(cs, i)
    requires stale < |cs[|cs| - 1].data|
    ensures RunOne(Some(p), cs) == (None, [payload])
    decreases |cs|
  {
    assert IsPiece(payload, cs[0]);
    OverwriteAgrees(payload, p.buf, cs);
    var buf := Overwrite(p.buf, cs[0]);
    hide Overwrite;
    if |cs| == 1 {
      assert cs[1..] == [] && Len(cs[1..]) == 0;
      assert forall i :: 0 <= i < |payload| ==> !Covered(cs[1..], i);
      assert buf == payload;
      assert FoldOne(Some(p), cs[0]) == (None, Some(payload));
      assert [payload] + [] == [payload];
    } else {
      LastIsCounted(cs[1..]);
      var q := Partial(buf, p.got + |cs[0].data|);
      assert FoldOne(Some(p), cs[0]) == (Some(q), None);
      Completes(payload, q, cs[1..], stale);
    }
  }

  lemma LastIsCounted(cs: seq<Chunk>)
    requires cs != []
    ensures Len(cs) == Len(cs[..|cs| - 1]) + |cs[|cs| - 1].data|
  {
    var last := [cs[|cs| - 1]];
    assert cs == cs[..|cs| - 1] + last;
    LenAppends(cs[..|cs| - 1], last);
    assert Len(last) == |last[0].data|;
  }

  /** Too few bytes deliver nothing and leave a partial message behind. */
  lemma {:induction false} TooShortLingers(payload: Bytes, p: Option<Partial>, cs: seq<Chunk>)
    requires cs != [] || p.Some?
    requires forall c :: c in cs ==> IsPiece(payload, c)
    requires p.Some? ==> |p.value.buf| == |payload|
    requires (if p.Some? then p.value.got else 0) + Len(cs) < |payload|
    ensures RunOne(p, cs).0.Some? && RunOne(p, cs).1 == []
    decreases |cs|
  {
    if cs != [] {
      assert IsPiece(payload, cs[0]);
      TooShortLingers(payload, FoldOne(p, cs[0]).0, cs[1..]);
    }
  }

  lemma {:induction false} StaleCompletesEarly(payload: Bytes, p: Partial, cs: seq<Chunk>, stale: nat)
    requires |p.buf| == |payload| && cs != []
    requires forall c :: c in cs ==> IsPiece(payload, c)
    requires p.got < |payload| && p.got + Len(cs) == |payload| + stale
    requires |cs[|cs| - 1].data| <= stale < |payload|
    ensures RunOne(Some(p), cs).0.Some?
    decreases |cs|
  {
    assert IsPiece(payload, cs[0]);
    assert Len(cs) == |cs[0].data| + Len(cs[1..]);
    if p.got + |cs[0].data| >= |payload| {
      TooShortLingers(payload, None, cs[1..]);
    } else {
      StaleCompletesEarly(payload, FoldOne(Some(p), cs[0]).0.value, cs[1..], stale);
    }
  }

  /** A partial message of a different size, or none at all, does not disturb a new one. */
  predicate Clean(p: Option<Partial>, size: nat) {
    p.Some? ==> |p.value.buf| != size
  }

  /** Chunks of one payload in any order give the payload back on the last chunk, not before, and leave no
      state behind. */
  lemma AnyOrder(payload: Bytes, size: nat, p: Option<Partial>, cs: seq<Chunk>)
    requires size > 0 && payload != []
    requires multiset(cs) == multiset(Split(payload, 0, size))
    requires Clean(p, |payload|)
    ensures RunOne(p, cs) == (None, [payload])
    ensures forall k :: 0 <= k < |cs| ==> RunOne(p, cs[..k]).1 == []
  {
    hide FoldOne, Split, Zeros, RunOne;
    var clean := Partial(Zeros(|payload|), 0);
    PiecesOfPermutation(payload, size, cs);
    assert IsPiece(payload, cs[0]) && IsPiece(payload, cs[|cs| - 1]);
    Completes(payload, clean, cs, 0);
    CleanStart(p, cs);
    forall k | 0 <= k < |cs|
      ensures RunOne(p, cs[..k]).1 == []
    {
      if k > 0 {
        NothingEarly(payload, clean, cs, k);
        CleanStart(p, cs[..k]);
      } else {
        NothingYet(p);
        assert cs[..k] == [];
      }
    }
  }

  lemma NothingYet(p: Option<Partial>)
    ensures RunOne(p, []) == (p, [])
  {
  }

  lemma CleanStart(p: Option<Partial>, cs: seq<Chunk>)
    requires cs != [] && Clean(p, cs[0].total)
    ensures RunOne(p, cs) == RunOne(Some(Partial(Zeros(cs[0].total), 0)), cs)
  {
  }

  lemma NothingEarly(payload: Bytes, p: Partial, cs: seq<Chunk>, k: nat)
    requires |p.buf| == |payload| && p.got + Len(cs) == |payload|
    requires forall c :: c in cs ==> IsPiece(payload, c)
    requires k < |cs|
    ensures RunOne(Some(p), cs[..k]).1 == []
  {
    assert cs == cs[..k] + cs[k..];
    LenAppends(cs[..k], cs[k..]);
    assert Len(cs[k..]) >= |cs[k].data| && IsPiece(payload, cs[k]);
    TooShortLingers(payload, Some(p), cs[..k]);
  }

  lemma PiecesOfPermutation(payload: Bytes, size: nat, cs: seq<Chunk>)
    requires size > 0 && payload != []
    requires multiset(cs) == multiset(Split(payload, 0, size))
    ensures cs != [] && Len(cs) == |payload|
    ensures forall c :: c in cs ==> IsPiece(payload, c)
    ensures forall i :: 0 <= i < |payload| ==> Covered(cs, i)
  {
    var split := Split(payload, 0, size);
    SplitPartitions(payload, 0, size);
    LenPermutes(cs, split);
    forall c | c in cs ensures IsPiece(payload, c) {
      assert c in multiset(split);
    }
    forall i | 0 <= i < |payload| ensures Covered(cs, i) {
      assert Covered(split, i);
      var c :| c in split && Covers(c, i);
      assert c in multiset(cs);
    }
  }

  /** Bytes left over from an abandoned message of the same size are counted as progress. The next message
      survives exactly when there are fewer of them than its last chunk holds. */
  lemma StaleBytes(payload: Bytes, size: nat, p: Partial, cs: seq<Chunk>)
    requires size > 0 && payload != []
    requires multiset(cs) == multiset(Split(payload, 0, size))
    requires |p.buf| == |payload| && p.got < |payload|
    ensures cs != []
    ensures RunOne(Some(p), cs) == (None, [payload]) <==> p.got < |cs[|cs| - 1].data|
  {
    PiecesOfPermutation(payload, size, cs);
    if p.got < |cs[|cs| - 1].data| {
      Completes(payload, p, cs, p.got);
    } else {
      StaleCompletesEarly(payload, p, cs, p.got);
    }
  }

  // ---------------------------------------------------------------- all sequences at once

  datatype Arrival = Arrival(s: int, chunk: Chunk)
  datatype Delivery = Delivery(s: int, payload: Bytes)

  function Run(t: Table, arrivals: seq<Arrival>): (Table, seq<Delivery>)
    decreases |arrivals|
  {
    if arrivals == [] then (t, []) else
    var (u, out) := Fold(t, arrivals[0].s, arrivals[0].chunk);
    var (last, outs) := Run(u, arrivals[1..]);
    (last, if out.Some? then [Delivery(arrivals[0].s, out.value)] + outs else outs)
  }

  function ChunksOf(s: int, arrivals: seq<Arrival>): seq<Chunk> {
    if arrivals == [] then [] else
    var later := ChunksOf(s, arrivals[1..]);
    if arrivals[0].s == s then [arrivals[0].chunk] + later else later
  }

  function PayloadsOf(s: int, ds: seq<Delivery>): seq<Bytes> {
    if ds == [] then [] else
    var later := PayloadsOf(s, ds[1..]);
    if ds[0].s == s then [ds[0].payload] + later else later
  }

  /** Each sequence sees only its own chunks. */
  lemma {:induction false} SequencesAreIndependent(t: Table, arrivals: seq<Arrival>, s: int)
    ensures Lookup(Run(t, arrivals).0, s) == RunOne(Lookup(t, s), ChunksOf(s, arrivals)).0
    ensures PayloadsOf(s, Run(t, arrivals).1) == RunOne(Lookup(t, s), ChunksOf(s, arrivals)).1
    decreases |arrivals|
  {
    hide FoldOne;
    if arrivals != [] {
      var a, later := arrivals[0], ChunksOf(s, arrivals[1..]);
      var (q, out) := FoldOne(Lookup(t, a.s), a.chunk);
      var u := Store(t, a.s, q);
      SequencesAreIndependent(u, arrivals[1..], s);
      var outs := Run(u, arrivals[1..]).1;
      if out.Some? {
        assert ([Delivery(a.s, out.value)] + outs)[1..] == outs;
      }
      if a.s == s {
        assert Lookup(u, s) == q;
        assert ([a.chunk] + later)[1..] == later;
      } else {
        assert Lookup(u, s) == Lookup(t, s);
      }
    }
  }

  /** Splitting then reassembling is the identity: any order of the chunks, any interleaving with the chunks
      of other sequences. */
  lemma SplitThenReassemble(t: Table, arrivals: seq<Arrival>, s: int, payload: Bytes, size: nat)
    requires size > 0 && payload != [] && Clean(Lookup(t, s), |payload|)
    requires multiset(ChunksOf(s, arrivals)) == multiset(Split(payload, 0, size))
    ensures s !in Run(t, arrivals).0
    ensures PayloadsOf(s, Run(t, arrivals).1) == [payload]
    ensures forall k :: 0 <= k <= |arrivals| && |ChunksOf(s, arrivals[..k])| < |ChunksOf(s, arrivals)| ==>
              PayloadsOf(s, Run(t, arrivals[..k]).1) == []
  {
    hide Run, RunOne, ChunksOf, PayloadsOf, Split;
    AnyOrder(payload, size, Lookup(t, s), ChunksOf(s, arrivals));
    SequencesAreIndependent(t, arrivals, s);
    forall k | 0 <= k <= |arrivals| && |ChunksOf(s, arrivals[..k])| < |ChunksOf(s, arrivals)|
      ensures PayloadsOf(s, Run(t, arrivals[..k]).1) == []
    {
      SequencesAreIndependent(t, arrivals[..k], s);
      ChunksOfPrefix(s, arrivals, k);
      assert ChunksOf(s, arrivals[..k]) == ChunksOf(s, arrivals)[..|ChunksOf(s, arrivals[..k])|];
    }
  }

  lemma {:induction false} ChunksOfPrefix(s: int, arrivals: seq<Arrival>, k: nat)
    requires k <= |arrivals|
    ensures ChunksOf(s, arrivals[..k]) <= ChunksOf(s, arrivals)
    decreases k
  {
    if k > 0 {
      assert arrivals[..k][1..] == arrivals[1..][..k - 1];
      ChunksOfPrefix(s, arrivals[1..], k - 1);
    }
  }
}
