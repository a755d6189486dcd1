/** The Go Client: sequence numbers, and the Attach loop against callers that open, read and give up. */
module GoClient {
  import opened Wire
  import opened Frames
  import opened Receiving
  import Reassembly

  // ---------------------------------------------------------------- sequence numbers

  const UINT32: nat := 0x1_0000_0000
  const INT31: nat := 0x8000_0000
  const CYCLE: nat := 0x4000_0000

  /** The k-th number handed out. */
  function Sequence(k: nat): nat {
    (3 + 2 * k) % INT31
  }

  class Allocator {
    var counter: nat
    ghost var count: nat

    ghost predicate Valid()
      reads this
    {
      counter == (1 + 2 * count) % UINT32
    }

    constructor ()
      ensures Valid() && count == 0
    {
      counter, count := 1, 0;
    }

    /** Adds 2 in 32 bits and drops the top bit. */
    method NextSeq() returns (s: nat)
      requires Valid()
      modifies this
      ensures Valid() && count == old(count) + 1
      ensures s == Sequence(old(count))
    {
      Wraps(1 + 2 * count, 2);
      TopBitDrops(3 + 2 * count);
      counter := (counter + 2) % UINT32;
      count := count + 1;
      s := counter % INT31;
    }
  }

  lemma Wraps(n: nat, d: nat)
    ensures (n % UINT32 + d) % UINT32 == (n + d) % UINT32
  {
  }

  lemma TopBitDrops(n: nat)
    ensures n % UINT32 % INT31 == n % INT31
  {
  }

  /** Every number is odd and a positive int32, and two allocations get the same number exactly if a multiple of
      2^30 allocations lies between them. */
  lemma SequencesCycle(i: nat, j: nat)
    requires i <= j
    ensures Sequence(i) % 2 == 1 && 1 <= Sequence(i) < INT31
    ensures Sequence(i) == Sequence(j) <==> (j - i) % CYCLE == 0
  {
  }

  lemma Distinct(i: nat, j: nat)
    requires Sequence(i) == Sequence(j) && i < CYCLE && j < CYCLE
    ensures i == j
  {
  }

  // ---------------------------------------------------------------- calls and the Attach loop

  /** `ends` counts how often the end channel was closed; `openedAt` records how many frames had been read before,
      `frames` the frames found to be this call's, `log` the payloads delivered to it, `eofs` the receives that
      returned on the end channel, `cleaned` that its caller gave it up. A `waiting` caller is in its select. */
  datatype Call = Call(ends: nat, result: Option<Status>, cleaned: bool, header: Metadata, trailer: Metadata,
                       inbound: seq<Bytes>, waiting: bool, received: seq<Bytes>, eofs: nat,
                       openedAt: nat, frames: seq<Response>, log: seq<Bytes>)

  function NewCall(openedAt: nat): Call {
    Call.Call(0, None, false, map[], map[], [], false, [], 0, openedAt, [], [])
  }

  const INBOUND_CAPACITY: nat := 16
  const UNAVAILABLE: int := 14

  /** Where the Attach goroutine stands; Handling holds the stream found for a frame. */
  datatype Pc =
    | Reading
    | Handling(r: nat, body: Response)
    | Delivering(r: nat, payload: Bytes)
    | Deleting(r: nat)
    | Returned

  /** The k-th call opened has number Sequence(k); `streams` maps numbers to calls. */
  datatype Cli = Cli(calls: seq<Call>, streams: map<nat, nat>, reasm: Reassembly.Table, pc: Pc,
                     read: seq<ResponseFrame>)

  const INITIAL: Cli := Cli([], map[], map[], Reading, [])

  datatype Act =
    | Open
    | Look(frame: ResponseFrame)
    | Handle | Push | GiveUp | Delete
    | FailAll(message: string)
    | Cleanup(r: nat)
    | RecvTry(r: nat) | Await(r: nat) | RecvTake(r: nat) | RecvEnd(r: nat) | RecvCancelled(r: nat)

  function Merge(into: Metadata, more: Metadata): Metadata {
    map k | k in into.Keys + more.Keys ::
      (if k in into then into[k] else []) + (if k in more then more[k] else [])
  }

  function Set(c: Cli, r: nat, call: Call): Cli
    requires r < |c.calls|
  {
    c.(calls := c.calls[r := call])
  }

  function Finish(call: Call, status: Status): Call {
    if call.ends > 0 then call else call.(ends := 1, result := Some(status))
  }

  /** What a frame does to its call and the partial messages, and the payload it completes, if any. */
  function Hear(call: Call, t: Reassembly.Table, s: nat, body: Response): (Call, Reassembly.Table, Option<Bytes>) {
    match body
    case Begin(header, inline) =>
      (call.(header := Merge(call.header, header)), t,
       if inline.Some? && |inline.value| > 0 then inline else None)
    case ResponseData(content) =>
      (match content
       case Message(data) => (call, t, Some(data))
       case Piece(chunk) => var (u, full) := Reassembly.Fold(t, s, chunk); (call, u, full)
       case NoContent => (call, t, None))
    case ResponseEnd(status, trailer) =>
      (Finish(call.(trailer := Merge(call.trailer, trailer)), Final(status)), t, None)
    case NoResponse => (call, t, None)
  }

  /** The body of dispatch once the stream is found. */
  function Dispatch(c: Cli, r: nat, body: Response): Cli
    requires r < |c.calls|
  {
    var (call, t, payload) := Hear(c.calls[r].(frames := c.calls[r].frames + [body]), c.reasm, Sequence(r), body);
    var log := if payload.Some? then call.log + [payload.value] else call.log;
    c.(calls := c.calls[r := call.(log := log)], reasm := t,
       pc := if payload.Some? then Delivering(r, payload.value) else if body.ResponseEnd? then Deleting(r) else Reading)
  }

  function AllFailed(c: Cli, status: Status): seq<Call> {
    seq(|c.calls|, r requires 0 <= r < |c.calls| =>
      if r in c.streams.Values then Finish(c.calls[r], status) else c.calls[r])
  }

  predicate OfCaller(act: Act) {
    act.RecvTry? || act.Await? || act.RecvTake? || act.RecvEnd? || act.RecvCancelled?
  }

  function TakeOne(call: Call): Call {
    if call.inbound == [] then call else
    call.(received := call.received + [call.inbound[0]], inbound := call.inbound[1..])
  }

  /** ClientStream.Recv looks first without waiting; a unary call waits at once. The select may pick any ready
      case. */
  function Receive(call: Call, act: Act): Call {
    match act
    case RecvTry(_) =>
      if call.waiting then call else if call.inbound != [] then TakeOne(call) else call.(waiting := true)
    case Await(_) => call.(waiting := true)
    case RecvTake(_) => if !call.waiting || call.inbound == [] then call else TakeOne(call).(waiting := false)
    case RecvEnd(_) => if !call.waiting || call.ends == 0 then call else call.(waiting := false, eofs := call.eofs + 1)
    case RecvCancelled(_) => call.(waiting := false)
    case _ => call
  }

  function Step(c: Cli, act: Act): Cli {
    match act
    case Open =>
      c.(calls := c.calls + [NewCall(|c.read|)], streams := c.streams[Sequence(|c.calls|) := |c.calls|])
    case Look(f) =>
      if c.pc != Reading then c else
      c.(read := c.read + [f],
         pc := if f.sequence >= 0 && f.sequence in c.streams then Handling(c.streams[f.sequence], f.body) else Reading)
    case Handle =>
      if c.pc.Handling? && c.pc.r < |c.calls| then Dispatch(c, c.pc.r, c.pc.body) else c
    case Push =>
      if !c.pc.Delivering? || c.pc.r >= |c.calls| then c else
      var call := c.calls[c.pc.r];
      if |call.inbound| >= INBOUND_CAPACITY then c else
      Set(c, c.pc.r, call.(inbound := call.inbound + [c.pc.payload])).(pc := Reading)
    case GiveUp =>
      if c.pc.Delivering? && c.pc.r < |c.calls| && c.calls[c.pc.r].ends > 0 then c.(pc := Reading) else c
    case Delete => if c.pc.Deleting? then c.(streams := c.streams - {Sequence(c.pc.r)}, pc := Reading) else c
    case FailAll(message) =>
      if c.pc != Reading then c
      else c.(calls := AllFailed(c, Status(UNAVAILABLE, message)), streams := map[], pc := Returned)
    case Cleanup(r) =>
      if r >= |c.calls| then c else
      Set(c, r, c.calls[r].(cleaned := true)).(streams := c.streams - {Sequence(r)})
    case _ => if act.r < |c.calls| then Set(c, act.r, Receive(c.calls[act.r], act)) else c
  }

  function Run(acts: seq<Act>): Cli
    decreases |acts|
  {
    if acts == [] then INITIAL else Step(Run(acts[..|acts| - 1]), acts[|acts| - 1])
  }

  // ---------------------------------------------------------------- how calls end

  predicate PcOk(c: Cli) {
    match c.pc
    case Handling(r, _) => r < |c.calls| && c.calls[r].ends == 0
    case Delivering(r, _) => r < |c.calls| && c.calls[r].ends == 0
    case Deleting(r) => r < |c.calls| && c.calls[r].ends == 1
    case _ => true
  }

  predicate StreamsOk(c: Cli) {
    forall s :: s in c.streams ==>
      c.streams[s] < |c.calls| && s == Sequence(c.streams[s])
      && (c.calls[c.streams[s]].ends == 0 || c.pc == Deleting(c.streams[s]))
  }

  ghost predicate CallsOk(c: Cli) {
    forall r :: 0 <= r < |c.calls| ==> c.calls[r].ends <= 1 && (c.calls[r].result.Some? <==> c.calls[r].ends == 1)
  }

  /** A call that is neither ended nor given up is in the map, as long as its number is not used again. */
  predicate Tracked(c: Cli) {
    |c.calls| <= CYCLE ==>
      forall r :: 0 <= r < |c.calls| && c.calls[r].ends == 0 && !c.calls[r].cleaned ==>
        Sequence(r) in c.streams && c.streams[Sequence(r)] == r
  }

  ghost predicate Inv(c: Cli) {
    PcOk(c) && StreamsOk(c) && CallsOk(c) && Tracked(c)
  }

  lemma HearKeepsCall(call: Call, t: Reassembly.Table, s: nat, body: Response)
    requires call.ends == 0 && call.result == None
    ensures var (n, _, payload) := Hear(call, t, s, body);
            && n.cleaned == call.cleaned && n.ends == (if body.ResponseEnd? then 1 else 0)
            && (n.result.Some? <==> n.ends == 1) && (body.ResponseEnd? ==> payload == None)
            && n.received == call.received && n.inbound == call.inbound && n.waiting == call.waiting
            && n.log == call.log && n.frames == call.frames
  {
    hide Reassembly.Fold, Merge;
  }

  lemma DispatchKeepsCalls(c: Cli, r: nat, body: Response)
    requires r < |c.calls| && CallsOk(c) && c.calls[r].ends == 0
    ensures var d := Dispatch(c, r, body);
            && CallsOk(d) && |d.calls| == |c.calls| && d.streams == c.streams
            && (forall k :: 0 <= k < |c.calls| && k != r ==> d.calls[k] == c.calls[k])
            && d.calls[r].cleaned == c.calls[r].cleaned
            && (d.calls[r].ends == if body.ResponseEnd? then 1 else 0)
            && (d.pc == Reading || (d.pc.Delivering? && d.pc.r == r && !body.ResponseEnd?) || d.pc == Deleting(r))
            && (body.ResponseEnd? <==> d.pc == Deleting(r))
  {
    HearKeepsCall(c.calls[r].(frames := c.calls[r].frames + [body]), c.reasm, Sequence(r), body);
    hide Hear, Sequence;
  }

  lemma HandleKeeps(c: Cli)
    requires Inv(c)
    ensures Inv(Step(c, Handle))
  {
    hide Dispatch, Sequence;
    if c.pc.Handling? {
      DispatchKeepsCalls(c, c.pc.r, c.pc.body);
    }
  }

  lemma OpenKeeps(c: Cli)
    requires Inv(c)
    ensures Inv(Step(c, Open))
  {
    var k := |c.calls|;
    var d := Step(c, Open);
    if |d.calls| <= CYCLE {
      forall r | 0 <= r < k && Sequence(r) == Sequence(k) ensures false { Distinct(r, k); }
    }
    hide Sequence;
  }

  /** Taking one call's number out of the map takes no other call out. */
  lemma NumbersApart(c: Cli, q: nat)
    requires q < |c.calls|
    ensures |c.calls| <= CYCLE ==> forall r :: 0 <= r < |c.calls| && Sequence(r) == Sequence(q) ==> r == q
  {
    if |c.calls| <= CYCLE {
      forall r | 0 <= r < |c.calls| && Sequence(r) == Sequence(q) ensures r == q { Distinct(r, q); }
    }
  }

  lemma CleanupKeeps(c: Cli, q: nat)
    requires Inv(c)
    ensures Inv(Step(c, Cleanup(q)))
  {
    if q < |c.calls| { NumbersApart(c, q); }
    hide Sequence, Dispatch;
  }

  lemma DeleteKeeps(c: Cli)
    requires Inv(c)
    ensures Inv(Step(c, Delete))
  {
    if c.pc.Deleting? { NumbersApart(c, c.pc.r); }
    hide Sequence, Dispatch;
  }

  lemma StepKeepsInv(c: Cli, act: Act)
    requires Inv(c)
    ensures Inv(Step(c, act))
  {
    match act
    case Open => OpenKeeps(c); hide *;
    case Handle => HandleKeeps(c); hide *;
    case Cleanup(r) => CleanupKeeps(c, r); hide *;
    case Delete => DeleteKeeps(c); hide *;
    case FailAll(_) => FailAllKeeps(c, act); hide *;
    case Look(_) => LookKeeps(c, act); hide *;
    case _ => if OfCaller(act) { CallerKeeps(c, act); } else { PushKeeps(c, act); } hide *;
  }

  lemma LookKeeps(c: Cli, act: Act)
    requires Inv(c) && act.Look?
    ensures Inv(Step(c, act))
  {
    hide Sequence, Dispatch;
  }

  lemma PushKeeps(c: Cli, act: Act)
    requires Inv(c) && (act.Push? || act.GiveUp?)
    ensures Inv(Step(c, act))
  {
    hide Sequence, Dispatch, Receive;
  }

  /** A caller that receives changes nothing about how its call ends. */
  lemma ReceiveKeepsEnding(call: Call, act: Act)
    ensures var n := Receive(call, act);
            && n.ends == call.ends && n.result == call.result && n.cleaned == call.cleaned
            && n.log == call.log && n.openedAt == call.openedAt && n.frames == call.frames
  {
  }

  lemma CallerKeeps(c: Cli, act: Act)
    requires Inv(c) && OfCaller(act)
    ensures Inv(Step(c, act))
  {
    if act.r < |c.calls| {
      ReceiveKeepsEnding(c.calls[act.r], act);
      assert Step(c, act) == Set(c, act.r, Receive(c.calls[act.r], act));
      hide Receive, Step, Inv, Set;
      SameEndingKeeps(c, act.r, Receive(c.calls[act.r], act));
    }
    hide Sequence, Receive;
  }

  lemma SameEndingKeeps(c: Cli, r: nat, n: Call)
    requires Inv(c) && r < |c.calls|
    requires n.ends == c.calls[r].ends && n.result == c.calls[r].result && n.cleaned == c.calls[r].cleaned
    ensures Inv(Set(c, r, n))
  {
    hide Sequence;
  }

  lemma FailAllKeeps(c: Cli, act: Act)
    requires Inv(c) && act.FailAll?
    ensures Inv(Step(c, act))
  {
    hide Sequence, Dispatch, Receive;
    assert forall s :: s in c.streams ==> c.streams[s] in c.streams.Values;
    assert forall r :: r in c.streams.Values ==> exists s :: s in c.streams && c.streams[s] == r;
  }

  lemma {:induction false} RunKeepsInv(acts: seq<Act>)
    ensures Inv(Run(acts))
    decreases |acts|
  {
    if acts != [] {
      RunKeepsInv(acts[..|acts| - 1]);
      hide Inv, Step;
      StepKeepsInv(Run(acts[..|acts| - 1]), acts[|acts| - 1]);
    }
  }

  /** What no later step may undo. */
  predicate EndingKept(before: Call, after: Call) {
    && (before.ends == 1 ==> after.ends == 1 && after.result == before.result)
    && (before.cleaned ==> after.cleaned)
  }

  lemma StepKeepsEnding(c: Cli, act: Act, r: nat)
    requires Inv(c) && r < |c.calls|
    ensures r < |Step(c, act).calls| && EndingKept(c.calls[r], Step(c, act).calls[r])
  {
    hide Sequence, Dispatch, Receive, Tracked;
    if act.Handle? && c.pc.Handling? {
      DispatchKeepsCalls(c, c.pc.r, c.pc.body);
    } else if OfCaller(act) && act.r < |c.calls| {
      ReceiveKeepsEnding(c.calls[act.r], act);
    }
  }

  lemma {:induction false} EndingStays(acts: seq<Act>, more: seq<Act>, r: nat)
    requires r < |Run(acts).calls|
    ensures r < |Run(acts + more).calls| && EndingKept(Run(acts).calls[r], Run(acts + more).calls[r])
    decreases |more|
  {
    hide Run, Step, Inv;
    if more == [] {
      assert acts + more == acts;
    } else {
      var front, last := more[..|more| - 1], more[|more| - 1];
      EndingStays(acts, front, r);
      RunKeepsInv(acts + front);
      assert acts + more == (acts + front) + [last];
      RunAppends(acts + front, last);
      StepKeepsEnding(Run(acts + front), last, r);
    }
  }

  /** Through any further run an ended call keeps its result and is not ended again. */
  lemma EndingIsFinal(acts: seq<Act>, more: seq<Act>, r: nat)
    requires r < |Run(acts).calls|
    ensures r < |Run(acts + more).calls|
    ensures var before, after := Run(acts).calls[r], Run(acts + more).calls[r];
            && after.ends <= 1 && (after.result.Some? <==> after.ends == 1)
            && EndingKept(before, after)
  {
    EndingStays(acts, more, r);
    RunKeepsInv(acts + more);
    hide Run, Tracked, StreamsOk, PcOk;
  }

  lemma RunAppends(acts: seq<Act>, act: Act)
    ensures Run(acts + [act]) == Step(Run(acts), act)
  {
    assert (acts + [act])[..|acts|] == acts;
    hide Step;
  }

  /** The End frame of a call and its removal from the map; the transport failing ends every call in the map, and
      leaves none there: a call opened before then has ended or was given up by its caller. */
  lemma FailureEndsEverything(acts: seq<Act>, message: string)
    requires var c := Run(acts); c.pc == Reading && |c.calls| <= CYCLE
    ensures var c, d := Run(acts), Run(acts + [FailAll(message)]);
            && d.streams == map[] && |d.calls| == |c.calls|
            && forall r :: 0 <= r < |d.calls| ==>
                 && d.calls[r].ends + (if d.calls[r].cleaned then 1 else 0) >= 1
                 && (c.calls[r].ends == 0 && !c.calls[r].cleaned ==>
                       d.calls[r].result == Some(Status(UNAVAILABLE, message)))
  {
    var c := Run(acts);
    RunKeepsInv(acts);
    assert (acts + [FailAll(message)])[..|acts|] == acts;
    assert Run(acts + [FailAll(message)]) == Step(c, FailAll(message));
    hide Run, Sequence;
    var d := Step(c, FailAll(message));
    forall r | 0 <= r < |c.calls| && c.calls[r].ends == 0 && !c.calls[r].cleaned ensures r in c.streams.Values {
      assert c.streams[Sequence(r)] == r;
    }
  }

  /** An End frame found for a call ends it with the frame's status and takes its number out of the map. */
  lemma EndFrameEnds(acts: seq<Act>, status: Option<Status>, trailer: Metadata)
    requires var c := Run(acts); c.pc.Handling? && c.pc.body == ResponseEnd(status, trailer)
    ensures var c := Run(acts);
            var d := Step(Step(c, Handle), Delete);
            && c.pc.r < |d.calls| && d.calls[c.pc.r].ends == 1 && d.calls[c.pc.r].result == Some(Final(status))
            && Sequence(c.pc.r) !in d.streams && d.pc == Reading
  {
    RunKeepsInv(acts);
    hide Run, Merge, Sequence;
  }

  // ---------------------------------------------------------------- delivery

  /** While the Attach loop waits for room in a call's inbound channel, that call has not ended, and cannot: the
      second case of deliver's select is never ready, so only the reader of that one call lets the loop go on. */
  lemma OnlyTheReaderReleases(acts: seq<Act>, act: Act)
    requires Run(acts).pc.Delivering? && act != Push
    ensures var c, d := Run(acts), Step(Run(acts), act);
            && d.pc == c.pc && |d.calls| >= |c.calls|
            && (forall r :: 0 <= r < |c.calls| ==>
                  d.calls[r].log == c.calls[r].log && d.calls[r].ends == c.calls[r].ends)
  {
    RunKeepsInv(acts);
    assert PcOk(Run(acts));
    hide *;
    DeliveringStays(Run(acts), act);
  }

  lemma DeliveringStays(c: Cli, act: Act)
    requires PcOk(c) && c.pc.Delivering? && act != Push
    ensures var d := Step(c, act);
            && d.pc == c.pc && |d.calls| >= |c.calls|
            && (forall r :: 0 <= r < |c.calls| ==>
                  d.calls[r].log == c.calls[r].log && d.calls[r].ends == c.calls[r].ends)
  {
    if OfCaller(act) && act.r < |c.calls| { ReceiveKeepsEnding(c.calls[act.r], act); }
    hide Sequence, Dispatch, Receive, AllFailed;
  }

  function InHand(c: Cli, r: nat): seq<Bytes> {
    if c.pc.Delivering? && c.pc.r == r then [c.pc.payload] else []
  }

  /** The payloads carried by one call's frames. */
  function Take(st: Stream, b: Response): Stream {
    match b
    case Begin(_, inline) => if inline.Some? && |inline.value| > 0 then Append(st, inline.value) else st
    case ResponseData(content) => AbsorbOne(st, content)
    case _ => st
  }

  function Taken(bodies: seq<Response>): Stream {
    AfterReading(Take, FRESH, bodies)
  }

  predicate CallDelivers(c: Cli, r: nat)
    requires r < |c.calls|
  {
    var call, st := c.calls[r], Taken(c.calls[r].frames);
    Flows(call, InHand(c, r)) && call.log == st.log && !st.closed
  }

  /** Everything delivered was received, waits, or is in hand. */
  predicate Flows(call: Call, hand: seq<Bytes>) {
    call.received + call.inbound + hand == call.log && |call.inbound| <= INBOUND_CAPACITY
  }

  predicate TableFits(c: Cli, r: nat)
    requires r < |c.calls|
  {
    Taken(c.calls[r].frames).partial == Reassembly.Lookup(c.reasm, Sequence(r))
  }

  predicate TableKnown(c: Cli) {
    forall s :: s in c.reasm ==> exists r :: 0 <= r < |c.calls| && s == Sequence(r)
  }

  ghost predicate Delivers(c: Cli) {
    && TableKnown(c)
    && forall r :: 0 <= r < |c.calls| ==> CallDelivers(c, r) && TableFits(c, r)
  }

  lemma TakenAppends(bodies: seq<Response>, b: Response)
    ensures Taken(bodies + [b]) == Take(Taken(bodies), b)
  {
    ReadingAppends(Take, FRESH, bodies, b);
    hide AfterReading;
  }

  /** The payload a frame completes is the one its sequence's view takes. */
  lemma HearTakes(call: Call, t: Reassembly.Table, s: nat, body: Response, st: Stream)
    requires st.log == call.log && !st.closed && st.partial == Reassembly.Lookup(t, s)
    ensures var (n, u, payload) := Hear(call, t, s, body);
            var after := Take(st, body);
            && after.log == (if payload.Some? then n.log + [payload.value] else n.log) && !after.closed
            && after.partial == Reassembly.Lookup(u, s)
            && forall k :: k != s ==> Reassembly.Lookup(u, k) == Reassembly.Lookup(t, k)
  {
    hide Reassembly.FoldOne, Merge;
  }

  function Handed(payload: Option<Bytes>): seq<Bytes> {
    if payload.Some? then [payload.value] else []
  }

  lemma DispatchInParts(c: Cli, r: nat, body: Response)
    requires r < |c.calls|
    ensures var d := Dispatch(c, r, body);
            var (n, t, payload) := Hear(c.calls[r].(frames := c.calls[r].frames + [body]), c.reasm, Sequence(r), body);
            && |d.calls| == |c.calls| && d.reasm == t && InHand(d, r) == Handed(payload)
            && d.calls[r] == n.(log := if payload.Some? then n.log + [payload.value] else n.log)
            && forall k: nat :: k != r ==> InHand(d, k) == [] && (k < |c.calls| ==> d.calls[k] == c.calls[k])
  {
    hide Hear, Sequence;
  }

  /** What one frame does to the call it is for. */
  lemma DispatchDelivers(c: Cli, r: nat, body: Response)
    requires r < |c.calls| && c.pc == Handling(r, body) && CallDelivers(c, r) && TableFits(c, r) && CallsOk(c)
    requires c.calls[r].ends == 0
    ensures |Dispatch(c, r, body).calls| == |c.calls|
    ensures CallDelivers(Dispatch(c, r, body), r) && TableFits(Dispatch(c, r, body), r)
  {
    var call := c.calls[r].(frames := c.calls[r].frames + [body]);
    assert InHand(c, r) == [];
    hide Dispatch, Hear, InHand, Sequence, Taken, Take, Reassembly.Lookup, Flows, Handed;
    DispatchInParts(c, r, body);
    TakenAppends(c.calls[r].frames, body);
    HearTakes(call, c.reasm, Sequence(r), body, Taken(c.calls[r].frames));
    HearKeepsCall(call, c.reasm, Sequence(r), body);
    HandOver(c.calls[r], Dispatch(c, r, body).calls[r], Hear(call, c.reasm, Sequence(r), body).2);
  }

  lemma HandOver(call: Call, next: Call, payload: Option<Bytes>)
    requires Flows(call, []) && next.received == call.received && next.inbound == call.inbound
    requires next.log == if payload.Some? then call.log + [payload.value] else call.log
    ensures Flows(next, Handed(payload))
  {
    assert call.received + call.inbound + [] == call.received + call.inbound;
  }

  /** And nothing to any other. */
  lemma DispatchIsLocal(c: Cli, r: nat, body: Response, k: nat)
    requires r < |c.calls| && k < |c.calls| && k != r && Sequence(k) != Sequence(r) && c.pc == Handling(r, body)
    requires CallDelivers(c, k) && TableFits(c, k) && CallDelivers(c, r) && TableFits(c, r)
    ensures |Dispatch(c, r, body).calls| == |c.calls|
    ensures CallDelivers(Dispatch(c, r, body), k) && TableFits(Dispatch(c, r, body), k)
  {
    var call := c.calls[r].(frames := c.calls[r].frames + [body]);
    assert InHand(c, k) == [];
    hide Dispatch, Hear, InHand, Sequence, Taken, Take, Reassembly.Lookup, Flows, Handed;
    DispatchInParts(c, r, body);
    HearTakes(call, c.reasm, Sequence(r), body, Taken(c.calls[r].frames));
  }

  lemma DispatchTable(c: Cli, r: nat, body: Response)
    requires r < |c.calls| && TableKnown(c)
    ensures TableKnown(Dispatch(c, r, body))
  {
  }

  lemma HandleDelivers(c: Cli)
    requires Inv(c) && Delivers(c) && |c.calls| <= CYCLE
    ensures Delivers(Step(c, Handle))
  {
    if c.pc.Handling? {
      var r, body := c.pc.r, c.pc.body;
      var d := Dispatch(c, r, body);
      DispatchTable(c, r, body);
      DispatchKeepsCalls(c, r, body);
      forall k | 0 <= k < |d.calls| ensures CallDelivers(d, k) && TableFits(d, k) {
        if k == r {
          DispatchDelivers(c, r, body);
        } else {
          if Sequence(k) == Sequence(r) { Distinct(k, r); }
          DispatchIsLocal(c, r, body, k);
        }
      }
      hide *;
    }
  }

  lemma OpenDelivers(c: Cli)
    requires PcOk(c) && Delivers(c) && |c.calls| < CYCLE
    ensures Delivers(Step(c, Open))
  {
    var n, d := |c.calls|, Step(c, Open);
    if Sequence(n) in c.reasm {
      var r :| 0 <= r < n && Sequence(n) == Sequence(r);
      Distinct(r, n);
    }
    assert Taken([]) == FRESH;
    hide Taken, Sequence;
    assert [] + [] + InHand(d, n) == InHand(d, n);
    forall k | 0 <= k < |d.calls| ensures CallDelivers(d, k) && TableFits(d, k) {
      if k < n { assert CallDelivers(c, k) && TableFits(c, k); }
    }
  }

  lemma PushDelivers(c: Cli, act: Act)
    requires Inv(c) && Delivers(c) && (act.Push? || act.GiveUp?)
    ensures Delivers(Step(c, act))
  {
    var d := Step(c, act);
    hide Taken, Sequence;
    forall k | 0 <= k < |d.calls| ensures CallDelivers(d, k) && TableFits(d, k) {
      assert CallDelivers(c, k) && TableFits(c, k);
      var call := c.calls[k];
      if act.Push? && c.pc.Delivering? {
        assert call.received + (call.inbound + [c.pc.payload]) + [] == call.received + call.inbound + [c.pc.payload];
      }
    }
  }

  lemma ReceiveFlows(call: Call, act: Act, hand: seq<Bytes>)
    requires Flows(call, hand)
    ensures var n := Receive(call, act);
            Flows(n, hand) && n.log == call.log && n.frames == call.frames && n.ends == call.ends
  {
    if call.inbound != [] {
      assert (call.received + [call.inbound[0]]) + call.inbound[1..] == call.received + call.inbound;
    }
  }

  lemma CallerDelivers(c: Cli, act: Act)
    requires Delivers(c) && OfCaller(act)
    ensures Delivers(Step(c, act))
  {
    var d := Step(c, act);
    hide Taken, Sequence, Flows, Receive;
    forall k | 0 <= k < |d.calls| ensures CallDelivers(d, k) && TableFits(d, k) {
      assert CallDelivers(c, k) && TableFits(c, k);
      ReceiveFlows(c.calls[k], act, InHand(c, k));
    }
  }

  /** The other steps touch neither payloads nor partial messages. */
  lemma OthersDeliver(c: Cli, act: Act)
    requires Delivers(c) && (act.Look? || act.Delete? || act.FailAll? || act.Cleanup?)
    ensures Delivers(Step(c, act))
  {
    var d := Step(c, act);
    hide Taken, Sequence;
    forall k | 0 <= k < |d.calls| ensures CallDelivers(d, k) && TableFits(d, k) {
      assert CallDelivers(c, k) && TableFits(c, k);
    }
  }

  lemma StepDelivers(c: Cli, act: Act)
    requires Inv(c) && Delivers(c) && |Step(c, act).calls| <= CYCLE
    ensures Delivers(Step(c, act))
  {
    CallsStay(c, act);
    hide Delivers, Step;
    match act
    case Open => OpenDelivers(c);
    case Handle => HandleDelivers(c);
    case Push => PushDelivers(c, act);
    case GiveUp => PushDelivers(c, act);
    case _ => if OfCaller(act) { CallerDelivers(c, act); } else { OthersDeliver(c, act); }
  }

  lemma CallsStay(c: Cli, act: Act)
    ensures |Step(c, act).calls| == |c.calls| + if act.Open? then 1 else 0
  {
    hide Reassembly.Fold, Merge, Sequence;
  }

  lemma {:induction false} RunDelivers(acts: seq<Act>)
    requires |Run(acts).calls| <= CYCLE
    ensures Delivers(Run(acts))
    decreases |acts|
  {
    if acts != [] {
      var c := Run(acts[..|acts| - 1]);
      CallsStay(c, acts[|acts| - 1]);
      RunDelivers(acts[..|acts| - 1]);
      RunKeepsInv(acts[..|acts| - 1]);
      hide Inv, Delivers, Step;
      StepDelivers(c, acts[|acts| - 1]);
    }
  }

  /** Until the numbers come round again, under every interleaving of the Attach loop with callers that open, read
      and give up, a call has received a prefix of the payloads of the frames found to be its own, whatever came
      for others in between; at most 16 wait, and nothing is ever dropped. */
  lemma RepliesArriveInOrder(acts: seq<Act>, r: nat)
    requires r < |Run(acts).calls| <= CYCLE
    ensures var c := Run(acts);
            var call := c.calls[r];
            && call.received <= Taken(call.frames).log && |call.inbound| <= INBOUND_CAPACITY
            && call.received + call.inbound + InHand(c, r) == Taken(call.frames).log
  {
    RunDelivers(acts);
    hide Run, Taken;
    var c := Run(acts);
    assert CallDelivers(c, r);
    assert c.calls[r].received + c.calls[r].inbound + InHand(c, r)
        == c.calls[r].received + (c.calls[r].inbound + InHand(c, r));
  }
}
