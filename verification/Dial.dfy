/** The offerer's message handler: one answer, and candidates that come before, during and after its application. */
module Dial {
  /** When a candidate came: before the first answer, while that answer was being applied, or after. */
  datatype When = Before | During | After

  datatype Phase = Waiting | Applying | Draining | Finished | Failed

  /** A candidate is named by its place in `arrivals`. `answers` and `added` record the calls of acceptAnswer and
      addCandidate, `handed` the progress of the loop over `pending`. */
  datatype State = State(
    gotAnswer: bool, remoteDescSet: bool, pending: seq<nat>,
    phase: Phase, handed: nat, answers: seq<string>, added: seq<nat>, arrivals: seq<When>)

  const START: State := State(false, false, [], Waiting, 0, [], [], [])

  /** Settled: the pending await of the answer's handler resolves; Rejected: it throws. */
  datatype Event = Answer(sdp: string) | Candidate | Settled | Rejected

  /** The loop over the buffered candidates up to its next await. */
  function Handover(st: State): State {
    if st.handed < |st.pending|
    then st.(added := st.added + [st.pending[st.handed]], handed := st.handed + 1, phase := Draining)
    else st.(pending := [], phase := Finished)
  }

  function Step(st: State, e: Event): State {
    match e
    case Answer(sdp) =>
      if st.gotAnswer then st else st.(gotAnswer := true, answers := st.answers + [sdp], phase := Applying)
    case Candidate =>
      var id := |st.arrivals|;
      if !st.gotAnswer then st.(pending := st.pending + [id], arrivals := st.arrivals + [Before])
      else if st.remoteDescSet then st.(added := st.added + [id], arrivals := st.arrivals + [After])
      else st.(arrivals := st.arrivals + [During])
    case Settled =>
      if st.phase == Applying then Handover(st.(remoteDescSet := true))
      else if st.phase == Draining then Handover(st) else st
    case Rejected => if st.phase == Applying || st.phase == Draining then st.(phase := Failed) else st
  }

  function Run(events: seq<Event>): State
    decreases |events|
  {
    if events == [] then START else Step(Run(events[..|events| - 1]), events[|events| - 1])
  }

  // ---------------------------------------------------------------- the class

  class Handler {
    var gotAnswer: bool
    var remoteDescSet: bool
    var pending: seq<nat>
    var phase: Phase
    var handed: nat
    var answers: seq<string>
    var added: seq<nat>
    var arrivals: seq<When>

    ghost function Current(): State
      reads this
    {
      State(gotAnswer, remoteDescSet, pending, phase, handed, answers, added, arrivals)
    }

    constructor ()
      ensures Current() == START
    {
      gotAnswer, remoteDescSet, pending := false, false, [];
      phase, handed, answers, added, arrivals := Waiting, 0, [], [], [];
    }

    method OnAnswer(sdp: string)
      modifies this
      ensures Current() == Step(old(Current()), Answer(sdp))
    {
      if gotAnswer {
        return;
      }
      gotAnswer := true;
      answers := answers + [sdp];
      phase := Applying;
    }

    method OnCandidate()
      modifies this
      ensures Current() == Step(old(Current()), Candidate)
    {
      var id := |arrivals|;
      if !gotAnswer {
        pending := pending + [id];
        arrivals := arrivals + [Before];
      } else if remoteDescSet {
        added := added + [id];
        arrivals := arrivals + [After];
      } else {
        arrivals := arrivals + [During];
      }
    }

    method OnSettled()
      modifies this
      ensures Current() == Step(old(Current()), Settled)
    {
      if phase == Applying {
        remoteDescSet := true;
      } else if phase != Draining {
        return;
      }
      if handed < |pending| {
        added := added + [pending[handed]];
        handed := handed + 1;
        phase := Draining;
      } else {
        pending := [];
        phase := Finished;
      }
    }
  }

  // ---------------------------------------------------------------- invariant

  /** The candidates that came at time `w`, in order. */
  function Ids(arrivals: seq<When>, w: When): seq<nat>
    decreases |arrivals|
  {
    if arrivals == [] then [] else
    var front := Ids(arrivals[..|arrivals| - 1], w);
    if arrivals[|arrivals| - 1] == w then front + [|arrivals| - 1] else front
  }

  lemma {:induction false} IdsOnce(arrivals: seq<When>, w: When)
    ensures forall id :: multiset(Ids(arrivals, w))[id] == if 0 <= id < |arrivals| && arrivals[id] == w then 1 else 0
    decreases |arrivals|
  {
    if arrivals != [] {
      IdsOnce(arrivals[..|arrivals| - 1], w);
    }
  }

  predicate Flags(st: State) {
    && (st.phase == Waiting <==> !st.gotAnswer)
    && |st.answers| == (if st.gotAnswer then 1 else 0)
    && (st.remoteDescSet ==> st.gotAnswer)
    && (st.phase == Applying ==> !st.remoteDescSet)
    && (st.phase == Draining || st.phase == Finished ==> st.remoteDescSet)
    && (!st.remoteDescSet ==> st.added == [] && st.handed == 0)
    && (!st.gotAnswer ==> Ids(st.arrivals, After) == [])
    && (!st.remoteDescSet ==> Ids(st.arrivals, After) == [])
  }

  predicate Accounts(st: State) {
    var buffered := Ids(st.arrivals, Before);
    && st.handed <= |buffered|
    && (if st.phase == Finished then st.handed == |buffered| && st.pending == [] else st.pending == buffered)
    && multiset(st.added) == multiset(buffered[..st.handed]) + multiset(Ids(st.arrivals, After))
  }

  lemma CandidateKeeps(st: State)
    requires Flags(st) && Accounts(st)
    ensures Flags(Step(st, Candidate)) && Accounts(Step(st, Candidate))
  {
  }

  lemma HandoverKeeps(st: State)
    requires st.phase == Applying || st.phase == Draining
    requires Flags(st) && Accounts(st)
    ensures Flags(Step(st, Settled)) && Accounts(Step(st, Settled))
  {
    var buffered := Ids(st.arrivals, Before);
    hide Ids;
    if st.handed < |buffered| {
      var next := buffered[st.handed];
      assert buffered[..st.handed + 1] == buffered[..st.handed] + [next];
      assert multiset(st.added + [next]) == multiset(st.added) + multiset{next};
    }
  }

  lemma StepKeeps(st: State, e: Event)
    requires Flags(st) && Accounts(st)
    ensures Flags(Step(st, e)) && Accounts(Step(st, e))
  {
    hide Ids;
    if e.Candidate? {
      CandidateKeeps(st);
      hide *;
    } else if e.Settled? && (st.phase == Applying || st.phase == Draining) {
      HandoverKeeps(st);
      hide *;
    }
  }

  lemma {:induction false} RunKeeps(events: seq<Event>)
    ensures Flags(Run(events)) && Accounts(Run(events))
    decreases |events|
  {
    if events != [] {
      RunKeeps(events[..|events| - 1]);
      hide Flags, Accounts, Step;
      StepKeeps(Run(events[..|events| - 1]), events[|events| - 1]);
    }
  }

  // ---------------------------------------------------------------- from the events alone

  /** The first answer, if one came. */
  function Answered(events: seq<Event>): seq<string>
    decreases |events|
  {
    if events == [] then [] else
    var before, last := Answered(events[..|events| - 1]), events[|events| - 1];
    if before == [] && last.Answer? then [last.sdp] else before
  }

  /** An await of the answer's handler threw. */
  predicate Broken(events: seq<Event>)
    decreases |events|
  {
    events != [] &&
    (Broken(events[..|events| - 1]) || (events[|events| - 1] == Rejected && Answered(events[..|events| - 1]) != []))
  }

  /** How many of its awaits resolved before one threw: the first sets the remote description. */
  function Settles(events: seq<Event>): nat
    decreases |events|
  {
    if events == [] then 0 else
    var front, last := events[..|events| - 1], events[|events| - 1];
    Settles(front) + if last == Settled && Answered(front) != [] && !Broken(front) then 1 else 0
  }

  /** When each candidate came. */
  function Times(events: seq<Event>): seq<When>
    decreases |events|
  {
    if events == [] then [] else
    var front, last := events[..|events| - 1], events[|events| - 1];
    if !last.Candidate? then Times(front)
    else Times(front) + [if Answered(front) == [] then Before else if Settles(front) > 0 then After else During]
  }

  /** The candidates added: an early one with each await that resolved, a late one at once. */
  function Added(events: seq<Event>): seq<nat>
    decreases |events|
  {
    if events == [] then [] else
    var front, last := events[..|events| - 1], events[|events| - 1];
    var early, k := Ids(Times(front), Before), Settles(front);
    if last.Candidate? && k > 0 then Added(front) + [|Times(front)|]
    else if Settles(events) > k && k < |early| then Added(front) + [early[k]]
    else Added(front)
  }

  predicate Follows(st: State, answered: seq<string>, broken: bool, settles: nat, times: seq<When>) {
    var early := |Ids(times, Before)|;
    && st.answers == answered && st.arrivals == times
    && (st.gotAnswer <==> answered != []) && (st.remoteDescSet <==> settles > 0)
    && (answered == [] ==> settles == 0 && !broken)
    && st.handed == (if settles <= early then settles else early)
    && st.phase == (if answered == [] then Waiting
                    else if settles > early then Finished
                    else if broken then Failed
                    else if settles == 0 then Applying else Draining)
  }

  lemma StepFollows(st: State, e: Event, answered: seq<string>, broken: bool, settles: nat, times: seq<When>)
    requires Flags(st) && Accounts(st) && Follows(st, answered, broken, settles, times)
    ensures var more := if e == Settled && answered != [] && !broken then settles + 1 else settles;
            var when := if answered == [] then Before else if settles > 0 then After else During;
            Follows(Step(st, e), if answered == [] && e.Answer? then [e.sdp] else answered,
                    broken || (e == Rejected && answered != []), more, if e.Candidate? then times + [when] else times)
  {
    if e.Candidate? {
      var when := if answered == [] then Before else if settles > 0 then After else During;
      assert (times + [when])[..|times|] == times;
    }
  }

  lemma StepAdds(st: State, e: Event, answered: seq<string>, broken: bool, settles: nat, times: seq<When>)
    requires Flags(st) && Accounts(st) && Follows(st, answered, broken, settles, times)
    ensures var early := Ids(times, Before);
            Step(st, e).added ==
              if e.Candidate? && settles > 0 then st.added + [|times|]
              else if e == Settled && answered != [] && !broken && settles < |early| then st.added + [early[settles]]
              else st.added
  {
    hide Ids;
  }

  /** Each of these one event further. */
  lemma OneMoreEvent(events: seq<Event>)
    requires events != []
    ensures var front, e := events[..|events| - 1], events[|events| - 1];
            var answered, settles, early := Answered(front), Settles(front), Ids(Times(front), Before);
            && Run(events) == Step(Run(front), e)
            && Answered(events) == (if answered == [] && e.Answer? then [e.sdp] else answered)
            && (Broken(events) <==> Broken(front) || (e == Rejected && answered != []))
            && Settles(events) == (if e == Settled && answered != [] && !Broken(front) then settles + 1 else settles)
            && Times(events) == (if !e.Candidate? then Times(front) else
                 Times(front) + [if answered == [] then Before else if settles > 0 then After else During])
            && Added(events) ==
                 (if e.Candidate? && settles > 0 then Added(front) + [|Times(front)|]
                  else if e == Settled && answered != [] && !Broken(front) && settles < |early|
                  then Added(front) + [early[settles]] else Added(front))
  {
    hide Step, Ids;
  }

  lemma {:induction false} RunFollows(events: seq<Event>)
    ensures Follows(Run(events), Answered(events), Broken(events), Settles(events), Times(events))
    ensures Run(events).added == Added(events)
    decreases |events|
  {
    if events != [] {
      var front, e := events[..|events| - 1], events[|events| - 1];
      OneMoreEvent(events);
      hide Flags, Accounts, Follows, Step, Ids, Run, Answered, Broken, Settles, Times, Added;
      RunFollows(front);
      RunKeeps(front);
      StepFollows(Run(front), e, Answered(front), Broken(front), Settles(front), Times(front));
      StepAdds(Run(front), e, Answered(front), Broken(front), Settles(front), Times(front));
    }
  }

  /** The answer applied is the first that came, and no other; no candidate is added before the remote description
      is set. A candidate is never added twice; once the buffered ones are drained, the ones added are exactly all
      but those that came while the answer was being applied, each early one with the await that let it go. */
  lemma CandidatesAreAddedOnce(events: seq<Event>, id: nat)
    requires id < |Times(events)|
    ensures var st := Run(events);
            && st.answers == Answered(events) && st.added == Added(events)
            && (st.added != [] ==> Settles(events) > 0)
            && multiset(st.added)[id] <= 1
            && (Times(events)[id] == During ==> multiset(st.added)[id] == 0)
            && (Settles(events) > |Ids(Times(events), Before)| ==>
                  (multiset(st.added)[id] == 1 <==> Times(events)[id] != During))
  {
    RunKeeps(events);
    RunFollows(events);
    AddedOnce(Run(events), id);
    hide Run, Answered, Settles, Times, Added, Broken, Ids, Accounts;
  }

  lemma AddedOnce(st: State, id: nat)
    requires Flags(st) && Accounts(st) && id < |st.arrivals|
    ensures multiset(st.added)[id] <= 1 && (st.added != [] ==> st.remoteDescSet)
    ensures st.arrivals[id] == During ==> multiset(st.added)[id] == 0
    ensures st.phase == Finished ==> (multiset(st.added)[id] == 1 <==> st.arrivals[id] != During)
  {
    var buffered := Ids(st.arrivals, Before);
    IdsOnce(st.arrivals, Before);
    IdsOnce(st.arrivals, After);
    assert buffered == buffered[..st.handed] + buffered[st.handed..];
    assert multiset(buffered) == multiset(buffered[..st.handed]) + multiset(buffered[st.handed..]);
  }
}
