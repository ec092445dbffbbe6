// What a slot amounts to under the TTI callback's own injection list.
module CallbackSlot {
  import opened Sums
  import opened Scheduler
  import opened Ledger
  import opened RootFiring
  import opened OncePerSlot
  import opened Reinjection
  import Termination

  // Every reachable state: an event is unlocked at most once, by the one thread whose fetch-add
  // returned the final count, and has exactly as many splits as its generations account for.
  lemma EveryState(c: Config, part: seq<nat>, schedule: seq<Who>, e: nat)
    requires Staged(c, part) && Runs(c, Init(c), schedule) && e < |c.next|
    ensures var s := Run(c, Init(c), schedule); Counted(c, s, e) && Matched(c, s, e)
  {
    hide StatBalanced, CountBalanced, Tickets, Waiting, RaisedRight, Counted, Matched;
    Reinjection.InvInit(c, part);
    Reinjection.InvRun(c, part, Init(c), schedule);
  }

  // ---- Every live event is reached ----

  lemma InjectedSent(c: Config, part: seq<nat>, s: State, e: nat)
    requires Reinjection.Inv(c, part, s) && e < |c.next| && e in c.inject[..s.inj.pos]
    ensures |s.splits[e]| >= c.split[e]
    ensures c.Raises(e) ==> s.raised[e] == |c.next[e]|
  {
    assert Counted(c, s, e);
    assert multiset(c.inject[..s.inj.pos])[e] > 0;
    AtLeast(c.split[e], SentTimes(c, s, e));
  }

  lemma AtLeast(n: nat, times: nat)
    ensures times >= 1 ==> n * times >= n
  {
  }

  lemma UnlockedSent(c: Config, part: seq<nat>, s: State, e: nat)
    requires Reinjection.Inv(c, part, s) && e < |c.next| && s.unlocked[e] != []
    requires !Generating(c, s, s.unlocked[e][0], e)
    ensures |s.splits[e]| >= c.split[e]
  {
    assert Counted(c, s, e);
    AtLeast(c.split[e], SentTimes(c, s, e));
  }

  // All splits of p are through and p has been sent: its edges have delivered at least their share.
  lemma EdgeDelivered(c: Config, part: seq<nat>, s: State, p: nat, e: nat)
    requires Reinjection.Inv(c, part, s) && p < |c.next| && |s.splits[p]| >= c.split[p]
    requires c.Raises(p) ==> s.raised[p] == |c.next[p]|
    requires forall k :: 0 <= k < |s.splits[p]| ==> s.splits[p][k] == Add(|c.next[p]|)
    ensures Sig(c.next[p], s.splits[p], e) >= Cap(c.next[p], c.split[p], s.raised[p], e)
  {
    var d := Degree(c.next[p], e);
    SumConst(SigRow(c.next[p], s.splits[p], e), d);
    assert s.raised[p] <= |c.next[p]|;
    CapFull(c.next[p], c.split[p], s.raised[p], e);
    MulMono(c.split[p], |s.splits[p]|, d);
  }

  lemma MulMono(a: nat, b: nat, d: nat)
    requires a <= b
    ensures a * d <= b * d
  {
  }

  lemma NonRootRaised(c: Config, part: seq<nat>, s: State, p: nat)
    requires Reinjection.Inv(c, part, s) && p < |c.next| && s.unlocked[p] != []
    ensures !c.Raises(p)
  {
    assert Counted(c, s, p);
  }

  // When every predecessor has delivered its share, the status has reached the count.
  lemma StatusReached(c: Config, part: seq<nat>, s: State, e: nat)
    requires Reinjection.Inv(c, part, s) && e < |c.next|
    requires forall p :: 0 <= p < |c.next| && e in c.next[p] ==>
               Sig(c.next[p], s.splits[p], e) >= Cap(c.next[p], c.split[p], s.raised[p], e)
    ensures s.stat[e] + c.wake[e] >= s.count[e]
  {
    var sigs, caps := Sigs(c, s.splits, e), Caps(c, s.raised, e);
    forall p | 0 <= p < |c.next| ensures caps[p] <= sigs[p] {
      if e !in c.next[p] {
        forall k | 0 <= k < |s.splits[p]| ensures Done(s.splits[p][k]) <= |c.next[p]| { DoneBounded(c, s, p, k); }
        NoEdge(c, s, p, e);
      }
    }
    SumDominated(caps, sigs);
  }

  // A thread that has finished is not about to load a count.
  lemma Unready(c: Config, s: State, w: Who, e: nat)
    requires Shape(c, s) && e < |c.next|
    requires Exists(s, w) && w.Split? ==> !s.splits[w.event][w.idx].Load?
    ensures !LoadsMatch(c, s, w, e)
  {
  }

  lemma MustHaveFired(c: Config, part: seq<nat>, s: State, e: nat)
    requires Reinjection.Inv(c, part, s) && e < |c.next| && !IsRoot(c, e) && s.stat[e] >= s.count[e]
    requires forall w :: Exists(s, w) && w.Split? ==> !s.splits[w.event][w.idx].Load?
    ensures s.unlocked[e] != [] && s.unlocked[e][0].Split?
  {
    CapsPositive(c, s.raised, e);
    assert Matched(c, s, e) && Counted(c, s, e);
    Unready(c, s, s.adders[e][s.count[e] - 1], e);
  }

  lemma QuiescentUnready(c: Config, s: State, w: Who, e: nat)
    requires Shape(c, s) && Quiescent(c, s) && e < |c.next|
    ensures Exists(s, w) && w.Split? ==> s.splits[w.event][w.idx] == Add(|c.next[w.event]|)
    ensures !Generating(c, s, w, e)
  {
    assert Exists(s, w) ==> Finished(c, s, w);
  }

  // At quiescence a live event has been injected, or unlocked exactly once; in both cases it was sent.
  lemma {:induction false} LiveReached(c: Config, part: seq<nat>, rank: seq<nat>, s: State, e: nat)
    requires Reinjection.Inv(c, part, s) && Ranked(c, rank) && Quiescent(c, s)
    requires e < |c.next| && Live(c, rank, e)
    ensures |s.splits[e]| >= c.split[e] && (c.Raises(e) ==> s.raised[e] == |c.next[e]|)
    ensures Fed(c, rank, e) ==> |s.unlocked[e]| == 1
    decreases rank[e]
  {
    hide StatBalanced, CountBalanced, Tickets, Waiting, RaisedRight, Population, Matches;
    assert Finished(c, s, Injector);
    assert c.inject[..s.inj.pos] == c.inject;
    if Fed(c, rank, e) {
      forall p | 0 <= p < |c.next| && e in c.next[p]
        ensures Sig(c.next[p], s.splits[p], e) >= Cap(c.next[p], c.split[p], s.raised[p], e)
      {
        assert LivePred(c, rank, p, e);
        LiveReached(c, part, rank, s, p);
        forall k | 0 <= k < |s.splits[p]| ensures s.splits[p][k] == Add(|c.next[p]|) {
          QuiescentUnready(c, s, Split(p, k), e);
        }
        EdgeDelivered(c, part, s, p, e);
      }
      StatusReached(c, part, s, e);
      forall w ensures Exists(s, w) && w.Split? ==> !s.splits[w.event][w.idx].Load? { QuiescentUnready(c, s, w, e); }
      MustHaveFired(c, part, s, e);
      QuiescentUnready(c, s, s.unlocked[e][0], e);
      UnlockedSent(c, part, s, e);
      NonRootRaised(c, part, s, e);
      assert Counted(c, s, e) by { CountedOf(c, part, s, e); }
    }
    if e in c.inject {
      InjectedSent(c, part, s, e);
    }
  }

  lemma CountedOf(c: Config, part: seq<nat>, s: State, e: nat)
    requires Reinjection.Inv(c, part, s) && e < |c.next|
    ensures Counted(c, s, e)
  {
  }

  // ---- Main results ----

  // How a complete run leaves an event: its splits are those of its injections and of at most one
  // unlock, all of them finished; a fed event was unlocked exactly once, however often it ran.
  ghost predicate Settled(c: Config, rank: seq<nat>, s: State, e: nat)
    requires Shape(c, s) && Ranked(c, rank) && e < |c.next|
  {
    && |s.unlocked[e]| <= 1
    && (IsRoot(c, e) ==> s.unlocked[e] == [])
    && (Fed(c, rank, e) ==> |s.unlocked[e]| == 1)
    && (s.unlocked[e] != [] ==>
          0 < s.count[e] <= s.stat[e] == |s.adders[e]| && s.unlocked[e] == [s.adders[e][s.count[e] - 1]])
    && |s.splits[e]| == c.split[e] * (multiset(c.inject)[e] + |s.unlocked[e]|)
    && (forall k :: 0 <= k < |s.splits[e]| ==> s.splits[e][k] == Add(|c.next[e]|))
  }

  lemma QuiescentSettled(c: Config, part: seq<nat>, rank: seq<nat>, s: State, e: nat)
    requires Reinjection.Inv(c, part, s) && Ranked(c, rank) && Quiescent(c, s) && e < |c.next|
    ensures Settled(c, rank, s, e)
  {
    hide StatBalanced, CountBalanced, Tickets, Waiting, RaisedRight;
    assert Counted(c, s, e) && Matched(c, s, e);
    hide Population, Matches;
    assert Finished(c, s, Injector);
    assert c.inject[..s.inj.pos] == c.inject;
    if Fed(c, rank, e) {
      LiveReached(c, part, rank, s, e);
    }
    hide Fed;
    if s.unlocked[e] != [] {
      QuiescentUnready(c, s, s.unlocked[e][0], e);
    }
    forall k | 0 <= k < |s.splits[e]| ensures s.splits[e][k] == Add(|c.next[e]|) {
      QuiescentUnready(c, s, Split(e, k), e);
    }
  }

  lemma UnlockedOnce(c: Config, part: seq<nat>, rank: seq<nat>, schedule: seq<Who>, e: nat)
    requires Staged(c, part) && Ranked(c, rank) && e < |c.next|
    requires Runs(c, Init(c), schedule) && Quiescent(c, Run(c, Init(c), schedule))
    ensures Settled(c, rank, Run(c, Init(c), schedule), e)
  {
    hide StatBalanced, CountBalanced, Tickets, Waiting, RaisedRight, Population, Matches, Settled;
    Reinjection.InvInit(c, part);
    Reinjection.InvRun(c, part, Init(c), schedule);
    QuiescentSettled(c, part, rank, Run(c, Init(c), schedule), e);
  }

  // The order of the task map can be violated only behind a predecessor that was generated twice.
  lemma OrderBehindSingles(c: Config, part: seq<nat>, s: State, e: nat)
    requires Reinjection.Inv(c, part, s) && e < |c.next| && s.unlocked[e] != []
    requires forall p :: 0 <= p < |c.next| && e in c.next[p] ==> |s.splits[p]| <= c.split[p]
    ensures Complete(c, s, e)
  {
    var sigs, caps := Sigs(c, s.splits, e), Caps(c, s.raised, e);
    assert Matched(c, s, e);
    forall p | 0 <= p < |c.next|
      ensures sigs[p] <= caps[p]
      ensures sigs[p] == caps[p] ==> EdgeDone(c.next[p], c.split[p], s.splits[p], e)
    {
      forall k | 0 <= k < |s.splits[p]| ensures Done(s.splits[p][k]) <= |c.next[p]| { DoneBounded(c, s, p, k); }
      DegreePositive(c.next[p], e);
      if e in c.next[p] {
        SingleGeneration(c, part, s, p);
        SigVsCap(c.next[p], c.split[p], s.splits[p], s.raised[p], e);
      } else {
        NoEdge(c, s, p, e);
      }
    }
    SumDominated(sigs, caps);
  }

  lemma SingleGeneration(c: Config, part: seq<nat>, s: State, p: nat)
    requires Reinjection.Inv(c, part, s) && p < |c.next| && |s.splits[p]| <= c.split[p]
    ensures s.splits[p] == [] || (|s.splits[p]| == c.split[p] && (c.Raises(p) ==> s.raised[p] == |c.next[p]|))
  {
    hide StatBalanced, CountBalanced, Tickets, Waiting, Matches;
    assert Counted(c, s, p);
    assert s.raised[p] == ExpectedRaised(c, s, p);
    if s.splits[p] != [] {
      var t := SentTimes(c, s, p);
      assert t > 0 by { assert c.split[p] * 0 == 0; }
      AtLeast(c.split[p], t);
      if c.Raises(p) {
        assert s.unlocked[p] == [];
        assert multiset(c.inject[..s.inj.pos])[p] > 0;
      }
    }
  }

  // Every run ends.
  lemma StepDecreases(c: Config, part: seq<nat>, s: State, w: Who)
    requires Reinjection.Inv(c, part, s) && CanStep(c, s, w)
    ensures Reinjection.Inv(c, part, Step(c, s, w))
    ensures 0 <= Termination.Measure(c, Step(c, s, w)) < Termination.Measure(c, s)
  {
    Reinjection.InvStep(c, part, s, w);
    hide StatBalanced, CountBalanced, Tickets, Waiting, RaisedRight, Matches;
    var t := Step(c, s, w);
    forall e | 0 <= e < |c.next| ensures |t.unlocked[e]| <= 1 {
      assert Counted(c, t, e);
    }
    Termination.MeasureStep(c, s, w);
  }

  lemma {:induction false} RunsEnd(c: Config, part: seq<nat>, s: State, schedule: seq<Who>)
    requires Reinjection.Inv(c, part, s) && Runs(c, s, schedule)
    ensures |schedule| <= Termination.Measure(c, s)
    decreases |schedule|
  {
    hide StatBalanced, CountBalanced, Tickets, Waiting, RaisedRight, Population, Matches;
    Termination.MeasureNonNegative(c, s);
    if schedule != [] {
      StepDecreases(c, part, s, schedule[0]);
      RunsEnd(c, part, Step(c, s, schedule[0]), schedule[1..]);
    }
  }

  // Where a run may leave threads behind: all splits of an event, or its first one, at one point.
  datatype Halt = Halt(event: nat, all: bool, at: Pc)

  predicate Concerns(h: Halt, p: nat, k: nat) {
    p == h.event && (h.all || k == 0)
  }

  // The thread has not passed the point: it waits to be picked up, or has signalled no further.
  predicate Before(h: Halt, pc: Pc) {
    if h.at.Add? then Done(pc) <= h.at.slot else pc == Pending
  }

  ghost predicate AllBefore(s: State, h: Halt) {
    forall p: nat, k: nat :: Concerns(h, p, k) && p < |s.splits| && k < |s.splits[p]| ==> Before(h, s.splits[p][k])
  }

  ghost predicate Halted(s: State, h: Halt, w: Who)
    requires Exists(s, w)
  {
    w.Split? && Concerns(h, w.event, w.idx) && s.splits[w.event][w.idx] == h.at
  }

  // Every thread has come to its end or to the halt.
  ghost predicate Stopped(c: Config, s: State, h: Halt)
    requires Shape(c, s)
  {
    && (h.at.Pending? || h.at.Add?) && AllBefore(s, h)
    && forall w :: Exists(s, w) && !Halted(s, h, w) ==> Finished(c, s, w)
  }

  lemma StaysBefore(c: Config, s: State, w: Who, h: Halt)
    requires Shape(c, s) && CanStep(c, s, w) && !Halted(s, h, w) && AllBefore(s, h) && (h.at.Pending? || h.at.Add?)
    ensures AllBefore(Step(c, s, w), h)
  {
    var t := Step(c, s, w);
    assert |t.splits| == |s.splits|;
    forall p: nat, k: nat | Concerns(h, p, k) && p < |t.splits| && k < |t.splits[p]| ensures Before(h, t.splits[p][k]) {
      if w == Split(p, k) {
        OwnStepBefore(c, s, w, h);
      } else {
        OtherStays(c, s, w, p, k);
        assert k < |s.splits[p]| ==> Before(h, s.splits[p][k]);
      }
    }
  }

  // A thread the halt concerns steps up to it.
  lemma OwnStepBefore(c: Config, s: State, w: Who, h: Halt)
    requires Shape(c, s) && CanStep(c, s, w) && w.Split? && (h.at.Pending? || h.at.Add?)
    requires s.splits[w.event][w.idx] != h.at && Before(h, s.splits[w.event][w.idx])
    ensures var t := Step(c, s, w);
      w.event < |t.splits| && w.idx < |t.splits[w.event]| && Before(h, t.splits[w.event][w.idx])
  {
    assert PcOk(c, w.event, s.splits[w.event][w.idx]);
  }

  // The other threads of the slot stay where they are, or are born pending.
  lemma OtherStays(c: Config, s: State, w: Who, p: nat, k: nat)
    requires Shape(c, s) && CanStep(c, s, w) && w != Split(p, k)
    requires var t := Step(c, s, w); p < |t.splits| && k < |t.splits[p]|
    ensures var t := Step(c, s, w);
      p < |s.splits| && (t.splits[p][k] == if k < |s.splits[p]| then s.splits[p][k] else Pending)
  {
  }

  // From every reachable state that has not passed the halt, a run that leaves the threads concerned
  // there while every other thread goes to its end.
  lemma {:induction false} RunsUntil(c: Config, part: seq<nat>, s: State, h: Halt) returns (schedule: seq<Who>)
    requires Reinjection.Inv(c, part, s) && AllBefore(s, h) && (h.at.Pending? || h.at.Add?)
    ensures Runs(c, s, schedule) && Reinjection.Inv(c, part, Run(c, s, schedule))
    ensures Stopped(c, Run(c, s, schedule), h)
    decreases Termination.Measure(c, s)
  {
    hide StatBalanced, CountBalanced, Tickets, Waiting, RaisedRight, Population, Matches;
    if w :| Exists(s, w) && !Halted(s, h, w) && !Finished(c, s, w) {
      StepDecreases(c, part, s, w);
      StaysBefore(c, s, w, h);
      var rest := RunsUntil(c, part, Step(c, s, w), h);
      schedule := [w] + rest;
      assert schedule[1..] == rest;
    } else {
      schedule := [];
    }
  }

  // From every reachable state some schedule completes the slot.
  lemma Completes(c: Config, part: seq<nat>, s: State) returns (schedule: seq<Who>)
    requires Reinjection.Inv(c, part, s)
    ensures Runs(c, s, schedule) && Quiescent(c, Run(c, s, schedule))
  {
    schedule := RunsUntil(c, part, s, Halt(|c.next|, true, Pending));
  }
}
