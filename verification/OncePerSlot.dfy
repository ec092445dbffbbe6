// What a slot amounts to when the callback generates only events without predecessors:
// every run ends, and at its end the events that are reachable have each been generated once,
// by the last split of their last predecessor, and nothing else has been.
module OncePerSlot {
  import opened Sums
  import opened Scheduler
  import opened Ledger
  import opened RootFiring
  import Termination

  // A rank that grows along every edge: the task map has no cycle.
  ghost predicate Ranked(c: Config, rank: seq<nat>) {
    && c.Valid() && |rank| == |c.next|
    && forall p, j :: 0 <= p < |c.next| && 0 <= j < |c.next[p]| ==> rank[p] < rank[c.next[p][j]]
  }

  // Reachable in full: injected, or waiting for nothing but predecessors that are live themselves.
  ghost predicate Live(c: Config, rank: seq<nat>, e: nat)
    requires Ranked(c, rank) && e < |c.next|
    decreases rank[e], 2
  {
    e in c.inject || Fed(c, rank, e)
  }

  ghost predicate Fed(c: Config, rank: seq<nat>, e: nat)
    requires Ranked(c, rank) && e < |c.next|
    decreases rank[e], 1
  {
    !IsRoot(c, e) && c.wake[e] == 0 && forall p :: 0 <= p < |c.next| && e in c.next[p] ==> LivePred(c, rank, p, e)
  }

  ghost predicate LivePred(c: Config, rank: seq<nat>, p: nat, e: nat)
    requires Ranked(c, rank) && p < |c.next| && e < |c.next| && e in c.next[p]
    decreases rank[e], 0
  {
    rank[p] < rank[e] && Live(c, rank, p)
  }

  lemma RankedEdge(c: Config, rank: seq<nat>, p: nat, e: nat)
    requires Ranked(c, rank) && p < |c.next| && e in c.next[p]
    ensures e < |c.next| && rank[p] < rank[e]
  {
    var j :| 0 <= j < |c.next[p]| && c.next[p][j] == e;
  }

  lemma EdgeIsLive(c: Config, rank: seq<nat>, p: nat, e: nat)
    requires Ranked(c, rank) && p < |c.next| && e in c.next[p]
    requires p in c.inject || Fed(c, rank, p)
    ensures e < |c.next| && LivePred(c, rank, p, e)
  {
    RankedEdge(c, rank, p, e);
    assert Live(c, rank, p);
  }

  lemma BecomesFed(c: Config, rank: seq<nat>, e: nat)
    requires Ranked(c, rank) && e < |c.next| && !IsRoot(c, e) && c.wake[e] == 0
    requires forall p :: 0 <= p < |c.next| && e in c.next[p] ==> LivePred(c, rank, p, e)
    ensures Fed(c, rank, e)
  {
  }

  lemma DegreePositive(row: seq<nat>, e: nat)
    ensures Degree(row, e) > 0 <==> e in row
  {
    assert row[..|row|] == row;
  }

  lemma BornInjected(c: Config, s: State, e: nat)
    requires Inv(c, s) && e < |c.next| && Born(c, s, e) && e !in c.inject
    ensures s.unlocked[e] != []
  {
  }

  // Only live events are ever generated, in any reachable state.
  lemma {:induction false} OnlyLive(c: Config, rank: seq<nat>, s: State, e: nat)
    requires Inv(c, s) && Ranked(c, rank) && e < |c.next| && Born(c, s, e)
    ensures Live(c, rank, e)
    decreases rank[e]
  {
    if e !in c.inject {
      BornInjected(c, s, e);
      assert Life(c, s, e) && FiredRight(c, s, e);
      StatVsCount(c, s, e);
      hide StatBalanced, CountBalanced, Tickets, Fires;
      forall p | 0 <= p < |c.next| && e in c.next[p] ensures LivePred(c, rank, p, e) {
        RankedEdge(c, rank, p, e);
        DegreePositive(c.next[p], e);
        assert EdgeDone(c.next[p], c.split[p], s.splits[p], e);
        assert Life(c, s, p);
        OnlyLive(c, rank, s, p);
      }
    }
  }

  // At quiescence no thread is generating anything or about to load a count.
  lemma Idle(c: Config, s: State, w: Who, e: nat)
    requires Shape(c, s) && Quiescent(c, s) && e < |c.next|
    ensures !Generating(c, s, w, e) && !LoadsLast(c, s, w, e)
  {
    if Exists(s, w) {
      assert Finished(c, s, w);
    }
  }

  lemma QuiescentSent(c: Config, s: State, e: nat)
    requires Inv(c, s) && Quiescent(c, s) && e < |c.next| && Born(c, s, e)
    ensures Sent(c, s, e)
  {
    assert Life(c, s, e);
    Idle(c, s, Generator(s, e), e);
  }

  lemma QuiescentEdge(c: Config, s: State, p: nat, e: nat)
    requires Inv(c, s) && Quiescent(c, s) && p < |c.next| && Born(c, s, p)
    ensures EdgeDone(c.next[p], c.split[p], s.splits[p], e)
    ensures Sig(c.next[p], s.splits[p], e) == Cap(c.next[p], c.split[p], s.raised[p], e)
  {
    QuiescentSent(c, s, p);
    forall k | 0 <= k < |s.splits[p]| ensures Done(s.splits[p][k]) == |c.next[p]| {
      assert Finished(c, s, Split(p, k));
    }
    SumConst(SigRow(c.next[p], s.splits[p], e), Degree(c.next[p], e));
    CapFull(c.next[p], c.split[p], s.raised[p], e);
  }

  lemma NoEdge(c: Config, s: State, p: nat, e: nat)
    requires Shape(c, s) && p < |c.next| && e !in c.next[p] && s.raised[p] <= |c.next[p]|
    requires forall k :: 0 <= k < |s.splits[p]| ==> Done(s.splits[p][k]) <= |c.next[p]|
    ensures Sig(c.next[p], s.splits[p], e) == Cap(c.next[p], c.split[p], s.raised[p], e) == 0
  {
    var row := c.next[p];
    DegreePositive(row, e);
    forall i | 0 <= i <= |row| ensures Hits(row, i, e) == 0 { HitsMono(row, i, |row|, e); }
    SumConst(SigRow(row, s.splits[p], e), 0);
    assert (c.split[p] as int - 1) * 0 == 0;
  }

  // At quiescence an event whose predecessors were all generated has a full status.
  lemma FullStatus(c: Config, s: State, e: nat)
    requires Inv(c, s) && Quiescent(c, s) && e < |c.next|
    requires forall p :: 0 <= p < |c.next| && e in c.next[p] ==> Born(c, s, p)
    ensures s.stat[e] + c.wake[e] == s.count[e]
  {
    var sigs, caps := Sigs(c, s.splits, e), Caps(c, s.raised, e);
    forall p | 0 <= p < |c.next| ensures sigs[p] == caps[p] {
      if e in c.next[p] {
        QuiescentEdge(c, s, p, e);
      } else {
        forall k | 0 <= k < |s.splits[p]| ensures Done(s.splits[p][k]) <= |c.next[p]| { DoneBounded(c, s, p, k); }
        NoEdge(c, s, p, e);
      }
    }
    assert sigs == caps;
  }

  // A root excepted, at least one predecessor contributes to the count.
  lemma CapsPositive(c: Config, raised: seq<nat>, e: nat)
    requires c.Valid() && |raised| == |c.next| && e < |c.next| && !IsRoot(c, e)
    ensures Sum(Caps(c, raised, e)) > 0
  {
    var p, j :| 0 <= p < |c.next| && 0 <= j < |c.next[p]| && c.next[p][j] == e;
    DegreePositive(c.next[p], e);
    var caps := Caps(c, raised, e);
    assert forall x :: 0 <= x < |caps| ==> c.split[x] >= 1;
    hide *;
    forall x | 0 <= x < |caps| ensures caps[x] >= Degree(c.next[x], e) {
      CapCovers(c.next[x], c.split[x], raised[x], e);
    }
    PositiveSum(caps, p);
  }

  lemma CapCovers(row: seq<nat>, split: nat, raised: nat, e: nat)
    requires split >= 1
    ensures Cap(row, split, raised, e) >= Degree(row, e)
  {
    hide Degree, Hits;
    NatProduct(split - 1, Hits(row, raised, e));
  }

  lemma NatProduct(a: nat, b: nat)
    ensures a * b >= 0
  {
  }

  lemma PositiveSum(s: seq<int>, p: nat)
    requires p < |s| && s[p] > 0 && forall x :: 0 <= x < |s| ==> s[x] >= 0
    ensures Sum(s) > 0
  {
    var zero := seq(|s|, _ => 0);
    SumConst(zero, 0);
    SumDominated(zero, s);
    assert s[p] != zero[p];
  }

  lemma {:induction false} LiveBorn(c: Config, rank: seq<nat>, s: State, e: nat)
    requires Inv(c, s) && Ranked(c, rank) && Quiescent(c, s) && e < |c.next| && Live(c, rank, e)
    ensures Born(c, s, e)
    decreases rank[e]
  {
    if e in c.inject {
      assert Finished(c, s, Injector);
    } else {
      forall p | 0 <= p < |c.next| && e in c.next[p] ensures Born(c, s, p) {
        assert LivePred(c, rank, p, e);
        LiveBorn(c, rank, s, p);
      }
      FullStatus(c, s, e);
      CapsPositive(c, s.raised, e);
      assert WillFire(c, s, e);
      Idle(c, s, s.adders[e][s.stat[e] - 1], e);
    }
  }

  // ---- Main results ----

  // Times the event has been generated so far, by the callback or by an unlocker.
  ghost function Generations(c: Config, s: State, e: nat): nat
    requires e < |s.unlocked|
  {
    |s.unlocked[e]| + if Injected(c, s, e) then 1 else 0
  }

  // The status of e against its count, and what the existence of its splits means.
  ghost predicate Orderly(c: Config, s: State, e: nat)
    requires Shape(c, s) && e < |c.next|
  {
    && Generations(c, s, e) <= 1
    && (s.splits[e] != [] ==> |s.splits[e]| == c.split[e] && Complete(c, s, e))
    && s.stat[e] + c.wake[e] <= s.count[e]
    && (s.stat[e] + c.wake[e] == s.count[e] ==> Complete(c, s, e))
  }

  lemma InvOrderly(c: Config, s: State, e: nat)
    requires Inv(c, s) && e < |c.next|
    ensures Orderly(c, s, e)
  {
    StatVsCount(c, s, e);
    hide StatBalanced, CountBalanced, Tickets;
    assert Life(c, s, e) && FiredRight(c, s, e);
    if IsRoot(c, e) {
      RootComplete(c, s, e);
    }
  }

  // In every reachable state, for every interleaving: no event has been generated twice, and a split
  // exists only after every split of every predecessor has executed its signal.
  lemma EveryState(c: Config, schedule: seq<Who>, e: nat)
    requires RootsOnly(c) && Runs(c, Init(c), schedule) && e < |c.next|
    ensures Orderly(c, Run(c, Init(c), schedule), e)
  {
    hide Lives, Fires, StatBalanced, CountBalanced, Tickets, Orderly;
    InvInit(c);
    InvRun(c, Init(c), schedule);
    InvOrderly(c, Run(c, Init(c), schedule), e);
  }

  lemma RootComplete(c: Config, s: State, e: nat)
    requires Shape(c, s) && IsRoot(c, e)
    ensures Complete(c, s, e)
  {
    forall p | 0 <= p < |c.next| ensures EdgeDone(c.next[p], c.split[p], s.splits[p], e) {
      DegreePositive(c.next[p], e);
    }
  }

  ghost predicate Path(c: Config, path: seq<nat>) {
    && (forall i :: 0 <= i < |path| ==> path[i] < |c.next|)
    && (forall i :: 0 <= i < |path| - 1 ==> path[i + 1] in c.next[path[i]])
  }

  // Dependency safety: when a split of the last event of a path exists, every split of every earlier
  // event of the path has been sent and has signalled the next event of the path.
  lemma {:induction false} PathRespected(c: Config, s: State, path: seq<nat>, i: nat, k: nat)
    requires Inv(c, s) && Path(c, path) && i < |path| - 1 && s.splits[path[|path| - 1]] != []
    ensures |s.splits[path[i]]| == c.split[path[i]]
    ensures k < |s.splits[path[i]]| ==>
              Hits(c.next[path[i]], Done(s.splits[path[i]][k]), path[i + 1]) == Degree(c.next[path[i]], path[i + 1]) > 0
    decreases |path| - i
  {
    if i + 1 < |path| - 1 {
      PathRespected(c, s, path, i + 1, 0);
    }
    var p, e := path[i], path[i + 1];
    assert e in c.next[p] && s.splits[e] != [];
    var j :| 0 <= j < |c.next[p]| && c.next[p][j] == e;
    assert Life(c, s, e) && FiredRight(c, s, e);
    DegreePositive(c.next[p], e);
    assert EdgeDone(c.next[p], c.split[p], s.splits[p], e);
  }

  // The same after any schedule.
  lemma DependencySafety(c: Config, schedule: seq<Who>, path: seq<nat>, i: nat, k: nat)
    requires RootsOnly(c) && Runs(c, Init(c), schedule)
    requires var s := Run(c, Init(c), schedule);
      Path(c, path) && i < |path| - 1 && s.splits[path[|path| - 1]] != []
    ensures var s := Run(c, Init(c), schedule);
      && |s.splits[path[i]]| == c.split[path[i]]
      && (k < |s.splits[path[i]]| ==>
            Hits(c.next[path[i]], Done(s.splits[path[i]][k]), path[i + 1]) == Degree(c.next[path[i]], path[i + 1]) > 0)
  {
    hide Lives, Fires, StatBalanced, CountBalanced, Tickets, Hits, Degree;
    InvInit(c);
    InvRun(c, Init(c), schedule);
    PathRespected(c, Run(c, Init(c), schedule), path, i, k);
  }

  // How a complete run leaves one event.
  ghost predicate Settled(c: Config, rank: seq<nat>, s: State, e: nat)
    requires Shape(c, s) && Ranked(c, rank) && e < |c.next|
  {
    && Generations(c, s, e) == (if Live(c, rank, e) then 1 else 0)
    && |s.splits[e]| == (if Live(c, rank, e) then c.split[e] else 0)
    && (forall k :: 0 <= k < |s.splits[e]| ==> s.splits[e][k] == Add(|c.next[e]|))
    && (Live(c, rank, e) && e !in c.inject ==>
          |s.adders[e]| == s.stat[e] == s.count[e] > 0 && s.unlocked[e] == [s.adders[e][s.stat[e] - 1]])
  }

  lemma QuiescentSettled(c: Config, rank: seq<nat>, s: State, e: nat)
    requires Inv(c, s) && Ranked(c, rank) && e < |c.next| && Quiescent(c, s)
    ensures Settled(c, rank, s, e)
  {
    hide StatBalanced, CountBalanced, Tickets;
    assert Life(c, s, e) && FiredRight(c, s, e);
    hide Lives, Fires, Complete;
    if Live(c, rank, e) {
      LiveBorn(c, rank, s, e);
      QuiescentSent(c, s, e);
    }
    if Born(c, s, e) {
      OnlyLive(c, rank, s, e);
    }
    hide Live;
    forall k | 0 <= k < |s.splits[e]| ensures s.splits[e][k] == Add(|c.next[e]|) {
      assert Finished(c, s, Split(e, k));
    }
  }

  // Exactly once: at the end of any complete run an event has been generated if and only if it is
  // live; a live event that was not injected was generated by exactly one thread, the one that made
  // the last fetch-add on its status, and all splits of every generated event have finished.
  lemma ExactlyOnce(c: Config, rank: seq<nat>, schedule: seq<Who>, e: nat)
    requires RootsOnly(c) && Ranked(c, rank) && e < |c.next|
    requires Runs(c, Init(c), schedule) && Quiescent(c, Run(c, Init(c), schedule))
    ensures Settled(c, rank, Run(c, Init(c), schedule), e)
  {
    hide Lives, Fires, StatBalanced, CountBalanced, Tickets, Settled;
    InvInit(c);
    InvRun(c, Init(c), schedule);
    QuiescentSettled(c, rank, Run(c, Init(c), schedule), e);
  }

  // Every run ends, within a bound known from the configuration alone.
  lemma {:induction false} RunsEnd(c: Config, s: State, schedule: seq<Who>)
    requires Inv(c, s) && Runs(c, s, schedule)
    ensures |schedule| <= Termination.Measure(c, s)
    decreases |schedule|
  {
    Termination.MeasureNonNegative(c, s);
    if schedule != [] {
      StepDecreases(c, s, schedule[0]);
      RunsEnd(c, Step(c, s, schedule[0]), schedule[1..]);
    }
  }

  lemma StepDecreases(c: Config, s: State, w: Who)
    requires Inv(c, s) && CanStep(c, s, w)
    ensures Inv(c, Step(c, s, w))
    ensures 0 <= Termination.Measure(c, Step(c, s, w)) < Termination.Measure(c, s)
  {
    InvStep(c, s, w);
    hide StatBalanced, CountBalanced, Tickets, Fires;
    var t := Step(c, s, w);
    forall e | 0 <= e < |c.next| ensures |t.unlocked[e]| <= 1 {
      assert Life(c, t, e);
    }
    Termination.MeasureStep(c, s, w);
  }

  // From every reachable state some schedule completes the slot.
  lemma {:induction false} Completes(c: Config, s: State) returns (schedule: seq<Who>)
    requires Inv(c, s)
    ensures Runs(c, s, schedule) && Inv(c, Run(c, s, schedule)) && Quiescent(c, Run(c, s, schedule))
    decreases Termination.Measure(c, s)
  {
    if w :| Exists(s, w) && !Finished(c, s, w) {
      StepDecreases(c, s, w);
      var rest := Completes(c, Step(c, s, w));
      schedule := [w] + rest;
      assert schedule[1..] == rest;
    } else {
      schedule := [];
    }
  }
}
