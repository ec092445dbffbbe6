// How far a slot gets when some of its splits are halted, and when an event is unlocked nevertheless.
module HaltedRun {
  import opened Sums
  import opened Scheduler
  import opened Ledger
  import opened RootFiring
  import opened Reinjection
  import opened CallbackSlot
  import opened OncePerSlot

  // The predecessor has delivered the signals of one complete generation.
  ghost predicate Waited(c: Config, s: State, p: nat, e: nat)
    requires Shape(c, s) && p < |c.next|
  {
    Sig(c.next[p], s.splits[p], e) >= c.split[p] * Degree(c.next[p], e)
  }

  // The event was unlocked although a predecessor has not delivered its signals.
  ghost predicate Early(c: Config, s: State, e: nat)
    requires Shape(c, s) && e < |c.next|
  {
    s.unlocked[e] != [] && exists p :: 0 <= p < |c.next| && e in c.next[p] && !Waited(c, s, p, e)
  }

  // ---- Events that are never early ----

  // A predecessor that cannot have been generated twice.
  lemma GeneratedOnce(c: Config, part: seq<nat>, s: State, p: nat)
    requires Reinjection.Inv(c, part, s) && p < |c.next|
    requires multiset(c.inject)[p] + (if IsRoot(c, p) then 0 else 1) <= 1
    ensures |s.splits[p]| <= c.split[p]
  {
    hide StatBalanced, CountBalanced, Tickets, Waiting, RaisedRight, Matches;
    assert Counted(c, s, p);
    assert c.inject == c.inject[..s.inj.pos] + c.inject[s.inj.pos..];
    var t := SentTimes(c, s, p);
    assert t <= 1;
    assert c.split[p] * t <= c.split[p];
  }

  lemma CompleteIsWaited(c: Config, s: State, p: nat, e: nat)
    requires Shape(c, s) && Complete(c, s, e) && p < |c.next| && e in c.next[p]
    ensures Waited(c, s, p, e)
  {
    DegreePositive(c.next[p], e);
    assert EdgeDone(c.next[p], c.split[p], s.splits[p], e);
    SumConst(SigRow(c.next[p], s.splits[p], e), Degree(c.next[p], e));
  }

  // No predecessor is generated twice: the event is never early.
  lemma SinglesAreWaitedFor(c: Config, part: seq<nat>, s: State, e: nat)
    requires Reinjection.Inv(c, part, s) && e < |c.next|
    requires forall p :: 0 <= p < |c.next| && e in c.next[p] ==>
      multiset(c.inject)[p] + (if IsRoot(c, p) then 0 else 1) <= 1
    ensures !Early(c, s, e)
  {
    assert Shape(c, s);
    hide Reinjection.Inv, Waited;
    if s.unlocked[e] != [] {
      forall p | 0 <= p < |c.next| && e in c.next[p] ensures |s.splits[p]| <= c.split[p] {
        GeneratedOnce(c, part, s, p);
      }
      OrderBehindSingles(c, part, s, e);
      forall p | 0 <= p < |c.next| && e in c.next[p] ensures Waited(c, s, p, e) {
        CompleteIsWaited(c, s, p, e);
      }
    }
  }

  // ---- Signals of other events ----

  lemma OthersEqual(c: Config, s: State, x: nat, e: nat)
    requires Shape(c, s) && x < |c.next| && e !in c.next[x] && s.raised[x] <= |c.next[x]|
    ensures Sig(c.next[x], s.splits[x], e) == Cap(c.next[x], c.split[x], s.raised[x], e) == 0
  {
    forall k | 0 <= k < |s.splits[x]| ensures Done(s.splits[x][k]) <= |c.next[x]| { DoneBounded(c, s, x, k); }
    NoEdge(c, s, x, e);
  }

  // A single predecessor supplies the whole status, and the whole count.
  lemma OnePredecessor(c: Config, part: seq<nat>, s: State, p: nat, e: nat)
    requires Reinjection.Inv(c, part, s) && p < |c.next| && e < |c.next| && e in c.next[p]
    requires forall x :: 0 <= x < |c.next| && e in c.next[x] ==> x == p
    ensures s.stat[e] == Sig(c.next[p], s.splits[p], e)
    ensures s.count[e] == c.wake[e] + Cap(c.next[p], c.split[p], s.raised[p], e)
  {
    hide Waiting, RaisedRight, Population, Matches, Tickets;
    var sigs, caps := Sigs(c, s.splits, e), Caps(c, s.raised, e);
    assert s.stat[e] == Sum(sigs) && s.count[e] == c.wake[e] + Sum(caps);
    forall x | 0 <= x < |c.next| && x != p ensures sigs[x] == 0 && caps[x] == 0 {
      OthersEqual(c, s, x, e);
    }
    OneNonZero(sigs, p);
    OneNonZero(caps, p);
  }

  lemma OneNonZero(s: seq<int>, p: nat)
    requires p < |s| && forall x :: 0 <= x < |s| && x != p ==> s[x] == 0
    ensures Sum(s) == s[p]
  {
    SumUpdate(s, p, 0);
    SumConst(s[p := 0], 0);
  }

  // An event with a single predecessor is never early, however often that one runs.
  lemma OnlyOneIsWaitedFor(c: Config, part: seq<nat>, s: State, p: nat, e: nat)
    requires Reinjection.Inv(c, part, s) && p < |c.next| && e < |c.next| && e in c.next[p]
    requires forall x :: 0 <= x < |c.next| && e in c.next[x] ==> x == p
    ensures !Early(c, s, e)
  {
    assert Shape(c, s) && Matched(c, s, e);
    hide StatBalanced, CountBalanced, Tickets, Waiting, Population, Matches;
    if s.unlocked[e] != [] {
      OnePredecessor(c, part, s, p, e);
      DegreePositive(c.next[p], e);
      RaisedBeforeSent(c, part, s, p, e);
      CapFull(c.next[p], c.split[p], s.raised[p], e);
    }
  }

  lemma NoSplitsNoSignal(row: seq<nat>, e: nat)
    ensures Sig(row, [], e) == 0
  {
  }

  // A predecessor with a signal behind it has been sent, so its increments are complete.
  lemma RaisedBeforeSent(c: Config, part: seq<nat>, s: State, p: nat, e: nat)
    requires Reinjection.Inv(c, part, s) && p < |c.next| && Sig(c.next[p], s.splits[p], e) > 0
    ensures s.raised[p] <= |c.next[p]| && (c.Raises(p) ==> s.raised[p] == |c.next[p]|)
  {
    hide StatBalanced, Tickets, Waiting, Matches;
    assert Counted(c, s, p) && s.raised[p] == ExpectedRaised(c, s, p);
    NoSplitsNoSignal(c.next[p], e);
    if c.Raises(p) {
      var t := SentTimes(c, s, p);
      assert t > 0 by { assert c.split[p] * 0 == 0; }
      assert s.unlocked[p] == [];
      assert multiset(c.inject[..s.inj.pos])[p] > 0;
    }
  }

  // ---- Where the run reaches when stopped ----

  // The halt does not keep the signals from p to e back.
  ghost predicate Passes(c: Config, h: Halt, p: nat, e: nat)
    requires p < |c.next|
  {
    p != h.event || (h.at.Add? && h.at.slot <= |c.next[p]| && Hits(c.next[p], h.at.slot, e) == Degree(c.next[p], e))
  }

  // All predecessors of e are in the set, and none is kept from signalling e.
  ghost predicate Supplied(c: Config, h: Halt, flow: set<nat>, e: nat) {
    && e < |c.wake| && c.wake[e] == 0 && !IsRoot(c, e)
    && forall p :: 0 <= p < |c.next| && e in c.next[p] ==> p in flow && Passes(c, h, p, e)
  }

  // A set of events that the halt does not reach.
  ghost predicate Flow(c: Config, rank: seq<nat>, h: Halt, flow: set<nat>) {
    && Ranked(c, rank)
    && forall e :: e in flow ==> e < |c.next| && (e in c.inject || Supplied(c, h, flow, e))
  }

  lemma StoppedUnready(c: Config, s: State, h: Halt, w: Who, e: nat)
    requires Shape(c, s) && Stopped(c, s, h) && e < |c.next|
    ensures Exists(s, w) && w.Split? ==> !s.splits[w.event][w.idx].Load?
    ensures !Generating(c, s, w, e)
  {
    if Exists(s, w) && !Halted(s, h, w) {
      assert Finished(c, s, w);
    }
  }

  // A sent predecessor that passes has delivered everything its splits have to say.
  lemma PassingEdge(c: Config, s: State, h: Halt, p: nat, e: nat)
    requires Shape(c, s) && Stopped(c, s, h) && p < |c.next| && Passes(c, h, p, e)
    ensures Sig(c.next[p], s.splits[p], e) == |s.splits[p]| * Degree(c.next[p], e)
  {
    forall k | 0 <= k < |s.splits[p]| ensures Hits(c.next[p], Done(s.splits[p][k]), e) == Degree(c.next[p], e) {
      if !Halted(s, h, Split(p, k)) {
        assert Finished(c, s, Split(p, k));
      } else if h.at.Pending? {
        assert false;
      }
    }
    SumConst(SigRow(c.next[p], s.splits[p], e), Degree(c.next[p], e));
  }

  lemma EdgeSupplies(c: Config, part: seq<nat>, s: State, h: Halt, p: nat, e: nat)
    requires Reinjection.Inv(c, part, s) && Stopped(c, s, h) && p < |c.next| && Passes(c, h, p, e)
    requires |s.splits[p]| >= c.split[p] && (c.Raises(p) ==> s.raised[p] == |c.next[p]|)
    ensures Sig(c.next[p], s.splits[p], e) >= Cap(c.next[p], c.split[p], s.raised[p], e)
  {
    assert s.raised[p] <= |c.next[p]|;
    hide StatBalanced, CountBalanced, Tickets, Waiting, RaisedRight, Population, Matches;
    PassingEdge(c, s, h, p, e);
    CapFull(c.next[p], c.split[p], s.raised[p], e);
    MulMono(c.split[p], |s.splits[p]|, Degree(c.next[p], e));
  }

  lemma StoppedFired(c: Config, part: seq<nat>, s: State, h: Halt, e: nat)
    requires Reinjection.Inv(c, part, s) && Stopped(c, s, h) && e < |c.next| && !IsRoot(c, e) && s.stat[e] >= s.count[e]
    ensures s.unlocked[e] != [] && UnlockSent(c, s, e) && |s.splits[e]| >= c.split[e] && !c.Raises(e)
  {
    hide StatBalanced, CountBalanced, Tickets, Waiting, RaisedRight, Population, Matches, Stopped;
    forall w ensures Exists(s, w) && w.Split? ==> !s.splits[w.event][w.idx].Load? { StoppedUnready(c, s, h, w, e); }
    MustHaveFired(c, part, s, e);
    StoppedUnready(c, s, h, s.unlocked[e][0], e);
    UnlockedSent(c, part, s, e);
    NonRootRaised(c, part, s, e);
  }

  lemma InjectorDone(c: Config, part: seq<nat>, s: State, h: Halt)
    requires Reinjection.Inv(c, part, s) && Stopped(c, s, h)
    ensures s.inj == Inject(|c.inject|) && c.inject[..s.inj.pos] == c.inject
  {
    hide StatBalanced, CountBalanced, Tickets, Waiting, RaisedRight, Population, Matches;
    assert !Halted(s, h, Injector);
    assert Finished(c, s, Injector);
  }

  lemma SuppliedFires(c: Config, part: seq<nat>, s: State, h: Halt, flow: set<nat>, e: nat)
    requires Reinjection.Inv(c, part, s) && Stopped(c, s, h) && e < |c.next| && Supplied(c, h, flow, e)
    requires forall p :: p in flow && p < |c.next| && e in c.next[p] ==>
      |s.splits[p]| >= c.split[p] && (c.Raises(p) ==> s.raised[p] == |c.next[p]|)
    ensures s.unlocked[e] != [] && UnlockSent(c, s, e) && |s.splits[e]| >= c.split[e] && !c.Raises(e)
  {
    hide StatBalanced, CountBalanced, Tickets, Waiting, RaisedRight, Population, Matches, Stopped;
    forall p | 0 <= p < |c.next| && e in c.next[p]
      ensures Sig(c.next[p], s.splits[p], e) >= Cap(c.next[p], c.split[p], s.raised[p], e)
    {
      EdgeSupplies(c, part, s, h, p, e);
    }
    StatusReached(c, part, s, e);
    StoppedFired(c, part, s, h, e);
  }

  // Everything in the set has been sent, and what has all its predecessors there has been unlocked.
  lemma {:induction false} FlowReached(c: Config, part: seq<nat>, rank: seq<nat>, s: State, h: Halt,
                                       flow: set<nat>, e: nat)
    requires Reinjection.Inv(c, part, s) && Stopped(c, s, h) && Flow(c, rank, h, flow) && e in flow
    ensures e < |c.next| && |s.splits[e]| >= c.split[e] && (c.Raises(e) ==> s.raised[e] == |c.next[e]|)
    ensures Supplied(c, h, flow, e) ==> UnlockSent(c, s, e)
    decreases rank[e]
  {
    assert e < |c.next|;
    hide StatBalanced, CountBalanced, Tickets, Waiting, RaisedRight, Population, Matches, Stopped;
    if Supplied(c, h, flow, e) {
      forall p | p in flow && p < |c.next| && e in c.next[p]
        ensures |s.splits[p]| >= c.split[p] && (c.Raises(p) ==> s.raised[p] == |c.next[p]|)
      {
        RankedEdge(c, rank, p, e);
        FlowReached(c, part, rank, s, h, flow, p);
      }
      SuppliedFires(c, part, s, h, flow, e);
    } else {
      InjectorDone(c, part, s, h);
      InjectedSent(c, part, s, e);
    }
  }

  lemma FlowSent(c: Config, part: seq<nat>, rank: seq<nat>, s: State, h: Halt, flow: set<nat>)
    requires Reinjection.Inv(c, part, s) && Stopped(c, s, h) && Flow(c, rank, h, flow)
    ensures forall p :: p in flow && p < |c.next| ==>
      |s.splits[p]| >= c.split[p] && (c.Raises(p) ==> s.raised[p] == |c.next[p]|)
  {
    hide StatBalanced, CountBalanced, Tickets, Waiting, RaisedRight, Population, Matches, Stopped, Flow;
    forall p | p in flow && p < |c.next|
      ensures |s.splits[p]| >= c.split[p] && (c.Raises(p) ==> s.raised[p] == |c.next[p]|)
    {
      FlowReached(c, part, rank, s, h, flow, p);
    }
  }

  // An event of the set that is also injected has run twice.
  lemma RanTwice(c: Config, part: seq<nat>, rank: seq<nat>, s: State, h: Halt, flow: set<nat>, p: nat)
    requires Reinjection.Inv(c, part, s) && Stopped(c, s, h) && Flow(c, rank, h, flow) && p in flow
    requires p in c.inject && Supplied(c, h, flow, p)
    ensures p < |c.next| && |s.splits[p]| >= 2 * c.split[p]
  {
    FlowReached(c, part, rank, s, h, flow, p);
    InjectorDone(c, part, s, h);
    hide StatBalanced, CountBalanced, Tickets, Waiting, RaisedRight, Matches, Stopped;
    assert Counted(c, s, p);
    assert multiset(c.inject)[p] > 0;
    var t := SentTimes(c, s, p);
    assert t >= 2;
    MulMono(2, t, c.split[p]);
  }

  // One signal too few from q, one too many from p.
  lemma Compensated(c: Config, part: seq<nat>, s: State, p: nat, q: nat, e: nat)
    requires Reinjection.Inv(c, part, s) && p < |c.next| && q < |c.next| && e < |c.next| && p != q
    requires Sig(c.next[p], s.splits[p], e) >= Cap(c.next[p], c.split[p], s.raised[p], e) + 1
    requires Sig(c.next[q], s.splits[q], e) >= Cap(c.next[q], c.split[q], s.raised[q], e) - 1
    requires forall x :: 0 <= x < |c.next| && e in c.next[x] && x != q ==>
      Sig(c.next[x], s.splits[x], e) >= Cap(c.next[x], c.split[x], s.raised[x], e)
    ensures s.stat[e] + c.wake[e] >= s.count[e]
  {
    hide Tickets, Waiting, RaisedRight, Population, Matches;
    var sigs, caps := Sigs(c, s.splits, e), Caps(c, s.raised, e);
    SumUpdate(caps, p, caps[p] + 1);
    SumUpdate(caps[p := caps[p] + 1], q, caps[q] - 1);
    var shifted := caps[p := caps[p] + 1][q := caps[q] - 1];
    forall x | 0 <= x < |c.next| ensures shifted[x] <= sigs[x] {
      if e !in c.next[x] && x != q {
        OthersEqual(c, s, x, e);
      }
    }
    SumDominated(shifted, sigs);
  }

  lemma TwiceSupplies(c: Config, part: seq<nat>, s: State, h: Halt, p: nat, e: nat)
    requires Reinjection.Inv(c, part, s) && Stopped(c, s, h) && p < |c.next| && Passes(c, h, p, e) && e in c.next[p]
    requires |s.splits[p]| >= 2 * c.split[p] && (c.Raises(p) ==> s.raised[p] == |c.next[p]|)
    ensures Sig(c.next[p], s.splits[p], e) >= Cap(c.next[p], c.split[p], s.raised[p], e) + 1
  {
    assert s.raised[p] <= |c.next[p]| && c.split[p] >= 1;
    assert c.Raises(p) <==> c.split[p] > 1 && |c.next[p]| > 0;
    hide *;
    PassingEdge(c, s, h, p, e);
    DegreePositive(c.next[p], e);
    CapFull(c.next[p], c.split[p], s.raised[p], e);
    TwiceIsMore(|s.splits[p]|, c.split[p], Degree(c.next[p], e));
  }

  lemma TwiceIsMore(n: nat, split: nat, d: nat)
    requires n >= 2 * split && split >= 1 && d >= 1
    ensures n * d >= split * d + 1
  {
    MulMono(2 * split, n, d);
    MulMono(1, split, d);
    assert (2 * split) * d == split * d + split * d;
  }

  // The event is unlocked although q has one signal to go: a predecessor that ran twice makes up for it.
  lemma UnlockedWithout(c: Config, part: seq<nat>, rank: seq<nat>, s: State, h: Halt, flow: set<nat>,
                        p: nat, q: nat, e: nat)
    requires Reinjection.Inv(c, part, s) && Stopped(c, s, h) && Flow(c, rank, h, flow)
    requires e < |c.next| && c.wake[e] == 0 && !IsRoot(c, e) && p < |c.next| && q < |c.next| && p != q && e in c.next[p]
    requires forall x :: 0 <= x < |c.next| && e in c.next[x] && x != q ==> x in flow && Passes(c, h, x, e)
    requires p in c.inject && Supplied(c, h, flow, p)
    requires Sig(c.next[q], s.splits[q], e) >= Cap(c.next[q], c.split[q], s.raised[q], e) - 1
    ensures s.unlocked[e] != [] && UnlockSent(c, s, e) && |s.splits[e]| >= c.split[e]
  {
    assert e in c.next[p] && p in flow && Passes(c, h, p, e);
    hide StatBalanced, CountBalanced, Tickets, Waiting, RaisedRight, Population, Matches;
    hide Stopped, Supplied, Passes, Flow;
    forall x | 0 <= x < |c.next| && e in c.next[x] && x != q
      ensures Sig(c.next[x], s.splits[x], e) >= Cap(c.next[x], c.split[x], s.raised[x], e)
    {
      FlowReached(c, part, rank, s, h, flow, x);
      EdgeSupplies(c, part, s, h, x, e);
    }
    FlowReached(c, part, rank, s, h, flow, p);
    RanTwice(c, part, rank, s, h, flow, p);
    TwiceSupplies(c, part, s, h, p, e);
    Compensated(c, part, s, p, q, e);
    StoppedFired(c, part, s, h, e);
  }
}
