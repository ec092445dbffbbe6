// Regime of the TTI callback itself, which also generates events that have predecessors.
//
// Such an event runs more than once in a slot and its successors receive more signals than they
// count, so the order of the task map is not respected any more.  Still no event is generated
// through next_event_unlock twice.  What carries this is not the balance of the counters but that
// counts do not move while signals arrive: only events without predecessors ask for several splits,
// and the callback generates each of them before anything else of its part of the task map.
module Reinjection {
  import opened Scheduler
  import opened Ledger
  import opened RootFiring

  // `part` separates the independent parts of the task map (downlink and uplink).
  ghost predicate Staged(c: Config, part: seq<nat>) {
    && c.Valid() && |part| == |c.next|
    && (forall p, j :: 0 <= p < |c.next| && 0 <= j < |c.next[p]| ==> part[c.next[p][j]] == part[p])
    && (forall e :: 0 <= e < |c.next| && c.Raises(e) ==> IsRoot(c, e))
    && (forall i, j :: 0 <= i < j < |c.inject| ==>
          && (c.Raises(c.inject[j]) ==> part[c.inject[i]] != part[c.inject[j]])
          && (c.Raises(c.inject[i]) ==> c.inject[i] != c.inject[j]))
  }

  ghost function ExpectedRaised(c: Config, s: State, e: nat): nat
    requires Shape(c, s) && e < |c.next|
  {
    if !c.Raises(e) then 0
    else if e in c.inject[..s.inj.pos] then |c.next[e]|
    else if Generating(c, s, Injector, e) then InjRaisedBy(c, s.inj, e)
    else 0
  }

  ghost predicate RaisedRight(c: Config, s: State)
    requires Shape(c, s)
  {
    forall e :: 0 <= e < |c.next| ==> s.raised[e] == ExpectedRaised(c, s, e)
  }

  // Nothing of this event has happened yet.
  ghost predicate Untouched(s: State, e: nat) {
    && e < |s.splits| && e < |s.unlocked| && e < |s.stat|
    && s.splits[e] == [] && s.unlocked[e] == [] && s.stat[e] == 0
  }

  // The part of the map an outstanding splitting injection belongs to is still untouched.
  ghost predicate Waiting(c: Config, part: seq<nat>, s: State)
    requires Shape(c, s) && Staged(c, part)
  {
    forall i, e | s.inj.pos <= i < |c.inject| && 0 <= e < |c.next| ::
      c.Raises(c.inject[i]) && part[e] == part[c.inject[i]] ==> Untouched(s, e)
  }

  ghost predicate UnlockSent(c: Config, s: State, e: nat)
    requires Shape(c, s) && e < |c.next|
  {
    s.unlocked[e] != [] && !Generating(c, s, s.unlocked[e][0], e)
  }

  ghost function SentTimes(c: Config, s: State, e: nat): nat
    requires Shape(c, s) && e < |c.next|
  {
    Hits(c.inject, s.inj.pos, e) + if UnlockSent(c, s, e) then 1 else 0
  }

  ghost predicate Counted(c: Config, s: State, e: nat)
    requires Shape(c, s) && e < |c.next|
  {
    && |s.unlocked[e]| <= 1
    && (s.unlocked[e] != [] ==> s.unlocked[e][0].Split?)
    && (IsRoot(c, e) ==> s.unlocked[e] == [])
    && |s.splits[e]| == c.split[e] * SentTimes(c, s, e)
    && (forall w: Who :: w.Split? && Generating(c, s, w, e) ==> s.unlocked[e] == [w])
  }

  ghost predicate Population(c: Config, s: State)
    requires Shape(c, s)
  {
    forall e :: 0 <= e < |c.next| ==> Counted(c, s, e)
  }

  ghost predicate LoadsMatch(c: Config, s: State, w: Who, e: nat)
    requires Shape(c, s) && e < |c.next|
  {
    && w.Split? && Exists(s, w)
    && var pc := s.splits[w.event][w.idx];
       pc.Load? && PcOk(c, w.event, pc) && c.next[w.event][pc.slot] == e && pc.seen == s.count[e]
  }

  // The unlocker is the one thread whose fetch-add returned the count.
  ghost predicate Matched(c: Config, s: State, e: nat)
    requires Shape(c, s) && e < |c.next|
  {
    && (s.unlocked[e] != [] ==>
          && 0 < s.count[e] <= s.stat[e] == |s.adders[e]|
          && s.unlocked[e] == [s.adders[e][s.count[e] - 1]]
          && !LoadsMatch(c, s, s.unlocked[e][0], e))
    && (s.unlocked[e] == [] && 0 < s.count[e] <= s.stat[e] == |s.adders[e]| ==>
          LoadsMatch(c, s, s.adders[e][s.count[e] - 1], e))
  }

  ghost predicate Matches(c: Config, s: State)
    requires Shape(c, s)
  {
    forall e :: 0 <= e < |c.next| ==> Matched(c, s, e)
  }

  ghost predicate Inv(c: Config, part: seq<nat>, s: State) {
    && Staged(c, part) && Shape(c, s)
    && StatBalanced(c, s.splits, s.stat, s.adders)
    && CountBalanced(c, s.count, s.raised)
    && Tickets(c, s.splits, s.stat, s.adders)
    && RaisedRight(c, s) && Waiting(c, part, s) && Population(c, s) && Matches(c, s)
  }

  // Splits never raise counts: what they generate has a predecessor.
  lemma NoSplitRaises(c: Config, part: seq<nat>, s: State, p: nat, k: nat)
    requires Staged(c, part) && Shape(c, s) && p < |s.splits| && k < |s.splits[p]|
    ensures !s.splits[p][k].Raise?
    ensures forall i :: 0 <= i < |c.next[p]| ==> !c.Raises(c.next[p][i]) && !IsRoot(c, c.next[p][i])
  {
    assert PcOk(c, p, s.splits[p][k]);
  }

  lemma OrderFromRaised(c: Config, part: seq<nat>, s: State, w: Who)
    requires Staged(c, part) && Shape(c, s) && RaisedRight(c, s) && Exists(s, w)
    ensures RaisesInOrder(c, s, w)
  {
    forall e, j | 0 <= e < |c.next| && Raising(c, s, w, e, j) ensures s.raised[e] == j {
      match w
      case Injector =>
        assert Generating(c, s, Injector, e);
        assert e !in c.inject[..s.inj.pos];
      case Split(p, k) => NoSplitRaises(c, part, s, p, k);
    }
  }

  lemma LedgersStep(c: Config, part: seq<nat>, s: State, w: Who)
    requires Inv(c, part, s) && CanStep(c, s, w)
    ensures var t := Step(c, s, w);
      && StatBalanced(c, t.splits, t.stat, t.adders)
      && CountBalanced(c, t.count, t.raised)
      && Tickets(c, t.splits, t.stat, t.adders)
  {
    hide StatBalanced, CountBalanced, Tickets, Waiting, Population, Matches;
    OrderFromRaised(c, part, s, w);
    StatStep(c, s, w);
    CountStep(c, s, w);
    TicketStep(c, s, w);
  }

  // ---- The record of increments ----

  lemma RaisedStep(c: Config, part: seq<nat>, s: State, w: Who)
    requires Staged(c, part) && Shape(c, s) && RaisedRight(c, s) && CanStep(c, s, w)
    ensures RaisedRight(c, Step(c, s, w))
  {
    var t := Step(c, s, w);
    if w.Split? { NoSplitRaises(c, part, s, w.event, w.idx); }
    forall e | 0 <= e < |c.next| ensures t.raised[e] == ExpectedRaised(c, t, e) {
      assert s.raised[e] == ExpectedRaised(c, s, e);
      if w.Injector? {
        assert s.inj.InjSend? ==> c.inject[..s.inj.pos + 1] == c.inject[..s.inj.pos] + [c.inject[s.inj.pos]];
      }
    }
  }

  // ---- Outstanding parts stay untouched ----

  lemma WaitingSplit(c: Config, part: seq<nat>, s: State, p: nat, k: nat)
    requires Staged(c, part) && Shape(c, s) && Waiting(c, part, s) && CanStep(c, s, Split(p, k))
    ensures Waiting(c, part, SplitStep(c, s, p, k))
  {
    var t := SplitStep(c, s, p, k);
    assert PcOk(c, p, s.splits[p][k]);
    forall i, e |
      t.inj.pos <= i < |c.inject| && 0 <= e < |c.next| && c.Raises(c.inject[i]) && part[e] == part[c.inject[i]]
      ensures Untouched(t, e)
    {
      assert Untouched(s, e);
      assert part[p] == part[c.inject[i]] ==> Untouched(s, p);
    }
  }

  lemma WaitingInjector(c: Config, part: seq<nat>, s: State)
    requires Staged(c, part) && Shape(c, s) && Waiting(c, part, s) && CanStep(c, s, Injector)
    ensures Waiting(c, part, InjectorStep(c, s))
  {
    var t := InjectorStep(c, s);
    forall i, e |
      t.inj.pos <= i < |c.inject| && 0 <= e < |c.next| && c.Raises(c.inject[i]) && part[e] == part[c.inject[i]]
      ensures Untouched(t, e)
    {
      assert Untouched(s, e);
    }
  }

  // ---- How many splits of each event exist ----

  lemma CountedSame(c: Config, s: State, t: State, e: nat)
    requires Shape(c, s) && Shape(c, t) && e < |c.next| && Counted(c, s, e)
    requires t.unlocked[e] == s.unlocked[e] && |t.splits[e]| == |s.splits[e]|
    requires Hits(c.inject, t.inj.pos, e) == Hits(c.inject, s.inj.pos, e)
    requires forall w: Who :: w.Split? ==> Generating(c, t, w, e) == Generating(c, s, w, e)
    ensures Counted(c, t, e)
  {
  }

  // A step of one split that leaves generation alone.
  lemma PopulationQuiet(c: Config, s: State, t: State, p: nat, k: nat)
    requires Shape(c, s) && Shape(c, t) && Population(c, s) && p < |s.splits| && k < |s.splits[p]|
    requires |t.splits[p]| == |s.splits[p]| && t.splits == s.splits[p := s.splits[p][k := t.splits[p][k]]]
    requires t.unlocked == s.unlocked && t.inj == s.inj
    requires !s.splits[p][k].Raise? && !s.splits[p][k].Send? && !t.splits[p][k].Raise? && !t.splits[p][k].Send?
    ensures Population(c, t)
  {
    forall e | 0 <= e < |c.next| ensures Counted(c, t, e) {
      hide Counted;
      CountedSame(c, s, t, e);
    }
  }

  lemma PopulationFire(c: Config, s: State, t: State, p: nat, k: nat, i: nat, x: nat)
    requires Shape(c, s) && Shape(c, t) && Population(c, s) && p < |s.splits| && k < |s.splits[p]|
    requires i < |c.next[p]| && c.next[p][i] == x && !IsRoot(c, x) && !c.Raises(x)
    requires s.splits[p][k].Load? && s.unlocked[x] == []
    requires t.splits == s.splits[p := s.splits[p][k := Send(i)]]
    requires t.unlocked == s.unlocked[x := [Split(p, k)]] && t.inj == s.inj
    ensures Population(c, t)
  {
    forall e | 0 <= e < |c.next| ensures Counted(c, t, e) {
      assert Counted(c, s, e);
      if e == x {
        forall w: Who ensures w.Split? && Generating(c, t, w, e) ==> w == Split(p, k) {
          assert Generating(c, s, w, e) || w == Split(p, k) || !w.Split? || !Generating(c, t, w, e);
        }
        assert Generating(c, t, Split(p, k), e);
      } else {
        hide Counted;
        CountedSame(c, s, t, e);
      }
    }
  }

  lemma Again(n: nat, times: nat)
    ensures n * (times + 1) == n * times + n
  {
  }

  lemma PopulationSend(c: Config, s: State, t: State, p: nat, k: nat, x: nat)
    requires Shape(c, s) && Shape(c, t) && Population(c, s) && p < |s.splits| && k < |s.splits[p]|
    requires s.splits[p][k].Send? && Generating(c, s, Split(p, k), x)
    requires t == Spawn(c, Move(s, p, k, Add(s.splits[p][k].slot + 1)), x)
    ensures Population(c, t)
  {
    forall e | 0 <= e < |c.next| ensures Counted(c, t, e) {
      assert Counted(c, s, e);
      if e == x {
        Again(c.split[e], SentTimes(c, s, e));
        forall w: Who ensures !(w.Split? && Generating(c, t, w, e)) {
          assert Generating(c, s, w, e) || !w.Split? || !Generating(c, t, w, e);
        }
      } else {
        hide Counted;
        CountedSame(c, s, t, e);
      }
    }
  }

  lemma PopulationInjector(c: Config, s: State)
    requires Shape(c, s) && Population(c, s) && CanStep(c, s, Injector)
    ensures Population(c, InjectorStep(c, s))
  {
    var t := InjectorStep(c, s);
    forall e | 0 <= e < |c.next| ensures Counted(c, t, e) {
      assert Counted(c, s, e);
      if s.inj.InjSend? {
        HitsNext(c.inject, s.inj.pos, e);
        Again(c.split[e], SentTimes(c, s, e));
      }
      forall w: Who ensures w.Split? ==> Generating(c, t, w, e) == Generating(c, s, w, e) {}
    }
  }

  // ---- Tickets against the count ----

  lemma MatchesQuiet(c: Config, s: State, t: State, p: nat, k: nat)
    requires Shape(c, s) && Shape(c, t) && Matches(c, s) && p < |s.splits| && k < |s.splits[p]|
    requires |t.splits[p]| == |s.splits[p]| && t.splits == s.splits[p := s.splits[p][k := t.splits[p][k]]]
    requires t.unlocked == s.unlocked && t.adders == s.adders && t.stat == s.stat && t.count == s.count
    requires forall e :: 0 <= e < |c.next| ==> !LoadsMatch(c, s, Split(p, k), e)
    requires !t.splits[p][k].Load?
    ensures Matches(c, t)
  {
    forall e | 0 <= e < |c.next| ensures Matched(c, t, e) {
      assert Matched(c, s, e);
    }
  }

  lemma MatchesAdd(c: Config, s: State, t: State, p: nat, k: nat, i: nat)
    requires Shape(c, s) && Shape(c, t) && Matches(c, s) && Added(c, s, t, p, k, i)
    requires Tickets(c, s.splits, s.stat, s.adders)
    ensures Matches(c, t)
  {
    forall e | 0 <= e < |c.next| ensures Matched(c, t, e) {
      assert Matched(c, s, e);
    }
  }

  // The firing thread holds the ticket equal to the count, so nobody has fired before.
  lemma FiresFirst(c: Config, s: State, p: nat, k: nat, i: nat)
    requires Shape(c, s) && Matches(c, s) && Tickets(c, s.splits, s.stat, s.adders)
    requires p < |s.splits| && k < |s.splits[p]| && i < |c.next[p]|
    requires s.splits[p][k] == Load(i, s.count[c.next[p][i]])
    ensures var e := c.next[p][i];
      && s.unlocked[e] == [] && 0 < s.count[e] <= s.stat[e] == |s.adders[e]|
      && s.adders[e][s.count[e] - 1] == Split(p, k)
  {
    assert Ticket(c, s.splits[p][k], s.adders, p, k);
    assert PcOk(c, p, s.splits[p][k]);
    assert LoadsMatch(c, s, Split(p, k), c.next[p][i]);
    assert Matched(c, s, c.next[p][i]);
  }

  lemma MatchesFire(c: Config, s: State, t: State, p: nat, k: nat, i: nat)
    requires Shape(c, s) && Shape(c, t) && Matches(c, s) && Fired(c, s, t, p, k, i)
    requires Tickets(c, s.splits, s.stat, s.adders)
    ensures Matches(c, t)
  {
    FiresFirst(c, s, p, k, i);
    forall e | 0 <= e < |c.next| ensures Matched(c, t, e) {
      assert Matched(c, s, e);
    }
  }

  lemma MatchesSpawn(c: Config, s: State, t: State, x: nat)
    requires Shape(c, s) && Shape(c, t) && Matches(c, s) && x < |c.next|
    requires t.splits == Spawn(c, s, x).splits
    requires t.unlocked == s.unlocked && t.adders == s.adders && t.stat == s.stat && t.count == s.count
    ensures Matches(c, t)
  {
    forall e | 0 <= e < |c.next| ensures Matched(c, t, e) {
      assert Matched(c, s, e);
      if 0 < s.count[e] <= s.stat[e] == |s.adders[e]| {
        var w := s.adders[e][s.count[e] - 1];
        assert LoadsMatch(c, s, w, e) ==> LoadsMatch(c, t, w, e);
      }
      if s.unlocked[e] != [] {
        assert LoadsMatch(c, s, s.unlocked[e][0], e) || !LoadsMatch(c, t, s.unlocked[e][0], e);
      }
    }
  }

  lemma MatchesInjector(c: Config, part: seq<nat>, s: State)
    requires Staged(c, part) && Shape(c, s) && Waiting(c, part, s) && Matches(c, s) && CanStep(c, s, Injector)
    ensures Matches(c, InjectorStep(c, s))
  {
    var t := InjectorStep(c, s);
    match s.inj
    case InjSend(pos) => MatchesSpawn(c, s, t, c.inject[pos]);
    case InjRaise(pos, j) =>
      var x := c.next[c.inject[pos]][j];
      assert part[x] == part[c.inject[pos]];
      assert Untouched(s, x);
      forall e | 0 <= e < |c.next| ensures Matched(c, t, e) {
        assert Matched(c, s, e);
      }
    case Inject(pos) =>
      forall e | 0 <= e < |c.next| ensures Matched(c, t, e) {
        assert Matched(c, s, e);
      }
  }

  // ---- The invariant of every reachable state ----

  lemma LoadInv(c: Config, part: seq<nat>, s: State, p: nat, k: nat)
    requires Inv(c, part, s) && CanStep(c, s, Split(p, k)) && s.splits[p][k].Load?
    ensures Population(c, SplitStep(c, s, p, k)) && Matches(c, SplitStep(c, s, p, k))
  {
    var t, i := SplitStep(c, s, p, k), s.splits[p][k].slot;
    assert PcOk(c, p, s.splits[p][k]);
    NoSplitRaises(c, part, s, p, k);
    hide StatBalanced, CountBalanced, Tickets, Population, Matches, Waiting, RaisedRight, Staged, IsRoot;
    if s.splits[p][k].seen == s.count[c.next[p][i]] {
      FiresFirst(c, s, p, k, i);
      assert s.unlocked[c.next[p][i]] + [Split(p, k)] == [Split(p, k)];
      PopulationFire(c, s, t, p, k, i, c.next[p][i]);
      MatchesFire(c, s, t, p, k, i);
    } else {
      PopulationQuiet(c, s, t, p, k);
      MatchesQuiet(c, s, t, p, k);
    }
  }

  lemma SendInv(c: Config, part: seq<nat>, s: State, p: nat, k: nat)
    requires Inv(c, part, s) && CanStep(c, s, Split(p, k)) && s.splits[p][k].Send?
    ensures Population(c, SplitStep(c, s, p, k)) && Matches(c, SplitStep(c, s, p, k))
  {
    var t, i := SplitStep(c, s, p, k), s.splits[p][k].slot;
    assert PcOk(c, p, s.splits[p][k]);
    hide StatBalanced, CountBalanced, Tickets, Population, Matches, Waiting, RaisedRight, Staged, IsRoot;
    var m := Move(s, p, k, Add(i + 1));
    PopulationSend(c, s, t, p, k, c.next[p][i]);
    MatchesQuiet(c, s, m, p, k);
    MatchesSpawn(c, m, t, c.next[p][i]);
  }

  lemma SplitInv(c: Config, part: seq<nat>, s: State, p: nat, k: nat)
    requires Inv(c, part, s) && CanStep(c, s, Split(p, k))
    ensures Population(c, SplitStep(c, s, p, k)) && Matches(c, SplitStep(c, s, p, k))
  {
    var t := SplitStep(c, s, p, k);
    var pc := s.splits[p][k];
    assert PcOk(c, p, pc);
    NoSplitRaises(c, part, s, p, k);
    hide StatBalanced, CountBalanced, Tickets, Population, Matches, Waiting, RaisedRight, Staged, IsRoot;
    match pc
    case Pending => PopulationQuiet(c, s, t, p, k); MatchesQuiet(c, s, t, p, k);
    case Running => PopulationQuiet(c, s, t, p, k); MatchesQuiet(c, s, t, p, k);
    case Add(i) => PopulationQuiet(c, s, t, p, k); MatchesAdd(c, s, t, p, k, i);
    case Load(i, seen) => LoadInv(c, part, s, p, k);
    case Raise(i, j) =>
    case Send(i) => SendInv(c, part, s, p, k);
  }

  lemma InvStep(c: Config, part: seq<nat>, s: State, w: Who)
    requires Inv(c, part, s) && CanStep(c, s, w)
    ensures Inv(c, part, Step(c, s, w))
  {
    hide StatBalanced, CountBalanced, Tickets, Population, Matches, Waiting, RaisedRight;
    LedgersStep(c, part, s, w);
    RaisedStep(c, part, s, w);
    match w
    case Injector =>
      WaitingInjector(c, part, s);
      PopulationInjector(c, s);
      MatchesInjector(c, part, s);
    case Split(p, k) =>
      WaitingSplit(c, part, s, p, k);
      SplitInv(c, part, s, p, k);
  }

  // Once a predecessor of e has splits, the count of e no longer changes: a split that compares the two
  // counters finds the same count whether it loads it before or after its own fetch-add.
  lemma CountFrozen(c: Config, part: seq<nat>, s: State, w: Who, p: nat, e: nat)
    requires Inv(c, part, s) && CanStep(c, s, w)
    requires p < |c.next| && e in c.next[p] && s.splits[p] != []
    ensures Step(c, s, w).count[e] == s.count[e]
  {
    hide StatBalanced, CountBalanced, Tickets, RaisedRight, Population, Matches;
    var i :| 0 <= i < |c.next[p]| && c.next[p][i] == e;
    match w
    case Split(x, k) => NoSplitRaises(c, part, s, x, k);
    case Injector =>
      if s.inj.InjRaise? {
        var x := c.inject[s.inj.pos];
        assert part[p] == part[x] ==> Untouched(s, p);
        assert part[c.next[x][s.inj.nxt]] == part[x];
      }
  }

  lemma InvInit(c: Config, part: seq<nat>)
    requires Staged(c, part)
    ensures Inv(c, part, Init(c))
  {
    hide StatBalanced, CountBalanced, Tickets, InDegree;
    InitStat(c);
    InitCount(c);
    var s := Init(c);
    forall e | 0 <= e < |c.next| ensures Counted(c, s, e) {
      assert c.split[e] * 0 == 0;
    }
  }

  lemma {:induction false} InvRun(c: Config, part: seq<nat>, s: State, schedule: seq<Who>)
    requires Inv(c, part, s) && Runs(c, s, schedule)
    ensures Inv(c, part, Run(c, s, schedule))
    decreases |schedule|
  {
    hide StatBalanced, CountBalanced, Tickets, Population, Matches, Waiting, RaisedRight;
    if schedule != [] {
      InvStep(c, part, s, schedule[0]);
      InvRun(c, part, Step(c, s, schedule[0]), schedule[1..]);
    }
  }
}
