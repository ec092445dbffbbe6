// When the order of the task map can be relied on: exactly when the callback generates only events
// without predecessors itself.
module OrderExactly {
  import opened Scheduler
  import opened Ledger
  import opened RootFiring
  import OncePerSlot
  import Counting

  // Splits of an event exist only after all its predecessors are done, whatever the interleaving.
  ghost predicate InOrder(c: Config)
    requires c.Valid()
  {
    forall schedule, e: nat :: Runs(c, Init(c), schedule) && e < |c.next| ==> OrderedAt(c, Run(c, Init(c), schedule), e)
  }

  ghost predicate OrderedAt(c: Config, s: State, e: nat)
    requires Shape(c, s) && e < |c.next|
  {
    s.splits[e] != [] ==> Complete(c, s, e)
  }

  // The callback has been running alone: everything it sent still waits.
  ghost predicate OnlyPending(c: Config, s: State) {
    && Shape(c, s)
    && (forall p, k :: 0 <= p < |s.splits| && 0 <= k < |s.splits[p]| ==> s.splits[p][k] == Pending)
    && (forall i :: 0 <= i < Position(s.inj) && i < |c.inject| ==> s.splits[c.inject[i]] != [])
    && (forall p :: 0 <= p < |s.splits| && s.splits[p] != [] ==> p in c.inject)
  }

  function Position(pc: InjectorPc): nat {
    match pc
    case Inject(pos) => pos
    case InjRaise(pos, _) => pos
    case InjSend(pos) => pos
  }

  lemma InjectorAloneStep(c: Config, s: State)
    requires OnlyPending(c, s) && CanStep(c, s, Injector)
    ensures OnlyPending(c, InjectorStep(c, s))
  {
    var t := InjectorStep(c, s);
    forall i | 0 <= i < Position(t.inj) && i < |c.inject| ensures t.splits[c.inject[i]] != [] {
      assert i < Position(s.inj) || c.inject[i] == c.inject[Position(s.inj)];
    }
  }

  // The callback can run to its end before any split is picked up.
  lemma {:induction false} InjectorAlone(c: Config, s: State) returns (schedule: seq<Who>)
    requires OnlyPending(c, s)
    ensures Runs(c, s, schedule)
    ensures OnlyPending(c, Run(c, s, schedule)) && Run(c, s, schedule).inj == Inject(|c.inject|)
    decreases |c.inject| - Position(s.inj), if s.inj.Inject? then 2 else if s.inj.InjRaise? then 1 else 0,
              if s.inj.InjRaise? then |c.next[c.inject[s.inj.pos]]| - s.inj.nxt else 0
  {
    if s.inj == Inject(|c.inject|) {
      schedule := [];
    } else {
      InjectorAloneStep(c, s);
      var rest := InjectorAlone(c, InjectorStep(c, s));
      schedule := [Injector] + rest;
      assert schedule[1..] == rest;
    }
  }

  // An event with splits while those of a predecessor are absent or waiting is out of order.
  lemma PendingIsOutOfOrder(c: Config, s: State, e: nat)
    requires OnlyPending(c, s) && e < |c.next| && s.splits[e] != [] && !IsRoot(c, e)
    ensures !OrderedAt(c, s, e)
  {
    var p, j :| 0 <= p < |c.next| && 0 <= j < |c.next[p]| && c.next[p][j] == e;
    var row := c.next[p];
    OncePerSlot.DegreePositive(row, e);
    assert Hits(row, 0, e) == 0;
    if |s.splits[p]| == c.split[p] {
      assert Done(s.splits[p][0]) == 0;
    }
    assert !EdgeDone(row, c.split[p], s.splits[p], e);
  }

  lemma RootsKeepOrder(c: Config, schedule: seq<Who>, e: nat)
    requires RootsOnly(c) && Runs(c, Init(c), schedule) && e < |c.next|
    ensures OrderedAt(c, Run(c, Init(c), schedule), e)
  {
    hide Complete;
    OncePerSlot.EveryState(c, schedule, e);
  }

  // For any task map, split counts and injection list without repetition: no interleaving ever runs an
  // event before all its predecessors are done, if and only if nothing with predecessors is injected.
  lemma OrderExactly(c: Config)
    requires c.Valid() && Counting.Distinct(c.inject)
    ensures InOrder(c) <==> forall i :: 0 <= i < |c.inject| ==> IsRoot(c, c.inject[i])
  {
    if i :| 0 <= i < |c.inject| && !IsRoot(c, c.inject[i]) {
      var schedule := InjectorAlone(c, Init(c));
      PendingIsOutOfOrder(c, Run(c, Init(c), schedule), c.inject[i]);
    } else {
      forall schedule, e: nat | Runs(c, Init(c), schedule) && e < |c.next|
        ensures OrderedAt(c, Run(c, Init(c), schedule), e)
      {
        RootsKeepOrder(c, schedule, e);
      }
    }
  }
}
