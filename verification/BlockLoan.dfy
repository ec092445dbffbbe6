// Who holds which block while a memory master and a slave exchange messages.
module BlockLoan {
  import opened Counting
  import opened LoanSteps

  // ---- Ownership ----

  // After any run every block of the pool is in exactly one place, once: free, in the master's hands,
  // queued for the slave, in the slave's hands, on its way back, or lost.
  lemma OneOwner(events: seq<Event>, blockNum: nat, capacity: nat, b: nat)
    requires Runs(Init(blockNum), events, blockNum, capacity)
    ensures var s := Run(Init(blockNum), events, blockNum, capacity);
      Owners(s, b) == (if b < blockNum then 1 else 0) && Blocks(s) == blockNum
  {
    var s0 := Init(blockNum);
    CountAll(blockNum, b);
    CountNil(b);
    assert Owners(s0, b) == Count(AllBlocks(blockNum), b);
    hide Count, Step, Enabled;
    RunBalance(s0, events, blockNum, capacity, b);
  }

  function Places(s: State): seq<seq<nat>> {
    [s.free, MasterHeld(s.master), s.ulq, SlaveHeld(s.slave), s.inflight, s.lost]
  }

  // Block b is counted in every place it is in.
  lemma CountedIn(s: State, i: nat, b: nat)
    requires i < 6
    ensures Owners(s, b) >= Count(Places(s)[i], b)
    ensures forall j :: 0 <= j < 6 && j != i ==> Owners(s, b) >= Count(Places(s)[i], b) + Count(Places(s)[j], b)
  {
    hide Count;
  }

  ghost predicate Once(s: State, blockNum: nat) {
    forall b: nat :: Owners(s, b) == if b < blockNum then 1 else 0
  }

  lemma OnceInPlace(s: State, blockNum: nat, i: nat)
    requires Once(s, blockNum) && i < 6
    ensures Distinct(Places(s)[i]) && forall b :: b in Places(s)[i] ==> b < blockNum
  {
    var place := Places(s)[i];
    hide Places, Owners;
    forall b: nat ensures Count(place, b) <= 1 && (b in place ==> b < blockNum) {
      assert Owners(s, b) == if b < blockNum then 1 else 0;
      CountedIn(s, i, b);
    }
    OnceIsDistinct(place);
  }

  // The same, place by place: no block is in two of them, nor twice in one.
  lemma NeverTwice(events: seq<Event>, blockNum: nat, capacity: nat)
    requires Runs(Init(blockNum), events, blockNum, capacity)
    ensures var places := Places(Run(Init(blockNum), events, blockNum, capacity));
      && (forall i :: 0 <= i < |places| ==> Distinct(places[i]) && forall b :: b in places[i] ==> b < blockNum)
      && (forall i, j, b :: 0 <= i < j < |places| && b in places[i] ==> b !in places[j])
  {
    var s := Run(Init(blockNum), events, blockNum, capacity);
    var places := Places(s);
    forall b: nat ensures Owners(s, b) == if b < blockNum then 1 else 0 {
      OneOwner(events, blockNum, capacity, b);
    }
    assert Once(s, blockNum) && |places| == 6;
    hide Places, Owners, Once, Count;
    forall i | 0 <= i < |places| ensures Distinct(places[i]) && forall b :: b in places[i] ==> b < blockNum {
      OnceInPlace(s, blockNum, i);
    }
    forall i, j, b | 0 <= i < j < |places| && b in places[i] ensures b !in places[j] {
      CountedIn(s, i, b);
      assert Owners(s, b) <= 1;
    }
  }

  // The block the next master step frees, if it frees one.
  function AboutToFree(pc: MasterPc): seq<nat> {
    match pc
    case RFree(b, _) => [b]
    case RxFree(b) => [b]
    case TxFree(list, next, _) => if next < |list| then [list[next]] else []
    case _ => []
  }

  // Whatever the interleaving, the test program frees only blocks of the pool that are not free
  // already, and the ring of free indices has room.
  lemma FreesAreWellFormed(events: seq<Event>, blockNum: nat, capacity: nat)
    requires Runs(Init(blockNum), events, blockNum, capacity)
    ensures var s := Run(Init(blockNum), events, blockNum, capacity);
      forall b :: b in AboutToFree(s.master) ==> b < blockNum && b !in s.free && |s.free| < blockNum
  {
    var s := Run(Init(blockNum), events, blockNum, capacity);
    var places := Places(s);
    NeverTwice(events, blockNum, capacity);
    forall b | b in AboutToFree(s.master) ensures b < blockNum && b !in s.free && |s.free| < blockNum {
      assert b in MasterHeld(s.master) by {
        if s.master.TxFree? {
          assert MasterHeld(s.master)[0] == b;
        }
      }
      assert b in places[1] && s.free == places[0];
      OneOwner(events, blockNum, capacity, b);
    }
  }

  // ---- What it takes to lose a block ----

  predicate Gentle(ev: Event) {
    match ev
    case Master(connected, _, _, mapped) => connected && mapped
    case Slave(result, mapped) => result == Sent && mapped
    case _ => true
  }

  lemma GentleStep(s: State, ev: Event, blockNum: nat, capacity: nat)
    requires Enabled(s, ev) && Gentle(ev)
    ensures var t := Step(s, ev, blockNum, capacity);
      (!t.master.MExited? || s.master.TxFree? || s.master.RAlloc?) && !t.slave.SExited? ==> t.lost == s.lost
    ensures s.slave.SExited? ==> Step(s, ev, blockNum, capacity).slave.SExited?
    ensures s.master.MExited? ==> Step(s, ev, blockNum, capacity).master.MExited?
  {
    match ev
    case Master(_, _, _, _) =>
      match s.master {
        case REnqueue(b, r) =>
        case TxAlloc(list, wanted) =>
        case _ =>
      }
    case _ =>
  }

  lemma {:induction false} ExitsStay(s: State, events: seq<Event>, blockNum: nat, capacity: nat)
    requires Runs(s, events, blockNum, capacity)
    ensures s.slave.SExited? ==> Run(s, events, blockNum, capacity).slave.SExited?
    ensures s.master.MExited? ==> Run(s, events, blockNum, capacity).master.MExited?
    decreases |events|
  {
    if events != [] {
      ExitsStay(Step(s, events[0], blockNum, capacity), events[1..], blockNum, capacity);
    }
  }

  // The ways to lose a block: the master cannot reach the peer, translate an address received or finish
  // its allocations, or the slave cannot finish its own or get a message through.
  predicate Loses(s: State, ev: Event) {
    match ev
    case Master(connected, arrival, _, mapped) => (
      match s.master
      case REnqueue(_, _) => !connected
      case RxGet => 0 <= arrival < |s.inflight| && !mapped
      case TxAlloc(list, wanted) => wanted > 0 && s.free == [] && list != []
      case _ => false
    )
    case Slave(result, mapped) => (
      match s.slave
      case STxAlloc(list, wanted) => wanted > 0 && if s.ulq == [] then list != [] else !mapped
      case STxPut(list, next) =>
        next < |list| && (result.Dropped? || result.DroppedWithError? || (result.SentWithError? && next + 1 < |list|))
      case _ => false
    )
    case _ => false
  }

  lemma LosesExactly(s: State, ev: Event, blockNum: nat, capacity: nat)
    requires Enabled(s, ev)
    ensures s.lost <= Step(s, ev, blockNum, capacity).lost
    ensures Step(s, ev, blockNum, capacity).lost == s.lost <==> !Loses(s, ev)
  {
  }

  ghost predicate NeverLoses(s: State, events: seq<Event>, blockNum: nat, capacity: nat)
    decreases |events|
  {
    events != [] ==>
      !Loses(s, events[0]) && NeverLoses(Step(s, events[0], blockNum, capacity), events[1..], blockNum, capacity)
  }

  // The blocks lost only grow, and do so exactly at these events.
  lemma {:induction false} LostExactly(s: State, events: seq<Event>, blockNum: nat, capacity: nat)
    requires Runs(s, events, blockNum, capacity)
    ensures s.lost <= Run(s, events, blockNum, capacity).lost
    ensures Run(s, events, blockNum, capacity).lost == s.lost <==> NeverLoses(s, events, blockNum, capacity)
    decreases |events|
  {
    hide Step, Enabled, Loses;
    if events != [] {
      LosesExactly(s, events[0], blockNum, capacity);
      LostExactly(Step(s, events[0], blockNum, capacity), events[1..], blockNum, capacity);
    }
  }

  // While both programs run, the peer stays connected, every address received translates, and no put of
  // the slave fails, no block is lost.
  lemma {:induction false} NothingLost(s: State, events: seq<Event>, blockNum: nat, capacity: nat)
    requires s.lost == [] && Runs(s, events, blockNum, capacity)
    requires forall i :: 0 <= i < |events| ==> Gentle(events[i])
    requires var t := Run(s, events, blockNum, capacity); !t.master.MExited? && !t.slave.SExited?
    ensures Run(s, events, blockNum, capacity).lost == []
    decreases |events|
  {
    if events != [] {
      var s1 := Step(s, events[0], blockNum, capacity);
      ExitsStay(s1, events[1..], blockNum, capacity);
      GentleStep(s, events[0], blockNum, capacity);
      hide Step;
      NothingLost(s1, events[1..], blockNum, capacity);
    }
  }

  // Between their calls the programs hold nothing, so the pool is what is free, lent and on its way back.
  lemma PoolAccounted(events: seq<Event>, blockNum: nat, capacity: nat)
    requires Runs(Init(blockNum), events, blockNum, capacity)
    requires forall i :: 0 <= i < |events| ==> Gentle(events[i])
    requires var s := Run(Init(blockNum), events, blockNum, capacity); s.master.MTop? && s.slave.STop?
    ensures var s := Run(Init(blockNum), events, blockNum, capacity);
      |s.free| + |s.ulq| + |s.inflight| == blockNum
  {
    OneOwner(events, blockNum, capacity, 0);
    NothingLost(Init(blockNum), events, blockNum, capacity);
  }
}
