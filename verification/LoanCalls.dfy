// What one call of either program comes to when nothing of the other falls in between, and that the
// queue of lent blocks stays within its capacity whatever does.
module LoanCalls {
  import opened BlockPool
  import opened Lending
  import opened LoanSteps

  // ---- Capacity ----

  lemma {:induction false} QueueBounded(s: State, events: seq<Event>, blockNum: nat, capacity: nat)
    requires |s.ulq| <= capacity && Runs(s, events, blockNum, capacity)
    ensures |Run(s, events, blockNum, capacity).ulq| <= capacity
    decreases |events|
  {
    if events != [] {
      StepBounded(s, events[0], blockNum, capacity);
      hide Step, Enabled;
      QueueBounded(Step(s, events[0], blockNum, capacity), events[1..], blockNum, capacity);
    }
  }

  lemma StepBounded(s: State, ev: Event, blockNum: nat, capacity: nat)
    requires |s.ulq| <= capacity
    ensures |Step(s, ev, blockNum, capacity).ulq| <= capacity
  {
    hide AfterFree;
  }

  // ---- A program alone ----

  // n steps of one program, with the same outcome of what it asks for in each, lead from s to t.
  ghost predicate Leads(s: State, ev: Event, n: nat, t: State, blockNum: nat, capacity: nat)
    decreases n
  {
    if n == 0 then s == t
    else Enabled(s, ev) && Leads(Step(s, ev, blockNum, capacity), ev, n - 1, t, blockNum, capacity)
  }

  function Copies(ev: Event, n: nat): seq<Event> {
    if n == 0 then [] else [ev] + Copies(ev, n - 1)
  }

  lemma {:induction false} LeadsRuns(s: State, ev: Event, n: nat, t: State, blockNum: nat, capacity: nat)
    requires Leads(s, ev, n, t, blockNum, capacity)
    ensures Runs(s, Copies(ev, n), blockNum, capacity) && Run(s, Copies(ev, n), blockNum, capacity) == t
    decreases n
  {
    hide Step, Enabled;
    if n > 0 {
      LeadsRuns(Step(s, ev, blockNum, capacity), ev, n - 1, t, blockNum, capacity);
      assert Copies(ev, n)[1..] == Copies(ev, n - 1);
    }
  }

  lemma {:induction false} LeadsOn(s: State, ev: Event, n: nat, t: State, m: nat, u: State, blockNum: nat,
                                   capacity: nat)
    requires Leads(s, ev, n, t, blockNum, capacity) && Leads(t, ev, m, u, blockNum, capacity)
    ensures Leads(s, ev, n + m, u, blockNum, capacity)
    decreases n
  {
    hide Step, Enabled;
    if n > 0 {
      LeadsOn(Step(s, ev, blockNum, capacity), ev, n - 1, t, m, u, blockNum, capacity);
    }
  }

  lemma OneStep(s: State, ev: Event, blockNum: nat, capacity: nat)
    requires Enabled(s, ev)
    ensures Leads(s, ev, 1, Step(s, ev, blockNum, capacity), blockNum, capacity)
  {
    hide Step, Enabled;
    assert Leads(Step(s, ev, blockNum, capacity), ev, 0, Step(s, ev, blockNum, capacity), blockNum, capacity);
  }

  lemma StepThen(s: State, ev: Event, n: nat, t: State, blockNum: nat, capacity: nat)
    requires Enabled(s, ev) && Leads(Step(s, ev, blockNum, capacity), ev, n, t, blockNum, capacity)
    ensures Leads(s, ev, n + 1, t, blockNum, capacity)
  {
    hide Step, Enabled;
  }

  // ---- The replenish loop ----

  // What the lending loop of Lending makes of the state; the calls it is part of end or go on.
  function Lends(s: State, o: Outcome, receiving: bool): State {
    s.(free := o.free, ulq := s.ulq + o.queued, lost := s.lost + o.leaked,
       master := if o.exits then MExited else if receiving then RxGet else MTop)
  }

  lemma LoopEmpty(s: State, ev: Event, receiving: bool, pa: nat -> nat, blockNum: nat, capacity: nat)
    requires ev.Master? && s.master == RAlloc(receiving) && s.free == []
    ensures Step(s, ev, blockNum, capacity)
         == Lends(s, Lend(s.free, blockNum, capacity - |s.ulq|, pa, ev.connected), receiving)
  {
    assert s.ulq + [] == s.ulq && s.lost + [] == s.lost;
  }

  lemma LoopFull(s: State, ev: Event, receiving: bool, pa: nat -> nat, blockNum: nat, capacity: nat)
    requires ev.Master? && s.master == RAlloc(receiving) && s.free != [] && ev.connected && |s.ulq| >= capacity
    requires pa(s.free[0]) != 0
    ensures Leads(s, ev, 3, Lends(s, Lend(s.free, blockNum, capacity - |s.ulq|, pa, true), receiving), blockNum,
                  capacity)
  {
    hide AfterFree;
    assert s.ulq + [] == s.ulq && s.lost + [] == s.lost;
    var s1 := Step(s, ev, blockNum, capacity);
    var s2 := Step(s1, ev, blockNum, capacity);
    var s3 := Step(s2, ev, blockNum, capacity);
    hide Lend, Leads;
    OneStep(s2, ev, blockNum, capacity);
    StepThen(s1, ev, 1, s3, blockNum, capacity);
    StepThen(s, ev, 2, s3, blockNum, capacity);
  }

  // One block goes to the queue, or is lost without a peer.
  lemma LoopTurn(s: State, ev: Event, receiving: bool, blockNum: nat, capacity: nat) returns (t: State)
    requires ev.Master? && s.master == RAlloc(receiving) && s.free != [] && (!ev.connected || |s.ulq| < capacity)
    ensures Leads(s, ev, 2, t, blockNum, capacity)
    ensures t == s.(free := s.free[1..], ulq := if ev.connected then s.ulq + [s.free[0]] else s.ulq,
                    lost := if ev.connected then s.lost else s.lost + [s.free[0]])
  {
    hide AfterFree;
    var s1 := Step(s, ev, blockNum, capacity);
    t := Step(s1, ev, blockNum, capacity);
    hide Leads;
    OneStep(s1, ev, blockNum, capacity);
    StepThen(s, ev, 1, t, blockNum, capacity);
  }

  lemma LendsMore(s: State, t: State, ev: Event, receiving: bool, pa: nat -> nat, blockNum: nat, capacity: nat)
    requires ev.Master? && s.free != [] && (!ev.connected || |s.ulq| < capacity) && pa(s.free[0]) != 0
    requires t == s.(free := s.free[1..], ulq := if ev.connected then s.ulq + [s.free[0]] else s.ulq,
                     lost := if ev.connected then s.lost else s.lost + [s.free[0]])
    ensures Lends(t, Lend(t.free, blockNum, capacity - |t.ulq|, pa, ev.connected), receiving)
         == Lends(s, Lend(s.free, blockNum, capacity - |s.ulq|, pa, ev.connected), receiving)
  {
    hide AfterFree;
    var r := Lend(t.free, blockNum, capacity - |t.ulq|, pa, ev.connected);
    assert s.ulq + ([s.free[0]] + r.queued) == (s.ulq + [s.free[0]]) + r.queued;
    assert s.lost + ([s.free[0]] + r.leaked) == (s.lost + [s.free[0]]) + r.leaked;
  }

  // Taken alone, the master's statements from the head of the replenish loop to its end come to what the
  // lending loop is proved to do with the real pool and queue.
  lemma {:induction false} ReplenishAlone(s: State, ev: Event, receiving: bool, pa: nat -> nat, blockNum: nat,
                                          capacity: nat)
      returns (n: nat)
    requires ev.Master? && s.master == RAlloc(receiving) && forall i :: pa(i) != 0
    ensures Leads(s, ev, n, Lends(s, Lend(s.free, blockNum, capacity - |s.ulq|, pa, ev.connected), receiving),
                  blockNum, capacity)
    decreases |s.free|
  {
    hide Lend, Lends, Leads, Step;
    if s.free == [] {
      LoopEmpty(s, ev, receiving, pa, blockNum, capacity);
      OneStep(s, ev, blockNum, capacity);
      n := 1;
    } else if ev.connected && |s.ulq| >= capacity {
      LoopFull(s, ev, receiving, pa, blockNum, capacity);
      n := 3;
    } else {
      var t := LoopTurn(s, ev, receiving, blockNum, capacity);
      LendsMore(s, t, ev, receiving, pa, blockNum, capacity);
      var m := ReplenishAlone(t, ev, receiving, pa, blockNum, capacity);
      LeadsOn(s, ev, 2, t, m, Lends(t, Lend(t.free, blockNum, capacity - |t.ulq|, pa, ev.connected), receiving),
              blockNum, capacity);
      n := 2 + m;
    }
  }

  // The start: with a peer the master lends the first blocks of the pool, as many as the queue takes, and
  // both programs wait for calls; the one block too many is the last to be lent again.  A pool with no more
  // blocks than that runs dry, and the master ends.
  lemma StartAlone(ev: Event, blockNum: nat, capacity: nat) returns (n: nat, t: State)
    requires ev.Master? && ev.connected
    ensures Leads(Init(blockNum), ev, n, t, blockNum, capacity)
    ensures t.slave == STop && t.inflight == [] && t.lost == []
    ensures if blockNum > capacity then
              && t.master == MTop && |t.ulq| == capacity && |t.free| == blockNum - capacity
              && (forall i :: 0 <= i < capacity ==> t.ulq[i] == i)
              && (forall i :: 0 <= i < |t.free| - 1 ==> t.free[i] == capacity + 1 + i)
              && t.free[|t.free| - 1] == capacity
            else t.master == MExited && t.free == [] && t.ulq == AllBlocks(blockNum)
  {
    var s, free := Init(blockNum), AllBlocks(blockNum);
    var pa := (i: nat) => i + 1;
    assert MapsEach(pa, free);
    assert forall i :: 0 <= i < blockNum ==> free[i] == i;
    hide Step, Leads, AllBlocks;
    LendFills(free, blockNum, capacity, pa);
    n := ReplenishAlone(s, ev, false, pa, blockNum, capacity);
    t := Lends(s, Lend(free, blockNum, capacity, pa, true), false);
    hide Lend;
  }

  // After each message received, the receiver frees the block and lends again: with a peer the queue is
  // filled up in the order of the ring, the block too many goes to its end, and the receiver asks for the
  // next message; or the pool runs dry and the program ends.
  lemma ReceivedThenLent(s: State, ev: Event, blockNum: nat, capacity: nat) returns (n: nat, t: State)
    requires ev.Master? && ev.connected && s.master.RxFree? && |s.free| < blockNum && |s.ulq| <= capacity
    ensures Leads(s, ev, n, t, blockNum, capacity)
    ensures var free, room := s.free + [s.master.block], capacity - |s.ulq|;
      if |free| > room then
        t == s.(free := free[room + 1..] + [free[room]], ulq := s.ulq + free[..room], master := RxGet)
      else t == s.(free := [], ulq := s.ulq + free, master := MExited)
  {
    var free, room := s.free + [s.master.block], capacity - |s.ulq|;
    var s1 := s.(free := free, master := RAlloc(true));
    assert Step(s, ev, blockNum, capacity) == s1;
    var pa := (i: nat) => i + 1;
    assert MapsEach(pa, free);
    hide Step, Leads;
    LendFills(free, blockNum, room, pa);
    var m := ReplenishAlone(s1, ev, true, pa, blockNum, capacity);
    t := Lends(s1, Lend(free, blockNum, room, pa, true), true);
    StepThen(s, ev, m, t, blockNum, capacity);
    n := m + 1;
    assert s.lost + [] == s.lost;
  }

  // A message in flight, received alone: its block leaves the flight and joins the ring, and blocks are
  // lent again.
  lemma ReceiveOne(s: State, ev: Event, blockNum: nat, capacity: nat) returns (n: nat, t: State)
    requires ev.Master? && ev.connected && ev.mapped && s.master.RxGet? && 0 <= ev.arrival < |s.inflight|
    requires |s.free| < blockNum && |s.ulq| <= capacity
    ensures Leads(s, ev, n, t, blockNum, capacity)
    ensures t.inflight == s.inflight[..ev.arrival] + s.inflight[ev.arrival + 1..]
    ensures t.slave == s.slave && t.lost == s.lost
    ensures var free, room := s.free + [s.inflight[ev.arrival]], capacity - |s.ulq|;
      if |free| > room then
        t.master == RxGet && t.ulq == s.ulq + free[..room] && t.free == free[room + 1..] + [free[room]]
      else t.master == MExited && t.ulq == s.ulq + free && t.free == []
  {
    var b, rest := s.inflight[ev.arrival], s.inflight[..ev.arrival] + s.inflight[ev.arrival + 1..];
    var s1 := s.(inflight := rest, master := RxFree(b));
    assert Step(s, ev, blockNum, capacity) == s1;
    hide Step, Leads;
    var m;
    m, t := ReceivedThenLent(s1, ev, blockNum, capacity);
    StepThen(s, ev, m, t, blockNum, capacity);
    n := m + 1;
  }

  lemma {:induction false} ReceiveRest(s: State, ev: Event, blockNum: nat, capacity: nat) returns (n: nat, t: State)
    requires ev.Master? && ev.connected && ev.mapped && ev.arrival == 0 && s.master.RxGet?
    requires |s.ulq| <= capacity && |s.free| + |s.ulq| + |s.inflight| <= blockNum
    ensures Leads(s, ev, n, t, blockNum, capacity) && t.slave == s.slave && t.lost == s.lost
    ensures |t.free| + |t.ulq| + |t.inflight| == |s.free| + |s.ulq| + |s.inflight|
    ensures if t.master.MTop? then t.inflight == [] && s.ulq <= t.ulq && (s.inflight != [] ==> |t.ulq| == capacity)
            else t.master.MExited? && t.free == [] && s.inflight != []
    decreases |s.inflight|
  {
    if s.inflight == [] {
      t := Step(s, ev, blockNum, capacity);
      OneStep(s, ev, blockNum, capacity);
      n := 1;
    } else {
      hide Step, Leads;
      var m, u := ReceiveOne(s, ev, blockNum, capacity);
      n, t := m, u;
      if u.master.RxGet? {
        var k;
        k, t := ReceiveRest(u, ev, blockNum, capacity);
        LeadsOn(s, ev, m, u, k, t, blockNum, capacity);
        n := m + k;
      }
    }
  }

  // A whole call of the receiver, alone, oldest message first: it takes every message, and ends with the
  // queue of lent blocks full; or the pool runs dry and the program ends.
  lemma ReceiveAll(s: State, ev: Event, blockNum: nat, capacity: nat) returns (n: nat, t: State)
    requires ev.Master? && ev.connected && ev.mapped && ev.arrival == 0 && s.master.MTop?
    requires |s.ulq| <= capacity && |s.free| + |s.ulq| + |s.inflight| <= blockNum
    ensures Enabled(s, Receive) && Leads(Step(s, Receive, blockNum, capacity), ev, n, t, blockNum, capacity)
    ensures t.slave == s.slave && t.lost == s.lost
    ensures |t.free| + |t.ulq| + |t.inflight| == |s.free| + |s.ulq| + |s.inflight|
    ensures if t.master.MTop? then t.inflight == [] && s.ulq <= t.ulq && (s.inflight != [] ==> |t.ulq| == capacity)
            else t.master.MExited? && t.free == [] && s.inflight != []
  {
    assert Step(s, Receive, blockNum, capacity) == s.(master := RxGet);
    hide Step, Leads;
    n, t := ReceiveRest(s.(master := RxGet), ev, blockNum, capacity);
  }

  lemma {:induction false} DropRest(s: State, ev: Event, blockNum: nat, capacity: nat) returns (n: nat)
    requires ev.Master? && !ev.mapped && ev.arrival == 0 && s.master.RxGet?
    ensures Leads(s, ev, n, s.(inflight := [], lost := s.lost + s.inflight, master := MTop), blockNum, capacity)
    decreases |s.inflight|
  {
    var s1 := Step(s, ev, blockNum, capacity);
    if s.inflight == [] {
      assert s.lost + [] == s.lost;
      OneStep(s, ev, blockNum, capacity);
      n := 1;
    } else {
      assert s1 == s.(inflight := s.inflight[1..], lost := s.lost + [s.inflight[0]]);
      assert s.lost + [s.inflight[0]] + s.inflight[1..] == s.lost + s.inflight;
      hide Step, Leads;
      var m := DropRest(s1, ev, blockNum, capacity);
      StepThen(s, ev, m, s.(inflight := [], lost := s.lost + s.inflight, master := MTop), blockNum, capacity);
      n := m + 1;
    }
  }

  // Messages whose addresses do not translate are taken and lost, one after the other.
  lemma DropAll(s: State, ev: Event, blockNum: nat, capacity: nat) returns (n: nat)
    requires ev.Master? && !ev.mapped && ev.arrival == 0 && s.master.MTop?
    ensures Enabled(s, Receive)
    ensures Leads(Step(s, Receive, blockNum, capacity), ev, n, s.(inflight := [], lost := s.lost + s.inflight),
                  blockNum, capacity)
  {
    assert Step(s, Receive, blockNum, capacity) == s.(master := RxGet);
    hide Step, Leads;
    n := DropRest(s.(master := RxGet), ev, blockNum, capacity);
  }

  // ---- The master's transmitter ----

  lemma {:induction false} AllocAlone(s: State, ev: Event, list: seq<nat>, wanted: nat, blockNum: nat, capacity: nat)
      returns (n: nat, t: State)
    requires ev.Master? && s.master == TxAlloc(list, wanted)
    ensures Leads(s, ev, n, t, blockNum, capacity)
    ensures if wanted <= |s.free| then t == s.(free := s.free[wanted..], master := TxPut(list + s.free[..wanted], 0))
            else t == s.(free := [], lost := s.lost + (list + s.free), master := MExited)
    decreases wanted
  {
    var s1 := Step(s, ev, blockNum, capacity);
    if wanted == 0 || s.free == [] {
      assert wanted == 0 ==> s.free[..0] == [] && list + [] == list && s.free[0..] == s.free;
      assert s.free == [] ==> list + s.free == list;
      OneStep(s, ev, blockNum, capacity);
      n, t := 1, s1;
    } else {
      var first := s.free[0];
      assert s1 == s.(free := s.free[1..], master := TxAlloc(list + [first], wanted - 1));
      hide Step, Leads;
      var m;
      m, t := AllocAlone(s1, ev, list + [first], wanted - 1, blockNum, capacity);
      StepThen(s, ev, m, t, blockNum, capacity);
      n := m + 1;
      assert list + [first] + s.free[1..] == list + s.free;
      if wanted <= |s.free| {
        assert list + [first] + s.free[1..][..wanted - 1] == list + s.free[..wanted];
        assert s.free[1..][wanted - 1..] == s.free[wanted..];
      }
    }
  }

  // Every message is put, or the first failed put ends the sending; either way what was allocated is freed.
  lemma {:induction false} PutAlone(s: State, ev: Event, list: seq<nat>, next: nat, blockNum: nat, capacity: nat)
      returns (n: nat)
    requires ev.Master? && s.master == TxPut(list, next) && next <= |list|
    ensures Leads(s, ev, n, s.(master := TxFree(list, 0, next < |list| && !ev.putOk)), blockNum, capacity)
    decreases |list| - next
  {
    var s1 := Step(s, ev, blockNum, capacity);
    if next == |list| || !ev.putOk {
      OneStep(s, ev, blockNum, capacity);
      n := 1;
    } else {
      assert s1 == s.(master := TxPut(list, next + 1));
      hide Step, Leads;
      var m := PutAlone(s1, ev, list, next + 1, blockNum, capacity);
      StepThen(s, ev, m, s.(master := TxFree(list, 0, false)), blockNum, capacity);
      n := m + 1;
    }
  }

  lemma {:induction false} FreeAlone(s: State, ev: Event, list: seq<nat>, next: nat, failed: bool,
                                     blockNum: nat, capacity: nat)
      returns (n: nat)
    requires ev.Master? && s.master == TxFree(list, next, failed) && next <= |list|
    requires |s.free| + |list| - next <= blockNum
    ensures Leads(s, ev, n, s.(free := s.free + list[next..], master := if failed then MExited else MTop),
                  blockNum, capacity)
    decreases |list| - next
  {
    var s1 := Step(s, ev, blockNum, capacity);
    if next == |list| {
      assert s.free + list[next..] == s.free;
      OneStep(s, ev, blockNum, capacity);
      n := 1;
    } else {
      assert s1 == s.(free := s.free + [list[next]], master := TxFree(list, next + 1, failed));
      assert s1.free + list[next + 1..] == s.free + list[next..];
      hide Step, Leads;
      var m := FreeAlone(s1, ev, list, next + 1, failed, blockNum, capacity);
      StepThen(s, ev, m, s.(free := s.free + list[next..], master := if failed then MExited else MTop),
               blockNum, capacity);
      n := m + 1;
    }
  }

  lemma PutAndFree(s: State, ev: Event, list: seq<nat>, blockNum: nat, capacity: nat) returns (n: nat, t: State)
    requires ev.Master? && s.master == TxPut(list, 0) && |s.free| + |list| <= blockNum
    ensures Leads(s, ev, n, t, blockNum, capacity)
    ensures t == s.(free := s.free + list, master := if 0 < |list| && !ev.putOk then MExited else MTop)
  {
    hide Step, Leads;
    var failed := 0 < |list| && !ev.putOk;
    var p := PutAlone(s, ev, list, 0, blockNum, capacity);
    var s1 := s.(master := TxFree(list, 0, failed));
    var f := FreeAlone(s1, ev, list, 0, failed, blockNum, capacity);
    assert list[0..] == list;
    t := s1.(free := s1.free + list, master := if failed then MExited else MTop);
    LeadsOn(s, ev, p, s1, f, t, blockNum, capacity);
    n := p + f;
  }

  // A call of the master's transmitter, alone: it needs as many free blocks as messages, and gives each
  // back behind the others; without them, or after a failed put, the program ends.
  lemma TransmitAlone(s: State, ev: Event, count: nat, blockNum: nat, capacity: nat) returns (n: nat, t: State)
    requires ev.Master? && s.master.MTop? && |s.free| <= blockNum
    ensures Enabled(s, Transmit(count))
    ensures Leads(Step(s, Transmit(count), blockNum, capacity), ev, n, t, blockNum, capacity)
    ensures if count <= |s.free| then
              t == s.(free := s.free[count..] + s.free[..count],
                      master := if count > 0 && !ev.putOk then MExited else MTop)
            else t == s.(free := [], lost := s.lost + s.free, master := MExited)
  {
    var s0 := s.(master := TxAlloc([], count));
    assert Step(s, Transmit(count), blockNum, capacity) == s0;
    hide Step, Leads;
    var a, s1 := AllocAlone(s0, ev, [], count, blockNum, capacity);
    if count <= |s.free| {
      var list := s.free[..count];
      assert [] + list == list;
      assert s1 == s.(free := s.free[count..], master := TxPut(list, 0));
      var m;
      m, t := PutAndFree(s1, ev, list, blockNum, capacity);
      LeadsOn(s0, ev, a, s1, m, t, blockNum, capacity);
      n := a + m;
    } else {
      assert [] + s.free == s.free;
      n, t := a, s1;
    }
  }

  // ---- The slave's transmitter ----

  lemma {:induction false} BorrowAlone(s: State, ev: Event, list: seq<nat>, wanted: nat, blockNum: nat, capacity: nat)
      returns (n: nat, t: State)
    requires ev.Slave? && s.slave == STxAlloc(list, wanted) && (ev.mapped || wanted == 0 || s.ulq == [])
    ensures Leads(s, ev, n, t, blockNum, capacity)
    ensures if wanted <= |s.ulq| then t == s.(ulq := s.ulq[wanted..], slave := STxPut(list + s.ulq[..wanted], 0))
            else t == s.(ulq := [], lost := s.lost + (list + s.ulq), slave := SExited)
    decreases wanted
  {
    var s1 := Step(s, ev, blockNum, capacity);
    if wanted == 0 || s.ulq == [] {
      assert wanted == 0 ==> s.ulq[..0] == [] && list + [] == list && s.ulq[0..] == s.ulq;
      assert s.ulq == [] ==> list + s.ulq == list;
      OneStep(s, ev, blockNum, capacity);
      n, t := 1, s1;
    } else {
      var first := s.ulq[0];
      assert s1 == s.(ulq := s.ulq[1..], slave := STxAlloc(list + [first], wanted - 1));
      hide Step, Leads;
      var m;
      m, t := BorrowAlone(s1, ev, list + [first], wanted - 1, blockNum, capacity);
      StepThen(s, ev, m, t, blockNum, capacity);
      n := m + 1;
      assert list + [first] + s.ulq[1..] == list + s.ulq;
      if wanted <= |s.ulq| {
        assert list + [first] + s.ulq[1..][..wanted - 1] == list + s.ulq[..wanted];
        assert s.ulq[1..][wanted - 1..] == s.ulq[wanted..];
      }
    }
  }

  // What becomes of the messages not yet put, when every put ends the same way: an error ends the program
  // at the first.
  function Arrived(list: seq<nat>, result: PutResult): seq<nat> {
    match result
    case Sent => list
    case SentWithError => if list == [] then [] else list[..1]
    case _ => []
  }

  function Gone(list: seq<nat>, result: PutResult): seq<nat> {
    match result
    case Sent => []
    case SentWithError => if list == [] then [] else list[1..]
    case _ => list
  }

  lemma {:induction false} SendAlone(s: State, ev: Event, list: seq<nat>, next: nat, blockNum: nat, capacity: nat)
      returns (n: nat, t: State)
    requires ev.Slave? && s.slave == STxPut(list, next) && next <= |list|
    ensures Leads(s, ev, n, t, blockNum, capacity)
    ensures t == s.(inflight := s.inflight + Arrived(list[next..], ev.result),
                    lost := s.lost + Gone(list[next..], ev.result),
                    slave := if next < |list| && !ev.result.Sent? && !ev.result.Dropped? then SExited else STop)
    decreases |list| - next
  {
    t := Step(s, ev, blockNum, capacity);
    assert s.inflight + [] == s.inflight && s.lost + [] == s.lost;
    if next == |list| || ev.result.SentWithError? || ev.result.DroppedWithError? {
      assert next < |list| ==> list[next..][..1] == [list[next]] && list[next..][1..] == list[next + 1..];
      OneStep(s, ev, blockNum, capacity);
      n := 1;
    } else {
      var s1 := t;
      assert list[next..] == [list[next]] + list[next + 1..];
      assert s.inflight + list[next..] == s.inflight + [list[next]] + list[next + 1..];
      assert s.lost + list[next..] == s.lost + [list[next]] + list[next + 1..];
      assert s1.slave == STxPut(list, next + 1);
      hide Step, Leads;
      var m;
      m, t := SendAlone(s1, ev, list, next + 1, blockNum, capacity);
      StepThen(s, ev, m, t, blockNum, capacity);
      n := m + 1;
    }
  }

  // A call of the slave's transmitter, alone: it takes the oldest blocks lent and sends each in a message;
  // a full put queue loses them one by one, an error ends the program with the rest, and so does an
  // address lent that does not translate.
  lemma SlaveTransmitAlone(s: State, ev: Event, count: nat, blockNum: nat, capacity: nat) returns (n: nat, t: State)
    requires ev.Slave? && s.slave.STop?
    ensures Enabled(s, SlaveTransmit(count))
    ensures Leads(Step(s, SlaveTransmit(count), blockNum, capacity), ev, n, t, blockNum, capacity)
    ensures
      if !ev.mapped && count > 0 && s.ulq != [] then
        t == s.(ulq := s.ulq[1..], lost := s.lost + [s.ulq[0]], slave := SExited)
      else if count <= |s.ulq| then
        var list := s.ulq[..count];
        t == s.(ulq := s.ulq[count..], inflight := s.inflight + Arrived(list, ev.result),
                lost := s.lost + Gone(list, ev.result),
                slave := if count > 0 && !ev.result.Sent? && !ev.result.Dropped? then SExited else STop)
      else t == s.(ulq := [], lost := s.lost + s.ulq, slave := SExited)
  {
    var s0 := s.(slave := STxAlloc([], count));
    assert Step(s, SlaveTransmit(count), blockNum, capacity) == s0;
    if !ev.mapped && count > 0 && s.ulq != [] {
      t := Step(s0, ev, blockNum, capacity);
      assert [] + [s.ulq[0]] == [s.ulq[0]];
      OneStep(s0, ev, blockNum, capacity);
      n := 1;
      return;
    }
    hide Step, Leads, Arrived, Gone;
    var a, s1 := BorrowAlone(s0, ev, [], count, blockNum, capacity);
    if count <= |s.ulq| {
      var list := s.ulq[..count];
      assert [] + list == list && list[0..] == list;
      var m;
      m, t := SendAlone(s1, ev, list, 0, blockNum, capacity);
      LeadsOn(s0, ev, a, s1, m, t, blockNum, capacity);
      n := a + m;
    } else {
      assert [] + s.ulq == s.ulq;
      n, t := a, s1;
    }
  }
}
