// A memory master and a slave that exchange messages, step by step, and what each step does to the blocks.
//
// The master owns the pool.  It lends blocks to the slave through the slave's queue of free blocks;
// the slave sends them back as messages, and the master returns them to the pool and lends again.
// Messages from the master to the slave lend nothing: the master frees their blocks right after the
// put and the slave's free does nothing, so they do not appear here.
//
// Both programs are followed statement by statement; their library calls interleave in any order.
// Blocks are named by their index in the pool.
module LoanSteps {
  import opened BlockPool
  import opened Counting

  datatype MasterPc =
    | MTop                                             // between two calls from the main loop
    | RAlloc(receiving: bool)                          // replenish loop: about to allocate
    | REnqueue(block: nat, receiving: bool)            // about to lend the block
    | RFree(block: nat, receiving: bool)               // the queue was full: about to free it again
    | RxGet                                            // receiver: about to ask for a message
    | RxFree(block: nat)                               // about to free the block received
    | TxAlloc(list: seq<nat>, wanted: nat)             // transmitter: allocating
    | TxPut(list: seq<nat>, next: nat)                 // sending
    | TxFree(list: seq<nat>, next: nat, failed: bool)  // freeing what was sent
    | MExited

  datatype SlavePc =
    | STop
    | STxAlloc(list: seq<nat>, wanted: nat)
    | STxPut(list: seq<nat>, next: nat)
    | SExited

  // inflight: blocks in messages to the master.  lost: blocks nobody will hand on any more.
  datatype State = State(free: seq<nat>, master: MasterPc, ulq: seq<nat>, slave: SlavePc,
                         inflight: seq<nat>, lost: seq<nat>)

  // How a put ends: whether the message was taken, and whether an error is returned.  A full put queue
  // drops a message without an error.
  datatype PutResult = Sent | Dropped | SentWithError | DroppedWithError

  // arrival: which of the messages in flight the get returns, if it names one.  mapped: the address
  // received translates to one of the program's own.
  datatype Event =
    | Receive | Transmit(count: nat) | Master(connected: bool, arrival: int, putOk: bool, mapped: bool)
    | SlaveTransmit(count: nat) | Slave(result: PutResult, mapped: bool)

  predicate Enabled(s: State, ev: Event) {
    match ev
    case Receive => s.master.MTop?
    case Transmit(_) => s.master.MTop?
    case Master(_, _, _, _) => !s.master.MTop? && !s.master.MExited?
    case SlaveTransmit(_) => s.slave.STop?
    case Slave(_, _) => !s.slave.STop? && !s.slave.SExited?
  }

  function MasterHeld(pc: MasterPc): seq<nat> {
    match pc
    case REnqueue(b, _) => [b]
    case RFree(b, _) => [b]
    case RxFree(b) => [b]
    case TxAlloc(list, _) => list
    case TxPut(list, _) => list
    case TxFree(list, next, _) => if next <= |list| then list[next..] else []
    case _ => []
  }

  function SlaveHeld(pc: SlavePc): seq<nat> {
    match pc
    case STxAlloc(list, _) => list
    case STxPut(list, next) => if next <= |list| then list[next..] else []
    case _ => []
  }

  // A receiver that cannot translate an address drops the block and asks for the next message.
  function MasterStep(s: State, connected: bool, arrival: int, putOk: bool, mapped: bool,
                      blockNum: nat, capacity: nat): State {
    match s.master
    case RAlloc(r) =>
      if s.free == [] then s.(master := MExited)
      else s.(free := s.free[1..], master := REnqueue(s.free[0], r))
    case REnqueue(b, r) =>
      if !connected then s.(lost := s.lost + [b], master := RAlloc(r))
      else if |s.ulq| < capacity then s.(ulq := s.ulq + [b], master := RAlloc(r))
      else s.(master := RFree(b, r))
    case RFree(b, r) =>
      s.(free := AfterFree(s.free, blockNum, b), master := if r then RxGet else MTop)
    case RxGet =>
      if 0 <= arrival < |s.inflight| then
        var rest := s.inflight[..arrival] + s.inflight[arrival + 1..];
        if mapped then s.(inflight := rest, master := RxFree(s.inflight[arrival]))
        else s.(inflight := rest, lost := s.lost + [s.inflight[arrival]])
      else s.(master := MTop)
    case RxFree(b) =>
      s.(free := AfterFree(s.free, blockNum, b), master := RAlloc(true))
    case TxAlloc(list, wanted) =>
      if wanted == 0 then s.(master := TxPut(list, 0))
      else if s.free == [] then s.(lost := s.lost + list, master := MExited)
      else s.(free := s.free[1..], master := TxAlloc(list + [s.free[0]], wanted - 1))
    case TxPut(list, next) =>
      if next < |list| && putOk then s.(master := TxPut(list, next + 1))
      else s.(master := TxFree(list, 0, next < |list|))
    case TxFree(list, next, failed) =>
      if next < |list| then
        s.(free := AfterFree(s.free, blockNum, list[next]), master := TxFree(list, next + 1, failed))
      else s.(master := if failed then MExited else MTop)
    case _ => s
  }

  function SlaveStep(s: State, result: PutResult, mapped: bool): State {
    match s.slave
    case STxAlloc(list, wanted) =>
      if wanted == 0 then s.(slave := STxPut(list, 0))
      else if s.ulq == [] then s.(lost := s.lost + list, slave := SExited)
      else if !mapped then s.(ulq := s.ulq[1..], lost := s.lost + (list + [s.ulq[0]]), slave := SExited)
      else s.(ulq := s.ulq[1..], slave := STxAlloc(list + [s.ulq[0]], wanted - 1))
    case STxPut(list, next) =>
      if next >= |list| then s.(slave := STop)
      else (
        match result
        case Sent => s.(inflight := s.inflight + [list[next]], slave := STxPut(list, next + 1))
        case Dropped => s.(lost := s.lost + [list[next]], slave := STxPut(list, next + 1))
        case SentWithError =>
          s.(inflight := s.inflight + [list[next]], lost := s.lost + list[next + 1..], slave := SExited)
        case DroppedWithError => s.(lost := s.lost + list[next..], slave := SExited)
      )
    case _ => s
  }

  function Step(s: State, ev: Event, blockNum: nat, capacity: nat): State {
    match ev
    case Receive => s.(master := RxGet)
    case Transmit(n) => s.(master := TxAlloc([], n))
    case Master(connected, arrival, putOk, mapped) =>
      MasterStep(s, connected, arrival, putOk, mapped, blockNum, capacity)
    case SlaveTransmit(n) => s.(slave := STxAlloc([], n))
    case Slave(result, mapped) => SlaveStep(s, result, mapped)
  }

  ghost predicate Runs(s: State, events: seq<Event>, blockNum: nat, capacity: nat)
    decreases |events|
  {
    events != [] ==>
      Enabled(s, events[0]) && Runs(Step(s, events[0], blockNum, capacity), events[1..], blockNum, capacity)
  }

  ghost function Run(s: State, events: seq<Event>, blockNum: nat, capacity: nat): State
    decreases |events|
  {
    if events == [] then s else Run(Step(s, events[0], blockNum, capacity), events[1..], blockNum, capacity)
  }

  function AllBlocks(n: nat): seq<nat> {
    seq(n, i requires 0 <= i < n => i)
  }

  // The master has just initialised its pool and enters the loop that lends blocks to the slave.
  function Init(blockNum: nat): State {
    State(AllBlocks(blockNum), RAlloc(false), [], STop, [], [])
  }

  // ---- Every step conserves the blocks ----

  // In how many places block b is.
  function Owners(s: State, b: nat): nat {
    Count(s.free, b) + Count(MasterHeld(s.master), b) + Count(s.ulq, b) + Count(SlaveHeld(s.slave), b)
    + Count(s.inflight, b) + Count(s.lost, b)
  }

  function Blocks(s: State): nat {
    |s.free| + |MasterHeld(s.master)| + |s.ulq| + |SlaveHeld(s.slave)| + |s.inflight| + |s.lost|
  }

  // Step from s to t moves block b from one place to another at most.
  ghost predicate Balanced(s: State, t: State, b: nat) {
    Blocks(t) == Blocks(s) && Owners(t, b) == Owners(s, b)
  }

  lemma ReplenishStep(s: State, connected: bool, blockNum: nat, capacity: nat, b: nat)
    requires Blocks(s) == blockNum && (s.master.RAlloc? || s.master.REnqueue? || s.master.RFree?)
    ensures Balanced(s, MasterStep(s, connected, 0, false, true, blockNum, capacity), b)
  {
    hide Count;
    CountNil(b);
    if s.master.RAlloc? {
      if s.free != [] { CountCons(s.free, b); }
    } else if s.master.REnqueue? {
      CountAppend(s.ulq, [s.master.block], b);
      CountAppend(s.lost, [s.master.block], b);
    } else {
      CountAppend(s.free, [s.master.block], b);
    }
  }

  lemma ReceiveStep(s: State, arrival: int, mapped: bool, blockNum: nat, capacity: nat, b: nat)
    requires Blocks(s) == blockNum && (s.master.RxGet? || s.master.RxFree?)
    ensures Balanced(s, MasterStep(s, true, arrival, false, mapped, blockNum, capacity), b)
  {
    hide Count;
    CountNil(b);
    if s.master.RxGet? {
      if 0 <= arrival < |s.inflight| {
        CountTakeOut(s.inflight, arrival, b);
        CountAppend(s.lost, [s.inflight[arrival]], b);
      }
    } else {
      CountAppend(s.free, [s.master.block], b);
    }
  }

  lemma TxAllocStep(s: State, blockNum: nat, capacity: nat, b: nat)
    requires Blocks(s) == blockNum && s.master.TxAlloc?
    ensures Balanced(s, MasterStep(s, true, 0, true, true, blockNum, capacity), b)
  {
    hide Count;
    CountNil(b);
    CountAppend(s.lost, s.master.list, b);
    if s.free != [] {
      CountCons(s.free, b);
      CountAppend(s.master.list, [s.free[0]], b);
    }
  }

  lemma TxPutStep(s: State, putOk: bool, blockNum: nat, capacity: nat, b: nat)
    requires s.master.TxPut?
    ensures Balanced(s, MasterStep(s, true, 0, putOk, true, blockNum, capacity), b)
  {
    assert s.master.list[0..] == s.master.list;
    hide Count;
  }

  lemma TxFreeStep(s: State, blockNum: nat, capacity: nat, b: nat)
    requires Blocks(s) == blockNum && s.master.TxFree?
    ensures Balanced(s, MasterStep(s, true, 0, true, true, blockNum, capacity), b)
  {
    hide Count;
    var list, next := s.master.list, s.master.next;
    CountNil(b);
    if next < |list| {
      CountCons(list[next..], b);
      assert list[next..][1..] == list[next + 1..];
      CountAppend(s.free, [list[next]], b);
    } else if next == |list| {
      assert list[next..] == [];
    }
  }

  lemma STxAllocStep(s: State, mapped: bool, b: nat)
    requires s.slave.STxAlloc?
    ensures Balanced(s, SlaveStep(s, Sent, mapped), b)
  {
    hide Count;
    var list := s.slave.list;
    CountNil(b);
    if s.slave.wanted == 0 {
      assert list[0..] == list;
    } else if s.ulq == [] {
      CountAppend(s.lost, list, b);
    } else {
      var more := list + [s.ulq[0]];
      CountCons(s.ulq, b);
      CountAppend(list, [s.ulq[0]], b);
      CountAppend(s.lost, more, b);
    }
  }

  lemma SentStep(s: State, result: PutResult, b: nat)
    requires s.slave.STxPut? && s.slave.next < |s.slave.list| && (result == Sent || result == Dropped)
    ensures Balanced(s, SlaveStep(s, result, true), b)
  {
    hide Count;
    var list, next := s.slave.list, s.slave.next;
    CountNil(b);
    CountCons(list[next..], b);
    assert list[next..][1..] == list[next + 1..];
    if result == Sent {
      CountAppend(s.inflight, [list[next]], b);
    } else {
      CountAppend(s.lost, [list[next]], b);
    }
  }

  lemma FailedStep(s: State, result: PutResult, b: nat)
    requires s.slave.STxPut? && s.slave.next < |s.slave.list| && (result == SentWithError || result == DroppedWithError)
    ensures Balanced(s, SlaveStep(s, result, true), b)
  {
    hide Count;
    var list, next := s.slave.list, s.slave.next;
    CountNil(b);
    CountCons(list[next..], b);
    assert list[next..][1..] == list[next + 1..];
    if result == SentWithError {
      CountAppend(s.inflight, [list[next]], b);
      CountAppend(s.lost, list[next + 1..], b);
    } else {
      CountAppend(s.lost, list[next..], b);
    }
  }

  lemma STxPutStep(s: State, result: PutResult, b: nat)
    requires s.slave.STxPut?
    ensures Balanced(s, SlaveStep(s, result, true), b)
  {
    if s.slave.next >= |s.slave.list| {
      CountNil(b);
      assert SlaveHeld(s.slave) == [];
    } else {
      hide *;
      if result == Sent || result == Dropped {
        SentStep(s, result, b);
      } else {
        FailedStep(s, result, b);
      }
    }
  }

  lemma StepBalance(s: State, ev: Event, blockNum: nat, capacity: nat, b: nat)
    requires Blocks(s) == blockNum && Enabled(s, ev)
    ensures Balanced(s, Step(s, ev, blockNum, capacity), b)
  {
    hide Count, Owners, Blocks, Balanced;
    match ev
    case Receive => StartStep(s, ev, blockNum, capacity, b);
    case Transmit(_) => StartStep(s, ev, blockNum, capacity, b);
    case SlaveTransmit(_) => StartStep(s, ev, blockNum, capacity, b);
    case Slave(result, mapped) =>
      if s.slave.STxAlloc? { STxAllocStep(s, mapped, b); } else { STxPutStep(s, result, b); }
    case Master(connected, arrival, putOk, mapped) =>
      if s.master.TxAlloc? {
        TxAllocStep(s, blockNum, capacity, b);
      } else if s.master.TxPut? {
        TxPutStep(s, putOk, blockNum, capacity, b);
      } else if s.master.TxFree? {
        TxFreeStep(s, blockNum, capacity, b);
      } else if s.master.RxGet? || s.master.RxFree? {
        ReceiveStep(s, arrival, mapped, blockNum, capacity, b);
      } else {
        ReplenishStep(s, connected, blockNum, capacity, b);
      }
  }

  lemma StartStep(s: State, ev: Event, blockNum: nat, capacity: nat, b: nat)
    requires Enabled(s, ev) && !ev.Master? && !ev.Slave?
    ensures Balanced(s, Step(s, ev, blockNum, capacity), b)
  {
    hide Count;
  }

  lemma {:induction false} RunBalance(s: State, events: seq<Event>, blockNum: nat, capacity: nat, b: nat)
    requires Blocks(s) == blockNum && Runs(s, events, blockNum, capacity)
    ensures Balanced(s, Run(s, events, blockNum, capacity), b)
    decreases |events|
  {
    hide Count, Owners, Blocks, Step, Enabled;
    if events != [] {
      StepBalance(s, events[0], blockNum, capacity, b);
      RunBalance(Step(s, events[0], blockNum, capacity), events[1..], blockNum, capacity, b);
    }
  }

  lemma {:induction false} CountAll(n: nat, b: nat)
    ensures Count(AllBlocks(n), b) == if b < n then 1 else 0
  {
    CountNil(b);
    if n > 0 {
      CountAll(n - 1, b);
      assert AllBlocks(n) == AllBlocks(n - 1) + [n - 1];
      CountAppend<nat>(AllBlocks(n - 1), [n - 1], b);
      CountOne<nat>(n - 1, b);
    }
  }
}
