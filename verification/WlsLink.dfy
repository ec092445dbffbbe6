// Message transport between two clients of the library: a put is stored in the sender's put queue,
// which is then drained into the get queue of the peer.
module WlsLink {
  import opened Arith
  import opened Counting
  import opened MsgQueue

  const WLS_TF_SCATTER_GATHER: bv16 := 0x8000
  const WLS_TF_URLLC: bv16 := 0x0800
  const WLS_TF_LTE: bv16 := 0x0400
  const WLS_TF_SYN: bv16 := 0x0200
  const WLS_TF_FIN: bv16 := 0x0100
  const WLS_FLAGS_MASK: bv16 := 0xFF00

  const WLS_SG_FIRST: bv16 := WLS_TF_SCATTER_GATHER | WLS_TF_SYN
  const WLS_SG_NEXT: bv16 := WLS_TF_SCATTER_GATHER
  const WLS_SG_LAST: bv16 := WLS_TF_SCATTER_GATHER | WLS_TF_FIN

  // What the flags of a message ask wls_put to do.
  datatype Kind = Single | Hold | Publish | Unsupported

  function KindOf(flags: bv16): Kind {
    var nFlags := flags & !(WLS_TF_URLLC | WLS_TF_LTE);
    if WLS_FLAGS_MASK & nFlags != 0 then
      if nFlags & WLS_TF_SYN != 0 then Hold
      else if nFlags & WLS_TF_SCATTER_GATHER != 0 && nFlags & WLS_TF_FIN == 0 then Hold
      else if nFlags & WLS_TF_FIN != 0 then Publish
      else Unsupported
    else Single
  }

  lemma ListFlags()
    ensures KindOf(0) == Single && KindOf(WLS_SG_FIRST) == Hold
    ensures KindOf(WLS_SG_NEXT) == Hold && KindOf(WLS_SG_LAST) == Publish
    ensures forall f: bv16 :: KindOf(f | WLS_TF_URLLC) == KindOf(f) == KindOf(f | WLS_TF_LTE)
  {
  }

  // The kind of any flag word, by its bits: none of those that matter; SYN, or scatter/gather with neither
  // SYN nor FIN; FIN without SYN; some other bit.
  lemma AnyFlags(f: bv16)
    ensures KindOf(f) == Single <==> f & 0xF300 == 0
    ensures KindOf(f) == Hold <==> f & 0x0200 != 0 || f & 0x8100 == 0x8000
    ensures KindOf(f) == Publish <==> f & 0x0300 == 0x0100
    ensures KindOf(f) == Unsupported <==> f & 0x8300 == 0 && f & 0x7000 != 0
  {
  }

  // The put queue q and the peer's get queue d after draining q into d: what fits moves over in
  // order; the first message that does not fit goes to the back of the put queue.
  function Drained(q: seq<Msg>, d: seq<Msg>, capacity: nat): (r: (seq<Msg>, seq<Msg>))
    requires |d| <= capacity
  {
    var k := Min(|q|, capacity - |d|);
    (if k == |q| then [] else q[k + 1..] + [q[k]], d + q[..k])
  }

  lemma MoveOne(q: seq<Msg>, d: seq<Msg>, moved: nat)
    requires moved < |q|
    ensures d + q[..moved] + [q[moved]] == d + q[..moved + 1]
    ensures q[moved..] != [] && q[moved..][0] == q[moved] && q[moved..][1..] == q[moved + 1..]
  {
  }

  // The two ways the drain loop ends.
  lemma DrainReached(q: seq<Msg>, d: seq<Msg>, capacity: int, moved: nat)
    requires moved <= |q| && moved <= capacity - |d| && (moved < |q| ==> moved == capacity - |d|)
    ensures Drained(q, d, capacity) == (if moved == |q| then [] else q[moved + 1..] + [q[moved]], d + q[..moved])
  {
  }

  lemma UnCons(q: seq<Msg>, first: Msg, rest: seq<Msg>)
    requires q == [first] + rest
    ensures first == q[0] && rest == q[1..]
  {
  }

  // wls_us_ctx_t, as far as messages go
  class Client {
    const putQueue: MessageQueue
    const getQueue: MessageQueue
    const pid: nat

    ghost predicate Valid()
      reads this, putQueue, putQueue.storage, getQueue, getQueue.storage
    {
      && putQueue != getQueue && putQueue.storage != getQueue.storage
      && putQueue.Valid() && getQueue.Valid()
    }

    constructor (putSize: nat, getSize: nat, pid: nat)
      requires putSize > 0 && getSize > 0
      ensures Valid() && putQueue.Contents() == [] && getQueue.Contents() == []
      ensures putQueue.Capacity() == putSize - 1 && getQueue.Capacity() == getSize - 1 && this.pid == pid
      ensures fresh(putQueue) && fresh(putQueue.storage) && fresh(getQueue) && fresh(getQueue.storage)
    {
      putQueue := new MessageQueue(putSize);
      getQueue := new MessageQueue(getSize);
      this.pid := pid;
    }

    // One turn of the drain loop: the front message goes over to the peer, or back to the own queue,
    // where the slot it came from is free.
    method OfferFront(dst: Client) returns (sent: bool)
      requires Valid() && dst.Valid() && putQueue.Contents() != []
      requires putQueue != dst.getQueue && putQueue.storage != dst.getQueue.storage
      modifies putQueue, putQueue.storage, dst.getQueue, dst.getQueue.storage
      ensures Valid() && dst.Valid()
      ensures var q, d := old(putQueue.Contents()), old(dst.getQueue.Contents());
        && sent == (|d| < dst.getQueue.Capacity())
        && putQueue.Contents() == (if sent then q[1..] else q[1..] + [q[0]])
        && dst.getQueue.Contents() == (if sent then d + [q[0]] else d)
    {
      ghost var q := putQueue.Contents();
      putQueue.Bounded();
      hide Ring.Items;
      var ok, hMsg := putQueue.Dequeue();
      assert hMsg == q[0] && putQueue.Contents() == q[1..] by { UnCons(q, hMsg, putQueue.Contents()); }
      sent := dst.getQueue.Enqueue(hMsg);
      if !sent {
        var back := putQueue.Enqueue(hMsg);
      }
    }

    // wls_process_put: on the source client, towards the peer.
    method ProcessPut(dst: Client) returns (ret: int)
      requires Valid() && dst.Valid()
      requires putQueue != dst.getQueue && putQueue.storage != dst.getQueue.storage
      modifies putQueue, putQueue.storage, dst.getQueue, dst.getQueue.storage
      ensures putQueue.Valid() && dst.getQueue.Valid()
      ensures dst.getQueue.Capacity() >= |old(dst.getQueue.Contents())|
      ensures (putQueue.Contents(), dst.getQueue.Contents())
           == Drained(old(putQueue.Contents()), old(dst.getQueue.Contents()), dst.getQueue.Capacity())
      ensures ret == if dst.pid != 0 then 0 else -1
    {
      ret := 0;
      var n := putQueue.NumItems();
      ghost var q, d := putQueue.Contents(), dst.getQueue.Contents();
      dst.getQueue.Bounded();
      ghost var room := dst.getQueue.Capacity() - |d|;
      ghost var moved: nat := 0;
      assert d + q[..0] == d && q[0..] == q;
      hide Drained, Arith.Min, Ring.Items;
      while n > 0
        invariant Valid() && dst.Valid() && ret == 0 && n >= 0
        invariant moved + n == |q| && moved <= room
        invariant putQueue.Contents() == q[moved..] && dst.getQueue.Contents() == d + q[..moved]
      {
        n := n - 1;
        MoveOne(q, d, moved);
        var sent := OfferFront(dst);
        if !sent {
          break;
        }
        moved := moved + 1;
      }
      DrainReached(q, d, dst.getQueue.Capacity(), moved);
      if dst.pid == 0 {
        ret := -1;
      }
    }

    // wls_put.  A full put queue drops the message without an error; peer null stands for dst_user_va 0.
    method Put(m: Msg, peer: Client?) returns (ret: int)
      requires Valid()
      requires peer != null ==>
        peer.Valid() && putQueue != peer.getQueue && putQueue.storage != peer.getQueue.storage
      modifies putQueue, putQueue.storage
      modifies if peer == null then {} else {peer.getQueue, peer.getQueue.storage}
      ensures putQueue.Valid()
      ensures peer != null ==> peer.getQueue.Valid()
      ensures var q, kind := old(putQueue.Contents()), KindOf(m.flags);
        var q' := if kind == Unsupported || |q| == putQueue.Capacity() then q else q + [m];
        if peer != null && (kind == Single || kind == Publish) then
          var d := old(peer.getQueue.Contents());
          && |d| <= peer.getQueue.Capacity()
          && (putQueue.Contents(), peer.getQueue.Contents()) == Drained(q', d, peer.getQueue.Capacity())
          && ret == (if peer.pid != 0 then 0 else -1)
        else
          && putQueue.Contents() == q'
          && (peer != null ==> peer.getQueue.Contents() == old(peer.getQueue.Contents()))
          && ret == (if kind == Single then -1 else 0)
    {
      ret := 0;
      Ring.LevelIsCount(putQueue.storage[..], putQueue.get, putQueue.put);
      var nFlags := m.flags & !(WLS_TF_URLLC | WLS_TF_LTE);
      if WLS_FLAGS_MASK & nFlags != 0 {
        if nFlags & WLS_TF_SYN != 0 {
          var rc := putQueue.Enqueue(m);
        } else if nFlags & WLS_TF_SCATTER_GATHER != 0 && nFlags & WLS_TF_SYN == 0 && nFlags & WLS_TF_FIN == 0 {
          var rc := putQueue.Enqueue(m);
        } else if nFlags & WLS_TF_FIN != 0 {
          var rc := putQueue.Enqueue(m);
          if peer != null {
            ret := ProcessPut(peer);
            if ret < 0 {
              return -1;
            }
          }
        }
      } else {
        var rc := putQueue.Enqueue(m);
        if peer != null {
          ret := ProcessPut(peer);
          if ret < 0 {
            return -1;
          }
        } else {
          return -1;
        }
      }
    }

    // wls_get; address 0 means that nothing was received.
    method Get() returns (pMsg: nat, item: Msg)
      requires Valid()
      modifies getQueue`get
      ensures Valid() && putQueue.Contents() == old(putQueue.Contents())
      ensures old(getQueue.Contents()) == [] ==> pMsg == 0 && getQueue.Contents() == []
      ensures old(getQueue.Contents()) != [] ==>
        old(getQueue.Contents()) == [item] + getQueue.Contents() && pMsg == item.pIaPaMsg
    {
      var ok;
      ok, item := getQueue.Dequeue();
      pMsg := if ok then item.pIaPaMsg else 0;
    }
  }

  // ---- What draining does ----

  // No message is lost or made up, and the put queue ends empty exactly when everything fits.
  lemma DrainConserves(q: seq<Msg>, d: seq<Msg>, capacity: nat)
    requires |d| <= capacity
    ensures var (q', d') := Drained(q, d, capacity);
      && multiset(q') + multiset(d') == multiset(q) + multiset(d)
      && |d'| <= capacity && d <= d'
      && (q' == [] <==> |q| <= capacity - |d|)
  {
    var k := Min(|q|, capacity - |d|);
    assert q == q[..k] + q[k..];
    if k < |q| {
      assert q[k..] == [q[k]] + q[k + 1..];
    }
  }

  // With distinct messages, a drain keeps the order of delivery exactly when at most one message is
  // left behind: a longer rest is rotated.
  lemma DrainOrder(q: seq<Msg>, d: seq<Msg>, capacity: nat)
    requires |d| <= capacity && Distinct(q)
    ensures var (q', d') := Drained(q, d, capacity);
      d' + q' == d + q <==> |q| - Min(|q|, capacity - |d|) <= 1
  {
    var (q', d') := Drained(q, d, capacity);
    var k := Min(|q|, capacity - |d|);
    if |q| - k <= 1 {
      assert q == q[..k] + q[k..];
      assert q' == q[k..];
    } else {
      assert (d' + q')[|d| + k] == q[k + 1];
      assert (d + q)[|d| + k] == q[k];
    }
  }

  // ---- Scatter/gather lists ----

  // Queues after the puts of a list, one after the other, with nobody reading meanwhile.
  function PutAll(list: seq<Msg>, q: seq<Msg>, d: seq<Msg>, putCapacity: nat, getCapacity: nat)
    : (r: (seq<Msg>, seq<Msg>))
    requires |d| <= getCapacity
    ensures |r.1| <= getCapacity
    decreases |list|
  {
    if list == [] then (q, d) else
      var kind := KindOf(list[0].flags);
      var q' := if kind == Unsupported || |q| == putCapacity then q else q + [list[0]];
      var (q2, d2) := if kind == Single || kind == Publish then Drained(q', d, getCapacity) else (q', d);
      PutAll(list[1..], q2, d2, putCapacity, getCapacity)
  }

  predicate GatherList(list: seq<Msg>) {
    && |list| > 0
    && KindOf(list[|list| - 1].flags) == Publish
    && forall i :: 0 <= i < |list| - 1 ==> KindOf(list[i].flags) == Hold
  }

  // A list flagged as the library says: first, next for each in between, last.
  lemma FlaggedLists(list: seq<Msg>)
    requires |list| >= 2 && list[0].flags == WLS_SG_FIRST && list[|list| - 1].flags == WLS_SG_LAST
    requires forall i :: 0 < i < |list| - 1 ==> list[i].flags == WLS_SG_NEXT
    ensures GatherList(list)
  {
    ListFlags();
    hide KindOf;
    forall i | 0 <= i < |list| - 1 ensures KindOf(list[i].flags) == Hold {
    }
  }

  lemma {:induction false} HeldBack(list: seq<Msg>, q: seq<Msg>, d: seq<Msg>, putCapacity: nat, getCapacity: nat)
    requires |d| <= getCapacity && |q| + |list| <= putCapacity
    requires forall i :: 0 <= i < |list| ==> KindOf(list[i].flags) == Hold
    ensures PutAll(list, q, d, putCapacity, getCapacity) == (q + list, d)
    decreases |list|
  {
    if list != [] {
      HeldBack(list[1..], q + [list[0]], d, putCapacity, getCapacity);
      assert q + [list[0]] + list[1..] == q + list;
    } else {
      assert q + list == q;
    }
  }

  lemma {:induction false} PutAllAppend(list: seq<Msg>, last: Msg, q: seq<Msg>, d: seq<Msg>,
                                        putCapacity: nat, getCapacity: nat)
    requires |d| <= getCapacity
    ensures var (q', d') := PutAll(list, q, d, putCapacity, getCapacity);
      PutAll(list + [last], q, d, putCapacity, getCapacity) == PutAll([last], q', d', putCapacity, getCapacity)
    decreases |list|
  {
    if list == [] {
      assert list + [last] == [last];
    } else {
      var kind := KindOf(list[0].flags);
      var q1 := if kind == Unsupported || |q| == putCapacity then q else q + [list[0]];
      var (q2, d2) := if kind == Single || kind == Publish then Drained(q1, d, getCapacity) else (q1, d);
      PutAllAppend(list[1..], last, q2, d2, putCapacity, getCapacity);
      assert (list + [last])[1..] == list[1..] + [last];
    }
  }

  // A list of any length that fits: nothing is visible to the peer before the final put, and then the
  // whole list is, contiguously and in order, with the put queue empty again.
  lemma ListAppearsAtOnce(list: seq<Msg>, d: seq<Msg>, putCapacity: nat, getCapacity: nat, n: nat)
    requires GatherList(list) && |d| + |list| <= getCapacity && |list| <= putCapacity && n <= |list|
    ensures PutAll(list[..n], [], d, putCapacity, getCapacity)
         == if n < |list| then (list[..n], d) else ([], d + list)
  {
    var m := |list| - 1;
    if n <= m {
      HeldBack(list[..n], [], d, putCapacity, getCapacity);
      assert [] + list[..n] == list[..n];
    } else {
      HeldBack(list[..m], [], d, putCapacity, getCapacity);
      PutAllAppend(list[..m], list[m], [], d, putCapacity, getCapacity);
      assert list[..n] == list == list[..m] + [list[m]];
      assert [] + list[..m] == list[..m];
      assert list[..|list|] == list;
      assert PutAll([list[m]], list[..m], d, putCapacity, getCapacity) == ([], d + list);
    }
  }
}
