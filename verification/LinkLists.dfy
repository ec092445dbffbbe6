// Lists of blocks on the link: what a put comes to, and that a list stays with the sender until its last
// put, whatever the receiver does meanwhile.
module LinkLists {
  import opened Arith
  import opened MsgQueue
  import opened WlsLink
  import opened LinkRun

  // ---- A put event is a put ----

  // The queues after a put with a peer, as the contract of Client.Put has them.
  ghost predicate PutResult(m: Msg, q: seq<Msg>, d: seq<Msg>, q': seq<Msg>, d': seq<Msg>, putCapacity: nat,
                            getCapacity: nat)
    requires |d| <= getCapacity
  {
    var kept := if KindOf(m.flags) == Unsupported || |q| == putCapacity then q else q + [m];
    if KindOf(m.flags) == Single || KindOf(m.flags) == Publish then (q', d') == Drained(kept, d, getCapacity)
    else q' == kept && d' == d
  }

  // With nobody reading, a put and the drain steps that follow it do what the method does; for a message
  // held back, or of no supported kind, there are none.
  lemma PutEvent(s: State, m: Msg, putCapacity: nat, getCapacity: nat) returns (n: nat, t: State)
    requires Inv(s, putCapacity, getCapacity) && !s.draining
    ensures Runs(s, [Put(m)] + Drains(n), putCapacity, getCapacity)
    ensures t == Run(s, [Put(m)] + Drains(n), putCapacity, getCapacity) && !t.draining
    ensures |s.d| <= getCapacity && PutResult(m, s.q, s.d, t.q, t.d, putCapacity, getCapacity)
    ensures t.delivered == s.delivered
    ensures KindOf(m.flags) == Hold || KindOf(m.flags) == Unsupported ==> n == 0
  {
    PutInv(s, m, putCapacity, getCapacity);
    var s1 := Step(s, Put(m), putCapacity, getCapacity);
    hide Drained, KindOf;
    n := 0;
    if s1.draining {
      n := DrainStepsAreDrained(s1, putCapacity, getCapacity);
    }
    assert ([Put(m)] + Drains(n))[1..] == Drains(n);
    t := Run(s1, Drains(n), putCapacity, getCapacity);
  }

  // ---- Messages held back ----

  function PutsOf(events: seq<Event>): seq<Msg> {
    if events == [] then []
    else (if events[0].Put? then [events[0].msg] else []) + PutsOf(events[1..])
  }

  ghost predicate AllHeld(msgs: seq<Msg>) {
    forall i :: 0 <= i < |msgs| ==> KindOf(msgs[i].flags) == Hold
  }

  // The sender is between two puts.
  predicate Resting(s: State) {
    !s.draining && s.hand == []
  }

  // What the receiver has or can see.
  function Visible(s: State): seq<Msg> {
    s.delivered + s.d
  }

  lemma HeldStep(s: State, ev: Event, putCapacity: nat, getCapacity: nat)
    requires Resting(s) && Enabled(s, ev) && s.left <= |s.q| && (ev.Put? ==> KindOf(ev.msg.flags) == Hold)
    ensures var t := Step(s, ev, putCapacity, getCapacity);
      && Resting(t) && Visible(t) == Visible(s) && t.left <= |t.q|
      && t.q == (if ev.Put? && |s.q| < putCapacity then s.q + [ev.msg] else s.q)
  {
    hide KindOf;
    if ev.Receive? {
      assert s.d == [s.d[0]] + s.d[1..];
      assert s.delivered + s.d == (s.delivered + [s.d[0]]) + s.d[1..];
    }
  }

  // While only messages of unfinished lists are put, nothing becomes visible, however the receiver reads;
  // the put queue takes what it has room for, in order.
  lemma {:induction false} HeldStaysHeld(s: State, events: seq<Event>, putCapacity: nat, getCapacity: nat)
    requires Resting(s) && s.left <= |s.q| <= putCapacity && Runs(s, events, putCapacity, getCapacity)
    requires AllHeld(PutsOf(events))
    ensures var t := Run(s, events, putCapacity, getCapacity);
      && Resting(t) && Visible(t) == Visible(s)
      && t.q == s.q + PutsOf(events)[..Min(|PutsOf(events)|, putCapacity - |s.q|)]
    decreases |events|
  {
    if events == [] {
      assert s.q + [] == s.q;
    } else {
      var ev, s1 := events[0], Step(s, events[0], putCapacity, getCapacity);
      var all, rest := PutsOf(events), PutsOf(events[1..]);
      assert ev.Put? ==> all == [ev.msg] + rest && KindOf(all[0].flags) == Hold;
      assert !ev.Put? ==> all == rest;
      HeldRest(events);
      hide Step, Enabled, KindOf, Resting, Visible, PutsOf, AllHeld;
      HeldStep(s, ev, putCapacity, getCapacity);
      HeldStaysHeld(s1, events[1..], putCapacity, getCapacity);
      Taken(s.q, all, rest, ev.Put?, putCapacity);
    }
  }

  lemma HeldRest(events: seq<Event>)
    requires events != [] && AllHeld(PutsOf(events))
    ensures AllHeld(PutsOf(events[1..]))
  {
    var all, rest := PutsOf(events), PutsOf(events[1..]);
    hide KindOf;
    if events[0].Put? {
      assert all == [events[0].msg] + rest;
      forall i | 0 <= i < |rest| ensures KindOf(rest[i].flags) == Hold {
        assert rest[i] == all[i + 1];
      }
    } else {
      assert all == rest;
    }
  }

  lemma Taken(q: seq<Msg>, all: seq<Msg>, rest: seq<Msg>, put: bool, capacity: nat)
    requires |q| <= capacity && (if put then |all| > 0 && all == [all[0]] + rest else all == rest)
    ensures var q1 := if put && |q| < capacity then q + [all[0]] else q;
      && |q1| <= capacity
      && q1 + rest[..Min(|rest|, capacity - |q1|)] == q + all[..Min(|all|, capacity - |q|)]
  {
    if put {
      if |q| < capacity {
        var k := Min(|all|, capacity - |q|);
        assert all[..k] == [all[0]] + rest[..k - 1];
      }
    }
  }

  // From the start nothing at all has reached the receiver.
  lemma NothingBeforeTheEnd(events: seq<Event>, putCapacity: nat, getCapacity: nat)
    requires Runs(Empty, events, putCapacity, getCapacity) && AllHeld(PutsOf(events))
    ensures var t := Run(Empty, events, putCapacity, getCapacity); t.d == [] && t.hand == [] && t.delivered == []
  {
    HeldStaysHeld(Empty, events, putCapacity, getCapacity);
  }

  // ---- The drain of the last put ----

  // A drain under way to a peer that has room for everything.
  ghost predicate Delivering(s: State, all: seq<Msg>, getCapacity: nat) {
    && Visible(s) + s.hand + s.q == all
    && |s.d| + |s.hand| + |s.q| <= getCapacity && |s.hand| <= 1
    && (if s.draining then s.left == |s.q| else s.q == [] && s.hand == [])
  }

  lemma DeliveringStep(s: State, ev: Event, all: seq<Msg>, putCapacity: nat, getCapacity: nat)
    requires Delivering(s, all, getCapacity) && Enabled(s, ev) && s.left <= |s.q| && !ev.Put?
    ensures Delivering(Step(s, ev, putCapacity, getCapacity), all, getCapacity)
  {
    if ev.Receive? {
      assert s.d == [s.d[0]] + s.d[1..];
      assert s.delivered + s.d == (s.delivered + [s.d[0]]) + s.d[1..];
    } else if s.hand == [] {
      if s.left > 0 {
        assert Visible(s) + [] + s.q == Visible(s) + [s.q[0]] + s.q[1..];
      }
    } else {
      assert s.delivered + s.d + s.hand + s.q == s.delivered + (s.d + s.hand) + [] + s.q;
    }
  }

  lemma {:induction false} DrainDelivers(s: State, events: seq<Event>, all: seq<Msg>, putCapacity: nat,
                                         getCapacity: nat)
    requires Delivering(s, all, getCapacity) && Runs(s, events, putCapacity, getCapacity) && PutsOf(events) == []
    ensures Delivering(Run(s, events, putCapacity, getCapacity), all, getCapacity)
    decreases |events|
  {
    if events != [] {
      assert !events[0].Put? && PutsOf(events[1..]) == [];
      hide Step, Enabled, Delivering, PutsOf;
      DeliveringStep(s, events[0], all, putCapacity, getCapacity);
      DrainDelivers(Step(s, events[0], putCapacity, getCapacity), events[1..], all, putCapacity, getCapacity);
    }
  }

  lemma LastPut(s: State, m: Msg, putCapacity: nat, getCapacity: nat)
    requires Resting(s) && s.left <= |s.q| < putCapacity && KindOf(m.flags) == Publish
    requires |s.d| + |s.q| < getCapacity
    ensures Delivering(Step(s, Put(m), putCapacity, getCapacity), Visible(s) + (s.q + [m]), getCapacity)
  {
    hide KindOf;
    var t := Step(s, Put(m), putCapacity, getCapacity);
    assert Visible(t) + t.hand + t.q == Visible(s) + (s.q + [m]);
  }

  lemma PutsFrom(events: seq<Event>, list: seq<Msg>)
    requires PutsOf(events) == list && list != []
    ensures events != []
    ensures if events[0].Put? then events[0].msg == list[0] && PutsOf(events[1..]) == list[1..]
            else PutsOf(events[1..]) == list
  {
  }

  lemma ListRest(list: seq<Msg>)
    requires GatherList(list)
    ensures if |list| == 1 then KindOf(list[0].flags) == Publish
            else KindOf(list[0].flags) == Hold && GatherList(list[1..])
  {
    hide KindOf;
    if |list| > 1 {
      forall i | 0 <= i < |list[1..]| - 1 ensures KindOf(list[1..][i].flags) == Hold {
        assert list[1..][i] == list[i + 1];
      }
    }
  }

  // Any run that puts the messages of one list, the receiver reading as it likes: when the sender is
  // through, exactly the list has become visible, as a whole and in order.
  lemma {:induction false} ListArrives(s: State, events: seq<Event>, list: seq<Msg>, putCapacity: nat, getCapacity: nat)
    requires Resting(s) && s.left <= |s.q| && Runs(s, events, putCapacity, getCapacity)
    requires PutsOf(events) == list && GatherList(list)
    requires |s.q| + |list| <= putCapacity && |s.d| + |s.q| + |list| <= getCapacity
    requires !Run(s, events, putCapacity, getCapacity).draining
    ensures var t := Run(s, events, putCapacity, getCapacity);
      Visible(t) == Visible(s) + (s.q + list) && t.q == [] && t.hand == []
    decreases |events|
  {
    PutsFrom(events, list);
    ListRest(list);
    var s1 := Step(s, events[0], putCapacity, getCapacity);
    hide KindOf, GatherList, PutsOf;
    if events[0].Put? && |list| == 1 {
      LastPut(s, list[0], putCapacity, getCapacity);
      assert list == [list[0]] && list[1..] == [];
      hide Step, Enabled, Visible;
      DrainDelivers(s1, events[1..], Visible(s) + (s.q + list), putCapacity, getCapacity);
      Finally(Run(s1, events[1..], putCapacity, getCapacity), Visible(s) + (s.q + list), getCapacity);
    } else {
      HeldStep(s, events[0], putCapacity, getCapacity);
      assert |s1.d| <= |s.d|;
      assert events[0].Put? ==> s.q + list == (s.q + [list[0]]) + list[1..];
      hide Step, Enabled, Visible, Resting;
      ListArrives(s1, events[1..], if events[0].Put? then list[1..] else list, putCapacity, getCapacity);
    }
  }

  lemma Finally(t: State, all: seq<Msg>, getCapacity: nat)
    requires Delivering(t, all, getCapacity) && !t.draining
    ensures Visible(t) == all && t.q == [] && t.hand == []
  {
    assert Visible(t) + [] + [] == Visible(t);
  }
}
