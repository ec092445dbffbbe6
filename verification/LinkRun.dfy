// Whole runs of one direction of the link, with the receiver reading while the sender drains.
//
// The sender's put and the iterations of its drain loop are separate steps, and between taking a
// message out of the put queue and offering it to the peer the receiver may read any number of
// messages.  Each queue operation is one step; SpscRing shows what that step hides.
module LinkRun {
  import opened Arith
  import opened Counting
  import opened MsgQueue
  import opened WlsLink

  // hand: the message between the two queues.  left: drain iterations still allowed.
  // accepted and delivered record the messages the put queue took and the receiver got.
  // rotated: some message went back to the put queue behind others.
  datatype State = State(q: seq<Msg>, d: seq<Msg>, hand: seq<Msg>, left: nat, draining: bool,
                         accepted: seq<Msg>, delivered: seq<Msg>, rotated: bool)

  datatype Event = Put(msg: Msg) | Drain | Receive

  predicate Enabled(s: State, ev: Event) {
    match ev
    case Put(_) => !s.draining
    case Drain => s.draining
    case Receive => s.d != []
  }

  function Accept(s: State, m: Msg, putCapacity: nat): State {
    if KindOf(m.flags) == Unsupported || |s.q| >= putCapacity then s
    else s.(q := s.q + [m], accepted := s.accepted + [m])
  }

  function Step(s: State, ev: Event, putCapacity: nat, getCapacity: nat): State
    requires Enabled(s, ev) && s.left <= |s.q|
  {
    match ev
    case Put(m) =>
      var t := Accept(s, m, putCapacity);
      if KindOf(m.flags) == Single || KindOf(m.flags) == Publish then t.(draining := true, left := |t.q|)
      else t.(left := 0)
    case Drain =>
      if s.hand == [] then
        if s.left == 0 then s.(draining := false)
        else s.(hand := [s.q[0]], q := s.q[1..], left := s.left - 1)
      else if |s.d| < getCapacity then s.(d := s.d + s.hand, hand := [])
      else s.(q := s.q + s.hand, hand := [], left := 0, draining := false, rotated := s.rotated || s.q != [])
    case Receive => s.(delivered := s.delivered + [s.d[0]], d := s.d[1..])
  }

  ghost predicate Inv(s: State, putCapacity: nat, getCapacity: nat) {
    && s.left <= |s.q| && |s.hand| <= 1 && |s.q| + |s.hand| <= putCapacity && |s.d| <= getCapacity
    && (!s.draining ==> s.hand == [])
    && multiset(s.accepted) == multiset(s.delivered) + multiset(s.d) + multiset(s.hand) + multiset(s.q)
    && (!s.rotated ==> s.accepted == s.delivered + s.d + s.hand + s.q)
  }

  ghost predicate Runs(s: State, events: seq<Event>, putCapacity: nat, getCapacity: nat)
    decreases |events|
  {
    events != [] ==>
      && Enabled(s, events[0]) && s.left <= |s.q|
      && Runs(Step(s, events[0], putCapacity, getCapacity), events[1..], putCapacity, getCapacity)
  }

  ghost function Run(s: State, events: seq<Event>, putCapacity: nat, getCapacity: nat): State
    requires Runs(s, events, putCapacity, getCapacity)
    decreases |events|
  {
    if events == [] then s
    else Run(Step(s, events[0], putCapacity, getCapacity), events[1..], putCapacity, getCapacity)
  }

  lemma PutInv(s: State, m: Msg, putCapacity: nat, getCapacity: nat)
    requires Inv(s, putCapacity, getCapacity) && Enabled(s, Put(m))
    ensures Inv(Step(s, Put(m), putCapacity, getCapacity), putCapacity, getCapacity)
  {
    assert s.delivered + s.d + s.hand + (s.q + [m]) == (s.delivered + s.d + s.hand + s.q) + [m];
  }

  lemma TakeInv(s: State, putCapacity: nat, getCapacity: nat)
    requires Inv(s, putCapacity, getCapacity) && s.draining && s.hand == [] && s.left > 0
    ensures Inv(Step(s, Drain, putCapacity, getCapacity), putCapacity, getCapacity)
  {
    assert s.q == [s.q[0]] + s.q[1..];
    assert s.delivered + s.d + [] + s.q == s.delivered + s.d + [s.q[0]] + s.q[1..];
  }

  lemma MoveOver(s: State, putCapacity: nat, getCapacity: nat)
    requires Inv(s, putCapacity, getCapacity) && s.draining && s.hand != [] && |s.d| < getCapacity
    ensures Inv(Step(s, Drain, putCapacity, getCapacity), putCapacity, getCapacity)
  {
    assert s.delivered + s.d + s.hand + s.q == s.delivered + (s.d + s.hand) + [] + s.q;
  }

  lemma PutBack(s: State, putCapacity: nat, getCapacity: nat)
    requires Inv(s, putCapacity, getCapacity) && s.draining && s.hand != [] && |s.d| >= getCapacity
    ensures Inv(Step(s, Drain, putCapacity, getCapacity), putCapacity, getCapacity)
  {
    if s.q == [] {
      assert s.hand + s.q == s.q + s.hand;
      assert s.delivered + s.d + s.hand + s.q == s.delivered + s.d + [] + (s.q + s.hand);
    }
  }

  // The message that does not fit always finds room in the queue it came from.
  lemma OfferInv(s: State, putCapacity: nat, getCapacity: nat)
    requires Inv(s, putCapacity, getCapacity) && s.draining && s.hand != []
    ensures Inv(Step(s, Drain, putCapacity, getCapacity), putCapacity, getCapacity)
    ensures |s.q| < putCapacity
  {
    assert |s.q| < putCapacity;
    hide Inv, Step;
    if |s.d| < getCapacity {
      MoveOver(s, putCapacity, getCapacity);
    } else {
      PutBack(s, putCapacity, getCapacity);
    }
  }

  lemma ReceiveInv(s: State, putCapacity: nat, getCapacity: nat)
    requires Inv(s, putCapacity, getCapacity) && s.d != []
    ensures Inv(Step(s, Receive, putCapacity, getCapacity), putCapacity, getCapacity)
  {
    assert s.d == [s.d[0]] + s.d[1..];
    assert s.delivered + s.d == (s.delivered + [s.d[0]]) + s.d[1..];
  }

  lemma StepInv(s: State, ev: Event, putCapacity: nat, getCapacity: nat)
    requires Inv(s, putCapacity, getCapacity) && Enabled(s, ev) && s.left <= |s.q|
    ensures Inv(Step(s, ev, putCapacity, getCapacity), putCapacity, getCapacity)
  {
    match ev
    case Put(m) => PutInv(s, m, putCapacity, getCapacity);
    case Drain =>
      if s.hand != [] {
        OfferInv(s, putCapacity, getCapacity);
      } else if s.left > 0 {
        TakeInv(s, putCapacity, getCapacity);
      }
    case Receive => ReceiveInv(s, putCapacity, getCapacity);
  }

  lemma {:induction false} RunInv(s: State, events: seq<Event>, putCapacity: nat, getCapacity: nat)
    requires Inv(s, putCapacity, getCapacity) && Runs(s, events, putCapacity, getCapacity)
    ensures Inv(Run(s, events, putCapacity, getCapacity), putCapacity, getCapacity)
    decreases |events|
  {
    hide Inv, Step, Enabled;
    if events != [] {
      StepInv(s, events[0], putCapacity, getCapacity);
      RunInv(Step(s, events[0], putCapacity, getCapacity), events[1..], putCapacity, getCapacity);
    }
  }

  const Empty := State([], [], [], 0, false, [], [], false)

  // On every run each accepted message is delivered or still on its way, exactly once; and delivery is
  // in the order of acceptance unless some message was put back behind others.
  lemma Conserved(events: seq<Event>, putCapacity: nat, getCapacity: nat)
    requires Runs(Empty, events, putCapacity, getCapacity)
    ensures var s := Run(Empty, events, putCapacity, getCapacity);
      && multiset(s.accepted) == multiset(s.delivered) + multiset(s.d) + multiset(s.hand) + multiset(s.q)
      && (!s.rotated ==> s.delivered <= s.accepted && s.accepted == s.delivered + s.d + s.hand + s.q)
  {
    EmptyInv(putCapacity, getCapacity);
    hide Run, Runs, Step;
    RunInv(Empty, events, putCapacity, getCapacity);
    var s := Run(Empty, events, putCapacity, getCapacity);
    if !s.rotated {
      assert s.delivered + s.d + s.hand + s.q == s.delivered + (s.d + s.hand + s.q);
    }
  }

  lemma EmptyInv(putCapacity: nat, getCapacity: nat)
    ensures Inv(Empty, putCapacity, getCapacity)
  {
  }

  // ---- When delivery is in order ----

  predicate InOrder(s: State) {
    s.accepted == s.delivered + s.d + s.hand + s.q
  }

  ghost predicate InOrderThroughout(s: State, events: seq<Event>, putCapacity: nat, getCapacity: nat)
    requires Runs(s, events, putCapacity, getCapacity)
    decreases |events|
  {
    && InOrder(s)
    && (events != [] ==>
          InOrderThroughout(Step(s, events[0], putCapacity, getCapacity), events[1..], putCapacity, getCapacity))
  }

  lemma {:induction false} HistoryGrows(s: State, events: seq<Event>, putCapacity: nat, getCapacity: nat)
    requires Runs(s, events, putCapacity, getCapacity)
    ensures var t := Run(s, events, putCapacity, getCapacity);
      s.accepted <= t.accepted && s.delivered <= t.delivered && (s.rotated ==> t.rotated)
    decreases |events|
  {
    if events != [] {
      var s1 := Step(s, events[0], putCapacity, getCapacity);
      assert s.accepted <= s1.accepted && s.delivered <= s1.delivered && (s.rotated ==> s1.rotated);
      hide *;
      HistoryGrows(s1, events[1..], putCapacity, getCapacity);
      assert Run(s, events, putCapacity, getCapacity) == Run(s1, events[1..], putCapacity, getCapacity);
    }
  }

  // Putting a message back behind another one breaks the order.
  lemma RotationBreaksOrder(s: State, ev: Event, putCapacity: nat, getCapacity: nat)
    requires Inv(s, putCapacity, getCapacity) && !s.rotated && Enabled(s, ev)
    requires Step(s, ev, putCapacity, getCapacity).rotated && Distinct(s.accepted)
    ensures !InOrder(Step(s, ev, putCapacity, getCapacity))
  {
    assert ev == Drain;
    var t := Step(s, ev, putCapacity, getCapacity);
    var n := |s.delivered + s.d|;
    assert s.accepted[n] == s.hand[0] && s.accepted[n + 1] == s.q[0];
    assert (t.delivered + t.d + t.hand + t.q)[n] == s.q[0];
  }

  // With distinct messages, delivery stays in order at every moment of a run exactly when no drain of
  // the run met a full peer with further messages waiting.
  lemma {:induction false} FifoExactly(s: State, events: seq<Event>, putCapacity: nat, getCapacity: nat)
    requires Inv(s, putCapacity, getCapacity) && !s.rotated && Runs(s, events, putCapacity, getCapacity)
    requires Distinct(Run(s, events, putCapacity, getCapacity).accepted)
    ensures InOrderThroughout(s, events, putCapacity, getCapacity)
        <==> !Run(s, events, putCapacity, getCapacity).rotated
    decreases |events|
  {
    HistoryGrows(s, events, putCapacity, getCapacity);
    assert InOrder(s) && Distinct(s.accepted);
    hide Inv, InOrder, Distinct, Step, Enabled;
    if events != [] {
      var s1 := Step(s, events[0], putCapacity, getCapacity);
      StepInv(s, events[0], putCapacity, getCapacity);
      if s1.rotated {
        HistoryGrows(s1, events[1..], putCapacity, getCapacity);
        RotationBreaksOrder(s, events[0], putCapacity, getCapacity);
      } else {
        FifoExactly(s1, events[1..], putCapacity, getCapacity);
      }
    }
  }

  lemma {:induction false} RunAppend(s: State, events: seq<Event>, more: seq<Event>, putCapacity: nat, getCapacity: nat)
    requires Runs(s, events, putCapacity, getCapacity)
    requires Runs(Run(s, events, putCapacity, getCapacity), more, putCapacity, getCapacity)
    ensures Runs(s, events + more, putCapacity, getCapacity)
    ensures Run(s, events + more, putCapacity, getCapacity)
         == Run(Run(s, events, putCapacity, getCapacity), more, putCapacity, getCapacity)
    decreases |events|
  {
    hide Step, Enabled;
    if events == [] {
      assert events + more == more;
    } else {
      assert (events + more)[1..] == events[1..] + more;
      RunAppend(Step(s, events[0], putCapacity, getCapacity), events[1..], more, putCapacity, getCapacity);
    }
  }

  lemma OneMore(s: State, events: seq<Event>, t: State, ev: Event, putCapacity: nat, getCapacity: nat)
    requires Runs(s, events, putCapacity, getCapacity) && t == Run(s, events, putCapacity, getCapacity)
    requires Enabled(t, ev) && t.left <= |t.q|
    ensures Runs(s, events + [ev], putCapacity, getCapacity)
    ensures Run(s, events + [ev], putCapacity, getCapacity) == Step(t, ev, putCapacity, getCapacity)
  {
    assert [ev][1..] == [];
    var t' := Step(t, ev, putCapacity, getCapacity);
    assert Run(t', [], putCapacity, getCapacity) == t';
    RunAppend(s, events, [ev], putCapacity, getCapacity);
  }

  // Two drain steps from a non-empty queue: the front message moves over, or the drain is over.
  lemma DrainPair(s: State, putCapacity: nat, getCapacity: nat) returns (t: State)
    requires Inv(s, putCapacity, getCapacity) && s.draining && s.hand == [] && s.left == |s.q| > 0
    ensures Runs(s, [Drain, Drain], putCapacity, getCapacity) && t == Run(s, [Drain, Drain], putCapacity, getCapacity)
    ensures t.hand == [] && t.delivered == s.delivered && Inv(t, putCapacity, getCapacity)
    ensures
      if |s.d| < getCapacity then t.draining && t.left == |t.q| && t.q == s.q[1..] && t.d == s.d + [s.q[0]]
      else !t.draining && t.q == s.q[1..] + [s.q[0]] && t.d == s.d
  {
    TakeInv(s, putCapacity, getCapacity);
    var s1 := Step(s, Drain, putCapacity, getCapacity);
    OfferInv(s1, putCapacity, getCapacity);
    t := Step(s1, Drain, putCapacity, getCapacity);
    hide Inv, Step;
    assert [Drain, Drain][1..] == [Drain] && [Drain][1..] == [];
    assert Run(t, [], putCapacity, getCapacity) == t;
    assert Run(s1, [Drain], putCapacity, getCapacity) == t;
  }

  lemma DrainedCons(q: seq<Msg>, d: seq<Msg>, capacity: nat)
    requires q != [] && |d| < capacity
    ensures Drained(q, d, capacity) == Drained(q[1..], d + [q[0]], capacity)
  {
    var k := Min(|q|, capacity - |d|);
    assert d + q[..k] == (d + [q[0]]) + q[1..][..k - 1];
  }

  function Drains(n: nat): seq<Event> {
    if n == 0 then [] else [Drain] + Drains(n - 1)
  }

  ghost predicate DrainedAfter(s: State, n: nat, putCapacity: nat, getCapacity: nat)
    requires |s.d| <= getCapacity
  {
    && Runs(s, Drains(n), putCapacity, getCapacity)
    && var t := Run(s, Drains(n), putCapacity, getCapacity);
      !t.draining && (t.q, t.d) == Drained(s.q, s.d, getCapacity) && t.delivered == s.delivered
  }

  // One message more in front of a drain.
  lemma DrainOneMore(s: State, t: State, n: nat, putCapacity: nat, getCapacity: nat)
    requires Runs(s, [Drain, Drain], putCapacity, getCapacity) && t == Run(s, [Drain, Drain], putCapacity, getCapacity)
    requires s.q != [] && |s.d| < getCapacity
    requires t.q == s.q[1..] && t.d == s.d + [s.q[0]] && t.delivered == s.delivered
    requires DrainedAfter(t, n, putCapacity, getCapacity)
    ensures DrainedAfter(s, n + 2, putCapacity, getCapacity)
  {
    hide Runs, Run;
    RunAppend(s, [Drain, Drain], Drains(n), putCapacity, getCapacity);
    assert Drains(n + 2) == [Drain, Drain] + Drains(n);
    DrainedCons(s.q, s.d, getCapacity);
    hide Drained;
  }

  lemma DrainLast(s: State, putCapacity: nat, getCapacity: nat)
    requires Inv(s, putCapacity, getCapacity) && s.draining && s.hand == [] && s.left == |s.q|
    requires s.q == [] || |s.d| == getCapacity
    ensures DrainedAfter(s, if s.q == [] then 1 else 2, putCapacity, getCapacity)
  {
    assert s.d + s.q[..0] == s.d;
    assert Drains(0) == [] && Drains(1) == [Drain] && Drains(2) == [Drain, Drain];
    if s.q != [] {
      var t := DrainPair(s, putCapacity, getCapacity);
    }
  }

  // With nobody reading meanwhile, the drain steps amount to Drained.
  lemma {:induction false} DrainStepsAreDrained(s: State, putCapacity: nat, getCapacity: nat) returns (n: nat)
    requires Inv(s, putCapacity, getCapacity) && s.draining && s.hand == [] && s.left == |s.q|
    ensures DrainedAfter(s, n, putCapacity, getCapacity)
    decreases |s.q|
  {
    assert |s.d| <= getCapacity;
    hide Inv, Step, Runs, Run, DrainedAfter;
    if s.q == [] || |s.d| == getCapacity {
      n := if s.q == [] then 1 else 2;
      DrainLast(s, putCapacity, getCapacity);
    } else {
      var t := DrainPair(s, putCapacity, getCapacity);
      n := DrainStepsAreDrained(t, putCapacity, getCapacity);
      DrainOneMore(s, t, n, putCapacity, getCapacity);
      n := n + 2;
    }
  }
}
