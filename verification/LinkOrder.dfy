// How much a sender may have under way for its messages to arrive in the order they were put.
module LinkOrder {
  import opened Counting
  import opened MsgQueue
  import opened WlsLink
  import opened LinkRun

  // Messages queued, in hand and not yet read by the receiver.
  function Backlog(s: State): nat {
    |s.q| + |s.hand| + |s.d|
  }

  ghost predicate BacklogAtMost(s: State, events: seq<Event>, bound: nat, putCapacity: nat, getCapacity: nat)
    requires Runs(s, events, putCapacity, getCapacity)
    decreases |events|
  {
    && Backlog(s) <= bound
    && (events != [] ==>
          BacklogAtMost(Step(s, events[0], putCapacity, getCapacity), events[1..], bound, putCapacity, getCapacity))
  }

  // ---- A small backlog keeps the order ----

  // A message is put back behind another only when the peer is full with two more on the way.
  lemma RotationNeeds(s: State, ev: Event, putCapacity: nat, getCapacity: nat)
    requires Enabled(s, ev) && s.left <= |s.q| && !s.rotated
    requires Step(s, ev, putCapacity, getCapacity).rotated
    ensures Backlog(s) >= getCapacity + 2 && |s.q| + |s.hand| >= 2
  {
  }

  lemma {:induction false} SmallBacklog(s: State, events: seq<Event>, bound: nat, putCapacity: nat, getCapacity: nat)
    requires Inv(s, putCapacity, getCapacity) && !s.rotated && Runs(s, events, putCapacity, getCapacity)
    requires BacklogAtMost(s, events, bound, putCapacity, getCapacity)
    requires bound <= getCapacity + 1 || putCapacity <= 1
    ensures !Run(s, events, putCapacity, getCapacity).rotated
    decreases |events|
  {
    if events != [] {
      var t := Step(s, events[0], putCapacity, getCapacity);
      assert |s.q| + |s.hand| <= putCapacity;
      hide Inv, Step, Enabled;
      StepInv(s, events[0], putCapacity, getCapacity);
      if t.rotated {
        RotationNeeds(s, events[0], putCapacity, getCapacity);
        assert false;
      }
      SmallBacklog(t, events[1..], bound, putCapacity, getCapacity);
    }
  }

  // ---- A run with one message more ----

  ghost predicate Reaches(events: seq<Event>, t: State, bound: nat, putCapacity: nat, getCapacity: nat) {
    && Runs(Empty, events, putCapacity, getCapacity) && Run(Empty, events, putCapacity, getCapacity) == t
    && BacklogAtMost(Empty, events, bound, putCapacity, getCapacity)
  }

  lemma {:induction false} OneMoreBacklog(s: State, events: seq<Event>, ev: Event, bound: nat,
                                          putCapacity: nat, getCapacity: nat)
    requires Runs(s, events, putCapacity, getCapacity) && BacklogAtMost(s, events, bound, putCapacity, getCapacity)
    requires var t := Run(s, events, putCapacity, getCapacity);
      Enabled(t, ev) && t.left <= |t.q| && Backlog(Step(t, ev, putCapacity, getCapacity)) <= bound
    ensures Runs(s, events + [ev], putCapacity, getCapacity)
    ensures BacklogAtMost(s, events + [ev], bound, putCapacity, getCapacity)
    decreases |events|
  {
    hide Step, Enabled, Backlog;
    if events == [] {
      assert events + [ev] == [ev] && [ev][1..] == [];
    } else {
      assert (events + [ev])[1..] == events[1..] + [ev];
      OneMoreBacklog(Step(s, events[0], putCapacity, getCapacity), events[1..], ev, bound, putCapacity, getCapacity);
    }
  }

  lemma Then(events: seq<Event>, t: State, ev: Event, bound: nat, putCapacity: nat, getCapacity: nat)
    requires Reaches(events, t, bound, putCapacity, getCapacity) && Enabled(t, ev) && t.left <= |t.q|
    requires Backlog(Step(t, ev, putCapacity, getCapacity)) <= bound
    ensures Reaches(events + [ev], Step(t, ev, putCapacity, getCapacity), bound, putCapacity, getCapacity)
  {
    hide Step, Enabled, Backlog;
    OneMoreBacklog(Empty, events, ev, bound, putCapacity, getCapacity);
    OneMore(Empty, events, t, ev, putCapacity, getCapacity);
  }

  // The n-th of a series of distinct single messages.
  function Numbered(n: nat): Msg {
    Msg(n, 0, 0, 0)
  }

  function Numbers(n: nat): (r: seq<Msg>)
    ensures |r| == n && forall k :: 0 <= k < n ==> r[k] == Numbered(k)
  {
    if n == 0 then [] else Numbers(n - 1) + [Numbered(n - 1)]
  }

  lemma NumberedSingle(n: nat)
    ensures KindOf(Numbered(n).flags) == Single
  {
    ListFlags();
  }

  // The peer holds the first n messages and nothing else is under way.
  function Holding(n: nat): State {
    State([], Numbers(n), [], 0, false, Numbers(n), [], false)
  }

  lemma {:induction false} Fill(n: nat, bound: nat, putCapacity: nat, getCapacity: nat) returns (events: seq<Event>)
    requires n <= getCapacity && n <= bound && putCapacity > 0
    ensures Reaches(events, Holding(n), bound, putCapacity, getCapacity)
    decreases n
  {
    if n == 0 {
      events := [];
    } else {
      events := Fill(n - 1, bound, putCapacity, getCapacity);
      events := OneArrives(events, n - 1, bound, putCapacity, getCapacity);
    }
  }

  lemma OneArrives(before: seq<Event>, n: nat, bound: nat, putCapacity: nat, getCapacity: nat)
      returns (events: seq<Event>)
    requires Reaches(before, Holding(n), bound, putCapacity, getCapacity)
    requires n < getCapacity && n < bound && putCapacity > 0
    ensures Reaches(events, Holding(n + 1), bound, putCapacity, getCapacity)
  {
    hide Reaches, KindOf, Numbered, Numbers;
    NumberedSingle(n);
    var m, d, all := Numbered(n), Numbers(n), Numbers(n + 1);
    assert all == d + [m] && [] + [m] == [m] && [m][1..] == [];
    Then(before, Holding(n), Put(m), bound, putCapacity, getCapacity);
    events := before + [Put(m)];
    Then(events, State([m], d, [], 1, true, all, [], false), Drain, bound, putCapacity, getCapacity);
    events := events + [Drain];
    Then(events, State([], d, [m], 0, true, all, [], false), Drain, bound, putCapacity, getCapacity);
    events := events + [Drain];
    Then(events, State([], all, [], 0, true, all, [], false), Drain, bound, putCapacity, getCapacity);
    events := events + [Drain];
  }

  // One more message than the peer has room for: it goes back to its queue.
  lemma OneWaits(g: nat, bound: nat, putCapacity: nat) returns (events: seq<Event>)
    requires g < bound && putCapacity > 0
    ensures Reaches(events, State([Numbered(g)], Numbers(g), [], 0, false, Numbers(g + 1), [], false),
                    bound, putCapacity, g)
  {
    events := Fill(g, bound, putCapacity, g);
    hide Reaches, KindOf, Numbered, Numbers;
    NumberedSingle(g);
    var b, d, all := Numbered(g), Numbers(g), Numbers(g + 1);
    assert all == d + [b] && [] + [b] == [b] && [b][1..] == [];
    Then(events, Holding(g), Put(b), bound, putCapacity, g);
    events := events + [Put(b)];
    Then(events, State([b], d, [], 1, true, all, [], false), Drain, bound, putCapacity, g);
    events := events + [Drain];
    Then(events, State([], d, [b], 0, true, all, [], false), Drain, bound, putCapacity, g);
    events := events + [Drain];
  }

  // The next one is put, and the one before goes back behind it.
  lemma TwoSwap(g: nat, bound: nat, putCapacity: nat) returns (events: seq<Event>)
    requires g + 2 <= bound && putCapacity > 1
    ensures Reaches(events, State([Numbered(g + 1), Numbered(g)], Numbers(g), [], 0, false, Numbers(g + 2), [], true),
                    bound, putCapacity, g)
  {
    events := OneWaits(g, bound, putCapacity);
    hide Reaches, KindOf, Numbered, Numbers;
    NumberedSingle(g + 1);
    var b, c, d, all := Numbered(g), Numbered(g + 1), Numbers(g), Numbers(g + 2);
    assert all == Numbers(g + 1) + [c] && [b] + [c] == [b, c] && [b, c][1..] == [c] && [c] + [b] == [c, b];
    Then(events, State([b], d, [], 0, false, Numbers(g + 1), [], false), Put(c), bound, putCapacity, g);
    events := events + [Put(c)];
    Then(events, State([b, c], d, [], 2, true, all, [], false), Drain, bound, putCapacity, g);
    events := events + [Drain];
    Then(events, State([c], d, [b], 1, true, all, [], false), Drain, bound, putCapacity, g);
    events := events + [Drain];
  }

  // ---- Main results ----

  // Every run whose backlog keeps to the bound delivers distinct messages in the order they were put.
  ghost predicate OrderWithin(bound: nat, putCapacity: nat, getCapacity: nat) {
    forall events ::
      Runs(Empty, events, putCapacity, getCapacity)
      && BacklogAtMost(Empty, events, bound, putCapacity, getCapacity)
      && Distinct(Run(Empty, events, putCapacity, getCapacity).accepted)
      ==> InOrderThroughout(Empty, events, putCapacity, getCapacity)
  }

  // That is so if and only if the bound is at most one more than the peer's queue holds, or the sender's
  // queue holds at most one message.
  lemma OrderExactly(bound: nat, putCapacity: nat, getCapacity: nat)
    ensures OrderWithin(bound, putCapacity, getCapacity) <==> bound <= getCapacity + 1 || putCapacity <= 1
  {
    if bound <= getCapacity + 1 || putCapacity <= 1 {
      forall events |
        Runs(Empty, events, putCapacity, getCapacity)
        && BacklogAtMost(Empty, events, bound, putCapacity, getCapacity)
        && Distinct(Run(Empty, events, putCapacity, getCapacity).accepted)
        ensures InOrderThroughout(Empty, events, putCapacity, getCapacity)
      {
        SmallBacklog(Empty, events, bound, putCapacity, getCapacity);
        FifoExactly(Empty, events, putCapacity, getCapacity);
      }
    } else {
      var events := TwoSwap(getCapacity, bound, putCapacity);
      NumbersDistinct(getCapacity + 2);
      FifoExactly(Empty, events, putCapacity, getCapacity);
    }
  }

  lemma NumbersDistinct(n: nat)
    ensures Distinct(Numbers(n))
  {
  }

  // Whatever the capacities, a run in which a message overtakes the one put before it: once the first
  // message is read and another put drains the queue, message getCapacity + 1 reaches the peer while
  // message getCapacity waits.
  lemma Overtaking(putCapacity: nat, getCapacity: nat) returns (events: seq<Event>, t: State)
    requires putCapacity > 1 && getCapacity > 0
    ensures Reaches(events, t, getCapacity + 3, putCapacity, getCapacity)
    ensures Numbers(getCapacity + 2) <= t.accepted
    ensures t.delivered == [Numbered(0)]
    ensures t.d == Numbers(getCapacity)[1..] + [Numbered(getCapacity + 1)]
    ensures t.q != [] && t.q[0] == Numbered(getCapacity)
  {
    var g, bound := getCapacity, getCapacity + 3;
    events := TwoSwap(g, bound, putCapacity);
    var b, c, e, d, all := Numbered(g), Numbered(g + 1), Numbered(g + 2), Numbers(g), Numbers(g + 2);
    NumberedSingle(g + 2);
    assert [] + [d[0]] == [Numbered(0)] && [c, b] + [e] == [c, b, e];
    hide Reaches, KindOf, Numbered, Numbers;
    t := State([c, b], d, [], 0, false, all, [], true);
    Then(events, t, Receive, bound, putCapacity, g);
    events := events + [Receive];
    t := State([c, b], d[1..], [], 0, false, all, [d[0]], true);
    Then(events, t, Put(e), bound, putCapacity, g);
    t := Step(t, Put(e), putCapacity, g);
    events := events + [Put(e)];
    Then(events, t, Drain, bound, putCapacity, g);
    t := Step(t, Drain, putCapacity, g);
    events := events + [Drain];
    Then(events, t, Drain, bound, putCapacity, g);
    t := Step(t, Drain, putCapacity, g);
    events := events + [Drain];
  }
}
