// The event-chain descriptor as the program keeps it: tables filled by loops, counters updated in
// place.  Its operations are proved to produce and to follow the state machine of Scheduler.
module EventChain {
  import opened Scheduler

  const NONE: int := -1

  ghost predicate MapOk(map_: seq<seq<int>>) {
    forall e, j :: 0 <= e < |map_| && 0 <= j < |map_[e]| ==> NONE <= map_[e][j] < |map_|
  }

  // The entries of every row precede its padding.
  ghost predicate LeftPacked(row: seq<int>) {
    forall i, j :: 0 <= i < j < |row| && row[j] != NONE ==> row[i] != NONE
  }

  // Entries in use among the first j of a row.
  function Filled(row: seq<int>, j: nat): (n: nat)
    requires j <= |row|
    ensures n <= j
  {
    if j == 0 then 0 else Filled(row, j - 1) + if row[j - 1] != NONE then 1 else 0
  }

  ghost function RowCount(row: seq<int>, j: nat, e: nat): nat
    requires j <= |row|
  {
    multiset(row[..j])[e]
  }

  ghost function MapCount(map_: seq<seq<int>>, i: nat, e: nat): nat
    requires i <= |map_|
  {
    if i == 0 then 0 else MapCount(map_, i - 1, e) + RowCount(map_[i - 1], |map_[i - 1]|, e)
  }

  lemma RowCountNext(row: seq<int>, j: nat, e: nat)
    requires j < |row|
    ensures RowCount(row, j + 1, e) == RowCount(row, j, e) + if row[j] == e then 1 else 0
  {
    assert row[..j + 1] == row[..j] + [row[j]];
  }

  lemma {:induction false} FilledPrefix(row: seq<int>, j: nat)
    requires LeftPacked(row) && j <= |row|
    ensures forall i :: 0 <= i < j ==> (row[i] != NONE <==> i < Filled(row, j))
  {
    if j > 0 {
      FilledPrefix(row, j - 1);
      AllFilled(row, j - 1);
    }
  }

  lemma {:induction false} AllFilled(row: seq<int>, j: nat)
    requires j <= |row|
    ensures (forall i :: 0 <= i < j ==> row[i] != NONE) ==> Filled(row, j) == j
  {
    if j > 0 {
      AllFilled(row, j - 1);
    }
  }

  // The successors the unlock loop visits: the first nextEventCount entries of the row.
  ghost function NextOf(map_: seq<seq<int>>, e: nat): (next: seq<nat>)
    requires MapOk(map_) && e < |map_| && LeftPacked(map_[e])
    ensures |next| == Filled(map_[e], |map_[e]|)
    ensures forall i :: 0 <= i < |next| ==> next[i] == map_[e][i] < |map_|
  {
    FilledPrefix(map_[e], |map_[e]|);
    seq(Filled(map_[e], |map_[e]|), i requires 0 <= i < Filled(map_[e], |map_[e]|) => map_[e][i] as nat)
  }

  ghost predicate TableOk(map_: seq<seq<int>>) {
    MapOk(map_) && forall e :: 0 <= e < |map_| ==> LeftPacked(map_[e])
  }

  ghost function NextTable(map_: seq<seq<int>>): (next: seq<seq<nat>>)
    requires TableOk(map_)
    ensures |next| == |map_| && forall e :: 0 <= e < |next| ==> next[e] == NextOf(map_, e)
  {
    seq(|map_|, e requires 0 <= e < |map_| => NextOf(map_, e))
  }

  // The padding does not hide or invent an edge.
  lemma NextOfCount(map_: seq<seq<int>>, p: nat, e: nat)
    requires TableOk(map_) && p < |map_|
    ensures multiset(NextOf(map_, p))[e] == RowCount(map_[p], |map_[p]|, e)
  {
    var row, next := map_[p], NextOf(map_, p);
    FilledPrefix(row, |row|);
    var n := |next|;
    assert row[..n] == next;
    PaddingCount(row, n, |row|, e);
  }

  lemma TableCount(map_: seq<seq<int>>, p: nat, e: nat)
    requires TableOk(map_) && p < |map_|
    ensures multiset(NextTable(map_)[p])[e] == RowCount(map_[p], |map_[p]|, e)
  {
    NextOfCount(map_, p, e);
    hide RowCount, NextOf;
  }

  lemma {:induction false} PaddingCount(row: seq<int>, n: nat, j: nat, e: nat)
    requires n <= j <= |row| && forall i :: n <= i < j ==> row[i] == NONE
    ensures RowCount(row, j, e) == RowCount(row, n, e)
  {
    if n < j {
      PaddingCount(row, n, j - 1, e);
      RowCountNext(row, j - 1, e);
    }
  }

  lemma {:induction false} MapCountIsInDegree(map_: seq<seq<int>>, i: nat, e: nat)
    requires TableOk(map_) && i <= |map_|
    ensures MapCount(map_, i, e) == InDegreeUpTo(NextTable(map_), e, i)
  {
    if i > 0 {
      MapCountIsInDegree(map_, i - 1, e);
      TableCount(map_, i - 1, e);
      hide RowCount, TableOk, NextTable;
    }
  }

  // The thread has come from s0 by this schedule of its own steps only.
  ghost predicate Alone(c: Config, s0: State, schedule: seq<Who>, s: State, w: Who) {
    && Shape(c, s0) && Runs(c, s0, schedule) && Run(c, s0, schedule) == s
    && forall i :: 0 <= i < |schedule| ==> schedule[i] == w
  }

  lemma AloneStep(c: Config, s0: State, schedule: seq<Who>, s: State, w: Who)
    requires Alone(c, s0, schedule, s, w) && CanStep(c, s, w)
    ensures Alone(c, s0, schedule + [w], Step(c, s, w), w)
  {
    RunAppend(c, s0, schedule, w);
  }

  // No event has more or fewer splits than before.
  ghost predicate SameSplits(s: State, t: State) {
    |t.splits| == |s.splits| && forall e :: 0 <= e < |s.splits| ==> |t.splits[e]| == |s.splits[e]|
  }

  // Event e has n splits more, which wait to be picked up; no other event has.
  ghost predicate MorePending(s: State, t: State, e: nat, n: nat) {
    && |t.splits| == |s.splits| && e < |s.splits| && |t.splits[e]| == |s.splits[e]| + n
    && (forall x :: 0 <= x < |s.splits| && x != e ==> |t.splits[x]| == |s.splits[x]|)
    && forall j :: |s.splits[e]| <= j < |t.splits[e]| ==> t.splits[e][j] == Pending
  }

  // The fetch-add on one successor's status, as a step of its thread.
  lemma SignalAlone(c: Config, s0: State, before: seq<Who>, s: State, p: nat, k: nat, i: nat) returns (t: State)
    requires Alone(c, s0, before, s, Split(p, k)) && Shape(c, s)
    requires p < |s.splits| && k < |s.splits[p]| && i < |c.next[p]| && s.splits[p][k] == Add(i)
    ensures Alone(c, s0, before + [Split(p, k)], t, Split(p, k)) && Shape(c, t) && SameSplits(s, t)
    ensures c.next[p][i] < |s.stat| && t.count == s.count && t.stat == s.stat[c.next[p][i] := s.stat[c.next[p][i]] + 1]
    ensures p < |t.splits| && k < |t.splits[p]| && t.splits[p][k] == Load(i, t.stat[c.next[p][i]])
  {
    AloneStep(c, s0, before, s, Split(p, k));
    t := Step(c, s, Split(p, k));
  }

  // The load of its count and the comparison.
  lemma LoadAlone(c: Config, s0: State, before: seq<Who>, s: State, p: nat, k: nat, i: nat,
                  seen: nat)
    returns (t: State)
    requires Alone(c, s0, before, s, Split(p, k)) && Shape(c, s)
    requires p < |s.splits| && k < |s.splits[p]| && i < |c.next[p]| && s.splits[p][k] == Load(i, seen)
    ensures Alone(c, s0, before + [Split(p, k)], t, Split(p, k)) && Shape(c, t) && SameSplits(s, t)
    ensures t.count == s.count && t.stat == s.stat && p < |t.splits| && k < |t.splits[p]|
    ensures var e := c.next[p][i];
      && e < |s.count|
      && t.splits[p][k] == if seen != s.count[e] then Add(i + 1) else if c.Raises(e) then Raise(i, 0) else Send(i)
  {
    AloneStep(c, s0, before, s, Split(p, k));
    t := Step(c, s, Split(p, k));
  }

  // The increment of one successor's count, as a step of the generating thread.
  lemma RaiseAlone(c: Config, s0: State, before: seq<Who>, s: State, p: nat, k: nat, i: nat, j: nat)
    returns (t: State)
    requires Alone(c, s0, before, s, Split(p, k)) && Shape(c, s)
    requires p < |s.splits| && k < |s.splits[p]| && s.splits[p][k] == Raise(i, j)
    ensures Alone(c, s0, before + [Split(p, k)], t, Split(p, k)) && Shape(c, t)
    ensures p < |t.splits| && k < |t.splits[p]|
    ensures i < |c.next[p]| && j < |c.next[c.next[p][i]]| && c.next[c.next[p][i]][j] < |s.count|
    ensures var x := c.next[c.next[p][i]][j];
      t.stat == s.stat && t.count == s.count[x := s.count[x] + c.split[c.next[p][i]] - 1]
    ensures t.splits[p][k] == if j + 1 < |c.next[c.next[p][i]]| then Raise(i, j + 1) else Send(i)
    ensures SameSplits(s, t)
  {
    assert PcOk(c, p, s.splits[p][k]);
    AloneStep(c, s0, before, s, Split(p, k));
    t := Step(c, s, Split(p, k));
  }

  lemma SendAlone(c: Config, s0: State, before: seq<Who>, s: State, p: nat, k: nat, i: nat)
    returns (t: State)
    requires Alone(c, s0, before, s, Split(p, k)) && Shape(c, s)
    requires p < |s.splits| && k < |s.splits[p]| && s.splits[p][k] == Send(i)
    ensures Alone(c, s0, before + [Split(p, k)], t, Split(p, k)) && Shape(c, t)
    ensures p < |t.splits| && k < |t.splits[p]| && t.splits[p][k] == Add(i + 1)
    ensures t.stat == s.stat && t.count == s.count
    ensures i < |c.next[p]| && c.next[p][i] < |c.split| && MorePending(s, t, c.next[p][i], c.split[c.next[p][i]])
  {
    assert PcOk(c, p, s.splits[p][k]);
    AloneStep(c, s0, before, s, Split(p, k));
    t := Step(c, s, Split(p, k));
  }

  // Control structures handed over between two states of the machine: of every event, each of its splits
  // as often as the event was sent, and nothing else.
  ghost predicate SentBetween(c: Config, s: State, t: State, sent: seq<Who>) {
    && |c.split| == |s.splits| == |t.splits| && Injector !in sent
    && (forall e: nat, i: nat {:trigger Split(e, i) in sent} ::
          Split(e, i) in sent ==> e < |c.split| && i < c.split[e])
    && forall e: nat, i: nat {:trigger multiset(sent)[Split(e, i)]} :: e < |c.split| && i < c.split[e] ==>
         |t.splits[e]| == |s.splits[e]| + c.split[e] * multiset(sent)[Split(e, i)]
  }

  // The splits of one event, in order.
  ghost predicate WholeEvent(sent: seq<Who>, e: nat, n: nat) {
    |sent| == n && forall i :: 0 <= i < n ==> sent[i] == Split(e, i)
  }

  lemma {:induction false} WholeEventCount(sent: seq<Who>, e: nat, n: nat, w: Who)
    requires WholeEvent(sent, e, n)
    ensures multiset(sent)[w] == if w.Split? && w.event == e && w.idx < n then 1 else 0
    decreases n
  {
    if n > 0 {
      WholeEventCount(sent[..n - 1], e, n - 1, w);
      assert sent == sent[..n - 1] + [sent[n - 1]];
    }
  }

  lemma SentNothing(c: Config, s: State, t: State)
    requires SameSplits(s, t) && |c.split| == |s.splits|
    ensures SentBetween(c, s, t, [])
  {
  }

  // An event sent on top of what was sent before.
  lemma SentMore(c: Config, s: State, t: State, u: State, sent: seq<Who>, more: seq<Who>, e: nat)
    requires SentBetween(c, s, t, sent) && e < |c.split|
    requires MorePending(t, u, e, c.split[e]) && WholeEvent(more, e, c.split[e])
    ensures SentBetween(c, s, u, sent + more)
  {
    forall x: nat, i: nat | x < |c.split| && i < c.split[x]
      ensures |u.splits[x]| == |s.splits[x]| + c.split[x] * multiset(sent + more)[Split(x, i)]
    {
      assert |t.splits[x]| == |s.splits[x]| + c.split[x] * multiset(sent)[Split(x, i)];
      WholeEventCount(more, e, c.split[e], Split(x, i));
      SentOnceMore(c.split[x], sent, more, Split(x, i), if x == e then 1 else 0);
    }
    forall x: nat, i: nat | Split(x, i) in sent + more ensures x < |c.split| && i < c.split[x] {
      if Split(x, i) !in sent {
        assert Split(x, i) in more;
      }
    }
  }

  lemma SentOnceMore(n: nat, sent: seq<Who>, more: seq<Who>, w: Who, b: nat)
    requires multiset(more)[w] == b && b <= 1
    ensures n * multiset(sent + more)[w] == n * multiset(sent)[w] + if b == 1 then n else 0
  {
    var a := multiset(sent)[w];
    assert multiset(sent + more)[w] == a + b;
    assert n * (a + 1) == n * a + n;
  }

  lemma SentSame(c: Config, s: State, t: State, u: State, sent: seq<Who>)
    requires SentBetween(c, s, t, sent) && SameSplits(t, u)
    ensures SentBetween(c, s, u, sent)
  {
  }

  class ChainDesc {
    var eventChainDepth: nat
    var nextEventChain: seq<seq<int>>
    const nextEventCount: array<nat>
    const preEventCount: array<nat>
    const preEventCountSave: array<nat>
    const preEventStat: array<nat>
    // Splits handed to the pool so far, oldest first.
    var queue: seq<Who>

    ghost predicate Valid()
      reads this
    {
      && nextEventCount.Length == preEventCount.Length == preEventCountSave.Length == preEventStat.Length
      && nextEventCount != preEventCount && nextEventCount != preEventCountSave && nextEventCount != preEventStat
      && preEventCount != preEventCountSave && preEventCount != preEventStat && preEventCountSave != preEventStat
    }

    constructor (tasks: nat)
      ensures Valid() && preEventStat.Length == tasks && queue == []
      ensures fresh(nextEventCount) && fresh(preEventCount) && fresh(preEventCountSave) && fresh(preEventStat)
    {
      eventChainDepth := 0;
      nextEventChain := [];
      nextEventCount := new nat[tasks];
      preEventCount := new nat[tasks];
      preEventCountSave := new nat[tasks];
      preEventStat := new nat[tasks];
      queue := [];
    }

    // event_chain_gen: copy the map and derive how many predecessors each event has.
    method Gen(map_: seq<seq<int>>, wake: seq<nat>)
      requires Valid() && |map_| == |wake| == preEventStat.Length && MapOk(map_)
      modifies this`eventChainDepth, this`nextEventChain, nextEventCount, preEventCount, preEventCountSave, preEventStat
      ensures Valid() && eventChainDepth == |map_| && nextEventChain == map_
      ensures forall e :: 0 <= e < |map_| ==> nextEventCount[e] == Filled(map_[e], |map_[e]|)
      ensures forall e :: 0 <= e < |map_| ==> preEventCountSave[e] == wake[e] + MapCount(map_, |map_|, e)
      ensures forall e :: 0 <= e < |map_| ==> preEventCount[e] == 0 && preEventStat[e] == 0
    {
      var n := |map_|;
      eventChainDepth := n;
      nextEventChain := map_;
      for e := 0 to n
        invariant eventChainDepth == n && nextEventChain == map_ && queue == old(queue)
        invariant forall x :: 0 <= x < e ==> nextEventCount[x] == 0 && preEventCount[x] == 0 && preEventStat[x] == 0
        invariant forall x :: 0 <= x < e ==> preEventCountSave[x] == wake[x]
      {
        nextEventCount[e] := 0;
        preEventCount[e] := 0;
        preEventStat[e] := 0;
        preEventCountSave[e] := wake[e];
      }
      for i := 0 to n
        invariant eventChainDepth == n && nextEventChain == map_ && queue == old(queue)
        invariant forall x :: 0 <= x < n ==> preEventCount[x] == 0 && preEventStat[x] == 0
        invariant forall x :: 0 <= x < n ==> nextEventCount[x] == if x < i then Filled(map_[x], |map_[x]|) else 0
        invariant forall x :: 0 <= x < n ==> preEventCountSave[x] == wake[x] + MapCount(map_, i, x)
      {
        var row := map_[i];
        for j := 0 to |row|
          invariant eventChainDepth == n && nextEventChain == map_ && queue == old(queue)
          invariant forall x :: 0 <= x < n ==> preEventCount[x] == 0 && preEventStat[x] == 0
          invariant forall x :: 0 <= x < n && x != i ==>
                      nextEventCount[x] == if x < i then Filled(map_[x], |map_[x]|) else 0
          invariant nextEventCount[i] == Filled(row, j)
          invariant forall x :: 0 <= x < n ==>
            preEventCountSave[x] == wake[x] + MapCount(map_, i, x) + RowCount(row, j, x)
        {
          forall x | 0 <= x < n ensures RowCount(row, j + 1, x) == RowCount(row, j, x) + if row[j] == x then 1 else 0 {
            RowCountNext(row, j, x);
          }
          if row[j] != NONE {
            preEventCountSave[row[j]] := preEventCountSave[row[j]] + 1;
            nextEventCount[i] := nextEventCount[i] + 1;
          }
        }
      }
    }

    // event_chain_reset: re-arm the chain for a slot.
    method Reset()
      requires Valid()
      modifies preEventCount, preEventStat
      ensures preEventCount[..] == preEventCountSave[..]
      ensures forall e :: 0 <= e < preEventStat.Length ==> preEventStat[e] == 0
    {
      for e := 0 to preEventStat.Length
        invariant forall x :: 0 <= x < e ==> preEventStat[x] == 0 && preEventCount[x] == preEventCountSave[x]
      {
        preEventStat[e] := 0;
        preEventCount[e] := preEventCountSave[e];
      }
    }

    // The chain holds the counters and the successor rows of a state of the machine.
    ghost predicate Holds(c: Config, s: State)
      reads this, nextEventCount, preEventCount, preEventStat
    {
      && Valid() && preEventCount[..] == s.count && preEventStat[..] == s.stat
      && |nextEventChain| == nextEventCount.Length == |c.next|
      && (forall e :: 0 <= e < |c.next| ==>
            nextEventCount[e] == |c.next[e]| && nextEventCount[e] <= |nextEventChain[e]|)
      && (forall e, i :: 0 <= e < |c.next| && 0 <= i < |c.next[e]| ==> nextEventChain[e][i] == c.next[e][i])
    }

    // A generated and re-armed chain is the initial state of the machine, in-degrees and all.
    method GenAndReset(map_: seq<seq<int>>, wake: seq<nat>, ghost c: Config)
      requires Valid() && |map_| == |wake| == preEventStat.Length && TableOk(map_)
      requires c.Valid() && c.next == NextTable(map_) && c.wake == wake
      modifies this, nextEventCount, preEventCount, preEventCountSave, preEventStat
      ensures Holds(c, Init(c))
    {
      Gen(map_, wake);
      forall e | 0 <= e < |map_| ensures MapCount(map_, |map_|, e) == InDegree(c, e) {
        MapCountIsInDegree(map_, |map_|, e);
      }
      Reset();
      assert preEventCount[..] == Init(c).count;
      assert preEventStat[..] == Init(c).stat;
    }

    // The end of test_func_gen: one control structure for each split, sent together.
    method SendSplits(e: nat, nSplit: nat)
      modifies this`queue
      ensures |queue| == |old(queue)| + nSplit && queue[..|old(queue)|] == old(queue)
      ensures forall j :: 0 <= j < nSplit ==> queue[|old(queue)| + j] == Split(e, j)
    {
      for nSplitIdx := 0 to nSplit
        invariant |queue| == |old(queue)| + nSplitIdx && queue[..|old(queue)|] == old(queue)
        invariant forall j :: 0 <= j < nSplitIdx ==> queue[|old(queue)| + j] == Split(e, j)
      {
        queue := queue + [Split(e, nSplitIdx)];
      }
    }

    // test_func_gen as next_event_unlock calls it, undisturbed: raise the successors' counts, then send.
    method TestFuncGen(c: Config, e: nat, ghost p: nat, ghost k: nat, ghost i: nat,
                       ghost s0: State, ghost before: seq<Who>, ghost s: State)
      returns (ghost after: seq<Who>, ghost t: State)
      requires Shape(c, s) && e < |c.next| && Holds(c, s) && Alone(c, s0, before, s, Split(p, k))
      requires p < |s.splits| && k < |s.splits[p]| && i < |c.next[p]| && c.next[p][i] == e
      requires s.splits[p][k] == if c.Raises(e) then Raise(i, 0) else Send(i)
      modifies this`queue, preEventCount
      ensures Shape(c, t) && Holds(c, t) && Alone(c, s0, after, t, Split(p, k))
      ensures p < |t.splits| && k < |t.splits[p]| && t.splits[p][k] == Add(i + 1)
      ensures MorePending(s, t, e, c.split[e])
      ensures |queue| == |old(queue)| + c.split[e] && queue[..|old(queue)|] == old(queue)
      ensures forall j :: 0 <= j < c.split[e] ==> queue[|old(queue)| + j] == Split(e, j)
    {
      hide Alone, Step;
      var w := Split(p, k);
      after, t := before, s;
      var nSplit := c.split[e];
      if nSplit > 1 {
        var iNext := 0;
        while iNext < nextEventCount[e]
          invariant 0 <= iNext <= nextEventCount[e] && queue == old(queue)
          invariant Shape(c, t) && Holds(c, t) && Alone(c, s0, after, t, w)
          invariant p < |t.splits| && k < |t.splits[p]|
          invariant t.splits[p][k] == if iNext < |c.next[e]| then Raise(i, iNext) else Send(i)
          invariant SameSplits(s, t)
        {
          var x := nextEventChain[e][iNext];
          preEventCount[x] := preEventCount[x] + nSplit - 1;
          t := RaiseAlone(c, s0, after, t, p, k, i, iNext);
          after := after + [w];
          iNext := iNext + 1;
        }
      }
      SendSplits(e, nSplit);
      t := SendAlone(c, s0, after, t, p, k, i);
      after := after + [w];
    }

    // One turn of next_event_unlock, undisturbed: signal one successor, and generate it if it was the last.
    method UnlockOne(c: Config, p: nat, iNext: nat, ghost k: nat,
                     ghost s0: State, ghost before: seq<Who>, ghost s: State, ghost sent: seq<Who>)
      returns (ghost after: seq<Who>, ghost t: State, ghost sent': seq<Who>)
      requires Shape(c, s) && Holds(c, s) && Alone(c, s0, before, s, Split(p, k)) && SentBetween(c, s0, s, sent)
      requires p < |s.splits| && k < |s.splits[p]| && iNext < |c.next[p]| && s.splits[p][k] == Add(iNext)
      modifies this`queue, preEventCount, preEventStat
      ensures Shape(c, t) && Holds(c, t) && Alone(c, s0, after, t, Split(p, k)) && SentBetween(c, s0, t, sent')
      ensures p < |t.splits| && k < |t.splits[p]| && t.splits[p][k] == Add(iNext + 1)
      ensures |sent'| >= |sent| && sent'[..|sent|] == sent && queue == old(queue) + sent'[|sent|..]
    {
      hide SentBetween, SameSplits, MorePending, WholeEvent, Alone;
      var e := nextEventChain[p][iNext];
      preEventStat[e] := preEventStat[e] + 1;
      var seen := preEventStat[e];
      ghost var s1 := SignalAlone(c, s0, before, s, p, k, iNext);
      t := LoadAlone(c, s0, before + [Split(p, k)], s1, p, k, iNext, seen);
      after := before + [Split(p, k)] + [Split(p, k)];
      SentSame(c, s0, s, s1, sent);
      SentSame(c, s0, s1, t, sent);
      sent' := sent;
      if seen == preEventCount[e] {
        ghost var loaded := t;
        after, t := TestFuncGen(c, e, p, k, iNext, s0, after, t);
        sent' := SentEvent(c, s0, loaded, t, sent, old(queue), queue, e);
      }
    }

    // next_event_unlock, undisturbed: exactly the steps of the thread from its first signal to its end;
    // what it hands to the pool is what the machine has more of afterwards.
    method NextEventUnlock(c: Config, p: nat, ghost k: nat, ghost s: State)
      returns (ghost schedule: seq<Who>, ghost t: State)
      requires Shape(c, s) && Holds(c, s)
      requires p < |s.splits| && k < |s.splits[p]| && s.splits[p][k] == Add(0)
      modifies this`queue, preEventCount, preEventStat
      ensures Holds(c, t) && Alone(c, s, schedule, t, Split(p, k))
      ensures Shape(c, t) && Exists(t, Split(p, k)) && Finished(c, t, Split(p, k))
      ensures old(queue) <= queue && SentBetween(c, s, t, queue[|old(queue)|..])
    {
      schedule, t := [], s;
      ghost var sent: seq<Who> := [];
      SentNothing(c, s, s);
      var iNext := 0;
      while iNext < nextEventCount[p]
        invariant 0 <= iNext <= nextEventCount[p]
        invariant Shape(c, t) && Holds(c, t) && Alone(c, s, schedule, t, Split(p, k))
        invariant p < |t.splits| && k < |t.splits[p]| && t.splits[p][k] == Add(iNext)
        invariant queue == old(queue) + sent && SentBetween(c, s, t, sent)
      {
        schedule, t, sent := UnlockOne(c, p, iNext, k, s, schedule, t, sent);
        iNext := iNext + 1;
      }
      assert queue[|old(queue)|..] == sent;
    }
  }

  // One event sent on top of what was sent before, as the queue shows it.
  lemma SentEvent(c: Config, s0: State, s: State, t: State, sent: seq<Who>, before: seq<Who>, after: seq<Who>, e: nat)
      returns (sent': seq<Who>)
    requires SentBetween(c, s0, s, sent) && e < |c.split| && MorePending(s, t, e, c.split[e])
    requires |after| == |before| + c.split[e] && after[..|before|] == before
    requires forall j :: 0 <= j < c.split[e] ==> after[|before| + j] == Split(e, j)
    ensures SentBetween(c, s0, t, sent')
    ensures |sent'| >= |sent| && sent'[..|sent|] == sent && after == before + sent'[|sent|..]
  {
    var more := after[|before|..];
    sent' := sent + more;
    assert WholeEvent(more, e, c.split[e]);
    hide SentBetween, MorePending;
    SentMore(c, s0, s, t, sent, more, e);
    assert sent'[|sent|..] == more;
  }
}
