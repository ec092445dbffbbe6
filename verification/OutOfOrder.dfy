// What re-injection costs on the real map, for every build and split count: which events can be
// unlocked before a predecessor has delivered its signals.
//
// They are the events with several predecessors of which one is generated twice, by the callback and by
// its own predecessor: its second signal stands in for the one that is missing.
module OutOfOrder {
  import opened Sums
  import opened Scheduler
  import opened Ledger
  import opened RootFiring
  import opened Reinjection
  import opened CallbackSlot
  import opened GnbTaskMap
  import opened MapOrder
  import opened OncePerSlot
  import opened HaltedRun
  import OrderExactly

  predicate OutOfTurn(t: nat) {
    t in {DL_PDSCH_SYM, UL_PUCCH, UL_SRS_DECOMP, UL_PUSCH_CE7, UL_PUSCH_EQL0, UL_PUSCH_EQL7, UL_POST}
  }

  // The predecessor left behind, and the one whose second generation makes up for it.
  function Skipped(t: nat): nat {
    if t == DL_PDSCH_SYM then DL_PDSCH_RS
    else if t == UL_PUSCH_CE7 then UL_IQ_DECOMP11
    else if t == UL_PUSCH_EQL0 then UL_PUSCH_CE0
    else if t == UL_PUSCH_EQL7 then UL_PUSCH_CE7
    else if t == UL_POST then UL_BEAM_TX
    else UL_CONFIG
  }

  function Doubled(t: nat): nat {
    if t == DL_PDSCH_SYM then DL_PDSCH_SCRM
    else if t == UL_PUSCH_CE7 then UL_IQ_DECOMP2
    else if t == UL_PUSCH_EQL0 || t == UL_PUSCH_EQL7 then UL_IQ_DECOMP6
    else if t == UL_POST then UL_PRACH
    else UL_IQ_DECOMP13
  }

  // Events behind the halted one; the others run as usual.
  function Behind(t: nat): set<nat> {
    if t == DL_PDSCH_SYM then {DL_PDSCH_RS, DL_PDSCH_SYM, DL_POST}
    else if t == UL_PUSCH_CE7 then
      {UL_IQ_DECOMP11, UL_PUSCH_CE7, UL_PUSCH_EQL7, UL_PUSCH_LLR, UL_PUSCH_DEC, UL_PUSCH_TB, UL_POST}
    else if t == UL_PUSCH_EQL0 then
      {UL_PUSCH_CE0, UL_PUSCH_EQL0, UL_PUSCH_EQL7, UL_PUSCH_LLR, UL_PUSCH_DEC, UL_PUSCH_TB, UL_POST}
    else if t == UL_PUSCH_EQL7 then {UL_PUSCH_CE7, UL_PUSCH_EQL7, UL_PUSCH_LLR, UL_PUSCH_DEC, UL_PUSCH_TB, UL_POST}
    else if t == UL_POST then {UL_BEAM_TX, UL_POST}
    else
      (if t == UL_PUCCH then {UL_PUCCH, UL_PRACH} else {})
      + {UL_SRS_DECOMP, UL_BEAM_GEN, UL_SRS_CE, UL_SRS_POST, UL_BEAM_TX, UL_POST}
  }

  // Position of t among the successors of UL_CONFIG, where the two cases need it.
  function SlotOf(t: nat): nat {
    if t == UL_PUCCH then 4 else 6
  }

  function HaltFor(offload: bool, t: nat): Halt {
    var q := Base(offload) + Skipped(t);
    if Skipped(t) == UL_CONFIG then Halt(q, false, Add(SlotOf(t))) else Halt(q, true, Pending)
  }

  // ---- The map around a halt ----

  // Behind is closed: what leads to an event outside is outside itself and not kept back.
  predicate FlowEdge(t: nat, x: nat, j: nat)
    requires j < |Successors(x)|
  {
    Successors(x)[j] !in Behind(t) ==>
      && x !in Behind(t)
      && (x == Skipped(t) == UL_CONFIG ==> j < SlotOf(t))
  }

  predicate TargetEdge(t: nat, x: nat, j: nat)
    requires j < |Successors(x)|
  {
    Successors(x)[j] == t && x != Skipped(t) ==> x !in Behind(t)
  }

  // The predecessor left behind is reached itself.
  predicate SourceEdge(t: nat, x: nat, j: nat)
    requires j < |Successors(x)|
  {
    Successors(x)[j] == Skipped(t) ==> x !in Behind(t) && x != Skipped(t)
  }

  predicate FlowRow(t: nat, x: nat) {
    forall j :: 0 <= j < |Successors(x)| ==> FlowEdge(t, x, j) && TargetEdge(t, x, j) && SourceEdge(t, x, j)
  }

  lemma FlowConfigs(t: nat, x: nat)
    requires OutOfTurn(t) && x in {DL_CONFIG, UL_CONFIG}
    ensures FlowRow(t, x)
  {
  }

  lemma FlowDownlink(t: nat, x: nat)
    requires OutOfTurn(t) && DL_CONFIG < x < UL_CONFIG
    ensures FlowRow(t, x)
  {
  }

  lemma FlowBeam(t: nat, x: nat)
    requires OutOfTurn(t) && DL_POST <= x
    ensures FlowRow(t, x)
  {
  }

  lemma FlowUplink(t: nat, x: nat)
    requires OutOfTurn(t) && UL_CONFIG < x < UL_PUSCH_EQL0
    ensures FlowRow(t, x)
  {
  }

  lemma FlowPusch(t: nat, x: nat)
    requires OutOfTurn(t) && UL_PUSCH_EQL0 <= x < DL_POST
    ensures FlowRow(t, x)
  {
  }

  lemma FlowShape(t: nat, x: nat)
    requires OutOfTurn(t)
    ensures FlowRow(t, x)
  {
    if x in {DL_CONFIG, UL_CONFIG} {
      FlowConfigs(t, x);
    } else if x < UL_CONFIG {
      FlowDownlink(t, x);
    } else if DL_POST <= x {
      FlowBeam(t, x);
    } else if x < UL_PUSCH_EQL0 {
      FlowUplink(t, x);
    } else {
      FlowPusch(t, x);
    }
  }

  // What the two roles of t are on the map.
  predicate RolesOk(t: nat) {
    && t in Successors(Skipped(t)) && t in Successors(Doubled(t)) && Doubled(t) != Skipped(t)
    && Reinjected(Doubled(t)) && Doubled(t) !in Behind(t) && Hanging(Doubled(t)) && Hanging(t)
    && (Skipped(t) == UL_CONFIG ==> SlotOf(t) < |Successors(UL_CONFIG)| && Successors(UL_CONFIG)[SlotOf(t)] == t)
    && (Skipped(t) != UL_CONFIG ==> Hanging(Skipped(t)) && !MaySplit(Skipped(t)))
  }

  lemma Roles(t: nat)
    requires OutOfTurn(t)
    ensures RolesOk(t)
  {
  }

  // ---- The same on a configuration ----

  predicate Flows(offload: bool, t: nat, e: nat) {
    e >= Base(offload) && e - Base(offload) !in Behind(t) && e - Base(offload) != UL_TX
  }

  function FlowSet(offload: bool, t: nat): set<nat> {
    set e: nat | e < TaskCount(offload) && Flows(offload, t, e)
  }

  // The edge from x to y lies before the halt.
  predicate Led(t: nat, x: int, y: nat) {
    y !in Behind(t) || (y == t && x != Skipped(t)) || y == Skipped(t)
  }

  lemma LedAnyway(t: nat, x: int, y: nat)
    requires y !in Behind(t) || y == Skipped(t)
    ensures Led(t, x, y)
  {
  }

  lemma FlowRelative(t: nat, x: nat, j: nat)
    requires OutOfTurn(t) && j < |Successors(x)| && Led(t, x, Successors(x)[j])
    ensures x !in Behind(t) && x < CHAINED && x != UL_TX
    ensures x == Skipped(t) ==> Skipped(t) == UL_CONFIG && j < SlotOf(t)
  {
    FlowShape(t, x);
    SuccessorsShape(x);
    hide Successors;
    assert FlowEdge(t, x, j) && TargetEdge(t, x, j) && SourceEdge(t, x, j);
    assert Skipped(t) != UL_CONFIG ==> Skipped(t) in Behind(t);
  }

  // A configuration of the callback's slot with what the lemmas below need of it.
  ghost predicate Slot(offload: bool, c: Config, t: nat) {
    && CallbackSlotOf(offload, c) && |c.next| == TaskCount(offload) && Ranked(c, Rank(offload))
    && OutOfTurn(t)
  }

  lemma InFlowSet(offload: bool, t: nat, e: nat)
    ensures e in FlowSet(offload, t) <==> e < TaskCount(offload) && Flows(offload, t, e)
  {
  }

  lemma PassesElsewhere(offload: bool, c: Config, t: nat, p: nat, e: nat)
    requires p < |c.next| && p != Base(offload) + Skipped(t)
    ensures Passes(c, HaltFor(offload, t), p, e)
  {
  }

  lemma UplinkRow(t: nat)
    ensures SlotOf(t) <= |Successors(UL_CONFIG)|
  {
  }

  lemma FlowPred(offload: bool, c: Config, t: nat, p: nat, e: nat)
    requires GnbSlot(offload, c) && |c.next| == TaskCount(offload) && OutOfTurn(t) && p < |c.next| && e in c.next[p]
    requires e >= Base(offload) && Led(t, p - Base(offload), e - Base(offload))
    ensures Flows(offload, t, p) && Passes(c, HaltFor(offload, t), p, e)
  {
    hide *;
    var j := PredIs(offload, c, p, e);
    FlowRelative(t, p - Base(offload), j);
    OutsideFlows(offload, t, p);
    if p == Base(offload) + Skipped(t) {
      UplinkRow(t);
      HaltedRow(offload, c, t, p, e, j);
    } else {
      PassesElsewhere(offload, c, t, p, e);
    }
  }

  lemma OutsideFlows(offload: bool, t: nat, p: nat)
    requires p >= Base(offload) && p - Base(offload) !in Behind(t)
    requires p - Base(offload) != UL_TX
    ensures Flows(offload, t, p)
  {
    hide Behind;
  }

  lemma HaltedRow(offload: bool, c: Config, t: nat, p: nat, e: nat, j: nat)
    requires p < |c.next| && j < |c.next[p]| && c.next[p][j] == e && Skipped(t) == UL_CONFIG && j < SlotOf(t)
    requires forall i :: 0 <= i < |c.next[p]| && c.next[p][i] == e ==> i == j
    requires SlotOf(t) <= |c.next[p]|
    ensures Passes(c, HaltFor(offload, t), p, e)
  {
    HitsOnce(c.next[p], SlotOf(t), j, e);
    HitsOnce(c.next[p], |c.next[p]|, j, e);
  }

  lemma FlowSupplied(offload: bool, c: Config, t: nat, e: nat)
    requires GnbSlot(offload, c) && |c.next| == TaskCount(offload) && OutOfTurn(t)
    requires e < TaskCount(offload) && (Flows(offload, t, e) || e == Base(offload) + Skipped(t))
    requires e >= Base(offload) && Hanging(e - Base(offload))
    ensures Supplied(c, HaltFor(offload, t), FlowSet(offload, t), e)
  {
    var y := e - Base(offload);
    FlowsNotBehind(offload, t, e);
    hide *;
    HangingNotRoot(offload, c, y);
    forall p | 0 <= p < |c.next| && e in c.next[p]
      ensures p in FlowSet(offload, t) && Passes(c, HaltFor(offload, t), p, e)
    {
      LedAnyway(t, p - Base(offload), y);
      FlowPred(offload, c, t, p, e);
      InFlowSet(offload, t, p);
    }
    IsSupplied(c, HaltFor(offload, t), FlowSet(offload, t), e);
  }

  lemma FlowsNotBehind(offload: bool, t: nat, e: nat)
    requires Flows(offload, t, e) || e == Base(offload) + Skipped(t)
    requires e >= Base(offload)
    ensures e - Base(offload) !in Behind(t) || e - Base(offload) == Skipped(t)
  {
    hide Behind, Skipped;
  }

  lemma IsSupplied(c: Config, h: Halt, flow: set<nat>, e: nat)
    requires e < |c.wake| && c.wake[e] == 0 && !IsRoot(c, e)
    requires forall p :: 0 <= p < |c.next| && e in c.next[p] ==> p in flow && Passes(c, h, p, e)
    ensures Supplied(c, h, flow, e)
  {
  }

  lemma SlotFlows(offload: bool, c: Config, t: nat)
    requires Slot(offload, c, t)
    ensures Flow(c, Rank(offload), HaltFor(offload, t), FlowSet(offload, t))
  {
    ConfigsListed(offload);
    hide CallbackList, Rank, Behind, HaltFor, Supplied, GnbSlot, Ranked;
    forall e | e in FlowSet(offload, t)
      ensures e in c.inject || Supplied(c, HaltFor(offload, t), FlowSet(offload, t), e)
    {
      InFlowSet(offload, t, e);
      if Hanging(e - Base(offload)) {
        FlowSupplied(offload, c, t, e);
      }
    }
  }

  // The edge from the predecessor that is left behind.
  lemma SkippedEdge(offload: bool, c: Config, t: nat)
    requires Slot(offload, c, t)
    ensures var b := Base(offload); var row := c.next[b + Skipped(t)];
      && b + t in row && b + t in c.next[b + Doubled(t)] && Degree(row, b + t) == 1
      && (Skipped(t) == UL_CONFIG ==> SlotOf(t) < |row| && Hits(row, SlotOf(t), b + t) == 0)
  {
    hide *;
    SlotShape(offload, c, t);
    RoleEdges(t);
    var b := Base(offload);
    InRow(offload, c, Skipped(t), t);
    InRow(offload, c, Doubled(t), t);
    var j := PredIs(offload, c, b + Skipped(t), b + t);
    OneEdge(c.next[b + Skipped(t)], j, b + t);
    if Skipped(t) == UL_CONFIG {
      assert c.next[b + Skipped(t)][SlotOf(t)] == b + t;
      HitsOnce(c.next[b + Skipped(t)], SlotOf(t), j, b + t);
    }
  }

  lemma SlotShape(offload: bool, c: Config, t: nat)
    requires Slot(offload, c, t)
    ensures GnbSlot(offload, c) && |c.next| == TaskCount(offload) && OutOfTurn(t)
  {
    hide GnbSlot, OutOfTurn, TaskCount, CallbackList;
  }

  lemma OneEdge(row: seq<nat>, j: nat, e: nat)
    requires j < |row| && row[j] == e && forall i :: 0 <= i < |row| && row[i] == e ==> i == j
    ensures Degree(row, e) == 1
  {
    HitsOnce(row, |row|, j, e);
  }

  // The edges from the two roles of t.
  lemma RoleEdges(t: nat)
    requires OutOfTurn(t)
    ensures Skipped(t) < CHAINED && t in Successors(Skipped(t))
    ensures Doubled(t) < CHAINED && t in Successors(Doubled(t))
    ensures Skipped(t) == UL_CONFIG ==> SlotOf(t) < |Successors(UL_CONFIG)| && Successors(UL_CONFIG)[SlotOf(t)] == t
  {
    Roles(t);
    hide Successors, Skipped, Doubled, Behind;
    SuccessorsShape(Skipped(t));
    SuccessorsShape(Doubled(t));
  }

  lemma InRow(offload: bool, c: Config, x: nat, t: nat)
    requires GnbSlot(offload, c) && |c.next| == TaskCount(offload) && x < CHAINED && t in Successors(x)
    ensures Base(offload) + x < |c.next| && Base(offload) + t in c.next[Base(offload) + x]
    ensures |c.next[Base(offload) + x]| == |Successors(x)|
    ensures forall j :: 0 <= j < |Successors(x)| ==> c.next[Base(offload) + x][j] == Base(offload) + Successors(x)[j]
  {
    TableFits(offload);
    hide Successors;
    var j :| 0 <= j < |Successors(x)| && Successors(x)[j] == t;
    assert c.next[Base(offload) + x] == AbsoluteSuccessors(offload, Base(offload) + x);
    assert c.next[Base(offload) + x][j] == Base(offload) + t;
  }

  // ---- What the predecessor left behind has delivered ----

  lemma NoSignal(row: seq<nat>, pcs: seq<Pc>, e: nat)
    requires forall k :: 0 <= k < |pcs| ==> pcs[k] == Pending
    ensures Sig(row, pcs, e) == 0
  {
    assert row[..0] == [];
    SumConst(SigRow(row, pcs, e), 0);
  }

  // All splits but the first have signalled.
  lemma AllButFirst(row: seq<nat>, pcs: seq<Pc>, e: nat)
    requires |pcs| > 0 && Degree(row, e) == 1 && Hits(row, Done(pcs[0]), e) == 0
    requires forall k :: 0 < k < |pcs| ==> Hits(row, Done(pcs[k]), e) == 1
    ensures Sig(row, pcs, e) == |pcs| - 1
  {
    var sigs := SigRow(row, pcs, e);
    SumUpdate(sigs, 0, 1);
    SumConst(sigs[0 := 1], 1);
  }

  // One signal short of a complete generation.
  ghost predicate OneShort(c: Config, s: State, q: nat, e: nat)
    requires Shape(c, s) && q < |c.next|
  {
    && Sig(c.next[q], s.splits[q], e) == c.split[q] * Degree(c.next[q], e) - 1
    && Sig(c.next[q], s.splits[q], e) >= Cap(c.next[q], c.split[q], s.raised[q], e) - 1
  }

  lemma EventShort(c: Config, part: seq<nat>, s: State, h: Halt, e: nat)
    requires Reinjection.Inv(c, part, s) && Stopped(c, s, h) && h.all && h.at == Pending && h.event < |c.next|
    requires c.split[h.event] == 1 && Degree(c.next[h.event], e) == 1
    ensures OneShort(c, s, h.event, e)
    ensures forall k :: 0 <= k < |s.splits[h.event]| ==> s.splits[h.event][k] == Pending
  {
    assert s.raised[h.event] <= |c.next[h.event]|;
    hide StatBalanced, CountBalanced, Tickets, Waiting, RaisedRight, Population, Matches;
    forall k | 0 <= k < |s.splits[h.event]| ensures s.splits[h.event][k] == Pending {
      assert Before(h, s.splits[h.event][k]) by { assert Concerns(h, h.event, k); }
    }
    NoSignal(c.next[h.event], s.splits[h.event], e);
    CapFull(c.next[h.event], 1, s.raised[h.event], e);
  }

  lemma FirstSplitShort(c: Config, part: seq<nat>, s: State, h: Halt, e: nat)
    requires Reinjection.Inv(c, part, s) && Stopped(c, s, h) && !h.all && h.at.Add? && h.event < |c.next|
    requires h.at.slot < |c.next[h.event]|
    requires Degree(c.next[h.event], e) == 1 && Hits(c.next[h.event], h.at.slot, e) == 0
    requires |s.splits[h.event]| == c.split[h.event] && (c.Raises(h.event) ==> s.raised[h.event] == |c.next[h.event]|)
    ensures OneShort(c, s, h.event, e)
  {
    assert s.raised[h.event] <= |c.next[h.event]|;
    hide StatBalanced, CountBalanced, Tickets, Waiting, RaisedRight, Population, Matches;
    var q, pcs := h.event, s.splits[h.event];
    assert Before(h, pcs[0]) by { assert Concerns(h, q, 0); }
    assert Halted(s, h, Split(q, 0)) || Finished(c, s, Split(q, 0));
    forall k | 0 < k < |pcs| ensures Hits(c.next[q], Done(pcs[k]), e) == 1 {
      assert Finished(c, s, Split(q, k));
    }
    AllButFirst(c.next[q], pcs, e);
    CapFull(c.next[q], c.split[q], s.raised[q], e);
  }

  // ---- The seven events ----

  ghost predicate StoppedSlot(offload: bool, c: Config, t: nat, s: State) {
    && Slot(offload, c, t) && Reinjection.Inv(c, Parts(offload), s) && Stopped(c, s, HaltFor(offload, t))
  }

  lemma StoppedFacts(offload: bool, c: Config, t: nat, s: State)
    requires StoppedSlot(offload, c, t, s)
    ensures Slot(offload, c, t) && Shape(c, s) && |c.next| == |s.splits| == |c.split| == TaskCount(offload)
    ensures Reinjection.Inv(c, Parts(offload), s) && Stopped(c, s, HaltFor(offload, t))
    ensures Flow(c, Rank(offload), HaltFor(offload, t), FlowSet(offload, t))
    ensures forall e :: 0 <= e < |c.split| ==> c.split[e] >= 1
    ensures GnbSlot(offload, c) && OutOfTurn(t)
  {
    hide StatBalanced, CountBalanced, Tickets, Waiting, RaisedRight, Population, Matches, Stopped, Behind, CallbackList;
    SlotFlows(offload, c, t);
  }

  lemma ConfigHalt(offload: bool, t: nat)
    requires Skipped(t) == UL_CONFIG
    ensures HaltFor(offload, t) == Halt(Base(offload) + UL_CONFIG, false, Add(SlotOf(t)))
    ensures OutOfTurn(t) ==> Flows(offload, t, Base(offload) + UL_CONFIG)
  {
  }

  lemma ConfigShort(offload: bool, c: Config, t: nat, s: State)
    requires StoppedSlot(offload, c, t, s) && Skipped(t) == UL_CONFIG
    ensures var q := Base(offload) + UL_CONFIG;
      q < |c.next| && Shape(c, s) && OneShort(c, s, q, Base(offload) + t) && s.splits[q] != []
  {
    var q := Base(offload) + UL_CONFIG;
    assert q < TaskCount(offload);
    hide *;
    StoppedFacts(offload, c, t, s);
    SkippedEdge(offload, c, t);
    ConfigHalt(offload, t);
    InFlowSet(offload, t, q);
    FlowReached(c, Parts(offload), Rank(offload), s, HaltFor(offload, t), FlowSet(offload, t), q);
    ConfigOnce(offload, c, t, s);
    FirstSplitShort(c, Parts(offload), s, HaltFor(offload, t), Base(offload) + t);
  }

  lemma ConfigOnce(offload: bool, c: Config, t: nat, s: State)
    requires StoppedSlot(offload, c, t, s)
    ensures var q := Base(offload) + UL_CONFIG; |s.splits[q]| <= c.split[q]
  {
    hide Reinjection.Inv, Stopped, CallbackList, Successors, Rank, Parts;
    var q := Base(offload) + UL_CONFIG;
    MapRoots(offload, c, q);
    InjectedTimes(offload, q);
    hide IsRoot, GnbSlot;
    GeneratedOnce(c, Parts(offload), s, q);
  }

  lemma EventHalt(offload: bool, c: Config, t: nat)
    requires Slot(offload, c, t) && Skipped(t) != UL_CONFIG
    ensures HaltFor(offload, t) == Halt(Base(offload) + Skipped(t), true, Pending)
    ensures Base(offload) + Skipped(t) < |c.split| && c.split[Base(offload) + Skipped(t)] == 1
  {
    Roles(t);
    hide Successors, Behind, CallbackList;
  }

  lemma EventSkipped(offload: bool, c: Config, t: nat, s: State)
    requires StoppedSlot(offload, c, t, s) && Skipped(t) != UL_CONFIG
    ensures var q := Base(offload) + Skipped(t);
      && q < |c.next| && Shape(c, s) && OneShort(c, s, q, Base(offload) + t) && s.splits[q] != []
      && forall k :: 0 <= k < |s.splits[q]| ==> s.splits[q][k] == Pending
  {
    var h, flow, q := HaltFor(offload, t), FlowSet(offload, t), Base(offload) + Skipped(t);
    Roles(t);
    hide *;
    StoppedFacts(offload, c, t, s);
    SkippedEdge(offload, c, t);
    EventHalt(offload, c, t);
    FlowSupplied(offload, c, t, q);
    FlowSent(c, Parts(offload), Rank(offload), s, h, flow);
    SuppliedFires(c, Parts(offload), s, h, flow, q);
    EventShort(c, Parts(offload), s, h, Base(offload) + t);
  }

  // The predecessor left behind was sent, and is one signal short.
  lemma SkippedShort(offload: bool, c: Config, t: nat, s: State)
    requires StoppedSlot(offload, c, t, s)
    ensures var q := Base(offload) + Skipped(t);
      && q < |c.next| && Shape(c, s) && OneShort(c, s, q, Base(offload) + t) && s.splits[q] != []
      && (Skipped(t) != UL_CONFIG ==> forall k :: 0 <= k < |s.splits[q]| ==> s.splits[q][k] == Pending)
  {
    hide *;
    if Skipped(t) == UL_CONFIG {
      ConfigShort(offload, c, t, s);
    } else {
      EventSkipped(offload, c, t, s);
    }
  }

  // The other predecessors of the event are not held back.
  lemma OtherPredecessors(offload: bool, c: Config, t: nat, x: nat)
    requires Slot(offload, c, t) && x < |c.next| && Base(offload) + t in c.next[x] && x != Base(offload) + Skipped(t)
    ensures x in FlowSet(offload, t) && Passes(c, HaltFor(offload, t), x, Base(offload) + t)
  {
    assert Led(t, x - Base(offload), t);
    hide Led, CallbackList, GnbSlot, Rank, Behind, Skipped, Passes;
    FlowPred(offload, c, t, x, Base(offload) + t);
    InFlowSet(offload, t, x);
  }

  lemma DoubledFlows(offload: bool, c: Config, t: nat)
    requires Slot(offload, c, t)
    ensures var p := Base(offload) + Doubled(t);
      p in c.inject && Supplied(c, HaltFor(offload, t), FlowSet(offload, t), p)
  {
    Roles(t);
    var p := Base(offload) + Doubled(t);
    assert Flows(offload, t, p);
    ListMembers(offload, p);
    hide CallbackList, GnbSlot, Rank, Behind, Supplied, Successors;
    FlowSupplied(offload, c, t, p);
  }

  lemma TargetFacts(offload: bool, c: Config, t: nat)
    requires GnbSlot(offload, c) && |c.next| == TaskCount(offload) && OutOfTurn(t)
    ensures var b := Base(offload);
      && b + t < |c.next| && b + Doubled(t) < |c.next| && b + Skipped(t) < |c.next| && Doubled(t) != Skipped(t)
      && b + t < |c.wake| && c.wake[b + t] == 0 && Hanging(t)
  {
    Roles(t);
    hide Successors, Behind;
  }

  lemma ShortOf(c: Config, s: State, q: nat, e: nat)
    requires Shape(c, s) && q < |c.next| && OneShort(c, s, q, e)
    ensures Sig(c.next[q], s.splits[q], e) >= Cap(c.next[q], c.split[q], s.raised[q], e) - 1
    ensures e in c.next[q] ==> !Waited(c, s, q, e)
  {
    hide Sig, Cap;
  }

  // The event is unlocked although that predecessor is short.
  lemma TargetUnlocked(offload: bool, c: Config, t: nat, s: State)
    requires StoppedSlot(offload, c, t, s)
    ensures var e := Base(offload) + t;
      e < |c.next| && Shape(c, s) && s.unlocked[e] != [] && |s.splits[e]| >= c.split[e]
  {
    var p, q, e := Base(offload) + Doubled(t), Base(offload) + Skipped(t), Base(offload) + t;
    hide *;
    StoppedFacts(offload, c, t, s);
    TargetFacts(offload, c, t);
    SkippedEdge(offload, c, t);
    SkippedShort(offload, c, t, s);
    ShortOf(c, s, q, e);
    HangingNotRoot(offload, c, t);
    DoubledFlows(offload, c, t);
    forall x | 0 <= x < |c.next| && e in c.next[x] && x != q
      ensures x in FlowSet(offload, t) && Passes(c, HaltFor(offload, t), x, e)
    {
      OtherPredecessors(offload, c, t, x);
    }
    UnlockedWithout(c, Parts(offload), Rank(offload), s, HaltFor(offload, t), FlowSet(offload, t), p, q, e);
  }

  // How a run leaves an event out of turn: finished, with a predecessor that has not delivered its
  // signals; where that one is not UL_CONFIG, none of its splits has even been picked up.
  ghost predicate Overtaken(offload: bool, c: Config, t: nat, s: State)
    requires Shape(c, s) && |c.next| == TaskCount(offload) && t < CHAINED && Skipped(t) < CHAINED
  {
    var e, q := Base(offload) + t, Base(offload) + Skipped(t);
    && s.unlocked[e] != [] && s.splits[e] != [] && s.splits[q] != []
    && (forall k :: 0 <= k < |s.splits[e]| ==> s.splits[e][k] == Add(|c.next[e]|))
    && e in c.next[q] && !Waited(c, s, q, e)
    && (Skipped(t) != UL_CONFIG ==> forall k :: 0 <= k < |s.splits[q]| ==> s.splits[q][k] == Pending)
  }

  lemma StoppedFinished(c: Config, s: State, h: Halt, e: nat)
    requires Shape(c, s) && Stopped(c, s, h) && e < |c.next| && e != h.event
    ensures forall k :: 0 <= k < |s.splits[e]| ==> s.splits[e][k] == Add(|c.next[e]|)
  {
    forall k | 0 <= k < |s.splits[e]| ensures s.splits[e][k] == Add(|c.next[e]|) {
      assert Finished(c, s, Split(e, k));
    }
  }

  lemma HaltEvent(offload: bool, t: nat)
    requires OutOfTurn(t)
    ensures HaltFor(offload, t).event == Base(offload) + Skipped(t) && Skipped(t) != t
    ensures t < CHAINED && Skipped(t) < CHAINED && (HaltFor(offload, t).at.Pending? || HaltFor(offload, t).at.Add?)
  {
  }

  lemma StoppedOvertaken(offload: bool, c: Config, t: nat, s: State)
    requires StoppedSlot(offload, c, t, s)
    ensures Shape(c, s) && |c.next| == TaskCount(offload) && t < CHAINED && Skipped(t) < CHAINED
    ensures Overtaken(offload, c, t, s)
  {
    var e, q := Base(offload) + t, Base(offload) + Skipped(t);
    hide StoppedSlot, Waited, Skipped, HaltFor, Stopped, OutOfTurn, Slot, GnbSlot, Reinjection.Inv, Flow;
    hide OneShort, Degree, Shape;
    StoppedFacts(offload, c, t, s);
    HaltEvent(offload, t);
    SkippedEdge(offload, c, t);
    SkippedShort(offload, c, t, s);
    ShortOf(c, s, q, e);
    TargetUnlocked(offload, c, t, s);
    StoppedFinished(c, s, HaltFor(offload, t), e);
  }

  lemma AtTheStart(c: Config, h: Halt)
    requires c.Valid()
    ensures AllBefore(Init(c), h)
  {
  }

  // For every build and every admissible split count there is a run of the callback's slot in which the
  // event has been unlocked and has finished while a predecessor has not delivered its signals.
  lemma RunsOutOfTurn(offload: bool, c: Config, t: nat) returns (schedule: seq<Who>)
    requires CallbackSlotOf(offload, c) && OutOfTurn(t)
    ensures Runs(c, Init(c), schedule)
    ensures |c.next| == TaskCount(offload) && t < CHAINED && Skipped(t) < CHAINED
    ensures Overtaken(offload, c, t, Run(c, Init(c), schedule))
  {
    assert c.Valid();
    hide Reinjection.Inv, Successors, Init, CallbackList, Behind, HaltFor, GnbSlot, Rank, Overtaken, Stopped, AllBefore;
    MapShape(offload, c);
    CallbackStaged(offload, c);
    Reinjection.InvInit(c, Parts(offload));
    AtTheStart(c, HaltFor(offload, t));
    HaltEvent(offload, t);
    schedule := RunsUntil(c, Parts(offload), Init(c), HaltFor(offload, t));
    StoppedOvertaken(offload, c, t, Run(c, Init(c), schedule));
  }

  // DL_PDSCH_SYM has finished while no split of its predecessor DL_PDSCH_RS has been picked up.
  lemma SymBeforeRs(offload: bool, c: Config) returns (schedule: seq<Who>)
    requires CallbackSlotOf(offload, c)
    ensures Runs(c, Init(c), schedule) && |c.next| == TaskCount(offload)
    ensures var s, sym, rs := Run(c, Init(c), schedule), Base(offload) + DL_PDSCH_SYM, Base(offload) + DL_PDSCH_RS;
      && sym in c.next[rs]
      && s.splits[rs] != [] && (forall k :: 0 <= k < |s.splits[rs]| ==> s.splits[rs][k] == Pending)
      && s.splits[sym] != [] && (forall k :: 0 <= k < |s.splits[sym]| ==> s.splits[sym][k] == Add(|c.next[sym]|))
  {
    hide CallbackSlotOf, Init, Waited;
    schedule := RunsOutOfTurn(offload, c, DL_PDSCH_SYM);
  }

  // ---- The others ----

  // A single predecessor, or none that is generated twice.
  predicate SinglePred(t: nat) {
    && t !in {DL_PDSCH_SYM, DL_POST, UL_PUCCH, UL_SRS_DECOMP}
    && t !in {UL_PUSCH_CE7, UL_PUSCH_EQL0, UL_PUSCH_EQL7, UL_PUSCH_LLR, UL_POST}
  }

  lemma SinglePredOf(t: nat, x: nat)
    requires Hanging(t) && SinglePred(t) && t in Successors(x)
    ensures x == SomePred(t)
  {
  }

  lemma SinglesOnly(t: nat, x: nat)
    requires (t == DL_POST || t == UL_PUSCH_LLR) && t in Successors(x)
    ensures Hanging(x) && !Reinjected(x)
  {
  }

  lemma PredOnce(offload: bool, c: Config, t: nat, p: nat)
    requires CallbackSlotOf(offload, c) && p < |c.next| && Base(offload) + t in c.next[p]
    requires t == DL_POST || t == UL_PUSCH_LLR
    ensures multiset(c.inject)[p] == 0
  {
    hide Successors, CallbackList;
    var j := PredIs(offload, c, p, Base(offload) + t);
    SinglesOnly(t, p - Base(offload));
    InjectedTimes(offload, p);
  }

  lemma NotSingle(t: nat)
    requires Hanging(t) && !OutOfTurn(t) && !SinglePred(t)
    ensures t == DL_POST || t == UL_PUSCH_LLR
  {
  }

  lemma NeverEarly(offload: bool, c: Config, t: nat, s: State)
    requires CallbackSlotOf(offload, c) && |c.next| == TaskCount(offload) && Reinjection.Inv(c, Parts(offload), s)
    requires Hanging(t) && !OutOfTurn(t)
    ensures !Early(c, s, Base(offload) + t)
  {
    var e := Base(offload) + t;
    assert Shape(c, s) && e < |c.next|;
    hide *;
    if SinglePred(t) {
      NeverEarlySingle(offload, c, t, s);
    } else {
      NotSingle(t);
      forall p | 0 <= p < |c.next| && e in c.next[p] ensures multiset(c.inject)[p] == 0 {
        PredOnce(offload, c, t, p);
      }
      SinglesAreWaitedFor(c, Parts(offload), s, e);
    }
  }

  lemma OnlySomePred(offload: bool, c: Config, t: nat, x: nat)
    requires CallbackSlotOf(offload, c) && |c.next| == TaskCount(offload) && Hanging(t) && SinglePred(t)
    requires x < |c.next| && Base(offload) + t in c.next[x]
    ensures x == Base(offload) + SomePred(t)
  {
    hide Successors, CallbackList, Parts, SomePred;
    var j := PredIs(offload, c, x, Base(offload) + t);
    SinglePredOf(t, x - Base(offload));
  }

  lemma NeverEarlySingle(offload: bool, c: Config, t: nat, s: State)
    requires CallbackSlotOf(offload, c) && |c.next| == TaskCount(offload) && Reinjection.Inv(c, Parts(offload), s)
    requires Hanging(t) && SinglePred(t)
    ensures !Early(c, s, Base(offload) + t)
  {
    var b, e := Base(offload), Base(offload) + t;
    assert Shape(c, s);
    hide Shape;
    hide Reinjection.Inv, Successors, CallbackList, Parts, SomePred, SinglePred, Early;
    if p :| 0 <= p < |c.next| && e in c.next[p] {
      forall x | 0 <= x < |c.next| && e in c.next[x] ensures x == b + SomePred(t) {
        OnlySomePred(offload, c, t, x);
      }
      OnlyOneIsWaitedFor(c, Parts(offload), s, p, e);
    } else {
      NoPredecessor(c, s, e);
    }
  }

  lemma NoPredecessor(c: Config, s: State, e: nat)
    requires Shape(c, s) && e < |c.next| && forall p :: 0 <= p < |c.next| ==> e !in c.next[p]
    ensures !Early(c, s, e)
  {
  }

  // Exactly these events below the configuration events can be unlocked, by some interleaving of the
  // callback's slot, before a predecessor has delivered its signals.
  lemma OutOfTurnExactly(offload: bool, c: Config, t: nat)
    requires CallbackSlotOf(offload, c) && |c.next| == TaskCount(offload) && Hanging(t)
    ensures (exists schedule :: Runs(c, Init(c), schedule) && Early(c, Run(c, Init(c), schedule), Base(offload) + t))
      <==> OutOfTurn(t)
  {
    assert Base(offload) + t < |c.next|;
    hide Reinjection.Inv, Successors, Init, CallbackList, GnbSlot, Hanging, Waited;
    if OutOfTurn(t) {
      var schedule := RunsOutOfTurn(offload, c, t);
      assert Early(c, Run(c, Init(c), schedule), Base(offload) + t);
    } else {
      hide CallbackSlotOf, Early;
      CallbackStaged(offload, c);
      Reinjection.InvInit(c, Parts(offload));
      forall schedule | Runs(c, Init(c), schedule) ensures !Early(c, Run(c, Init(c), schedule), Base(offload) + t) {
        Reinjection.InvRun(c, Parts(offload), Init(c), schedule);
        NeverEarly(offload, c, t, Run(c, Init(c), schedule));
      }
    }
  }

  // The callback can be through before any split is picked up: then exactly these nine events have been
  // sent, the seven of them that wait for a predecessor included, and none has begun.
  lemma CallbackSends(offload: bool, c: Config) returns (schedule: seq<Who>)
    requires CallbackSlotOf(offload, c) && |c.next| == TaskCount(offload)
    ensures Runs(c, Init(c), schedule)
    ensures var s, b := Run(c, Init(c), schedule), Base(offload);
      && (forall e :: 0 <= e < |c.next| ==>
            (s.splits[e] != [] <==>
               e >= b && e - b in {DL_CONFIG, DL_PDSCH_SCRM, UL_CONFIG, UL_IQ_DECOMP2, UL_IQ_DECOMP6, UL_IQ_DECOMP11,
                                   UL_IQ_DECOMP13, UL_PRACH, UL_PUSCH_TB}))
      && (forall e, k :: 0 <= e < |c.next| && 0 <= k < |s.splits[e]| ==> s.splits[e][k] == Pending)
  {
    assert c.Valid();
    hide GnbSlot, Successors;
    var b := Base(offload);
    schedule := OrderExactly.InjectorAlone(c, Init(c));
    var s := Run(c, Init(c), schedule);
    forall e | 0 <= e < |c.next| ensures s.splits[e] != [] <==> e >= b && Listed(e - b) {
      ListMembers(offload, e);
      if e in c.inject {
        var i :| 0 <= i < |c.inject| && c.inject[i] == e;
        assert s.splits[c.inject[i]] != [];
      }
    }
  }
}
