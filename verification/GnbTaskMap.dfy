// The task map of the sample application, for both builds (POLL_EBBU_OFFLOAD shifts the events from
// DL_CONFIG on by five), and what the general results say about it.
module GnbTaskMap {
  import opened Scheduler
  import opened Ledger
  import opened RootFiring
  import opened Reinjection
  import opened EventChain
  import OncePerSlot
  import CallbackSlot

  const MAX_NEXT_TASK_NUM: nat := 8

  // Event numbers relative to DL_CONFIG.
  const DL_CONFIG: nat := 0
  const DL_PDSCH_TB: nat := 1
  const DL_PDSCH_SCRM: nat := 2
  const DL_PDSCH_SYM: nat := 3
  const DL_PDSCH_RS: nat := 4
  const DL_CTRL: nat := 5
  const UL_CONFIG: nat := 6
  const UL_IQ_DECOMP2: nat := 7
  const UL_IQ_DECOMP6: nat := 8
  const UL_IQ_DECOMP11: nat := 9
  const UL_IQ_DECOMP13: nat := 10
  const UL_PUSCH_CE0: nat := 11
  const UL_PUSCH_CE7: nat := 12
  const UL_PUSCH_EQL0: nat := 13
  const UL_PUSCH_EQL7: nat := 14
  const UL_PUSCH_LLR: nat := 15
  const UL_PUSCH_DEC: nat := 16
  const UL_PUSCH_TB: nat := 17
  const UL_PUCCH: nat := 18
  const UL_PRACH: nat := 19
  const UL_SRS_DECOMP: nat := 20
  const UL_SRS_CE: nat := 21
  const UL_SRS_POST: nat := 22
  const DL_POST: nat := 23
  const UL_POST: nat := 24
  const DL_BEAM_GEN: nat := 25
  const DL_BEAM_TX: nat := 26
  const UL_BEAM_GEN: nat := 27
  const UL_BEAM_TX: nat := 28
  const UL_TX: nat := 29
  const CHAINED: nat := 30

  // Events before DL_CONFIG: timer and symbol wake-ups, and the polling tasks of the offload build.
  function Base(offload: bool): nat {
    if offload then 12 else 7
  }

  function TaskCount(offload: bool): nat {
    Base(offload) + CHAINED
  }

  // Successors of a chained event, relative to DL_CONFIG.
  function Successors(t: nat): seq<nat> {
    if t == DL_CONFIG then [DL_PDSCH_TB, DL_CTRL, DL_PDSCH_RS, DL_BEAM_GEN]
    else if t == DL_PDSCH_TB then [DL_PDSCH_SCRM]
    else if t == DL_PDSCH_SCRM then [DL_PDSCH_SYM]
    else if t == DL_PDSCH_SYM then [DL_POST]
    else if t == DL_PDSCH_RS then [DL_PDSCH_SYM]
    else if t == DL_CTRL then [DL_POST]
    else if t == UL_CONFIG then
      [UL_IQ_DECOMP2, UL_IQ_DECOMP6, UL_IQ_DECOMP11, UL_IQ_DECOMP13, UL_PUCCH, UL_PRACH, UL_SRS_DECOMP, UL_BEAM_GEN]
    else if t == UL_IQ_DECOMP2 then [UL_PUSCH_CE0, UL_PUSCH_CE7]
    else if t == UL_IQ_DECOMP6 then [UL_PUSCH_EQL0, UL_PUSCH_EQL7]
    else if t == UL_IQ_DECOMP11 then [UL_PUSCH_CE7]
    else if t == UL_IQ_DECOMP13 then [UL_PUSCH_EQL7, UL_PUCCH, UL_SRS_DECOMP]
    else if t == UL_PUSCH_CE0 then [UL_PUSCH_EQL0, UL_PUSCH_EQL7]
    else if t == UL_PUSCH_CE7 then [UL_PUSCH_EQL7]
    else if t == UL_PUSCH_EQL0 then [UL_PUSCH_LLR]
    else if t == UL_PUSCH_EQL7 then [UL_PUSCH_LLR]
    else if t == UL_PUSCH_LLR then [UL_PUSCH_DEC]
    else if t == UL_PUSCH_DEC then [UL_PUSCH_TB]
    else if t == UL_PUSCH_TB then [UL_POST]
    else if t == UL_PUCCH then [UL_POST]
    else if t == UL_PRACH then [UL_POST]
    else if t == UL_SRS_DECOMP then [UL_SRS_CE]
    else if t == UL_SRS_CE then [UL_SRS_POST]
    else if t == UL_SRS_POST then [UL_POST]
    else if t == DL_BEAM_GEN then [DL_BEAM_TX]
    else if t == DL_BEAM_TX then [DL_POST]
    else if t == UL_BEAM_GEN then [UL_BEAM_TX]
    else if t == UL_BEAM_TX then [UL_POST]
    else []
  }

  // One row of gNBNextTaskMap, as the table spells it: absolute event numbers, padded with -1.
  function MapRow(offload: bool, e: nat): (row: seq<int>)
    ensures |row| == MAX_NEXT_TASK_NUM
  {
    var b := Base(offload);
    var succ := if e < b then [] else Successors(e - b);
    seq(MAX_NEXT_TASK_NUM, j requires 0 <= j < MAX_NEXT_TASK_NUM => if j < |succ| then b + succ[j] else -1)
  }

  function TaskMap(offload: bool): (m: seq<seq<int>>)
    ensures |m| == TaskCount(offload) == if offload then 42 else 37
    ensures forall e :: 0 <= e < |m| ==> m[e] == MapRow(offload, e)
  {
    seq(TaskCount(offload), e requires 0 <= e < TaskCount(offload) => MapRow(offload, e))
  }

  // ---- The shape of the map ----

  // Distance from the configuration events along the longest path.
  function Depth(t: nat): nat {
    if t == UL_POST then 7
    else if t == UL_PUSCH_TB then 6
    else if t == UL_PUSCH_DEC then 5
    else if t in {UL_PUSCH_LLR, UL_SRS_POST, DL_POST} then 4
    else if t in {DL_PDSCH_SYM, UL_PUSCH_EQL0, UL_PUSCH_EQL7, UL_SRS_CE} then 3
    else if t in {DL_PDSCH_SCRM, DL_BEAM_TX, UL_PUSCH_CE0, UL_PUSCH_CE7, UL_PUCCH, UL_SRS_DECOMP, UL_BEAM_TX} then 2
    else if t in {DL_CONFIG, UL_CONFIG, UL_TX} then 0
    else 1
  }

  predicate Downlink(t: nat) {
    t <= DL_CTRL || t == DL_POST || t == DL_BEAM_GEN || t == DL_BEAM_TX
  }

  function RankOf(offload: bool, e: nat): nat {
    if e < Base(offload) then 0 else Depth(e - Base(offload))
  }

  function PartOf(offload: bool, e: nat): nat {
    if e < Base(offload) then 0 else if Downlink(e - Base(offload)) then 1 else 2
  }

  function Rank(offload: bool): (rank: seq<nat>)
    ensures |rank| == TaskCount(offload)
  {
    seq(TaskCount(offload), e requires 0 <= e < TaskCount(offload) =>
      RankOf(offload, e))
  }

  function Parts(offload: bool): (part: seq<nat>)
    ensures |part| == TaskCount(offload)
  {
    seq(TaskCount(offload), e requires 0 <= e < TaskCount(offload) =>
      PartOf(offload, e))
  }

  // An edge leads away from the configuration events and stays on its side of the map.
  predicate GoodEdge(t: nat, x: nat) {
    x < CHAINED && x !in {DL_CONFIG, UL_CONFIG, UL_TX} && Depth(t) < Depth(x) && Downlink(t) == Downlink(x)
  }

  predicate GoodRow(t: nat) {
    |Successors(t)| <= MAX_NEXT_TASK_NUM && forall j :: 0 <= j < |Successors(t)| ==> GoodEdge(t, Successors(t)[j])
  }

  lemma DownlinkRows(t: nat)
    requires t < UL_CONFIG || DL_POST <= t
    ensures GoodRow(t)
  {
  }

  lemma UplinkRows(t: nat)
    requires UL_CONFIG <= t < UL_PUSCH_EQL0
    ensures GoodRow(t)
  {
  }

  lemma PuschRows(t: nat)
    requires UL_PUSCH_EQL0 <= t < DL_POST
    ensures GoodRow(t)
  {
  }

  lemma SuccessorsShape(t: nat)
    ensures GoodRow(t)
    ensures Successors(t) != [] ==> t < CHAINED && t != UL_TX
  {
    if t < UL_CONFIG || DL_POST <= t {
      DownlinkRows(t);
    } else if t < UL_PUSCH_EQL0 {
      UplinkRows(t);
    } else {
      PuschRows(t);
    }
  }

  lemma RowFits(offload: bool, e: nat)
    requires e < TaskCount(offload)
    ensures var row := MapRow(offload, e);
      forall j :: 0 <= j < |row| ==>
        NONE <= row[j] < TaskCount(offload) && (row[j] != NONE <==> j < |AbsoluteSuccessors(offload, e)|)
  {
    hide Successors, Depth, Downlink;
    var b := Base(offload);
    if e >= b {
      SuccessorsShape(e - b);
      var succ := Successors(e - b);
      forall j | 0 <= j < |succ| ensures succ[j] < CHAINED {
        assert GoodEdge(e - b, succ[j]);
      }
    }
  }

  lemma RowIs(offload: bool, m: seq<seq<int>>, e: nat)
    requires m == TaskMap(offload) && TableOk(m) && e < |m|
    ensures NextOf(m, e) == AbsoluteSuccessors(offload, e)
  {
    hide Successors, TaskMap;
    RowFits(offload, e);
    assert m[e] == MapRow(offload, e);
    FilledIs(m[e], |AbsoluteSuccessors(offload, e)|, |m[e]|);
    if e >= Base(offload) { SuccessorsShape(e - Base(offload)); }
  }

  lemma TableFits(offload: bool)
    ensures TableOk(TaskMap(offload))
    ensures forall e :: 0 <= e < TaskCount(offload) ==>
      NextOf(TaskMap(offload), e) == AbsoluteSuccessors(offload, e)
  {
    hide AbsoluteSuccessors, MapRow;
    var m := TaskMap(offload);
    forall e | 0 <= e < |m|
      ensures LeftPacked(m[e]) && forall j :: 0 <= j < |m[e]| ==> NONE <= m[e][j] < |m|
    {
      RowFits(offload, e);
    }
    forall e | 0 <= e < |m| ensures NextOf(m, e) == AbsoluteSuccessors(offload, e) {
      RowIs(offload, m, e);
    }
  }

  lemma {:induction false} FilledIs(row: seq<int>, n: nat, j: nat)
    requires j <= |row| && forall i :: 0 <= i < j ==> (row[i] != NONE <==> i < n)
    ensures Filled(row, j) == if j < n then j else n
  {
    if j > 0 {
      FilledIs(row, n, j - 1);
    }
  }

  function AbsoluteSuccessors(offload: bool, e: nat): (r: seq<nat>) {
    var b := Base(offload);
    var succ := if e < b then [] else Successors(e - b);
    seq(|succ|, j requires 0 <= j < |succ| => b + succ[j])
  }

  // A slot of this application: its map, no external wake-ups, any split counts.
  ghost predicate GnbSlot(offload: bool, c: Config) {
    && c.Valid() && TableOk(TaskMap(offload)) && c.next == NextTable(TaskMap(offload))
    && forall e :: 0 <= e < |c.wake| ==> c.wake[e] == 0
  }

  lemma Edge(offload: bool, c: Config, p: nat, j: nat)
    requires GnbSlot(offload, c) && p < |c.next| && j < |c.next[p]|
    ensures var b := Base(offload); p >= b && j < |Successors(p - b)| && c.next[p][j] == b + Successors(p - b)[j]
  {
    TableFits(offload);
  }

  lemma EdgeShape(offload: bool, c: Config, p: nat, j: nat)
    requires GnbSlot(offload, c) && p < |c.next| && j < |c.next[p]|
    ensures var b, x := Base(offload), c.next[p][j]; p >= b && x >= b && GoodEdge(p - b, x - b)
  {
    hide Successors, GoodEdge, GnbSlot;
    Edge(offload, c, p, j);
    SuccessorsShape(p - Base(offload));
  }

  lemma MapShape(offload: bool, c: Config)
    requires GnbSlot(offload, c)
    ensures |c.next| == TaskCount(offload)
    ensures OncePerSlot.Ranked(c, Rank(offload))
    ensures forall p, j :: 0 <= p < |c.next| && 0 <= j < |c.next[p]| ==>
      Parts(offload)[c.next[p][j]] == Parts(offload)[p]
  {
    hide Successors, Depth, Downlink;
    forall p, j | 0 <= p < |c.next| && 0 <= j < |c.next[p]|
      ensures Rank(offload)[p] < Rank(offload)[c.next[p][j]]
      ensures Parts(offload)[c.next[p][j]] == Parts(offload)[p]
    {
      EdgeShape(offload, c, p, j);
    }
  }

  // Nothing leads to the configuration events, to UL_TX or to the unchained events.
  lemma MapRoots(offload: bool, c: Config, e: nat)
    requires GnbSlot(offload, c) && e < |c.next|
    requires e < Base(offload) || e - Base(offload) in {DL_CONFIG, UL_CONFIG, UL_TX}
    ensures IsRoot(c, e)
  {
    hide Successors, Depth, Downlink;
    forall p, j | 0 <= p < |c.next| && 0 <= j < |c.next[p]| ensures c.next[p][j] != e {
      EdgeShape(offload, c, p, j);
    }
  }

  // One predecessor of every chained event that has any.
  function SomePred(t: nat): nat {
    if t in {DL_PDSCH_TB, DL_CTRL, DL_PDSCH_RS, DL_BEAM_GEN} then DL_CONFIG
    else if t == DL_PDSCH_SCRM then DL_PDSCH_TB
    else if t == DL_PDSCH_SYM then DL_PDSCH_RS
    else if t == DL_POST then DL_CTRL
    else if t == DL_BEAM_TX then DL_BEAM_GEN
    else if t in {UL_PUSCH_CE0, UL_PUSCH_CE7} then UL_IQ_DECOMP2
    else if t in {UL_PUSCH_EQL0, UL_PUSCH_EQL7} then UL_IQ_DECOMP6
    else if t == UL_PUSCH_LLR then UL_PUSCH_EQL0
    else if t == UL_PUSCH_DEC then UL_PUSCH_LLR
    else if t == UL_PUSCH_TB then UL_PUSCH_DEC
    else if t == UL_SRS_CE then UL_SRS_DECOMP
    else if t == UL_SRS_POST then UL_SRS_CE
    else if t == UL_POST then UL_PRACH
    else if t == UL_BEAM_TX then UL_BEAM_GEN
    else UL_CONFIG
  }

  // The chained events that hang below the two configuration events.
  predicate Hanging(t: nat) {
    t < CHAINED && t !in {DL_CONFIG, UL_CONFIG, UL_TX}
  }

  predicate HasSomePred(t: nat) {
    SomePred(t) < CHAINED && t in Successors(SomePred(t))
  }

  lemma SomePredDownlink(t: nat)
    requires Hanging(t) && Downlink(t)
    ensures HasSomePred(t)
  {
  }

  lemma SomePredUplink(t: nat)
    requires Hanging(t) && !Downlink(t)
    ensures HasSomePred(t)
  {
  }

  lemma HangingNotRoot(offload: bool, c: Config, t: nat)
    requires GnbSlot(offload, c) && Hanging(t)
    ensures !IsRoot(c, Base(offload) + t)
  {
    TableFits(offload);
    if Downlink(t) { SomePredDownlink(t); } else { SomePredUplink(t); }
    hide Successors;
    var p := SomePred(t);
    hide SomePred, Downlink;
    var j :| 0 <= j < |Successors(p)| && Successors(p)[j] == t;
    assert c.next[Base(offload) + p] == AbsoluteSuccessors(offload, Base(offload) + p);
    assert c.next[Base(offload) + p][j] == Base(offload) + t;
  }

  lemma PredShape(offload: bool, c: Config, p: nat, e: nat)
    requires GnbSlot(offload, c) && p < |c.next| == TaskCount(offload) && e in c.next[p]
    ensures p >= Base(offload) && e >= Base(offload) && Depth(p - Base(offload)) < Depth(e - Base(offload))
    ensures p == Base(offload) + DL_CONFIG || p == Base(offload) + UL_CONFIG || Hanging(p - Base(offload))
  {
    hide Depth, Downlink, Successors;
    var j :| 0 <= j < |c.next[p]| && c.next[p][j] == e;
    EdgeShape(offload, c, p, j);
    Edge(offload, c, p, j);
    SuccessorsShape(p - Base(offload));
  }

  // A slot whose callback injects both configuration events.
  ghost predicate Configured(offload: bool, c: Config) {
    && GnbSlot(offload, c) && |c.next| == TaskCount(offload) && OncePerSlot.Ranked(c, Rank(offload))
    && Base(offload) + DL_CONFIG in c.inject && Base(offload) + UL_CONFIG in c.inject
  }

  lemma HangingIsFed(offload: bool, c: Config, t: nat)
    requires Configured(offload, c) && Hanging(t)
    requires forall p :: 0 <= p < |c.next| && Base(offload) + t in c.next[p] ==>
               OncePerSlot.LivePred(c, Rank(offload), p, Base(offload) + t)
    ensures OncePerSlot.Fed(c, Rank(offload), Base(offload) + t)
  {
    HangingNotRoot(offload, c, t);
    hide Rank, OncePerSlot.Fed, OncePerSlot.LivePred;
    OncePerSlot.BecomesFed(c, Rank(offload), Base(offload) + t);
  }

  // Every hanging event is fed.
  lemma {:induction false} HangingFed(offload: bool, c: Config, t: nat)
    requires Configured(offload, c) && Hanging(t)
    ensures OncePerSlot.Fed(c, Rank(offload), Base(offload) + t)
    decreases Depth(t), 1
  {
    forall p | 0 <= p < |c.next| && Base(offload) + t in c.next[p]
      ensures OncePerSlot.LivePred(c, Rank(offload), p, Base(offload) + t)
    {
      hide *;
      PredLive(offload, c, t, p);
    }
    hide *;
    HangingIsFed(offload, c, t);
  }

  lemma {:induction false} PredLive(offload: bool, c: Config, t: nat, p: nat)
    requires Configured(offload, c) && Hanging(t) && p < |c.next| && Base(offload) + t in c.next[p]
    ensures OncePerSlot.LivePred(c, Rank(offload), p, Base(offload) + t)
    decreases Depth(t), 0
  {
    var b, e := Base(offload), Base(offload) + t;
    hide Depth, Hanging, GnbSlot, Rank, IsRoot, OncePerSlot.Ranked, OncePerSlot.Fed, OncePerSlot.LivePred;
    PredShape(offload, c, p, e);
    if p != b + DL_CONFIG && p != b + UL_CONFIG {
      HangingFed(offload, c, p - b);
    }
    OncePerSlot.EdgeIsLive(c, Rank(offload), p, e);
  }

  // The events of the chain that a slot with both configuration events must run.
  predicate InSlot(offload: bool, e: nat) {
    Base(offload) <= e < TaskCount(offload) && e != Base(offload) + UL_TX
  }

  // Without re-injection: any split counts, any interleaving, every complete run generates each event
  // of the chain exactly once, DL_POST and UL_POST among them, and none of the others.
  lemma ChainRunsOnce(offload: bool, c: Config, schedule: seq<Who>, e: nat)
    requires GnbSlot(offload, c) && c.inject == [Base(offload) + DL_CONFIG, Base(offload) + UL_CONFIG]
    requires Runs(c, Init(c), schedule) && Quiescent(c, Run(c, Init(c), schedule)) && e < |c.next|
    ensures var s := Run(c, Init(c), schedule);
      && OncePerSlot.Generations(c, s, e) == (if InSlot(offload, e) then 1 else 0)
      && |s.splits[e]| == (if InSlot(offload, e) then c.split[e] else 0)
  {
    hide Successors, Depth, Downlink, Init, OncePerSlot.Fed;
    MapShape(offload, c);
    MapRoots(offload, c, Base(offload) + DL_CONFIG);
    MapRoots(offload, c, Base(offload) + UL_CONFIG);
    OncePerSlot.ExactlyOnce(c, Rank(offload), schedule, e);
    FedIsHanging(offload, c, e);
  }

  lemma FedIsHanging(offload: bool, c: Config, e: nat)
    requires GnbSlot(offload, c) && e < |c.next| == TaskCount(offload) && OncePerSlot.Ranked(c, Rank(offload))
    requires Base(offload) + DL_CONFIG in c.inject && Base(offload) + UL_CONFIG in c.inject
    ensures OncePerSlot.Fed(c, Rank(offload), e) <==> e >= Base(offload) && Hanging(e - Base(offload))
    ensures !(e >= Base(offload) && Hanging(e - Base(offload))) ==> IsRoot(c, e)
  {
    hide Successors, Depth, Downlink;
    if e >= Base(offload) && Hanging(e - Base(offload)) {
      HangingFed(offload, c, e - Base(offload));
    } else {
      MapRoots(offload, c, e);
    }
  }

  // ---- The callback's own list ----

  // exGenDlFunc followed by exGenUlFunc.
  function CallbackList(offload: bool): seq<nat> {
    var b := Base(offload);
    [b + DL_CONFIG, b + DL_PDSCH_SCRM, b + UL_CONFIG, b + UL_IQ_DECOMP2, b + UL_IQ_DECOMP6, b + UL_IQ_DECOMP11,
     b + UL_IQ_DECOMP13, b + UL_PRACH, b + UL_PUSCH_TB]
  }

  // Events the callback generates although they also wait for predecessors.
  predicate Reinjected(t: nat) {
    t in {DL_PDSCH_SCRM, UL_IQ_DECOMP2, UL_IQ_DECOMP6, UL_IQ_DECOMP11, UL_IQ_DECOMP13, UL_PRACH, UL_PUSCH_TB}
  }

  // Only these have a pre-event function that asks for several splits while nSplitNumCell is 1.
  predicate MaySplit(t: nat) {
    t in {DL_CONFIG, UL_CONFIG, DL_POST, UL_TX}
  }

  ghost predicate CallbackSlotOf(offload: bool, c: Config) {
    && GnbSlot(offload, c) && c.inject == CallbackList(offload)
    && forall e :: 0 <= e < |c.split| && c.split[e] > 1 ==> e >= Base(offload) && MaySplit(e - Base(offload))
  }

  // In this slot only the configuration events raise counts.
  lemma OnlyConfigsRaise(offload: bool, c: Config, e: nat)
    requires CallbackSlotOf(offload, c) && e < |c.next| == |c.split| && c.Raises(e)
    ensures e == Base(offload) + DL_CONFIG || e == Base(offload) + UL_CONFIG
  {
    TableFits(offload);
    assert Successors(DL_POST) == [] == Successors(UL_TX);
  }

  // The downlink list begins with DL_CONFIG, and the uplink list with UL_CONFIG.
  lemma ListStaged(offload: bool, i: nat, j: nat)
    requires i < j < |CallbackList(offload)|
    ensures CallbackList(offload)[i] != CallbackList(offload)[j]
    ensures CallbackList(offload)[j] != Base(offload) + DL_CONFIG
    ensures CallbackList(offload)[j] == Base(offload) + UL_CONFIG ==>
      PartOf(offload, CallbackList(offload)[i]) != PartOf(offload, CallbackList(offload)[j])
  {
  }

  lemma CallbackStaged(offload: bool, c: Config)
    requires CallbackSlotOf(offload, c)
    ensures Staged(c, Parts(offload))
  {
    hide Successors, Depth, Downlink, CallbackList;
    var b, part := Base(offload), Parts(offload);
    MapShape(offload, c);
    forall e | 0 <= e < |c.next| && c.Raises(e) ensures IsRoot(c, e) {
      OnlyConfigsRaise(offload, c, e);
      MapRoots(offload, c, e);
    }
    forall i, j | 0 <= i < j < |c.inject|
      ensures c.Raises(c.inject[j]) ==> part[c.inject[i]] != part[c.inject[j]]
      ensures c.inject[i] != c.inject[j]
    {
      ListStaged(offload, i, j);
      if c.Raises(c.inject[j]) { OnlyConfigsRaise(offload, c, c.inject[j]); }
    }
  }

  // Every complete run of a slot as the callback starts it: each hanging event is unlocked exactly once;
  // the re-injected ones run twice, everything else of the chain once, UL_TX and the rest not at all.
  lemma CallbackRuns(offload: bool, c: Config, schedule: seq<Who>, e: nat)
    requires CallbackSlotOf(offload, c) && e < |c.next|
    requires Runs(c, Init(c), schedule) && Quiescent(c, Run(c, Init(c), schedule))
    ensures var s := Run(c, Init(c), schedule); var b := Base(offload);
      && |s.unlocked[e]| == (if e >= b && Hanging(e - b) then 1 else 0)
      && |s.splits[e]| == c.split[e] * (if !InSlot(offload, e) then 0 else if Reinjected(e - b) then 2 else 1)
  {
    hide Successors, Depth, Downlink, Init, OncePerSlot.Fed, CallbackList, Staged, Rank, Parts, GnbSlot, IsRoot;
    MapShape(offload, c);
    CallbackStaged(offload, c);
    ConfigsListed(offload);
    FedIsHanging(offload, c, e);
    InjectedTimes(offload, e);
    hide OncePerSlot.Ranked;
    CallbackSlot.UnlockedOnce(c, Parts(offload), Rank(offload), schedule, e);
  }

  lemma ConfigsListed(offload: bool)
    ensures Base(offload) + DL_CONFIG in CallbackList(offload) && Base(offload) + UL_CONFIG in CallbackList(offload)
  {
    assert CallbackList(offload)[0] == Base(offload) + DL_CONFIG;
    assert CallbackList(offload)[2] == Base(offload) + UL_CONFIG;
  }

  lemma {:induction false} DistinctCount(s: seq<nat>, e: nat)
    requires forall i, j :: 0 <= i < j < |s| ==> s[i] != s[j]
    ensures multiset(s)[e] == if e in s then 1 else 0
  {
    if |s| > 0 {
      var n := |s| - 1;
      DistinctCount(s[..n], e);
      assert s == s[..n] + [s[n]];
    }
  }

  predicate Listed(t: nat) {
    t == DL_CONFIG || t == UL_CONFIG || Reinjected(t)
  }

  lemma ListMembers(offload: bool, e: nat)
    ensures e in CallbackList(offload) <==> e >= Base(offload) && Listed(e - Base(offload))
  {
  }

  lemma InjectedTimes(offload: bool, e: nat)
    ensures multiset(CallbackList(offload))[e] == if e >= Base(offload) && Listed(e - Base(offload)) then 1 else 0
  {
    hide CallbackList, Listed;
    forall i, j | 0 <= i < j < |CallbackList(offload)| ensures CallbackList(offload)[i] != CallbackList(offload)[j] {
      ListStaged(offload, i, j);
    }
    DistinctCount(CallbackList(offload), e);
    ListMembers(offload, e);
  }
}
