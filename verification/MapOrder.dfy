// What each event of the real task map may rely on: which events it waits for, and which have run
// when it runs.
module MapOrder {
  import opened Scheduler
  import opened Ledger
  import opened RootFiring
  import opened GnbTaskMap
  import OncePerSlot

  // The events that signal t.
  function WaitsFor(t: nat): set<nat> {
    if t in {DL_PDSCH_TB, DL_PDSCH_RS, DL_CTRL, DL_BEAM_GEN} then {DL_CONFIG}
    else if t == DL_PDSCH_SCRM then {DL_PDSCH_TB}
    else if t == DL_PDSCH_SYM then {DL_PDSCH_SCRM, DL_PDSCH_RS}
    else if t in {UL_IQ_DECOMP2, UL_IQ_DECOMP6, UL_IQ_DECOMP11, UL_IQ_DECOMP13, UL_PRACH, UL_BEAM_GEN} then
      {UL_CONFIG}
    else if t == UL_PUSCH_CE0 then {UL_IQ_DECOMP2}
    else if t == UL_PUSCH_CE7 then {UL_IQ_DECOMP2, UL_IQ_DECOMP11}
    else if t == UL_PUSCH_EQL0 then {UL_IQ_DECOMP6, UL_PUSCH_CE0}
    else if t == UL_PUSCH_EQL7 then {UL_IQ_DECOMP6, UL_IQ_DECOMP13, UL_PUSCH_CE0, UL_PUSCH_CE7}
    else if t == UL_PUSCH_LLR then {UL_PUSCH_EQL0, UL_PUSCH_EQL7}
    else if t == UL_PUSCH_DEC then {UL_PUSCH_LLR}
    else if t == UL_PUSCH_TB then {UL_PUSCH_DEC}
    else if t in {UL_PUCCH, UL_SRS_DECOMP} then {UL_CONFIG, UL_IQ_DECOMP13}
    else if t == UL_SRS_CE then {UL_SRS_DECOMP}
    else if t == UL_SRS_POST then {UL_SRS_CE}
    else if t == DL_POST then {DL_PDSCH_SYM, DL_CTRL, DL_BEAM_TX}
    else if t == UL_POST then {UL_PUSCH_TB, UL_PUCCH, UL_PRACH, UL_SRS_POST, UL_BEAM_TX}
    else if t == DL_BEAM_TX then {DL_BEAM_GEN}
    else if t == UL_BEAM_TX then {UL_BEAM_GEN}
    else {}
  }

  // The events that have run before t, directly or through others.
  function Ahead(t: nat): set<nat> {
    if t in {DL_PDSCH_TB, DL_PDSCH_RS, DL_CTRL, DL_BEAM_GEN} then {DL_CONFIG}
    else if t == DL_PDSCH_SCRM then {DL_CONFIG, DL_PDSCH_TB}
    else if t == DL_PDSCH_SYM then {DL_CONFIG, DL_PDSCH_TB, DL_PDSCH_SCRM, DL_PDSCH_RS}
    else if t in {UL_IQ_DECOMP2, UL_IQ_DECOMP6, UL_IQ_DECOMP11, UL_IQ_DECOMP13, UL_PRACH, UL_BEAM_GEN} then
      {UL_CONFIG}
    else if t == UL_PUSCH_CE0 then {UL_CONFIG, UL_IQ_DECOMP2}
    else if t == UL_PUSCH_CE7 then {UL_CONFIG, UL_IQ_DECOMP2, UL_IQ_DECOMP11}
    else if t == UL_PUSCH_EQL0 then {UL_CONFIG, UL_IQ_DECOMP2, UL_IQ_DECOMP6, UL_PUSCH_CE0}
    else if t == UL_PUSCH_EQL7 then
      {UL_CONFIG, UL_IQ_DECOMP2, UL_IQ_DECOMP6, UL_IQ_DECOMP11, UL_IQ_DECOMP13, UL_PUSCH_CE0, UL_PUSCH_CE7}
    else if t == UL_PUSCH_LLR then
      {UL_CONFIG, UL_IQ_DECOMP2, UL_IQ_DECOMP6, UL_IQ_DECOMP11, UL_IQ_DECOMP13, UL_PUSCH_CE0, UL_PUSCH_CE7,
       UL_PUSCH_EQL0, UL_PUSCH_EQL7}
    else if t == UL_PUSCH_DEC then
      {UL_CONFIG, UL_IQ_DECOMP2, UL_IQ_DECOMP6, UL_IQ_DECOMP11, UL_IQ_DECOMP13, UL_PUSCH_CE0, UL_PUSCH_CE7,
       UL_PUSCH_EQL0, UL_PUSCH_EQL7, UL_PUSCH_LLR}
    else if t == UL_PUSCH_TB then
      {UL_CONFIG, UL_IQ_DECOMP2, UL_IQ_DECOMP6, UL_IQ_DECOMP11, UL_IQ_DECOMP13, UL_PUSCH_CE0, UL_PUSCH_CE7,
       UL_PUSCH_EQL0, UL_PUSCH_EQL7, UL_PUSCH_LLR, UL_PUSCH_DEC}
    else if t in {UL_PUCCH, UL_SRS_DECOMP} then {UL_CONFIG, UL_IQ_DECOMP13}
    else if t == UL_SRS_CE then {UL_CONFIG, UL_IQ_DECOMP13, UL_SRS_DECOMP}
    else if t == UL_SRS_POST then {UL_CONFIG, UL_IQ_DECOMP13, UL_SRS_DECOMP, UL_SRS_CE}
    else if t == DL_POST then
      {DL_CONFIG, DL_PDSCH_TB, DL_PDSCH_SCRM, DL_PDSCH_SYM, DL_PDSCH_RS, DL_CTRL, DL_BEAM_GEN, DL_BEAM_TX}
    else if t == UL_POST then
      {UL_CONFIG, UL_IQ_DECOMP2, UL_IQ_DECOMP6, UL_IQ_DECOMP11, UL_IQ_DECOMP13, UL_PUSCH_CE0, UL_PUSCH_CE7,
       UL_PUSCH_EQL0, UL_PUSCH_EQL7, UL_PUSCH_LLR, UL_PUSCH_DEC, UL_PUSCH_TB, UL_PUCCH, UL_PRACH, UL_SRS_DECOMP,
       UL_SRS_CE, UL_SRS_POST, UL_BEAM_GEN, UL_BEAM_TX}
    else if t == DL_BEAM_TX then {DL_CONFIG, DL_BEAM_GEN}
    else if t == UL_BEAM_TX then {UL_CONFIG, UL_BEAM_GEN}
    else {}
  }

  // ---- The two tables are those of the map ----

  predicate Signals(x: nat, t: nat) {
    t in Successors(x)
  }

  lemma DownlinkSignals(x: nat, t: nat)
    requires x < UL_CONFIG || DL_POST <= x
    ensures Signals(x, t) <==> x in WaitsFor(t)
  {
  }

  lemma DecompSignals(x: nat, t: nat)
    requires UL_CONFIG <= x < UL_PUSCH_CE0
    ensures Signals(x, t) <==> x in WaitsFor(t)
  {
  }

  lemma UplinkSignals(x: nat, t: nat)
    requires UL_PUSCH_CE0 <= x < DL_POST
    ensures Signals(x, t) <==> x in WaitsFor(t)
  {
  }

  lemma WaitsForExactly(x: nat, t: nat)
    ensures t in Successors(x) <==> x in WaitsFor(t)
  {
    if x < UL_CONFIG || DL_POST <= x {
      DownlinkSignals(x, t);
    } else if x < UL_PUSCH_CE0 {
      DecompSignals(x, t);
    } else {
      UplinkSignals(x, t);
    }
  }

  // An event that waits for t's predecessor in between: x is ahead of it, and it signals t.
  function Between(x: nat, t: nat): nat {
    if t == DL_PDSCH_SCRM then DL_PDSCH_TB
    else if t == DL_PDSCH_SYM then DL_PDSCH_SCRM
    else if t == DL_BEAM_TX then DL_BEAM_GEN
    else if t == DL_POST then if x == DL_BEAM_GEN then DL_BEAM_TX else DL_PDSCH_SYM
    else if t in {UL_PUSCH_CE0, UL_PUSCH_CE7} then UL_IQ_DECOMP2
    else if t == UL_PUSCH_EQL0 then if x == UL_IQ_DECOMP2 then UL_PUSCH_CE0 else UL_IQ_DECOMP6
    else if t == UL_PUSCH_EQL7 then
      if x == UL_IQ_DECOMP2 then UL_PUSCH_CE0 else if x == UL_IQ_DECOMP11 then UL_PUSCH_CE7 else UL_IQ_DECOMP6
    else if t == UL_PUSCH_LLR then
      if x in {UL_IQ_DECOMP11, UL_IQ_DECOMP13, UL_PUSCH_CE7} then UL_PUSCH_EQL7 else UL_PUSCH_EQL0
    else if t == UL_PUSCH_DEC then UL_PUSCH_LLR
    else if t == UL_PUSCH_TB then UL_PUSCH_DEC
    else if t == UL_SRS_CE then UL_SRS_DECOMP
    else if t == UL_SRS_POST then UL_SRS_CE
    else if t == UL_BEAM_TX then UL_BEAM_GEN
    else if x in {UL_SRS_DECOMP, UL_SRS_CE} then UL_SRS_POST
    else if x == UL_BEAM_GEN then UL_BEAM_TX
    else UL_PUSCH_TB
  }

  // What is ahead of t signals t or is ahead of something that does.
  predicate Linked(x: nat, t: nat) {
    x in Ahead(t) && x !in WaitsFor(t) ==> Between(x, t) in WaitsFor(t) && x in Ahead(Between(x, t))
  }

  // What signals t, and what is ahead of that, is ahead of t.
  predicate Inherits(y: nat, t: nat) {
    y in WaitsFor(t) ==> y in Ahead(t) && Ahead(y) <= Ahead(t)
  }

  lemma DownlinkLinked(x: nat, t: nat)
    requires t < UL_CONFIG || DL_POST <= t
    ensures Linked(x, t)
  {
  }

  lemma UplinkLinked(x: nat, t: nat)
    requires UL_CONFIG <= t < UL_PUSCH_EQL0
    ensures Linked(x, t)
  {
  }

  lemma PuschLinked(x: nat, t: nat)
    requires UL_PUSCH_EQL0 <= t < DL_POST
    ensures Linked(x, t)
  {
  }

  lemma DownlinkInherits(y: nat, t: nat)
    requires t < UL_CONFIG || DL_POST <= t
    ensures Inherits(y, t)
  {
  }

  lemma UplinkInherits(y: nat, t: nat)
    requires UL_CONFIG <= t < UL_PUSCH_EQL0
    ensures Inherits(y, t)
  {
  }

  lemma PuschInherits(y: nat, t: nat)
    requires UL_PUSCH_EQL0 <= t < DL_POST
    ensures Inherits(y, t)
  {
  }

  lemma AheadLinks(x: nat, t: nat)
    ensures Linked(x, t) && Inherits(x, t)
  {
    if t < UL_CONFIG || DL_POST <= t {
      DownlinkLinked(x, t);
      DownlinkInherits(x, t);
    } else if t < UL_PUSCH_EQL0 {
      UplinkLinked(x, t);
      UplinkInherits(x, t);
    } else {
      PuschLinked(x, t);
      PuschInherits(x, t);
    }
  }

  predicate DistinctRow(x: nat) {
    forall i, j :: 0 <= i < j < |Successors(x)| ==> Successors(x)[i] != Successors(x)[j]
  }

  lemma RowsDistinct(x: nat)
    ensures DistinctRow(x)
  {
  }

  lemma PredIs(offload: bool, c: Config, p: nat, e: nat) returns (j: nat)
    requires GnbSlot(offload, c) && p < |c.next| && e in c.next[p]
    ensures var b := Base(offload);
      && p >= b && e >= b && j < |c.next[p]| == |Successors(p - b)| && c.next[p][j] == e
      && Successors(p - b)[j] == e - b
    ensures forall i :: 0 <= i < |c.next[p]| && c.next[p][i] == e ==> i == j
  {
    hide Successors;
    j :| 0 <= j < |c.next[p]| && c.next[p][j] == e;
    TableFits(offload);
    Edge(offload, c, p, j);
    RowsDistinct(p - Base(offload));
    forall i | 0 <= i < |c.next[p]| && c.next[p][i] == e ensures i == j {
      Edge(offload, c, p, i);
    }
  }

  // Hits along a row in which e stands once, at j.
  lemma {:induction false} HitsOnce(row: seq<nat>, i: nat, j: nat, e: nat)
    requires i <= |row| && j < |row| && row[j] == e && forall k :: 0 <= k < |row| && row[k] == e ==> k == j
    ensures Hits(row, i, e) == if j < i then 1 else 0
    decreases i
  {
    if i == 0 {
      assert row[..0] == [];
    } else {
      HitsOnce(row, i - 1, j, e);
      HitsNext(row, i - 1, e);
    }
  }

  // ---- Ahead is what leads to an event ----

  predicate Leads(path: seq<nat>, x: nat, t: nat) {
    && |path| >= 2 && path[0] == x && path[|path| - 1] == t
    && forall i :: 0 <= i < |path| - 1 ==> path[i + 1] in Successors(path[i])
  }

  lemma AheadDepth(x: nat, t: nat)
    requires x in WaitsFor(t)
    ensures Depth(x) < Depth(t)
  {
    WaitsForExactly(x, t);
    hide Depth, Downlink, Successors;
    SuccessorsShape(x);
    var j :| 0 <= j < |Successors(x)| && Successors(x)[j] == t;
    assert GoodEdge(x, Successors(x)[j]);
  }

  lemma {:induction false} AheadLeads(x: nat, t: nat) returns (path: seq<nat>)
    requires x in Ahead(t)
    ensures Leads(path, x, t)
    decreases Depth(t)
  {
    hide Successors, Ahead, WaitsFor, Between, Depth;
    if x in WaitsFor(t) {
      WaitsForExactly(x, t);
      path := [x, t];
    } else {
      var y := Between(x, t);
      AheadLinks(x, t);
      WaitsForExactly(y, t);
      AheadDepth(y, t);
      var front := AheadLeads(x, y);
      path := front + [t];
    }
  }

  lemma {:induction false} LeadsAhead(path: seq<nat>, x: nat, t: nat)
    requires Leads(path, x, t)
    ensures x in Ahead(t)
    decreases |path|
  {
    hide Successors, Ahead, WaitsFor, Between;
    var n := |path|;
    var y := path[n - 2];
    assert t in Successors(y) by { assert path[n - 2 + 1] in Successors(path[n - 2]); }
    WaitsForExactly(y, t);
    AheadLinks(y, t);
    if n > 2 {
      assert Leads(path[..n - 1], x, y);
      LeadsAhead(path[..n - 1], x, y);
    }
  }

  // The events listed as ahead of t are those from which the map leads to t.
  lemma AheadExactly(x: nat, t: nat)
    ensures x in Ahead(t) <==> exists path :: Leads(path, x, t)
  {
    hide *;
    if x in Ahead(t) {
      var path := AheadLeads(x, t);
    }
    if path :| Leads(path, x, t) {
      LeadsAhead(path, x, t);
    }
  }

  // ---- How many signals an event waits for ----

  // Event x of the chain, which begins with event b, comes before event n and has e in its row.
  predicate SignalsBelow(c: Config, b: nat, e: nat, n: nat, x: nat)
    requires n <= |c.next|
  {
    b + x < n && e in c.next[b + x]
  }

  function Signallers(c: Config, b: nat, e: nat, n: nat): set<nat>
    requires n <= |c.next|
  {
    set x: nat | x < n && SignalsBelow(c, b, e, n, x)
  }

  // No row has an event twice, and none before event b has e.
  ghost predicate RowsFrom(c: Config, b: nat, e: nat) {
    && (forall p, i, j :: 0 <= p < |c.next| && 0 <= i < j < |c.next[p]| ==> c.next[p][i] != c.next[p][j])
    && (forall p :: 0 <= p < |c.next| && e in c.next[p] ==> p >= b)
  }

  lemma OneOfRow(row: seq<nat>, e: nat)
    requires forall i, j :: 0 <= i < j < |row| ==> row[i] != row[j]
    ensures multiset(row)[e] == if e in row then 1 else 0
  {
    DistinctCount(row, e);
  }

  lemma {:induction false} InDegreeIs(c: Config, b: nat, e: nat, n: nat)
    requires n <= |c.next| && RowsFrom(c, b, e)
    ensures InDegreeUpTo(c.next, e, n) == |Signallers(c, b, e, n)|
    decreases n
  {
    if n > 0 {
      InDegreeIs(c, b, e, n - 1);
      OneOfRow(c.next[n - 1], e);
      if e in c.next[n - 1] {
        assert Signallers(c, b, e, n) == Signallers(c, b, e, n - 1) + {n - 1 - b};
      } else {
        assert Signallers(c, b, e, n) == Signallers(c, b, e, n - 1);
      }
    } else {
      assert Signallers(c, b, e, 0) == {};
    }
  }

  // After a reset an event of the chain waits for as many signals as events are listed.
  lemma CountsAfterReset(offload: bool, c: Config, t: nat)
    requires GnbSlot(offload, c) && t < CHAINED && |c.next| == TaskCount(offload)
    ensures Init(c).count[Base(offload) + t] == |WaitsFor(t)|
  {
    assert Base(offload) + t < TaskCount(offload);
    hide *;
    ResetCount(offload, c, Base(offload) + t);
    MapRows(offload, c, Base(offload) + t);
    InDegreeIs(c, Base(offload), Base(offload) + t, |c.next|);
    AllSignallers(offload, c, t);
  }

  lemma MapRows(offload: bool, c: Config, e: nat)
    requires GnbSlot(offload, c)
    ensures RowsFrom(c, Base(offload), e)
  {
    hide Successors, GnbSlot;
    forall p, i, j | 0 <= p < |c.next| && 0 <= i < j < |c.next[p]| ensures c.next[p][i] != c.next[p][j] {
      NextDistinct(offload, c, p, i, j);
    }
    forall p | 0 <= p < |c.next| && e in c.next[p] ensures p >= Base(offload) {
      var j := PredIs(offload, c, p, e);
    }
  }

  lemma AllSignallers(offload: bool, c: Config, t: nat)
    requires GnbSlot(offload, c) && |c.next| == TaskCount(offload)
    ensures WaitsFor(t) == Signallers(c, Base(offload), Base(offload) + t, |c.next|)
  {
    hide WaitsFor, GnbSlot;
    forall x: nat ensures x in WaitsFor(t) <==> x in Signallers(c, Base(offload), Base(offload) + t, |c.next|) {
      SignallersAre(offload, c, x, t);
    }
  }

  lemma ResetCount(offload: bool, c: Config, e: nat)
    requires GnbSlot(offload, c) && e < |c.next|
    ensures c.Valid() && Init(c).count[e] == InDegreeUpTo(c.next, e, |c.next|)
  {
    hide TaskMap;
  }

  lemma NextDistinct(offload: bool, c: Config, p: nat, i: nat, j: nat)
    requires GnbSlot(offload, c) && p < |c.next| && i < j < |c.next[p]|
    ensures c.next[p][i] != c.next[p][j]
  {
    hide Successors, GnbSlot;
    Edge(offload, c, p, i);
    Edge(offload, c, p, j);
    RowsDistinct(p - Base(offload));
  }

  lemma SignallersAre(offload: bool, c: Config, x: nat, t: nat)
    requires GnbSlot(offload, c) && |c.next| == TaskCount(offload)
    ensures x in WaitsFor(t) <==> Base(offload) + x < |c.next| && Base(offload) + t in c.next[Base(offload) + x]
  {
    hide Successors, WaitsFor;
    WaitsForExactly(x, t);
    var p := Base(offload) + x;
    if t in Successors(x) {
      SuccessorsShape(x);
      TableFits(offload);
      var j :| 0 <= j < |Successors(x)| && Successors(x)[j] == t;
      assert c.next[p] == AbsoluteSuccessors(offload, p);
      assert c.next[p][j] == Base(offload) + t;
    } else if p < |c.next| && Base(offload) + t in c.next[p] {
      var j := PredIs(offload, c, p, Base(offload) + t);
    }
  }

  // ---- What has run ----

  // Every split of x has been sent and has executed its signal to y, successor number j.
  ghost predicate Delivered(c: Config, s: State, x: nat, j: nat)
    requires Shape(c, s) && x < |c.next|
  {
    |s.splits[x]| == c.split[x] && forall k :: 0 <= k < |s.splits[x]| ==> Done(s.splits[x][k]) > j
  }

  // The state is reachable in a slot whose callback generates the two configuration events.
  ghost predicate Reached(offload: bool, c: Config, s: State) {
    && GnbSlot(offload, c) && c.inject == [Base(offload) + DL_CONFIG, Base(offload) + UL_CONFIG]
    && exists schedule :: Runs(c, Init(c), schedule) && Run(c, Init(c), schedule) == s
  }

  lemma ReachedOrdered(offload: bool, c: Config, s: State, e: nat)
    requires Reached(offload, c, s) && e < |c.next|
    ensures Shape(c, s) && |c.next| == TaskCount(offload) && |s.splits| == |c.next|
    ensures s.splits[e] != [] ==> Complete(c, s, e)
  {
    var schedule :| Runs(c, Init(c), schedule) && Run(c, Init(c), schedule) == s;
    hide GnbSlot, Complete, Init, IsRoot;
    MapShape(offload, c);
    MapRoots(offload, c, Base(offload) + DL_CONFIG);
    MapRoots(offload, c, Base(offload) + UL_CONFIG);
    OncePerSlot.EveryState(c, schedule, e);
  }

  // A predecessor of an event that has splits has delivered.
  lemma PredDelivered(offload: bool, c: Config, s: State, x: nat, t: nat, j: nat)
    requires Reached(offload, c, s) && Base(offload) + t < |s.splits| && s.splits[Base(offload) + t] != []
    requires j < |Successors(x)| && Successors(x)[j] == t
    ensures Shape(c, s) && Base(offload) + x < |c.next| && Delivered(c, s, Base(offload) + x, j)
  {
    var b := Base(offload);
    hide Successors, GnbSlot, Init;
    ReachedShape(offload, c, s);
    ReachedOrdered(offload, c, s, b + t);
    WaitsForExactly(x, t);
    SignallersAre(offload, c, x, t);
    var i := PredIs(offload, c, b + x, b + t);
    RowsDistinct(x);
    assert i == j;
    DeliveredBy(c, s, b + x, b + t, j);
  }

  lemma ReachedShape(offload: bool, c: Config, s: State)
    requires Reached(offload, c, s)
    ensures Shape(c, s) && GnbSlot(offload, c) && |c.next| == TaskCount(offload)
  {
    hide GnbSlot, Init;
    MapShape(offload, c);
    var schedule :| Runs(c, Init(c), schedule) && Run(c, Init(c), schedule) == s;
  }

  lemma DeliveredBy(c: Config, s: State, p: nat, e: nat, j: nat)
    requires Shape(c, s) && Complete(c, s, e) && p < |c.next| && j < |c.next[p]| && c.next[p][j] == e
    requires forall i :: 0 <= i < |c.next[p]| && c.next[p][i] == e ==> i == j
    ensures Delivered(c, s, p, j)
  {
    var row, pcs := c.next[p], s.splits[p];
    HitsOnce(row, |row|, j, e);
    assert EdgeDone(row, c.split[p], pcs, e);
    forall k | 0 <= k < |pcs| ensures Done(pcs[k]) > j {
      DoneBounded(c, s, p, k);
      HitsOnce(row, Done(pcs[k]), j, e);
    }
  }

  // What is ahead of an event with splits has been sent in full.
  lemma {:induction false} AheadSent(offload: bool, c: Config, s: State, x: nat, t: nat)
    requires Reached(offload, c, s) && Base(offload) + t < |s.splits| && s.splits[Base(offload) + t] != []
    requires x in Ahead(t)
    ensures Shape(c, s) && Base(offload) + x < |c.next|
    ensures |s.splits[Base(offload) + x]| == c.split[Base(offload) + x] >= 1
    decreases Depth(t)
  {
    hide Successors, Ahead, WaitsFor, Between, Depth, GnbSlot, Reached;
    ReachedShape(offload, c, s);
    var y := if x in WaitsFor(t) then x else Between(x, t);
    AheadLinks(x, t);
    WaitsForExactly(y, t);
    var j :| 0 <= j < |Successors(y)| && Successors(y)[j] == t;
    PredDelivered(offload, c, s, y, t, j);
    if x !in WaitsFor(t) {
      AheadDepth(y, t);
      AheadSent(offload, c, s, x, y);
    }
  }

  // In every reachable state in which an event has a split, every event listed ahead of it has been sent
  // in full, and each of its splits has signalled every successor on the way.
  lemma RunsAfter(offload: bool, c: Config, s: State, x: nat, t: nat, j: nat)
    requires Reached(offload, c, s) && Base(offload) + t < |s.splits| && s.splits[Base(offload) + t] != []
    requires x in Ahead(t)
    ensures Shape(c, s) && Base(offload) + x < |c.next|
    ensures |s.splits[Base(offload) + x]| == c.split[Base(offload) + x]
    ensures exists y :: y in Successors(x) && (y == t || y in Ahead(t))
    ensures j < |Successors(x)| && (Successors(x)[j] == t || Successors(x)[j] in Ahead(t)) ==>
      Delivered(c, s, Base(offload) + x, j)
  {
    hide Successors, Ahead, GnbSlot, Reached;
    AheadSent(offload, c, s, x, t);
    var path := AheadLeads(x, t);
    assert path[1] in Successors(path[0]);
    if |path| > 2 {
      assert Leads(path[1..], path[1], t);
      LeadsAhead(path[1..], path[1], t);
    }
    if j < |Successors(x)| && (Successors(x)[j] == t || Successors(x)[j] in Ahead(t)) {
      var y := Successors(x)[j];
      if y != t {
        AheadSent(offload, c, s, y, t);
      }
      PredDelivered(offload, c, s, x, y, j);
    }
  }

  lemma PostsBehindAll(x: nat, t: nat)
    requires x < CHAINED && x != t && t in {DL_POST, UL_POST} && x != UL_TX && (Downlink(x) <==> t == DL_POST)
    ensures x in Ahead(t)
  {
  }

  // The two ends of the slot: DL_POST runs after every other downlink event of the chain, and UL_POST
  // after every other uplink event that is chained to UL_CONFIG.
  lemma PostsRunLast(offload: bool, c: Config, s: State, x: nat, t: nat) returns (j: nat)
    requires Reached(offload, c, s) && Base(offload) + t < |s.splits| && s.splits[Base(offload) + t] != []
    requires x < CHAINED && x != t && t in {DL_POST, UL_POST} && x != UL_TX && (Downlink(x) <==> t == DL_POST)
    ensures Shape(c, s) && Base(offload) + x < |c.next|
    ensures |s.splits[Base(offload) + x]| == c.split[Base(offload) + x]
    ensures j < |Successors(x)| && Delivered(c, s, Base(offload) + x, j)
  {
    PostsBehindAll(x, t);
    hide *;
    RunsAfter(offload, c, s, x, t, 0);
    var y :| y in Successors(x) && (y == t || y in Ahead(t));
    j :| 0 <= j < |Successors(x)| && Successors(x)[j] == y;
    RunsAfter(offload, c, s, x, t, j);
  }
}
