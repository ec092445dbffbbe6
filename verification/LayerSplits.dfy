// Splitting the antenna-carrier layers of an event over tasks, and what the tasks of one event do
// with their shares.
module LayerSplits {
  import opened Arith
  import opened Counting

  const MAX_TEST_SPLIT_NUM: nat := 55
  const XRAN_NUM_OF_SYMBOL_PER_SLOT: nat := 14

  datatype Category = CategoryA | CategoryB

  // SampleSplitStruct; the split type and the group are the same for all.
  datatype Split = Split(nSymbStart: nat, nSymbNum: nat, nSplitIndex: nat, nLayerStart: nat, nLayerNum: nat)

  // Splits one after the other, without gap or overlap, from layer 0 to the last; all symbols each.
  ghost predicate Covers(splits: seq<Split>, total: nat) {
    && splits != []
    && splits[0].nLayerStart == 0
    && (forall i :: 0 < i < |splits| ==> splits[i].nLayerStart == splits[i - 1].nLayerStart + splits[i - 1].nLayerNum)
    && splits[|splits| - 1].nLayerStart + splits[|splits| - 1].nLayerNum == total
    && forall i :: 0 <= i < |splits| ==>
         splits[i].nSplitIndex == i && splits[i].nSymbStart == 0 && splits[i].nSymbNum == XRAN_NUM_OF_SYMBOL_PER_SLOT
  }

  function Times(i: nat, share: nat): nat {
    i * share
  }

  lemma TimesNext(i: nat, share: nat)
    ensures Times(0, share) == 0 && Times(i + 1, share) == Times(i, share) + share
  {
  }

  // Splits of one share each, in sequence.
  ghost predicate Shared(splits: seq<Split>, share: nat) {
    forall i :: 0 <= i < |splits| ==>
      splits[i] == Split(0, XRAN_NUM_OF_SYMBOL_PER_SLOT, i, Times(i, share), share)
  }

  // The loop shared by the pre-tasks of DL config, DL post, UL config and UL transmit; table is the
  // row of split parameters that the task pointers refer to.  nTaskNum says how many tasks to start.
  method FillSplits(nTotalLayers: nat, nSplitGroup: nat, table: array<Split>) returns (nTaskNum: nat)
    requires nSplitGroup > 0 && table.Length == MAX_TEST_SPLIT_NUM
    modifies table
    ensures nTaskNum == nSplitGroup
    ensures Covers(table[..Min(nSplitGroup, MAX_TEST_SPLIT_NUM)], nTotalLayers)
    ensures forall i :: 0 <= i < Min(nSplitGroup, MAX_TEST_SPLIT_NUM) - 1 ==>
      table[i].nLayerNum == nTotalLayers / nSplitGroup
  {
    hide Times;
    var nLayerStart: nat := 0;
    var nLayerPerSplit := nTotalLayers / nSplitGroup;
    nTaskNum := nSplitGroup;
    var iTask := 0;
    TimesNext(0, nLayerPerSplit);
    hide Covers;
    while iTask < nSplitGroup - 1 && iTask < MAX_TEST_SPLIT_NUM - 1
      invariant iTask <= Min(nSplitGroup, MAX_TEST_SPLIT_NUM) - 1 && nLayerStart == Times(iTask, nLayerPerSplit)
      invariant Shared(table[..iTask], nLayerPerSplit)
    {
      table[iTask] := Split(0, XRAN_NUM_OF_SYMBOL_PER_SLOT, iTask, nLayerStart, nLayerPerSplit);
      TimesNext(iTask, nLayerPerSplit);
      nLayerStart := nLayerStart + nLayerPerSplit;
      iTask := iTask + 1;
    }
    SharesFit(nTotalLayers, nSplitGroup, iTask);
    ghost var front := table[..iTask];
    SharedCovers(front, nLayerPerSplit, nLayerStart, nTotalLayers);
    table[iTask] := Split(0, XRAN_NUM_OF_SYMBOL_PER_SLOT, iTask, nLayerStart, nTotalLayers - nLayerStart);
    assert table[..iTask + 1] == front + [table[iTask]];
    assert forall i :: 0 <= i < iTask ==> table[i] == front[i];
  }

  // The last split takes what the shares before it leave.
  lemma SharedCovers(front: seq<Split>, share: nat, start: nat, total: nat)
    requires Shared(front, share) && start == Times(|front|, share) <= total
    ensures Covers(front + [Split(0, XRAN_NUM_OF_SYMBOL_PER_SLOT, |front|, start, total - start)], total)
    ensures forall i :: 0 <= i < |front| ==> front[i].nLayerNum == share
  {
    var splits := front + [Split(0, XRAN_NUM_OF_SYMBOL_PER_SLOT, |front|, start, total - start)];
    hide Times;
    TimesNext(0, share);
    forall i | 0 < i < |splits|
      ensures splits[i].nLayerStart == splits[i - 1].nLayerStart + splits[i - 1].nLayerNum
    {
      TimesNext(i - 1, share);
      assert splits[i - 1] == front[i - 1];
    }
  }

  lemma SharesFit(total: nat, group: nat, i: nat)
    requires group > 0 && i < group
    ensures Times(i, total / group) <= total
  {
    var share := total / group;
    assert group * share <= total;
    assert (group - i) * share >= 0;
    assert i * share + (group - i) * share == group * share;
  }

  function GroupOf(cat: Category, layers: nat): nat {
    if cat == CategoryA then 1 else layers
  }

  // ---- The calls of one task ----

  // One call of app_io_xran_iq_content_init_up_tx, or of its counterpart for CSI-RS.
  datatype Call = Call(cc: nat, ant: nat, sym: nat)

  function SymCalls(cc: nat, ant: nat, sym: nat, mask: set<nat>): seq<Call>
    decreases XRAN_NUM_OF_SYMBOL_PER_SLOT - sym
  {
    if sym >= XRAN_NUM_OF_SYMBOL_PER_SLOT then []
    else (if sym in mask then [Call(cc, ant, sym)] else []) + SymCalls(cc, ant, sym + 1, mask)
  }

  function AntCalls(cc: nat, ant: nat, end: nat, mask: set<nat>): seq<Call>
    decreases end - ant
  {
    if ant >= end then [] else SymCalls(cc, ant, 0, mask) + AntCalls(cc, ant + 1, end, mask)
  }

  function CcCalls(cc: nat, ccEnd: nat, ant: nat, end: nat, mask: set<nat>): seq<Call>
    decreases ccEnd - cc
  {
    if cc >= ccEnd then [] else AntCalls(cc, ant, end, mask) + CcCalls(cc + 1, ccEnd, ant, end, mask)
  }

  // The symbols of a split, as bits of a mask.
  function MaskOf(start: nat, num: nat): (mask: set<nat>)
    ensures forall k :: k in mask <==> start <= k < start + num
  {
    if num == 0 then {} else MaskOf(start, num - 1) + {start + num - 1}
  }

  method SymMask(split: Split) returns (nSymMask: set<nat>)
    ensures nSymMask == MaskOf(split.nSymbStart, split.nSymbNum)
  {
    nSymMask := {};
    for k := split.nSymbStart to split.nSymbStart + split.nSymbNum
      invariant nSymMask == MaskOf(split.nSymbStart, k - split.nSymbStart)
    {
      nSymMask := nSymMask + {k};
    }
  }

  lemma SymStep(done: seq<Call>, cc: nat, ant: nat, sym: nat, mask: set<nat>)
    requires sym < XRAN_NUM_OF_SYMBOL_PER_SLOT
    ensures done + SymCalls(cc, ant, sym, mask)
         == (if sym in mask then done + [Call(cc, ant, sym)] else done) + SymCalls(cc, ant, sym + 1, mask)
  {
    var rest := SymCalls(cc, ant, sym + 1, mask);
    if sym in mask {
      assert done + ([Call(cc, ant, sym)] + rest) == (done + [Call(cc, ant, sym)]) + rest;
    } else {
      assert [] + rest == rest;
    }
  }

  lemma SymEnd(cc: nat, ant: nat, mask: set<nat>)
    ensures SymCalls(cc, ant, XRAN_NUM_OF_SYMBOL_PER_SLOT, mask) == []
  {
  }

  // The loops over symbols, antennas and carriers, from the inside out.
  method InitSymbols(cc: nat, ant: nat, mask: set<nat>) returns (calls: seq<Call>)
    ensures calls == SymCalls(cc, ant, 0, mask)
  {
    hide SymCalls;
    calls := [];
    SymEnd(cc, ant, mask);
    var sym := 0;
    while sym < XRAN_NUM_OF_SYMBOL_PER_SLOT
      invariant sym <= XRAN_NUM_OF_SYMBOL_PER_SLOT
      invariant calls + SymCalls(cc, ant, sym, mask) == SymCalls(cc, ant, 0, mask)
    {
      SymStep(calls, cc, ant, sym, mask);
      if sym in mask {
        calls := calls + [Call(cc, ant, sym)];
      }
      sym := sym + 1;
    }
  }

  lemma AntStep(done: seq<Call>, cc: nat, ant: nat, end: nat, mask: set<nat>)
    requires ant < end
    ensures done + AntCalls(cc, ant, end, mask)
         == (done + SymCalls(cc, ant, 0, mask)) + AntCalls(cc, ant + 1, end, mask)
  {
    hide SymCalls;
    assert done + (SymCalls(cc, ant, 0, mask) + AntCalls(cc, ant + 1, end, mask))
        == (done + SymCalls(cc, ant, 0, mask)) + AntCalls(cc, ant + 1, end, mask);
  }

  lemma AntEnd(cc: nat, ant: nat, end: nat, mask: set<nat>)
    requires ant >= end
    ensures AntCalls(cc, ant, end, mask) == []
  {
  }

  method InitAntennas(cc: nat, antStart: nat, antEnd: nat, mask: set<nat>) returns (calls: seq<Call>)
    ensures calls == AntCalls(cc, antStart, antEnd, mask)
  {
    hide AntCalls, SymCalls;
    calls := [];
    var ant := antStart;
    while ant < antEnd
      invariant calls + AntCalls(cc, ant, antEnd, mask) == AntCalls(cc, antStart, antEnd, mask)
    {
      AntStep(calls, cc, ant, antEnd, mask);
      var more := InitSymbols(cc, ant, mask);
      calls := calls + more;
      ant := ant + 1;
    }
    AntEnd(cc, ant, antEnd, mask);
  }

  lemma CcStep(done: seq<Call>, cc: nat, ccEnd: nat, ant: nat, end: nat, mask: set<nat>)
    requires cc < ccEnd
    ensures done + CcCalls(cc, ccEnd, ant, end, mask)
         == (done + AntCalls(cc, ant, end, mask)) + CcCalls(cc + 1, ccEnd, ant, end, mask)
  {
    hide AntCalls;
    assert done + (AntCalls(cc, ant, end, mask) + CcCalls(cc + 1, ccEnd, ant, end, mask))
        == (done + AntCalls(cc, ant, end, mask)) + CcCalls(cc + 1, ccEnd, ant, end, mask);
  }

  lemma CcDone(cc: nat, ccEnd: nat, ant: nat, end: nat, mask: set<nat>)
    requires cc >= ccEnd
    ensures CcCalls(cc, ccEnd, ant, end, mask) == []
  {
  }

  method InitContent(ccStart: nat, ccEnd: nat, antStart: nat, antEnd: nat, mask: set<nat>) returns (calls: seq<Call>)
    ensures calls == CcCalls(ccStart, ccEnd, antStart, antEnd, mask)
  {
    hide CcCalls, AntCalls;
    calls := [];
    var cc := ccStart;
    while cc < ccEnd
      invariant calls + CcCalls(cc, ccEnd, antStart, antEnd, mask) == CcCalls(ccStart, ccEnd, antStart, antEnd, mask)
    {
      CcStep(calls, cc, ccEnd, antStart, antEnd, mask);
      var more := InitAntennas(cc, antStart, antEnd, mask);
      calls := calls + more;
      cc := cc + 1;
    }
    CcDone(cc, ccEnd, antStart, antEnd, mask);
  }

  // The task that packs the down-link symbols of one split.  limit: antennas of the carrier; csirs: the
  // unit sends CSI-RS; csiPorts: its ports.
  method PackSplit(split: Split, ccStart: nat, ccEnd: nat, limit: nat, csirs: bool, csiPorts: nat)
    returns (up: seq<Call>, csi: seq<Call>)
    ensures up == SplitCalls(split, ccStart, ccEnd, limit)
    ensures csi == CsiCalls(split, ccStart, ccEnd, csirs, csiPorts)
  {
    var nSymMask := SymMask(split);
    up := InitContent(ccStart, ccEnd, split.nLayerStart, Min(split.nLayerStart + split.nLayerNum, limit), nSymMask);
    csi := [];
    if csirs && split.nLayerStart == 0 {
      csi := InitContent(ccStart, ccEnd, 0, csiPorts, nSymMask);
    }
  }

  function SplitCalls(split: Split, ccStart: nat, ccEnd: nat, limit: nat): seq<Call> {
    CcCalls(ccStart, ccEnd, split.nLayerStart, Min(split.nLayerStart + split.nLayerNum, limit),
            MaskOf(split.nSymbStart, split.nSymbNum))
  }

  function CsiCalls(split: Split, ccStart: nat, ccEnd: nat, csirs: bool, csiPorts: nat): seq<Call> {
    if csirs && split.nLayerStart == 0 then
      CcCalls(ccStart, ccEnd, 0, csiPorts, MaskOf(split.nSymbStart, split.nSymbNum))
    else []
  }

  // ---- All tasks of an event together ----

  // In whatever order the splits run, each makes its calls; counting them needs no order.
  function EventCalls(splits: seq<Split>, ccStart: nat, ccEnd: nat, limit: nat): seq<Call> {
    if splits == [] then []
    else SplitCalls(splits[0], ccStart, ccEnd, limit) + EventCalls(splits[1..], ccStart, ccEnd, limit)
  }

  function EventCsiCalls(splits: seq<Split>, ccStart: nat, ccEnd: nat, csirs: bool, csiPorts: nat): seq<Call> {
    if splits == [] then []
    else
      CsiCalls(splits[0], ccStart, ccEnd, csirs, csiPorts)
      + EventCsiCalls(splits[1..], ccStart, ccEnd, csirs, csiPorts)
  }

  lemma {:induction false} CountSym(cc: nat, ant: nat, sym: nat, mask: set<nat>, c: Call)
    ensures Count(SymCalls(cc, ant, sym, mask), c)
         == if c.cc == cc && c.ant == ant && sym <= c.sym < XRAN_NUM_OF_SYMBOL_PER_SLOT && c.sym in mask then 1 else 0
    decreases XRAN_NUM_OF_SYMBOL_PER_SLOT - sym
  {
    if sym < XRAN_NUM_OF_SYMBOL_PER_SLOT {
      CountSym(cc, ant, sym + 1, mask, c);
      var first := if sym in mask then [Call(cc, ant, sym)] else [];
      CountAppend(first, SymCalls(cc, ant, sym + 1, mask), c);
      assert Count([], c) == 0;
      assert sym in mask ==> first[1..] == [];
    }
  }

  lemma {:induction false} CountAnt(cc: nat, ant: nat, end: nat, mask: set<nat>, c: Call)
    ensures Count(AntCalls(cc, ant, end, mask), c)
         == if c.cc == cc && ant <= c.ant < end && c.sym < XRAN_NUM_OF_SYMBOL_PER_SLOT && c.sym in mask then 1 else 0
    decreases end - ant
  {
    CountNil(c);
    hide SymCalls, Count;
    if ant < end {
      CountSym(cc, ant, 0, mask, c);
      CountAnt(cc, ant + 1, end, mask, c);
      CountAppend(SymCalls(cc, ant, 0, mask), AntCalls(cc, ant + 1, end, mask), c);
    }
  }

  lemma {:induction false} CountCc(cc: nat, ccEnd: nat, ant: nat, end: nat, mask: set<nat>, c: Call)
    ensures Count(CcCalls(cc, ccEnd, ant, end, mask), c)
         == if cc <= c.cc < ccEnd && ant <= c.ant < end && c.sym < XRAN_NUM_OF_SYMBOL_PER_SLOT && c.sym in mask
            then 1 else 0
    decreases ccEnd - cc
  {
    CountNil(c);
    hide AntCalls, Count;
    if cc < ccEnd {
      CountAnt(cc, ant, end, mask, c);
      CountCc(cc + 1, ccEnd, ant, end, mask, c);
      CountAppend(AntCalls(cc, ant, end, mask), CcCalls(cc + 1, ccEnd, ant, end, mask), c);
    }
  }

  lemma CountSplit(s: Split, ccStart: nat, ccEnd: nat, limit: nat, c: Call)
    requires s.nSymbStart == 0 && s.nSymbNum == XRAN_NUM_OF_SYMBOL_PER_SLOT
    ensures Count(SplitCalls(s, ccStart, ccEnd, limit), c)
         == if ccStart <= c.cc < ccEnd && s.nLayerStart <= c.ant < Min(s.nLayerStart + s.nLayerNum, limit)
               && c.sym < XRAN_NUM_OF_SYMBOL_PER_SLOT
            then 1 else 0
  {
    hide CcCalls;
    var end, mask := Min(s.nLayerStart + s.nLayerNum, limit), MaskOf(0, XRAN_NUM_OF_SYMBOL_PER_SLOT);
    CountCc(ccStart, ccEnd, s.nLayerStart, end, mask, c);
  }

  lemma CountFirst(splits: seq<Split>, k: nat, ccStart: nat, ccEnd: nat, limit: nat, c: Call)
    requires k < |splits|
    ensures Count(EventCalls(splits[k..], ccStart, ccEnd, limit), c)
         == Count(SplitCalls(splits[k], ccStart, ccEnd, limit), c)
            + Count(EventCalls(splits[k + 1..], ccStart, ccEnd, limit), c)
  {
    assert splits[k..][0] == splits[k] && splits[k..][1..] == splits[k + 1..];
    CountAppend(SplitCalls(splits[k], ccStart, ccEnd, limit), EventCalls(splits[k + 1..], ccStart, ccEnd, limit), c);
  }

  // From split k on, the splits reach from its first layer to the last.
  lemma {:induction false} CountFrom(splits: seq<Split>, total: nat, k: nat, ccStart: nat, ccEnd: nat, limit: nat,
                                     c: Call)
    requires Covers(splits, total) && k <= |splits|
    ensures Count(EventCalls(splits[k..], ccStart, ccEnd, limit), c)
         == if k < |splits| && ccStart <= c.cc < ccEnd && splits[k].nLayerStart <= c.ant < Min(total, limit)
               && c.sym < XRAN_NUM_OF_SYMBOL_PER_SLOT
            then 1 else 0
    decreases |splits| - k
  {
    if k < |splits| {
      CountFrom(splits, total, k + 1, ccStart, ccEnd, limit, c);
      CountFirst(splits, k, ccStart, ccEnd, limit, c);
      CountSplit(splits[k], ccStart, ccEnd, limit, c);
      EndsWithin(splits, total, k);
      hide SplitCalls, EventCalls, Count;
    } else {
      assert splits[k..] == [];
    }
  }

  lemma {:induction false} EndsWithin(splits: seq<Split>, total: nat, k: nat)
    requires Covers(splits, total) && k < |splits|
    ensures splits[k].nLayerStart + splits[k].nLayerNum <= total
    decreases |splits| - k
  {
    if k + 1 < |splits| {
      EndsWithin(splits, total, k + 1);
    }
  }

  // Over the tasks of an event, every symbol of every layer of a carrier is initialised exactly once.
  lemma InitialisedOnce(splits: seq<Split>, total: nat, ccStart: nat, ccEnd: nat, limit: nat, c: Call)
    requires Covers(splits, total)
    ensures Count(EventCalls(splits, ccStart, ccEnd, limit), c)
         == if ccStart <= c.cc < ccEnd && c.ant < Min(total, limit) && c.sym < XRAN_NUM_OF_SYMBOL_PER_SLOT then 1 else 0
  {
    assert splits[0..] == splits;
    CountFrom(splits, total, 0, ccStart, ccEnd, limit, c);
  }

  // Shares of at least one layer: only the first split starts at layer 0.
  ghost predicate NonEmptyShares(splits: seq<Split>) {
    forall i :: 0 <= i < |splits| - 1 ==> splits[i].nLayerNum > 0
  }

  lemma {:induction false} OnlyFirstAtZero(splits: seq<Split>, total: nat, k: nat)
    requires Covers(splits, total) && NonEmptyShares(splits) && 0 < k < |splits|
    ensures splits[k].nLayerStart > 0
    decreases k
  {
    if k > 1 {
      OnlyFirstAtZero(splits, total, k - 1);
    }
  }

  lemma {:induction false} NoCsiAfterFirst(splits: seq<Split>, total: nat, k: nat, ccStart: nat, ccEnd: nat,
                                           csirs: bool, csiPorts: nat)
    requires Covers(splits, total) && NonEmptyShares(splits) && 0 < k <= |splits|
    ensures EventCsiCalls(splits[k..], ccStart, ccEnd, csirs, csiPorts) == []
    decreases |splits| - k
  {
    if k < |splits| {
      assert splits[k..][0] == splits[k] && splits[k..][1..] == splits[k + 1..];
      OnlyFirstAtZero(splits, total, k);
      NoCsiAfterFirst(splits, total, k + 1, ccStart, ccEnd, csirs, csiPorts);
    }
  }

  // The CSI-RS content, which every split of layer 0 would initialise, is initialised by exactly one of
  // the splits, and by none when the unit sends no CSI-RS.
  lemma CsiOnce(splits: seq<Split>, total: nat, ccStart: nat, ccEnd: nat, csirs: bool, csiPorts: nat, c: Call)
    requires Covers(splits, total) && NonEmptyShares(splits)
    ensures Count(EventCsiCalls(splits, ccStart, ccEnd, csirs, csiPorts), c)
         == if csirs && ccStart <= c.cc < ccEnd && c.ant < csiPorts && c.sym < XRAN_NUM_OF_SYMBOL_PER_SLOT
            then 1 else 0
  {
    NoCsiAfterFirst(splits, total, 1, ccStart, ccEnd, csirs, csiPorts);
    var first := CsiCalls(splits[0], ccStart, ccEnd, csirs, csiPorts);
    assert EventCsiCalls(splits, ccStart, ccEnd, csirs, csiPorts) == first + [];
    assert first + [] == first;
    if csirs {
      CountCc(ccStart, ccEnd, 0, csiPorts, MaskOf(0, XRAN_NUM_OF_SYMBOL_PER_SLOT), c);
    } else {
      CountNil(c);
    }
  }

  // The pre-task of an event with the given layers.  With no layers a category B unit divides by zero.
  method PreTask(cat: Category, layers: nat, table: array<Split>) returns (nTaskNum: nat)
    requires GroupOf(cat, layers) > 0 && table.Length == MAX_TEST_SPLIT_NUM
    modifies table
    ensures Covers(table[..Min(nTaskNum, MAX_TEST_SPLIT_NUM)], layers)
    ensures NonEmptyShares(table[..Min(nTaskNum, MAX_TEST_SPLIT_NUM)])
    ensures nTaskNum == if cat == CategoryA then 1 else layers
    ensures nTaskNum <= MAX_TEST_SPLIT_NUM <==> cat == CategoryA || layers <= MAX_TEST_SPLIT_NUM
    ensures if cat == CategoryA then table[0].nLayerNum == layers
            else forall i :: 0 <= i < Min(layers, MAX_TEST_SPLIT_NUM) - 1 ==> table[i].nLayerNum == 1
  {
    var nSplitGroup := GroupOf(cat, layers);
    nTaskNum := FillSplits(layers, nSplitGroup, table);
  }
}
