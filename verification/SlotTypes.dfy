// Classification of the slots of a TDD pattern (section 11.1 of 3GPP TS 38.213) and the query that
// tells whether a slot carries a direction.
module SlotTypes {
  import opened Arith

  const XRAN_NUM_OF_SLOT_IN_TDD_LOOP: nat := 80
  const XRAN_NUM_OF_SYMBOL_PER_SLOT: nat := 14

  const TYPE_INVALID: nat := 0
  const TYPE_DL: nat := 1
  const TYPE_UL: nat := 2
  const TYPE_SP: nat := 3
  const TYPE_FDD: nat := 4

  const SYMBOL_DL: nat := 0
  const SYMBOL_UL: nat := 1
  const SYMBOL_GUARD: nat := 2

  // Anything that is neither down-link nor guard counts as up-link.
  function Direction(symbolType: nat): nat {
    if symbolType == SYMBOL_DL || symbolType == SYMBOL_GUARD then symbolType else SYMBOL_UL
  }

  function Count(symbols: seq<nat>, direction: nat): nat {
    if symbols == [] then 0
    else Count(symbols[..|symbols| - 1], direction) + if Direction(symbols[|symbols| - 1]) == direction then 1 else 0
  }

  // A symbol of any type but down-link and guard is up-link.
  predicate Is(symbolType: nat, direction: nat) {
    if direction == SYMBOL_UL then symbolType != SYMBOL_DL && symbolType != SYMBOL_GUARD else symbolType == direction
  }

  predicate Has(symbols: seq<nat>, direction: nat) {
    exists k :: 0 <= k < |symbols| && Is(symbols[k], direction)
  }

  lemma {:induction false} CountMeansHas(symbols: seq<nat>, direction: nat)
    requires direction in {SYMBOL_DL, SYMBOL_UL, SYMBOL_GUARD}
    ensures Count(symbols, direction) > 0 <==> Has(symbols, direction)
    decreases |symbols|
  {
    if symbols != [] {
      var front := symbols[..|symbols| - 1];
      CountMeansHas(front, direction);
      if k :| 0 <= k < |symbols| && Is(symbols[k], direction) {
        assert k < |front| ==> front[k] == symbols[k];
      }
      if k :| 0 <= k < |front| && Is(front[k], direction) {
        assert symbols[k] == front[k];
      }
    }
  }

  function SlotTypeOf(symbols: seq<nat>): nat {
    if Count(symbols, SYMBOL_UL) == 0 && Count(symbols, SYMBOL_GUARD) == 0 then TYPE_DL
    else if Count(symbols, SYMBOL_DL) == 0 && Count(symbols, SYMBOL_GUARD) == 0 then TYPE_UL
    else TYPE_SP
  }

  // Whether a slot of the given type and symbol counts answers a query.
  function Answer(slotType: nat, dlSymbols: nat, ulSymbols: nat, query: nat): nat {
    if slotType == query then 1
    else if slotType == TYPE_SP then
      if (query == TYPE_DL && dlSymbols > 0) || (query == TYPE_UL && ulSymbols > 0) then 1 else 0
    else if slotType == TYPE_FDD then 1
    else 0
  }

  // Which slot of the pattern a slot index stands for.
  function Residue(slot: int, maxSlotNum: nat, loop: nat): (r: nat)
    requires maxSlotNum > 0
    ensures r < if loop > 0 then loop else 1
  {
    slot % maxSlotNum % if loop > 0 then loop else 1
  }

  // app_xran_slot_limit
  method SlotLimit(nSfIdx: int, gLocMaxSlotNum: nat) returns (r: int)
    requires gLocMaxSlotNum > 0
    ensures r == nSfIdx % gLocMaxSlotNum
  {
    r := nSfIdx;
    while r < 0
      invariant r % gLocMaxSlotNum == nSfIdx % gLocMaxSlotNum
      decreases -r
    {
      AddModulus(r, gLocMaxSlotNum);
      r := r + gLocMaxSlotNum;
    }
    while r >= gLocMaxSlotNum
      invariant r >= 0 && r % gLocMaxSlotNum == nSfIdx % gLocMaxSlotNum
    {
      AddModulus(r - gLocMaxSlotNum, gLocMaxSlotNum);
      r := r - gLocMaxSlotNum;
    }
    SmallMod(r, gLocMaxSlotNum);
  }

  lemma AddModulus(x: int, m: nat)
    requires m > 0
    ensures (x + m) % m == x % m
  {
    var q, r := x / m, x % m;
    assert x == m * q + r;
    assert m * (q + 1) == m * q + m;
    Quotient(x + m, m, q + 1, r);
  }

  // A rate is a quotient of slot counts; 0 / 0 is no number.
  datatype Rate = Rate(value: real) | NotANumber

  function RateOf(slots: nat, period: nat): Rate {
    if period == 0 then NotANumber else Rate(slots as real / period as real)
  }

  // The tables of one cell.
  class SlotTable {
    const SlotType: array<nat>
    const NumDLSymSp: array<nat>
    const NumULSymSp: array<nat>
    var NumSlotTDDLoop: nat
    var DlRate: Rate
    var UlRate: Rate

    ghost predicate Valid()
      reads this
    {
      && SlotType.Length == NumDLSymSp.Length == NumULSymSp.Length == XRAN_NUM_OF_SLOT_IN_TDD_LOOP
      && SlotType != NumDLSymSp && SlotType != NumULSymSp && NumDLSymSp != NumULSymSp
      && NumSlotTDDLoop <= XRAN_NUM_OF_SLOT_IN_TDD_LOOP
    }

    // The tables were set for this pattern of TDD slots.
    ghost predicate Tdd(pattern: seq<seq<nat>>)
      requires Valid()
      reads this, SlotType, NumDLSymSp, NumULSymSp
    {
      && NumSlotTDDLoop == |pattern|
      && (pattern == [] ==> SlotType[0] == TYPE_INVALID)
      && forall i :: 0 <= i < |pattern| ==>
           && SlotType[i] == SlotTypeOf(pattern[i])
           && NumDLSymSp[i] == (if SlotType[i] == TYPE_SP then Count(pattern[i], SYMBOL_DL) else 0)
           && NumULSymSp[i] == (if SlotType[i] == TYPE_SP then Count(pattern[i], SYMBOL_UL) else 0)
    }

    // The tables were set for FDD.
    ghost predicate Fdd()
      requires Valid()
      reads this, SlotType
    {
      NumSlotTDDLoop == 1 && forall i :: 0 <= i < XRAN_NUM_OF_SLOT_IN_TDD_LOOP ==> SlotType[i] == TYPE_FDD
    }

    // Nothing is known of the slots from n on.
    ghost predicate ClearFrom(n: nat)
      requires Valid()
      reads this, SlotType, NumDLSymSp, NumULSymSp
    {
      forall i :: n <= i < XRAN_NUM_OF_SLOT_IN_TDD_LOOP ==>
        SlotType[i] == TYPE_INVALID && NumDLSymSp[i] == 0 && NumULSymSp[i] == 0
    }

    constructor ()
      ensures Valid() && ClearFrom(0) && Tdd([]) && DlRate == UlRate == Rate(0.0)
      ensures fresh(SlotType) && fresh(NumDLSymSp) && fresh(NumULSymSp)
    {
      SlotType := new nat[XRAN_NUM_OF_SLOT_IN_TDD_LOOP](_ => TYPE_INVALID);
      NumDLSymSp := new nat[XRAN_NUM_OF_SLOT_IN_TDD_LOOP](_ => 0);
      NumULSymSp := new nat[XRAN_NUM_OF_SLOT_IN_TDD_LOOP](_ => 0);
      NumSlotTDDLoop := 0;
      DlRate, UlRate := Rate(0.0), Rate(0.0);
    }

    method Clear()
      requires Valid()
      modifies SlotType, NumDLSymSp, NumULSymSp
      ensures Valid() && ClearFrom(0)
    {
      for i := 0 to XRAN_NUM_OF_SLOT_IN_TDD_LOOP
        invariant forall j :: 0 <= j < i ==> SlotType[j] == TYPE_INVALID && NumDLSymSp[j] == 0 && NumULSymSp[j] == 0
      {
        SlotType[i], NumDLSymSp[i], NumULSymSp[i] := TYPE_INVALID, 0, 0;
      }
    }

    // app_xran_set_slot_type for FDD
    method SetFdd()
      requires Valid()
      modifies this, SlotType, NumDLSymSp, NumULSymSp
      ensures Valid() && Fdd() && DlRate == UlRate == Rate(1.0)
    {
      Clear();
      for i := 0 to XRAN_NUM_OF_SLOT_IN_TDD_LOOP
        invariant forall j :: 0 <= j < i ==> SlotType[j] == TYPE_FDD
      {
        SlotType[i] := TYPE_FDD;
      }
      NumSlotTDDLoop := 1;
      DlRate, UlRate := Rate(1.0), Rate(1.0);
    }

    static method CountSymbols(symbols: seq<nat>) returns (numDlSym: nat, numUlSym: nat, numGuardSym: nat)
      requires |symbols| == XRAN_NUM_OF_SYMBOL_PER_SLOT
      ensures numDlSym == Count(symbols, SYMBOL_DL)
      ensures numUlSym == Count(symbols, SYMBOL_UL)
      ensures numGuardSym == Count(symbols, SYMBOL_GUARD)
    {
      numDlSym, numUlSym, numGuardSym := 0, 0, 0;
      for k := 0 to XRAN_NUM_OF_SYMBOL_PER_SLOT
        invariant numDlSym == Count(symbols[..k], SYMBOL_DL)
        invariant numUlSym == Count(symbols[..k], SYMBOL_UL)
        invariant numGuardSym == Count(symbols[..k], SYMBOL_GUARD)
      {
        assert symbols[..k + 1][..k] == symbols[..k];
        if symbols[k] == SYMBOL_DL {
          numDlSym := numDlSym + 1;
        } else if symbols[k] == SYMBOL_GUARD {
          numGuardSym := numGuardSym + 1;
        } else {
          numUlSym := numUlSym + 1;
        }
      }
      assert symbols[..XRAN_NUM_OF_SYMBOL_PER_SLOT] == symbols;
    }

    // One slot of the pattern: its type and, for a special slot, its symbol counts.
    method ClassifySlot(n: nat, symbols: seq<nat>) returns (dl: bool, ul: bool)
      requires Valid() && n < XRAN_NUM_OF_SLOT_IN_TDD_LOOP && |symbols| == XRAN_NUM_OF_SYMBOL_PER_SLOT
      requires SlotType[n] == TYPE_INVALID && NumDLSymSp[n] == 0 && NumULSymSp[n] == 0
      modifies SlotType, NumDLSymSp, NumULSymSp
      ensures SlotType[n] == SlotTypeOf(symbols)
      ensures NumDLSymSp[n] == if SlotType[n] == TYPE_SP then Count(symbols, SYMBOL_DL) else 0
      ensures NumULSymSp[n] == if SlotType[n] == TYPE_SP then Count(symbols, SYMBOL_UL) else 0
      ensures dl == (Count(symbols, SYMBOL_DL) > 0) && ul == (Count(symbols, SYMBOL_UL) > 0)
      ensures forall i :: 0 <= i < XRAN_NUM_OF_SLOT_IN_TDD_LOOP && i != n ==>
        && SlotType[i] == old(SlotType[i])
        && NumDLSymSp[i] == old(NumDLSymSp[i]) && NumULSymSp[i] == old(NumULSymSp[i])
    {
      var numDlSym, numUlSym, numGuardSym := CountSymbols(symbols);
      AllCounted(symbols);
      hide Count;
      dl, ul := false, false;
      if numUlSym == 0 && numGuardSym == 0 {
        SlotType[n] := TYPE_DL;
        dl := true;
      } else if numDlSym == 0 && numGuardSym == 0 {
        SlotType[n] := TYPE_UL;
        ul := true;
      } else {
        SlotType[n] := TYPE_SP;
        if numDlSym != 0 {
          dl := true;
          NumDLSymSp[n] := numDlSym;
        }
        if numUlSym != 0 {
          ul := true;
          NumULSymSp[n] := numUlSym;
        }
      }
    }

    // app_xran_set_slot_type for TDD
    method SetTdd(pattern: seq<seq<nat>>)
      requires Valid() && |pattern| <= XRAN_NUM_OF_SLOT_IN_TDD_LOOP
      requires forall i :: 0 <= i < |pattern| ==> |pattern[i]| == XRAN_NUM_OF_SYMBOL_PER_SLOT
      modifies this, SlotType, NumDLSymSp, NumULSymSp
      ensures Valid() && Tdd(pattern) && ClearFrom(|pattern|)
      ensures DlRate == RateOf(SlotsWith(pattern, SYMBOL_DL), |pattern|)
      ensures UlRate == RateOf(SlotsWith(pattern, SYMBOL_UL), |pattern|)
    {
      Clear();
      NumSlotTDDLoop := |pattern|;
      var dlSlots, ulSlots := 0, 0;
      hide Count, SlotTypeOf;
      for n := 0 to |pattern|
        modifies SlotType, NumDLSymSp, NumULSymSp
        invariant ClearFrom(n)
        invariant forall i :: 0 <= i < n ==>
          && SlotType[i] == SlotTypeOf(pattern[i])
          && NumDLSymSp[i] == (if SlotType[i] == TYPE_SP then Count(pattern[i], SYMBOL_DL) else 0)
          && NumULSymSp[i] == (if SlotType[i] == TYPE_SP then Count(pattern[i], SYMBOL_UL) else 0)
        invariant dlSlots == SlotsWith(pattern[..n], SYMBOL_DL) && ulSlots == SlotsWith(pattern[..n], SYMBOL_UL)
      {
        var dl, ul := ClassifySlot(n, pattern[n]);
        SlotsWithNext(pattern, n, SYMBOL_DL);
        SlotsWithNext(pattern, n, SYMBOL_UL);
        dlSlots := dlSlots + if dl then 1 else 0;
        ulSlots := ulSlots + if ul then 1 else 0;
      }
      assert pattern[..|pattern|] == pattern;
      DlRate, UlRate := RateOf(dlSlots, |pattern|), RateOf(ulSlots, |pattern|);
    }

    // app_xran_get_slot_type
    method GetSlotType(nSlotdx: int, nType: nat, gLocMaxSlotNum: nat) returns (ret: nat)
      requires Valid() && gLocMaxSlotNum > 0
      ensures var i := Residue(nSlotdx, gLocMaxSlotNum, NumSlotTDDLoop);
        ret == Answer(SlotType[i], NumDLSymSp[i], NumULSymSp[i], nType)
    {
      var limited := SlotLimit(nSlotdx, gLocMaxSlotNum);
      var nSfIdxMod := limited % if NumSlotTDDLoop > 0 then NumSlotTDDLoop else 1;
      var nSfType := SlotType[nSfIdxMod];
      ret := 0;
      if nSfType == nType {
        ret := 1;
      } else if nSfType == TYPE_SP {
        if nType == TYPE_DL && NumDLSymSp[nSfIdxMod] != 0 {
          ret := 1;
        }
        if nType == TYPE_UL && NumULSymSp[nSfIdxMod] != 0 {
          ret := 1;
        }
      } else if nSfType == TYPE_FDD {
        ret := 1;
      }
    }

    // A query on a cell set up for TDD answers by symbols: 1 exactly when the slot that the index
    // stands for, counted modulo the slots of a cycle also for negative indices, has a symbol of that
    // direction.
    method QueryTdd(pattern: seq<seq<nat>>, nSlotdx: int, up: bool, gLocMaxSlotNum: nat) returns (ret: nat)
      requires Valid() && Tdd(pattern) && pattern != [] && gLocMaxSlotNum > 0
      requires forall i :: 0 <= i < |pattern| ==> |pattern[i]| == XRAN_NUM_OF_SYMBOL_PER_SLOT
      ensures ret == if Has(pattern[Residue(nSlotdx, gLocMaxSlotNum, |pattern|)], if up then SYMBOL_UL else SYMBOL_DL)
                     then 1 else 0
    {
      ret := GetSlotType(nSlotdx, if up then TYPE_UL else TYPE_DL, gLocMaxSlotNum);
      AnswerBySymbols(pattern[Residue(nSlotdx, gLocMaxSlotNum, |pattern|)]);
    }

    // On a cell set up for FDD every slot answers every query with 1.
    method QueryFdd(nSlotdx: int, nType: nat, gLocMaxSlotNum: nat) returns (ret: nat)
      requires Valid() && Fdd() && gLocMaxSlotNum > 0
      ensures ret == 1
    {
      ret := GetSlotType(nSlotdx, nType, gLocMaxSlotNum);
    }
  }

  function SlotsWith(pattern: seq<seq<nat>>, direction: nat): nat {
    if pattern == [] then 0
    else SlotsWith(pattern[..|pattern| - 1], direction) + if Count(pattern[|pattern| - 1], direction) > 0 then 1 else 0
  }

  lemma SlotsWithNext(pattern: seq<seq<nat>>, n: nat, direction: nat)
    requires n < |pattern|
    ensures SlotsWith(pattern[..n + 1], direction)
         == SlotsWith(pattern[..n], direction) + if Count(pattern[n], direction) > 0 then 1 else 0
  {
    assert pattern[..n + 1][..n] == pattern[..n];
  }

  // The slots of the pattern with a symbol of the direction.
  function SlotsHaving(pattern: seq<seq<nat>>, direction: nat): set<nat> {
    set i: nat | i < |pattern| && Has(pattern[i], direction)
  }

  lemma HavingOneMore(pattern: seq<seq<nat>>, direction: nat)
    requires pattern != []
    ensures var n := |pattern| - 1;
      |SlotsHaving(pattern, direction)|
      == |SlotsHaving(pattern[..n], direction)| + if Has(pattern[n], direction) then 1 else 0
  {
    hide Has;
    var n := |pattern| - 1;
    var front := SlotsHaving(pattern[..n], direction);
    assert SlotsHaving(pattern, direction) == front + (if Has(pattern[n], direction) then {n} else {});
    assert n !in front;
  }

  lemma WithOneMore(pattern: seq<seq<nat>>, direction: nat)
    requires pattern != []
    ensures var n := |pattern| - 1;
      SlotsWith(pattern, direction)
      == SlotsWith(pattern[..n], direction) + if Count(pattern[n], direction) > 0 then 1 else 0
  {
    hide Count;
  }

  lemma NoSlots(direction: nat)
    ensures SlotsWith([], direction) == 0 == |SlotsHaving([], direction)|
  {
  }

  lemma {:induction false} SlotsWithMeansHas(pattern: seq<seq<nat>>, direction: nat)
    requires direction in {SYMBOL_DL, SYMBOL_UL, SYMBOL_GUARD}
    ensures SlotsWith(pattern, direction) == |SlotsHaving(pattern, direction)| <= |pattern|
    decreases |pattern|
  {
    hide *;
    NoSlots(direction);
    if pattern != [] {
      var n := |pattern| - 1;
      SlotsWithMeansHas(pattern[..n], direction);
      CountMeansHas(pattern[n], direction);
      WithOneMore(pattern, direction);
      HavingOneMore(pattern, direction);
    }
  }

  // The rate of a direction is the share of the slots that have a symbol of it.
  lemma RateIsShare(pattern: seq<seq<nat>>, direction: nat)
    requires pattern != [] && direction in {SYMBOL_DL, SYMBOL_UL, SYMBOL_GUARD}
    ensures var rate := RateOf(SlotsWith(pattern, direction), |pattern|);
      && rate.Rate? && 0.0 <= rate.value <= 1.0
      && rate.value * |pattern| as real == |SlotsHaving(pattern, direction)| as real
  {
    hide *;
    SlotsWithMeansHas(pattern, direction);
    Share(SlotsWith(pattern, direction), |pattern|);
  }

  lemma Share(n: nat, m: nat)
    requires n <= m && m > 0
    ensures var rate := RateOf(n, m);
      rate.Rate? && 0.0 <= rate.value <= 1.0 && rate.value * m as real == n as real
  {
  }

  lemma {:induction false} AllCountedTo(symbols: seq<nat>)
    ensures Count(symbols, SYMBOL_DL) + Count(symbols, SYMBOL_UL) + Count(symbols, SYMBOL_GUARD) == |symbols|
    decreases |symbols|
  {
    if symbols != [] {
      AllCountedTo(symbols[..|symbols| - 1]);
    }
  }

  lemma AllCounted(symbols: seq<nat>)
    requires |symbols| == XRAN_NUM_OF_SYMBOL_PER_SLOT
    ensures Count(symbols, SYMBOL_DL) + Count(symbols, SYMBOL_UL) + Count(symbols, SYMBOL_GUARD)
         == XRAN_NUM_OF_SYMBOL_PER_SLOT
  {
    AllCountedTo(symbols);
  }

  // The recorded type and counts of a slot answer a direction query as its symbols do.
  lemma AnswerBySymbols(symbols: seq<nat>)
    requires |symbols| == XRAN_NUM_OF_SYMBOL_PER_SLOT
    ensures var t := SlotTypeOf(symbols);
      var dl := if t == TYPE_SP then Count(symbols, SYMBOL_DL) else 0;
      var ul := if t == TYPE_SP then Count(symbols, SYMBOL_UL) else 0;
      && Answer(t, dl, ul, TYPE_DL) == (if Has(symbols, SYMBOL_DL) then 1 else 0)
      && Answer(t, dl, ul, TYPE_UL) == (if Has(symbols, SYMBOL_UL) then 1 else 0)
      && Answer(t, dl, ul, TYPE_SP)
         == (if Has(symbols, SYMBOL_GUARD) || (Has(symbols, SYMBOL_DL) && Has(symbols, SYMBOL_UL)) then 1 else 0)
      && Answer(t, dl, ul, TYPE_FDD) == 0 == Answer(t, dl, ul, TYPE_INVALID)
  {
    AllCounted(symbols);
    CountMeansHas(symbols, SYMBOL_DL);
    CountMeansHas(symbols, SYMBOL_UL);
    CountMeansHas(symbols, SYMBOL_GUARD);
    hide Count, Has;
  }

  // The pattern repeats over all slot indices exactly when its length divides the number of slots in a
  // cycle, or the other way round.
  lemma PeriodicExactly(maxSlotNum: nat, loop: nat)
    requires maxSlotNum > 0 && loop > 0
    ensures (forall s :: Residue(s + loop, maxSlotNum, loop) == Residue(s, maxSlotNum, loop))
      <==> maxSlotNum % loop == 0 || loop % maxSlotNum == 0
  {
    if maxSlotNum % loop == 0 {
      forall s ensures Residue(s + loop, maxSlotNum, loop) == Residue(s, maxSlotNum, loop) {
        ModOfMultiple(s, maxSlotNum, loop);
        ModOfMultiple(s + loop, maxSlotNum, loop);
        AddModulus(s, loop);
      }
    } else if loop % maxSlotNum == 0 {
      forall s ensures Residue(s + loop, maxSlotNum, loop) == Residue(s, maxSlotNum, loop) {
        AddMultipleOf(s, maxSlotNum, loop);
      }
    } else if loop > maxSlotNum {
      NotPeriodicLong(maxSlotNum, loop);
      assert Residue(0 + loop, maxSlotNum, loop) != Residue(0, maxSlotNum, loop);
    } else {
      NotPeriodicShort(maxSlotNum, loop);
      assert Residue(-1 + loop, maxSlotNum, loop) != Residue(-1, maxSlotNum, loop);
    }
  }

  lemma ModOfMultiple(s: int, m: nat, p: nat)
    requires m > 0 && p > 0 && m % p == 0
    ensures s % m % p == s % p
  {
    var k := m / p;
    assert m == p * k;
    var q, r := s / m, s % m;
    assert s == m * q + r;
    var q2, r2 := r / p, r % p;
    assert r == p * q2 + r2;
    assert p * k * q == p * (k * q);
    assert s == p * (k * q + q2) + r2;
    Quotient(s, p, k * q + q2, r2);
  }

  lemma AddMultipleOf(s: int, m: nat, p: nat)
    requires m > 0 && p % m == 0
    ensures (s + p) % m == s % m
  {
    var k := p / m;
    assert p == m * k;
    var q, r := s / m, s % m;
    assert s == m * q + r;
    assert s + p == m * (q + k) + r;
    Quotient(s + p, m, q + k, r);
  }

  lemma NotPeriodicLong(maxSlotNum: nat, loop: nat)
    requires 0 < maxSlotNum < loop && loop % maxSlotNum != 0
    ensures Residue(loop, maxSlotNum, loop) != Residue(0, maxSlotNum, loop)
  {
    SmallMod(0, maxSlotNum);
    SmallMod(loop % maxSlotNum, loop);
    SmallMod(0, loop);
  }

  lemma NotPeriodicShort(maxSlotNum: nat, loop: nat)
    requires 0 < loop <= maxSlotNum && maxSlotNum % loop != 0
    ensures Residue(loop - 1, maxSlotNum, loop) != Residue(-1, maxSlotNum, loop)
  {
    SmallMod(loop - 1, maxSlotNum);
    SmallMod(loop - 1, loop);
    Quotient(-1, maxSlotNum, -1, maxSlotNum - 1);
    if (maxSlotNum - 1) % loop == loop - 1 {
      var q := (maxSlotNum - 1) / loop;
      assert maxSlotNum - 1 == loop * q + (loop - 1);
      Quotient(maxSlotNum, loop, q + 1, 0);
    }
  }
}
