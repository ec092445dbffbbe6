// The symbol counters of all numerologies, advanced by the catch-up loop of the symbol poll task.
module SymbolClock {
  import opened Arith

  const XRAN_MAX_NUM_MU: nat := 6
  const XRAN_NBIOT_MU: nat := 5
  const N_SYM_PER_SLOT: nat := 14
  const MSEC_PER_SEC: nat := 1000
  const THRESHOLD: int := 35

  function Pow2(k: nat): (p: nat)
    ensures p >= 1
  {
    if k == 0 then 1 else 2 * Pow2(k - 1)
  }

  lemma QuotientNonNegative(c: nat, d: nat)
    requires d > 0
    ensures c / d >= 0
  {
    var q := c / d;
    assert c == d * q + c % d;
    if q < 0 {
      Scale(d, q, -1);
    }
  }

  // c >> k
  function Shift(c: nat, k: nat): nat {
    QuotientNonNegative(c, Pow2(k));
    c / Pow2(k)
  }

  // slots_per_subframe: the entry of numerology 4, which is not supported, is 1.
  function SlotsPerSubframe(mu: nat): (n: nat)
    ensures n > 0
  {
    if mu < 4 then Pow2(mu) else 1
  }

  // Symbols of a numerology in one second.
  function Period(mu: nat): (p: nat)
    ensures p > 0
  {
    N_SYM_PER_SLOT * SlotsPerSubframe(mu) * MSEC_PER_SEC
  }

  // XranIncrementSymIdx
  function Increment(cnt: nat, mu: nat): nat {
    if cnt >= Period(mu) - 1 then 0 else cnt + 1
  }

  // Duration of a symbol in ns, even and odd ones apart; numerologies 2 and 4 are not supported.
  function FineTuning(mu: nat, odd: bool): nat {
    if mu == 0 then if odd then 71428 else 71429
    else if mu == 1 then if odd then 35714 else 35715
    else if mu == 3 then if odd then 8928 else 8929
    else 0
  }

  // cnt, idx: symbol counter and current symbol of each numerology.  acc, number: time and count of
  // symbols since the last second boundary.  done records the symbols processed per numerology.
  datatype State = State(cnt: seq<nat>, idx: seq<nat>, acc: nat, number: nat, done: seq<seq<nat>>)

  predicate WellFormed(s: State) {
    |s.cnt| == |s.idx| == |s.done| == XRAN_MAX_NUM_MU
  }

  function Zeros(n: nat): (z: seq<nat>)
    ensures |z| == n && forall i :: 0 <= i < n ==> z[i] == 0
  {
    if n == 0 then [] else Zeros(n - 1) + [0]
  }

  // A new second starts: all counters are reset.
  function NewSecond(s: State): (t: State)
    ensures WellFormed(t)
  {
    State(Zeros(XRAN_MAX_NUM_MU), Zeros(XRAN_MAX_NUM_MU), 0, 0, [[], [], [], [], [], []])
  }

  // Counters of the other numerologies follow that of the timer's.
  function Spread(cnt: seq<nat>, mu: nat, c: nat): (r: seq<nat>)
    requires |cnt| == XRAN_MAX_NUM_MU && mu < XRAN_NBIOT_MU
    ensures |r| == XRAN_MAX_NUM_MU
    ensures forall i :: 0 <= i <= mu ==> r[i] == Shift(c, mu - i)
    ensures r[XRAN_NBIOT_MU] == Shift(c, mu)
    ensures forall i :: mu < i < XRAN_NBIOT_MU ==> r[i] == cnt[i]
  {
    seq(XRAN_MAX_NUM_MU, i requires 0 <= i < XRAN_MAX_NUM_MU =>
      if i <= mu then Shift(c, mu - i) else if i == XRAN_NBIOT_MU then Shift(c, mu) else cnt[i])
  }

  // One symbol of the timer's numerology passes.
  function NextSymbol(s: State, mu: nat): (t: State)
    requires WellFormed(s) && mu < XRAN_NBIOT_MU
    ensures WellFormed(t)
  {
    s.(cnt := Spread(s.cnt, mu, Increment(s.cnt[mu], mu)),
       acc := s.acc + FineTuning(mu, s.number % 2 == 1) + (if s.number % 13 == 0 then 1 else 0),
       number := s.number + 1)
  }

  predicate Matches(s: State, i: nat)
    requires WellFormed(s) && i < XRAN_MAX_NUM_MU
  {
    s.cnt[i] % N_SYM_PER_SLOT == s.idx[i]
  }

  // Where the counter has reached the current symbol, that symbol is done.
  function Advance(s: State): (t: State)
    requires WellFormed(s)
    ensures WellFormed(t)
  {
    s.(idx := seq(XRAN_MAX_NUM_MU, i requires 0 <= i < XRAN_MAX_NUM_MU =>
         if Matches(s, i) then if s.idx[i] + 1 >= N_SYM_PER_SLOT then 0 else s.idx[i] + 1 else s.idx[i]),
       done := seq(XRAN_MAX_NUM_MU, i requires 0 <= i < XRAN_MAX_NUM_MU =>
         if Matches(s, i) then s.done[i] + [s.idx[i]] else s.done[i]))
  }

  function Iteration(s: State, mu: nat, newSecond: bool, running: bool): (t: State)
    requires WellFormed(s) && mu < XRAN_NBIOT_MU
    ensures WellFormed(t)
  {
    var s1 := if newSecond then NewSecond(s) else NextSymbol(s, mu);
    if running then Advance(s1) else s1
  }

  // k iterations of the loop; only the first can see a new second.
  function CatchUpBy(s: State, mu: nat, newSecond: bool, running: bool, k: nat): (t: State)
    requires WellFormed(s) && mu < XRAN_NBIOT_MU
    ensures WellFormed(t)
  {
    if k == 0 then s
    else Iteration(CatchUpBy(s, mu, newSecond, running, k - 1), mu, newSecond && k == 1, running)
  }

  // Time left after k symbols.
  function Left(delta: int, interval: int, k: nat): int {
    delta - k * interval
  }

  lemma LeftNext(delta: int, interval: int, k: nat)
    ensures Left(delta, interval, 0) == delta && Left(delta, interval, k + 1) == Left(delta, interval, k) - interval
  {
  }

  // The part of the timer context the loop works on.
  class TimerCtx {
    const symCnt: array<nat>
    const symIdx: array<nat>
    var sym_time_acc: nat
    var sym_number_acc: nat
    var current_second: int
    ghost var done: seq<seq<nat>>

    ghost predicate Valid()
      reads this
    {
      symCnt.Length == symIdx.Length == |done| == XRAN_MAX_NUM_MU && symCnt != symIdx
    }

    ghost function View(): (s: State)
      requires Valid()
      reads this, symCnt, symIdx
      ensures WellFormed(s)
    {
      State(symCnt[..], symIdx[..], sym_time_acc, sym_number_acc, done)
    }

    constructor ()
      ensures Valid() && View() == NewSecond(View()) && current_second == 0
      ensures fresh(symCnt) && fresh(symIdx)
    {
      symCnt := new nat[XRAN_MAX_NUM_MU](_ => 0);
      symIdx := new nat[XRAN_MAX_NUM_MU](_ => 0);
      sym_time_acc, sym_number_acc, current_second := 0, 0, 0;
      done := [[], [], [], [], [], []];
    }

    method StartSecond()
      requires Valid()
      modifies this`sym_time_acc, this`sym_number_acc, this`done, symCnt, symIdx
      ensures Valid() && View() == NewSecond(old(View()))
    {
      for i := 0 to XRAN_MAX_NUM_MU
        invariant forall j :: 0 <= j < i ==> symCnt[j] == 0 && symIdx[j] == 0
      {
        symCnt[i] := 0;
        symIdx[i] := 0;
      }
      sym_number_acc, sym_time_acc := 0, 0;
      done := [[], [], [], [], [], []];
    }

    method CountSymbol(timerMu: nat)
      requires Valid() && timerMu < XRAN_NBIOT_MU
      modifies this`sym_time_acc, this`sym_number_acc, symCnt
      ensures Valid() && View() == NextSymbol(old(View()), timerMu)
    {
      var c := Increment(symCnt[timerMu], timerMu);
      assert Shift(c, 0) == c;
      hide Shift, Increment, FineTuning, Pow2, Period;
      symCnt[timerMu] := c;
      var i := timerMu;
      while i > 0
        modifies symCnt
        invariant i <= timerMu && symCnt[timerMu] == c
        invariant forall j :: i <= j <= timerMu ==> symCnt[j] == Shift(c, timerMu - j)
        invariant forall j :: timerMu < j < XRAN_MAX_NUM_MU ==> symCnt[j] == old(symCnt[j])
      {
        i := i - 1;
        symCnt[i] := Shift(symCnt[timerMu], timerMu - i);
      }
      symCnt[XRAN_NBIOT_MU] := symCnt[0];
      assert symCnt[..] == Spread(old(symCnt[..]), timerMu, c);
      sym_time_acc := sym_time_acc + FineTuning(timerMu, sym_number_acc % 2 == 1);
      if sym_number_acc % 13 == 0 {
        sym_time_acc := sym_time_acc + 1;
      }
      sym_number_acc := sym_number_acc + 1;
    }

    method AdvanceSymbols()
      requires Valid()
      modifies this`done, symIdx
      ensures Valid() && View() == Advance(old(View()))
    {
      ghost var s := View();
      for i := 0 to XRAN_MAX_NUM_MU
        invariant Valid() && symCnt[..] == s.cnt
        invariant forall j :: 0 <= j < i ==> symIdx[j] == Advance(s).idx[j] && done[j] == Advance(s).done[j]
        invariant forall j :: i <= j < XRAN_MAX_NUM_MU ==> symIdx[j] == s.idx[j] && done[j] == s.done[j]
      {
        if symCnt[i] % N_SYM_PER_SLOT == symIdx[i] {
          done := done[i := done[i] + [symIdx[i]]];
          symIdx[i] := symIdx[i] + 1;
          if symIdx[i] >= N_SYM_PER_SLOT {
            symIdx[i] := 0;
          }
        }
      }
    }

    // The catch-up loop.  stops: the debug stop takes effect at a second boundary.  k iterations run,
    // just as many as it takes to bring delta down.
    method CatchUp(timerMu: nat, delta0: int, interval_ns: int, tv_sec: int, running0: bool, stops: bool)
      returns (delta: int, running: bool, ghost k: nat)
      requires Valid() && timerMu < XRAN_NBIOT_MU && interval_ns > 0
      modifies this, symCnt, symIdx
      ensures Valid()
      ensures delta == Left(delta0, interval_ns, k) && delta <= interval_ns - THRESHOLD
      ensures k > 0 ==> delta + interval_ns > interval_ns - THRESHOLD && current_second == tv_sec
      ensures k == 0 ==> current_second == old(current_second)
      ensures var newSecond := old(current_second) != tv_sec;
        && running == (running0 && !(k > 0 && newSecond && stops))
        && View() == CatchUpBy(old(View()), timerMu, newSecond, running, k)
    {
      delta, running, k := delta0, running0, 0;
      hide Advance, NextSymbol, NewSecond, Left;
      hide View, Valid;
      LeftNext(delta0, interval_ns, 0);
      ghost var s, newSecond := View(), current_second != tv_sec;
      while delta > interval_ns - THRESHOLD
        invariant Valid() && delta == Left(delta0, interval_ns, k)
        invariant k > 0 ==> delta + interval_ns > interval_ns - THRESHOLD && current_second == tv_sec
        invariant k == 0 ==> current_second == old(current_second)
        invariant running == (running0 && !(k > 0 && newSecond && stops))
        invariant View() == CatchUpBy(s, timerMu, newSecond, running, k)
        decreases delta - (interval_ns - THRESHOLD)
      {
        if current_second != tv_sec {
          current_second := tv_sec;
          StartSecond();
          if stops {
            running := false;
          }
        } else {
          CountSymbol(timerMu);
        }
        if running {
          AdvanceSymbols();
        }
        LeftNext(delta0, interval_ns, k);
        delta := delta - interval_ns;
        k := k + 1;
      }
    }
  }
}
