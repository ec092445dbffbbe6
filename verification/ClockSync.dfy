// Every numerology's current symbol keeps step with its counter.
module ClockSync {
  import opened Arith
  import opened SymbolClock

  // One new second, then n symbols.
  function AfterSecond(s: State, mu: nat, n: nat): (t: State)
    requires WellFormed(s) && mu < XRAN_NBIOT_MU
    ensures WellFormed(t)
  {
    if n == 0 then Iteration(s, mu, true, true) else Iteration(AfterSecond(s, mu, n - 1), mu, false, true)
  }

  // Symbols of numerology i that have begun n timer symbols after the first one of the second.
  function Begun(mu: nat, i: nat, n: nat): nat
    requires mu < XRAN_NBIOT_MU
  {
    if i <= mu then Shift(n, mu - i) else if i == XRAN_NBIOT_MU then Shift(n, mu) else 0
  }

  // The counter of the timer's numerology starts again at 0 after a full period.
  predicate InStep(mu: nat, s: State, i: nat, n: nat)
    requires WellFormed(s) && mu < XRAN_NBIOT_MU && i < XRAN_MAX_NUM_MU
  {
    var u := Begun(mu, i, n);
    && s.cnt[i] == Begun(mu, i, n % Period(mu))
    && s.idx[i] == (u + 1) % N_SYM_PER_SLOT
    && |s.done[i]| == u + 1
    && forall k :: 0 <= k <= u ==> s.done[i][k] == k % N_SYM_PER_SLOT
  }

  // ---- Arithmetic of the shifted counters ----

  lemma {:induction false} Pow2Product(a: nat, b: nat)
    ensures Pow2(a + b) == Pow2(a) * Pow2(b)
    decreases a
  {
    if a > 0 {
      Pow2Product(a - 1, b);
    }
  }

  lemma DivideStep(n: nat, d: nat)
    requires d > 0
    ensures n / d <= (n + 1) / d <= n / d + 1
  {
    var q := n / d;
    assert d * q <= n < d * q + d;
    var p := (n + 1) / d;
    assert d * p <= n + 1 < d * p + d;
    if p < q { Scale(d, p + 1, q); }
    if p > q + 1 { Scale(d, q + 2, p); }
  }

  lemma ShiftStep(n: nat, k: nat)
    ensures Shift(n, k) <= Shift(n + 1, k) <= Shift(n, k) + 1
  {
    DivideStep(n, Pow2(k));
  }

  lemma BegunStep(mu: nat, i: nat, n: nat)
    requires mu < XRAN_NBIOT_MU
    ensures Begun(mu, i, n) <= Begun(mu, i, n + 1) <= Begun(mu, i, n) + 1
  {
    if i <= mu { ShiftStep(n, mu - i); }
    ShiftStep(n, mu);
  }

  lemma Regroup(d: nat, q: nat, m: nat)
    ensures d * (14 * q) * m == d * (14 * (q * m))
  {
  }

  // Shifting a counter that wraps at q slots of 14 * 2^k symbols keeps the symbol number.
  lemma WrapKeepsSymbol(n: nat, d: nat, q: nat)
    requires d > 0 && q > 0
    ensures d * (14 * q) > 0 && n % (d * (14 * q)) / d % 14 == n / d % 14
  {
    Scale(d, 1, 14 * q);
    WrapAt(n, d, q, d * (14 * q));
  }

  lemma WrapAt(n: nat, d: nat, q: nat, p: nat)
    requires d > 0 && p > 0 && p == d * (14 * q)
    ensures n % p / d % 14 == n / d % 14
  {
    var m, r := n / p, n % p;
    assert n == p * m + r;
    Regroup(d, q, m);
    WrapCore(n, d, q * m, r);
  }

  lemma WrapCore(n: nat, d: nat, a: nat, r: nat)
    requires d > 0 && n == d * (14 * a) + r
    ensures r / d % 14 == n / d % 14
  {
    AddMultiple(d, 14 * a, r);
    Mod14(a, r / d);
  }

  lemma Mod14(a: nat, b: nat)
    ensures (14 * a + b) % 14 == b % 14
  {
  }

  lemma PeriodSplit(mu: nat, k: nat)
    requires mu < 4 && k <= mu
    ensures Period(mu) == Pow2(k) * (14 * (Pow2(mu - k) * MSEC_PER_SEC))
  {
    Pow2Product(k, mu - k);
    var a, b := Pow2(k), Pow2(mu - k);
    assert 14 * (a * b) * 1000 == a * (14 * (b * 1000));
  }

  lemma ShiftedSymbol(mu: nat, k: nat, n: nat)
    requires mu < 4 && k <= mu
    ensures Shift(n % Period(mu), k) % N_SYM_PER_SLOT == Shift(n, k) % N_SYM_PER_SLOT
  {
    PeriodSplit(mu, k);
    var d, q, p := Pow2(k), Pow2(mu - k) * MSEC_PER_SEC, Period(mu);
    hide Pow2, Period;
    WrapKeepsSymbol(n, d, q);
  }

  // The symbol number does not depend on whether the counters have wrapped, for the numerologies the
  // timer supports; and below one period they have not.
  lemma SymbolNumber(mu: nat, i: nat, n: nat)
    requires mu < XRAN_NBIOT_MU && i < XRAN_MAX_NUM_MU && (mu < 4 || n < Period(mu))
    ensures Begun(mu, i, n % Period(mu)) % N_SYM_PER_SLOT == Begun(mu, i, n) % N_SYM_PER_SLOT
  {
    hide Shift, Period;
    if n < Period(mu) {
      SmallMod(n, Period(mu));
    } else {
      ShiftedSymbol(mu, if i <= mu then mu - i else mu, n);
    }
  }

  lemma NextMod(n: nat, p: nat)
    requires p > 0
    ensures (n + 1) % p == if n % p >= p - 1 then 0 else n % p + 1
  {
    var q, r := n / p, n % p;
    assert n == p * q + r;
    if r < p - 1 {
      Quotient(n + 1, p, q, r + 1);
    } else {
      assert p * (q + 1) == p * q + p;
      Quotient(n + 1, p, q + 1, 0);
    }
  }

  lemma NextCount(mu: nat, n: nat)
    ensures Increment(n % Period(mu), mu) == (n + 1) % Period(mu)
  {
    hide Period;
    NextMod(n, Period(mu));
  }

  // ---- One iteration ----

  lemma AdvanceAt(s: State, i: nat)
    requires WellFormed(s) && i < XRAN_MAX_NUM_MU
    ensures Advance(s).cnt == s.cnt
    ensures Advance(s).idx[i]
         == if Matches(s, i) then if s.idx[i] + 1 >= N_SYM_PER_SLOT then 0 else s.idx[i] + 1 else s.idx[i]
    ensures Advance(s).done[i] == if Matches(s, i) then s.done[i] + [s.idx[i]] else s.done[i]
  {
  }

  lemma Mod14Next(u: nat)
    ensures (u + 1) % 14 == if u % 14 == 13 then 0 else u % 14 + 1
  {
  }

  lemma AdvanceInStep(s: State, mu: nat, i: nat, n: nat, u: nat)
    requires WellFormed(s) && mu < XRAN_NBIOT_MU && i < XRAN_MAX_NUM_MU
    requires u <= Begun(mu, i, n) + 1 && Begun(mu, i, n) <= u
    requires s.cnt[i] == Begun(mu, i, n % Period(mu))
    requires s.cnt[i] % N_SYM_PER_SLOT == Begun(mu, i, n) % N_SYM_PER_SLOT
    requires s.idx[i] == u % N_SYM_PER_SLOT && |s.done[i]| == u
    requires forall k :: 0 <= k < u ==> s.done[i][k] == k % N_SYM_PER_SLOT
    ensures InStep(mu, Advance(s), i, n)
  {
    hide Begun, Period;
    AdvanceAt(s, i);
    Mod14Next(u);
    hide Advance;
    if u == Begun(mu, i, n) {
    } else {
      Mod14Next(Begun(mu, i, n));
    }
  }

  lemma TickInStep(s: State, mu: nat, i: nat, n: nat)
    requires WellFormed(s) && mu < XRAN_NBIOT_MU && i < XRAN_MAX_NUM_MU
    requires mu < 4 || n + 1 < Period(mu)
    requires InStep(mu, s, mu, n) && InStep(mu, s, i, n)
    ensures InStep(mu, Iteration(s, mu, false, true), i, n + 1)
  {
    var t := NextSymbol(s, mu);
    assert Shift(n % Period(mu), 0) == n % Period(mu) && Shift((n + 1) % Period(mu), 0) == (n + 1) % Period(mu);
    NextCount(mu, n);
    SymbolNumber(mu, i, n + 1);
    BegunStep(mu, i, n);
    hide Shift, Increment, FineTuning, Pow2, Period, Advance;
    AdvanceInStep(t, mu, i, n + 1, Begun(mu, i, n) + 1);
  }

  lemma ShiftZero(k: nat)
    ensures Shift(0, k) == 0
  {
  }

  lemma FirstSymbol(s: State, mu: nat, i: nat)
    requires WellFormed(s) && mu < XRAN_NBIOT_MU && i < XRAN_MAX_NUM_MU
    ensures InStep(mu, AfterSecond(s, mu, 0), i, 0)
  {
    assert AfterSecond(s, mu, 0) == Advance(NewSecond(s));
    ShiftZero(if i <= mu then mu - i else mu);
    SmallMod(0, Period(mu));
    hide Shift, Advance;
    AdvanceInStep(NewSecond(s), mu, i, 0, 0);
  }

  lemma NextInStep(s: State, mu: nat, n: nat, i: nat)
    requires WellFormed(s) && mu < XRAN_NBIOT_MU && i < XRAN_MAX_NUM_MU && (mu < 4 || n + 1 < Period(mu))
    requires InStep(mu, AfterSecond(s, mu, n), mu, n) && InStep(mu, AfterSecond(s, mu, n), i, n)
    ensures InStep(mu, AfterSecond(s, mu, n + 1), i, n + 1)
  {
    AfterSecondStep(s, mu, n + 1);
    hide InStep, AfterSecond, Iteration, Period;
    TickInStep(AfterSecond(s, mu, n), mu, i, n);
  }

  // From a second boundary on, and as long as the unit runs, every numerology is in step: its counter
  // holds the symbols begun, and each of these was processed exactly once, in order.
  lemma {:induction false} EveryIteration(s: State, mu: nat, n: nat, i: nat)
    requires WellFormed(s) && mu < XRAN_NBIOT_MU && i < XRAN_MAX_NUM_MU && (mu < 4 || n < Period(mu))
    ensures InStep(mu, AfterSecond(s, mu, n), i, n)
    decreases n
  {
    hide InStep, AfterSecond, Period;
    if n == 0 {
      FirstSymbol(s, mu, i);
    } else {
      EveryIteration(s, mu, n - 1, i);
      EveryIteration(s, mu, n - 1, mu);
      NextInStep(s, mu, n - 1, i);
    }
  }

  lemma AfterSecondStep(s: State, mu: nat, n: nat)
    requires WellFormed(s) && mu < XRAN_NBIOT_MU && n > 0
    ensures AfterSecond(s, mu, n) == Iteration(AfterSecond(s, mu, n - 1), mu, false, true)
  {
  }

  // In step means that the current symbol is the one after the counter's.
  lemma CurrentSymbolFollows(s: State, mu: nat, n: nat, i: nat)
    requires WellFormed(s) && mu < XRAN_NBIOT_MU && i < XRAN_MAX_NUM_MU && (mu < 4 || n < Period(mu))
    ensures var t := AfterSecond(s, mu, n); t.idx[i] == (t.cnt[i] + 1) % N_SYM_PER_SLOT
  {
    EveryIteration(s, mu, n, i);
    SymbolNumber(mu, i, n);
    hide AfterSecond, Begun, Period;
    Mod14Next(Begun(mu, i, n));
    Mod14Next(Begun(mu, i, n % Period(mu)));
  }

  // The loop of one call, started at a second boundary, runs just these iterations.
  lemma {:induction false} CatchUpIsAfterSecond(s: State, mu: nat, k: nat)
    requires WellFormed(s) && mu < XRAN_NBIOT_MU && k > 0
    ensures CatchUpBy(s, mu, true, true, k) == AfterSecond(s, mu, k - 1)
    decreases k
  {
    if k > 1 {
      CatchUpIsAfterSecond(s, mu, k - 1);
    } else {
      assert CatchUpBy(s, mu, true, true, 0) == s;
    }
  }

  // The loop of a later call in the same second goes on from there, however many symbols it catches up.
  lemma {:induction false} CatchUpContinues(s: State, mu: nat, n: nat, k: nat)
    requires WellFormed(s) && mu < XRAN_NBIOT_MU
    ensures CatchUpBy(AfterSecond(s, mu, n), mu, false, true, k) == AfterSecond(s, mu, n + k)
    decreases k
  {
    hide Iteration;
    if k > 0 {
      CatchUpContinues(s, mu, n, k - 1);
    }
  }

  // While the unit does not run, the counters and the time go on as if it did, and no symbol is processed.
  lemma {:induction false} StoppedClock(s: State, mu: nat, newSecond: bool, k: nat)
    requires WellFormed(s) && mu < XRAN_NBIOT_MU
    ensures var t, u := CatchUpBy(s, mu, newSecond, false, k), CatchUpBy(s, mu, newSecond, true, k);
      && t.cnt == u.cnt && t.acc == u.acc && t.number == u.number
      && (if k > 0 && newSecond then
            (forall i :: 0 <= i < XRAN_MAX_NUM_MU ==> t.idx[i] == 0 && t.done[i] == [])
          else t.idx == s.idx && t.done == s.done)
    decreases k
  {
    if k > 0 {
      StoppedClock(s, mu, newSecond, k - 1);
      var t, u := CatchUpBy(s, mu, newSecond, false, k - 1), CatchUpBy(s, mu, newSecond, true, k - 1);
      StoppedIteration(t, u, mu, newSecond && k == 1);
      hide Iteration;
    }
  }

  lemma StoppedIteration(s: State, u: State, mu: nat, newSecond: bool)
    requires WellFormed(s) && WellFormed(u) && mu < XRAN_NBIOT_MU
    requires s.cnt == u.cnt && s.acc == u.acc && s.number == u.number
    ensures var t, v := Iteration(s, mu, newSecond, false), Iteration(u, mu, newSecond, true);
      && t.cnt == v.cnt && t.acc == v.acc && t.number == v.number
      && (if newSecond then forall i :: 0 <= i < XRAN_MAX_NUM_MU ==> t.idx[i] == 0 && t.done[i] == []
          else t.idx == s.idx && t.done == s.done)
  {
    hide FineTuning, Increment, Shift, Spread;
  }

  // ---- Where the clock is wrong ----

  lemma LastShifts()
    ensures Shift(13999, 4) == 874 && Shift(13999, 0) == 13999 && Period(4) == 14000
  {
    assert Pow2(2) == 4 && Pow2(4) == 16 && Pow2(0) == 1;
  }

  lemma LastBeforeWrap(s: State, n: nat)
    requires WellFormed(s) && n == Period(4) - 1
    ensures var t := AfterSecond(s, 4, n); t.cnt[4] == n && t.idx[0] == 7
  {
    hide AfterSecond;
    LastShifts();
    EveryIteration(s, 4, n, 0);
    EveryIteration(s, 4, n, 4);
    SmallMod(n, Period(4));
    hide Shift, Period;
  }

  // Numerology 4, which the tables do not support, has a period that is no multiple of 14 * 2^4: after
  // one period without a second boundary, numerology 0 is out of step.
  lemma WrapAtFour(s: State)
    requires WellFormed(s)
    ensures var t := AfterSecond(s, 4, Period(4)); t.cnt[0] == 0 && t.idx[0] == 7
  {
    var n := Period(4) - 1;
    var before := AfterSecond(s, 4, n);
    LastBeforeWrap(s, n);
    AfterSecondStep(s, 4, Period(4));
    ShiftZero(4);
    hide AfterSecond, Pow2, Shift;
    var t := NextSymbol(before, 4);
    assert t.cnt[0] == 0 && t.idx[0] == 7;
    hide NextSymbol;
    AdvanceAt(t, 0);
  }

  // Time attributed to n symbols since the second boundary.
  function SymbolTime(mu: nat, n: nat): nat {
    n / 2 * FineTuning(mu, true) + (n + 1) / 2 * FineTuning(mu, false) + (n + 12) / 13
  }

  lemma SymbolTimeStep(mu: nat, n: nat)
    ensures SymbolTime(mu, n + 1)
         == SymbolTime(mu, n) + FineTuning(mu, n % 2 == 1) + if n % 13 == 0 then 1 else 0
  {
    var a, b := FineTuning(mu, true), FineTuning(mu, false);
    assert (n + 13) / 13 == (n + 12) / 13 + if n % 13 == 0 then 1 else 0;
    if n % 2 == 1 {
      assert (n + 1) / 2 * a == n / 2 * a + a && (n + 2) / 2 == (n + 1) / 2;
    } else {
      assert (n + 2) / 2 * b == (n + 1) / 2 * b + b && (n + 1) / 2 == n / 2;
    }
  }

  lemma IterationTime(s: State, mu: nat)
    requires WellFormed(s) && mu < XRAN_NBIOT_MU
    ensures var t := Iteration(s, mu, false, true);
      && t.number == s.number + 1
      && t.acc == s.acc + FineTuning(mu, s.number % 2 == 1) + if s.number % 13 == 0 then 1 else 0
    ensures var t := Iteration(s, mu, true, true); t.number == 0 && t.acc == 0
  {
    hide Spread, Shift, Increment, FineTuning, Zeros;
  }

  lemma {:induction false} TimeOfSymbols(s: State, mu: nat, n: nat)
    requires WellFormed(s) && mu < XRAN_NBIOT_MU
    ensures var t := AfterSecond(s, mu, n); t.number == n && t.acc == SymbolTime(mu, n)
    decreases n
  {
    hide Iteration, SymbolTime, FineTuning;
    if n > 0 {
      TimeOfSymbols(s, mu, n - 1);
      SymbolTimeStep(mu, n - 1);
      IterationTime(AfterSecond(s, mu, n - 1), mu);
    } else {
      IterationTime(s, mu);
      NoTime(mu);
    }
  }

  lemma NoTime(mu: nat)
    ensures SymbolTime(mu, 0) == 0
  {
  }

  // Seven times the exact duration of a symbol in ns, at the supported numerologies.
  function SevenSymbols(mu: nat): nat {
    if mu == 0 then 500_000 else if mu == 1 then 250_000 else if mu == 3 then 62_500 else 0
  }

  // How far seven times the time attributed to n symbols is ahead of that, without the extra ns of every
  // thirteenth: a pair of symbols is rounded down at numerologies 0 and 3, and up at numerology 1.
  function Rounding(mu: nat, n: nat): int {
    if mu == 1 then 3 * (n / 2) + 5 * (n % 2) else 3 * (n % 2) - n / 2
  }

  lemma RoundedTime(mu: nat, n: nat)
    requires mu in {0, 1, 3}
    ensures 7 * SymbolTime(mu, n) == n * SevenSymbols(mu) + 7 * ((n + 12) / 13) + Rounding(mu, n)
  {
    var k, r := n / 2, n % 2;
    assert n == 2 * k + r && (n + 1) / 2 == k + r;
  }

  lemma ExtraCovers(n: nat)
    ensures 7 * ((n + 12) / 13) >= n / 2
  {
    var q, r := (n + 12) / 13, (n + 12) % 13;
    assert n + 12 == 13 * q + r;
  }

  // The time attributed to n symbols of a second, at the supported numerologies: exactly how far it is
  // ahead of the real duration, which it never falls behind.  At the others only the extra ns count.
  lemma TimeAhead(s: State, mu: nat, n: nat)
    requires WellFormed(s) && mu < XRAN_NBIOT_MU
    ensures var acc := AfterSecond(s, mu, n).acc;
      if mu in {0, 1, 3} then
        && SevenSymbols(mu) * Period(mu) == 7_000_000_000
        && 7 * acc == n * SevenSymbols(mu) + 7 * ((n + 12) / 13) + Rounding(mu, n)
        && 7 * acc >= n * SevenSymbols(mu)
      else acc == (n + 12) / 13
  {
    TimeOfSymbols(s, mu, n);
    Periods();
    hide AfterSecond, Period;
    if mu in {0, 1, 3} {
      RoundedTime(mu, n);
      ExtraCovers(n);
    }
  }

  lemma Periods()
    ensures Period(0) == 14000 && Period(1) == 28000 && Period(3) == 112000
  {
    assert Pow2(0) == 1 && Pow2(1) == 2 && Pow2(2) == 4;
  }

  // A second's worth of symbols is tuned to 77 ns and 616 ns at numerologies 0 and 3, but runs 8154 ns
  // over at numerology 1.
  lemma SecondDrift(s: State)
    requires WellFormed(s)
    ensures AfterSecond(s, 0, Period(0)).acc == 1_000_000_077
    ensures AfterSecond(s, 1, Period(1)).acc == 1_000_008_154
    ensures AfterSecond(s, 3, Period(3)).acc == 1_000_000_616
  {
    Periods();
    TimeOfSymbols(s, 0, 14000);
    TimeOfSymbols(s, 1, 28000);
    TimeOfSymbols(s, 3, 112000);
    hide AfterSecond, Period;
  }
}
