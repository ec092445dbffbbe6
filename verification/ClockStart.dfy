// The symbol clock away from a second boundary: when a numerology falls in step with its counter, and
// what the first symbols after the start look like.
module ClockStart {
  import opened Arith
  import opened SymbolClock
  import opened ClockSync

  // n symbols without a second boundary, the unit running.
  function AfterTicks(s: State, mu: nat, n: nat): (t: State)
    requires WellFormed(s) && mu < XRAN_NBIOT_MU
    ensures WellFormed(t)
  {
    if n == 0 then s else Iteration(AfterTicks(s, mu, n - 1), mu, false, true)
  }

  // The symbol numerology i has reached after n of them, counted without wrapping; the counters above
  // the timer's numerology stand still.
  function Reached(s: State, mu: nat, i: nat, n: nat): nat
    requires WellFormed(s) && mu < XRAN_NBIOT_MU && i < XRAN_MAX_NUM_MU
  {
    if mu < i < XRAN_NBIOT_MU then s.cnt[i] else Begun(mu, i, s.cnt[mu] + n)
  }

  // A state the counters can be in, and a stretch in which numerology 4 does not wrap.
  predicate Counting(s: State, mu: nat, i: nat, n: nat) {
    && WellFormed(s) && mu < XRAN_NBIOT_MU && i < XRAN_MAX_NUM_MU
    && s.cnt[mu] < Period(mu) && s.idx[i] < N_SYM_PER_SLOT && (mu < 4 || s.cnt[mu] + n < Period(mu))
  }

  // The m-th symbol finds the current symbol at the counter or one ahead of it.
  predicate Meets(s: State, mu: nat, i: nat, m: nat)
    requires WellFormed(s) && mu < XRAN_NBIOT_MU && i < XRAN_MAX_NUM_MU
  {
    || s.idx[i] == Reached(s, mu, i, m) % N_SYM_PER_SLOT
    || s.idx[i] == (Reached(s, mu, i, m) + 1) % N_SYM_PER_SLOT
  }

  // ---- The counters ----

  lemma {:induction false} TimerCount(s: State, mu: nat, i: nat, n: nat)
    requires Counting(s, mu, i, n)
    ensures AfterTicks(s, mu, n).cnt[mu] == (s.cnt[mu] + n) % Period(mu)
    decreases n
  {
    hide Period, Advance;
    if n == 0 {
      SmallMod(s.cnt[mu], Period(mu));
    } else {
      TimerCount(s, mu, i, n - 1);
      NextCount(mu, s.cnt[mu] + n - 1);
      NextCounter(AfterTicks(s, mu, n - 1), mu);
    }
  }

  lemma NextCounter(s: State, mu: nat)
    requires WellFormed(s) && mu < XRAN_NBIOT_MU
    ensures Iteration(s, mu, false, true).cnt == Spread(s.cnt, mu, Increment(s.cnt[mu], mu))
    ensures Iteration(s, mu, false, true).cnt[mu] == Increment(s.cnt[mu], mu)
  {
    var c := Increment(s.cnt[mu], mu);
    assert Shift(c, 0) == c;
    hide Increment, FineTuning, Shift;
  }

  lemma {:induction false} StandingCount(s: State, mu: nat, i: nat, n: nat)
    requires WellFormed(s) && mu < i < XRAN_NBIOT_MU
    ensures AfterTicks(s, mu, n).cnt[i] == s.cnt[i]
    decreases n
  {
    hide Advance, Shift, Increment, FineTuning;
    if n > 0 {
      StandingCount(s, mu, i, n - 1);
      NextCounter(AfterTicks(s, mu, n - 1), mu);
    }
  }

  // What the counter of a numerology shows is the symbol reached.
  lemma CountShows(s: State, mu: nat, i: nat, n: nat)
    requires Counting(s, mu, i, n) && n > 0
    ensures AfterTicks(s, mu, n).cnt[i] % N_SYM_PER_SLOT == Reached(s, mu, i, n) % N_SYM_PER_SLOT
  {
    if mu < i < XRAN_NBIOT_MU {
      StandingCount(s, mu, i, n);
    } else {
      TimerCount(s, mu, i, n);
      var before := AfterTicks(s, mu, n - 1);
      NextCounter(before, mu);
      SymbolNumber(mu, i, s.cnt[mu] + n);
      hide Period, Shift, Increment, AfterTicks;
      assert AfterTicks(s, mu, n) == Iteration(before, mu, false, true) by { TicksStep(s, mu, n); }
    }
  }

  lemma TicksStep(s: State, mu: nat, n: nat)
    requires WellFormed(s) && mu < XRAN_NBIOT_MU && n > 0
    ensures AfterTicks(s, mu, n) == Iteration(AfterTicks(s, mu, n - 1), mu, false, true)
  {
  }

  lemma ReachedStep(s: State, mu: nat, i: nat, n: nat)
    requires WellFormed(s) && mu < XRAN_NBIOT_MU && i < XRAN_MAX_NUM_MU
    ensures Reached(s, mu, i, n) <= Reached(s, mu, i, n + 1) <= Reached(s, mu, i, n) + 1
  {
    BegunStep(mu, i, s.cnt[mu] + n);
  }

  // ---- One symbol ----

  lemma OneTick(s: State, mu: nat, i: nat, n: nat)
    requires Counting(s, mu, i, n) && n > 0
    ensures var before, t, r := AfterTicks(s, mu, n - 1), AfterTicks(s, mu, n), Reached(s, mu, i, n);
      if before.idx[i] == r % N_SYM_PER_SLOT then
        t.idx[i] == (r + 1) % N_SYM_PER_SLOT && t.done[i] == before.done[i] + [before.idx[i]]
      else t.idx[i] == before.idx[i] && t.done[i] == before.done[i]
  {
    CountShows(s, mu, i, n);
    TicksStep(s, mu, n);
    var before := AfterTicks(s, mu, n - 1);
    var s1 := NextSymbol(before, mu);
    hide Period, Shift, Increment, FineTuning, AfterTicks, Reached, Spread;
    AdvanceAt(s1, i);
    Mod14Next(Reached(s, mu, i, n));
    hide Advance;
  }

  // ---- Any number of symbols ----

  // Until the counter meets the current symbol nothing is processed.
  lemma {:induction false} Waiting(s: State, mu: nat, i: nat, n: nat)
    requires Counting(s, mu, i, n) && forall m :: 1 <= m <= n ==> !Meets(s, mu, i, m)
    ensures AfterTicks(s, mu, n).idx[i] == s.idx[i] && AfterTicks(s, mu, n).done[i] == s.done[i]
    decreases n
  {
    hide Reached, Period, Iteration;
    if n > 0 {
      Waiting(s, mu, i, n - 1);
      OneTick(s, mu, i, n);
      assert !Meets(s, mu, i, n);
    }
  }

  // Symbols processed up to the n-th when the m-th is the first to meet.
  function Processed(s: State, mu: nat, i: nat, m: nat, n: nat): int
    requires WellFormed(s) && mu < XRAN_NBIOT_MU && i < XRAN_MAX_NUM_MU
  {
    Reached(s, mu, i, n) - Reached(s, mu, i, m)
    + if s.idx[i] == Reached(s, mu, i, m) % N_SYM_PER_SLOT then 1 else 0
  }

  // From the first meeting on, every symbol is processed once, in order.
  ghost predicate Follows(s: State, t: State, mu: nat, i: nat, m: nat, n: nat)
    requires WellFormed(s) && WellFormed(t) && mu < XRAN_NBIOT_MU && i < XRAN_MAX_NUM_MU
  {
    var d := |s.done[i]|;
    && t.idx[i] == (Reached(s, mu, i, n) + 1) % N_SYM_PER_SLOT
    && t.idx[i] == (s.idx[i] + Processed(s, mu, i, m, n)) % N_SYM_PER_SLOT
    && |t.done[i]| == d + Processed(s, mu, i, m, n)
    && s.done[i] <= t.done[i]
    && forall k :: d <= k < |t.done[i]| ==> t.done[i][k] == (s.idx[i] + (k - d)) % N_SYM_PER_SLOT
  }

  lemma {:induction false} Following(s: State, mu: nat, i: nat, m: nat, n: nat)
    requires Counting(s, mu, i, n) && 1 <= m <= n
    requires Meets(s, mu, i, m) && forall k :: 1 <= k < m ==> !Meets(s, mu, i, k)
    ensures Follows(s, AfterTicks(s, mu, n), mu, i, m, n)
    decreases n
  {
    hide Reached, Period, Iteration, AfterTicks;
    OneTick(s, mu, i, n);
    if n == m {
      Waiting(s, mu, i, n - 1);
      Mod14Next(s.idx[i]);
      Mod14Next(Reached(s, mu, i, n));
    } else {
      Following(s, mu, i, m, n - 1);
      ReachedStep(s, mu, i, n - 1);
      FollowOn(s, AfterTicks(s, mu, n - 1), AfterTicks(s, mu, n), mu, i, m, n);
    }
  }

  lemma FollowOn(s: State, before: State, t: State, mu: nat, i: nat, m: nat, n: nat)
    requires WellFormed(s) && WellFormed(before) && WellFormed(t) && mu < XRAN_NBIOT_MU && i < XRAN_MAX_NUM_MU
    requires n > 0 && Follows(s, before, mu, i, m, n - 1)
    requires Reached(s, mu, i, n - 1) <= Reached(s, mu, i, n) <= Reached(s, mu, i, n - 1) + 1
    requires var r := Reached(s, mu, i, n);
      if before.idx[i] == r % N_SYM_PER_SLOT then
        t.idx[i] == (r + 1) % N_SYM_PER_SLOT && t.done[i] == before.done[i] + [before.idx[i]]
      else t.idx[i] == before.idx[i] && t.done[i] == before.done[i]
    ensures Follows(s, t, mu, i, m, n)
  {
    var r, p := Reached(s, mu, i, n - 1), Processed(s, mu, i, m, n - 1);
    hide Reached;
    Mod14Next(r);
    Mod14Next(r + 1);
    Mod14Next(s.idx[i] + p);
  }

  // ---- Main results ----

  predicate AtCounter(t: State, i: nat)
    requires WellFormed(t) && i < XRAN_MAX_NUM_MU
  {
    t.idx[i] == (t.cnt[i] + 1) % N_SYM_PER_SLOT
  }

  // After n symbols without a second boundary, from whatever state, a numerology is in step if and only
  // if some symbol found its current symbol at the counter or one ahead; until then it processes nothing.
  lemma InStepExactly(s: State, mu: nat, i: nat, n: nat)
    requires Counting(s, mu, i, n) && n > 0
    ensures var t := AfterTicks(s, mu, n);
      && (AtCounter(t, i) <==> exists m :: 1 <= m <= n && Meets(s, mu, i, m))
      && (!AtCounter(t, i) ==> t.idx[i] == s.idx[i] && t.done[i] == s.done[i])
  {
    CountShows(s, mu, i, n);
    var t := AfterTicks(s, mu, n);
    SameSymbol(t.cnt[i], Reached(s, mu, i, n));
    hide Reached, Period, AfterTicks;
    if exists m :: 1 <= m <= n && Meets(s, mu, i, m) {
      var m :| 1 <= m <= n && Meets(s, mu, i, m);
      var first := FirstMeeting(s, mu, i, m);
      Following(s, mu, i, first, n);
    } else {
      Waiting(s, mu, i, n);
      assert !Meets(s, mu, i, n);
    }
  }

  lemma SameSymbol(a: nat, b: nat)
    requires a % N_SYM_PER_SLOT == b % N_SYM_PER_SLOT
    ensures (a + 1) % N_SYM_PER_SLOT == (b + 1) % N_SYM_PER_SLOT
  {
    Mod14Next(a);
    Mod14Next(b);
  }

  lemma {:induction false} FirstMeeting(s: State, mu: nat, i: nat, m: nat) returns (first: nat)
    requires WellFormed(s) && mu < XRAN_NBIOT_MU && i < XRAN_MAX_NUM_MU && m > 0 && Meets(s, mu, i, m)
    ensures 1 <= first <= m && Meets(s, mu, i, first) && forall k :: 1 <= k < first ==> !Meets(s, mu, i, k)
    decreases m
  {
    hide Meets;
    if k :| 1 <= k < m && Meets(s, mu, i, k) {
      first := FirstMeeting(s, mu, i, k);
    } else {
      first := m;
    }
  }

  // All counters at 0, nothing processed.
  function AtStart(): (s: State)
    ensures WellFormed(s)
  {
    State(Zeros(XRAN_MAX_NUM_MU), Zeros(XRAN_MAX_NUM_MU), 0, 0, [[], [], [], [], [], []])
  }

  // Counts at the timer's own rate: the timer's numerology, and NB-IoT under numerology 0.
  predicate AtTimerRate(mu: nat, i: nat) {
    i == mu || (i == XRAN_NBIOT_MU && mu == 0)
  }

  lemma StartFacts(mu: nat, i: nat, n: nat)
    requires mu < XRAN_NBIOT_MU && i < XRAN_MAX_NUM_MU
    ensures var s := AtStart(); s.cnt[mu] == 0 == s.cnt[i] && s.idx[i] == 0 && s.done[i] == []
    ensures Counting(AtStart(), mu, i, n) <==> mu < 4 || n < Period(mu)
    ensures Reached(AtStart(), mu, i, n) == if AtTimerRate(mu, i) then n else Begun(mu, i, n)
  {
    hide Period, Shift;
    UnshiftedCount(n);
  }

  lemma UnshiftedCount(n: nat)
    ensures Shift(n, 0) == n
  {
  }

  // A numerology below the timer's has not reached its second symbol with the timer's.
  lemma FirstBegun(mu: nat, i: nat)
    requires mu < XRAN_NBIOT_MU && i < XRAN_MAX_NUM_MU && !AtTimerRate(mu, i)
    ensures Begun(mu, i, 1) == 0
  {
    if !(mu < i < XRAN_NBIOT_MU) {
      var k := if i < mu then mu - i else mu;
      assert Pow2(k) == 2 * Pow2(k - 1);
      SmallMod(1, Pow2(k));
    }
  }

  // The first n symbols after the start, no second boundary among them.  What counts at the timer's rate
  // processes nothing before the 14th symbol, is in step from the 13th on, and has left out 13 symbols
  // for good; everything else is in step from the first symbol on.
  lemma FirstSymbols(mu: nat, i: nat, n: nat)
    requires mu < XRAN_NBIOT_MU && i < XRAN_MAX_NUM_MU && n > 0 && (mu < 4 || n < Period(mu))
    ensures var t := AfterTicks(AtStart(), mu, n);
      if AtTimerRate(mu, i) then
        && (AtCounter(t, i) <==> n >= 13)
        && (n < 13 ==> t.idx[i] == 0)
        && ProcessedInOrder(t, i, if n < 13 then 0 else n - 13)
      else
        AtCounter(t, i) && ProcessedInOrder(t, i, Begun(mu, i, n) + 1)
  {
    var s := AtStart();
    hide *;
    StartFacts(mu, i, n);
    InStepExactly(s, mu, i, n);
    MeetsAtStart(mu, i, n);
    if !AtTimerRate(mu, i) {
      MeetsAtStart(mu, i, 1);
      OrderAtStart(mu, i, 1, n);
    } else if n >= 13 {
      MeetsAtStart(mu, i, 13);
      OrderAtStart(mu, i, 13, n);
    } else {
      Waiting(s, mu, i, n);
      NothingProcessed(AfterTicks(s, mu, n), i);
    }
  }

  // The symbols processed are the first d, once each, in order.
  predicate ProcessedInOrder(t: State, i: nat, d: nat)
    requires WellFormed(t) && i < XRAN_MAX_NUM_MU
  {
    |t.done[i]| == d && forall k :: 0 <= k < d ==> t.done[i][k] == k % N_SYM_PER_SLOT
  }

  lemma NothingProcessed(t: State, i: nat)
    requires WellFormed(t) && i < XRAN_MAX_NUM_MU && t.done[i] == []
    ensures ProcessedInOrder(t, i, 0)
  {
  }

  // The first symbols to meet.
  lemma MeetsAtStart(mu: nat, i: nat, m: nat)
    requires mu < XRAN_NBIOT_MU && i < XRAN_MAX_NUM_MU && m > 0
    ensures AtTimerRate(mu, i) ==> forall k :: 1 <= k < 13 ==> !Meets(AtStart(), mu, i, k)
    ensures AtTimerRate(mu, i) && m == 13 ==> Meets(AtStart(), mu, i, m)
    ensures !AtTimerRate(mu, i) && m == 1 ==> Meets(AtStart(), mu, i, m)
  {
    hide Period, Reached, Begun, AtStart;
    StartFacts(mu, i, m);
    forall k | AtTimerRate(mu, i) && 1 <= k < 13 ensures !Meets(AtStart(), mu, i, k) {
      StartFacts(mu, i, k);
    }
    if !AtTimerRate(mu, i) {
      FirstBegun(mu, i);
    }
  }

  lemma OrderAtStart(mu: nat, i: nat, m: nat, n: nat)
    requires Counting(AtStart(), mu, i, n) && m == (if AtTimerRate(mu, i) then 13 else 1) && m <= n
    ensures ProcessedInOrder(AfterTicks(AtStart(), mu, n), i,
                             if AtTimerRate(mu, i) then n - 13 else Begun(mu, i, n) + 1)
  {
    hide Period, Reached, Begun, AtStart, AfterTicks;
    StartFacts(mu, i, m);
    StartFacts(mu, i, n);
    MeetsAtStart(mu, i, m);
    if !AtTimerRate(mu, i) {
      FirstBegun(mu, i);
    }
    hide Meets;
    Following(AtStart(), mu, i, m, n);
  }
}
