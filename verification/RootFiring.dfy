// Regime in which the callback generates only events without predecessors, each once.
//
// Although the status and the count of an event move independently and are read one after the
// other, they meet exactly when every split of every predecessor has signalled.  So each other
// event is generated exactly once, by the thread whose fetch-add was the last one.
module RootFiring {
  import opened Sums
  import opened Scheduler
  import opened Ledger

  ghost predicate IsRoot(c: Config, e: nat) {
    forall p, j :: 0 <= p < |c.next| && 0 <= j < |c.next[p]| ==> c.next[p][j] != e
  }

  ghost predicate RootsOnly(c: Config) {
    && c.Valid()
    && (forall i :: 0 <= i < |c.inject| ==> IsRoot(c, c.inject[i]))
    && (forall i, j :: 0 <= i < j < |c.inject| ==> c.inject[i] != c.inject[j])
  }

  // How many injections the callback has begun.
  function Begun(pc: InjectorPc): nat {
    match pc
    case Inject(pos) => pos
    case InjRaise(pos, _) => pos + 1
    case InjSend(pos) => pos + 1
  }

  ghost predicate Injected(c: Config, s: State, e: nat) {
    exists i :: 0 <= i < Begun(s.inj) && i < |c.inject| && c.inject[i] == e
  }

  // The event has been taken up by a generator.
  ghost predicate Born(c: Config, s: State, e: nat)
    requires e < |s.unlocked|
  {
    Injected(c, s, e) || s.unlocked[e] != []
  }

  // All count increments of e that a generator standing at `pc` has behind it.
  function RaisedBy(c: Config, pc: Pc, e: nat): nat
    requires e < |c.next| == |c.split|
  {
    if pc.Raise? then pc.nxt else if c.Raises(e) then |c.next[e]| else 0
  }

  function InjRaisedBy(c: Config, pc: InjectorPc, e: nat): nat
    requires e < |c.next| == |c.split|
  {
    if pc.InjRaise? then pc.nxt else if c.Raises(e) then |c.next[e]| else 0
  }

  // Thread w is inside test_func_gen for event e, before the send.
  ghost predicate Generating(c: Config, s: State, w: Who, e: nat)
    requires Shape(c, s)
  {
    && Exists(s, w)
    && match w
       case Injector => !s.inj.Inject? && c.inject[s.inj.pos] == e
       case Split(p, k) =>
         var pc := s.splits[p][k];
         (pc.Raise? || pc.Send?) && PcOk(c, p, pc) && c.next[p][pc.slot] == e
  }

  ghost function Behind(c: Config, s: State, w: Who, e: nat): nat
    requires Shape(c, s) && e < |c.next| && Exists(s, w)
  {
    match w
    case Injector => InjRaisedBy(c, s.inj, e)
    case Split(p, k) => RaisedBy(c, s.splits[p][k], e)
  }

  ghost predicate Sent(c: Config, s: State, e: nat)
    requires Shape(c, s) && e < |c.next|
  {
    |s.splits[e]| == c.split[e] && (c.Raises(e) ==> s.raised[e] == |c.next[e]|)
  }

  ghost function Generator(s: State, e: nat): Who
    requires e < |s.unlocked|
  {
    if s.unlocked[e] == [] then Injector else s.unlocked[e][0]
  }

  // Life of one event: unborn, then generated by one thread, then sent as its splits.
  ghost predicate Life(c: Config, s: State, e: nat)
    requires Shape(c, s) && e < |c.next|
  {
    && |s.unlocked[e]| <= 1
    && (IsRoot(c, e) ==> s.unlocked[e] == [])
    && (!Born(c, s, e) ==> s.splits[e] == [] && s.raised[e] == 0)
    && (Born(c, s, e) ==> Sent(c, s, e) || Generating(c, s, Generator(s, e), e))
    && (forall w :: Generating(c, s, w, e) ==>
          && s.splits[e] == [] && s.raised[e] == Behind(c, s, w, e)
          && Born(c, s, e) && Generator(s, e) == w)
  }

  ghost predicate Lives(c: Config, s: State)
    requires Shape(c, s)
  {
    forall e :: 0 <= e < |c.next| ==> Life(c, s, e)
  }

  // Every signal along the edges from one event to e has been sent.
  ghost predicate EdgeDone(row: seq<nat>, split: nat, pcs: seq<Pc>, e: nat) {
    Degree(row, e) > 0 ==>
      |pcs| == split && forall k :: 0 <= k < |pcs| ==> Hits(row, Done(pcs[k]), e) == Degree(row, e)
  }

  // Every split of every predecessor of e has signalled e.
  ghost predicate Complete(c: Config, s: State, e: nat)
    requires Shape(c, s)
  {
    forall p :: 0 <= p < |c.next| ==> EdgeDone(c.next[p], c.split[p], s.splits[p], e)
  }

  ghost predicate LoadsLast(c: Config, s: State, w: Who, e: nat)
    requires Shape(c, s) && e < |c.next|
  {
    && w.Split? && Exists(s, w)
    && var pc := s.splits[w.event][w.idx];
       pc.Load? && PcOk(c, w.event, pc) && c.next[w.event][pc.slot] == e && pc.seen == s.stat[e]
  }

  ghost predicate FiredRight(c: Config, s: State, e: nat)
    requires Shape(c, s) && e < |c.next|
  {
    s.unlocked[e] != [] ==>
      && 0 < s.stat[e] == s.count[e] == |s.adders[e]|
      && s.unlocked[e] == [s.adders[e][s.stat[e] - 1]]
      && !LoadsLast(c, s, s.unlocked[e][0], e)
      && Complete(c, s, e)
  }

  ghost predicate WillFire(c: Config, s: State, e: nat)
    requires Shape(c, s) && e < |c.next|
  {
    s.unlocked[e] == [] && 0 < s.stat[e] == s.count[e] == |s.adders[e]| ==>
      LoadsLast(c, s, s.adders[e][s.stat[e] - 1], e)
  }

  ghost predicate Fires(c: Config, s: State)
    requires Shape(c, s)
  {
    forall e :: 0 <= e < |c.next| ==> FiredRight(c, s, e) && WillFire(c, s, e)
  }

  ghost predicate Inv(c: Config, s: State) {
    && RootsOnly(c) && Shape(c, s)
    && StatBalanced(c, s.splits, s.stat, s.adders)
    && CountBalanced(c, s.count, s.raised)
    && Tickets(c, s.splits, s.stat, s.adders)
    && Lives(c, s) && Fires(c, s)
  }

  // ---- Status against count ----

  lemma SigFull(row: seq<nat>, pcs: seq<Pc>, e: nat)
    requires forall k :: 0 <= k < |pcs| ==> Done(pcs[k]) <= |row|
    ensures Sig(row, pcs, e) <= |pcs| * Degree(row, e)
    ensures Sig(row, pcs, e) == |pcs| * Degree(row, e) ==>
              forall k :: 0 <= k < |pcs| ==> Hits(row, Done(pcs[k]), e) == Degree(row, e)
  {
    var sigs := SigRow(row, pcs, e);
    var full := seq(|pcs|, _ => Degree(row, e) as int);
    SumConst(full, Degree(row, e));
    forall k | 0 <= k < |pcs| ensures sigs[k] <= full[k] {
      HitsMono(row, Done(pcs[k]), |row|, e);
    }
    SumDominated(sigs, full);
    if Sum(sigs) == Sum(full) {
      forall k | 0 <= k < |pcs| ensures Hits(row, Done(pcs[k]), e) == Degree(row, e) {
        assert sigs[k] == full[k];
      }
    }
  }

  lemma SigVsCap(row: seq<nat>, split: nat, pcs: seq<Pc>, raised: nat, e: nat)
    requires split >= 1 && raised <= |row|
    requires forall k :: 0 <= k < |pcs| ==> Done(pcs[k]) <= |row|
    requires pcs == [] || (|pcs| == split && (split > 1 && |row| > 0 ==> raised == |row|))
    ensures Sig(row, pcs, e) <= Cap(row, split, raised, e)
    ensures Sig(row, pcs, e) == Cap(row, split, raised, e) ==> EdgeDone(row, split, pcs, e)
  {
    if pcs == [] {
      assert (split as int - 1) * Hits(row, raised, e) >= 0;
    } else {
      hide Sig, Cap;
      SigFull(row, pcs, e);
      CapFull(row, split, raised, e);
    }
  }

  lemma CapFull(row: seq<nat>, split: nat, raised: nat, e: nat)
    requires split >= 1 && raised <= |row| && (split > 1 && |row| > 0 ==> raised == |row|)
    ensures Cap(row, split, raised, e) == split * Degree(row, e)
  {
    if |row| == 0 {
      assert Hits(row, raised, e) == 0 == Degree(row, e);
    } else if split > 1 {
      var m, d := split as int - 1, Degree(row, e) as int;
      assert Cap(row, split, raised, e) == d + m * d == (m + 1) * d;
    }
  }

  lemma DoneBounded(c: Config, s: State, p: nat, k: nat)
    requires Shape(c, s) && p < |s.splits| && k < |s.splits[p]|
    ensures Done(s.splits[p][k]) <= |c.next[p]|
  {
    assert PcOk(c, p, s.splits[p][k]);
  }

  // The status never passes the count, and meets it only when all predecessors have signalled.
  lemma StatVsCount(c: Config, s: State, e: nat)
    requires Shape(c, s) && Lives(c, s) && e < |c.next|
    requires StatBalanced(c, s.splits, s.stat, s.adders) && CountBalanced(c, s.count, s.raised)
    ensures s.stat[e] + c.wake[e] <= s.count[e]
    ensures s.stat[e] + c.wake[e] == s.count[e] ==> Complete(c, s, e)
  {
    var sigs, caps := Sigs(c, s.splits, e), Caps(c, s.raised, e);
    forall p | 0 <= p < |c.next|
      ensures sigs[p] <= caps[p]
      ensures sigs[p] == caps[p] ==> EdgeDone(c.next[p], c.split[p], s.splits[p], e)
    {
      assert Life(c, s, p);
      forall k | 0 <= k < |s.splits[p]| ensures Done(s.splits[p][k]) <= |c.next[p]| { DoneBounded(c, s, p, k); }
      SigVsCap(c.next[p], c.split[p], s.splits[p], s.raised[p], e);
    }
    SumDominated(sigs, caps);
  }

  // ---- Lives of events ----

  lemma LifeSame(c: Config, s: State, t: State, e: nat)
    requires Shape(c, s) && Shape(c, t) && e < |c.next| && Life(c, s, e)
    requires t.unlocked[e] == s.unlocked[e] && t.raised[e] == s.raised[e] && |t.splits[e]| == |s.splits[e]|
    requires Injected(c, t, e) == Injected(c, s, e)
    requires forall w :: Generating(c, t, w, e) == Generating(c, s, w, e)
    requires forall w :: Generating(c, s, w, e) ==> Exists(t, w) && Behind(c, t, w, e) == Behind(c, s, w, e)
    ensures Life(c, t, e)
  {
  }

  // A step of one split that leaves generation alone.
  lemma LivesQuiet(c: Config, s: State, t: State, p: nat, k: nat)
    requires Shape(c, s) && Shape(c, t) && Lives(c, s) && p < |s.splits| && k < |s.splits[p]|
    requires |t.splits[p]| == |s.splits[p]| && t.splits == s.splits[p := s.splits[p][k := t.splits[p][k]]]
    requires t.unlocked == s.unlocked && t.raised == s.raised && t.inj == s.inj
    requires !s.splits[p][k].Raise? && !s.splits[p][k].Send? && !t.splits[p][k].Raise? && !t.splits[p][k].Send?
    ensures Lives(c, t)
  {
    forall e | 0 <= e < |c.next| ensures Life(c, t, e) {
      hide Life;
      LifeSame(c, s, t, e);
    }
  }

  // A split finds its ticket equal to the count and takes up event e.
  lemma LivesFire(c: Config, s: State, t: State, p: nat, k: nat, i: nat, e: nat)
    requires Shape(c, s) && Shape(c, t) && Lives(c, s) && p < |s.splits| && k < |s.splits[p]|
    requires i < |c.next[p]| && c.next[p][i] == e && s.unlocked[e] == [] && RootsOnly(c)
    requires s.splits[p][k].Load?
    requires t.splits == s.splits[p := s.splits[p][k := if c.Raises(e) then Raise(i, 0) else Send(i)]]
    requires t.unlocked == s.unlocked[e := [Split(p, k)]] && t.raised == s.raised && t.inj == s.inj
    ensures Lives(c, t)
  {
    forall x | 0 <= x < |c.next| ensures Life(c, t, x) {
      if x == e {
        assert Life(c, s, e) && !Born(c, s, e);
        forall w ensures Generating(c, t, w, e) ==> w == Split(p, k) {
          assert Generating(c, t, w, e) && w != Split(p, k) ==> Generating(c, s, w, e);
        }
        assert Generating(c, t, Split(p, k), e);
      } else {
        hide Life;
        LifeSame(c, s, t, x);
      }
    }
  }

  // The generator of e, a split, makes one increment.
  lemma LivesRaise(c: Config, s: State, t: State, p: nat, k: nat, e: nat)
    requires Shape(c, s) && Shape(c, t) && Lives(c, s) && p < |s.splits| && k < |s.splits[p]|
    requires s.splits[p][k].Raise? && Generating(c, s, Split(p, k), e)
    requires t.splits == s.splits[p := s.splits[p][k := AfterRaise(c, p, s.splits[p][k].slot, s.splits[p][k].nxt)]]
    requires t.unlocked == s.unlocked && t.raised == s.raised[e := s.raised[e] + 1] && t.inj == s.inj
    ensures Lives(c, t)
  {
    assert PcOk(c, p, s.splits[p][k]);
    forall x | 0 <= x < |c.next| ensures Life(c, t, x) {
      assert Life(c, s, x);
      if x == e {
        forall w ensures Generating(c, t, w, e) ==> w == Split(p, k) {
          assert Generating(c, t, w, e) && w != Split(p, k) ==> Generating(c, s, w, e);
        }
        assert Generating(c, t, Split(p, k), e);
      } else {
        hide Life;
        LifeSame(c, s, t, x);
      }
    }
  }

  // The generator of e, a split, sends it.
  lemma LivesSend(c: Config, s: State, t: State, p: nat, k: nat, e: nat)
    requires Shape(c, s) && Shape(c, t) && Lives(c, s) && p < |s.splits| && k < |s.splits[p]|
    requires s.splits[p][k].Send? && Generating(c, s, Split(p, k), e)
    requires t == Spawn(c, Move(s, p, k, Add(s.splits[p][k].slot + 1)), e)
    ensures Lives(c, t)
  {
    assert Life(c, s, e) && e != p;
    forall x | 0 <= x < |c.next| ensures Life(c, t, x) {
      assert Life(c, s, x);
      if x == e {
        forall w ensures !Generating(c, t, w, e) {
          assert Generating(c, t, w, e) ==> Generating(c, s, w, e);
        }
      } else {
        hide Life;
        LifeSame(c, s, t, x);
      }
    }
  }

  // The callback begins or continues its current injection.
  lemma LifeInjected(c: Config, s: State, t: State, e: nat)
    requires Shape(c, s) && Shape(c, t) && e < |c.next| && Life(c, s, e) && RootsOnly(c) && CanStep(c, s, Injector)
    requires !s.inj.InjSend? && c.inject[s.inj.pos] == e && t == InjectorStep(c, s)
    ensures Life(c, t, e)
  {
    if s.inj.Inject? {
      assert !Injected(c, s, e);
    } else {
      assert Generating(c, s, Injector, e);
    }
    assert c.inject[t.inj.pos] == e;
    assert Injected(c, t, e);
    assert Generating(c, t, Injector, e);
    forall w ensures Generating(c, t, w, e) ==> w == Injector {
      assert Generating(c, s, w, e) || w == Injector || !Generating(c, t, w, e);
    }
  }

  lemma LivesInject(c: Config, s: State, t: State, e: nat)
    requires Shape(c, s) && Shape(c, t) && Lives(c, s) && RootsOnly(c) && CanStep(c, s, Injector)
    requires !s.inj.InjSend? && c.inject[s.inj.pos] == e && t == InjectorStep(c, s)
    ensures Lives(c, t)
  {
    forall x | 0 <= x < |c.next| ensures Life(c, t, x) {
      hide Life;
      if x == e {
        LifeInjected(c, s, t, e);
      } else {
        assert Injected(c, t, x) == Injected(c, s, x);
        LifeSame(c, s, t, x);
      }
    }
  }

  lemma LivesInjectSend(c: Config, s: State, t: State, e: nat)
    requires Shape(c, s) && Shape(c, t) && Lives(c, s) && CanStep(c, s, Injector)
    requires s.inj.InjSend? && c.inject[s.inj.pos] == e && t == InjectorStep(c, s)
    ensures Lives(c, t)
  {
    assert Generating(c, s, Injector, e);
    forall x | 0 <= x < |c.next| ensures Life(c, t, x) {
      assert Life(c, s, x);
      assert Injected(c, t, x) == Injected(c, s, x);
      if x == e {
        forall w ensures !Generating(c, t, w, e) {
          assert Generating(c, t, w, e) ==> Generating(c, s, w, e);
        }
      } else {
        hide Life;
        LifeSame(c, s, t, x);
      }
    }
  }

  // ---- Who fires ----

  lemma CompleteKept(c: Config, s: State, t: State, e: nat)
    requires Shape(c, s) && Shape(c, t) && Complete(c, s, e)
    requires forall p :: 0 <= p < |c.next| && Degree(c.next[p], e) > 0 ==> |t.splits[p]| == |s.splits[p]|
    requires forall p, k :: 0 <= p < |c.next| && 0 <= k < |t.splits[p]| && k < |s.splits[p]| ==>
               Hits(c.next[p], Done(t.splits[p][k]), e) == Hits(c.next[p], Done(s.splits[p][k]), e)
    ensures Complete(c, t, e)
  {
    forall p | 0 <= p < |c.next| ensures EdgeDone(c.next[p], c.split[p], t.splits[p], e) {
      assert EdgeDone(c.next[p], c.split[p], s.splits[p], e);
    }
  }

  // A complete event receives no further signal.
  lemma CompleteNoAdd(c: Config, s: State, p: nat, k: nat, i: nat)
    requires Shape(c, s) && p < |s.splits| && k < |s.splits[p]| && s.splits[p][k] == Add(i) && i < |c.next[p]|
    ensures !Complete(c, s, c.next[p][i])
  {
    var e := c.next[p][i];
    HitsMono(c.next[p], i, |c.next[p]|, e);
    assert Complete(c, s, e) ==> EdgeDone(c.next[p], c.split[p], s.splits[p], e);
  }

  // A step that changes no counter, makes no signal and loads no count.
  lemma FiresQuiet(c: Config, s: State, t: State, p: nat, k: nat)
    requires Shape(c, s) && Shape(c, t) && Fires(c, s) && p < |s.splits| && k < |s.splits[p]|
    requires |t.splits[p]| == |s.splits[p]| && t.splits == s.splits[p := s.splits[p][k := t.splits[p][k]]]
    requires t.unlocked == s.unlocked && t.adders == s.adders && t.stat == s.stat && t.count == s.count
    requires Done(t.splits[p][k]) == Done(s.splits[p][k]) && !s.splits[p][k].Load? && !t.splits[p][k].Load?
    ensures Fires(c, t)
  {
    forall e | 0 <= e < |c.next| ensures FiredRight(c, t, e) && WillFire(c, t, e) {
      assert FiredRight(c, s, e) && WillFire(c, s, e);
      if s.unlocked[e] != [] { CompleteKept(c, s, t, e); }
    }
  }

  // The state after the fetch-add of a split.
  ghost predicate Added(c: Config, s: State, t: State, p: nat, k: nat, i: nat)
    requires Shape(c, s)
  {
    && p < |s.splits| && k < |s.splits[p]| && i < |c.next[p]| && s.splits[p][k] == Add(i)
    && var x := c.next[p][i];
       t == s.(splits := s.splits[p := s.splits[p][k := Load(i, s.stat[x] + 1)]],
               stat := s.stat[x := s.stat[x] + 1], adders := s.adders[x := s.adders[x] + [Split(p, k)]])
  }

  lemma FiresAddOther(c: Config, s: State, t: State, p: nat, k: nat, i: nat, e: nat)
    requires Shape(c, s) && Shape(c, t) && Added(c, s, t, p, k, i) && e < |c.next| && e != c.next[p][i]
    requires FiredRight(c, s, e) && WillFire(c, s, e)
    ensures FiredRight(c, t, e) && WillFire(c, t, e)
  {
    HitsNext(c.next[p], i, e);
    if s.unlocked[e] != [] {
      CompleteKept(c, s, t, e);
    }
  }

  lemma FiresAdd(c: Config, s: State, t: State, p: nat, k: nat, i: nat)
    requires Shape(c, s) && Shape(c, t) && Fires(c, s) && Added(c, s, t, p, k, i)
    requires Tickets(c, s.splits, s.stat, s.adders)
    ensures Fires(c, t)
  {
    forall e | 0 <= e < |c.next| ensures FiredRight(c, t, e) && WillFire(c, t, e) {
      assert FiredRight(c, s, e) && WillFire(c, s, e);
      if e == c.next[p][i] {
        CompleteNoAdd(c, s, p, k, i);
      } else {
        FiresAddOther(c, s, t, p, k, i, e);
      }
    }
  }

  // The ticket does not match the count.
  lemma FiresMiss(c: Config, s: State, t: State, p: nat, k: nat, i: nat)
    requires Shape(c, s) && Shape(c, t) && Fires(c, s) && CanStep(c, s, Split(p, k))
    requires s.splits[p][k].Load? && s.splits[p][k].slot == i && s.splits[p][k].seen != s.count[c.next[p][i]]
    requires t == Move(s, p, k, Add(i + 1))
    ensures Fires(c, t)
  {
    forall e | 0 <= e < |c.next| ensures FiredRight(c, t, e) && WillFire(c, t, e) {
      assert FiredRight(c, s, e) && WillFire(c, s, e);
      if s.unlocked[e] != [] { CompleteKept(c, s, t, e); }
    }
  }

  // The ticket matches the count: the split takes up the successor.
  ghost predicate Fired(c: Config, s: State, t: State, p: nat, k: nat, i: nat)
    requires Shape(c, s)
  {
    && p < |s.splits| && k < |s.splits[p]| && i < |c.next[p]|
    && var x := c.next[p][i];
       && s.splits[p][k] == Load(i, s.count[x])
       && t == s.(splits := s.splits[p := s.splits[p][k := if c.Raises(x) then Raise(i, 0) else Send(i)]],
                  unlocked := s.unlocked[x := s.unlocked[x] + [Split(p, k)]])
  }

  lemma TicketHeld(c: Config, s: State, p: nat, k: nat, i: nat, seen: nat)
    requires Shape(c, s) && Tickets(c, s.splits, s.stat, s.adders)
    requires p < |s.splits| && k < |s.splits[p]| && i < |c.next[p]| && s.splits[p][k] == Load(i, seen)
    ensures var e := c.next[p][i];
      0 < seen <= s.stat[e] == |s.adders[e]| && s.adders[e][seen - 1] == Split(p, k)
  {
    assert Ticket(c, s.splits[p][k], s.adders, p, k);
  }

  // A thread holding the latest ticket of e excludes that e has been fired.
  lemma NotFiredYet(c: Config, s: State, p: nat, k: nat, i: nat)
    requires Shape(c, s) && Fires(c, s)
    requires p < |s.splits| && k < |s.splits[p]| && i < |c.next[p]|
    requires var e := c.next[p][i];
      && s.splits[p][k] == Load(i, s.stat[e])
      && 0 < s.stat[e] == |s.adders[e]| && s.adders[e][s.stat[e] - 1] == Split(p, k)
    ensures s.unlocked[c.next[p][i]] == []
  {
    assert PcOk(c, p, s.splits[p][k]);
    assert LoadsLast(c, s, Split(p, k), c.next[p][i]);
    assert FiredRight(c, s, c.next[p][i]);
  }

  // At the moment of firing the event has not been fired before, and everything it waits for is done.
  lemma FiringMoment(c: Config, s: State, p: nat, k: nat, i: nat)
    requires Inv(c, s) && p < |s.splits| && k < |s.splits[p]| && i < |c.next[p]|
    requires s.splits[p][k] == Load(i, s.count[c.next[p][i]])
    ensures var e := c.next[p][i];
      && s.unlocked[e] == [] && Complete(c, s, e) && c.wake[e] == 0
      && 0 < s.stat[e] == s.count[e] == |s.adders[e]| && s.adders[e][s.stat[e] - 1] == Split(p, k)
  {
    hide Lives, StatBalanced, CountBalanced, Complete, Fires, Tickets;
    TicketHeld(c, s, p, k, i, s.count[c.next[p][i]]);
    StatVsCount(c, s, c.next[p][i]);
    NotFiredYet(c, s, p, k, i);
  }

  lemma FiresFireOther(c: Config, s: State, t: State, p: nat, k: nat, i: nat, e: nat)
    requires Shape(c, s) && Shape(c, t) && Fired(c, s, t, p, k, i) && e < |c.next| && e != c.next[p][i]
    requires FiredRight(c, s, e) && WillFire(c, s, e)
    ensures FiredRight(c, t, e) && WillFire(c, t, e)
  {
    if s.unlocked[e] != [] { CompleteKept(c, s, t, e); }
  }

  lemma FiresFire(c: Config, s: State, t: State, p: nat, k: nat, i: nat)
    requires Shape(c, s) && Shape(c, t) && Fires(c, s) && Fired(c, s, t, p, k, i)
    requires var e := c.next[p][i];
      && s.unlocked[e] == [] && Complete(c, s, e)
      && 0 < s.stat[e] == s.count[e] == |s.adders[e]| && s.adders[e][s.stat[e] - 1] == Split(p, k)
    ensures Fires(c, t)
  {
    forall e | 0 <= e < |c.next| ensures FiredRight(c, t, e) && WillFire(c, t, e) {
      assert FiredRight(c, s, e) && WillFire(c, s, e);
      if e == c.next[p][i] {
        CompleteKept(c, s, t, e);
      } else {
        hide Complete;
        FiresFireOther(c, s, t, p, k, i, e);
      }
    }
  }

  // A count increment on behalf of e by thread w, which may move w.
  ghost predicate RaisedFor(c: Config, s: State, t: State, e: nat, j: nat)
    requires Shape(c, s)
  {
    && e < |c.next| && j < |c.next[e]| && c.split[e] > 1
    && t.unlocked == s.unlocked && t.adders == s.adders && t.stat == s.stat
    && t.count == RaiseOne(c, s, e, j).count
  }

  lemma NotCompleteBeforeSend(c: Config, s: State, e: nat, j: nat)
    requires Shape(c, s) && e < |c.next| && j < |c.next[e]| && s.splits[e] == []
    ensures !Complete(c, s, c.next[e][j])
  {
    var x := c.next[e][j];
    HitsMono(c.next[e], 0, j, x);
    HitsMono(c.next[e], j, |c.next[e]|, x);
    assert Complete(c, s, x) ==> EdgeDone(c.next[e], c.split[e], s.splits[e], x);
  }

  lemma FiresRaiseAt(c: Config, s: State, t: State, p: nat, k: nat, e: nat, j: nat, y: nat)
    requires Shape(c, s) && Shape(c, t) && p < |s.splits| && k < |s.splits[p]| && s.splits[p][k].Raise?
    requires RaisedFor(c, s, t, e, j) && s.splits[e] == []
    requires |t.splits[p]| == |s.splits[p]| && t.splits == s.splits[p := s.splits[p][k := t.splits[p][k]]]
    requires Done(t.splits[p][k]) == Done(s.splits[p][k]) && !t.splits[p][k].Load?
    requires s.stat[c.next[e][j]] <= s.count[c.next[e][j]] && !Complete(c, s, c.next[e][j])
    requires y < |c.next| && FiredRight(c, s, y) && WillFire(c, s, y)
    ensures FiredRight(c, t, y) && WillFire(c, t, y)
  {
    if s.unlocked[y] != [] { CompleteKept(c, s, t, y); }
  }

  lemma FiresRaise(c: Config, s: State, t: State, p: nat, k: nat, e: nat, j: nat)
    requires Shape(c, s) && Shape(c, t) && Fires(c, s) && p < |s.splits| && k < |s.splits[p]| && s.splits[p][k].Raise?
    requires RaisedFor(c, s, t, e, j) && s.splits[e] == []
    requires |t.splits[p]| == |s.splits[p]| && t.splits == s.splits[p := s.splits[p][k := t.splits[p][k]]]
    requires Done(t.splits[p][k]) == Done(s.splits[p][k]) && !t.splits[p][k].Load?
    requires s.stat[c.next[e][j]] <= s.count[c.next[e][j]]
    ensures Fires(c, t)
  {
    NotCompleteBeforeSend(c, s, e, j);
    hide Complete, FiredRight, WillFire;
    forall y | 0 <= y < |c.next| ensures FiredRight(c, t, y) && WillFire(c, t, y) {
      FiresRaiseAt(c, s, t, p, k, e, j, y);
    }
  }

  lemma FiresInjRaise(c: Config, s: State, t: State, e: nat, j: nat)
    requires Shape(c, s) && Shape(c, t) && Fires(c, s) && RaisedFor(c, s, t, e, j)
    requires s.splits[e] == [] && t.splits == s.splits
    requires s.stat[c.next[e][j]] <= s.count[c.next[e][j]]
    ensures Fires(c, t)
  {
    var x := c.next[e][j];
    NotCompleteBeforeSend(c, s, e, j);
    forall y | 0 <= y < |c.next| ensures FiredRight(c, t, y) && WillFire(c, t, y) {
      assert FiredRight(c, s, y) && WillFire(c, s, y);
      if s.unlocked[y] != [] { CompleteKept(c, s, t, y); }
    }
  }

  lemma FiresSpawn(c: Config, s: State, t: State, e: nat)
    requires Shape(c, s) && Shape(c, t) && Fires(c, s) && e < |c.next| && s.splits[e] == []
    requires t.splits == Spawn(c, s, e).splits
    requires t.unlocked == s.unlocked && t.adders == s.adders && t.stat == s.stat && t.count == s.count
    ensures Fires(c, t)
  {
    forall y | 0 <= y < |c.next| ensures FiredRight(c, t, y) && WillFire(c, t, y) {
      assert FiredRight(c, s, y) && WillFire(c, s, y);
      if s.unlocked[y] != [] {
        assert EdgeDone(c.next[e], c.split[e], s.splits[e], y);
        CompleteKept(c, s, t, y);
      }
    }
  }

  // ---- The invariant of every reachable state ----

  lemma OrderFromLives(c: Config, s: State, w: Who)
    requires Shape(c, s) && Lives(c, s) && Exists(s, w)
    ensures RaisesInOrder(c, s, w)
  {
    forall e, j | 0 <= e < |c.next| && Raising(c, s, w, e, j) ensures s.raised[e] == j {
      if w.Split? { assert PcOk(c, w.event, s.splits[w.event][w.idx]); }
      assert Generating(c, s, w, e);
      assert Life(c, s, e);
    }
  }

  lemma LedgersStep(c: Config, s: State, w: Who)
    requires Inv(c, s) && CanStep(c, s, w)
    ensures var t := Step(c, s, w);
      && StatBalanced(c, t.splits, t.stat, t.adders)
      && CountBalanced(c, t.count, t.raised)
      && Tickets(c, t.splits, t.stat, t.adders)
  {
    hide StatBalanced, CountBalanced, Tickets, Fires;
    OrderFromLives(c, s, w);
    StatStep(c, s, w);
    CountStep(c, s, w);
    TicketStep(c, s, w);
  }

  lemma InjectorInv(c: Config, s: State)
    requires Inv(c, s) && CanStep(c, s, Injector)
    ensures Lives(c, InjectorStep(c, s)) && Fires(c, InjectorStep(c, s))
  {
    var t := InjectorStep(c, s);
    var e := c.inject[s.inj.pos];
    assert Life(c, s, e);
    hide StatBalanced, CountBalanced, Tickets;
    match s.inj
    case Inject(pos) => LivesInject(c, s, t, e); FiresKept(c, s, t);
    case InjRaise(pos, j) =>
      assert Generating(c, s, Injector, e);
      StatVsCount(c, s, c.next[e][j]);
      LivesInject(c, s, t, e);
      FiresInjRaise(c, s, t, e, j);
    case InjSend(pos) =>
      assert Generating(c, s, Injector, e);
      LivesInjectSend(c, s, t, e);
      FiresSpawn(c, s, t, e);
  }

  lemma FiresKept(c: Config, s: State, t: State)
    requires Shape(c, s) && Shape(c, t) && Fires(c, s)
    requires t.splits == s.splits && t.unlocked == s.unlocked && t.adders == s.adders
    requires t.stat == s.stat && t.count == s.count
    ensures Fires(c, t)
  {
    forall e | 0 <= e < |c.next| ensures FiredRight(c, t, e) && WillFire(c, t, e) {
      assert FiredRight(c, s, e) && WillFire(c, s, e);
    }
  }

  lemma SplitInv(c: Config, s: State, p: nat, k: nat)
    requires Inv(c, s) && CanStep(c, s, Split(p, k))
    ensures Lives(c, SplitStep(c, s, p, k)) && Fires(c, SplitStep(c, s, p, k))
  {
    hide StatBalanced, CountBalanced, Tickets, Lives, Fires, Complete;
    var t := SplitStep(c, s, p, k);
    var pc := s.splits[p][k];
    assert PcOk(c, p, pc);
    match pc
    case Pending => LivesQuiet(c, s, t, p, k); FiresQuiet(c, s, t, p, k);
    case Running => LivesQuiet(c, s, t, p, k); FiresQuiet(c, s, t, p, k);
    case Add(i) => LivesQuiet(c, s, t, p, k); FiresAdd(c, s, t, p, k, i);
    case Load(i, seen) =>
      if seen == s.count[c.next[p][i]] {
        FiringMoment(c, s, p, k, i);
        assert s.unlocked[c.next[p][i]] + [Split(p, k)] == [Split(p, k)];
        LivesFire(c, s, t, p, k, i, c.next[p][i]);
        FiresFire(c, s, t, p, k, i);
      } else {
        LivesQuiet(c, s, t, p, k);
        FiresMiss(c, s, t, p, k, i);
      }
    case Raise(i, j) =>
      var e := c.next[p][i];
      GeneratedUnsent(c, s, Split(p, k), e);
      StatVsCount(c, s, c.next[e][j]);
      LivesRaise(c, s, t, p, k, e);
      FiresRaise(c, s, t, p, k, e, j);
    case Send(i) =>
      var e := c.next[p][i];
      GeneratedUnsent(c, s, Split(p, k), e);
      var m := Move(s, p, k, Add(i + 1));
      LivesSend(c, s, t, p, k, e);
      FiresQuiet(c, s, m, p, k);
      FiresSpawn(c, m, t, e);
  }

  lemma GeneratedUnsent(c: Config, s: State, w: Who, e: nat)
    requires Shape(c, s) && Lives(c, s) && e < |c.next| && Generating(c, s, w, e)
    ensures s.splits[e] == []
  {
    assert Life(c, s, e);
  }

  lemma InvStep(c: Config, s: State, w: Who)
    requires Inv(c, s) && CanStep(c, s, w)
    ensures Inv(c, Step(c, s, w))
  {
    hide StatBalanced, CountBalanced, Tickets, Lives, Fires;
    LedgersStep(c, s, w);
    match w
    case Injector => InjectorInv(c, s);
    case Split(p, k) => SplitInv(c, s, p, k);
  }

  lemma InvInit(c: Config)
    requires RootsOnly(c)
    ensures Inv(c, Init(c))
  {
    hide StatBalanced, CountBalanced, Tickets, InDegree;
    InitStat(c);
    InitCount(c);
  }

  lemma {:induction false} InvRun(c: Config, s: State, schedule: seq<Who>)
    requires Inv(c, s) && Runs(c, s, schedule)
    ensures Inv(c, Run(c, s, schedule))
    decreases |schedule|
  {
    hide StatBalanced, CountBalanced, Tickets, Lives, Fires;
    if schedule != [] {
      InvStep(c, s, schedule[0]);
      InvRun(c, Step(c, s, schedule[0]), schedule[1..]);
    }
  }
}
