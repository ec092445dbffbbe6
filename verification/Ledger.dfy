// The two counters of an event as sums over its predecessors, for every interleaving.
//
// `stat` of e is the number of fetch-adds its predecessors' splits have made so far.  `count` of e
// is one per edge, plus the increments the generators of splitting predecessors have made so far.
module Ledger {
  import opened Arith
  import opened Sums
  import opened Scheduler

  // Signals a split has already sent: the length of the row prefix it has fetch-added.
  function Done(pc: Pc): nat {
    match pc
    case Pending => 0
    case Running => 0
    case Add(i) => i
    case Load(i, _) => i + 1
    case Raise(i, _) => i + 1
    case Send(i) => i + 1
  }

  // Occurrences of e among the first i successors.
  function Hits(row: seq<nat>, i: nat, e: nat): nat {
    if i <= |row| then multiset(row[..i])[e] else 0
  }

  lemma HitsNext(row: seq<nat>, i: nat, e: nat)
    requires i < |row|
    ensures Hits(row, i + 1, e) == Hits(row, i, e) + if row[i] == e then 1 else 0
  {
    assert row[..i + 1] == row[..i] + [row[i]];
  }

  lemma {:induction false} HitsMono(row: seq<nat>, i: nat, j: nat, e: nat)
    requires i <= j <= |row|
    ensures Hits(row, i, e) <= Hits(row, j, e)
    ensures i < j && row[i] == e ==> Hits(row, i, e) < Hits(row, j, e)
    decreases j - i
  {
    if i < j {
      HitsNext(row, i, e);
      HitsMono(row, i + 1, j, e);
    }
  }

  function Degree(row: seq<nat>, e: nat): nat {
    Hits(row, |row|, e)
  }

  // Signals sent to e by the splits of one event.
  function SigRow(row: seq<nat>, pcs: seq<Pc>, e: nat): (r: seq<int>)
    ensures |r| == |pcs|
    ensures forall k :: 0 <= k < |r| ==> r[k] == Hits(row, Done(pcs[k]), e)
  {
    seq(|pcs|, k requires 0 <= k < |pcs| => Hits(row, Done(pcs[k]), e))
  }

  function Sig(row: seq<nat>, pcs: seq<Pc>, e: nat): int {
    Sum(SigRow(row, pcs, e))
  }

  function Sigs(c: Config, splits: seq<seq<Pc>>, e: nat): (r: seq<int>)
    requires |splits| == |c.next|
    ensures |r| == |c.next|
    ensures forall p :: 0 <= p < |r| ==> r[p] == Sig(c.next[p], splits[p], e)
  {
    seq(|c.next|, p requires 0 <= p < |c.next| => Sig(c.next[p], splits[p], e))
  }

  // What the edges from one event contribute to the count of e after `raised` increments.
  function Cap(row: seq<nat>, split: nat, raised: nat, e: nat): int {
    Degree(row, e) + (split - 1) * Hits(row, raised, e)
  }

  function Caps(c: Config, raised: seq<nat>, e: nat): (r: seq<int>)
    requires |raised| == |c.next| == |c.split|
    ensures |r| == |c.next|
    ensures forall p :: 0 <= p < |r| ==> r[p] == Cap(c.next[p], c.split[p], raised[p], e)
  {
    seq(|c.next|, p requires 0 <= p < |c.next| => Cap(c.next[p], c.split[p], raised[p], e))
  }

  lemma SigMove(row: seq<nat>, pcs: seq<Pc>, k: nat, pc: Pc, e: nat)
    requires k < |pcs|
    ensures Sig(row, pcs[k := pc], e) == Sig(row, pcs, e) - Hits(row, Done(pcs[k]), e) + Hits(row, Done(pc), e)
  {
    SumUpdate(SigRow(row, pcs, e), k, Hits(row, Done(pc), e));
    assert SigRow(row, pcs[k := pc], e) == SigRow(row, pcs, e)[k := Hits(row, Done(pc), e)];
  }

  lemma SigSpawn(row: seq<nat>, pcs: seq<Pc>, n: nat, e: nat)
    ensures Sig(row, pcs + seq(n, _ => Pending), e) == Sig(row, pcs, e)
  {
    var added := seq(n, _ => Pending);
    SumAppend(SigRow(row, pcs, e), SigRow(row, added, e));
    SumConst(SigRow(row, added, e), 0);
    assert SigRow(row, pcs + added, e) == SigRow(row, pcs, e) + SigRow(row, added, e);
  }

  lemma SigsRow(c: Config, splits: seq<seq<Pc>>, p: nat, pcs: seq<Pc>, e: nat)
    requires |splits| == |c.next| && p < |splits|
    ensures Sum(Sigs(c, splits[p := pcs], e))
         == Sum(Sigs(c, splits, e)) - Sig(c.next[p], splits[p], e) + Sig(c.next[p], pcs, e)
  {
    SumUpdate(Sigs(c, splits, e), p, Sig(c.next[p], pcs, e));
    assert Sigs(c, splits[p := pcs], e) == Sigs(c, splits, e)[p := Sig(c.next[p], pcs, e)];
  }

  lemma CapNext(row: seq<nat>, split: nat, raised: nat, e: nat)
    requires raised < |row|
    ensures Cap(row, split, raised + 1, e)
         == Cap(row, split, raised, e) + if row[raised] == e then split as int - 1 else 0
  {
    HitsNext(row, raised, e);
    Distribute(split as int - 1, Hits(row, raised, e), if row[raised] == e then 1 else 0);
  }

  lemma CapsRaise(c: Config, raised: seq<nat>, p: nat, e: nat)
    requires |raised| == |c.next| == |c.split| && p < |raised| && raised[p] < |c.next[p]|
    ensures Sum(Caps(c, raised[p := raised[p] + 1], e))
         == Sum(Caps(c, raised, e)) + if c.next[p][raised[p]] == e then c.split[p] as int - 1 else 0
  {
    var v := Cap(c.next[p], c.split[p], raised[p] + 1, e);
    CapNext(c.next[p], c.split[p], raised[p], e);
    SumUpdate(Caps(c, raised, e), p, v);
    assert Caps(c, raised[p := raised[p] + 1], e) == Caps(c, raised, e)[p := v];
  }

  ghost predicate StatBalanced(c: Config, splits: seq<seq<Pc>>, stat: seq<nat>, adders: seq<seq<Who>>) {
    && |splits| == |stat| == |adders| == |c.next|
    && forall e :: 0 <= e < |c.next| ==> stat[e] == |adders[e]| == Sum(Sigs(c, splits, e))
  }

  ghost predicate CountBalanced(c: Config, count: seq<nat>, raised: seq<nat>) {
    && |count| == |raised| == |c.wake| == |c.split| == |c.next|
    && (forall p :: 0 <= p < |c.next| ==> raised[p] <= |c.next[p]|)
    && (forall e :: 0 <= e < |c.next| ==> count[e] == c.wake[e] + Sum(Caps(c, raised, e)))
  }

  // A split about to load the count holds the ticket its own fetch-add returned.
  ghost predicate Tickets(c: Config, splits: seq<seq<Pc>>, stat: seq<nat>, adders: seq<seq<Who>>) {
    && |splits| == |stat| == |adders| == |c.next|
    && (forall e :: 0 <= e < |c.next| ==> |adders[e]| == stat[e])
    && (forall p, k :: 0 <= p < |splits| && 0 <= k < |splits[p]| ==> Ticket(c, splits[p][k], adders, p, k))
  }

  ghost predicate Ticket(c: Config, pc: Pc, adders: seq<seq<Who>>, p: nat, k: nat)
    requires p < |c.next| == |adders|
  {
    pc.Load? ==>
      && pc.slot < |c.next[p]| && c.next[p][pc.slot] < |adders|
      && 0 < pc.seen <= |adders[c.next[p][pc.slot]]|
      && adders[c.next[p][pc.slot]][pc.seen - 1] == Split(p, k)
  }

  // The thread is raising a count on behalf of e, at position nxt of e's row.
  ghost predicate Raising(c: Config, s: State, w: Who, e: nat, j: nat)
    requires Shape(c, s) && Exists(s, w)
  {
    match w
    case Injector => s.inj.InjRaise? && c.inject[s.inj.pos] == e && s.inj.nxt == j
    case Split(p, k) => s.splits[p][k].Raise? && c.next[p][s.splits[p][k].slot] == e && s.splits[p][k].nxt == j
  }

  // No two generators ever raise counts for the same event at once, and the one that does
  // stands exactly where the record says.
  ghost predicate RaisesInOrder(c: Config, s: State, w: Who)
    requires Shape(c, s) && Exists(s, w)
  {
    forall e, j :: 0 <= e < |c.next| && Raising(c, s, w, e, j) ==> s.raised[e] == j
  }

  lemma StatMove(c: Config, splits: seq<seq<Pc>>, stat: seq<nat>, adders: seq<seq<Who>>, p: nat, k: nat, pc: Pc)
    requires StatBalanced(c, splits, stat, adders)
    requires p < |splits| && k < |splits[p]| && Done(pc) == Done(splits[p][k])
    ensures StatBalanced(c, splits[p := splits[p][k := pc]], stat, adders)
  {
    forall e | 0 <= e < |c.next|
      ensures Sum(Sigs(c, splits[p := splits[p][k := pc]], e)) == Sum(Sigs(c, splits, e))
    {
      SigMove(c.next[p], splits[p], k, pc, e);
      SigsRow(c, splits, p, splits[p][k := pc], e);
    }
  }

  lemma StatAdd(c: Config, splits: seq<seq<Pc>>, stat: seq<nat>, adders: seq<seq<Who>>, p: nat, k: nat, i: nat, w: Who)
    requires StatBalanced(c, splits, stat, adders)
    requires p < |splits| && k < |splits[p]| && splits[p][k] == Add(i) && i < |c.next[p]| && c.next[p][i] < |stat|
    ensures var x := c.next[p][i];
      StatBalanced(c, splits[p := splits[p][k := Load(i, stat[x] + 1)]], stat[x := stat[x] + 1],
                   adders[x := adders[x] + [w]])
  {
    var x := c.next[p][i];
    var pc := Load(i, stat[x] + 1);
    forall e | 0 <= e < |c.next|
      ensures Sum(Sigs(c, splits[p := splits[p][k := pc]], e)) == Sum(Sigs(c, splits, e)) + if e == x then 1 else 0
    {
      SigMove(c.next[p], splits[p], k, pc, e);
      SigsRow(c, splits, p, splits[p][k := pc], e);
      HitsNext(c.next[p], i, e);
    }
  }

  lemma StatSpawn(c: Config, s: State, x: nat)
    requires StatBalanced(c, s.splits, s.stat, s.adders) && x < |s.splits| && x < |c.split|
    ensures StatBalanced(c, Spawn(c, s, x).splits, s.stat, s.adders)
  {
    forall e | 0 <= e < |c.next|
      ensures Sum(Sigs(c, Spawn(c, s, x).splits, e)) == Sum(Sigs(c, s.splits, e))
    {
      SigSpawn(c.next[x], s.splits[x], c.split[x], e);
      SigsRow(c, s.splits, x, s.splits[x] + seq(c.split[x], _ => Pending), e);
    }
  }

  lemma StatStep(c: Config, s: State, w: Who)
    requires Shape(c, s) && StatBalanced(c, s.splits, s.stat, s.adders) && CanStep(c, s, w)
    ensures StatBalanced(c, Step(c, s, w).splits, Step(c, s, w).stat, Step(c, s, w).adders)
  {
    hide StatBalanced;
    match w
    case Injector => if s.inj.InjSend? { StatSpawn(c, s, c.inject[s.inj.pos]); }
    case Split(p, k) =>
      assert PcOk(c, p, s.splits[p][k]);
      match s.splits[p][k]
      case Add(i) => StatAdd(c, s.splits, s.stat, s.adders, p, k, i, w);
      case Send(i) =>
        StatMove(c, s.splits, s.stat, s.adders, p, k, Add(i + 1));
        StatSpawn(c, Move(s, p, k, Add(i + 1)), c.next[p][i]);
      case Pending => StatMove(c, s.splits, s.stat, s.adders, p, k, Running);
      case Running => StatMove(c, s.splits, s.stat, s.adders, p, k, Add(0));
      case Load(i, v) => StatMove(c, s.splits, s.stat, s.adders, p, k, AfterLoad(c, s, p, i, v));
      case Raise(i, j) => StatMove(c, s.splits, s.stat, s.adders, p, k, AfterRaise(c, p, i, j));
  }

  lemma CountRaise(c: Config, s: State, p: nat, j: nat)
    requires c.Valid() && CountBalanced(c, s.count, s.raised) && p < |c.next| && j == s.raised[p] < |c.next[p]|
    ensures CountBalanced(c, RaiseOne(c, s, p, j).count, RaiseOne(c, s, p, j).raised)
  {
    hide Sum, Caps;
    forall e | 0 <= e < |c.next|
      ensures RaiseOne(c, s, p, j).count[e] == c.wake[e] + Sum(Caps(c, RaiseOne(c, s, p, j).raised, e))
    {
      CapsRaise(c, s.raised, p, e);
    }
  }

  lemma CountStep(c: Config, s: State, w: Who)
    requires Shape(c, s) && CountBalanced(c, s.count, s.raised) && CanStep(c, s, w)
    requires RaisesInOrder(c, s, w)
    ensures CountBalanced(c, Step(c, s, w).count, Step(c, s, w).raised)
  {
    match w
    case Injector =>
      if s.inj.InjRaise? {
        assert Raising(c, s, w, c.inject[s.inj.pos], s.inj.nxt);
        CountRaise(c, s, c.inject[s.inj.pos], s.inj.nxt);
      }
    case Split(p, k) =>
      var pc := s.splits[p][k];
      if pc.Raise? {
        assert PcOk(c, p, pc);
        assert Raising(c, s, w, c.next[p][pc.slot], pc.nxt);
        CountRaise(c, s, c.next[p][pc.slot], pc.nxt);
      }
  }

  lemma TicketMove(c: Config, splits: seq<seq<Pc>>, stat: seq<nat>, adders: seq<seq<Who>>, p: nat, k: nat, pc: Pc)
    requires Tickets(c, splits, stat, adders) && p < |splits| && k < |splits[p]| && !pc.Load?
    ensures Tickets(c, splits[p := splits[p][k := pc]], stat, adders)
  {
  }

  lemma TicketAdd(c: Config, splits: seq<seq<Pc>>, stat: seq<nat>, adders: seq<seq<Who>>, p: nat, k: nat, i: nat)
    requires Tickets(c, splits, stat, adders) && p < |splits| && k < |splits[p]|
    requires i < |c.next[p]| && c.next[p][i] < |stat|
    ensures var x := c.next[p][i];
      Tickets(c, splits[p := splits[p][k := Load(i, stat[x] + 1)]], stat[x := stat[x] + 1],
              adders[x := adders[x] + [Split(p, k)]])
  {
    var x := c.next[p][i];
    var more := adders[x := adders[x] + [Split(p, k)]];
    forall q, l | 0 <= q < |splits| && 0 <= l < |splits[q]| && (q != p || l != k)
      ensures Ticket(c, splits[q][l], more, q, l)
    {
      assert Ticket(c, splits[q][l], adders, q, l);
    }
  }

  lemma TicketSpawn(c: Config, s: State, x: nat)
    requires Tickets(c, s.splits, s.stat, s.adders) && x < |s.splits| && x < |c.split|
    ensures Tickets(c, Spawn(c, s, x).splits, s.stat, s.adders)
  {
    var t := Spawn(c, s, x);
    forall q, l | 0 <= q < |t.splits| && 0 <= l < |t.splits[q]|
      ensures Ticket(c, t.splits[q][l], s.adders, q, l)
    {
      if l < |s.splits[q]| {
        assert Ticket(c, s.splits[q][l], s.adders, q, l);
      }
    }
  }

  lemma TicketStep(c: Config, s: State, w: Who)
    requires Shape(c, s) && Tickets(c, s.splits, s.stat, s.adders) && CanStep(c, s, w)
    ensures Tickets(c, Step(c, s, w).splits, Step(c, s, w).stat, Step(c, s, w).adders)
  {
    hide Tickets;
    match w
    case Injector => if s.inj.InjSend? { TicketSpawn(c, s, c.inject[s.inj.pos]); }
    case Split(p, k) =>
      assert PcOk(c, p, s.splits[p][k]);
      match s.splits[p][k]
      case Add(i) => TicketAdd(c, s.splits, s.stat, s.adders, p, k, i);
      case Send(i) =>
        TicketMove(c, s.splits, s.stat, s.adders, p, k, Add(i + 1));
        TicketSpawn(c, Move(s, p, k, Add(i + 1)), c.next[p][i]);
      case Pending => TicketMove(c, s.splits, s.stat, s.adders, p, k, Running);
      case Running => TicketMove(c, s.splits, s.stat, s.adders, p, k, Add(0));
      case Load(i, v) => TicketMove(c, s.splits, s.stat, s.adders, p, k, AfterLoad(c, s, p, i, v));
      case Raise(i, j) => TicketMove(c, s.splits, s.stat, s.adders, p, k, AfterRaise(c, p, i, j));
  }

  lemma {:induction false} DegreeSum(c: Config, e: nat, n: nat)
    requires c.Valid() && n <= |c.next|
    ensures InDegreeUpTo(c.next, e, n) == Sum(Caps(c, seq(|c.next|, _ => 0), e)[..n])
  {
    if n > 0 {
      DegreeSum(c, e, n - 1);
      var caps := Caps(c, seq(|c.next|, _ => 0), e);
      assert caps[..n][..n - 1] == caps[..n - 1];
      assert c.next[n - 1][..|c.next[n - 1]|] == c.next[n - 1];
      assert (c.split[n - 1] - 1) * 0 == 0;
    }
  }

  lemma InitStat(c: Config)
    requires c.Valid()
    ensures var s := Init(c); StatBalanced(c, s.splits, s.stat, s.adders) && Tickets(c, s.splits, s.stat, s.adders)
  {
    var s := Init(c);
    forall e | 0 <= e < |c.next| ensures Sum(Sigs(c, s.splits, e)) == 0 {
      SumConst(Sigs(c, s.splits, e), 0);
    }
  }

  lemma InitCount(c: Config)
    requires c.Valid()
    ensures CountBalanced(c, Init(c).count, Init(c).raised)
  {
    var zero: seq<nat> := seq(|c.next|, _ => 0);
    assert Init(c).raised == zero;
    forall e | 0 <= e < |c.next|
      ensures Init(c).count[e] == c.wake[e] + Sum(Caps(c, zero, e))
    {
      DegreeSum(c, e, |c.next|);
      assert Caps(c, zero, e)[..|c.next|] == Caps(c, zero, e);
    }
  }
}
