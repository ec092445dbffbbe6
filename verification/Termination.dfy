// A measure that every step decreases, provided no event is unlocked twice.
//
// Each event owns the cost of its one possible generation until somebody unlocks it; the cost then
// moves into the generating thread and, at the send, into the new splits.
module Termination {
  import opened Sums
  import opened Scheduler

  function TaskCost(c: Config, p: nat): nat
    requires p < |c.next|
  {
    2 + 2 * |c.next[p]|
  }

  function SendCost(c: Config, e: nat): nat
    requires e < |c.next| == |c.split|
  {
    1 + c.split[e] * TaskCost(c, e)
  }

  function GenCost(c: Config, e: nat): nat
    requires e < |c.next| == |c.split|
  {
    |c.next[e]| + SendCost(c, e)
  }

  // Steps a split has left, including the generation it is in the middle of.
  ghost function Left(c: Config, p: nat, pc: Pc): nat
    requires c.Valid() && p < |c.next| && PcOk(c, p, pc)
  {
    var n := |c.next[p]|;
    match pc
    case Pending => 2 + 2 * n
    case Running => 1 + 2 * n
    case Add(i) => 2 * (n - i)
    case Load(i, _) => 2 * (n - i) - 1
    case Raise(i, j) => 2 * (n - i - 1) + (|c.next[c.next[p][i]]| - j) + SendCost(c, c.next[p][i])
    case Send(i) => 2 * (n - i - 1) + SendCost(c, c.next[p][i])
  }

  ghost function LeftRow(c: Config, p: nat, pcs: seq<Pc>): (r: seq<int>)
    requires c.Valid() && p < |c.next| && forall k :: 0 <= k < |pcs| ==> PcOk(c, p, pcs[k])
    ensures |r| == |pcs|
    ensures forall k :: 0 <= k < |r| ==> r[k] == Left(c, p, pcs[k])
  {
    seq(|pcs|, k requires 0 <= k < |pcs| => Left(c, p, pcs[k]))
  }

  ghost predicate SplitsOk(c: Config, splits: seq<seq<Pc>>) {
    && c.Valid() && |splits| == |c.next|
    && forall p, k :: 0 <= p < |splits| && 0 <= k < |splits[p]| ==> PcOk(c, p, splits[p][k])
  }

  ghost function Lefts(c: Config, splits: seq<seq<Pc>>): (r: seq<int>)
    requires SplitsOk(c, splits)
    ensures |r| == |splits|
    ensures forall p :: 0 <= p < |r| ==> r[p] == Sum(LeftRow(c, p, splits[p]))
  {
    seq(|splits|, p requires 0 <= p < |splits| => Sum(LeftRow(c, p, splits[p])))
  }

  ghost function InjectCost(c: Config, pos: nat): nat
    requires c.Valid() && pos <= |c.inject|
    decreases |c.inject| - pos
  {
    if pos == |c.inject| then 0 else 1 + GenCost(c, c.inject[pos]) + InjectCost(c, pos + 1)
  }

  ghost function InjectorLeft(c: Config, pc: InjectorPc): nat
    requires c.Valid() && InjOk(c, pc)
  {
    match pc
    case Inject(pos) => InjectCost(c, pos)
    case InjRaise(pos, j) => |c.next[c.inject[pos]]| - j + SendCost(c, c.inject[pos]) + InjectCost(c, pos + 1)
    case InjSend(pos) => SendCost(c, c.inject[pos]) + InjectCost(c, pos + 1)
  }

  function Pools(c: Config, unlocked: seq<seq<Who>>): (r: seq<int>)
    requires |unlocked| == |c.next| == |c.split|
    ensures |r| == |unlocked|
    ensures forall e :: 0 <= e < |r| ==> r[e] == if unlocked[e] == [] then GenCost(c, e) else 0
  {
    seq(|unlocked|, e requires 0 <= e < |unlocked| => if unlocked[e] == [] then GenCost(c, e) else 0)
  }

  ghost function Measure(c: Config, s: State): int
    requires Shape(c, s)
  {
    Sum(Pools(c, s.unlocked)) + Sum(Lefts(c, s.splits)) + InjectorLeft(c, s.inj)
  }

  lemma {:induction false} SumNonNegative(s: seq<int>)
    requires forall i :: 0 <= i < |s| ==> s[i] >= 0
    ensures Sum(s) >= 0
  {
    var zero := seq(|s|, _ => 0);
    SumConst(zero, 0);
    SumDominated(zero, s);
  }

  lemma MeasureNonNegative(c: Config, s: State)
    requires Shape(c, s)
    ensures Measure(c, s) >= 0
  {
    SumNonNegative(Pools(c, s.unlocked));
    forall p | 0 <= p < |s.splits| ensures Lefts(c, s.splits)[p] >= 0 {
      SumNonNegative(LeftRow(c, p, s.splits[p]));
    }
    SumNonNegative(Lefts(c, s.splits));
  }

  lemma LeftsMove(c: Config, splits: seq<seq<Pc>>, p: nat, k: nat, pc: Pc)
    requires SplitsOk(c, splits) && p < |splits| && k < |splits[p]| && PcOk(c, p, pc)
    ensures SplitsOk(c, splits[p := splits[p][k := pc]])
    ensures Sum(Lefts(c, splits[p := splits[p][k := pc]]))
         == Sum(Lefts(c, splits)) - Left(c, p, splits[p][k]) + Left(c, p, pc)
  {
    var row, more := LeftRow(c, p, splits[p]), splits[p][k := pc];
    SumUpdate(row, k, Left(c, p, pc));
    assert LeftRow(c, p, more) == row[k := Left(c, p, pc)];
    SumUpdate(Lefts(c, splits), p, Sum(LeftRow(c, p, more)));
    assert Lefts(c, splits[p := more]) == Lefts(c, splits)[p := Sum(LeftRow(c, p, more))];
  }

  lemma LeftsSpawn(c: Config, s: State, e: nat)
    requires SplitsOk(c, s.splits) && e < |c.next|
    ensures SplitsOk(c, Spawn(c, s, e).splits)
    ensures Sum(Lefts(c, Spawn(c, s, e).splits)) == Sum(Lefts(c, s.splits)) + SendCost(c, e) - 1
  {
    var added := seq(c.split[e], _ => Pending);
    var more := s.splits[e] + added;
    SumAppend(LeftRow(c, e, s.splits[e]), LeftRow(c, e, added));
    SumConst(LeftRow(c, e, added), TaskCost(c, e));
    assert LeftRow(c, e, more) == LeftRow(c, e, s.splits[e]) + LeftRow(c, e, added);
    SumUpdate(Lefts(c, s.splits), e, Sum(LeftRow(c, e, more)));
    assert Lefts(c, s.splits[e := more]) == Lefts(c, s.splits)[e := Sum(LeftRow(c, e, more))];
  }

  lemma PoolsSpent(c: Config, unlocked: seq<seq<Who>>, e: nat, w: Who)
    requires |unlocked| == |c.next| == |c.split| && e < |unlocked| && unlocked[e] == []
    ensures Sum(Pools(c, unlocked[e := unlocked[e] + [w]])) == Sum(Pools(c, unlocked)) - GenCost(c, e)
  {
    SumUpdate(Pools(c, unlocked), e, 0);
    assert Pools(c, unlocked[e := unlocked[e] + [w]]) == Pools(c, unlocked)[e := 0];
  }

  lemma MeasureSplit(c: Config, s: State, p: nat, k: nat)
    requires Shape(c, s) && CanStep(c, s, Split(p, k))
    requires forall e :: 0 <= e < |c.next| ==> |SplitStep(c, s, p, k).unlocked[e]| <= 1
    ensures Measure(c, SplitStep(c, s, p, k)) < Measure(c, s)
  {
    hide Sum, Pools, Lefts, GenCost, InjectorLeft;
    var t := SplitStep(c, s, p, k);
    var pc := s.splits[p][k];
    assert PcOk(c, p, pc);
    match pc
    case Pending => LeftsMove(c, s.splits, p, k, Running);
    case Running => LeftsMove(c, s.splits, p, k, Add(0));
    case Add(i) => LeftsMove(c, s.splits, p, k, Load(i, s.stat[c.next[p][i]] + 1));
    case Load(i, seen) =>
      var e := c.next[p][i];
      LeftsMove(c, s.splits, p, k, AfterLoad(c, s, p, i, seen));
      if seen == s.count[e] {
        assert |t.unlocked[e]| <= 1 && t.unlocked[e] == s.unlocked[e] + [Split(p, k)];
        PoolsSpent(c, s.unlocked, e, Split(p, k));
        assert GenCost(c, e) >= 0 && GenCost(c, e) == |c.next[e]| + SendCost(c, e) by { GenCostIs(c, e); }
      }
    case Raise(i, j) => LeftsMove(c, s.splits, p, k, AfterRaise(c, p, i, j));
    case Send(i) =>
      LeftsMove(c, s.splits, p, k, Add(i + 1));
      LeftsSpawn(c, Move(s, p, k, Add(i + 1)), c.next[p][i]);
  }

  lemma GenCostIs(c: Config, e: nat)
    requires e < |c.next| == |c.split|
    ensures GenCost(c, e) == |c.next[e]| + SendCost(c, e)
  {
  }

  lemma MeasureInjector(c: Config, s: State)
    requires Shape(c, s) && CanStep(c, s, Injector)
    ensures Measure(c, InjectorStep(c, s)) < Measure(c, s)
  {
    hide Sum, Pools, Lefts;
    if s.inj.InjSend? {
      LeftsSpawn(c, s, c.inject[s.inj.pos]);
    }
  }

  lemma MeasureStep(c: Config, s: State, w: Who)
    requires Shape(c, s) && CanStep(c, s, w)
    requires forall e :: 0 <= e < |c.next| ==> |Step(c, s, w).unlocked[e]| <= 1
    ensures 0 <= Measure(c, Step(c, s, w)) < Measure(c, s)
  {
    hide Measure;
    MeasureNonNegative(c, Step(c, s, w));
    match w
    case Injector => MeasureInjector(c, s);
    case Split(p, k) => MeasureSplit(c, s, p, k);
  }
}
