// The event-chain scheduler of one (cell, slot mod 4, numerology) context, as a state machine.
//
// Every thread is deterministic: a split of an event runs its body and then walks the row of
// its successors, and the TTI callback walks its injection list.  A run is therefore a schedule,
// a sequence of thread names, and every interleaving of the separate fetch-add, count load,
// count increment and send steps is some schedule.
module Scheduler {
  datatype Who = Injector | Split(event: nat, idx: nat)

  // Where a split of an event stands.  `slot` indexes the successor row of its event.
  datatype Pc =
    | Pending                            // sent, not yet picked by a consumer
    | Running                            // executing the body of the task
    | Add(slot: nat)                     // about to fetch-add the status of successor `slot`
    | Load(slot: nat, seen: nat)         // the fetch-add returned `seen`; about to load the count
    | Raise(slot: nat, nxt: nat)         // generating the successor: about to raise its successor `nxt`
    | Send(slot: nat)                    // generating the successor: about to send its splits

  datatype InjectorPc =
    | Inject(pos: nat)
    | InjRaise(pos: nat, nxt: nat)
    | InjSend(pos: nat)

  // next:   successors of each event, the non-negative prefix of its row of the task map
  // wake:   external dependencies of each event
  // split:  number of splits the pre-event function of each event asks for in this slot
  // inject: events the TTI callback generates itself, in order
  datatype Config = Config(next: seq<seq<nat>>, wake: seq<nat>, split: seq<nat>, inject: seq<nat>) {
    ghost predicate Valid() {
      && |wake| == |split| == |next|
      && (forall p, j :: 0 <= p < |next| && 0 <= j < |next[p]| ==> next[p][j] < |next|)
      && (forall p :: 0 <= p < |split| ==> split[p] >= 1)
      && (forall i :: 0 <= i < |inject| ==> inject[i] < |next|)
    }

    // Generating the event raises the counts of its successors first.
    predicate Raises(e: nat)
      requires e < |next| == |split|
    {
      split[e] > 1 && |next[e]| > 0
    }
  }

  // count, stat, splits and inj are the state of the program.  The other fields record history
  // and never influence a step:
  // adders:   who made each fetch-add on an event's status, in order
  // unlocked: who generated an event through next_event_unlock, in order
  // raised:   how many count increments were made on behalf of an event
  datatype State = State(count: seq<nat>, stat: seq<nat>, splits: seq<seq<Pc>>, inj: InjectorPc,
                         adders: seq<seq<Who>>, unlocked: seq<seq<Who>>, raised: seq<nat>)

  ghost predicate PcOk(c: Config, p: nat, pc: Pc)
    requires c.Valid() && p < |c.next|
  {
    match pc
    case Pending => true
    case Running => true
    case Add(i) => i <= |c.next[p]|
    case Load(i, _) => i < |c.next[p]|
    case Raise(i, j) => i < |c.next[p]| && c.Raises(c.next[p][i]) && j < |c.next[c.next[p][i]]|
    case Send(i) => i < |c.next[p]|
  }

  ghost predicate InjOk(c: Config, pc: InjectorPc)
    requires c.Valid()
  {
    match pc
    case Inject(pos) => pos <= |c.inject|
    case InjRaise(pos, j) => pos < |c.inject| && c.Raises(c.inject[pos]) && j < |c.next[c.inject[pos]]|
    case InjSend(pos) => pos < |c.inject|
  }

  ghost predicate Shape(c: Config, s: State) {
    && c.Valid()
    && |s.count| == |s.stat| == |s.splits| == |c.next|
    && |s.adders| == |s.unlocked| == |s.raised| == |c.next|
    && (forall p, k :: 0 <= p < |s.splits| && 0 <= k < |s.splits[p]| ==> PcOk(c, p, s.splits[p][k]))
    && InjOk(c, s.inj)
  }

  predicate Exists(s: State, w: Who) {
    w.Split? ==> w.event < |s.splits| && w.idx < |s.splits[w.event]|
  }

  ghost predicate Finished(c: Config, s: State, w: Who)
    requires Shape(c, s) && Exists(s, w)
  {
    match w
    case Injector => s.inj == Inject(|c.inject|)
    case Split(p, k) => s.splits[p][k] == Add(|c.next[p]|)
  }

  ghost predicate CanStep(c: Config, s: State, w: Who)
    requires Shape(c, s)
  {
    Exists(s, w) && !Finished(c, s, w)
  }

  function Move(s: State, p: nat, k: nat, pc: Pc): State
    requires p < |s.splits| && k < |s.splits[p]|
  {
    s.(splits := s.splits[p := s.splits[p][k := pc]])
  }

  // test_func_gen, the loop body: one atomic add to the count of successor j of e.
  function RaiseOne(c: Config, s: State, e: nat, j: nat): State
    requires e < |c.next| == |c.split| == |s.raised| && j < |c.next[e]|
    requires c.next[e][j] < |s.count| && c.split[e] >= 1
  {
    var x := c.next[e][j];
    s.(count := s.count[x := s.count[x] + c.split[e] - 1], raised := s.raised[e := s.raised[e] + 1])
  }

  // ebbu_pool_send_event: all splits of e become available to the consumers.
  function Spawn(c: Config, s: State, e: nat): State
    requires e < |s.splits| && e < |c.split|
  {
    s.(splits := s.splits[e := s.splits[e] + seq(c.split[e], _ => Pending)])
  }

  // The comparison in next_event_unlock: only the matching ticket generates the successor.
  function AfterLoad(c: Config, s: State, p: nat, i: nat, seen: nat): Pc
    requires p < |c.next| == |c.split| == |s.count| && i < |c.next[p]| && c.next[p][i] < |c.next|
  {
    var e := c.next[p][i];
    if seen != s.count[e] then Add(i + 1) else if c.Raises(e) then Raise(i, 0) else Send(i)
  }

  function AfterRaise(c: Config, p: nat, i: nat, j: nat): Pc
    requires p < |c.next| && i < |c.next[p]| && c.next[p][i] < |c.next|
  {
    if j + 1 < |c.next[c.next[p][i]]| then Raise(i, j + 1) else Send(i)
  }

  ghost function SplitStep(c: Config, s: State, p: nat, k: nat): (t: State)
    requires Shape(c, s) && CanStep(c, s, Split(p, k))
    ensures Shape(c, t)
  {
    match s.splits[p][k]
    case Pending => Move(s, p, k, Running)
    case Running => Move(s, p, k, Add(0))
    case Add(i) =>
      var e := c.next[p][i];
      var v := s.stat[e] + 1;
      Move(s.(stat := s.stat[e := v], adders := s.adders[e := s.adders[e] + [Split(p, k)]]), p, k, Load(i, v))
    case Load(i, seen) =>
      var e := c.next[p][i];
      var pc := AfterLoad(c, s, p, i, seen);
      if seen == s.count[e] then
        Move(s.(unlocked := s.unlocked[e := s.unlocked[e] + [Split(p, k)]]), p, k, pc)
      else
        Move(s, p, k, pc)
    case Raise(i, j) =>
      var e := c.next[p][i];
      Move(RaiseOne(c, s, e, j), p, k, AfterRaise(c, p, i, j))
    case Send(i) => Spawn(c, Move(s, p, k, Add(i + 1)), c.next[p][i])
  }

  ghost function InjectorStep(c: Config, s: State): (t: State)
    requires Shape(c, s) && CanStep(c, s, Injector)
    ensures Shape(c, t)
  {
    match s.inj
    case Inject(pos) => s.(inj := if c.Raises(c.inject[pos]) then InjRaise(pos, 0) else InjSend(pos))
    case InjRaise(pos, j) =>
      var e := c.inject[pos];
      RaiseOne(c, s, e, j).(inj := if j + 1 < |c.next[e]| then InjRaise(pos, j + 1) else InjSend(pos))
    case InjSend(pos) => Spawn(c, s, c.inject[pos]).(inj := Inject(pos + 1))
  }

  ghost function Step(c: Config, s: State, w: Who): (t: State)
    requires Shape(c, s) && CanStep(c, s, w)
    ensures Shape(c, t)
  {
    match w
    case Injector => InjectorStep(c, s)
    case Split(p, k) => SplitStep(c, s, p, k)
  }

  // The chain right after event_chain_reset, before the callback generates its first event.
  ghost function InDegree(c: Config, e: nat): nat {
    InDegreeUpTo(c.next, e, |c.next|)
  }

  ghost function InDegreeUpTo(next: seq<seq<nat>>, e: nat, n: nat): nat
    requires n <= |next|
  {
    if n == 0 then 0 else InDegreeUpTo(next, e, n - 1) + multiset(next[n - 1])[e]
  }

  ghost function Init(c: Config): (s: State)
    requires c.Valid()
    ensures Shape(c, s)
  {
    var n := |c.next|;
    State(seq(n, e requires 0 <= e < n => c.wake[e] + InDegree(c, e)), seq(n, _ => 0), seq(n, _ => []), Inject(0),
          seq(n, _ => []), seq(n, _ => []), seq(n, _ => 0))
  }

  // A schedule is valid from s when every thread it names can step at its turn.
  ghost predicate Runs(c: Config, s: State, schedule: seq<Who>)
    requires Shape(c, s)
    decreases |schedule|
  {
    schedule != [] ==>
      && CanStep(c, s, schedule[0])
      && Runs(c, Step(c, s, schedule[0]), schedule[1..])
  }

  ghost function Run(c: Config, s: State, schedule: seq<Who>): (t: State)
    requires Shape(c, s) && Runs(c, s, schedule)
    ensures Shape(c, t)
    decreases |schedule|
  {
    if schedule == [] then s else Run(c, Step(c, s, schedule[0]), schedule[1..])
  }

  lemma {:induction false} RunAppend(c: Config, s: State, schedule: seq<Who>, w: Who)
    requires Shape(c, s) && Runs(c, s, schedule) && CanStep(c, Run(c, s, schedule), w)
    ensures Runs(c, s, schedule + [w])
    ensures Run(c, s, schedule + [w]) == Step(c, Run(c, s, schedule), w)
    decreases |schedule|
  {
    if schedule == [] {
      assert [w][1..] == [];
    } else {
      RunAppend(c, Step(c, s, schedule[0]), schedule[1..], w);
      assert (schedule + [w])[1..] == schedule[1..] + [w];
    }
  }

  ghost predicate Quiescent(c: Config, s: State)
    requires Shape(c, s)
  {
    forall w :: Exists(s, w) ==> Finished(c, s, w)
  }
}
