// One producer and one consumer on a shared message ring, without locks.
//
// WLS_MsgEnqueue and WLS_MsgDequeue are taken apart into their accesses to shared memory: reading
// the other side's index, writing or copying the four fields of a slot one by one, publishing the
// own index.  Any interleaving of these accesses is a behaviour.
module SpscRing {
  import opened Ring
  import opened MsgQueue

  const FIELDS: nat := 4

  datatype ProducerPc =
    | PIdle
    | PCheck(msg: Msg, put: nat)             // about to read `get` and compare
    | PWrite(msg: Msg, put: nat, field: nat) // about to write one field of slot `put`
    | PPublish(msg: Msg, put: nat)           // about to store the new `put`

  datatype ConsumerPc =
    | CIdle
    | CCheck(get: nat)                       // about to read `put` and compare
    | CCopy(get: nat, field: nat, item: Msg) // about to copy one field of slot `get`
    | CPublish(get: nat, item: Msg)          // about to store the new `get`

  // enqueued and dequeued record what the two sides have completed.
  datatype State = State(slots: seq<Msg>, put: nat, get: nat, prod: ProducerPc, cons: ConsumerPc,
                         enqueued: seq<Msg>, dequeued: seq<Msg>)

  datatype Event = Offer(msg: Msg) | Producer | Take | Consumer

  function CopyField(to: Msg, from: Msg, field: nat): Msg {
    if field == 0 then to.(pIaPaMsg := from.pIaPaMsg)
    else if field == 1 then to.(MsgSize := from.MsgSize)
    else if field == 2 then to.(TypeID := from.TypeID)
    else to.(flags := from.flags)
  }

  function Size(s: State): nat {
    |s.slots|
  }

  predicate Enabled(s: State, ev: Event) {
    match ev
    case Offer(_) => s.prod.PIdle?
    case Producer => !s.prod.PIdle?
    case Take => s.cons.CIdle?
    case Consumer => !s.cons.CIdle?
  }

  // Slots are only touched in range; the invariant shows that this holds whenever they are touched.
  predicate InRange(s: State) {
    && (s.prod.PWrite? ==> s.prod.put < Size(s))
    && (s.cons.CCopy? ==> s.cons.get < Size(s))
  }

  function Step(s: State, ev: Event): State
    requires InRange(s) && Enabled(s, ev)
  {
    match ev
    case Offer(m) => s.(prod := PCheck(m, s.put))
    case Producer => (
      match s.prod
      case PCheck(m, put) => if Next(put, Size(s)) != s.get then s.(prod := PWrite(m, put, 0)) else s.(prod := PIdle)
      case PWrite(m, put, f) =>
        s.(slots := s.slots[put := CopyField(s.slots[put], m, f)],
           prod := if f + 1 < FIELDS then PWrite(m, put, f + 1) else PPublish(m, put))
      case PPublish(m, put) => s.(put := Next(put, Size(s)), prod := PIdle, enqueued := s.enqueued + [m])
    )
    case Take => s.(cons := CCheck(s.get))
    case Consumer => (
      match s.cons
      case CCheck(get) =>
        if get < Size(s) && s.put != get then s.(cons := CCopy(get, 0, Msg(0, 0, 0, 0))) else s.(cons := CIdle)
      case CCopy(get, f, item) =>
        var more := CopyField(item, s.slots[get], f);
        s.(cons := if f + 1 < FIELDS then CCopy(get, f + 1, more) else CPublish(get, more))
      case CPublish(get, item) => s.(get := Next(get, Size(s)), cons := CIdle, dequeued := s.dequeued + [item])
    )
  }

  // The first `field` fields agree.
  predicate AgreeUpTo(a: Msg, b: Msg, field: nat) {
    && (field > 0 ==> a.pIaPaMsg == b.pIaPaMsg)
    && (field > 1 ==> a.MsgSize == b.MsgSize)
    && (field > 2 ==> a.TypeID == b.TypeID)
  }

  ghost predicate ProducerOk(s: State)
    requires s.put < Size(s) && s.get < Size(s)
  {
    match s.prod
    case PIdle => true
    case PCheck(_, put) => put == s.put
    case PWrite(m, put, f) => put == s.put && Next(put, Size(s)) != s.get && f < FIELDS && AgreeUpTo(s.slots[put], m, f)
    case PPublish(m, put) => put == s.put && Next(put, Size(s)) != s.get && s.slots[put] == m
  }

  ghost predicate ConsumerOk(s: State)
    requires s.put < Size(s) && s.get < Size(s)
  {
    match s.cons
    case CIdle => true
    case CCheck(get) => get == s.get
    case CCopy(get, f, item) => get == s.get && get != s.put && f < FIELDS && AgreeUpTo(item, s.slots[get], f)
    case CPublish(get, item) => get == s.get && get != s.put && s.slots[get] == item
  }

  // The ring holds exactly the messages enqueued and not yet dequeued, whatever either side is doing.
  ghost predicate Inv(s: State) {
    && s.put < Size(s) && s.get < Size(s)
    && ProducerOk(s) && ConsumerOk(s)
    && s.enqueued == s.dequeued + Items(s.slots, s.get, s.put)
  }

  // Writing the free slot disturbs no unread item.
  lemma WriteFree(slots: seq<Msg>, get: nat, put: nat, x: Msg)
    requires get < |slots| && put < |slots|
    ensures Items(slots[put := x], get, put) == Items(slots, get, put)
    ensures forall k :: 0 <= k < |Items(slots, get, put)| ==> SlotOf(get, k, |slots|) != put
  {
    if get <= put {
      assert slots[put := x][get..put] == slots[get..put];
    } else {
      assert slots[put := x][get..] == slots[get..];
      assert slots[put := x][..put] == slots[..put];
    }
  }

  lemma ProducerStep(s: State)
    requires Inv(s) && InRange(s) && Enabled(s, Producer)
    ensures Inv(Step(s, Producer))
  {
    match s.prod
    case PCheck(m, put) =>
    case PWrite(m, put, f) => WriteFree(s.slots, s.get, s.put, CopyField(s.slots[put], m, f));
    case PPublish(m, put) =>
      PushItems(s.slots, s.get, s.put, m);
      assert s.slots[put := m] == s.slots;
  }

  lemma ConsumerStep(s: State)
    requires Inv(s) && InRange(s) && Enabled(s, Consumer)
    ensures Inv(Step(s, Consumer))
  {
    if s.cons.CPublish? {
      PopItems(s.slots, s.get, s.put);
      NextDiffers(s.get, s.put, Size(s));
      assert s.dequeued + Items(s.slots, s.get, s.put)
          == (s.dequeued + [s.cons.item]) + Items(s.slots, Next(s.get, Size(s)), s.put);
    }
  }

  lemma NextDiffers(i: nat, j: nat, size: nat)
    requires i < size && j < size && i != j
    ensures Next(i, size) != Next(j, size)
  {
  }

  lemma StepInv(s: State, ev: Event)
    requires Inv(s) && Enabled(s, ev)
    ensures InRange(s) && Inv(Step(s, ev))
  {
    match ev
    case Offer(_) =>
    case Producer => ProducerStep(s);
    case Take =>
    case Consumer => ConsumerStep(s);
  }

  ghost predicate Runs(s: State, events: seq<Event>)
    decreases |events|
  {
    events != [] ==> InRange(s) && Enabled(s, events[0]) && Runs(Step(s, events[0]), events[1..])
  }

  ghost function Run(s: State, events: seq<Event>): State
    requires Runs(s, events)
    decreases |events|
  {
    if events == [] then s else Run(Step(s, events[0]), events[1..])
  }

  function Init(slots: seq<Msg>): State {
    State(slots, 0, 0, PIdle, CIdle, [], [])
  }

  lemma {:induction false} RunInv(s: State, events: seq<Event>)
    requires Inv(s) && Runs(s, events)
    ensures Inv(Run(s, events)) && Size(Run(s, events)) == Size(s)
    decreases |events|
  {
    if events != [] {
      StepInv(s, events[0]);
      RunInv(Step(s, events[0]), events[1..]);
    }
  }

  // For every interleaving: what came out is a prefix of what went in, message for message with all
  // fields intact; the rest is in the ring; and the ring never holds more than size - 1 messages.
  lemma FifoUnderInterleaving(slots: seq<Msg>, events: seq<Event>)
    requires |slots| > 0 && Runs(Init(slots), events)
    ensures var s := Run(Init(slots), events);
      && s.put < Size(s) == |slots| && s.get < Size(s)
      && s.dequeued <= s.enqueued
      && s.enqueued == s.dequeued + Items(s.slots, s.get, s.put)
      && |Items(s.slots, s.get, s.put)| <= |slots| - 1
  {
    RunInv(Init(slots), events);
    var s := Run(Init(slots), events);
    LevelIsCount(s.slots, s.get, s.put);
  }

  // Every write the producer makes goes to a slot that holds no unread message: message k is elsewhere.
  lemma NoOverwrite(slots: seq<Msg>, events: seq<Event>, k: nat)
    requires |slots| > 0 && Runs(Init(slots), events)
    ensures var s := Run(Init(slots), events);
      && s.get < Size(s) && s.put < Size(s)
      && (k < |Items(s.slots, s.get, s.put)| ==>
            && k < Size(s) && Items(s.slots, s.get, s.put)[k] == s.slots[SlotOf(s.get, k, Size(s))]
            && (s.prod.PWrite? ==> SlotOf(s.get, k, Size(s)) != s.prod.put))
  {
    RunInv(Init(slots), events);
    var s := Run(Init(slots), events);
    WriteFree(s.slots, s.get, s.put, Msg(0, 0, 0, 0));
    if k < |Items(s.slots, s.get, s.put)| {
      ItemAt(s.slots, s.get, s.put, k);
    }
  }

  // A side gives up only when the ring really is full, or empty, at the moment it looks.
  lemma GivesUpRightly(s: State)
    requires Inv(s)
    ensures s.prod.PCheck? ==>
      (Step(s, Producer).prod.PIdle? <==> |Items(s.slots, s.get, s.put)| == Size(s) - 1)
    ensures s.cons.CCheck? ==>
      (Step(s, Consumer).cons.CIdle? <==> Items(s.slots, s.get, s.put) == [])
  {
    LevelIsCount(s.slots, s.get, s.put);
  }

  // ---- Operations end ----

  // Own accesses an operation still has to make.
  function ProducerLeft(pc: ProducerPc): nat {
    match pc
    case PIdle => 0
    case PCheck(_, _) => FIELDS + 2
    case PWrite(_, _, f) => if f <= FIELDS then FIELDS - f + 1 else 0
    case PPublish(_, _) => 1
  }

  function ConsumerLeft(pc: ConsumerPc): nat {
    match pc
    case CIdle => 0
    case CCheck(_) => FIELDS + 2
    case CCopy(_, f, _) => if f <= FIELDS then FIELDS - f + 1 else 0
    case CPublish(_, _) => 1
  }

  // Neither side waits for the other: each of its accesses brings an operation one nearer to its end, or
  // gives it up, and nothing the other side does changes where it stands.
  lemma NobodyWaits(s: State, ev: Event)
    requires Inv(s) && Enabled(s, ev) && InRange(s)
    ensures var t := Step(s, ev);
      match ev
      case Offer(m) => t.prod == PCheck(m, s.put) && t.cons == s.cons
      case Producer =>
        && t.cons == s.cons
        && (ProducerLeft(t.prod) == ProducerLeft(s.prod) - 1 || (s.prod.PCheck? && t.prod.PIdle?))
      case Take => t.cons == CCheck(s.get) && t.prod == s.prod
      case Consumer =>
        && t.prod == s.prod
        && (ConsumerLeft(t.cons) == ConsumerLeft(s.cons) - 1 || (s.cons.CCheck? && t.cons.CIdle?))
  {
  }

  // ---- Operations alone ----

  lemma OneEvent(s: State, ev: Event)
    requires InRange(s) && Enabled(s, ev)
    ensures Runs(s, [ev]) && Run(s, [ev]) == Step(s, ev)
  {
    assert [ev][1..] == [];
  }

  // What the ring holds is what the history leaves.
  lemma ItemsOf(s: State)
    requires Inv(s)
    ensures Items(s.slots, s.get, s.put) == s.enqueued[|s.dequeued|..] && s.dequeued <= s.enqueued
  {
  }

  lemma ProducerMoves(s: State) returns (t: State)
    requires Inv(s) && !s.prod.PIdle?
    ensures InRange(s) && t == Step(s, Producer) && Inv(t) && ProducerLeft(t.prod) < ProducerLeft(s.prod)
    ensures t.cons == s.cons && t.get == s.get && t.dequeued == s.dequeued && Size(t) == Size(s)
    ensures !t.prod.PIdle? ==> t.prod.msg == s.prod.msg && t.enqueued == s.enqueued && !t.prod.PCheck?
    ensures t.prod.PIdle? ==>
      if s.prod.PCheck? then t.enqueued == s.enqueued && t.put == s.put && t.slots == s.slots
      else t.enqueued == s.enqueued + [s.prod.msg]
  {
    StepInv(s, Producer);
    t := Step(s, Producer);
  }

  // The producer's operation brought to its end with nobody interfering: what WLS_MsgEnqueue does in
  // MsgQueue.
  lemma {:induction false} OfferAlone(s: State) returns (events: seq<Event>, t: State)
    requires Inv(s) && !s.prod.PIdle?
    ensures Runs(s, events) && t == Run(s, events) && Inv(t) && t.prod.PIdle?
    ensures t.cons == s.cons && t.get == s.get && t.dequeued == s.dequeued && Size(t) == Size(s)
    ensures var full := s.prod.PCheck? && |Items(s.slots, s.get, s.put)| == Size(s) - 1;
      && t.enqueued == (if full then s.enqueued else s.enqueued + [s.prod.msg])
      && Items(t.slots, t.get, t.put)
         == (if full then Items(s.slots, s.get, s.put) else Items(s.slots, s.get, s.put) + [s.prod.msg])
    decreases ProducerLeft(s.prod)
  {
    var u := ProducerMoves(s);
    GivesUpRightly(s);
    if u.prod.PIdle? {
      events, t := [Producer], u;
      OneEvent(s, Producer);
    } else {
      hide Step, Inv, Items;
      var rest;
      rest, t := OfferAlone(u);
      events := [Producer] + rest;
      assert events[1..] == rest;
    }
    ItemsOf(s);
    ItemsOf(t);
  }

  lemma ConsumerMoves(s: State) returns (t: State)
    requires Inv(s) && !s.cons.CIdle?
    ensures InRange(s) && t == Step(s, Consumer) && Inv(t) && ConsumerLeft(t.cons) < ConsumerLeft(s.cons)
    ensures t.prod == s.prod && t.put == s.put && t.slots == s.slots && t.enqueued == s.enqueued
    ensures !t.cons.CIdle? ==> t.dequeued == s.dequeued && t.get == s.get && !t.cons.CCheck?
    ensures t.cons.CIdle? ==> if s.cons.CCheck? then t.dequeued == s.dequeued else |t.dequeued| == |s.dequeued| + 1
  {
    StepInv(s, Consumer);
    t := Step(s, Consumer);
  }

  // The consumer's, which is WLS_MsgDequeue: the oldest item, unless there is none at the check.
  lemma {:induction false} TakeAlone(s: State) returns (events: seq<Event>, t: State)
    requires Inv(s) && !s.cons.CIdle?
    ensures Runs(s, events) && t == Run(s, events) && Inv(t) && t.cons.CIdle?
    ensures t.prod == s.prod && t.put == s.put && t.enqueued == s.enqueued && t.slots == s.slots
    ensures var items := Items(s.slots, s.get, s.put);
      if items == [] then t.dequeued == s.dequeued && Items(t.slots, t.get, t.put) == []
      else t.dequeued == s.dequeued + [items[0]] && Items(t.slots, t.get, t.put) == items[1..]
    decreases ConsumerLeft(s.cons)
  {
    var u := ConsumerMoves(s);
    GivesUpRightly(s);
    NotEmptyOnceChecked(s);
    ItemsOf(s);
    if u.cons.CIdle? {
      events, t := [Consumer], u;
      OneEvent(s, Consumer);
    } else {
      hide Step, Inv, Items;
      var rest;
      rest, t := TakeAlone(u);
      events := [Consumer] + rest;
      assert events[1..] == rest;
    }
    ItemsOf(t);
  }

  lemma NotEmptyOnceChecked(s: State)
    requires Inv(s)
    ensures !s.cons.CIdle? && !s.cons.CCheck? ==> Items(s.slots, s.get, s.put) != []
  {
    LevelIsCount(s.slots, s.get, s.put);
  }
}
