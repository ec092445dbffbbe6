// What the packer's packets look like: which elements share one, and where their data lies.
module PacketLayout {
  import opened SectionTiling
  import opened SectionWriter
  import opened SectionPacker

  // ---- One packet ----

  function Tracked(cfg: Config, items: seq<Item>): nat {
    if items == [] then PKG_HDR
    else Tracked(cfg, items[..|items| - 1]) + TrackedLen(cfg, items[|items| - 1].elm)
  }

  function Start(it: Item): int {
    it.desc.iq_buffer_offset
  }

  function End(cfg: Config, it: Item): int {
    Start(it) + Body(cfg, it.elm)
  }

  // Consecutive members leave exactly one section header between them, and the length recorded for a
  // member reaches from the start of the packet's first data to the end of its own.
  predicate MemberOk(cfg: Config, items: seq<Item>, j: nat)
    requires j < |items|
  {
    && items[j].desc.section_pos == (if j == 0 then 1 else 2)
    && (j > 0 ==> Start(items[j]) == End(cfg, items[j - 1]) + SectionHdrLen(cfg, items[j].elm))
    && Start(items[0]) + items[j].desc.iq_buffer_len == End(cfg, items[j])
  }

  ghost predicate PacketOk(cfg: Config, items: seq<Item>) {
    && |items| > 0
    && (forall j :: 0 <= j < |items| ==> MemberOk(cfg, items, j))
    && (|items| == 1 || Tracked(cfg, items) <= cfg.mtu)
    && (cfg.base + Start(items[0])) % 64 == 0
  }

  // Data at `start` leaves room behind `end` for the headers of a packet, and no more than it takes to
  // start at a multiple of 64.
  predicate RoomFor(end: int, start: int, cfg: Config, e: PrbElm) {
    var room := HEADROOM + ECPRI_HDR + RADIO_APP_HDR + SectionHdrLen(cfg, e);
    end + room <= start < end + room + 64
  }

  // A later packet starts behind the room for its headers, and was opened only because its first
  // element did not fit the packet before.
  predicate FollowsOk(cfg: Config, packets: seq<seq<Item>>, k: nat)
    requires 0 < k < |packets|
  {
    var prev, next := packets[k - 1], packets[k];
    && prev != [] && next != []
    && RoomFor(End(cfg, prev[|prev| - 1]), Start(next[0]), cfg, next[0].elm)
    && Tracked(cfg, prev) + TrackedLen(cfg, next[0].elm) > cfg.mtu
  }

  ghost predicate PacketsOk(cfg: Config, packets: seq<seq<Item>>) {
    && (forall k :: 0 <= k < |packets| ==> PacketOk(cfg, packets[k]))
    && (forall k :: 0 < k < |packets| ==> FollowsOk(cfg, packets, k))
  }

  // The running variables describe the packet being filled.
  ghost predicate Current(cfg: Config, st: State) {
    if st.packets == [] then st.pkgLen == 0 && st.dst % 64 == 0 && st.dst >= cfg.base
    else
      var last := st.packets[|st.packets| - 1];
      && last != []
      && st.dst - cfg.base == End(cfg, last[|last| - 1])
      && st.iqLen == last[|last| - 1].desc.iq_buffer_len
      && st.pkgLen == Tracked(cfg, last)
  }

  ghost predicate Inv(cfg: Config, st: State) {
    PacketsOk(cfg, st.packets) && Current(cfg, st)
  }

  // ---- Every step keeps the layout ----

  lemma TrackedOne(cfg: Config, it: Item)
    ensures Tracked(cfg, [it]) == PKG_HDR + TrackedLen(cfg, it.elm)
  {
    assert [it][..0] == [];
  }

  lemma TrackedSnoc(cfg: Config, items: seq<Item>, it: Item)
    ensures Tracked(cfg, items + [it]) == Tracked(cfg, items) + TrackedLen(cfg, it.elm)
  {
    assert (items + [it])[..|items|] == items;
  }

  lemma {:induction false} TrackedPositive(cfg: Config, items: seq<Item>)
    ensures Tracked(cfg, items) >= PKG_HDR
    decreases |items|
  {
    if items != [] {
      TrackedPositive(cfg, items[..|items| - 1]);
    }
  }

  lemma OnePacket(cfg: Config, it: Item)
    requires it.desc.section_pos == 1 && it.desc.iq_buffer_len == Body(cfg, it.elm)
    requires (cfg.base + Start(it)) % 64 == 0
    ensures PacketOk(cfg, [it])
  {
  }

  lemma NewPacketInv(cfg: Config, st: State, e: PrbElm, i: nat, dst: nat)
    requires Inv(cfg, st) && i < |st.descs|
    requires dst % 64 == 0
    requires st.packets != [] ==>
      && RoomFor(st.dst, dst, cfg, e)
      && st.pkgLen + TrackedLen(cfg, e) > cfg.mtu
    ensures Inv(cfg, NewPacket(cfg, st, e, i, dst))
  {
    var t := NewPacket(cfg, st, e, i, dst);
    var n := |st.packets|;
    var it := Item(i, e, Descriptor(cfg, e, dst, 0, 1));
    assert t.packets == st.packets + [[it]];
    TrackedOne(cfg, it);
    hide TrackedLen, Body, SectionHdrLen, Tracked;
    OnePacket(cfg, it);
    assert PacketOk(cfg, t.packets[n]);
    if n > 0 {
      assert FollowsOk(cfg, t.packets, n);
    }
    SamePackets(cfg, st.packets, t.packets, n);
  }

  // The packets before n are untouched.
  lemma SamePackets(cfg: Config, before: seq<seq<Item>>, after: seq<seq<Item>>, n: nat)
    requires n <= |before| && n <= |after| && PacketsOk(cfg, before)
    requires forall k :: 0 <= k < n ==> after[k] == before[k]
    ensures forall k :: 0 <= k < n ==> PacketOk(cfg, after[k])
    ensures forall k :: 0 < k < n ==> FollowsOk(cfg, after, k)
  {
    hide PacketOk;
    hide Tracked, TrackedLen, Body, SectionHdrLen;
    forall k | 0 < k < n ensures FollowsOk(cfg, after, k) {
      assert FollowsOk(cfg, before, k);
      assert after[k] == before[k] && after[k - 1] == before[k - 1];
    }
  }

  // One more member at the end of a packet.
  lemma LongerPacket(cfg: Config, items: seq<Item>, it: Item)
    requires PacketOk(cfg, items)
    requires Tracked(cfg, items) + TrackedLen(cfg, it.elm) <= cfg.mtu
    requires var prev := items[|items| - 1];
      && it.desc.section_pos == 2
      && Start(it) == End(cfg, prev) + SectionHdrLen(cfg, it.elm)
      && it.desc.iq_buffer_len == prev.desc.iq_buffer_len + SectionHdrLen(cfg, it.elm) + Body(cfg, it.elm)
    ensures PacketOk(cfg, items + [it])
  {
    TrackedSnoc(cfg, items, it);
    hide Tracked, TrackedLen, Body, SectionHdrLen;
    var all, n := items + [it], |items|;
    assert MemberOk(cfg, items, n - 1);
    forall j | 0 <= j < |all| ensures MemberOk(cfg, all, j) {
      if j < n {
        assert MemberOk(cfg, items, j);
        assert all[j] == items[j] && (j > 0 ==> all[j - 1] == items[j - 1]) && all[0] == items[0];
      }
    }
  }

  lemma AppendInv(cfg: Config, st: State, e: PrbElm, i: nat)
    requires Inv(cfg, st) && i < |st.descs| && st.packets != []
    requires st.pkgLen + TrackedLen(cfg, e) <= cfg.mtu
    ensures Inv(cfg, Append(cfg, st, e, i))
  {
    var t := Append(cfg, st, e, i);
    var n := |st.packets| - 1;
    var it := Item(i, e, Descriptor(cfg, e, st.dst + SectionHdrLen(cfg, e), st.iqLen + SectionHdrLen(cfg, e), 2));
    var last := st.packets[n];
    assert t.packets == st.packets[n := last + [it]];
    assert PacketOk(cfg, last);
    hide TrackedLen, Body, SectionHdrLen, Tracked;
    TrackedSnoc(cfg, last, it);
    LongerPacket(cfg, last, it);
    SamePackets(cfg, st.packets, t.packets, n);
    if n > 0 {
      assert FollowsOk(cfg, st.packets, n);
      assert t.packets[n][0] == last[0] && t.packets[n - 1] == st.packets[n - 1];
      assert FollowsOk(cfg, t.packets, n);
    }
  }

  lemma {:induction false} PackInv(cfg: Config, elms: seq<PrbElm>, sym: nat, n: nat, descs: seq<SecDesc>)
    requires 0 < |elms| <= |descs| && n <= |elms|
    ensures Inv(cfg, Pack(cfg, elms, sym, n, descs))
    decreases n
  {
    if n > 0 {
      PackInv(cfg, elms, sym, n - 1, descs);
      var st := Pack(cfg, elms, sym, n - 1, descs);
      hide Inv, Pack, NewPacket, Append, TrackedLen, SectionHdrLen, Duplicate, Scheduled;
      StepInv(cfg, elms, sym, n - 1, st);
      assert Pack(cfg, elms, sym, n, descs) == Step(cfg, elms, sym, n - 1, st);
    }
  }

  lemma StepInv(cfg: Config, elms: seq<PrbElm>, sym: nat, i: nat, st: State)
    requires i < |elms| <= |st.descs| && Inv(cfg, st) && (st.pkgLen != 0 ==> st.packets != [])
    ensures Inv(cfg, Step(cfg, elms, sym, i, st))
  {
    if Placed(elms, sym, i) {
      PlaceInv(cfg, st, elms[i], i);
    } else {
      hide PacketsOk;
    }
  }

  // A packet is being filled exactly when its tracked length is not 0.
  lemma OpenPacket(cfg: Config, st: State)
    requires Inv(cfg, st)
    ensures st.pkgLen == 0 <==> st.packets == []
  {
    hide PacketsOk;
    if st.packets != [] {
      TrackedPositive(cfg, st.packets[|st.packets| - 1]);
    }
  }

  lemma PlaceInv(cfg: Config, st: State, e: PrbElm, i: nat)
    requires i < |st.descs| && Inv(cfg, st) && (st.pkgLen != 0 ==> st.packets != [])
    ensures Inv(cfg, Place(cfg, st, e, i))
  {
    OpenPacket(cfg, st);
    assert st.packets == [] ==> st.dst % 64 == 0;
    hide Inv, NewPacket, Append, TrackedLen, SectionHdrLen;
    if st.pkgLen == 0 {
      NewPacketInv(cfg, st, e, i, st.dst);
    } else if st.pkgLen + TrackedLen(cfg, e) > cfg.mtu {
      NewPacketInv(cfg, st, e, i, AddHdrOffset(cfg, st.dst, e));
    } else {
      AppendInv(cfg, st, e, i);
    }
  }

  // The first packet starts behind the room for its headers, laid out for the first element of the map.
  lemma {:induction false} FirstPacket(cfg: Config, elms: seq<PrbElm>, sym: nat, n: nat, descs: seq<SecDesc>)
    requires 0 < |elms| <= |descs| && n <= |elms|
    ensures var st := Pack(cfg, elms, sym, n, descs);
      if st.packets == [] then RoomFor(cfg.base, st.dst, cfg, elms[0])
      else st.packets[0] != [] && RoomFor(0, Start(st.packets[0][0]), cfg, elms[0])
    decreases n
  {
    if n > 0 {
      FirstPacket(cfg, elms, sym, n - 1, descs);
      PackStep(cfg, elms, sym, n, descs);
      var st := Pack(cfg, elms, sym, n - 1, descs);
      PackInv(cfg, elms, sym, n - 1, descs);
      OpenPacket(cfg, st);
      hide Pack, Placed, RoomFor, Inv;
      if Placed(elms, sym, n - 1) {
        FirstKept(cfg, st, elms, n - 1);
        StepPlaces(cfg, elms, sym, n - 1, st);
      } else {
        StepSkips(cfg, elms, sym, n - 1, st);
      }
    }
  }

  lemma FirstKept(cfg: Config, st: State, elms: seq<PrbElm>, i: nat)
    requires i < |elms| <= |st.descs| && (st.pkgLen == 0 <==> st.packets == [])
    requires if st.packets == [] then RoomFor(cfg.base, st.dst, cfg, elms[0])
             else st.packets[0] != [] && RoomFor(0, Start(st.packets[0][0]), cfg, elms[0])
    ensures var t := Place(cfg, st, elms[i], i);
      && t.packets != [] && t.packets[0] != [] && RoomFor(0, Start(t.packets[0][0]), cfg, elms[0])
  {
    hide TrackedLen, Body, SectionHdrLen, AddHdrOffset, ElementWrites;
  }

  // ---- What the descriptors say ----

  // The packets hold the placed elements, in order, with the descriptors the packer left behind.
  ghost predicate Recorded(elms: seq<PrbElm>, sym: nat, st: State, n: nat) {
    forall k, j :: 0 <= k < |st.packets| && 0 <= j < |st.packets[k]| ==>
      RecordedItem(elms, sym, st.descs, n, st.packets[k][j])
  }

  predicate RecordedItem(elms: seq<PrbElm>, sym: nat, descs: seq<SecDesc>, n: nat, it: Item) {
    && it.index < n && it.index < |elms| && it.index < |descs|
    && it.elm == elms[it.index] && it.desc == descs[it.index] && Placed(elms, sym, it.index)
  }

  function Indices(items: seq<Item>): seq<nat> {
    if items == [] then [] else Indices(items[..|items| - 1]) + [items[|items| - 1].index]
  }

  function AllIndices(packets: seq<seq<Item>>): seq<nat> {
    if packets == [] then [] else AllIndices(packets[..|packets| - 1]) + Indices(packets[|packets| - 1])
  }

  function PlacedIndices(elms: seq<PrbElm>, sym: nat, n: nat): seq<nat>
    requires n <= |elms|
  {
    if n == 0 then [] else PlacedIndices(elms, sym, n - 1) + if Placed(elms, sym, n - 1) then [n - 1] else []
  }

  lemma IndicesOne(it: Item)
    ensures Indices([it]) == [it.index]
  {
    assert [it][..0] == [];
  }

  lemma PlaceIndices(cfg: Config, st: State, e: PrbElm, i: nat)
    requires i < |st.descs| && (st.pkgLen != 0 ==> st.packets != [])
    ensures AllIndices(Place(cfg, st, e, i).packets) == AllIndices(st.packets) + [i]
  {
    hide TrackedLen, Body, SectionHdrLen, AddHdrOffset, ElementWrites;
    var t := Place(cfg, st, e, i);
    var n := |st.packets|;
    if |t.packets| > n {
      var it := t.packets[n][0];
      assert t.packets == st.packets + [[it]] && t.packets[..n] == st.packets;
      IndicesOne(it);
    } else {
      var last := st.packets[n - 1];
      var it := t.packets[n - 1][|last|];
      assert t.packets[n - 1] == last + [it] && (last + [it])[..|last|] == last;
      assert t.packets[..n - 1] == st.packets[..n - 1];
      assert AllIndices(st.packets[..n - 1]) + (Indices(last) + [i])
          == AllIndices(st.packets[..n - 1]) + Indices(last) + [i];
    }
  }

  lemma StepPlaces(cfg: Config, elms: seq<PrbElm>, sym: nat, i: nat, st: State)
    requires i < |elms| <= |st.descs| && (st.pkgLen != 0 ==> st.packets != []) && Placed(elms, sym, i)
    ensures Step(cfg, elms, sym, i, st) == Place(cfg, st, elms[i], i)
  {
    hide Place;
  }

  lemma StepSkips(cfg: Config, elms: seq<PrbElm>, sym: nat, i: nat, st: State)
    requires i < |elms| <= |st.descs| && (st.pkgLen != 0 ==> st.packets != []) && !Placed(elms, sym, i)
    ensures var t := Step(cfg, elms, sym, i, st);
      && t.packets == st.packets && t.writes == st.writes
      && t.dst == st.dst && t.iqLen == st.iqLen && t.pkgLen == st.pkgLen
  {
    hide Place;
  }

  lemma NextPlaced(elms: seq<PrbElm>, sym: nat, n: nat)
    requires 0 < n <= |elms|
    ensures PlacedIndices(elms, sym, n)
         == if Placed(elms, sym, n - 1) then PlacedIndices(elms, sym, n - 1) + [n - 1]
            else PlacedIndices(elms, sym, n - 1)
  {
    hide Placed;
    assert PlacedIndices(elms, sym, n - 1) + [] == PlacedIndices(elms, sym, n - 1);
  }

  // Every element that is scheduled and no duplicate is in exactly one packet, in order.
  lemma {:induction false} AllPlacedInOrder(cfg: Config, elms: seq<PrbElm>, sym: nat, n: nat, descs: seq<SecDesc>)
    requires 0 < |elms| <= |descs| && n <= |elms|
    ensures AllIndices(Pack(cfg, elms, sym, n, descs).packets) == PlacedIndices(elms, sym, n)
    decreases n
  {
    if n > 0 {
      AllPlacedInOrder(cfg, elms, sym, n - 1, descs);
      var st := Pack(cfg, elms, sym, n - 1, descs);
      PackStep(cfg, elms, sym, n, descs);
      NextPlaced(elms, sym, n);
      hide Place, Pack, Step, Placed, AllIndices, PlacedIndices;
      if Placed(elms, sym, n - 1) {
        StepPlaces(cfg, elms, sym, n - 1, st);
        PlaceIndices(cfg, st, elms[n - 1], n - 1);
      } else {
        StepSkips(cfg, elms, sym, n - 1, st);
      }
    }
  }

  lemma PackStep(cfg: Config, elms: seq<PrbElm>, sym: nat, n: nat, descs: seq<SecDesc>)
    requires 0 < |elms| <= |descs| && 0 < n <= |elms|
    ensures Pack(cfg, elms, sym, n, descs) == Step(cfg, elms, sym, n - 1, Pack(cfg, elms, sym, n - 1, descs))
  {
  }

  lemma {:induction false} PlacedListed(elms: seq<PrbElm>, sym: nat, n: nat, i: nat)
    requires n <= |elms|
    ensures i in PlacedIndices(elms, sym, n) <==> i < n && Placed(elms, sym, i)
    decreases n
  {
    hide Placed;
    if n > 0 {
      PlacedListed(elms, sym, n - 1, i);
    }
  }

  // Which elements go into packets: those scheduled for the symbol, except one for a set of resource
  // elements that repeats the PRBs and the symbols of the element before it.
  lemma PlacedExactly(cfg: Config, elms: seq<PrbElm>, sym: nat, n: nat, descs: seq<SecDesc>, i: nat)
    requires 0 < |elms| <= |descs| && i < n <= |elms|
    ensures i in AllIndices(Pack(cfg, elms, sym, n, descs).packets) <==>
      var e := elms[i];
      && e.nStartSymb <= sym < e.nStartSymb + e.numSymb
      && (i == 0 || e.reMask == 0
          || (e.UP_nRBStart, e.UP_nRBSize, e.nStartSymb, e.numSymb)
             != (elms[i - 1].UP_nRBStart, elms[i - 1].UP_nRBSize, elms[i - 1].nStartSymb, elms[i - 1].numSymb))
  {
    AllPlacedInOrder(cfg, elms, sym, n, descs);
    PlacedListed(elms, sym, n, i);
    hide Pack, AllIndices, PlacedIndices;
  }

  lemma PlaceRecorded(cfg: Config, elms: seq<PrbElm>, sym: nat, st: State, i: nat)
    requires i < |elms| <= |st.descs| && (st.pkgLen != 0 ==> st.packets != [])
    requires Recorded(elms, sym, st, i) && Placed(elms, sym, i)
    ensures Recorded(elms, sym, Place(cfg, st, elms[i], i), i + 1)
  {
    hide Placed, TrackedLen, Body, SectionHdrLen, AddHdrOffset, ElementWrites;
    var t := Place(cfg, st, elms[i], i);
    var n := |st.packets|;
    forall k, j | 0 <= k < |t.packets| && 0 <= j < |t.packets[k]|
      ensures RecordedItem(elms, sym, t.descs, i + 1, t.packets[k][j])
    {
      if k < n && j < |st.packets[k]| {
        assert RecordedItem(elms, sym, st.descs, i, st.packets[k][j]);
        assert t.packets[k][j] == st.packets[k][j];
      }
    }
  }

  lemma {:induction false} DescriptorsRecorded(cfg: Config, elms: seq<PrbElm>, sym: nat, n: nat, descs: seq<SecDesc>)
    requires 0 < |elms| <= |descs| && n <= |elms|
    ensures Recorded(elms, sym, Pack(cfg, elms, sym, n, descs), n)
    decreases n
  {
    if n > 0 {
      DescriptorsRecorded(cfg, elms, sym, n - 1, descs);
      var st := Pack(cfg, elms, sym, n - 1, descs);
      PackStep(cfg, elms, sym, n, descs);
      hide Place, Pack;
      if Placed(elms, sym, n - 1) {
        PlaceRecorded(cfg, elms, sym, st, n - 1);
      } else {
        var t := Step(cfg, elms, sym, n - 1, st);
        assert t.packets == st.packets;
        forall k, j | 0 <= k < |t.packets| && 0 <= j < |t.packets[k]|
          ensures RecordedItem(elms, sym, t.descs, n, t.packets[k][j])
        {
          assert RecordedItem(elms, sym, st.descs, n - 1, st.packets[k][j]);
        }
      }
    }
  }

  // The writes the descriptors of a packet stand for.
  function PacketWrites(cfg: Config, items: seq<Item>): seq<Write> {
    if items == [] then []
    else
      var it := items[|items| - 1];
      PacketWrites(cfg, items[..|items| - 1])
      + if cfg.base + Start(it) >= 0 then ElementWrites(cfg, it.elm, cfg.base + Start(it)) else []
  }

  function AllWrites(cfg: Config, packets: seq<seq<Item>>): seq<Write> {
    if packets == [] then []
    else AllWrites(cfg, packets[..|packets| - 1]) + PacketWrites(cfg, packets[|packets| - 1])
  }

  lemma PacketWritesOne(cfg: Config, it: Item)
    requires cfg.base + Start(it) >= 0
    ensures PacketWrites(cfg, [it]) == ElementWrites(cfg, it.elm, cfg.base + Start(it))
  {
    hide ElementWrites;
    assert [it][..0] == [];
    assert PacketWrites(cfg, []) == [];
  }

  lemma PlaceWrites(cfg: Config, st: State, e: PrbElm, i: nat)
    requires i < |st.descs| && (st.pkgLen != 0 ==> st.packets != []) && st.writes == AllWrites(cfg, st.packets)
    ensures var t := Place(cfg, st, e, i); t.writes == AllWrites(cfg, t.packets)
  {
    hide TrackedLen, Body, SectionHdrLen, AddHdrOffset, ElementWrites;
    var t := Place(cfg, st, e, i);
    var n := |st.packets|;
    if |t.packets| > n {
      var it := t.packets[n][0];
      assert t.packets == st.packets + [[it]] && t.packets[..n] == st.packets;
      PacketWritesOne(cfg, it);
    } else {
      var last := st.packets[n - 1];
      var it := t.packets[n - 1][|last|];
      assert t.packets[n - 1] == last + [it] && (last + [it])[..|last|] == last;
      assert t.packets[..n - 1] == st.packets[..n - 1];
      var more := ElementWrites(cfg, it.elm, cfg.base + Start(it));
      assert AllWrites(cfg, st.packets[..n - 1]) + (PacketWrites(cfg, last) + more)
          == AllWrites(cfg, st.packets[..n - 1]) + PacketWrites(cfg, last) + more;
    }
  }

  // Everything written lies where the descriptors say, packet by packet, and nothing else is written.
  lemma {:induction false} WritesWhereDescribed(cfg: Config, elms: seq<PrbElm>, sym: nat, n: nat, descs: seq<SecDesc>)
    requires 0 < |elms| <= |descs| && n <= |elms|
    ensures var st := Pack(cfg, elms, sym, n, descs); st.writes == AllWrites(cfg, st.packets)
    decreases n
  {
    if n > 0 {
      WritesWhereDescribed(cfg, elms, sym, n - 1, descs);
      var st := Pack(cfg, elms, sym, n - 1, descs);
      PackStep(cfg, elms, sym, n, descs);
      hide Place, Pack, Step, Placed, AllWrites;
      if Placed(elms, sym, n - 1) {
        StepPlaces(cfg, elms, sym, n - 1, st);
        PlaceWrites(cfg, st, elms[n - 1], n - 1);
      } else {
        StepSkips(cfg, elms, sym, n - 1, st);
      }
    }
  }

  lemma PlaceOthers(cfg: Config, st: State, e: PrbElm, i: nat, k: nat)
    requires i < |st.descs| && k < |st.descs| && k != i && (st.pkgLen != 0 ==> st.packets != [])
    ensures |Place(cfg, st, e, i).descs| == |st.descs| && Place(cfg, st, e, i).descs[k] == st.descs[k]
  {
    hide TrackedLen, Body, SectionHdrLen, AddHdrOffset, ElementWrites;
  }

  // Elements that are not placed: a duplicate keeps its descriptor, an unscheduled one is emptied, and
  // those not yet reached are untouched.
  lemma {:induction false} OthersCleared(cfg: Config, elms: seq<PrbElm>, sym: nat, n: nat, descs: seq<SecDesc>, k: nat)
    requires 0 < |elms| <= |descs| && n <= |elms| && k < |elms| && (k < n ==> !Placed(elms, sym, k))
    ensures Pack(cfg, elms, sym, n, descs).descs[k]
         == if k >= n || Duplicate(elms, k) then descs[k] else SecDesc(descs[k].section_pos, 0, 0)
    decreases n
  {
    if n > 0 {
      OthersCleared(cfg, elms, sym, n - 1, descs, k);
      var st := Pack(cfg, elms, sym, n - 1, descs);
      PackStep(cfg, elms, sym, n, descs);
      hide Place, Pack;
      if Placed(elms, sym, n - 1) {
        PlaceOthers(cfg, st, elms[n - 1], n - 1, k);
      }
    }
  }

  // ---- The fields of a descriptor have 16 bits ----

  predicate FitsAt(cfg: Config, it: Item, dst: nat) {
    0 <= Start(it) && 0 <= it.desc.iq_buffer_len <= End(cfg, it) <= dst - cfg.base
  }

  ghost predicate Within(cfg: Config, st: State) {
    && 0 <= st.iqLen <= st.dst - cfg.base
    && forall k, j :: 0 <= k < |st.packets| && 0 <= j < |st.packets[k]| ==> FitsAt(cfg, st.packets[k][j], st.dst)
  }

  lemma PlaceWithin(cfg: Config, st: State, e: PrbElm, i: nat)
    requires i < |st.descs| && (st.pkgLen != 0 ==> st.packets != []) && Within(cfg, st)
    ensures Within(cfg, Place(cfg, st, e, i)) && Place(cfg, st, e, i).dst >= st.dst
  {
    hide TrackedLen, Body, SectionHdrLen, AlignUp, ElementWrites;
    var t := Place(cfg, st, e, i);
    var n := |st.packets|;
    forall k, j | 0 <= k < |t.packets| && 0 <= j < |t.packets[k]| ensures FitsAt(cfg, t.packets[k][j], t.dst) {
      if k < n && j < |st.packets[k]| {
        assert FitsAt(cfg, st.packets[k][j], st.dst);
        assert t.packets[k][j] == st.packets[k][j];
      }
    }
  }

  // Offsets and lengths never exceed what is used of the symbol buffer: they are exact in 16 signed bits
  // as long as that is less than 32768 bytes.
  lemma {:induction false} OffsetsWithinBuffer(cfg: Config, elms: seq<PrbElm>, sym: nat, n: nat, descs: seq<SecDesc>)
    requires 0 < |elms| <= |descs| && n <= |elms|
    ensures Within(cfg, Pack(cfg, elms, sym, n, descs))
    decreases n
  {
    hide Place;
    if n > 0 {
      OffsetsWithinBuffer(cfg, elms, sym, n - 1, descs);
      PackStep(cfg, elms, sym, n, descs);
      var st := Pack(cfg, elms, sym, n - 1, descs);
      hide Pack, FitsAt, Placed;
      if Placed(elms, sym, n - 1) {
        PlaceWithin(cfg, st, elms[n - 1], n - 1);
        StepPlaces(cfg, elms, sym, n - 1, st);
      } else {
        StepSkips(cfg, elms, sym, n - 1, st);
      }
    }
  }
}
