// How long a packet is on the wire, when the length the packer tracks is that length, and exactly when
// packets of several elements stay within the MTU.
module PacketMtu {
  import opened Arith
  import opened SectionTiling
  import opened SectionWriter
  import opened SectionPacker
  import opened PacketLayout

  function Payload(cfg: Config, e: PrbElm, prbs: seq<nat>): nat {
    if prbs == [] then 0 else PayloadLen(cfg, e, prbs[0]) + Payload(cfg, e, prbs[1..])
  }

  // Headers and data an element puts on the wire.  One without sections leaves room for a header.
  function WireLen(cfg: Config, e: PrbElm): nat {
    (if NumSections(e) == 0 then 1 else NumSections(e)) * SectionHdrLen(cfg, e) + Payload(cfg, e, Sections(e))
  }

  function Wire(cfg: Config, items: seq<Item>): nat {
    if items == [] then PKG_HDR
    else Wire(cfg, items[..|items| - 1]) + WireLen(cfg, items[|items| - 1].elm)
  }

  // ---- Tracked length against length on the wire ----

  // The data of an element, section by section, is the data of its total PRB count.
  lemma {:induction false} PayloadOfTotal(cfg: Config, e: PrbElm, prbs: seq<nat>)
    ensures Payload(cfg, e, prbs) == PayloadLen(cfg, e, Total(prbs))
    decreases |prbs|
  {
    if prbs == [] {
      PayloadAdds(cfg, e, 0, 0);
    } else {
      PayloadOfTotal(cfg, e, prbs[1..]);
      PayloadAdds(cfg, e, prbs[0], Total(prbs[1..]));
    }
  }

  lemma ThreePerRb(w: nat, n: nat)
    ensures n * 12 * w * 2 / 8 == 3 * w * n
  {
    EightTimes(w, n);
    EighthOf(3 * w * n);
  }

  lemma EightTimes(w: nat, n: nat)
    ensures n * 12 * w * 2 == 8 * (3 * w * n)
  {
  }

  lemma EighthOf(x: nat)
    ensures 8 * x / 8 == x
  {
  }

  lemma PayloadAdds(cfg: Config, e: PrbElm, a: nat, b: nat)
    ensures PayloadLen(cfg, e, a + b) == PayloadLen(cfg, e, a) + PayloadLen(cfg, e, b)
    ensures e.compMethod == MODULATION ==> PayloadLen(cfg, e, a) == 3 * e.iqWidth * a
  {
    match e.compMethod
    case NONE => RbBytesAdd(cfg, a, b);
    case BLKFLOAT => Distribute(3 * e.iqWidth + 1, a, b);
    case MODULATION =>
      ThreePerRb(e.iqWidth, a);
      ThreePerRb(e.iqWidth, b);
      ThreePerRb(e.iqWidth, a + b);
      Distribute(3 * e.iqWidth, a, b);
    case Other =>
  }

  lemma Injective(c: nat, a: nat, b: nat)
    requires c > 0
    ensures c * a == c * b <==> a == b
  {
    if a < b { Scale(c, a + 1, b); }
    if b < a { Scale(c, b + 1, a); }
  }

  // Bytes of one compressed RB.
  function CompressedRb(e: PrbElm): nat {
    if e.compMethod == BLKFLOAT then 3 * e.iqWidth + 1 else 3 * e.iqWidth
  }

  lemma CompressedPayload(cfg: Config, e: PrbElm, n: nat)
    requires e.compMethod == BLKFLOAT || e.compMethod == MODULATION
    ensures PayloadLen(cfg, e, n) == CompressedRb(e) * n
  {
    PayloadAdds(cfg, e, n, 0);
  }

  lemma TrackedCompressed(cfg: Config, e: PrbElm)
    requires HasCompressionHdr(cfg, e)
    ensures TrackedLen(cfg, e) == NumSections(e) * SectionHdrLen(cfg, e) + CompressedRb(e) * e.UP_nRBSize
  {
    PerRb(e.iqWidth, e.UP_nRBSize);
  }

  lemma PerRb(w: nat, n: nat)
    ensures w * 3 * n == (3 * w) * n && w * 3 * n + n == (3 * w + 1) * n
  {
  }

  lemma NoSections(cfg: Config, e: PrbElm)
    requires NumSections(e) == 0
    ensures Sections(e) == [] && WireLen(cfg, e) == SectionHdrLen(cfg, e) && Body(cfg, e) == 0
  {
  }

  // The length on the wire and the length tracked, with their common part named.
  lemma BothLengths(cfg: Config, e: PrbElm)
    requires Supported(e) && NumSections(e) > 0
    ensures var h, total := NumSections(e) * SectionHdrLen(cfg, e), Total(Sections(e));
      && WireLen(cfg, e) == h + PayloadLen(cfg, e, total)
      && (HasCompressionHdr(cfg, e) ==> PayloadLen(cfg, e, total) == CompressedRb(e) * total)
      && TrackedLen(cfg, e) == h + (if HasCompressionHdr(cfg, e) then CompressedRb(e) * e.UP_nRBSize else 0)
  {
    PayloadOfTotal(cfg, e, Sections(e));
    if HasCompressionHdr(cfg, e) {
      CompressedPayload(cfg, e, Total(Sections(e)));
      TrackedCompressed(cfg, e);
    }
    hide Sections, Total, PayloadLen, Payload, CompressedRb;
    assert !HasCompressionHdr(cfg, e) ==> TrackedLen(cfg, e) == NumSections(e) * SectionHdrLen(cfg, e);
  }

  // The length tracked for an element is its length on the wire exactly when compression headers travel
  // in every section and its sections tile it, or when it has no data; and for an element without
  // sections when the data counted for it happens to be one header.
  lemma TrackedExactly(cfg: Config, e: PrbElm)
    requires e.iqWidth > 0 && Supported(e)
    ensures TrackedLen(cfg, e) == WireLen(cfg, e) <==>
      if NumSections(e) == 0 then
        HasCompressionHdr(cfg, e) && CompressedRb(e) * e.UP_nRBSize == SectionHdrLen(cfg, e)
      else if HasCompressionHdr(cfg, e) then Total(Sections(e)) == e.UP_nRBSize
      else PayloadLen(cfg, e, Total(Sections(e))) == 0
  {
    if NumSections(e) == 0 {
      NoSections(cfg, e);
      if HasCompressionHdr(cfg, e) { TrackedCompressed(cfg, e); }
    } else {
      BothLengths(cfg, e);
      Injective(CompressedRb(e), Total(Sections(e)), e.UP_nRBSize);
    }
    hide Sections, Total, PayloadLen, Payload, CompressedRb, WireLen;
  }

  // The packer counts at least what the element puts on the wire.
  predicate CountedEnough(cfg: Config, e: PrbElm) {
    if NumSections(e) == 0 then
      HasCompressionHdr(cfg, e) && CompressedRb(e) * e.UP_nRBSize >= SectionHdrLen(cfg, e)
    else if HasCompressionHdr(cfg, e) then CompressedRb(e) == 0 || Total(Sections(e)) <= e.UP_nRBSize
    else PayloadLen(cfg, e, Total(Sections(e))) == 0
  }

  lemma Monotone(c: nat, a: nat, b: nat)
    ensures c * a <= c * b <==> c == 0 || a <= b
  {
    if a <= b { Scale(c, a, b); }
    if b < a && c > 0 { Scale(c, b + 1, a); }
  }

  lemma TrackedCovers(cfg: Config, e: PrbElm)
    requires Supported(e)
    ensures WireLen(cfg, e) <= TrackedLen(cfg, e) <==> CountedEnough(cfg, e)
  {
    if NumSections(e) == 0 {
      NoSections(cfg, e);
      if HasCompressionHdr(cfg, e) { TrackedCompressed(cfg, e); }
    } else {
      BothLengths(cfg, e);
      Monotone(CompressedRb(e), Total(Sections(e)), e.UP_nRBSize);
    }
    hide Sections, Total, PayloadLen, Payload, CompressedRb, WireLen;
  }

  // The data and section headers an element writes are what it puts on the wire less one header.
  lemma {:induction false} BodyOnWire(cfg: Config, e: PrbElm, prbs: seq<nat>)
    requires prbs != []
    ensures BodyLen(cfg, e, prbs) == Payload(cfg, e, prbs) + (|prbs| - 1) * SectionHdrLen(cfg, e)
    decreases |prbs|
  {
    hide SectionHdrLen, PayloadLen;
    if |prbs| > 1 {
      BodyOnWire(cfg, e, prbs[1..]);
      var h, n := SectionHdrLen(cfg, e), |prbs| - 2;
      assert (n + 1) * h == n * h + h;
    }
  }

  lemma ElementOnWire(cfg: Config, e: PrbElm)
    ensures WireLen(cfg, e) == Body(cfg, e) + SectionHdrLen(cfg, e)
  {
    if NumSections(e) == 0 {
      NoSections(cfg, e);
      return;
    }
    SectionNumber(e.UP_nRBSize, 0, NumSections(e), PrbPerSection(e));
    BodyOnWire(cfg, e, Sections(e));
    hide Payload, BodyLen, SectionHdrLen;
    var h, n := SectionHdrLen(cfg, e), NumSections(e);
    assert n * h == (n - 1) * h + h;
  }

  lemma LengthGrows(cfg: Config, items: seq<Item>, n: nat)
    requires n < |items| && MemberOk(cfg, items, n) && (n > 0 ==> MemberOk(cfg, items, n - 1))
    ensures items[n].desc.iq_buffer_len == Body(cfg, items[n].elm)
      + (if n == 0 then 0 else items[n - 1].desc.iq_buffer_len + SectionHdrLen(cfg, items[n].elm))
  {
    hide Body, SectionHdrLen;
  }

  lemma WireEmpty(cfg: Config, items: seq<Item>)
    ensures Wire(cfg, items[..0]) == PKG_HDR
  {
  }

  lemma WireGrows(cfg: Config, items: seq<Item>, n: nat)
    requires n < |items|
    ensures Wire(cfg, items[..n + 1]) == Wire(cfg, items[..n]) + WireLen(cfg, items[n].elm)
  {
    assert items[..n + 1][..n] == items[..n];
    hide WireLen;
  }

  lemma {:induction false} LengthUpTo(cfg: Config, items: seq<Item>, n: nat)
    requires n < |items| && forall j :: 0 <= j <= n ==> MemberOk(cfg, items, j)
    ensures Wire(cfg, items[..n + 1]) == PKG_HDR + SectionHdrLen(cfg, items[0].elm) + items[n].desc.iq_buffer_len
    decreases n
  {
    hide *;
    LengthGrows(cfg, items, n);
    WireGrows(cfg, items, n);
    ElementOnWire(cfg, items[n].elm);
    if n == 0 {
      WireEmpty(cfg, items);
    } else {
      LengthUpTo(cfg, items, n - 1);
    }
  }

  // The length recorded for the last member of a packet, the packet's headers and its first section
  // header are the packet on the wire.
  lemma LengthOnWire(cfg: Config, items: seq<Item>)
    requires |items| > 0 && forall j :: 0 <= j < |items| ==> MemberOk(cfg, items, j)
    ensures Wire(cfg, items)
         == PKG_HDR + SectionHdrLen(cfg, items[0].elm) + items[|items| - 1].desc.iq_buffer_len
  {
    hide *;
    LengthUpTo(cfg, items, |items| - 1);
    assert items[..|items|] == items;
  }

  // ---- Main results ----

  predicate WithinMtu(cfg: Config, items: seq<Item>) {
    |items| == 1 || Wire(cfg, items) <= cfg.mtu
  }

  lemma {:induction false} WireCovered(cfg: Config, items: seq<Item>)
    requires forall j :: 0 <= j < |items| ==> Supported(items[j].elm) && CountedEnough(cfg, items[j].elm)
    ensures Wire(cfg, items) <= Tracked(cfg, items)
    decreases |items|
  {
    if items != [] {
      var n := |items| - 1;
      TrackedCovers(cfg, items[n].elm);
      hide Supported, CountedEnough, TrackedLen, WireLen;
      WireCovered(cfg, items[..n]);
    }
  }

  lemma CoveredPacket(cfg: Config, items: seq<Item>)
    requires PacketOk(cfg, items)
    requires forall j :: 0 <= j < |items| ==> Supported(items[j].elm) && CountedEnough(cfg, items[j].elm)
    ensures WithinMtu(cfg, items) && Wire(cfg, items) <= Tracked(cfg, items)
  {
    hide Tracked, Wire, MemberOk, Supported, CountedEnough;
    WireCovered(cfg, items);
  }

  // When no placed element takes more than the packer counts, every packet of a symbol that holds more
  // than one element is at most the MTU on the wire, and the length tracked for the last is no less than
  // its length.
  lemma PacketsWithinMtu(cfg: Config, elms: seq<PrbElm>, sym: nat, n: nat, descs: seq<SecDesc>)
    requires 0 < |elms| <= |descs| && n <= |elms|
    requires forall i :: 0 <= i < n && Placed(elms, sym, i) ==> Supported(elms[i]) && CountedEnough(cfg, elms[i])
    ensures var st := Pack(cfg, elms, sym, n, descs);
      && (forall k :: 0 <= k < |st.packets| ==> WithinMtu(cfg, st.packets[k]))
      && (st.packets != [] ==> st.pkgLen >= Wire(cfg, st.packets[|st.packets| - 1]))
  {
    var st := Pack(cfg, elms, sym, n, descs);
    hide *;
    PackInv(cfg, elms, sym, n, descs);
    InvFacts(cfg, st);
    forall k | 0 <= k < |st.packets|
      ensures WithinMtu(cfg, st.packets[k]) && Wire(cfg, st.packets[k]) <= Tracked(cfg, st.packets[k])
    {
      MembersCounted(cfg, elms, sym, n, descs, k);
      CoveredPacket(cfg, st.packets[k]);
    }
  }

  lemma InvFacts(cfg: Config, st: State)
    requires Inv(cfg, st)
    ensures forall k :: 0 <= k < |st.packets| ==> PacketOk(cfg, st.packets[k])
    ensures st.packets != [] ==> st.pkgLen == Tracked(cfg, st.packets[|st.packets| - 1])
  {
    hide PacketOk, FollowsOk, Tracked, Body;
  }

  lemma MembersCounted(cfg: Config, elms: seq<PrbElm>, sym: nat, n: nat, descs: seq<SecDesc>, k: nat)
    requires 0 < |elms| <= |descs| && n <= |elms|
    requires forall i :: 0 <= i < n && Placed(elms, sym, i) ==> Supported(elms[i]) && CountedEnough(cfg, elms[i])
    requires k < |Pack(cfg, elms, sym, n, descs).packets|
    ensures var packet := Pack(cfg, elms, sym, n, descs).packets[k];
      forall j :: 0 <= j < |packet| ==> Supported(packet[j].elm) && CountedEnough(cfg, packet[j].elm)
  {
    DescriptorsRecorded(cfg, elms, sym, n, descs);
    var st := Pack(cfg, elms, sym, n, descs);
    hide Pack, Supported, CountedEnough, Placed;
    forall j | 0 <= j < |st.packets[k]|
      ensures Supported(st.packets[k][j].elm) && CountedEnough(cfg, st.packets[k][j].elm)
    {
      assert RecordedItem(elms, sym, st.descs, n, st.packets[k][j]);
    }
  }

  lemma {:induction false} TrackedIsWire(cfg: Config, items: seq<Item>)
    requires forall j :: 0 <= j < |items| ==> TrackedLen(cfg, items[j].elm) == WireLen(cfg, items[j].elm)
    ensures Tracked(cfg, items) == Wire(cfg, items)
    decreases |items|
  {
    hide TrackedLen, WireLen;
    if items != [] {
      TrackedIsWire(cfg, items[..|items| - 1]);
    }
  }

  // When every placed element is counted exactly (`TrackedExactly`), the length the packer tracks is the
  // length of the packet being filled.
  lemma LengthTracked(cfg: Config, elms: seq<PrbElm>, sym: nat, n: nat, descs: seq<SecDesc>)
    requires 0 < |elms| <= |descs| && n <= |elms|
    requires forall i :: 0 <= i < n && Placed(elms, sym, i) ==> TrackedLen(cfg, elms[i]) == WireLen(cfg, elms[i])
    ensures var st := Pack(cfg, elms, sym, n, descs);
      st.packets != [] ==> st.pkgLen == Wire(cfg, st.packets[|st.packets| - 1])
  {
    PackInv(cfg, elms, sym, n, descs);
    DescriptorsRecorded(cfg, elms, sym, n, descs);
    var st := Pack(cfg, elms, sym, n, descs);
    hide Pack, PacketsOk, Placed, Wire, Tracked, TrackedLen, WireLen, Body;
    if st.packets != [] {
      var last := st.packets[|st.packets| - 1];
      forall j | 0 <= j < |last| ensures TrackedLen(cfg, last[j].elm) == WireLen(cfg, last[j].elm) {
        assert RecordedItem(elms, sym, st.descs, n, st.packets[|st.packets| - 1][j]);
      }
      TrackedIsWire(cfg, last);
    }
  }

  // ---- The MTU is kept by exactly the elements of which enough is counted ----

  // The same element for the resource blocks one further on.
  function Next(e: PrbElm): PrbElm {
    e.(UP_nRBStart := e.UP_nRBStart + 1)
  }

  lemma SameLengths(cfg: Config, e: PrbElm)
    ensures WireLen(cfg, Next(e)) == WireLen(cfg, e) && TrackedLen(cfg, Next(e)) == TrackedLen(cfg, e)
  {
    PayloadOfTotal(cfg, e, Sections(e));
    PayloadOfTotal(cfg, Next(e), Sections(e));
  }

  ghost predicate PairWithin(cfg: Config, e: PrbElm, descs: seq<SecDesc>)
    requires |descs| == 2
  {
    var st := Pack(cfg, [e, Next(e)], e.nStartSymb, 2, descs);
    forall k :: 0 <= k < |st.packets| ==> WithinMtu(cfg, st.packets[k])
  }

  // Two of an element share a packet when the lengths tracked for them fit.
  lemma PairShares(cfg: Config, e: PrbElm, descs: seq<SecDesc>)
    requires |descs| == 2 && e.numSymb > 0 && PKG_HDR + 2 * TrackedLen(cfg, e) <= cfg.mtu
    ensures var st := Pack(cfg, [e, Next(e)], e.nStartSymb, 2, descs);
      && |st.packets| == 1 && |st.packets[0]| == 2
      && st.pkgLen == PKG_HDR + 2 * TrackedLen(cfg, e)
      && Wire(cfg, st.packets[0]) == PKG_HDR + 2 * WireLen(cfg, e)
  {
    var elms, sym := [e, Next(e)], e.nStartSymb;
    SameLengths(cfg, e);
    PackStep(cfg, elms, sym, 1, descs);
    PackStep(cfg, elms, sym, 2, descs);
    var st0 := Pack(cfg, elms, sym, 0, descs);
    hide TrackedLen, WireLen, Body, SectionHdrLen, ElementWrites, Pack;
    var st1 := NewPacket(cfg, st0, e, 0, st0.dst);
    var st2 := Append(cfg, st1, Next(e), 1);
    assert Pack(cfg, elms, sym, 1, descs) == st1;
    assert Pack(cfg, elms, sym, 2, descs) == st2;
    var items := st2.packets[0];
    WireEmpty(cfg, items);
    WireGrows(cfg, items, 0);
    WireGrows(cfg, items, 1);
    assert items[..2] == items;
  }

  // Two of an element stay within every MTU if and only if the packer counts enough for it.
  lemma MtuExactly(cfg: Config, e: PrbElm, descs: seq<SecDesc>)
    requires |descs| == 2 && e.numSymb > 0 && Supported(e)
    ensures (forall m: nat :: PairWithin(cfg.(mtu := m), e, descs)) <==> CountedEnough(cfg, e)
  {
    if CountedEnough(cfg, e) {
      forall m: nat ensures PairWithin(cfg.(mtu := m), e, descs) {
        PairCovered(cfg.(mtu := m), e, descs);
      }
    } else {
      var tight := cfg.(mtu := PKG_HDR + 2 * TrackedLen(cfg, e));
      TrackedCovers(tight, e);
      PairShares(tight, e, descs);
      SameMtu(cfg, e, tight.mtu);
      hide TrackedLen, WireLen, CountedEnough, Pack;
      var packets := Pack(tight, [e, Next(e)], e.nStartSymb, 2, descs).packets;
      assert !WithinMtu(tight, packets[0]);
      assert !PairWithin(tight, e, descs);
    }
  }

  // The lengths do not depend on the MTU.
  lemma SameMtu(cfg: Config, e: PrbElm, m: nat)
    ensures var d := cfg.(mtu := m);
      TrackedLen(d, e) == TrackedLen(cfg, e) && (CountedEnough(d, e) <==> CountedEnough(cfg, e))
  {
  }

  lemma PairCovered(cfg: Config, e: PrbElm, descs: seq<SecDesc>)
    requires |descs| == 2 && Supported(e) && CountedEnough(cfg, e)
    ensures PairWithin(cfg, e, descs)
  {
    var elms := [e, Next(e)];
    assert Supported(Next(e)) && CountedEnough(cfg, Next(e)) by {
      SameLengths(cfg, e);
      TrackedCovers(cfg, e);
      TrackedCovers(cfg, Next(e));
    }
    hide Placed, WithinMtu, Supported, CountedEnough, NewPacket, Append, Step;
    PacketsWithinMtu(cfg, elms, e.nStartSymb, |elms|, descs);
  }

  // Uncompressed data is not counted: whatever the MTU, from 34 bytes on, two elements of one section
  // each share a packet however much data they have.
  lemma UncompressedExceedsMtu(cfg: Config, e: PrbElm, descs: seq<SecDesc>)
    requires |descs| == 2 && e.numSymb > 0 && e.compMethod == NONE && e.extType != 1
    requires cfg.mtu >= 34
    ensures var st := Pack(cfg, [e, Next(e)], e.nStartSymb, 2, descs);
      && |st.packets| == 1 && st.pkgLen == 34
      && Wire(cfg, st.packets[0]) == 34 + 2 * RbBytes(cfg, e.UP_nRBSize)
  {
    PairShares(cfg, e, descs);
    BothLengths(cfg, e);
    assert Sections(e) == [e.UP_nRBSize];
    hide Pack, Wire;
    assert Total([e.UP_nRBSize]) == e.UP_nRBSize;
  }
}
