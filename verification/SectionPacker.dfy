// Packing the elements of one antenna and symbol into U-plane packets no longer than the MTU.
module SectionPacker {
  import opened SectionTiling
  import opened SectionWriter

  const HEADROOM: nat := 128     // RTE_PKTMBUF_HEADROOM
  const ETHER_HDR: nat := 14     // rte_ether_hdr
  const ECPRI_HDR: nat := 8      // xran_ecpri_hdr
  const RADIO_APP_HDR: nat := 4  // radio_app_common_hdr
  const PKG_HDR: nat := ETHER_HDR + ECPRI_HDR + RADIO_APP_HDR

  // xran_section_desc with the fields the packer sets
  datatype SecDesc = SecDesc(section_pos: nat, iq_buffer_offset: int, iq_buffer_len: int)

  // An element that went into a packet, with its descriptor.
  datatype Item = Item(index: nat, elm: PrbElm, desc: SecDesc)

  // dst, pkgLen and iqLen are the running variables of the packer; packets records which elements
  // share a packet.
  datatype State = State(dst: nat, pkgLen: nat, iqLen: nat, descs: seq<SecDesc>, writes: seq<Write>,
                         packets: seq<seq<Item>>)

  // Bytes the packer counts for an element.
  function TrackedLen(cfg: Config, e: PrbElm): nat {
    SECTION_HDR * NumSections(e)
    + if HasCompressionHdr(cfg, e) then
        COMPRESSION_HDR * NumSections(e) + e.iqWidth * 3 * e.UP_nRBSize
        + (if e.compMethod == BLKFLOAT then e.UP_nRBSize else 0)
      else 0
  }

  function AlignUp(a: nat): (r: nat)
    ensures a <= r < a + 64 && r % 64 == 0
  {
    (a + 63) / 64 * 64
  }

  // xran_add_hdr_offset
  function AddHdrOffset(cfg: Config, dst: nat, e: PrbElm): nat {
    AlignUp(dst + HEADROOM + ECPRI_HDR + RADIO_APP_HDR + SectionHdrLen(cfg, e))
  }

  // The element repeats the PRBs and symbols of the one before it for another set of resource elements.
  predicate Duplicate(elms: seq<PrbElm>, i: nat)
    requires i < |elms|
  {
    && elms[i].reMask != 0 && i > 0
    && elms[i].UP_nRBStart == elms[i - 1].UP_nRBStart && elms[i].UP_nRBSize == elms[i - 1].UP_nRBSize
    && elms[i].nStartSymb == elms[i - 1].nStartSymb && elms[i].numSymb == elms[i - 1].numSymb
  }

  predicate Scheduled(e: PrbElm, sym: nat) {
    e.nStartSymb <= sym < e.nStartSymb + e.numSymb
  }

  predicate Placed(elms: seq<PrbElm>, sym: nat, i: nat)
    requires i < |elms|
  {
    !Duplicate(elms, i) && Scheduled(elms[i], sym)
  }

  // ---- What the packer does, one element at a time ----

  function Descriptor(cfg: Config, e: PrbElm, dst: nat, iqLen: nat, pos: nat): SecDesc {
    SecDesc(pos, dst - cfg.base, iqLen + Body(cfg, e))
  }

  function NewPacket(cfg: Config, st: State, e: PrbElm, i: nat, dst: nat): State
    requires i < |st.descs|
  {
    var desc := Descriptor(cfg, e, dst, 0, 1);
    State(dst + Body(cfg, e), PKG_HDR + TrackedLen(cfg, e), Body(cfg, e), st.descs[i := desc],
          st.writes + ElementWrites(cfg, e, dst), st.packets + [[Item(i, e, desc)]])
  }

  function Append(cfg: Config, st: State, e: PrbElm, i: nat): State
    requires i < |st.descs| && st.packets != []
  {
    var dst, iqLen := st.dst + SectionHdrLen(cfg, e), st.iqLen + SectionHdrLen(cfg, e);
    var desc := Descriptor(cfg, e, dst, iqLen, 2);
    var last := |st.packets| - 1;
    State(dst + Body(cfg, e), st.pkgLen + TrackedLen(cfg, e), iqLen + Body(cfg, e), st.descs[i := desc],
          st.writes + ElementWrites(cfg, e, dst), st.packets[last := st.packets[last] + [Item(i, e, desc)]])
  }

  function Place(cfg: Config, st: State, e: PrbElm, i: nat): State
    requires i < |st.descs| && (st.pkgLen != 0 ==> st.packets != [])
  {
    if st.pkgLen == 0 then NewPacket(cfg, st, e, i, st.dst)
    else if st.pkgLen + TrackedLen(cfg, e) > cfg.mtu then NewPacket(cfg, st, e, i, AddHdrOffset(cfg, st.dst, e))
    else Append(cfg, st, e, i)
  }

  function Step(cfg: Config, elms: seq<PrbElm>, sym: nat, i: nat, st: State): State
    requires i < |elms| <= |st.descs| && (st.pkgLen != 0 ==> st.packets != [])
  {
    if Duplicate(elms, i) then st
    else if !Scheduled(elms[i], sym) then
      st.(descs := st.descs[i := SecDesc(st.descs[i].section_pos, 0, 0)])
    else Place(cfg, st, elms[i], i)
  }

  // After the first n elements.  The headers of the first packet are laid out for element 0.
  function Pack(cfg: Config, elms: seq<PrbElm>, sym: nat, n: nat, descs: seq<SecDesc>): (st: State)
    requires 0 < |elms| <= |descs| && n <= |elms|
    ensures |st.descs| == |descs| && (st.pkgLen != 0 ==> st.packets != [])
  {
    if n == 0 then State(AddHdrOffset(cfg, cfg.base, elms[0]), 0, 0, descs, [], [])
    else Step(cfg, elms, sym, n - 1, Pack(cfg, elms, sym, n - 1, descs))
  }

  // One scheduled element; st is the packer's state with the history it does not keep.
  method PlaceElement(cfg: Config, e: PrbElm, i: nat, dst0: nat, pkgLen0: nat, iqLen0: nat,
                      descs: array<SecDesc>, ghost st: State)
    returns (ok: bool, dst: nat, pkg_len: nat, iq_buffer_len: nat, more: seq<Write>)
    requires i < descs.Length && (st.pkgLen != 0 ==> st.packets != [])
    requires st.dst == dst0 && st.pkgLen == pkgLen0 && st.iqLen == iqLen0 && st.descs == descs[..]
    modifies descs
    ensures ok <==> Supported(e)
    ensures ok ==> var t := Place(cfg, st, e, i);
      && t.dst == dst && t.pkgLen == pkg_len && t.iqLen == iq_buffer_len && t.descs == descs[..]
      && t.writes == st.writes + more
  {
    hide Body, ElementWrites, TrackedLen, AlignUp, SectionHdrLen, Supported;
    dst, pkg_len, iq_buffer_len := dst0, pkgLen0, iqLen0;
    var pkg_len_temp := TrackedLen(cfg, e);
    var section_pos := 1;
    if pkg_len == 0 {
      pkg_len := PKG_HDR + pkg_len_temp;
      iq_buffer_len := 0;
    } else if pkg_len + pkg_len_temp > cfg.mtu {
      dst := AddHdrOffset(cfg, dst, e);
      pkg_len := PKG_HDR + pkg_len_temp;
      iq_buffer_len := 0;
    } else {
      dst := dst + SectionHdrLen(cfg, e);
      iq_buffer_len := iq_buffer_len + SectionHdrLen(cfg, e);
      pkg_len := pkg_len + pkg_len_temp;
      section_pos := 2;
    }
    var start := dst;
    ok, dst, iq_buffer_len, more := WriteSections(cfg, e, dst, iq_buffer_len);
    if ok {
      descs[i] := SecDesc(section_pos, start - cfg.base, iq_buffer_len);
      assert descs[..] == old(descs[..])[i := SecDesc(section_pos, start - cfg.base, iq_buffer_len)];
    }
  }

  // app_io_xran_iq_content_init_multi_section_up_tx: nPrbElm elements of the map, for one symbol.
  // It ends the program (ok is false) at the first element whose compression is not supported.
  method PackSymbol(cfg: Config, elms: seq<PrbElm>, nPrbElm: nat, sym: nat, descs: array<SecDesc>)
    returns (ok: bool, writes: seq<Write>)
    requires 0 < |elms| == descs.Length && nPrbElm <= |elms|
    modifies descs
    ensures ok <==> forall i :: 0 <= i < nPrbElm && Placed(elms, sym, i) ==> Supported(elms[i])
    ensures ok ==> var st := Pack(cfg, elms, sym, nPrbElm, old(descs[..]));
      descs[..] == st.descs && writes == st.writes
  {
    ghost var before := descs[..];
    writes := [];
    var pkg_len: nat, iq_buffer_len: nat := 0, 0;
    var dst: nat := AddHdrOffset(cfg, cfg.base, elms[0]);
    var idxElm := 0;
    ghost var st := Pack(cfg, elms, sym, 0, before);
    hide Place, Duplicate, Scheduled, Supported, AddHdrOffset;
    while idxElm < nPrbElm
      invariant idxElm <= nPrbElm && st == Pack(cfg, elms, sym, idxElm, before)
      invariant st.dst == dst && st.pkgLen == pkg_len && st.iqLen == iq_buffer_len
      invariant st.descs == descs[..] && st.writes == writes
      invariant forall i :: 0 <= i < idxElm && Placed(elms, sym, i) ==> Supported(elms[i])
    {
      ghost var next := Step(cfg, elms, sym, idxElm, st);
      if Duplicate(elms, idxElm) {
      } else if !Scheduled(elms[idxElm], sym) {
        descs[idxElm] := SecDesc(descs[idxElm].section_pos, 0, 0);
      } else {
        assert Placed(elms, sym, idxElm);
        var more;
        ok, dst, pkg_len, iq_buffer_len, more :=
          PlaceElement(cfg, elms[idxElm], idxElm, dst, pkg_len, iq_buffer_len, descs, st);
        if !ok {
          return;
        }
        writes := writes + more;
      }
      st := next;
      idxElm := idxElm + 1;
    }
    ok := true;
  }
}
