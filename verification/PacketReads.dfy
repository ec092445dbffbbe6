// Which samples a symbol's packets carry: every section of every placed element, from its own place in
// the antenna's samples to its own place in the symbol buffer.
module PacketReads {
  import opened Arith
  import opened SectionTiling
  import opened SectionWriter
  import opened SectionPacker
  import opened PacketLayout

  // Sections of the placed elements before element n.
  function SectionsBefore(elms: seq<PrbElm>, sym: nat, n: nat): nat
    requires n <= |elms|
  {
    if n == 0 then 0
    else SectionsBefore(elms, sym, n - 1) + if Placed(elms, sym, n - 1) then NumSections(elms[n - 1]) else 0
  }

  // Bytes from the start of an element's data to that of its section k.
  function SectionOffset(cfg: Config, e: PrbElm, k: nat): nat
    requires k <= |Sections(e)|
  {
    if k == 0 then 0
    else SectionOffset(cfg, e, k - 1) + PayloadLen(cfg, e, Sections(e)[k - 1]) + SectionHdrLen(cfg, e)
  }

  // The write for section k of an element whose descriptor is desc.
  ghost predicate CarriesSection(cfg: Config, e: PrbElm, desc: SecDesc, w: Write, k: nat) {
    && k < |Sections(e)|
    && w.numRb == Sections(e)[k]
    && w.src == (e.UP_nRBStart + Total(Sections(e)[..k])) * cfg.rbBytes
    && w.dst == cfg.base + desc.iq_buffer_offset + SectionOffset(cfg, e, k)
  }

  // ---- One element ----

  lemma {:induction false} ElementDst(cfg: Config, e: PrbElm, dst: nat, src: nat, k: nat)
    requires k < |Sections(e)|
    ensures var w := SectionWrites(cfg, e, Sections(e), dst, src);
      |w| == |Sections(e)| && w[k].dst == dst + SectionOffset(cfg, e, k)
    decreases k
  {
    hide SectionWrites, Sections, PayloadLen, SectionHdrLen;
    WritesInSequence(cfg, e, Sections(e), dst, src, k);
    if k > 0 {
      ElementDst(cfg, e, dst, src, k - 1);
    }
  }

  lemma ElementCarries(cfg: Config, e: PrbElm, desc: SecDesc, dst: nat, k: nat)
    requires k < NumSections(e) && desc.iq_buffer_offset == dst - cfg.base
    ensures |ElementWrites(cfg, e, dst)| == NumSections(e)
    ensures CarriesSection(cfg, e, desc, ElementWrites(cfg, e, dst)[k], k)
  {
    SectionNumber(e.UP_nRBSize, 0, NumSections(e), PrbPerSection(e));
    hide SectionWrites, Sections, PayloadLen, SectionHdrLen, SectionOffset;
    WritesInSequence(cfg, e, Sections(e), dst, RbBytes(cfg, e.UP_nRBStart), k);
    ElementDst(cfg, e, dst, RbBytes(cfg, e.UP_nRBStart), k);
    Distribute(cfg.rbBytes, e.UP_nRBStart, Total(Sections(e)[..k]));
  }

  lemma ElementCount(cfg: Config, e: PrbElm, dst: nat)
    ensures |ElementWrites(cfg, e, dst)| == NumSections(e)
  {
    SectionNumber(e.UP_nRBSize, 0, NumSections(e), PrbPerSection(e));
    WriteCount(cfg, e, Sections(e), dst, RbBytes(cfg, e.UP_nRBStart));
  }

  // Placing an element adds its writes, at the place its descriptor names.
  lemma PlaceAdds(cfg: Config, st: State, e: PrbElm, i: nat) returns (dst: nat)
    requires i < |st.descs| && (st.pkgLen != 0 ==> st.packets != [])
    ensures var t := Place(cfg, st, e, i);
      && t.writes == st.writes + ElementWrites(cfg, e, dst)
      && |t.descs| == |st.descs| && t.descs[i].iq_buffer_offset == dst - cfg.base
  {
    hide TrackedLen, Body, SectionHdrLen, AddHdrOffset, ElementWrites;
    dst := if st.pkgLen == 0 then st.dst
           else if st.pkgLen + TrackedLen(cfg, e) > cfg.mtu then AddHdrOffset(cfg, st.dst, e)
           else st.dst + SectionHdrLen(cfg, e);
  }

  // ---- The whole symbol ----

  lemma {:induction false} WriteTotal(cfg: Config, elms: seq<PrbElm>, sym: nat, n: nat, descs: seq<SecDesc>)
    requires 0 < |elms| <= |descs| && n <= |elms|
    ensures |Pack(cfg, elms, sym, n, descs).writes| == SectionsBefore(elms, sym, n)
    decreases n
  {
    hide Place;
    if n > 0 {
      WriteTotal(cfg, elms, sym, n - 1, descs);
      PackStep(cfg, elms, sym, n, descs);
      var st := Pack(cfg, elms, sym, n - 1, descs);
      hide Pack, Placed, Step;
      if Placed(elms, sym, n - 1) {
        StepPlaces(cfg, elms, sym, n - 1, st);
        var dst := PlaceAdds(cfg, st, elms[n - 1], n - 1);
        ElementCount(cfg, elms[n - 1], dst);
      } else {
        StepSkips(cfg, elms, sym, n - 1, st);
      }
    }
  }

  lemma {:induction false} SectionsGrow(elms: seq<PrbElm>, sym: nat, i: nat, n: nat)
    requires i < n <= |elms| && Placed(elms, sym, i)
    ensures SectionsBefore(elms, sym, i) + NumSections(elms[i]) <= SectionsBefore(elms, sym, n)
    decreases n - i
  {
    hide Placed, NumSections;
    if i + 1 < n {
      SectionsGrow(elms, sym, i, n - 1);
    }
  }

  // Later elements leave the writes and the descriptor of an earlier one alone.
  lemma StepKeeps(cfg: Config, elms: seq<PrbElm>, sym: nat, n: nat, st: State, i: nat)
    requires i < n < |elms| <= |st.descs| && (st.pkgLen != 0 ==> st.packets != [])
    ensures var t := Step(cfg, elms, sym, n, st);
      st.writes <= t.writes && |t.descs| == |st.descs| && t.descs[i] == st.descs[i]
  {
    if Placed(elms, sym, n) {
      hide Placed, Place, Step;
      StepPlaces(cfg, elms, sym, n, st);
      var dst := PlaceAdds(cfg, st, elms[n], n);
      PlaceOthers(cfg, st, elms[n], n, i);
    } else {
      hide Place;
    }
  }

  // What the packer leaves written for section k of placed element i, whatever the other elements: as many
  // RBs as the section has, read from the element's first RB and the RBs of the sections before on, to
  // where the element's descriptor and the sections before it say.
  lemma {:induction false} SectionCarried(cfg: Config, elms: seq<PrbElm>, sym: nat, n: nat, descs: seq<SecDesc>,
                                          i: nat, k: nat)
    requires 0 < |elms| <= |descs| && i < n <= |elms| && Placed(elms, sym, i) && k < NumSections(elms[i])
    ensures var st := Pack(cfg, elms, sym, n, descs);
      && |st.writes| == SectionsBefore(elms, sym, n) && SectionsBefore(elms, sym, i) + k < |st.writes|
      && CarriesSection(cfg, elms[i], st.descs[i], st.writes[SectionsBefore(elms, sym, i) + k], k)
    decreases n
  {
    hide Place, CarriesSection;
    WriteTotal(cfg, elms, sym, n, descs);
    SectionsGrow(elms, sym, i, n);
    PackStep(cfg, elms, sym, n, descs);
    var st := Pack(cfg, elms, sym, n - 1, descs);
    hide Pack, Placed, Step, SectionsBefore, NumSections;
    if i < n - 1 {
      SectionCarried(cfg, elms, sym, n - 1, descs, i, k);
      StepKeeps(cfg, elms, sym, n - 1, st, i);
    } else {
      WriteTotal(cfg, elms, sym, n - 1, descs);
      StepPlaces(cfg, elms, sym, i, st);
      var dst := PlaceAdds(cfg, st, elms[i], i);
      ElementCarries(cfg, elms[i], Place(cfg, st, elms[i], i).descs[i], dst, k);
    }
  }

  // ---- Resource blocks read ----

  // The write takes RB rb of the antenna's samples.
  predicate Reads(cfg: Config, w: Write, rb: nat) {
    w.src <= rb * cfg.rbBytes && (rb + 1) * cfg.rbBytes <= w.src + w.numRb * cfg.rbBytes
  }

  lemma InBytes(b: nat, a: nat, n: nat, rb: nat)
    requires b > 0
    ensures a * b <= rb * b && (rb + 1) * b <= a * b + n * b <==> a <= rb < a + n
  {
    Distribute(b, a, n);
    if a <= rb { Scale(b, a, rb); } else { Scale(b, rb + 1, a); }
    if rb + 1 <= a + n { Scale(b, rb + 1, a + n); } else { Scale(b, a + n + 1, rb + 1); }
  }

  lemma {:induction false} TotalSplits(s: seq<nat>, k: nat)
    requires k < |s|
    ensures Total(s[..k + 1]) == Total(s[..k]) + s[k]
    decreases k
  {
    if k == 0 {
      assert s[..1] == [s[0]];
    } else {
      TotalSplits(s[1..], k - 1);
      assert s[..k + 1][1..] == s[1..][..k] && s[..k][1..] == s[1..][..k - 1];
    }
  }

  lemma {:induction false} TotalMono(s: seq<nat>, j: nat, k: nat)
    requires j <= k <= |s|
    ensures Total(s[..j]) <= Total(s[..k])
    decreases k - j
  {
    if j < k {
      TotalSplits(s, k - 1);
      TotalMono(s, j, k - 1);
    }
  }

  lemma EmptyTotal(s: seq<nat>)
    ensures Total(s[..0]) == 0
  {
  }

  // Which section an RB of the element falls in.
  lemma {:induction false} SectionOf(s: seq<nat>, x: nat, n: nat) returns (k: nat)
    requires n <= |s| && x < Total(s[..n])
    ensures k < n && Total(s[..k]) <= x < Total(s[..k]) + s[k]
    decreases n
  {
    EmptyTotal(s);
    if n > 0 {
      TotalSplits(s, n - 1);
      if x < Total(s[..n - 1]) {
        k := SectionOf(s, x, n - 1);
      } else {
        k := n - 1;
      }
    }
  }

  // Section k of placed element i reads RB rb.
  ghost predicate SectionReads(cfg: Config, elms: seq<PrbElm>, sym: nat, n: nat, descs: seq<SecDesc>,
                               i: nat, k: nat, rb: nat)
    requires 0 < |elms| <= |descs| && i < n <= |elms|
  {
    var writes := Pack(cfg, elms, sym, n, descs).writes;
    var at := SectionsBefore(elms, sym, i) + k;
    at < |writes| && Reads(cfg, writes[at], rb)
  }

  lemma ReadsExactly(cfg: Config, elms: seq<PrbElm>, sym: nat, n: nat, descs: seq<SecDesc>, i: nat, k: nat, rb: nat)
    requires 0 < |elms| <= |descs| && i < n <= |elms| && Placed(elms, sym, i) && k < NumSections(elms[i])
    requires cfg.rbBytes > 0
    ensures k < |Sections(elms[i])|
    ensures var first := elms[i].UP_nRBStart + Total(Sections(elms[i])[..k]);
      SectionReads(cfg, elms, sym, n, descs, i, k, rb) <==> first <= rb < first + Sections(elms[i])[k]
  {
    SectionCarried(cfg, elms, sym, n, descs, i, k);
    hide Pack, Placed, Sections, SectionsBefore, Total, NumSections, SectionOffset;
    InBytes(cfg.rbBytes, elms[i].UP_nRBStart + Total(Sections(elms[i])[..k]), Sections(elms[i])[k], rb);
  }

  lemma ReadsBetween(cfg: Config, elms: seq<PrbElm>, sym: nat, n: nat, descs: seq<SecDesc>, i: nat, k: nat, rb: nat)
    requires 0 < |elms| <= |descs| && i < n <= |elms| && Placed(elms, sym, i) && k < NumSections(elms[i])
    requires cfg.rbBytes > 0
    ensures var e := elms[i]; var s := Sections(e);
      && k < |s| == NumSections(e)
      && Total(s[..k + 1]) <= Total(s)
      && (SectionReads(cfg, elms, sym, n, descs, i, k, rb)
          <==> e.UP_nRBStart + Total(s[..k]) <= rb < e.UP_nRBStart + Total(s[..k + 1]))
  {
    var s := Sections(elms[i]);
    SectionNumber(elms[i].UP_nRBSize, 0, NumSections(elms[i]), PrbPerSection(elms[i]));
    assert s[..|s|] == s;
    hide Placed, Sections, Total, NumSections, SectionReads;
    ReadsExactly(cfg, elms, sym, n, descs, i, k, rb);
    TotalSplits(s, k);
    TotalMono(s, k + 1, |s|);
  }

  // The sections of a placed element whose sections tile it read exactly its RBs, from UP_nRBStart on.
  lemma TiledReads(cfg: Config, elms: seq<PrbElm>, sym: nat, n: nat, descs: seq<SecDesc>, i: nat, rb: nat)
    requires 0 < |elms| <= |descs| && i < n <= |elms| && Placed(elms, sym, i)
    requires cfg.rbBytes > 0 && Total(Sections(elms[i])) == elms[i].UP_nRBSize
    ensures (exists k: nat :: k < NumSections(elms[i]) && SectionReads(cfg, elms, sym, n, descs, i, k, rb))
      <==> elms[i].UP_nRBStart <= rb < elms[i].UP_nRBStart + elms[i].UP_nRBSize
  {
    var e, s := elms[i], Sections(elms[i]);
    assert s[..|s|] == s;
    SectionNumber(e.UP_nRBSize, 0, NumSections(e), PrbPerSection(e));
    hide Placed, Sections, Total, NumSections, SectionReads;
    if k: nat :| k < NumSections(e) && SectionReads(cfg, elms, sym, n, descs, i, k, rb) {
      ReadsBetween(cfg, elms, sym, n, descs, i, k, rb);
    }
    if e.UP_nRBStart <= rb < e.UP_nRBStart + e.UP_nRBSize {
      var k := SectionOf(s, rb - e.UP_nRBStart, |s|);
      ReadsExactly(cfg, elms, sym, n, descs, i, k, rb);
    }
  }

  // No two sections of an element read the same RB.
  lemma ReadsOnce(cfg: Config, elms: seq<PrbElm>, sym: nat, n: nat, descs: seq<SecDesc>, i: nat, j: nat, k: nat,
                  rb: nat)
    requires 0 < |elms| <= |descs| && i < n <= |elms| && Placed(elms, sym, i) && j < k < NumSections(elms[i])
    requires cfg.rbBytes > 0 && SectionReads(cfg, elms, sym, n, descs, i, j, rb)
    ensures !SectionReads(cfg, elms, sym, n, descs, i, k, rb)
  {
    hide Placed, Sections, Total, NumSections, SectionReads;
    ReadsBetween(cfg, elms, sym, n, descs, i, j, rb);
    ReadsBetween(cfg, elms, sym, n, descs, i, k, rb);
    TotalMono(Sections(elms[i]), j + 1, k);
  }
}
