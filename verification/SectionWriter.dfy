// Writing the sections of one element to the symbol buffer.
module SectionWriter {
  import opened SectionTiling

  // One payload copied or compressed: from byte src of the antenna's samples to address dst.
  datatype Write = Write(dst: nat, src: nat, numRb: nat)

  function BodyLen(cfg: Config, e: PrbElm, prbs: seq<nat>): nat {
    if prbs == [] then 0
    else PayloadLen(cfg, e, prbs[0]) + (if |prbs| == 1 then 0 else SectionHdrLen(cfg, e)) + BodyLen(cfg, e, prbs[1..])
  }

  function Body(cfg: Config, e: PrbElm): nat {
    BodyLen(cfg, e, Sections(e))
  }

  function SectionWrites(cfg: Config, e: PrbElm, prbs: seq<nat>, dst: nat, src: nat): seq<Write> {
    if prbs == [] then [] else
      [Write(dst, src, prbs[0])]
      + SectionWrites(cfg, e, prbs[1..], dst + PayloadLen(cfg, e, prbs[0]) + SectionHdrLen(cfg, e),
                      src + RbBytes(cfg, prbs[0]))
  }

  function ElementWrites(cfg: Config, e: PrbElm, dst: nat): seq<Write> {
    SectionWrites(cfg, e, Sections(e), dst, RbBytes(cfg, e.UP_nRBStart))
  }

  // Any other method ends the program at the first section.
  predicate Supported(e: PrbElm) {
    e.compMethod != Other || NumSections(e) == 0
  }

  // The section at the head of what is left, and what is left after it.
  lemma OneSection(cfg: Config, e: PrbElm, idx: nat, n: nat, prb: nat, dst: nat, src: nat)
      returns (p: nat, after: seq<nat>)
    requires idx < n && Fits(e.UP_nRBSize, idx, prb)
    ensures p == Shortened(e.UP_nRBSize, idx, prb) && Fits(e.UP_nRBSize, idx + 1, p)
    ensures after == SectionPrbs(e.UP_nRBSize, idx + 1, n, p) && (after == [] <==> idx + 1 == n)
    ensures var rest := SectionPrbs(e.UP_nRBSize, idx, n, prb);
      && BodyLen(cfg, e, rest)
         == PayloadLen(cfg, e, p) + (if after == [] then 0 else SectionHdrLen(cfg, e)) + BodyLen(cfg, e, after)
      && SectionWrites(cfg, e, rest, dst, src)
         == [Write(dst, src, p)]
            + SectionWrites(cfg, e, after, dst + PayloadLen(cfg, e, p) + SectionHdrLen(cfg, e), src + RbBytes(cfg, p))
  {
    ShortenedFits(e.UP_nRBSize, idx, prb);
    p := Shortened(e.UP_nRBSize, idx, prb);
    after := SectionPrbs(e.UP_nRBSize, idx + 1, n, p);
    SectionNumber(e.UP_nRBSize, idx + 1, n, p);
    var rest := SectionPrbs(e.UP_nRBSize, idx, n, prb);
    assert rest == [p] + after && rest[1..] == after;
    hide SectionPrbs, Shortened, PayloadLen;
  }

  // The section loop.
  method WriteSections(cfg: Config, e: PrbElm, dst0: nat, len0: nat)
    returns (ok: bool, dst: nat, len: nat, writes: seq<Write>)
    ensures ok <==> Supported(e)
    ensures ok ==>
      dst == dst0 + Body(cfg, e) && len == len0 + Body(cfg, e) && writes == ElementWrites(cfg, e, dst0)
  {
    var num_sections: nat, prb_per_section: nat := NumSections(e), PrbPerSection(e);
    dst, len, writes := dst0, len0, [];
    var src: nat, idx: nat := RbBytes(cfg, e.UP_nRBStart), 0;
    ghost var rest, body, all := Sections(e), Body(cfg, e), ElementWrites(cfg, e, dst0);
    assert writes + SectionWrites(cfg, e, rest, dst, src) == all;
    assert rest == SectionPrbs(e.UP_nRBSize, idx, num_sections, prb_per_section);
    assert body == BodyLen(cfg, e, rest);
    SectionNumber(e.UP_nRBSize, 0, num_sections, prb_per_section);
    assert Supported(e) <==> e.compMethod != Other || num_sections == 0;
    NothingLeft(cfg, e, dst, src);
    hide *;
    while idx < num_sections
      invariant idx <= num_sections && Fits(e.UP_nRBSize, idx, prb_per_section)
      invariant idx > 0 ==> e.compMethod != Other
      invariant rest == SectionPrbs(e.UP_nRBSize, idx, num_sections, prb_per_section)
      invariant rest == [] <==> idx == num_sections
      invariant dst + BodyLen(cfg, e, rest) == dst0 + body && len + BodyLen(cfg, e, rest) == len0 + body
      invariant if rest == [] then writes == all else writes + SectionWrites(cfg, e, rest, dst, src) == all
    {
      ghost var p, after := OneSection(cfg, e, idx, num_sections, prb_per_section, dst, src);
      prb_per_section := Shortened(e.UP_nRBSize, idx, prb_per_section);
      if e.compMethod == Other {
        return false, dst, len, writes;
      }
      ghost var before := writes;
      writes := writes + [Write(dst, src, prb_per_section)];
      var payload_len := PayloadLen(cfg, e, prb_per_section);
      ghost var nextDst, nextSrc := dst + payload_len + SectionHdrLen(cfg, e), src + RbBytes(cfg, p);
      Regroup(before, Write(dst, src, prb_per_section), SectionWrites(cfg, e, after, nextDst, nextSrc), all);
      if num_sections != 1 {
        src := src + RbBytes(cfg, prb_per_section);
      }
      len := len + payload_len;
      dst := dst + payload_len;
      if idx + 1 != num_sections {
        dst := dst + SectionHdrLen(cfg, e);
        len := len + SectionHdrLen(cfg, e);
      } else {
        NothingLeft(cfg, e, nextDst, nextSrc);
      }
      rest := after;
      idx := idx + 1;
    }
    NothingLeft(cfg, e, dst, src);
    ok := true;
  }

  lemma Regroup(done: seq<Write>, next: Write, rest: seq<Write>, all: seq<Write>)
    requires done + ([next] + rest) == all
    ensures done + [next] + rest == all && (rest == [] ==> done + [next] == all)
  {
    assert done + [next] + rest == done + ([next] + rest);
  }

  lemma NothingLeft(cfg: Config, e: PrbElm, dst: nat, src: nat)
    ensures BodyLen(cfg, e, []) == 0 && SectionWrites(cfg, e, [], dst, src) == []
  {
  }

  // The sections read consecutive RBs of the source and are written one after the other, one section
  // header apart, up to the end of the element's bytes.
  lemma {:induction false} WritesInSequence(cfg: Config, e: PrbElm, prbs: seq<nat>, dst: nat, src: nat, k: nat)
    requires k < |prbs|
    ensures var w := SectionWrites(cfg, e, prbs, dst, src);
      && |w| == |prbs| && w[k].numRb == prbs[k]
      && w[k].src == src + RbBytes(cfg, Total(prbs[..k]))
      && (k == 0 ==> w[k].dst == dst)
      && (k > 0 ==> w[k].dst == w[k - 1].dst + PayloadLen(cfg, e, prbs[k - 1]) + SectionHdrLen(cfg, e))
      && (k == |prbs| - 1 ==> w[k].dst + PayloadLen(cfg, e, prbs[k]) == dst + BodyLen(cfg, e, prbs))
    decreases k
  {
    WriteCount(cfg, e, prbs, dst, src);
    hide PayloadLen, SectionHdrLen;
    var rest := prbs[1..];
    var dst', src' := dst + PayloadLen(cfg, e, prbs[0]) + SectionHdrLen(cfg, e), src + RbBytes(cfg, prbs[0]);
    if k == 0 {
      assert Total(prbs[..0]) == 0;
    } else {
      WritesInSequence(cfg, e, rest, dst', src', k - 1);
      assert prbs[..k] == [prbs[0]] + rest[..k - 1];
      assert prbs[..k][1..] == rest[..k - 1];
      RbBytesAdd(cfg, prbs[0], Total(rest[..k - 1]));
    }
  }

  lemma {:induction false} WriteCount(cfg: Config, e: PrbElm, prbs: seq<nat>, dst: nat, src: nat)
    ensures |SectionWrites(cfg, e, prbs, dst, src)| == |prbs|
    decreases |prbs|
  {
    if prbs != [] {
      WriteCount(cfg, e, prbs[1..], dst + PayloadLen(cfg, e, prbs[0]) + SectionHdrLen(cfg, e),
                 src + RbBytes(cfg, prbs[0]));
    }
  }

  lemma RbBytesAdd(cfg: Config, a: nat, b: nat)
    ensures RbBytes(cfg, a + b) == RbBytes(cfg, a) + RbBytes(cfg, b)
  {
  }
}
