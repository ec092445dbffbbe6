// One resource-block element of a symbol: how its PRBs are cut into sections and written to the
// symbol buffer of U-plane messages (section 6.3 of O-RAN.WG4.CUS.0).
module SectionTiling {
  import opened Arith

  const SECTION_HDR: nat := 4     // data_section_hdr
  const COMPRESSION_HDR: nat := 2 // data_section_compression_hdr

  datatype CompMethod = NONE | BLKFLOAT | MODULATION | Other

  // xran_prb_elm with the fields the packer reads
  datatype PrbElm = PrbElm(UP_nRBStart: nat, UP_nRBSize: nat, nStartSymb: nat, numSymb: nat, compMethod: CompMethod,
                           iqWidth: nat, reMask: nat, extType: nat, numSetBFWs: nat, numBundPrb: nat)

  // dynamicHdr: compression headers travel in every section.  rbBytes: bytes of one RB before
  // compression.  base: address of the symbol buffer.
  datatype Config = Config(dynamicHdr: bool, rbBytes: nat, mtu: nat, base: nat)

  function NumSections(e: PrbElm): nat {
    if e.extType == 1 then e.numSetBFWs else 1
  }

  function PrbPerSection(e: PrbElm): nat {
    if e.extType == 1 then e.numBundPrb else e.UP_nRBSize
  }

  predicate HasCompressionHdr(cfg: Config, e: PrbElm) {
    cfg.dynamicHdr && e.compMethod != NONE
  }

  function SectionHdrLen(cfg: Config, e: PrbElm): nat {
    SECTION_HDR + if HasCompressionHdr(cfg, e) then COMPRESSION_HDR else 0
  }

  function RbBytes(cfg: Config, n: nat): nat {
    n * cfg.rbBytes
  }

  // Bytes that n RBs of an element take; xranlib_compress sets this length.
  function PayloadLen(cfg: Config, e: PrbElm, n: nat): nat {
    match e.compMethod
    case NONE => RbBytes(cfg, n)
    case BLKFLOAT => (3 * e.iqWidth + 1) * n
    case MODULATION => n * 12 * e.iqWidth * 2 / 8
    case Other => 0
  }

  // PRBs of the next section: shortened to what is left when it would run over the end.
  function Shortened(size: nat, idx: nat, prb: nat): int {
    if (idx + 1) * prb > size then size - idx * prb else prb
  }

  lemma ShortenedFits(size: nat, idx: nat, prb: nat)
    requires idx * prb <= size
    ensures 0 <= Shortened(size, idx, prb) <= prb && (idx + 1) * Shortened(size, idx, prb) <= size
  {
    var p := Shortened(size, idx, prb);
    assert (idx + 1) * prb == idx * prb + prb;
    if (idx + 1) * prb > size {
      assert p <= prb;
      assert idx * p <= idx * prb by { Scale(idx, p, prb); }
      assert (idx + 1) * p == idx * p + p;
    }
  }

  // The sections before idx, of this size each, lie within the element.
  predicate Fits(size: nat, idx: nat, prb: nat) {
    idx * prb <= size
  }

  // PRB counts of the sections from idx on; prb is the count carried over from the section before.
  function SectionPrbs(size: nat, idx: nat, n: nat, prb: nat): seq<nat>
    requires Fits(size, idx, prb) && idx <= n
    decreases n - idx
  {
    if idx == n then [] else
      ShortenedFits(size, idx, prb);
      var p := Shortened(size, idx, prb);
      [p] + SectionPrbs(size, idx + 1, n, p)
  }

  function Sections(e: PrbElm): seq<nat> {
    SectionPrbs(e.UP_nRBSize, 0, NumSections(e), PrbPerSection(e))
  }

  function Total(s: seq<nat>): nat {
    if s == [] then 0 else s[0] + Total(s[1..])
  }

  // ---- Which section counts tile the element ----

  // While sections are not shortened they simply add up.
  lemma {:induction false} AddUp(size: nat, idx: nat, n: nat, prb: nat)
    requires idx <= n && n * prb <= size && idx * prb <= size
    ensures Total(SectionPrbs(size, idx, n, prb)) == (n - idx) * prb
    decreases n - idx
  {
    if idx < n {
      Scale(prb, idx + 1, n);
      assert Shortened(size, idx, prb) == prb;
      AddUp(size, idx + 1, n, prb);
      assert prb + (n - idx - 1) * prb == (n - idx) * prb;
    }
  }

  // Once nothing is left, every further section is empty.
  lemma {:induction false} NothingMore(size: nat, idx: nat, n: nat, prb: nat)
    requires idx <= n && idx * prb == size
    ensures Total(SectionPrbs(size, idx, n, prb)) == 0
    decreases n - idx
  {
    if idx < n {
      ShortenedFits(size, idx, prb);
      assert (idx + 1) * prb == size + prb;
      var p := Shortened(size, idx, prb);
      assert p == 0;
      NothingMoreZero(size, idx + 1, n);
    }
  }

  lemma {:induction false} NothingMoreZero(size: nat, idx: nat, n: nat)
    requires idx <= n
    ensures Total(SectionPrbs(size, idx, n, 0)) == 0
    decreases n - idx
  {
    if idx < n {
      NothingMoreZero(size, idx + 1, n);
    }
  }

  // A section that still has PRBs although less than one full section was left before it.
  lemma OneTooMany(size: nat, idx: nat, n: nat, prb: nat)
    requires idx < n && idx * prb < size && prb > 0
    ensures Total(SectionPrbs(size, idx, n, prb)) > 0
  {
    ShortenedFits(size, idx, prb);
  }

  lemma RestIsSmall(idx: nat, rest: nat, prb: nat)
    requires idx > 0 && rest < prb
    ensures (idx + 1) * rest < idx * prb + rest
  {
    Scale(idx, rest + 1, prb);
    assert idx * (rest + 1) == idx * rest + idx;
    assert (idx + 1) * rest == idx * rest + rest;
  }

  // From a section boundary at idx, where whole sections fit no more.
  lemma FromLast(size: nat, idx: nat, n: nat, prb: nat)
    requires idx < n && idx * prb < size < (idx + 1) * prb
    ensures Total(SectionPrbs(size, idx, n, prb)) == size - idx * prb <==> n == idx + 1 || idx == 0
  {
    ShortenedFits(size, idx, prb);
    var rest := Shortened(size, idx, prb);
    assert rest == size - idx * prb && rest < prb by { assert (idx + 1) * prb == idx * prb + prb; }
    assert SectionPrbs(size, idx, n, prb) == [rest] + SectionPrbs(size, idx + 1, n, rest);
    assert Total(SectionPrbs(size, idx, n, prb)) == rest + Total(SectionPrbs(size, idx + 1, n, rest));
    hide Total, SectionPrbs, Shortened;
    if n == idx + 1 {
      assert Total(SectionPrbs(size, n, n, rest)) == 0 by { LastIsEmpty(size, n, rest); }
    } else if idx == 0 {
      NothingMore(size, 1, n, rest);
    } else {
      RestIsSmall(idx, rest, prb);
      OneTooMany(size, idx + 1, n, rest);
    }
  }

  lemma LastIsEmpty(size: nat, n: nat, prb: nat)
    requires n * prb <= size
    ensures Total(SectionPrbs(size, n, n, prb)) == 0
  {
  }

  // Up to idx whole sections fit.
  lemma {:induction false} WholeSections(size: nat, idx: nat, k: nat, n: nat, prb: nat)
    requires idx <= k <= n && k * prb <= size && idx * prb <= size
    ensures Total(SectionPrbs(size, idx, n, prb)) == (k - idx) * prb + Total(SectionPrbs(size, k, n, prb))
    decreases k - idx
  {
    if idx < k {
      Scale(prb, idx + 1, k);
      assert Shortened(size, idx, prb) == prb;
      WholeSections(size, idx + 1, k, n, prb);
      assert prb + (k - idx - 1) * prb == (k - idx) * prb;
    }
  }

  // The sections of an element cover its PRBs exactly, if and only if they reach its end and are
  // either as few as possible, or of a size that divides the element, or at least as large as it.
  lemma TilesExactly(size: nat, n: nat, prb: nat)
    ensures Total(SectionPrbs(size, 0, n, prb)) == size <==>
      n * prb >= size && ((n - 1) * prb < size || prb >= size || (prb > 0 && size % prb == 0))
  {
    if n * prb <= size {
      AddUp(size, 0, n, prb);
      assert n > 0 && prb > 0 ==> (n - 1) * prb < n * prb;
      if n * prb == size && !(n > 0 && prb > 0) {
        assert size == 0;
      }
    } else {
      var k := size / prb;
      assert size == k * prb + size % prb;
      if k >= n {
        Scale(prb, n, k);
      }
      assert k < n;
      WholeSections(size, 0, k, n, prb);
      if size % prb == 0 {
        NothingMore(size, k, n, prb);
      } else {
        assert (k + 1) * prb == k * prb + prb;
        FromLast(size, k, n, prb);
        MinimalCount(size, n, prb, k);
      }
    }
  }

  lemma MinimalCount(size: nat, n: nat, prb: nat, k: nat)
    requires prb > 0 && k < n && k * prb < size < (k + 1) * prb
    ensures (n - 1) * prb < size <==> n == k + 1
    ensures prb >= size <==> k == 0
  {
    if n > k + 1 {
      Scale(prb, k + 1, n - 1);
    }
    if k > 0 {
      Scale(prb, 1, k);
    }
  }

  lemma {:induction false} SectionNumber(size: nat, idx: nat, n: nat, prb: nat)
    requires Fits(size, idx, prb) && idx <= n
    ensures |SectionPrbs(size, idx, n, prb)| == n - idx
    decreases n - idx
  {
    if idx < n {
      ShortenedFits(size, idx, prb);
      SectionNumber(size, idx + 1, n, Shortened(size, idx, prb));
    }
  }

  // An element with beam-forming weights has a section for each of its sets, of one bundle each as far as
  // the PRBs last; any other is one section.
  lemma ElementSections(e: PrbElm)
    ensures if e.extType == 1 then
              var n, prb, size := e.numSetBFWs, e.numBundPrb, e.UP_nRBSize;
              && |Sections(e)| == n
              && (n > 0 ==> Sections(e)[0] == Min(prb, size))
              && (Total(Sections(e)) == size <==>
                    n * prb >= size && ((n - 1) * prb < size || prb >= size || (prb > 0 && size % prb == 0)))
            else Sections(e) == [e.UP_nRBSize]
  {
    if e.extType == 1 {
      SectionNumber(e.UP_nRBSize, 0, e.numSetBFWs, e.numBundPrb);
      TilesExactly(e.UP_nRBSize, e.numSetBFWs, e.numBundPrb);
    }
  }
}
