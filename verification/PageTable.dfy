// The table of huge pages a client builds when it attaches to the shared memory, and the two
// translations that read it.
module PageTable {

  const PAGE: nat := 0x4000_0000 // WLS_HUGE_DEF_PAGE_SIZE
  const MAX_N_HUGE_PAGES: nat := 32
  const WORD64: nat := 0x1_0000_0000_0000_0000
  const WORD32: nat := 0x1_0000_0000

  datatype Page = Page(pageVa: nat, pagePa: nat)

  function PageOf(address: nat): (p: nat)
    ensures p <= address < p + PAGE && p % PAGE == 0
  {
    address - address % PAGE
  }

  // Which entry WLS_VA2PA looks at: a 64-bit difference, divided, cut to 32 bits.
  function EntryOf(base: nat, va: nat): nat {
    (PageOf(va) - base) % WORD64 / PAGE % WORD32
  }

  // WLS_VA2PA after its test for an allocated buffer.  It reads any of the 32 entries, filled or not.
  function VaToPa(table: seq<Page>, base: nat, va: nat): nat
    requires |table| == MAX_N_HUGE_PAGES
  {
    var count := EntryOf(base, va);
    if count < MAX_N_HUGE_PAGES then (table[count].pagePa + va % PAGE) % WORD64 else 0
  }

  // WLS_PA2VA after the same test: the first filled entry whose physical page matches.
  function PaToVa(table: seq<Page>, n: nat, pa: nat, from: nat): nat
    requires from <= n <= |table|
    decreases n - from
  {
    if from == n then 0
    else if table[from].pagePa == PageOf(pa) then (table[from].pageVa + pa % PAGE) % WORD64
    else PaToVa(table, n, pa, from + 1)
  }

  // The first n entries map consecutive virtual pages from a page boundary on.
  ghost predicate Consecutive(table: seq<Page>, n: nat, base: nat) {
    && |table| == MAX_N_HUGE_PAGES && n < MAX_N_HUGE_PAGES && base % PAGE == 0
    && base + n * PAGE <= WORD64
    && forall i :: 0 <= i < n ==> table[i].pageVa == base + i * PAGE && table[i].pagePa < WORD64
  }

  // Pages that begin between a page boundary and the end of the memory, the end included.
  function Pages(base: nat, end: nat): nat {
    if base > end then 0 else (end - base) / PAGE + 1
  }

  // A client of the shared memory, as far as its address translation goes.
  class Mapping {
    const hugepageTbl: array<Page>
    var nHugePage: nat
    var alloc_buffer: nat // 0: nothing allocated

    ghost predicate Valid()
      reads this, hugepageTbl
    {
      && hugepageTbl.Length == MAX_N_HUGE_PAGES
      && (alloc_buffer != 0 ==> Consecutive(hugepageTbl[..], nHugePage, PageOf(alloc_buffer)))
    }

    constructor ()
      ensures Valid() && alloc_buffer == 0 && nHugePage == 0 && fresh(hugepageTbl)
      ensures forall i :: 0 <= i < MAX_N_HUGE_PAGES ==> hugepageTbl[i] == Page(0, 0)
    {
      hugepageTbl := new Page[MAX_N_HUGE_PAGES](_ => Page(0, 0));
      nHugePage := 0;
      alloc_buffer := 0;
    }

    // WLS_Alloc.  context: address of the shared context; header: its size, rounded up; iova: the
    // physical address of a page, negative when the lookup fails.  The loop writes the entry past the
    // last page before it stops; overruns: that one lies past the table, which the source does not check.
    method Alloc(context: nat, header: nat, size: nat, iova: nat -> int) returns (ret: nat, overruns: bool)
      requires Valid() && alloc_buffer == 0
      requires 0 < context && context + header < WORD64
      requires PageOf(context + header) + MAX_N_HUGE_PAGES * PAGE <= WORD64
      requires forall va :: iova(va) < WORD64
      modifies this, hugepageTbl
      ensures Valid()
      ensures var base := PageOf(context + header);
        var pages := Pages(base, context + size);
        if exists i :: 0 <= i < pages && i < MAX_N_HUGE_PAGES && iova(base + i * PAGE) < 0 then
          ret == 0 && alloc_buffer == 0 && !overruns
        else if pages >= MAX_N_HUGE_PAGES then
          overruns && alloc_buffer == 0
        else
          && ret == context + header == alloc_buffer && nHugePage == pages && !overruns
          && (forall i :: 0 <= i < pages ==> hugepageTbl[i] == Page(base + i * PAGE, iova(base + i * PAGE)))
          && hugepageTbl[pages] == Page(base + pages * PAGE, old(hugepageTbl[pages]).pagePa)
          && forall i :: pages < i < MAX_N_HUGE_PAGES ==> hugepageTbl[i] == old(hugepageTbl[i])
    {
      var pvirtAddr := context + header;
      var alloc_base := PageOf(pvirtAddr);
      var alloc_end := pvirtAddr + size - header;
      var n := 0;
      ghost var pages := Pages(alloc_base, context + size);
      overruns := false;
      while true
        invariant n <= pages && n <= MAX_N_HUGE_PAGES && hugepageTbl.Length == MAX_N_HUGE_PAGES && alloc_buffer == 0
        invariant forall i :: 0 <= i < n ==>
          && iova(alloc_base + i * PAGE) >= 0
          && hugepageTbl[i] == Page(alloc_base + i * PAGE, iova(alloc_base + i * PAGE))
        invariant forall i :: n <= i < MAX_N_HUGE_PAGES ==> hugepageTbl[i] == old(hugepageTbl[i])
        decreases pages - n
      {
        if n == MAX_N_HUGE_PAGES {
          return 0, true;
        }
        hugepageTbl[n] := Page(alloc_base + n * PAGE, hugepageTbl[n].pagePa);
        if hugepageTbl[n].pageVa > alloc_end {
          break;
        }
        var pagePa := iova(hugepageTbl[n].pageVa);
        if pagePa < 0 {
          return 0, false;
        }
        hugepageTbl[n] := Page(alloc_base + n * PAGE, pagePa);
        n := n + 1;
      }
      alloc_buffer := pvirtAddr;
      nHugePage := n;
      ret := pvirtAddr;
    }

    // WLS_VA2PA
    method VA2PA(pMsg: nat) returns (ret: nat)
      requires Valid()
      ensures ret == if alloc_buffer == 0 then 0 else VaToPa(hugepageTbl[..], PageOf(alloc_buffer), pMsg)
    {
      if alloc_buffer == 0 {
        return 0;
      }
      var alloc_base := PageOf(alloc_buffer);
      var hugePageBase, hugePageOffet := PageOf(pMsg), pMsg % PAGE;
      var count := (hugePageBase - alloc_base) % WORD64 / PAGE % WORD32;
      if count < MAX_N_HUGE_PAGES {
        ret := (hugepageTbl[count].pagePa + hugePageOffet) % WORD64;
      } else {
        return 0;
      }
    }

    // WLS_PA2VA
    method PA2VA(pMsg: nat) returns (ret: nat)
      requires Valid()
      ensures ret == if alloc_buffer == 0 then 0 else PaToVa(hugepageTbl[..], nHugePage, pMsg, 0)
    {
      if alloc_buffer == 0 {
        return 0;
      }
      var hugePageBase, hugePageOffet := PageOf(pMsg), pMsg % PAGE;
      var i := 0;
      while i < nHugePage
        invariant i <= nHugePage
        invariant PaToVa(hugepageTbl[..], nHugePage, pMsg, 0) == PaToVa(hugepageTbl[..], nHugePage, pMsg, i)
      {
        if hugepageTbl[i].pagePa == hugePageBase {
          return (hugepageTbl[i].pageVa + hugePageOffet) % WORD64;
        }
        i := i + 1;
      }
      ret := 0;
    }
  }

  // ---- The translations undo each other ----

  // Page-aligned and pairwise distinct physical pages.
  ghost predicate Proper(table: seq<Page>, n: nat)
    requires n <= |table|
  {
    && (forall i :: 0 <= i < n ==> table[i].pagePa % PAGE == 0)
    && (forall i, j :: 0 <= i < j < n ==> table[i].pagePa != table[j].pagePa)
  }

  lemma SplitAddress(base: nat, i: nat, off: nat)
    requires base % PAGE == 0 && off < PAGE
    ensures (base + i * PAGE + off) % PAGE == off && PageOf(base + i * PAGE + off) == base + i * PAGE
  {
  }

  // Inside the mapped range, the entry is that of the page.
  lemma EntryInside(base: nat, i: nat, off: nat)
    requires base % PAGE == 0 && off < PAGE && i < MAX_N_HUGE_PAGES
    ensures EntryOf(base, base + i * PAGE + off) == i
  {
    SplitAddress(base, i, off);
  }

  lemma {:induction false} FirstMatch(table: seq<Page>, n: nat, pa: nat, from: nat, i: nat)
    requires from <= i < n <= |table| && table[i].pagePa == PageOf(pa)
    requires forall j :: from <= j < i ==> table[j].pagePa != PageOf(pa)
    ensures PaToVa(table, n, pa, from) == (table[i].pageVa + pa % PAGE) % WORD64
    decreases i - from
  {
    if from < i {
      FirstMatch(table, n, pa, from + 1, i);
    }
  }

  // The result of a search is 0 or belongs to an entry with the right page.
  lemma {:induction false} SearchResult(table: seq<Page>, n: nat, pa: nat, from: nat) returns (i: nat)
    requires from <= n <= |table|
    ensures i == n ==> PaToVa(table, n, pa, from) == 0 && forall j :: from <= j < n ==> table[j].pagePa != PageOf(pa)
    ensures i != n ==>
      && from <= i < n && table[i].pagePa == PageOf(pa)
      && PaToVa(table, n, pa, from) == (table[i].pageVa + pa % PAGE) % WORD64
      && forall j :: from <= j < i ==> table[j].pagePa != PageOf(pa)
    decreases n - from
  {
    if from == n || table[from].pagePa == PageOf(pa) {
      i := from;
    } else {
      i := SearchResult(table, n, pa, from + 1);
    }
  }

  // Byte `off` of virtual page i, translated there and back.
  lemma VirtualRoundTrip(table: seq<Page>, n: nat, base: nat, i: nat, off: nat)
    requires Consecutive(table, n, base) && Proper(table, n) && i < n && off < PAGE
    ensures var va := base + i * PAGE + off;
      VaToPa(table, base, va) == table[i].pagePa + off && PaToVa(table, n, VaToPa(table, base, va), 0) == va
  {
    var va := base + i * PAGE + off;
    EntryInside(base, i, off);
    SplitAddress(base, i, off);
    var pa := table[i].pagePa + off;
    assert pa < WORD64;
    SplitAddress(table[i].pagePa, 0, off);
    FirstMatch(table, n, pa, 0, i);
    assert va < WORD64;
  }

  // Byte `off` of physical page i, translated there and back.
  lemma PhysicalRoundTrip(table: seq<Page>, n: nat, base: nat, i: nat, off: nat)
    requires Consecutive(table, n, base) && Proper(table, n) && i < n && off < PAGE
    ensures var pa := table[i].pagePa + off;
      PaToVa(table, n, pa, 0) == table[i].pageVa + off && VaToPa(table, base, PaToVa(table, n, pa, 0)) == pa
  {
    VirtualRoundTrip(table, n, base, i, off);
  }

  // Translating every mapped virtual address there and back gives it again exactly when the physical
  // pages are aligned and pairwise distinct.
  lemma RoundTripExactly(table: seq<Page>, n: nat, base: nat)
    requires Consecutive(table, n, base) && base > 0
    ensures Proper(table, n) <==>
      (forall va :: base <= va < base + n * PAGE ==> PaToVa(table, n, VaToPa(table, base, va), 0) == va)
  {
    if Proper(table, n) {
      forall va | base <= va < base + n * PAGE ensures PaToVa(table, n, VaToPa(table, base, va), 0) == va {
        VirtualRoundTrip(table, n, base, (va - base) / PAGE, (va - base) % PAGE);
      }
    } else {
      var va := FailsSomewhere(table, n, base);
    }
  }

  lemma PageStart(table: seq<Page>, n: nat, base: nat, i: nat)
    requires Consecutive(table, n, base) && i < n
    ensures VaToPa(table, base, base + i * PAGE) == table[i].pagePa
  {
    EntryInside(base, i, 0);
    SplitAddress(base, i, 0);
  }

  lemma MisalignedFails(table: seq<Page>, n: nat, base: nat, i: nat)
    requires Consecutive(table, n, base) && base > 0 && i < n && table[i].pagePa % PAGE != 0
    ensures PaToVa(table, n, VaToPa(table, base, base + i * PAGE), 0) != base + i * PAGE
  {
    var pa := table[i].pagePa;
    PageStart(table, n, base, i);
    var k := SearchResult(table, n, pa, 0);
    if k < n {
      SplitAddress(base, k, pa % PAGE);
      SplitAddress(base, i, 0);
    }
  }

  lemma SharedPageFails(table: seq<Page>, n: nat, base: nat, i: nat, j: nat)
    requires Consecutive(table, n, base) && base > 0 && i < j < n && table[i].pagePa == table[j].pagePa
    requires table[i].pagePa % PAGE == 0
    ensures PaToVa(table, n, VaToPa(table, base, base + j * PAGE), 0) != base + j * PAGE
  {
    PageStart(table, n, base, j);
    var k := SearchResult(table, n, table[j].pagePa, 0);
    if k < n {
      assert k <= i;
    }
  }

  lemma FailsSomewhere(table: seq<Page>, n: nat, base: nat) returns (va: nat)
    requires Consecutive(table, n, base) && base > 0 && !Proper(table, n)
    ensures base <= va < base + n * PAGE && PaToVa(table, n, VaToPa(table, base, va), 0) != va
  {
    if i :| 0 <= i < n && table[i].pagePa % PAGE != 0 {
      MisalignedFails(table, n, base, i);
      va := base + i * PAGE;
    } else {
      var i, j :| 0 <= i < j < n && table[i].pagePa == table[j].pagePa;
      SharedPageFails(table, n, base, i, j);
      va := base + j * PAGE;
    }
  }

  lemma EntryAt(base: nat, i: nat, off: nat)
    requires base % PAGE == 0 && off < PAGE && i * PAGE < WORD64
    ensures EntryOf(base, base + i * PAGE + off) == i % WORD32
  {
    SplitAddress(base, i, off);
  }

  lemma SplitOffset(base: nat, va: nat) returns (i: nat, off: nat)
    requires base <= va
    ensures va == base + i * PAGE + off && off < PAGE
  {
    i, off := (va - base) / PAGE, (va - base) % PAGE;
  }

  lemma EntryAlias(base: nat, i: nat, off: nat)
    requires base % PAGE == 0 && off < PAGE && (i + WORD32) * PAGE < WORD64
    ensures EntryOf(base, base + (i + WORD32) * PAGE + off) == EntryOf(base, base + i * PAGE + off)
    ensures (base + (i + WORD32) * PAGE + off) % PAGE == (base + i * PAGE + off) % PAGE
  {
    EntryAt(base, i, off);
    EntryAt(base, i + WORD32, off);
    SplitAddress(base, i, off);
    SplitAddress(base, i + WORD32, off);
    hide EntryOf;
  }

  // Past the table of pages, and below the addresses that look alike again, nothing translates; nor does
  // a physical address on no filled page.
  lemma OutsideIsZero(table: seq<Page>, n: nat, base: nat, va: nat, pa: nat)
    requires |table| == MAX_N_HUGE_PAGES && base % PAGE == 0 && n <= |table|
    ensures base + MAX_N_HUGE_PAGES * PAGE <= va < base + WORD32 * PAGE && va < WORD64 ==> VaToPa(table, base, va) == 0
    ensures (forall i :: 0 <= i < n ==> table[i].pagePa != PageOf(pa)) ==> PaToVa(table, n, pa, 0) == 0
  {
    if base + MAX_N_HUGE_PAGES * PAGE <= va < base + WORD32 * PAGE && va < WORD64 {
      var i, off := SplitOffset(base, va);
      EntryAt(base, i, off);
      assert MAX_N_HUGE_PAGES <= i < WORD32;
    }
    var k := SearchResult(table, n, pa, 0);
  }

  // Addresses 2^62 apart look alike to WLS_VA2PA, because the page number is cut to 32 bits.
  lemma Aliases(table: seq<Page>, base: nat, va: nat)
    requires |table| == MAX_N_HUGE_PAGES && base % PAGE == 0 && base <= va && va + WORD32 * PAGE < WORD64
    ensures VaToPa(table, base, va + WORD32 * PAGE) == VaToPa(table, base, va)
  {
    var i, off := SplitOffset(base, va);
    EntryAlias(base, i, off);
    hide EntryOf;
    assert base + (i + WORD32) * PAGE + off == va + WORD32 * PAGE;
  }
}
