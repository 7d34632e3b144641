/** kalloc.c and vm.c: the page allocator, and two-level page tables built from its pages. Virtual addresses
    that have been rounded to a page are held as page numbers. */
module Vm {
  import opened Basics
  import opened PageState
  import opened Sequences

  const UINT: nat := 0x1_0000_0000
  const EXTMEM: nat := 0x100000
  const PHYSTOP: nat := 0xE000000
  const DEVSPACE: nat := 0xFC000000
  const KERNBASE: nat := 0x80000000
  const PHYSPAGES: nat := PHYSTOP / PGSIZE

  /** A page table entry in memory: the page of the table and the index in it. */
  datatype Slot = Slot(table: nat, index: nat)

  function PageRoundUp(a: nat): nat {
    (a + PGSIZE - 1) / PGSIZE
  }

  /** From mem0 to mem, directory d maps pages lo .. hi to physical pages from ppn on, and shows the rest as
      before. */
  ghost predicate MapsTo(mem0: Memory, mem: Memory, d: nat, lo: nat, hi: nat, ppn: nat, flags: bv12) {
    forall i, j :: 0 <= i < NPTE && 0 <= j < NPTE ==>
      Pte(mem, d, i, j) == if lo <= Vpn(i, j) < hi then Word(ppn + (Vpn(i, j) - lo), flags) else Pte(mem0, d, i, j)
  }

  ghost predicate SameView(mem0: Memory, mem: Memory, d: nat) {
    forall i, j :: 0 <= i < NPTE && 0 <= j < NPTE ==> Pte(mem, d, i, j) == Pte(mem0, d, i, j)
  }

  lemma MapsOneMore(m0: Memory, m1: Memory, m2: Memory, d: nat, lo: nat, v: nat, ppn: nat, flags: bv12)
    requires lo <= v && MapsTo(m0, m1, d, lo, v, ppn, flags)
    requires MapsTo(m1, m2, d, v, v + 1, ppn + (v - lo), flags)
    ensures MapsTo(m0, m2, d, lo, v + 1, ppn, flags)
  {
  }

  lemma MappedAfterWalk(m0: Memory, o0: Owners, m1: Memory, o1: Owners, m2: Memory, o2: Owners,
                        d: nat, v: nat, ppn: nat, flags: bv12)
    requires Grew(m0, o0, m1, o1, d) && SameView(m0, m1, d) && HeldBut(o0, o1, 0, 0)
    requires Mapped(m1, o1, m2, o2, d, v, v + 1, ppn, flags)
    ensures Mapped(m0, o0, m2, o2, d, v, v + 1, ppn, flags)
  {
    GrewTwice(m0, o0, m1, o1, m2, o2, d);
  }

  lemma FreeForeign(mem: Memory, head: nat, free: seq<nat>, owner: Owners, p: nat, content: seq<Word>)
    requires FreeOk(mem, head, free, owner) && p < |mem| && |content| == NPTE
    requires p in owner ==> owner[p] != Free
    ensures FreeOk(mem[p := content], head, free, owner)
  {
    var mem' := mem[p := content];
    forall k | 0 <= k < |free| ensures FreeLink(mem', free, k) {
      assert FreeLink(mem, free, k) && free[k] in free;
    }
  }

  lemma FreePush(mem: Memory, head: nat, free: seq<nat>, owner: Owners, p: nat)
    requires FreeOk(mem, head, free, owner) && p in owner && owner[p] != Free
    ensures FreeOk(mem[p := Junk(head)], p, [p] + free, owner[p := Free])
  {
    var mem', free', owner' := mem[p := Junk(head)], [p] + free, owner[p := Free];
    FreeForeign(mem, head, free, owner, p, Junk(head));
    forall q ensures q in free' <==> q in owner' && owner'[q] == Free {
      assert q in free' <==> q == p || q in free;
    }
    forall k | 0 <= k < |free'| ensures FreeLink(mem', free', k) {
      if k > 0 {
        assert FreeLink(mem', free, k - 1);
      }
    }
  }

  lemma FreedOneMore(owner: Owners, lo: nat, p: nat)
    requires lo <= p && p in owner
    ensures Freed(owner, lo, p)[p := Free] == Freed(owner, lo, p + 1)
  {
  }

  /** The pages lo .. hi go to the free list. */
  function Freed(owner: Owners, lo: nat, hi: nat): Owners {
    map p | p in owner :: if lo <= p < hi then Free else owner[p]
  }

  lemma TableInstalled(mem: Memory, head: nat, free: seq<nat>, owner: Owners, d: nat, i: nat, t: nat, flags: bv12)
    requires Conserved(mem, owner) && IsDir(owner, d) && i < NPTE && Entry(mem, d, i) == ZERO
    requires t in owner && owner[t] == Free && flags & PTE_P != 0
    requires FreeOk(mem, head, free, owner[t := Held])
    ensures var mem' := SetEntry(mem[t := Zeroes()], d, i, Word(t, flags));
      Conserved(mem', owner[t := Table(d, i)]) && FreeOk(mem', head, free, owner[t := Table(d, i)])
  {
    HandOver(mem, owner, t, Held);
    FreeForeign(mem, head, free, owner[t := Held], t, Zeroes());
    ForeignPage(mem, owner[t := Held], t, Zeroes());
    NewTable(mem[t := Zeroes()], owner[t := Held], d, i, t, flags);
    assert owner[t := Held][t := Table(d, i)] == owner[t := Table(d, i)];
    FreeForeign(mem[t := Zeroes()], head, free, owner[t := Held], d, mem[t := Zeroes()][d][i := Word(t, flags)]);
  }

  /** A new page table shows nothing new, and only d and its own page are written. */
  lemma TableGrew(mem: Memory, owner: Owners, d: nat, i: nat, t: nat, flags: bv12)
    requires Conserved(mem, owner) && IsDir(owner, d) && i < NPTE && Entry(mem, d, i) == ZERO
    requires t in owner && owner[t] == Free && flags & PTE_P != 0
    ensures var mem', owner' := SetEntry(mem[t := Zeroes()], d, i, Word(t, flags)), owner[t := Table(d, i)];
      && Grew(mem, owner, mem', owner', d) && SameView(mem, mem', d) && HeldBut(owner, owner', 0, 0)
      && Entry(mem', d, i) == Word(t, flags)
  {
    HandOver(mem, owner, t, Held);
    ForeignPage(mem, owner[t := Held], t, Zeroes());
    NewTable(mem[t := Zeroes()], owner[t := Held], d, i, t, flags);
    var mem', owner' := SetEntry(mem[t := Zeroes()], d, i, Word(t, flags)), owner[t := Table(d, i)];
    assert IsDir(owner[t := Held], d);
    forall p | 0 <= p < |mem| ensures GrewAt(mem, owner, mem', owner', d, p) {
    }
  }

  /** Held pages stay held, except lo .. hi, and no page comes to be held. */
  ghost predicate HeldBut(o0: Owners, o1: Owners, lo: nat, hi: nat) {
    && (forall p :: p in o0 <==> p in o1)
    && forall p :: p in o0 ==> (o1[p] == Held ==> o0[p] == Held) && (o0[p] == Held && !(lo <= p < hi) ==> o1[p] == Held)
  }

  /** One past the physical pages that mapping lo .. hi from ppn on takes for users. */
  function Taken(lo: nat, hi: nat, ppn: nat): nat {
    if lo < USERTOP && lo < hi then ppn + (hi - lo) else ppn
  }

  /** Pages lo .. hi of d came to be mapped from ppn on, and little else happened. */
  ghost predicate Mapped(m0: Memory, o0: Owners, m1: Memory, o1: Owners, d: nat, lo: nat, hi: nat, ppn: nat, flags: bv12) {
    && lo <= hi
    && Grew(m0, o0, m1, o1, d) && MapsTo(m0, m1, d, lo, hi, ppn, flags) && HeldBut(o0, o1, ppn, Taken(lo, hi, ppn))
  }

  /** Pages lo .. last of d can be mapped from ppn on. */
  ghost predicate MapReady(m: Memory, o: Owners, d: nat, lo: nat, last: nat, ppn: nat) {
    && d < |m| && IsDir(o, d)
    && Unmapped(m, d, lo, last + 1) == true && Supplied(o, lo, last + 1, ppn) == true
  }

  lemma MappedNothing(m: Memory, o: Owners, d: nat, lo: nat, ppn: nat, flags: bv12)
    ensures Mapped(m, o, m, o, d, lo, lo, ppn, flags) == true
  {
    GrewNothing(m, o, d);
  }

  lemma MappedOneMore(m0: Memory, o0: Owners, m1: Memory, o1: Owners, m2: Memory, o2: Owners,
                      d: nat, lo: nat, v: nat, ppn: nat, pa: nat, flags: bv12)
    requires Mapped(m0, o0, m1, o1, d, lo, v, ppn, flags)
    requires pa == ppn + (v - lo) && Mapped(m1, o1, m2, o2, d, v, v + 1, pa, flags) == true
    ensures Mapped(m0, o0, m2, o2, d, lo, v + 1, ppn, flags)
  {
    GrewTwice(m0, o0, m1, o1, m2, o2, d);
    MapsOneMore(m0, m1, m2, d, lo, v, ppn, flags);
  }

  /** The store of mappages. */
  lemma Stored(mem: Memory, head: nat, free: seq<nat>, owner: Owners, d: nat, v: nat, p: nat, flags: bv12)
    requires Conserved(mem, owner) && FreeOk(mem, head, free, owner) && IsDir(owner, d) && v < VTOP
    requires Present(Entry(mem, d, Pdx(v))) && Pte(mem, d, Pdx(v), Ptx(v)) == ZERO && flags & PTE_P != 0
    requires v < USERTOP ==> p in owner && owner[p] == Held
    ensures var mem' := SetEntry(mem, Entry(mem, d, Pdx(v)).page, Ptx(v), Word(p, flags));
      var owner' := if v < USERTOP then owner[p := User(d, Pdx(v), Ptx(v))] else owner;
      && Conserved(mem', owner') && FreeOk(mem', head, free, owner')
      && Mapped(mem, owner, mem', owner', d, v, v + 1, p, flags)
  {
    PdxPtx(v);
    var i, j := Pdx(v), Ptx(v);
    var t := Entry(mem, d, i).page;
    assert PdeOk(mem, owner, d, i) && OwnerOk(mem, owner, t);
    StoreIsLocal(mem, owner, d, i, j, Word(p, flags));
    FreeForeign(mem, head, free, owner, t, mem[t][j := Word(p, flags)]);
    if v < USERTOP {
      MapUser(mem, owner, d, i, j, p, flags);
    } else {
      MapKernel(mem, owner, d, i, j, Word(p, flags));
    }
    var mem' := SetEntry(mem, t, j, Word(p, flags));
    var owner' := if v < USERTOP then owner[p := User(d, i, j)] else owner;
    forall q | 0 <= q < |mem| ensures GrewAt(mem, owner, mem', owner', d, q) {
    }
    forall a, b | 0 <= a < NPTE && 0 <= b < NPTE
      ensures Pte(mem', d, a, b) == if v <= Vpn(a, b) < v + 1 then Word(p + (Vpn(a, b) - v), flags) else Pte(mem, d, a, b)
    {
    }
  }

  lemma DirStays(m0: Memory, o0: Owners, m1: Memory, o1: Owners, d: nat, e: nat)
    requires Grew(m0, o0, m1, o1, d) && IsDir(o0, e) && e < |m0|
    ensures IsDir(o1, e)
  {
    assert GrewAt(m0, o0, m1, o1, d, e);
  }

  /** PGROUNDDOWN(va + size - 1) */
  function Last(va: nat, size: nat): nat
    requires 0 < size
  {
    (va + size - 1) / PGSIZE
  }

  lemma LastPage(va: nat, size: nat)
    requires 0 < size && va + size <= UINT
    ensures va / PGSIZE <= Last(va, size) < VTOP
  {
  }

  ghost predicate Unmapped(mem: Memory, d: nat, lo: nat, hi: nat) {
    forall i, j :: 0 <= i < NPTE && 0 <= j < NPTE && lo <= Vpn(i, j) < hi ==> Pte(mem, d, i, j) == ZERO
  }

  /** The pages that user pages lo .. hi are to be mapped to are at hand. */
  ghost predicate Supplied(owner: Owners, lo: nat, hi: nat, ppn: nat) {
    forall p :: ppn <= p < ppn + (hi - lo) && lo + (p - ppn) < USERTOP ==> p in owner && owner[p] == Held
  }

  lemma GrewNothing(m: Memory, o: Owners, d: nat)
    ensures Grew(m, o, m, o, d) && SameView(m, m, d) && HeldBut(o, o, 0, 0)
  {
    assert forall p :: 0 <= p < |m| ==> GrewAt(m, o, m, o, d, p);
  }

  /** Before page a, mappages has neither touched its entry nor used up its page. */
  lemma NextIsReady(m0: Memory, o0: Owners, m: Memory, o: Owners, d: nat, lo: nat, a: nat, hi: nat, ppn: nat, flags: bv12)
    requires lo <= a < hi <= VTOP && Unmapped(m0, d, lo, hi) == true && Supplied(o0, lo, hi, ppn) == true
    requires Mapped(m0, o0, m, o, d, lo, a, ppn, flags) == true && IsDir(o0, d) && d < |m0|
    ensures IsDir(o, d) && Pte(m, d, Pdx(a), Ptx(a)) == ZERO
    ensures a < USERTOP ==> ppn + (a - lo) in o && o[ppn + (a - lo)] == Held
  {
    PdxPtx(a);
    var p := ppn + (a - lo);
    assert a < USERTOP ==> p in o0 && o0[p] == Held;
    DirStays(m0, o0, m, o, d, d);
  }

  // ---- releasing

  /** Pages lo .. hi of d are no longer mapped, their frames are free, and nothing else happened but to the
      tables of d and to free pages. */
  ghost predicate Shrunk(m0: Memory, o0: Owners, m1: Memory, o1: Owners, d: nat, lo: nat, hi: nat) {
    && |m0| == |m1| && o1 == Released(o0, d, lo, hi)
    && (forall i, j :: 0 <= i < NPTE && 0 <= j < NPTE ==>
          Pte(m1, d, i, j) == if lo <= Vpn(i, j) < hi then ZERO else Pte(m0, d, i, j))
    && (forall p :: 0 <= p < |m0| && !Touchable(o0, d, lo, hi, p) ==> m1[p] == m0[p])
  }

  predicate Touchable(owner: Owners, d: nat, lo: nat, hi: nat, p: nat) {
    p in owner && (owner[p] == Free || InRange(owner[p], d, lo, hi) || (owner[p].Table? && owner[p].d == d))
  }

  lemma ShrunkTwice(m0: Memory, o0: Owners, m1: Memory, o1: Owners, m2: Memory, o2: Owners, d: nat, lo: nat, v: nat, w: nat)
    requires lo <= v <= w && Shrunk(m0, o0, m1, o1, d, lo, v) && Shrunk(m1, o1, m2, o2, d, v, w)
    ensures Shrunk(m0, o0, m2, o2, d, lo, w)
  {
    assert o2 == Released(o0, d, lo, w);
    forall p | 0 <= p < |m0| && !Touchable(o0, d, lo, w, p) ensures m2[p] == m0[p] {
      assert !Touchable(o0, d, lo, v, p) && !Touchable(o1, d, v, w, p);
    }
  }

  /** Where nothing is mapped there is nothing to release. */
  lemma ShrunkNothing(mem: Memory, owner: Owners, d: nat, lo: nat, hi: nat)
    requires Conserved(mem, owner) && Unmapped(mem, d, lo, hi)
    ensures Shrunk(mem, owner, mem, owner, d, lo, hi)
  {
    forall p | p in owner ensures !InRange(owner[p], d, lo, hi) {
      assert OwnerOk(mem, owner, p);
    }
    assert owner == Released(owner, d, lo, hi);
  }

  lemma NoTable(mem: Memory, d: nat, v: nat, hi: nat)
    requires v < VTOP && !Present(Entry(mem, d, Pdx(v))) && hi <= (Pdx(v) + 1) * NPTE
    ensures Unmapped(mem, d, v, hi)
  {
    PdxPtx(v);
    forall i, j | 0 <= i < NPTE && 0 <= j < NPTE && v <= Vpn(i, j) < hi ensures Pte(mem, d, i, j) == ZERO {
      assert i == Pdx(v);
    }
  }

  /** Where the loop of deallocuvm goes on when the directory has no table for page a: a is set one page
      before the next directory entry, in 32 bits, and then moves on by one page. */
  function AfterSkip(a: nat): nat {
    (((Pdx(a) + 1) * NPTE % VTOP + VTOP - 1) % VTOP + 1) % VTOP
  }

  /** The skip moves forward exactly when the page is not in the last directory entry. */
  lemma SkipAdvances(a: nat)
    requires a < VTOP
    ensures a < AfterSkip(a) <==> Pdx(a) < NPTE - 1
    ensures Pdx(a) < NPTE - 1 ==> AfterSkip(a) == (Pdx(a) + 1) * NPTE
  {
    PdxPtx(a);
    var i := Pdx(a);
    if i < NPTE - 1 {
      var next := (i + 1) * NPTE;
      assert next < VTOP && (next + VTOP - 1) % VTOP == next - 1;
    }
  }

  /** What FreePage works on: table t holds the entry of page v of d, which maps frame p. */
  ghost predicate FrameAt(mem: Memory, owner: Owners, d: nat, v: nat, t: nat, p: nat) {
    && IsDir(owner, d) && v < USERTOP && Present(Entry(mem, d, Pdx(v))) && t == Entry(mem, d, Pdx(v)).page
    && Present(Pte(mem, d, Pdx(v), Ptx(v))) && p == Pte(mem, d, Pdx(v), Ptx(v)).page
    && p in owner && owner[p] == User(d, Pdx(v), Ptx(v)) && t in owner && owner[t] == Table(d, Pdx(v))
    && p < |mem| && t < |mem| && Ptx(v) < NPTE && |mem[t]| == NPTE && mem[t][Ptx(v)].page == p
  }

  lemma FrameIsThere(mem: Memory, owner: Owners, d: nat, v: nat)
    requires Conserved(mem, owner) && IsDir(owner, d) && v < USERTOP
    requires Present(Entry(mem, d, Pdx(v))) && Present(Pte(mem, d, Pdx(v), Ptx(v)))
    ensures FrameAt(mem, owner, d, v, Entry(mem, d, Pdx(v)).page, Pte(mem, d, Pdx(v), Ptx(v)).page)
  {
    EntryThere(mem, owner, d, v);
    PdxPtx(v);
    assert PdeOk(mem, owner, d, Pdx(v)) && PteOk(mem, owner, d, Pdx(v), Ptx(v));
    assert OwnerOk(mem, owner, Pte(mem, d, Pdx(v), Ptx(v)).page);
  }

  /** kfree before the entry is cleared: the two stores commute. */
  lemma FrameReleased(mem: Memory, owner: Owners, d: nat, v: nat, t: nat, p: nat, content: seq<Word>)
    requires Conserved(mem, owner) && FrameAt(mem, owner, d, v, t, p) && |content| == NPTE
    ensures var mem' := SetEntry(mem[p := content], t, Ptx(v), ZERO);
      Conserved(mem', owner[p := Free]) && Shrunk(mem, owner, mem', owner[p := Free], d, v, v + 1)
  {
    PdxPtx(v);
    UnmapUser(mem, owner, d, Pdx(v), Ptx(v));
    StoreIsLocal(mem, owner, d, Pdx(v), Ptx(v), ZERO);
    var mid := SetEntry(mem, t, Ptx(v), ZERO);
    assert SetEntry(mem[p := content], t, Ptx(v), ZERO) == mid[p := content];
    ForeignPage(mid, owner[p := Free], p, content);
    OneReleased(mem, owner, d, v);
  }

  lemma FrameFreed(mem: Memory, head: nat, free: seq<nat>, owner: Owners, d: nat, v: nat, t: nat, p: nat)
    requires FreeOk(mem, head, free, owner) && FrameAt(mem, owner, d, v, t, p)
    ensures FreeOk(mem, head, free, owner[p := Held])
    ensures FreeOk(SetEntry(mem[p := Junk(head)], t, Ptx(v), ZERO), p, [p] + free, owner[p := Free])
  {
    FreePush(mem, head, free, owner, p);
    FreeForeign(mem[p := Junk(head)], p, [p] + free, owner[p := Free], t, mem[t][Ptx(v) := ZERO]);
  }

  lemma FrameGone(mem: Memory, head: nat, free: seq<nat>, owner: Owners, d: nat, v: nat, t: nat, p: nat)
    requires Conserved(mem, owner) && FreeOk(mem, head, free, owner) && FrameAt(mem, owner, d, v, t, p)
    ensures FreeOk(mem, head, free, owner[p := Held]) == true
    ensures t < |mem| && Ptx(v) < NPTE
    ensures var mem' := SetEntry(mem[p := Junk(head)], t, Ptx(v), ZERO);
      && Conserved(mem', owner[p := Free]) == true && Shrunk(mem, owner, mem', owner[p := Free], d, v, v + 1) == true
      && FreeOk(mem', p, [p] + free, owner[p := Free]) == true
  {
    FrameReleased(mem, owner, d, v, t, p, Junk(head));
    FrameFreed(mem, head, free, owner, d, v, t, p);
  }

  lemma OneReleased(mem: Memory, owner: Owners, d: nat, v: nat)
    requires Conserved(mem, owner) && IsDir(owner, d) && v < USERTOP
    requires Present(Pte(mem, d, Pdx(v), Ptx(v)))
    ensures owner[Pte(mem, d, Pdx(v), Ptx(v)).page := Free] == Released(owner, d, v, v + 1)
  {
    PdxPtx(v);
    var p := Pte(mem, d, Pdx(v), Ptx(v)).page;
    assert PteOk(mem, owner, d, Pdx(v), Ptx(v));
    forall q | q in owner ensures InRange(owner[q], d, v, v + 1) <==> q == p {
      assert OwnerOk(mem, owner, q);
    }
  }

  /** One turn of deallocuvm, from page a to page next; hi is the end of the range. */
  lemma ShrunkTurn(m0: Memory, o0: Owners, m1: Memory, o1: Owners, m2: Memory, o2: Owners,
                   d: nat, lo: nat, a: nat, next: nat, hi: nat)
    requires lo <= a < hi && a < next && Shrunk(m0, o0, m1, o1, d, lo, Min(a, hi)) && Conserved(m1, o1)
    requires next == a + 1 ==> Shrunk(m1, o1, m2, o2, d, a, a + 1)
    requires next != a + 1 ==> m2 == m1 && o2 == o1 && Unmapped(m1, d, a, next)
    ensures Shrunk(m0, o0, m2, o2, d, lo, Min(next, hi))
  {
    if next != a + 1 {
      ShrunkNothing(m1, o1, d, a, Min(next, hi));
    }
    ShrunkTwice(m0, o0, m1, o1, m2, o2, d, lo, a, Min(next, hi));
  }

  lemma EntryThere(mem: Memory, owner: Owners, d: nat, v: nat)
    requires Conserved(mem, owner) && IsDir(owner, d) && v < VTOP && Present(Entry(mem, d, Pdx(v)))
    ensures var t := Entry(mem, d, Pdx(v)).page;
      t < |mem| && Ptx(v) < |mem[t]| && mem[t][Ptx(v)] == Pte(mem, d, Pdx(v), Ptx(v))
    ensures !Present(Pte(mem, d, Pdx(v), Ptx(v))) ==> Unmapped(mem, d, v, v + 1)
  {
    PdxPtx(v);
    assert PdeOk(mem, owner, d, Pdx(v)) && PteOk(mem, owner, d, Pdx(v), Ptx(v));
    assert OwnerOk(mem, owner, Entry(mem, d, Pdx(v)).page);
  }

  // ---- tearing down a directory

  /** Only d, what belongs to it and free pages were written. */
  ghost predicate Untouched(m0: Memory, o0: Owners, m1: Memory, d: nat) {
    |m0| == |m1| && forall p :: 0 <= p < |m0| && !Ours(o0, d, p) ==> m1[p] == m0[p]
  }

  predicate Ours(owner: Owners, d: nat, p: nat) {
    p in owner && (owner[p] == Free || Belongs(owner[p], d, p))
  }

  lemma EmptyDir(m0: Memory, o0: Owners, m1: Memory, o1: Owners, d: nat)
    requires Conserved(m0, o0) && IsDir(o0, d) && Shrunk(m0, o0, m1, o1, d, 0, USERTOP)
    ensures Unmapped(m1, d, 0, USERTOP) && IsDir(o1, d) && Untouched(m0, o0, m1, d)
  {
    forall p | 0 <= p < |m0| && !Ours(o0, d, p) ensures m1[p] == m0[p] {
      assert !Touchable(o0, d, 0, USERTOP, p);
    }
  }

  lemma UntouchedTwice(m0: Memory, o: Owners, m1: Memory, m2: Memory, d: nat)
    requires Untouched(m0, o, m1, d) == true && Untouched(m1, o, m2, d) == true
    ensures Untouched(m0, o, m2, d)
  {
  }

  /** Table i of d, when there is one, is the page that turns free as the loop of freevm passes it. */
  lemma RetireNext(m: Memory, o: Owners, d: nat, i: nat)
    requires Conserved(m, o) && IsDir(o, d) && i < NPTE
    ensures d < |m| && |m[d]| == NPTE
    ensures !Present(m[d][i]) ==> Retired(o, d, i + 1) == Retired(o, d, i)
    ensures Present(m[d][i]) ==> var p := m[d][i].page;
      p in o && o[p] == Table(d, i) && p != d && Retired(o, d, i)[p] == Held && Retired(o, d, i + 1) == Retired(o, d, i)[p := Free]
  {
    assert OwnerOk(m, o, d) && PdeOk(m, o, d, i);
    forall q | q in o && o[q] == Table(d, i) ensures Present(m[d][i]) && q == m[d][i].page {
      assert OwnerOk(m, o, q);
    }
  }

  lemma StillUntouched(m0: Memory, o0: Owners, m1: Memory, o1: Owners, m2: Memory, m3: Memory, d: nat)
    requires Untouched(m0, o0, m1, d) && Untouched(m1, o1, m2, d) && IsDir(o0, d)
    requires o1 == Released(o0, d, 0, USERTOP)
    requires |m3| == |m2| && forall p :: 0 <= p < |m2| && p != d ==> m3[p] == m2[p]
    ensures Untouched(m0, o0, m3, d)
  {
    forall p | 0 <= p < |m0| && !Ours(o0, d, p) ensures m3[p] == m0[p] {
      assert !Ours(o1, d, p) && p != d;
    }
  }

  lemma AllGone(m0: Memory, o0: Owners, o: Owners, d: nat)
    requires Conserved(m0, o0) && IsDir(o0, d) && o == Released(o0, d, 0, USERTOP)
    ensures Retired(o, d, NPTE)[d := Free] == Gone(o0, d)
  {
    forall p | p in o0 ensures p in Retired(o, d, NPTE) && Retired(o, d, NPTE)[d := Free][p] == Gone(o0, d)[p] {
      assert OwnerOk(m0, o0, p);
    }
  }

  // ---- setupkvm

  datatype Row = Row(virt: nat, start: nat, end: nat, perm: bv12)

  const NKMAP: nat := 4

  /** kmap[k], in bytes; data is where the kernel's writable data start. */
  function Kmap(data: nat, k: nat): Row {
    if k == 0 then Row(KERNBASE, 0, EXTMEM, PTE_W)
    else if k == 1 then Row(KERNBASE + EXTMEM, EXTMEM, data, 0)
    else if k == 2 then Row(KERNBASE + data, data, PHYSTOP, PTE_W)
    else Row(DEVSPACE, DEVSPACE, 0, PTE_W)
  }

  /** k->phys_end - k->phys_start, in 32 bits */
  function RowSize(r: Row): nat {
    if r.start <= r.end then r.end - r.start else (r.end + UINT - r.start) % UINT
  }

  predicate Covers(r: Row, v: nat) {
    r.virt / PGSIZE <= v < r.virt / PGSIZE + RowSize(r) / PGSIZE
  }

  /** What the first k rows say of page v. */
  function KernelPte(data: nat, k: nat, v: nat): Word
    requires k <= 4
  {
    if k == 0 then ZERO else
      var r := Kmap(data, k - 1);
      if Covers(r, v) then Word(r.start / PGSIZE + (v - r.virt / PGSIZE), r.perm | PTE_P) else KernelPte(data, k - 1, v)
  }

  ghost predicate ShowsKernel(mem: Memory, d: nat, data: nat, k: nat)
    requires k <= 4
  {
    forall i, j :: 0 <= i < NPTE && 0 <= j < NPTE ==> Pte(mem, d, i, j) == KernelPte(data, k, Vpn(i, j))
  }

  /** The kernel's mappings, in page numbers and in the order of their addresses. */
  function KernelMap(data: nat, v: nat): Word {
    if v < USERTOP then ZERO
    else if v < USERTOP + EXTMEM / PGSIZE then Word(v - USERTOP, PTE_W | PTE_P)
    else if v < USERTOP + data / PGSIZE then Word(v - USERTOP, PTE_P)
    else if v < USERTOP + PHYSPAGES then Word(v - USERTOP, PTE_W | PTE_P)
    else if DEVSPACE / PGSIZE <= v < VTOP then Word(v, PTE_W | PTE_P)
    else ZERO
  }

  ghost predicate ShowsMap(mem: Memory, d: nat, data: nat) {
    forall i, j :: 0 <= i < NPTE && 0 <= j < NPTE ==> Pte(mem, d, i, j) == KernelMap(data, Vpn(i, j))
  }

  lemma KernelPtes(data: nat, v: nat)
    requires EXTMEM < data < PHYSTOP && data % PGSIZE == 0
    ensures KernelPte(data, NKMAP, v) == KernelMap(data, v)
  {
    RowPages(data);
    assert KernelPte(data, 1, v) == if Covers(Kmap(data, 0), v) then Word(v - USERTOP, PTE_W | PTE_P) else ZERO;
    assert KernelPte(data, 2, v) == if Covers(Kmap(data, 1), v) then Word(v - USERTOP, PTE_P) else KernelPte(data, 1, v);
    assert KernelPte(data, 3, v) == if Covers(Kmap(data, 2), v) then Word(v - USERTOP, PTE_W | PTE_P) else KernelPte(data, 2, v);
  }

  lemma AllRows(mem: Memory, d: nat, data: nat, k: nat)
    requires EXTMEM < data < PHYSTOP && data % PGSIZE == 0 && k == NKMAP && ShowsKernel(mem, d, data, k)
    ensures ShowsMap(mem, d, data)
  {
    forall i, j | 0 <= i < NPTE && 0 <= j < NPTE ensures Pte(mem, d, i, j) == KernelMap(data, Vpn(i, j)) {
      KernelPtes(data, Vpn(i, j));
    }
  }

  lemma RowPages(data: nat)
    requires EXTMEM < data < PHYSTOP && data % PGSIZE == 0
    ensures Kmap(data, 1).virt / PGSIZE == USERTOP + EXTMEM / PGSIZE && RowSize(Kmap(data, 1)) / PGSIZE == data / PGSIZE - EXTMEM / PGSIZE
    ensures Kmap(data, 2).virt / PGSIZE == USERTOP + data / PGSIZE && RowSize(Kmap(data, 2)) / PGSIZE == PHYSPAGES - data / PGSIZE
    ensures RowSize(Kmap(data, 0)) / PGSIZE == EXTMEM / PGSIZE && RowSize(Kmap(data, 3)) / PGSIZE == VTOP - DEVSPACE / PGSIZE
  {
  }

  /** mappages can take row k: it is whole pages, in range, and no page of it is mapped yet. */
  lemma RowIsNew(mem: Memory, owner: Owners, d: nat, data: nat, k: nat)
    requires EXTMEM < data < PHYSTOP && data % PGSIZE == 0 && k < 4 && ShowsKernel(mem, d, data, k)
    ensures var r := Kmap(data, k);
      var lo, hi := r.virt / PGSIZE, r.virt / PGSIZE + RowSize(r) / PGSIZE;
      && 0 < RowSize(r) && r.virt + RowSize(r) <= UINT && Last(r.virt, RowSize(r)) + 1 == hi
      && USERTOP <= lo && Unmapped(mem, d, lo, hi) && Supplied(owner, lo, hi, r.start / PGSIZE)
  {
    RowPages(data);
    var r := Kmap(data, k);
    var lo, hi := r.virt / PGSIZE, r.virt / PGSIZE + RowSize(r) / PGSIZE;
    forall i, j | 0 <= i < NPTE && 0 <= j < NPTE && lo <= Vpn(i, j) < hi ensures Pte(mem, d, i, j) == ZERO {
      NotYet(data, k, Vpn(i, j));
    }
  }

  /** No page is in two rows. */
  lemma NotYet(data: nat, k: nat, v: nat)
    requires EXTMEM < data < PHYSTOP && data % PGSIZE == 0 && k < 4 && Covers(Kmap(data, k), v)
    ensures KernelPte(data, k, v) == ZERO
  {
    RowPages(data);
    assert k >= 1 ==> !Covers(Kmap(data, 0), v) && KernelPte(data, 1, v) == ZERO;
    assert k >= 2 ==> !Covers(Kmap(data, 1), v) && KernelPte(data, 2, v) == ZERO;
    assert k >= 3 ==> !Covers(Kmap(data, 2), v) && KernelPte(data, 3, v) == ZERO;
  }

  lemma ShowsOneMore(m0: Memory, m1: Memory, d: nat, data: nat, k: nat, lo: nat, hi: nat, ppn: nat, flags: bv12)
    requires k < 4 && ShowsKernel(m0, d, data, k) && MapsTo(m0, m1, d, lo, hi, ppn, flags)
    requires lo == Kmap(data, k).virt / PGSIZE && hi == lo + RowSize(Kmap(data, k)) / PGSIZE
    requires ppn == Kmap(data, k).start / PGSIZE && flags == Kmap(data, k).perm | PTE_P
    ensures ShowsKernel(m1, d, data, k + 1)
  {
  }

  lemma GrownMore(m0: Memory, o0: Owners, m1: Memory, o1: Owners, m2: Memory, o2: Owners,
                  d: nat, lo: nat, hi: nat, ppn: nat, flags: bv12)
    requires Grown(m0, o0, m1, o1, d) && Mapped(m1, o1, m2, o2, d, lo, hi, ppn, flags) && USERTOP <= lo
    requires IsDir(o1, d) && d < |m1|
    ensures Grown(m0, o0, m2, o2, d) && IsDir(o2, d)
  {
    GrewTwice(m0, o0, m1, o1, m2, o2, d);
    DirStays(m1, o1, m2, o2, d, d);
  }

  lemma RowMapped(m0: Memory, o0: Owners, m1: Memory, o1: Owners, m2: Memory, o2: Owners,
                  d: nat, data: nat, k: nat, hi: nat)
    requires k < 4 && Grown(m0, o0, m1, o1, d) && ShowsKernel(m1, d, data, k) && IsDir(o1, d) && d < |m1|
    requires EXTMEM < data < PHYSTOP && data % PGSIZE == 0
    requires var r := Kmap(data, k);
      Mapped(m1, o1, m2, o2, d, r.virt / PGSIZE, hi, r.start / PGSIZE, r.perm | PTE_P)
    ensures Grown(m0, o0, m2, o2, d) && IsDir(o2, d)
    ensures hi == Kmap(data, k).virt / PGSIZE + RowSize(Kmap(data, k)) / PGSIZE ==> ShowsKernel(m2, d, data, k + 1)
  {
    RowPages(data);
    var r := Kmap(data, k);
    GrownMore(m0, o0, m1, o1, m2, o2, d, r.virt / PGSIZE, hi, r.start / PGSIZE, r.perm | PTE_P);
    if hi == r.virt / PGSIZE + RowSize(r) / PGSIZE {
      ShowsOneMore(m1, m2, d, data, k, r.virt / PGSIZE, hi, r.start / PGSIZE, r.perm | PTE_P);
    }
  }

  /** Only free pages were written. */
  ghost predicate FreeOnly(m0: Memory, o0: Owners, m1: Memory) {
    |m0| == |m1| && forall p :: 0 <= p < |m0| ==> m1[p] == m0[p] || (p in o0 && o0[p] == Free)
  }

  /** A directory that was made and torn down again leaves no trace but in free pages. */
  lemma TornDown(m0: Memory, o0: Owners, m1: Memory, o1: Owners, m2: Memory, d: nat)
    requires Conserved(m0, o0) && Grown(m0, o0, m1, o1, d) && o0[d] == Free && Untouched(m1, o1, m2, d)
    ensures Gone(o1, d) == o0 && FreeOnly(m0, o0, m2)
  {
    forall p | p in o0 ensures Gone(o1, d)[p] == o0[p] && !(o0[p] != Free && Belongs(o0[p], d, p)) {
      assert OwnerOk(m0, o0, p) && GrewAt(m0, o0, m1, o1, d, p);
    }
    forall p | 0 <= p < |m0| ensures m2[p] == m0[p] || (p in o0 && o0[p] == Free) {
      assert GrewAt(m0, o0, m1, o1, d, p);
      assert p in o1 && Ours(o1, d, p) ==> o0[p] == Free;
    }
  }

  /** Growth seen from outside: no page is held that was not before. */
  ghost predicate Grown(m0: Memory, o0: Owners, m1: Memory, o1: Owners, d: nat) {
    Grew(m0, o0, m1, o1, d) && HeldBut(o0, o1, 0, 0) && d in o0 && d in o1
  }

  lemma DirMade(mem: Memory, owner: Owners, head: nat, free: seq<nat>, d: nat, data: nat)
    requires Conserved(mem, owner) && d in owner && d < |mem| && owner[d] == Free && FreeOk(mem, head, free, owner[d := Held])
    ensures var mem', owner' := mem[d := Zeroes()], owner[d := Dir];
      && Conserved(mem', owner') && FreeOk(mem', head, free, owner')
      && Grown(mem, owner, mem', owner', d) && ShowsKernel(mem', d, data, 0)
  {
    var mem', owner' := mem[d := Zeroes()], owner[d := Dir];
    HandOver(mem, owner, d, Held);
    ForeignPage(mem, owner[d := Held], d, Zeroes());
    NewDir(mem', owner[d := Held], d);
    assert owner[d := Held][d := Dir] == owner';
    FreeForeign(mem, head, free, owner[d := Held], d, Zeroes());
    forall p | 0 <= p < |mem| ensures GrewAt(mem, owner, mem', owner', d, p) {
    }
  }

  // ---- user pages

  lemma OnePage(v: nat)
    requires v < USERTOP
    ensures v * PGSIZE / PGSIZE == v && Last(v * PGSIZE, PGSIZE) == v && v * PGSIZE + PGSIZE <= UINT
  {
  }

  /** d maps page v to p, which was free and now holds content. */
  ghost predicate Added(m0: Memory, o0: Owners, m1: Memory, o1: Owners, d: nat, v: nat, p: nat, content: seq<Word>, flags: bv12) {
    && Grown(m0, o0, m1, o1, d) && MapsTo(m0, m1, d, v, v + 1, p, flags)
    && p in o0 && o0[p] == Free && p in o1 && o1[p] == User(d, Pdx(v), Ptx(v)) && p < |m1| && m1[p] == content
  }

  /** Page p, free before, is held; d shows what it showed. */
  ghost predicate Pending(m0: Memory, o0: Owners, m1: Memory, o1: Owners, d: nat, p: nat) {
    && Grew(m0, o0, m1, o1, d) && SameView(m0, m1, d)
    && p in o0 && o0[p] == Free && p in o1 && o1[p] == Held && HeldBut(o0, o1[p := Free], 0, 0)
  }

  lemma PageFilled(mem: Memory, owner: Owners, head: nat, free: seq<nat>, p: nat, d: nat, v: nat, content: seq<Word>)
    requires Conserved(mem, owner) && p in owner && owner[p] == Free && FreeOk(mem, head, free, owner[p := Held])
    requires |content| == NPTE && IsDir(owner, d) && Unmapped(mem, d, v, v + 1)
    ensures p < |mem| && var m1, o1 := mem[p := content], owner[p := Held];
      && Conserved(m1, o1) && FreeOk(m1, head, free, o1) && Grew(mem, owner, m1, o1, d)
      && SameView(mem, m1, d) && Unmapped(m1, d, v, v + 1) && Supplied(o1, v, v + 1, p) && IsDir(o1, d)
  {
    assert OwnerOk(mem, owner, p);
    var m1, o1 := mem[p := content], owner[p := Held];
    HandOver(mem, owner, p, Held);
    ForeignPage(mem, owner, p, content);
    ForeignPage(mem, o1, p, content);
    FreeForeign(mem, head, free, o1, p, content);
    forall q | 0 <= q < |mem| ensures GrewAt(mem, owner, m1, o1, d, q) {
    }
  }

  lemma PageAdded(m0: Memory, o0: Owners, m1: Memory, o1: Owners, m2: Memory, o2: Owners, d: nat, v: nat, p: nat, content: seq<Word>, flags: bv12)
    requires p in o0 && o0[p] == Free && p < |m0| && |m1| == |m0| == |m2| && m1[p] == content && o1 == o0[p := Held]
    requires Grew(m0, o0, m1, o1, d) == true && SameView(m0, m1, d) == true && Conserved(m2, o2) && IsDir(o1, d) && d < |m0|
    requires Mapped(m1, o1, m2, o2, d, v, v + 1, p, flags) == true && v < USERTOP && flags & PTE_P != 0
    ensures Added(m0, o0, m2, o2, d, v, p, content, flags)
  {
    PdxPtx(v);
    DirStays(m1, o1, m2, o2, d, d);
    var i, j := Pdx(v), Ptx(v);
    GrewTwice(m0, o0, m1, o1, m2, o2, d);
    assert PteOk(m2, o2, d, i, j) && Pte(m2, d, i, j) == Word(p, flags);
    assert GrewAt(m1, o1, m2, o2, d, p);
  }

  lemma PagePending(m0: Memory, o0: Owners, m1: Memory, o1: Owners, m2: Memory, o2: Owners, d: nat, v: nat, p: nat, content: seq<Word>, flags: bv12)
    requires p in o0 && o0[p] == Free && p < |m0| && |m1| == |m0| == |m2| && m1[p] == content && o1 == o0[p := Held]
    requires Grew(m0, o0, m1, o1, d) == true && SameView(m0, m1, d) == true
    requires Mapped(m1, o1, m2, o2, d, v, v, p, flags) == true
    ensures Pending(m0, o0, m2, o2, d, p)
  {
    GrewTwice(m0, o0, m1, o1, m2, o2, d);
  }

  // ---- allocuvm

  /** A fresh page of zeroes, for the user to read and write. */
  predicate FreshZero(o0: Owners, m1: Memory, w: Word) {
    && w.flags == PTE_W | PTE_U | PTE_P && w.page < |m1|
    && w.page in o0 && o0[w.page] == Free && m1[w.page] == Zeroes()
  }

  /** Pages lo .. hi of d are fresh zeroes, d shows the rest as before, and nothing else changed but free
      pages and the tables of d. */
  ghost predicate Extended(m0: Memory, o0: Owners, m1: Memory, o1: Owners, d: nat, lo: nat, hi: nat) {
    && Grown(m0, o0, m1, o1, d)
    && forall i, j :: 0 <= i < NPTE && 0 <= j < NPTE ==>
         if lo <= Vpn(i, j) < hi then FreshZero(o0, m1, Pte(m1, d, i, j)) else Pte(m1, d, i, j) == Pte(m0, d, i, j)
  }

  /** d shows what it showed; of the free pages some may have become tables of d, and nothing else changed. */
  ghost predicate Backed(m0: Memory, o0: Owners, m1: Memory, o1: Owners, d: nat) {
    && Grown(m0, o0, m1, o1, d) && SameView(m0, m1, d)
    && forall p :: p in o0 && o0[p] == Free ==> o1[p] == Free || (o1[p].Table? && o1[p].d == d)
  }

  lemma ExtendedNothing(m: Memory, o: Owners, d: nat, lo: nat)
    requires d in o
    ensures Extended(m, o, m, o, d, lo, lo)
  {
    GrewNothing(m, o, d);
  }

  lemma StillUnmapped(m0: Memory, o0: Owners, m1: Memory, o1: Owners, d: nat, lo: nat, a: nat, hi: nat)
    requires Extended(m0, o0, m1, o1, d, lo, a) && Unmapped(m0, d, lo, hi) && lo <= a < hi
    ensures Unmapped(m1, d, a, a + 1)
  {
  }

  /** A free page was free all along. */
  lemma FreeBefore(m0: Memory, o0: Owners, m1: Memory, o1: Owners, d: nat, p: nat)
    requires Grown(m0, o0, m1, o1, d) && p in o1 && o1[p] == Free && p < |m0|
    ensures p in o0 && o0[p] == Free
  {
    assert GrewAt(m0, o0, m1, o1, d, p);
  }

  lemma ExtendedOneMore(m0: Memory, o0: Owners, m1: Memory, o1: Owners, m2: Memory, o2: Owners,
                        d: nat, lo: nat, a: nat, p: nat)
    requires lo <= a && Extended(m0, o0, m1, o1, d, lo, a) && Conserved(m1, o1) && IsDir(o1, d)
    requires Added(m1, o1, m2, o2, d, a, p, Zeroes(), PTE_W | PTE_U | PTE_P) == true && a < USERTOP
    ensures Extended(m0, o0, m2, o2, d, lo, a + 1) && IsDir(o2, d)
  {
    GrewTwice(m0, o0, m1, o1, m2, o2, d);
    assert OwnerOk(m1, o1, d);
    DirStays(m1, o1, m2, o2, d, d);
    FreeBefore(m0, o0, m1, o1, d, p);
    forall i, j | 0 <= i < NPTE && 0 <= j < NPTE
      ensures if lo <= Vpn(i, j) < a + 1 then FreshZero(o0, m2, Pte(m2, d, i, j)) else Pte(m2, d, i, j) == Pte(m0, d, i, j)
    {
      if lo <= Vpn(i, j) < a {
        assert PteOk(m1, o1, d, i, j);
        assert GrewAt(m1, o1, m2, o2, d, Pte(m1, d, i, j).page);
      }
    }
  }

  /** Where allocuvm stands when it fails: d shows something new in lo .. hi at most, and page p, if not 0, is
      held. */
  ghost predicate HalfDone(m0: Memory, o0: Owners, m1: Memory, o1: Owners, d: nat, lo: nat, hi: nat, p: nat) {
    && Conserved(m0, o0) && Unmapped(m0, d, lo, hi) && IsDir(o0, d) && IsDir(o1, d) && Grew(m0, o0, m1, o1, d)
    && (forall i, j :: 0 <= i < NPTE && 0 <= j < NPTE && !(lo <= Vpn(i, j) < hi) ==> Pte(m1, d, i, j) == Pte(m0, d, i, j))
    && HeldTo(o0, o1, p)
  }

  /** The pages held are those held before, and p if it is not 0, which was free. */
  ghost predicate HeldTo(o0: Owners, o1: Owners, p: nat) {
    && o0.Keys == o1.Keys && (p != 0 ==> p in o0 && o0[p] == Free && o1[p] == Held)
    && forall q :: q in o0 && (p == 0 || q != p) ==> (o1[q] == Held <==> o0[q] == Held)
  }

  lemma Stuck(m0: Memory, o0: Owners, m1: Memory, o1: Owners, m2: Memory, o2: Owners,
              d: nat, lo: nat, a: nat, hi: nat, p: nat)
    requires Conserved(m0, o0) && Unmapped(m0, d, lo, hi) && IsDir(o0, d) && IsDir(o1, d) && a <= hi
    requires Extended(m0, o0, m1, o1, d, lo, a)
    requires p == 0 ==> m2 == m1 && o2 == o1
    requires p != 0 ==> Pending(m1, o1, m2, o2, d, p)
    ensures HalfDone(m0, o0, m2, o2, d, lo, hi, p)
  {
    assert OwnerOk(m0, o0, d);
    if p != 0 {
      GrewTwice(m0, o0, m1, o1, m2, o2, d);
      DirStays(m1, o1, m2, o2, d, d);
      assert OwnerOk(m0, o0, p);
      FreeBefore(m0, o0, m1, o1, d, p);
      forall q | q in o0 && q != p ensures o2[q] == Held <==> o0[q] == Held {
        assert o2[p := Free][q] == o2[q];
      }
    }
  }

  /** Backed, but for page p if it is not 0, which is held. */
  ghost predicate NearlyBacked(m0: Memory, o0: Owners, m1: Memory, o1: Owners, d: nat, p: nat) {
    && Grew(m0, o0, m1, o1, d) && SameView(m0, m1, d) && HeldTo(o0, o1, p)
    && forall q :: q in o0 && q != p && o0[q] == Free ==> o1[q] == Free || (o1[q].Table? && o1[q].d == d)
  }

  lemma GaveBack(m0: Memory, o0: Owners, m1: Memory, o1: Owners, m2: Memory, o2: Owners, d: nat, p: nat)
    requires p != 0 && NearlyBacked(m0, o0, m1, o1, d, p) && Conserved(m1, o1) && IsDir(o1, d) && IsDir(o0, d)
    requires |m2| == |m1| && o2 == o1[p := Free] && forall q :: 0 <= q < |m1| && q != p ==> m2[q] == m1[q]
    ensures Backed(m0, o0, m2, o2, d)
  {
    assert OwnerOk(m1, o1, p);
    GrewSettled(m0, o0, m1, o1, m2, o2, d, p);
    ViewStays(m1, o1, m2, d, p);
  }

  lemma Unwound(m0: Memory, o0: Owners, m1: Memory, o1: Owners, m2: Memory, o2: Owners,
                d: nat, lo: nat, hi: nat, p: nat)
    requires HalfDone(m0, o0, m1, o1, d, lo, hi, p) && Conserved(m1, o1) && Shrunk(m1, o1, m2, o2, d, lo, hi)
    ensures NearlyBacked(m0, o0, m2, o2, d, p) && IsDir(o2, d) && IsDir(o0, d)
    ensures p == 0 ==> Backed(m0, o0, m2, o2, d)
  {
    forall q | q in o0 && o0[q] == Free && o1[q].User? ensures InRange(o1[q], d, lo, hi) {
      assert OwnerOk(m1, o1, q) && OwnerOk(m0, o0, q) && GrewAt(m0, o0, m1, o1, d, q);
      assert PteOk(m0, o0, d, o1[q].i, o1[q].j);
    }
    forall q | 0 <= q < |m0| ensures GrewAt(m0, o0, m2, o2, d, q) {
      assert GrewAt(m0, o0, m1, o1, d, q);
      if q in o1 && InRange(o1[q], d, lo, hi) {
        assert OwnerOk(m0, o0, q) && OwnerOk(m1, o1, q);
        assert PteOk(m0, o0, d, o1[q].i, o1[q].j);
      } else {
        assert q in o1 && o1[q] != Free && !Touchable(o1, d, lo, hi, q) ==> m2[q] == m1[q];
      }
    }
    forall q | q in o0 && q != p && o0[q] == Free ensures o2[q] == Free || (o2[q].Table? && o2[q].d == d) {
      assert OwnerOk(m0, o0, q) && GrewAt(m0, o0, m1, o1, d, q);
      assert !(o1[q].Dir? && q == d);
    }
    assert OwnerOk(m0, o0, 0);
  }

  lemma ViewStays(m: Memory, o: Owners, m': Memory, d: nat, p: nat)
    requires Conserved(m, o) && IsDir(o, d) && p in o && !o[p].Dir? && !o[p].Table? && |m'| == |m|
    requires forall q :: 0 <= q < |m| && q != p ==> m'[q] == m[q]
    ensures SameView(m, m', d)
  {
    forall i, j | 0 <= i < NPTE && 0 <= j < NPTE ensures Pte(m', d, i, j) == Pte(m, d, i, j) {
      assert PdeOk(m, o, d, i);
    }
  }

  // ---- copyuvm

  ghost predicate AllPresent(mem: Memory, d: nat, n: nat) {
    forall i, j :: 0 <= i < NPTE && 0 <= j < NPTE && Vpn(i, j) < n ==> Present(Pte(mem, d, i, j))
  }

  /** w1 maps a page that was free and holds what the page of w0 held, with the same flags. */
  predicate CopyOf(m0: Memory, o0: Owners, m1: Memory, w0: Word, w1: Word) {
    && w1.flags == w0.flags && w0.page < |m0| && w1.page < |m1|
    && w1.page in o0 && o0[w1.page] == Free && m1[w1.page] == m0[w0.page]
  }

  /** d holds copies of the first n pages of pgdir and the kernel's mappings, and nothing else changed but
      free pages. */
  ghost predicate Copied(m0: Memory, o0: Owners, m1: Memory, o1: Owners, data: nat, pgdir: nat, d: nat, n: nat) {
    && Grown(m0, o0, m1, o1, d)
    && forall i, j :: 0 <= i < NPTE && 0 <= j < NPTE ==>
         if Vpn(i, j) < n then CopyOf(m0, o0, m1, Pte(m0, pgdir, i, j), Pte(m1, d, i, j))
         else Pte(m1, d, i, j) == KernelMap(data, Vpn(i, j))
  }

  lemma CopiedNothing(m0: Memory, o0: Owners, m1: Memory, o1: Owners, data: nat, pgdir: nat, d: nat)
    requires Grown(m0, o0, m1, o1, d) && ShowsMap(m1, d, data)
    ensures Copied(m0, o0, m1, o1, data, pgdir, d, 0)
  {
  }

  /** The parent is still as it was, and the child has nothing at page v. */
  lemma ParentStays(m0: Memory, o0: Owners, m1: Memory, o1: Owners, data: nat, pgdir: nat, d: nat, v: nat, hi: nat)
    requires Conserved(m0, o0) && IsDir(o0, pgdir) && d in o0 && o0[d] == Free && v < hi <= USERTOP
    requires AllPresent(m0, pgdir, hi) && Copied(m0, o0, m1, o1, data, pgdir, d, v)
    ensures IsDir(o1, pgdir) && Present(Entry(m1, pgdir, Pdx(v)))
    ensures var w := Pte(m1, pgdir, Pdx(v), Ptx(v));
      w == Pte(m0, pgdir, Pdx(v), Ptx(v)) && Present(w) && w.page < |m0| == |m1| && m1[w.page] == m0[w.page]
    ensures Unmapped(m1, d, v, v + 1)
  {
    PdxPtx(v);
    var i, j := Pdx(v), Ptx(v);
    GrewKeepsOthers(m0, o0, m1, o1, d, pgdir, i, j);
    assert PteOk(m0, o0, pgdir, i, j) && Present(Pte(m0, pgdir, i, j));
    assert OwnerOk(m0, o0, Pte(m0, pgdir, i, j).page) && GrewAt(m0, o0, m1, o1, d, Pte(m0, pgdir, i, j).page);
  }

  lemma CopiedOneMore(m0: Memory, o0: Owners, m1: Memory, o1: Owners, m2: Memory, o2: Owners,
                      data: nat, pgdir: nat, d: nat, v: nat, p: nat, w: Word)
    requires Copied(m0, o0, m1, o1, data, pgdir, d, v) && Conserved(m1, o1) && IsDir(o1, d) && v < USERTOP
    requires w == Pte(m0, pgdir, Pdx(v), Ptx(v)) && Present(w) && w.page < |m0|
    requires Added(m1, o1, m2, o2, d, v, p, m0[w.page], w.flags | PTE_P) == true
    ensures Copied(m0, o0, m2, o2, data, pgdir, d, v + 1) && IsDir(o2, d)
  {
    PdxPtx(v);
    GrewTwice(m0, o0, m1, o1, m2, o2, d);
    assert OwnerOk(m1, o1, d);
    DirStays(m1, o1, m2, o2, d, d);
    FreeBefore(m0, o0, m1, o1, d, p);
    forall i, j | 0 <= i < NPTE && 0 <= j < NPTE
      ensures if Vpn(i, j) < v + 1 then CopyOf(m0, o0, m2, Pte(m0, pgdir, i, j), Pte(m2, d, i, j))
              else Pte(m2, d, i, j) == KernelMap(data, Vpn(i, j))
    {
      if Vpn(i, j) < v {
        assert PteOk(m1, o1, d, i, j);
        assert GrewAt(m1, o1, m2, o2, d, Pte(m1, d, i, j).page);
      }
    }
  }

  lemma NotCopied(m0: Memory, o0: Owners, m1: Memory, o1: Owners, m2: Memory, o2: Owners, d: nat, p: nat)
    requires Grown(m0, o0, m1, o1, d) && Conserved(m1, o1) && IsDir(o1, d)
    requires p == 0 ==> m2 == m1 && o2 == o1
    requires p != 0 ==> Pending(m1, o1, m2, o2, d, p) == true
    ensures Grew(m0, o0, m2, o2, d) && HeldTo(o0, o2, p) && IsDir(o2, d)
    ensures p != 0 ==> p < |m0|
    ensures p == 0 ==> Grown(m0, o0, m2, o2, d)
    ensures p != 0 ==> HeldBut(o0, o2[p := Free], 0, 0)
  {
    assert OwnerOk(m1, o1, d) && OwnerOk(m1, o1, p) && OwnerOk(m1, o1, 0);
    if p != 0 {
      GrewTwice(m0, o0, m1, o1, m2, o2, d);
      DirStays(m1, o1, m2, o2, d, d);
      FreeBefore(m0, o0, m1, o1, d, p);
      forall q | q in o0 && q != p ensures o2[q] == Held <==> o0[q] == Held {
        assert o2[p := Free][q] == o2[q];
      }
    }
  }

  class Machine {
    const first: nat                 // the first page past the kernel, PGROUNDUP(end)
    const data: nat                  // V2P(data)
    var mem: Memory
    var freelist: nat
    ghost var free: seq<nat>
    ghost var owner: Owners
    ghost var starved: nat           // how often kalloc has had no page to give

    ghost predicate FreeListOk()
      reads this
    {
      && |mem| == PHYSPAGES
      && (forall p :: p in owner <==> 0 < first <= p < PHYSPAGES)
      && FreeOk(mem, freelist, free, owner) == true
    }

    ghost predicate Valid()
      reads this
    {
      && FreeListOk() && Conserved(mem, owner) == true
      && EXTMEM < data < PHYSTOP && data % PGSIZE == 0
    }

    /** Before kinit1 no page is free. */
    constructor (m: Memory, endPage: nat, dataStart: nat)
      requires |m| == PHYSPAGES && Shape(m) && 0 < endPage
      requires EXTMEM < dataStart < PHYSTOP && dataStart % PGSIZE == 0
      ensures Valid() && free == [] && mem == m && first == endPage
      ensures forall p :: p in owner ==> owner[p] == Lent
    {
      first, data, mem, freelist := endPage, dataStart, m, 0;
      free, starved := [], 0;
      owner := map p | p in Range(PHYSPAGES) && endPage <= p :: Lent;
    }

    method Kalloc() returns (p: nat)
      requires FreeListOk()
      modifies this
      ensures FreeListOk() && mem == old(mem)
      ensures p == 0 <==> old(free) == []
      ensures p == 0 ==> owner == old(owner) && free == old(free) && freelist == old(freelist)
      ensures p != 0 ==> p == old(free[0]) && free == old(free[1..]) && p in owner && old(owner[p]) == Free && owner == old(owner)[p := Held]
      ensures starved == old(starved) + if p == 0 then 1 else 0
    {
      p := freelist;
      if p == 0 {
        starved := starved + 1;
      } else {
        assert free[0] in free;
        assert FreeLink(mem, free, 0);
        freelist := mem[p][0].page;
        ghost var was := free;
        owner := owner[p := Held];
        free := free[1..];
        forall q ensures q in free <==> q in owner && owner[q] == Free {
          assert q in was <==> q == was[0] || q in was[1..];
        }
        forall k | 0 <= k < |free| ensures FreeLink(mem, free, k) {
          assert FreeLink(mem, was, k + 1);
        }
      }
    }

    method Kfree(p: nat)
      requires FreeListOk() && p in owner && (owner[p] == Held || owner[p] == Lent)
      modifies this
      ensures FreeListOk()
      ensures mem == old(mem)[p := Junk(old(freelist))] && freelist == p
      ensures free == [p] + old(free) && owner == old(owner)[p := Free]
      ensures starved == old(starved)
    {
      FreePush(mem, freelist, free, owner, p);
      mem := mem[p := Junk(freelist)];
      freelist := p;
      free := [p] + free;
      owner := owner[p := Free];
    }

    /** Every whole page between the two addresses goes to the free list. */
    method Freerange(vstart: nat, vend: nat)
      requires Valid()
      requires forall p :: PageRoundUp(vstart) <= p < vend / PGSIZE ==> p in owner && owner[p] == Lent
      modifies this
      ensures Valid() && owner == Freed(old(owner), PageRoundUp(vstart), vend / PGSIZE)
      ensures starved == old(starved)
    {
      ghost var o, lo := owner, PageRoundUp(vstart);
      var p := PageRoundUp(vstart);
      while (p + 1) * PGSIZE <= vend
        invariant Valid() && lo <= p && (p == lo || p <= vend / PGSIZE) && owner == Freed(o, lo, p) && starved == old(starved)
      {
        FreedOneMore(o, lo, p);
        assert lo <= p < vend / PGSIZE && p in o;
        FreeOne(p);
        p := p + 1;
      }
    }

    /** kfree keeps conservation. */
    method FreeOne(p: nat)
      requires Valid() && p in owner && (owner[p] == Held || owner[p] == Lent)
      modifies this
      ensures Valid() && owner == old(owner)[p := Free] && mem == old(mem)[p := Junk(old(freelist))]
      ensures starved == old(starved)
    {
      ForeignPage(mem, owner, p, Junk(freelist));
      HandOver(mem[p := Junk(freelist)], owner, p, Free);
      Kfree(p);
    }

    /** The else branch of walkpgdir: a zeroed page becomes table i. */
    method NewPageTable(d: nat, i: nat) returns (t: nat)
      requires Valid() && IsDir(owner, d) && i < NPTE && Entry(mem, d, i) == ZERO
      modifies this
      ensures Valid()
      ensures t == 0 <==> old(free) == []
      ensures t == 0 ==> mem == old(mem) && owner == old(owner) && free == old(free)
      ensures t != 0 ==> t in owner && old(owner)[t] == Free && owner == old(owner)[t := Table(d, i)]
      ensures t != 0 ==> mem == SetEntry(old(mem)[t := Zeroes()], d, i, Word(t, PTE_P | PTE_W | PTE_U))
      ensures starved == old(starved) + if t == 0 then 1 else 0
    {
      ghost var o := owner;
      t := Kalloc();
      if t != 0 {
        TableInstalled(mem, freelist, free, o, d, i, t, PTE_P | PTE_W | PTE_U);
        mem := mem[t := Zeroes()];
        mem := SetEntry(mem, d, i, Word(t, PTE_P | PTE_W | PTE_U));
        owner := o[t := Table(d, i)];
      }
    }

    /** The entry for page v, in a new page table when there is none and alloc asks for it. */
    method Walkpgdir(d: nat, v: nat, alloc: bool) returns (r: Option<Slot>)
      requires Valid() && IsDir(owner, d) && v < VTOP
      modifies this
      ensures Valid() && Grew(old(mem), old(owner), mem, owner, d) == true
      ensures SameView(old(mem), mem, d) == true && HeldBut(old(owner), owner, 0, 0) == true
      ensures r.None? <==> !Present(old(Entry(mem, d, Pdx(v)))) && (!alloc || old(free) == [])
      ensures r.None? || Present(old(Entry(mem, d, Pdx(v)))) ==>
        mem == old(mem) && owner == old(owner) && free == old(free)
      ensures r.Some? ==> Present(Entry(mem, d, Pdx(v))) && r.value == Slot(Entry(mem, d, Pdx(v)).page, Ptx(v))
      ensures starved == old(starved) + if r.None? && alloc then 1 else 0
    {
      PdxPtx(v);
      assert OwnerOk(mem, owner, d);
      GrewNothing(mem, owner, d);
      var i := Pdx(v);
      if Present(mem[d][i]) {
        return Some(Slot(mem[d][i].page, Ptx(v)));
      }
      if !alloc {
        return None;
      }
      assert PdeOk(mem, owner, d, i);
      ghost var m, o := mem, owner;
      var t := NewPageTable(d, i);
      if t == 0 {
        return None;
      }
      TableGrew(m, o, d, i, t, PTE_P | PTE_W | PTE_U);
      return Some(Slot(t, Ptx(v)));
    }

    /** One turn of the loop of mappages: walkpgdir, then the entry is written. */
    method MapOne(d: nat, v: nat, p: nat, perm: bv12) returns (ok: bool)
      requires Valid() && IsDir(owner, d) && v < VTOP && Pte(mem, d, Pdx(v), Ptx(v)) == ZERO
      requires v < USERTOP ==> p in owner && owner[p] == Held
      modifies this
      ensures Valid()
      ensures !ok ==> mem == old(mem) && owner == old(owner) && free == old(free) && free == []
      ensures ok ==> Mapped(old(mem), old(owner), mem, owner, d, v, v + 1, p, perm | PTE_P) == true
      ensures starved == old(starved) + if ok then 0 else 1
    {
      PdxPtx(v);
      ghost var m, o := mem, owner;
      var pte := Walkpgdir(d, v, true);
      if pte.None? {
        return false;
      }
      ghost var m1, o1 := mem, owner;
      DirStays(m, o, m1, o1, d, d);
      Store(pte.value, d, v, p, perm | PTE_P);
      MappedAfterWalk(m, o, m1, o1, mem, owner, d, v, p, perm | PTE_P);
      return true;
    }

    /** *pte = pa | perm | PTE_P */
    method Store(pte: Slot, d: nat, v: nat, p: nat, flags: bv12)
      requires Valid() && IsDir(owner, d) && v < VTOP && flags & PTE_P != 0
      requires Present(Entry(mem, d, Pdx(v))) && pte == Slot(Entry(mem, d, Pdx(v)).page, Ptx(v))
      requires Pte(mem, d, Pdx(v), Ptx(v)) == ZERO && (v < USERTOP ==> p in owner && owner[p] == Held)
      modifies this
      ensures Valid() && Mapped(old(mem), old(owner), mem, owner, d, v, v + 1, p, flags) == true
      ensures starved == old(starved)
    {
      Stored(mem, freelist, free, owner, d, v, p, flags);
      mem := SetEntry(mem, pte.table, pte.index, Word(p, flags));
      owner := if v < USERTOP then owner[p := User(d, Pdx(v), Ptx(v))] else owner;
    }

    /** mappages up to page hi, which is past the last page exactly when it returns 0. "remap" is the
        caller's to avoid. */
    method Mappages(d: nat, va: nat, size: nat, ppn: nat, perm: bv12) returns (r: int, ghost hi: nat)
      requires Valid() && IsDir(owner, d) && 0 < size && va + size <= UINT
      requires Unmapped(mem, d, va / PGSIZE, Last(va, size) + 1) == true
      requires Supplied(owner, va / PGSIZE, Last(va, size) + 1, ppn) == true
      modifies this
      ensures Valid() && va / PGSIZE <= hi <= Last(va, size) + 1
      ensures r == (if hi == Last(va, size) + 1 then 0 else -1)
      ensures r == -1 ==> free == []
      ensures Mapped(old(mem), old(owner), mem, owner, d, va / PGSIZE, hi, ppn, perm | PTE_P) == true
      ensures starved == old(starved) + if r == 0 then 0 else 1
    {
      LastPage(va, size);
      MappedNothing(mem, owner, d, va / PGSIZE, ppn, perm | PTE_P);
      r, hi := MapLoop(d, va / PGSIZE, Last(va, size), ppn, perm, perm | PTE_P, mem, owner);
    }

    /** mappages has done the pages from a0 up to a. */
    ghost predicate MapAt(m: Memory, o: Owners, d: nat, a0: nat, a: nat, pa0: nat, flags: bv12)
      reads this
    {
      Valid() && Mapped(m, o, mem, owner, d, a0, a, pa0, flags) == true
    }

    /** One turn of that loop, seen from its start. */
    method MapTurn(d: nat, ghost a0: nat, a: nat, ghost last: nat, ghost pa0: nat, pa: nat, perm: bv12,
                   ghost flags: bv12, ghost m: Memory, ghost o: Owners) returns (ok: bool)
      requires MapReady(m, o, d, a0, last, pa0) == true && flags == perm | PTE_P
      requires MapAt(m, o, d, a0, a, pa0, flags) == true && a0 <= a <= last < VTOP && pa == pa0 + (a - a0)
      modifies this
      ensures MapAt(m, o, d, a0, if ok then a + 1 else a, pa0, flags) == true
      ensures starved == old(starved) + (if ok then 0 else 1) && (!ok ==> free == [])
    {
      NextIsReady(m, o, mem, owner, d, a0, a, last + 1, pa0, flags);
      ghost var m1, o1 := mem, owner;
      ok := MapOne(d, a, pa, perm);
      if ok {
        MappedOneMore(m, o, m1, o1, mem, owner, d, a0, a, pa0, pa, flags);
      }
    }

    /** The loop of mappages, from page a0 to page last. */
    method MapLoop(d: nat, a0: nat, last: nat, pa0: nat, perm: bv12, ghost flags: bv12, ghost m: Memory, ghost o: Owners)
      returns (r: int, ghost hi: nat)
      requires MapReady(m, o, d, a0, last, pa0) == true && flags == perm | PTE_P
      requires MapAt(m, o, d, a0, a0, pa0, flags) == true && a0 <= last < VTOP
      modifies this
      ensures MapAt(m, o, d, a0, hi, pa0, flags) == true && a0 <= hi <= last + 1
      ensures r == (if hi == last + 1 then 0 else -1) && (r == -1 ==> free == [])
      ensures starved == old(starved) + if r == 0 then 0 else 1
    {
      var a, pa := a0, pa0;
      while true
        invariant a0 <= a <= last && pa == pa0 + (a - a0) && starved == old(starved)
        invariant MapAt(m, o, d, a0, a, pa0, flags) == true
        decreases last - a
      {
        var ok := MapTurn(d, a0, a, last, pa0, pa, perm, flags, m, o);
        if !ok {
          return -1, a;
        }
        if a == last {
          break;
        }
        a := a + 1;
        pa := pa + 1;
      }
      return 0, a + 1;
    }

    /** deallocuvm. */
    method Deallocuvm(d: nat, oldsz: nat, newsz: nat) returns (r: nat)
      requires Valid() && IsDir(owner, d) && oldsz <= KERNBASE && newsz < UINT
      modifies this
      ensures Valid()
      ensures r == if newsz >= oldsz then oldsz else newsz
      ensures newsz >= oldsz ==> mem == old(mem) && owner == old(owner) && free == old(free)
      ensures newsz < oldsz ==>
        Shrunk(old(mem), old(owner), mem, owner, d, PageRoundUp(newsz), PageRoundUp(oldsz)) == true
      ensures starved == old(starved)
    {
      if newsz >= oldsz {
        return oldsz;
      }
      ghost var m, o, lo, hi := mem, owner, PageRoundUp(newsz), PageRoundUp(oldsz);
      var a := PageRoundUp(newsz);
      ShrunkNothing(m, o, d, lo, lo);
      while a * PGSIZE < oldsz
        invariant Valid() && IsDir(owner, d) && lo <= a && lo <= hi <= USERTOP && starved == old(starved)
        invariant a < hi <==> a * PGSIZE < oldsz
        invariant Shrunk(m, o, mem, owner, d, lo, Min(a, hi)) == true
        decreases oldsz - a * PGSIZE
      {
        ghost var m1, o1, at := mem, owner, a;
        a := DeallocTurn(d, a);
        ShrunkTurn(m, o, m1, o1, mem, owner, d, lo, at, a, hi);
      }
      return newsz;
    }

    /** One turn of the loop of deallocuvm. */
    method DeallocTurn(d: nat, a: nat) returns (next: nat)
      requires Valid() && IsDir(owner, d) && a < USERTOP
      modifies this
      ensures Valid() && IsDir(owner, d) && a < next
      ensures next == a + 1 ==> Shrunk(old(mem), old(owner), mem, owner, d, a, a + 1) == true
      ensures next != a + 1 ==>
        mem == old(mem) && owner == old(owner) && free == old(free) && Unmapped(mem, d, a, next) == true
      ensures starved == old(starved)
    {
      PdxPtx(a);
      SkipAdvances(a);
      var pte := Walkpgdir(d, a, false);
      if pte.None? {
        NoTable(mem, d, a, AfterSkip(a));
        return AfterSkip(a);
      }
      EntryThere(mem, owner, d, a);
      if Present(mem[pte.value.table][pte.value.index]) {
        ghost var m, o := mem, owner;
        FreePage(d, a, pte.value);
        assert owner == Released(o, d, a, a + 1) && IsDir(o, d);
      } else {
        ShrunkNothing(mem, owner, d, a, a + 1);
      }
      return a + 1;
    }

    /** A frame whose entry is about to be cleared. */
    ghost method Forget(p: nat)
      requires FreeListOk() && p in owner && owner[p].User?
      modifies this`owner
      ensures FreeListOk() && owner == old(owner)[p := Held]
    {
      owner := owner[p := Held];
    }

    /** kfree(v); *pte = 0 */
    method FreePage(d: nat, v: nat, pte: Slot)
      requires Valid() && IsDir(owner, d) && v < USERTOP && Present(Entry(mem, d, Pdx(v)))
      requires pte == Slot(Entry(mem, d, Pdx(v)).page, Ptx(v)) && Present(Pte(mem, d, Pdx(v), Ptx(v)))
      modifies this
      ensures Valid() && Shrunk(old(mem), old(owner), mem, owner, d, v, v + 1) == true
      ensures starved == old(starved)
    {
      FrameIsThere(mem, owner, d, v);
      var p := mem[pte.table][pte.index].page;
      FrameGone(mem, freelist, free, owner, d, v, pte.table, p);
      ghost var o := owner;
      Forget(p);
      Kfree(p);
      assert owner == o[p := Free];
      mem := SetEntry(mem, pte.table, pte.index, ZERO);
    }

    /** freevm: everything d owns goes to the free list, once each. */
    method Freevm(d: nat)
      requires Valid() && IsDir(owner, d)
      modifies this
      ensures Valid() && owner == Gone(old(owner), d) && Untouched(old(mem), old(owner), mem, d) == true
      ensures starved == old(starved)
    {
      ghost var m0, o0 := mem, owner;
      var _ := Deallocuvm(d, KERNBASE, 0);
      ghost var m, o := mem, owner;
      EmptyDir(m0, o0, m, o, d);
      ghost var m1 := FreeRest(d);
      AllGone(m0, o0, o, d);
      StillUntouched(m0, o0, m, o, m1, mem, d);
    }

    /** The page tables of a directory without user pages, and the directory itself; m is the memory between. */
    method FreeRest(d: nat) returns (ghost m: Memory)
      requires Valid() && IsDir(owner, d) && Unmapped(mem, d, 0, USERTOP)
      modifies this
      ensures Valid() && starved == old(starved) && owner == Retired(old(owner), d, NPTE)[d := Free]
      ensures Untouched(old(mem), old(owner), m, d) == true
      ensures |mem| == |m| && forall p :: 0 <= p < |m| && p != d ==> mem[p] == m[p]
    {
      ghost var o := owner;
      StartRetire(d);
      FreeTables(d, o);
      m := mem;
      FreeOne(d);
    }

    /** The loop of freevm, over the directory as it stood with owners o. */
    method FreeTables(d: nat, ghost o: Owners)
      requires Valid() && owner == Retired(o, d, 0) && Conserved(mem, o) && IsDir(o, d)
      modifies this
      ensures Valid() && owner == Retired(o, d, NPTE) && Untouched(old(mem), o, mem, d) == true
      ensures starved == old(starved)
    {
      ghost var m := mem;
      var i := 0;
      while i < NPTE
        invariant 0 <= i <= NPTE && Valid() && owner == Retired(o, d, i) && starved == old(starved)
        invariant d < |m| && mem[d] == m[d] && Untouched(m, o, mem, d) == true
      {
        ghost var m1 := mem;
        FreeTable(d, i, m, o);
        UntouchedTwice(m, o, m1, mem, d);
        i := i + 1;
      }
    }

    /** One turn of the loop. */
    method FreeTable(d: nat, i: nat, ghost m: Memory, ghost o: Owners)
      requires Valid() && Conserved(m, o) && IsDir(o, d) && i < NPTE
      requires owner == Retired(o, d, i) && d < |mem| && d < |m| && mem[d] == m[d]
      modifies this
      ensures Valid() && owner == Retired(o, d, i + 1)
      ensures d < |mem| && mem[d] == m[d] && Untouched(old(mem), o, mem, d) == true
      ensures starved == old(starved)
    {
      RetireNext(m, o, d, i);
      if Present(mem[d][i]) {
        FreeOne(mem[d][i].page);
      }
    }

    ghost method StartRetire(d: nat)
      requires Valid() && IsDir(owner, d) && Unmapped(mem, d, 0, USERTOP)
      modifies this`owner
      ensures Valid() && owner == Retired(old(owner), d, 0)
    {
      assert OwnerOk(mem, owner, d);
      forall i, j | 0 <= i < USERDIRS && 0 <= j < NPTE ensures Pte(mem, d, i, j) == ZERO {
        assert Vpn(i, j) < USERTOP;
      }
      Retire(mem, owner, d);
      owner := Retired(owner, d, 0);
    }

    /** setupkvm: a directory with the kernel's mappings alone, or 0 and everything as it was. */
    method Setupkvm() returns (d: nat)
      requires Valid()
      modifies this
      ensures Valid()
      ensures d == 0 ==> owner == old(owner) && FreeOnly(old(mem), old(owner), mem) == true
      ensures d != 0 ==> Grown(old(mem), old(owner), mem, owner, d) == true && ShowsMap(mem, d, data) == true
      ensures d != 0 ==> d in owner && old(owner)[d] == Free && owner[d] == Dir
      ensures starved == old(starved) + if d == 0 then 1 else 0
    {
      ghost var m, o := mem, owner;
      d := NewDirectory();
      if d == 0 {
        return;
      }
      var k := 0;
      while k < NKMAP
        invariant 0 <= k <= 4 && Valid() && IsDir(owner, d) && Grown(m, o, mem, owner, d) == true && starved == old(starved)
        invariant ShowsKernel(mem, d, data, k) == true
      {
        var ok := MapRow(d, k, m, o);
        if !ok {
          ghost var m1, o1 := mem, owner;
          Freevm(d);
          TornDown(m, o, m1, o1, mem, d);
          return 0;
        }
        k := k + 1;
      }
      AllRows(mem, d, data, k);
    }

    /** A zeroed page becomes a directory. */
    method NewDirectory() returns (d: nat)
      requires Valid()
      modifies this
      ensures Valid()
      ensures d == 0 ==> owner == old(owner) && mem == old(mem)
      ensures d != 0 ==> d in owner && old(owner)[d] == Free && owner[d] == Dir
      ensures d != 0 ==> Grown(old(mem), old(owner), mem, owner, d) == true && ShowsKernel(mem, d, data, 0) == true
      ensures starved == old(starved) + if d == 0 then 1 else 0
    {
      ghost var m, o := mem, owner;
      d := Kalloc();
      if d != 0 {
        DirMade(m, o, freelist, free, d, data);
        mem := mem[d := Zeroes()];
        owner := o[d := Dir];
      }
    }

    /** One turn of the loop of setupkvm; m0 and o0 are as it found memory. */
    method MapRow(d: nat, k: nat, ghost m0: Memory, ghost o0: Owners) returns (ok: bool)
      requires Valid() && IsDir(owner, d) && k < 4 && ShowsKernel(mem, d, data, k) && Grown(m0, o0, mem, owner, d)
      modifies this
      ensures Valid() && IsDir(owner, d) && Grown(m0, o0, mem, owner, d) == true
      ensures ok ==> ShowsKernel(mem, d, data, k + 1) == true
      ensures starved == old(starved) + if ok then 0 else 1
    {
      ghost var m1, o1 := mem, owner;
      RowIsNew(m1, o1, d, data, k);
      var row := Kmap(data, k);
      var r, hi := Mappages(d, row.virt, RowSize(row), row.start / PGSIZE, row.perm);
      RowMapped(m0, o0, m1, o1, mem, owner, d, data, k, hi);
      ok := r >= 0;
    }

    /** What the loops of allocuvm and copyuvm both do for page v: kalloc, then content goes into the page,
        then mappages. p is 0 when kalloc has none; without ok the page is still held. */
    method AddPage(d: nat, v: nat, content: seq<Word>, perm: bv12) returns (p: nat, ok: bool)
      requires Valid() && IsDir(owner, d) && v < USERTOP && |content| == NPTE && Unmapped(mem, d, v, v + 1)
      modifies this
      ensures Valid() && (ok ==> p != 0)
      ensures p == 0 ==> mem == old(mem) && owner == old(owner)
      ensures ok ==> Added(old(mem), old(owner), mem, owner, d, v, p, content, perm | PTE_P) == true
      ensures p != 0 && !ok ==> Pending(old(mem), old(owner), mem, owner, d, p) == true
      ensures starved == old(starved) + if ok then 0 else 1
    {
      ghost var m, o := mem, owner;
      p := TakePage(d, v, content);
      if p == 0 {
        return 0, false;
      }
      ghost var m1, o1 := mem, owner;
      OnePage(v);
      var r, hi := Mappages(d, v * PGSIZE, PGSIZE, p, perm);
      ok := r >= 0;
      if ok {
        PageAdded(m, o, m1, o1, mem, owner, d, v, p, content, perm | PTE_P);
      } else {
        PagePending(m, o, m1, o1, mem, owner, d, v, p, content, perm | PTE_P);
      }
    }

    /** kalloc, and memset or memmove, before page v of d is mapped. */
    method TakePage(d: nat, v: nat, content: seq<Word>) returns (p: nat)
      requires Valid() && IsDir(owner, d) && |content| == NPTE && Unmapped(mem, d, v, v + 1)
      modifies this
      ensures Valid()
      ensures p == 0 ==> mem == old(mem) && owner == old(owner)
      ensures p != 0 ==> p in old(owner) && old(owner)[p] == Free && owner == old(owner)[p := Held]
      ensures p != 0 ==> p < |mem| == |old(mem)| && mem[p] == content
      ensures p != 0 ==> Grew(old(mem), old(owner), mem, owner, d) == true && SameView(old(mem), mem, d) == true
      ensures p != 0 ==> Unmapped(mem, d, v, v + 1) == true && Supplied(owner, v, v + 1, p) == true && IsDir(owner, d)
      ensures starved == old(starved) + if p == 0 then 1 else 0
    {
      ghost var m, o := mem, owner;
      p := Kalloc();
      if p != 0 {
        PageFilled(m, o, freelist, free, p, d, v, content);
        mem := mem[p := content];
      }
    }

    /** allocuvm. ok is success, which the result does not tell when newsz is 0. */
    method Allocuvm(d: nat, oldsz: nat, newsz: nat) returns (r: nat, ghost ok: bool)
      requires Valid() && IsDir(owner, d) && oldsz < UINT && newsz < UINT
      requires oldsz <= newsz < KERNBASE ==> Unmapped(mem, d, PageRoundUp(oldsz), PageRoundUp(newsz))
      modifies this
      ensures Valid()
      ensures r == if newsz >= KERNBASE then 0 else if newsz < oldsz then oldsz else if ok then newsz else 0
      ensures newsz >= KERNBASE || newsz < oldsz ==> mem == old(mem) && owner == old(owner) && free == old(free)
      ensures oldsz <= newsz < KERNBASE && ok ==>
        Extended(old(mem), old(owner), mem, owner, d, PageRoundUp(oldsz), PageRoundUp(newsz)) == true
      ensures oldsz <= newsz < KERNBASE && !ok ==> Backed(old(mem), old(owner), mem, owner, d) == true
      ensures starved == old(starved) + if oldsz <= newsz < KERNBASE && !ok then 1 else 0
    {
      if newsz >= KERNBASE {
        return 0, false;
      }
      if newsz < oldsz {
        return oldsz, true;
      }
      ghost var m, o, lo, hi := mem, owner, PageRoundUp(oldsz), PageRoundUp(newsz);
      var a := PageRoundUp(oldsz);
      ExtendedNothing(m, o, d, lo);
      while a * PGSIZE < newsz
        invariant lo <= a <= hi && (a < hi <==> a * PGSIZE < newsz) && Valid() && IsDir(owner, d) && starved == old(starved)
        invariant Extended(m, o, mem, owner, d, lo, a) == true
      {
        ghost var m1, o1 := mem, owner;
        StillUnmapped(m, o, mem, owner, d, lo, a, hi);
        var p, got := AddPage(d, a, Zeroes(), PTE_W | PTE_U);
        if !got {
          Stuck(m, o, m1, o1, mem, owner, d, lo, a, hi, p);
          GiveBack(d, oldsz, newsz, p, m, o);
          return 0, false;
        }
        ExtendedOneMore(m, o, m1, o1, mem, owner, d, lo, a, p);
        a := a + 1;
      }
      return newsz, true;
    }

    /** The failure exits of allocuvm: deallocuvm, and kfree of the page that could not be mapped if there is
        one. m0 and o0 are as the call found memory. */
    method GiveBack(d: nat, oldsz: nat, newsz: nat, p: nat, ghost m0: Memory, ghost o0: Owners)
      requires Valid() && oldsz < newsz < KERNBASE
      requires HalfDone(m0, o0, mem, owner, d, PageRoundUp(oldsz), PageRoundUp(newsz), p) == true
      modifies this
      ensures Valid() && Backed(m0, o0, mem, owner, d) == true
      ensures starved == old(starved)
    {
      ghost var m2, o2 := mem, owner;
      var _ := Deallocuvm(d, newsz, oldsz);
      Unwound(m0, o0, m2, o2, mem, owner, d, PageRoundUp(oldsz), PageRoundUp(newsz), p);
      if p != 0 {
        ghost var m3, o3 := mem, owner;
        FreeOne(p);
        GaveBack(m0, o0, m3, o3, mem, owner, d, p);
      }
    }

    /** copyuvm. That every page below sz is present is the caller's to see to. */
    method Copyuvm(pgdir: nat, sz: nat) returns (d: nat)
      requires Valid() && IsDir(owner, pgdir) && sz <= KERNBASE && AllPresent(mem, pgdir, PageRoundUp(sz))
      modifies this
      ensures Valid()
      ensures d == 0 ==> owner == old(owner) && FreeOnly(old(mem), old(owner), mem) == true
      ensures d != 0 ==> d in owner && old(owner)[d] == Free && owner[d] == Dir
      ensures d != 0 ==> Copied(old(mem), old(owner), mem, owner, data, pgdir, d, PageRoundUp(sz)) == true
      ensures starved == old(starved) + if d == 0 then 1 else 0
    {
      ghost var m, o, hi := mem, owner, PageRoundUp(sz);
      d := Setupkvm();
      if d == 0 {
        return;
      }
      CopiedNothing(m, o, mem, owner, data, pgdir, d);
      var i := 0;
      while i * PGSIZE < sz
        invariant 0 <= i <= hi && (i < hi <==> i * PGSIZE < sz) && Valid() && IsDir(owner, d) && d in o && o[d] == Free
        invariant Copied(m, o, mem, owner, data, pgdir, d, i) == true && starved == old(starved)
      {
        var ok := CopyPage(pgdir, d, i, hi, m, o);
        if !ok {
          ghost var m1, o1 := mem, owner;
          Freevm(d);
          TornDown(m, o, m1, o1, mem, d);
          return 0;
        }
        i := i + 1;
      }
    }

    /** One turn of the loop of copyuvm; m0 and o0 are as the call found memory. */
    method CopyPage(pgdir: nat, d: nat, v: nat, ghost hi: nat, ghost m0: Memory, ghost o0: Owners) returns (ok: bool)
      requires Valid() && IsDir(owner, d) && v < hi <= USERTOP && Conserved(m0, o0) && IsDir(o0, pgdir)
      requires AllPresent(m0, pgdir, hi) && Copied(m0, o0, mem, owner, data, pgdir, d, v) && d in o0 && o0[d] == Free
      modifies this
      ensures Valid() && IsDir(owner, d)
      ensures ok ==> Copied(m0, o0, mem, owner, data, pgdir, d, v + 1) == true
      ensures !ok ==> Grown(m0, o0, mem, owner, d) == true
      ensures starved == old(starved) + if ok then 0 else 1
    {
      ghost var m1, o1 := mem, owner;
      var entry := ParentEntry(pgdir, d, v, hi, m0, o0);
      var p;
      p, ok := AddPage(d, v, mem[entry.page], entry.flags);
      if ok {
        CopiedOneMore(m0, o0, m1, o1, mem, owner, data, pgdir, d, v, p, entry);
      } else {
        NotCopied(m0, o0, m1, o1, mem, owner, d, p);
        if p != 0 {
          DropPage(d, p, m0, o0);
        }
      }
    }

    /** walkpgdir on the parent, whose entry is still what it was. */
    method ParentEntry(pgdir: nat, d: nat, v: nat, ghost hi: nat, ghost m0: Memory, ghost o0: Owners) returns (entry: Word)
      requires Valid() && IsDir(owner, d) && v < hi <= USERTOP && Conserved(m0, o0) && IsDir(o0, pgdir)
      requires AllPresent(m0, pgdir, hi) && Copied(m0, o0, mem, owner, data, pgdir, d, v) && d in o0 && o0[d] == Free
      modifies this
      ensures Valid() && mem == old(mem) && owner == old(owner) && starved == old(starved)
      ensures entry == Pte(m0, pgdir, Pdx(v), Ptx(v)) && Present(entry)
      ensures entry.page < |m0| == |mem| && mem[entry.page] == m0[entry.page] && |mem[entry.page]| == NPTE
      ensures Unmapped(mem, d, v, v + 1) == true
    {
      ParentStays(m0, o0, mem, owner, data, pgdir, d, v, hi);
      var pte := Walkpgdir(pgdir, v, false);
      EntryThere(mem, owner, pgdir, v);
      entry := mem[pte.value.table][pte.value.index];
    }

    /** kfree(mem) before copyuvm gives up. */
    method DropPage(d: nat, p: nat, ghost m0: Memory, ghost o0: Owners)
      requires Valid() && IsDir(owner, d) && Grew(m0, o0, mem, owner, d) == true && d in o0
      requires p in o0 && o0[p] == Free && p < |m0| && p in owner && owner[p] == Held
      requires HeldBut(o0, owner[p := Free], 0, 0) == true
      modifies this
      ensures Valid() && IsDir(owner, d) && Grown(m0, o0, mem, owner, d) == true
      ensures starved == old(starved)
    {
      ghost var m2, o2 := mem, owner;
      FreeOne(p);
      GrewSettled(m0, o0, m2, o2, mem, owner, d, p);
    }
  }
}
