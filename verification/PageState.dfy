/** Physical memory as the kernel pages it: who owns each page, and what the page tables say. A page is 1024
    words; a word is its upper 20 bits, a page number, and its lower 12, the flags. Pointers into the
    kernel's direct map of memory are physical page numbers, and 0 is the null pointer. */
module PageState {
  import opened Sequences

  const PGSIZE: nat := 4096
  const NPTE: nat := 1024          // NPDENTRIES and NPTENTRIES
  const USERDIRS: nat := 512       // directory entries below KERNBASE
  const PTE_P: bv12 := 1
  const PTE_W: bv12 := 2
  const PTE_U: bv12 := 4

  datatype Word = Word(page: nat, flags: bv12)

  const ZERO: Word := Word(0, 0)

  type Memory = seq<seq<Word>>

  /** Held is a page between kalloc and its use, Lent one that other parts of the kernel keep. */
  datatype Owner = Free | Held | Lent | Dir | Table(d: nat, i: nat) | User(d: nat, i: nat, j: nat)

  type Owners = map<nat, Owner>

  predicate Present(w: Word) {
    w.flags & PTE_P != 0
  }

  /** memset(p, 0, PGSIZE) */
  function Zeroes(): (r: seq<Word>)
    ensures |r| == NPTE && forall k :: 0 <= k < NPTE ==> r[k] == ZERO
  {
    seq(NPTE, _ => ZERO)
  }

  /** What kfree leaves in a page: the link to the next free page, then bytes of 1. */
  function Junk(next: nat): (r: seq<Word>)
    ensures |r| == NPTE && r[0] == Word(next, 0)
  {
    [Word(next, 0)] + seq(NPTE - 1, _ => Word(0x1010, 0x101))
  }

  function Entry(mem: Memory, p: nat, k: nat): Word {
    if p < |mem| && k < |mem[p]| then mem[p][k] else ZERO
  }

  /** The page table entry that directory d holds for table i, index j. */
  function Pte(mem: Memory, d: nat, i: nat, j: nat): Word {
    if Present(Entry(mem, d, i)) then Entry(mem, Entry(mem, d, i).page, j) else ZERO
  }

  function SetEntry(mem: Memory, p: nat, k: nat, w: Word): Memory {
    if p < |mem| && k < |mem[p]| then mem[p := mem[p][k := w]] else mem
  }

  predicate IsDir(owner: Owners, d: nat) {
    d in owner && owner[d] == Dir
  }

  /** A page that owner gives to a table or to user memory is the one the tables point to. */
  predicate OwnerOk(mem: Memory, owner: Owners, p: nat) {
    p in owner ==>
      && p < |mem|
      && (owner[p].Table? ==>
            && IsDir(owner, owner[p].d) && owner[p].i < NPTE
            && Present(Entry(mem, owner[p].d, owner[p].i)) && Entry(mem, owner[p].d, owner[p].i).page == p)
      && (owner[p].User? ==>
            && IsDir(owner, owner[p].d) && owner[p].i < USERDIRS && owner[p].j < NPTE
            && Present(Pte(mem, owner[p].d, owner[p].i, owner[p].j))
            && Pte(mem, owner[p].d, owner[p].i, owner[p].j).page == p)
  }

  predicate PdeOk(mem: Memory, owner: Owners, d: nat, i: nat) {
    var w := Entry(mem, d, i);
    w == ZERO || (Present(w) && w.page in owner && owner[w.page] == Table(d, i))
  }

  predicate PteOk(mem: Memory, owner: Owners, d: nat, i: nat, j: nat) {
    var w := Pte(mem, d, i, j);
    w == ZERO || (Present(w) && (i < USERDIRS ==> w.page in owner && owner[w.page] == User(d, i, j)))
  }

  predicate Shape(mem: Memory) {
    forall p :: 0 <= p < |mem| ==> |mem[p]| == NPTE
  }

  /** Page conservation: owner gives each allocatable page exactly one place, and every entry of every
      directory and user table points to the page that owner puts there. */
  ghost predicate Conserved(mem: Memory, owner: Owners) {
    && Shape(mem) && 0 !in owner
    && (forall p :: p in owner ==> OwnerOk(mem, owner, p))
    && (forall d, i :: IsDir(owner, d) && 0 <= i < NPTE ==> PdeOk(mem, owner, d, i))
    && (forall d, i, j :: IsDir(owner, d) && 0 <= i < NPTE && 0 <= j < NPTE ==> PteOk(mem, owner, d, i, j))
  }

  /** The free pages, linked through their first words. */
  ghost predicate FreeOk(mem: Memory, head: nat, free: seq<nat>, owner: Owners) {
    && Shape(mem) && 0 !in owner
    && NoDuplicates(free)
    && (forall p :: p in free <==> p in owner && owner[p] == Free)
    && (forall p :: p in owner ==> p < |mem|)
    && head == (if free == [] then 0 else free[0])
    && forall k :: 0 <= k < |free| ==> FreeLink(mem, free, k)
  }

  predicate FreeLink(mem: Memory, free: seq<nat>, k: nat) {
    k < |free| && Entry(mem, free[k], 0).page == NextFree(free, k)
  }

  function NextFree(free: seq<nat>, k: nat): nat {
    if k + 1 < |free| then free[k + 1] else 0
  }

  /** No frame is mapped twice, and none is free, a directory or a table. */
  lemma NoSharing(mem: Memory, head: nat, free: seq<nat>, owner: Owners, d: nat, i: nat, j: nat, e: nat, a: nat, b: nat)
    requires Conserved(mem, owner) && FreeOk(mem, head, free, owner) && IsDir(owner, d) && IsDir(owner, e)
    requires i < USERDIRS && j < NPTE && a < USERDIRS && b < NPTE
    requires Present(Pte(mem, d, i, j)) && Present(Pte(mem, e, a, b)) && Pte(mem, d, i, j).page == Pte(mem, e, a, b).page
    ensures d == e && i == a && j == b
    ensures var p := Pte(mem, d, i, j).page;
      && p !in free && !IsDir(owner, p)
      && forall c, k :: IsDir(owner, c) && 0 <= k < NPTE && Present(Entry(mem, c, k)) ==> Entry(mem, c, k).page != p
  {
    assert PteOk(mem, owner, d, i, j) && PteOk(mem, owner, e, a, b);
    forall c, k | IsDir(owner, c) && 0 <= k < NPTE && Present(Entry(mem, c, k))
      ensures Entry(mem, c, k).page != Pte(mem, d, i, j).page
    {
      assert PdeOk(mem, owner, c, k);
    }
  }

  // ---- stores that keep Conserved

  /** The words that directories and tables show do not depend on pages of other kinds. */
  lemma ForeignPage(mem: Memory, owner: Owners, p: nat, content: seq<Word>)
    requires Conserved(mem, owner) && p < |mem| && |content| == NPTE
    requires p in owner ==> !owner[p].Dir? && !owner[p].Table?
    ensures var mem' := mem[p := content];
      && Conserved(mem', owner)
      && (forall d, i :: IsDir(owner, d) && 0 <= i < NPTE ==> Entry(mem', d, i) == Entry(mem, d, i))
      && (forall d, i, j :: IsDir(owner, d) && 0 <= i < NPTE && 0 <= j < NPTE ==> Pte(mem', d, i, j) == Pte(mem, d, i, j))
  {
    var mem' := mem[p := content];
    forall d, i | IsDir(owner, d) && 0 <= i < NPTE
      ensures Entry(mem', d, i) == Entry(mem, d, i)
    {
    }
    forall d, i, j | IsDir(owner, d) && 0 <= i < NPTE && 0 <= j < NPTE
      ensures Pte(mem', d, i, j) == Pte(mem, d, i, j)
    {
      assert PdeOk(mem, owner, d, i);
    }
    SameWords(mem, mem', owner);
  }

  lemma SameWords(mem: Memory, mem': Memory, owner: Owners)
    requires Conserved(mem, owner) && Shape(mem') && |mem'| == |mem|
    requires forall d, i :: IsDir(owner, d) && 0 <= i < NPTE ==> Entry(mem', d, i) == Entry(mem, d, i)
    requires forall d, i, j :: IsDir(owner, d) && 0 <= i < NPTE && 0 <= j < NPTE ==> Pte(mem', d, i, j) == Pte(mem, d, i, j)
    ensures Conserved(mem', owner)
  {
    forall p | p in owner ensures OwnerOk(mem', owner, p) {
      assert OwnerOk(mem, owner, p);
    }
    forall d, i | IsDir(owner, d) && 0 <= i < NPTE ensures PdeOk(mem', owner, d, i) {
      assert PdeOk(mem, owner, d, i);
    }
    forall d, i, j | IsDir(owner, d) && 0 <= i < NPTE && 0 <= j < NPTE ensures PteOk(mem', owner, d, i, j) {
      assert PteOk(mem, owner, d, i, j);
    }
  }

  /** A page no directory shows may change hands among the kinds that no directory shows. */
  lemma HandOver(mem: Memory, owner: Owners, p: nat, o: Owner)
    requires Conserved(mem, owner) && p in owner
    requires owner[p] == Free || owner[p] == Held || owner[p] == Lent
    requires o == Free || o == Held || o == Lent
    ensures Conserved(mem, owner[p := o])
  {
    var owner' := owner[p := o];
    forall q | q in owner' ensures OwnerOk(mem, owner', q) {
      assert OwnerOk(mem, owner, q);
    }
    forall d, i | IsDir(owner', d) && 0 <= i < NPTE ensures PdeOk(mem, owner', d, i) {
      assert PdeOk(mem, owner, d, i);
    }
    forall d, i, j | IsDir(owner', d) && 0 <= i < NPTE && 0 <= j < NPTE ensures PteOk(mem, owner', d, i, j) {
      assert PteOk(mem, owner, d, i, j);
    }
  }

  /** A zeroed page becomes a directory. */
  lemma NewDir(mem: Memory, owner: Owners, p: nat)
    requires Conserved(mem, owner) && p in owner && owner[p] == Held && mem[p] == Zeroes()
    ensures Conserved(mem, owner[p := Dir])
    ensures forall i, j :: 0 <= i < NPTE ==> Entry(mem, p, i) == ZERO && Pte(mem, p, i, j) == ZERO
  {
    var owner' := owner[p := Dir];
    assert forall i :: 0 <= i < NPTE ==> Entry(mem, p, i) == ZERO;
    forall q | q in owner' ensures OwnerOk(mem, owner', q) {
      assert OwnerOk(mem, owner, q);
    }
    forall d, i | IsDir(owner', d) && 0 <= i < NPTE ensures PdeOk(mem, owner', d, i) {
      assert d != p ==> PdeOk(mem, owner, d, i);
    }
    forall d, i, j | IsDir(owner', d) && 0 <= i < NPTE && 0 <= j < NPTE ensures PteOk(mem, owner', d, i, j) {
      assert d != p ==> PteOk(mem, owner, d, i, j);
    }
  }

  /** A zeroed page becomes table i of directory d: no directory shows a different word for it. */
  lemma NewTable(mem: Memory, owner: Owners, d: nat, i: nat, p: nat, flags: bv12)
    requires Conserved(mem, owner) && IsDir(owner, d) && i < NPTE && Entry(mem, d, i) == ZERO
    requires p in owner && owner[p] == Held && mem[p] == Zeroes() && flags & PTE_P != 0
    ensures var mem', owner' := SetEntry(mem, d, i, Word(p, flags)), owner[p := Table(d, i)];
      && Conserved(mem', owner')
      && Entry(mem', d, i) == Word(p, flags)
      && forall e, a, b :: IsDir(owner, e) && 0 <= a < NPTE && 0 <= b < NPTE ==> Pte(mem', e, a, b) == Pte(mem, e, a, b)
  {
    assert OwnerOk(mem, owner, d) && OwnerOk(mem, owner, p);
    var mem', owner' := SetEntry(mem, d, i, Word(p, flags)), owner[p := Table(d, i)];
    forall e, a | IsDir(owner', e) && 0 <= a < NPTE
      ensures Entry(mem', e, a) == if e == d && a == i then Word(p, flags) else Entry(mem, e, a)
      ensures PdeOk(mem', owner', e, a)
    {
      assert PdeOk(mem, owner, e, a) && OwnerOk(mem, owner, e);
    }
    forall e, a, b | IsDir(owner, e) && 0 <= a < NPTE && 0 <= b < NPTE
      ensures Pte(mem', e, a, b) == Pte(mem, e, a, b)
      ensures PteOk(mem', owner', e, a, b)
    {
      assert PdeOk(mem, owner, e, a) && PteOk(mem, owner, e, a, b);
    }
    forall q | q in owner' ensures OwnerOk(mem', owner', q) {
      assert OwnerOk(mem, owner, q);
    }
  }

  /** Writing a page table entry changes that entry of that directory alone. */
  lemma StoreIsLocal(mem: Memory, owner: Owners, d: nat, i: nat, j: nat, w: Word)
    requires Conserved(mem, owner) && IsDir(owner, d) && i < NPTE && j < NPTE && Present(Entry(mem, d, i))
    ensures var mem' := SetEntry(mem, Entry(mem, d, i).page, j, w);
      && Shape(mem') && |mem'| == |mem|
      && (forall e, a :: IsDir(owner, e) && 0 <= a < NPTE ==> Entry(mem', e, a) == Entry(mem, e, a))
      && (forall e, a, b :: IsDir(owner, e) && 0 <= a < NPTE && 0 <= b < NPTE ==>
            Pte(mem', e, a, b) == if e == d && a == i && b == j then w else Pte(mem, e, a, b))
  {
    assert PdeOk(mem, owner, d, i);
    var t := Entry(mem, d, i).page;
    assert OwnerOk(mem, owner, t);
    var mem' := SetEntry(mem, t, j, w);
    forall e, a, b | IsDir(owner, e) && 0 <= a < NPTE && 0 <= b < NPTE
      ensures Pte(mem', e, a, b) == if e == d && a == i && b == j then w else Pte(mem, e, a, b)
    {
      assert PdeOk(mem, owner, e, a) && OwnerOk(mem, owner, e);
    }
  }

  /** A held page is mapped at an empty user entry. */
  lemma MapUser(mem: Memory, owner: Owners, d: nat, i: nat, j: nat, p: nat, flags: bv12)
    requires Conserved(mem, owner) && IsDir(owner, d) && i < USERDIRS && j < NPTE && Present(Entry(mem, d, i))
    requires Pte(mem, d, i, j) == ZERO && p in owner && owner[p] == Held && flags & PTE_P != 0
    ensures Conserved(SetEntry(mem, Entry(mem, d, i).page, j, Word(p, flags)), owner[p := User(d, i, j)])
  {
    StoreIsLocal(mem, owner, d, i, j, Word(p, flags));
    StoredOk(mem, SetEntry(mem, Entry(mem, d, i).page, j, Word(p, flags)), owner, owner[p := User(d, i, j)],
             d, i, j, Word(p, flags));
  }

  /** The frame behind a user entry is released when the entry is cleared. */
  lemma UnmapUser(mem: Memory, owner: Owners, d: nat, i: nat, j: nat)
    requires Conserved(mem, owner) && IsDir(owner, d) && i < USERDIRS && j < NPTE && Present(Entry(mem, d, i))
    requires Present(Pte(mem, d, i, j))
    ensures Pte(mem, d, i, j).page in owner && owner[Pte(mem, d, i, j).page] == User(d, i, j)
    ensures Conserved(SetEntry(mem, Entry(mem, d, i).page, j, ZERO), owner[Pte(mem, d, i, j).page := Free])
  {
    StoreIsLocal(mem, owner, d, i, j, ZERO);
    assert PteOk(mem, owner, d, i, j);
    StoredOk(mem, SetEntry(mem, Entry(mem, d, i).page, j, ZERO), owner, owner[Pte(mem, d, i, j).page := Free],
             d, i, j, ZERO);
  }

  /** A kernel entry points to a page that is not counted. */
  lemma MapKernel(mem: Memory, owner: Owners, d: nat, i: nat, j: nat, w: Word)
    requires Conserved(mem, owner) && IsDir(owner, d) && USERDIRS <= i < NPTE && j < NPTE && Present(Entry(mem, d, i))
    requires Present(w)
    ensures Conserved(SetEntry(mem, Entry(mem, d, i).page, j, w), owner)
  {
    StoreIsLocal(mem, owner, d, i, j, w);
    StoredOk(mem, SetEntry(mem, Entry(mem, d, i).page, j, w), owner, owner, d, i, j, w);
  }

  lemma StoredOk(mem: Memory, mem': Memory, owner: Owners, owner': Owners, d: nat, i: nat, j: nat, w: Word)
    requires Conserved(mem, owner) && Shape(mem') && |mem'| == |mem| && owner'.Keys == owner.Keys
    requires IsDir(owner, d) && i < NPTE && j < NPTE
    requires forall e, a :: IsDir(owner, e) && 0 <= a < NPTE ==> Entry(mem', e, a) == Entry(mem, e, a)
    requires forall e, a, b :: IsDir(owner, e) && 0 <= a < NPTE && 0 <= b < NPTE ==>
               Pte(mem', e, a, b) == if e == d && a == i && b == j then w else Pte(mem, e, a, b)
    requires forall p :: p in owner && (owner'[p] != owner[p] || owner[p] == User(d, i, j)) ==>
               || (owner'[p] == User(d, i, j) && owner[p] == Held && w.page == p && i < USERDIRS)
               || (owner'[p] == Free && owner[p] == User(d, i, j))
    requires w == ZERO || (Present(w) && (i < USERDIRS ==> w.page in owner && owner'[w.page] == User(d, i, j)))
    ensures Conserved(mem', owner')
  {
    forall p | p in owner' ensures OwnerOk(mem', owner', p) {
      assert OwnerOk(mem, owner, p);
    }
    forall e, a | IsDir(owner', e) && 0 <= a < NPTE ensures PdeOk(mem', owner', e, a) {
      assert PdeOk(mem, owner, e, a);
    }
    forall e, a, b | IsDir(owner', e) && 0 <= a < NPTE && 0 <= b < NPTE ensures PteOk(mem', owner', e, a, b) {
      assert PteOk(mem, owner, e, a, b) && IsDir(owner, e);
    }
  }

  // ---- what an operation on one directory may do to the rest

  /** Page p with owner o is directory d, one of its tables or one of its user frames. */
  predicate Belongs(o: Owner, d: nat, p: nat) {
    match o
    case Dir => p == d
    case Table(e, _) => e == d
    case User(e, _, _) => e == d
    case _ => false
  }

  /** What growing directory d may do to page p: a free page may be taken for d, a held one mapped into d as
      it stands; of the others only d and its tables are written, and none changes hands. */
  predicate GrewAt(m0: Memory, o0: Owners, m1: Memory, o1: Owners, d: nat, p: nat)
    requires p < |m0| == |m1|
  {
    if p !in o0 then p !in o1 && m1[p] == m0[p]
    else if p !in o1 then false
    else if o0[p] == Free then o1[p] == Free || o1[p] == Held || Belongs(o1[p], d, p)
    else if o0[p] == Held then m1[p] == m0[p] && (o1[p] == Held || (o1[p].User? && o1[p].d == d))
    else o1[p] == o0[p] && ((!o0[p].User? && Belongs(o0[p], d, p)) || m1[p] == m0[p])
  }

  ghost predicate Grew(m0: Memory, o0: Owners, m1: Memory, o1: Owners, d: nat) {
    |m0| == |m1| && forall p :: 0 <= p < |m0| ==> GrewAt(m0, o0, m1, o1, d, p)
  }

  lemma GrewTwice(m0: Memory, o0: Owners, m1: Memory, o1: Owners, m2: Memory, o2: Owners, d: nat)
    requires Grew(m0, o0, m1, o1, d) && Grew(m1, o1, m2, o2, d)
    ensures Grew(m0, o0, m2, o2, d)
  {
    forall p | 0 <= p < |m0| ensures GrewAt(m0, o0, m2, o2, d, p) {
      assert GrewAt(m0, o0, m1, o1, d, p) && GrewAt(m1, o1, m2, o2, d, p);
    }
  }

  // ---- page numbers of virtual addresses

  const USERTOP: nat := USERDIRS * NPTE    // the page number of KERNBASE
  const VTOP: nat := NPTE * NPTE           // one past the last page number

  function Pdx(v: nat): nat {
    v / NPTE
  }

  function Ptx(v: nat): nat {
    v % NPTE
  }

  function Vpn(i: nat, j: nat): nat {
    i * NPTE + j
  }

  lemma PdxPtx(v: nat)
    requires v < VTOP
    ensures Pdx(v) < NPTE && Ptx(v) < NPTE && Vpn(Pdx(v), Ptx(v)) == v
    ensures v < USERTOP <==> Pdx(v) < USERDIRS
    ensures forall i, j :: 0 <= i && 0 <= j < NPTE && Vpn(i, j) == v ==> i == Pdx(v) && j == Ptx(v)
  {
  }

  // ---- growing

  lemma GrewSettled(m0: Memory, o0: Owners, m1: Memory, o1: Owners, m2: Memory, o2: Owners, d: nat, p: nat)
    requires Grew(m0, o0, m1, o1, d) && p in o0 && o0[p] == Free && |m2| == |m1|
    requires o2 == o1[p := Free] || o2 == o1[p := Held]
    requires p < |m0| && forall q :: 0 <= q < |m1| && q != p ==> m2[q] == m1[q]
    ensures Grew(m0, o0, m2, o2, d)
  {
    forall q | 0 <= q < |m0| ensures GrewAt(m0, o0, m2, o2, d, q) {
      assert GrewAt(m0, o0, m1, o1, d, q);
    }
  }

  /** Growing one directory leaves what every other directory shows as it was. */
  lemma GrewKeepsOthers(m0: Memory, o0: Owners, m1: Memory, o1: Owners, d: nat, e: nat, i: nat, j: nat)
    requires Conserved(m0, o0) && Grew(m0, o0, m1, o1, d) && IsDir(o0, e) && e != d && i < NPTE && j < NPTE
    ensures IsDir(o1, e) && Pte(m1, e, i, j) == Pte(m0, e, i, j)
  {
    assert OwnerOk(m0, o0, e) && GrewAt(m0, o0, m1, o1, d, e) && PdeOk(m0, o0, e, i);
    if Present(Entry(m0, e, i)) {
      var t := Entry(m0, e, i).page;
      assert OwnerOk(m0, o0, t) && GrewAt(m0, o0, m1, o1, d, t);
    }
  }

  // ---- releasing

  /** The user frames of d in pages lo .. hi go to the free list; every other page keeps its place. */
  function Released(owner: Owners, d: nat, lo: nat, hi: nat): Owners {
    map p | p in owner :: if InRange(owner[p], d, lo, hi) then Free else owner[p]
  }

  predicate InRange(o: Owner, d: nat, lo: nat, hi: nat) {
    o.User? && o.d == d && lo <= Vpn(o.i, o.j) < hi
  }

  /** Everything of d goes to the free list. */
  function Gone(owner: Owners, d: nat): Owners {
    map p | p in owner :: if Belongs(owner[p], d, p) then Free else owner[p]
  }

  /** d and its tables are no longer shown by anything, up to table n already free. */
  function Retired(owner: Owners, d: nat, n: nat): Owners {
    map p | p in owner :: if Belongs(owner[p], d, p) && !owner[p].User? then
                            (if owner[p].Table? && owner[p].i < n then Free else Held)
                          else owner[p]
  }

  lemma Retire(mem: Memory, owner: Owners, d: nat)
    requires Conserved(mem, owner) && IsDir(owner, d)
    requires forall i, j :: 0 <= i < USERDIRS && 0 <= j < NPTE ==> Pte(mem, d, i, j) == ZERO
    ensures Conserved(mem, Retired(owner, d, 0))
    ensures forall p :: p in owner && owner[p].User? ==> owner[p].d != d
  {
    var owner' := Retired(owner, d, 0);
    forall p | p in owner && owner[p].User? ensures owner[p].d != d {
      assert OwnerOk(mem, owner, p);
    }
    forall p | p in owner' ensures OwnerOk(mem, owner', p) {
      assert OwnerOk(mem, owner, p);
    }
    forall e, a | IsDir(owner', e) && 0 <= a < NPTE ensures PdeOk(mem, owner', e, a) {
      assert PdeOk(mem, owner, e, a) && IsDir(owner, e);
    }
    forall e, a, b | IsDir(owner', e) && 0 <= a < NPTE && 0 <= b < NPTE ensures PteOk(mem, owner', e, a, b) {
      assert PteOk(mem, owner, e, a, b) && IsDir(owner, e);
    }
  }
}
