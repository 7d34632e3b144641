/** umalloc.c: malloc, free and morecore over a memory of block headers. Addresses count header-sized
    units; a header at address a is ptr[a] and size[a], and the block's bytes start at a + 1. */
module Malloc {
  import opened Basics
  import opened FreeList

  const UINT: nat := 0x1_0000_0000
  const NALLOC: nat := 4096                 // morecore never asks for fewer units

  function Next(bs: seq<Block>, i: nat): nat {
    if i + 1 < |bs| then i + 1 else 0
  }

  /** The header of bs[i] holds its size and points to its successor. */
  ghost predicate LinkOk(ptr: map<int, int>, size: map<int, nat>, bs: seq<Block>, i: nat)
    requires i < |bs|
  {
    && bs[i].at in ptr && bs[i].at in size
    && size[bs[i].at] == bs[i].units && ptr[bs[i].at] == bs[Next(bs, i)].at
  }

  /** The headers in memory spell out the list bs as a ring. */
  ghost predicate Linked(ptr: map<int, int>, size: map<int, nat>, bs: seq<Block>) {
    forall i :: 0 <= i < |bs| ==> LinkOk(ptr, size, bs, i)
  }

  // ---- the stores of free, once its search has found p

  predicate MergesUp(ptr: map<int, int>, size: map<int, nat>, p: int, bp: int)
    requires p in ptr && bp in size
  {
    bp + size[bp] == ptr[p]
  }

  /** if(bp + bp->s.size == p->s.ptr) ... else bp->s.ptr = p->s.ptr */
  function PtrMid(ptr: map<int, int>, size: map<int, nat>, p: int, bp: int): map<int, int>
    requires p in ptr && bp in size && ptr[p] in ptr
  {
    ptr[bp := if MergesUp(ptr, size, p, bp) then ptr[ptr[p]] else ptr[p]]
  }

  function SizeMid(ptr: map<int, int>, size: map<int, nat>, p: int, bp: int): map<int, nat>
    requires p in ptr && bp in size && ptr[p] in size
  {
    if MergesUp(ptr, size, p, bp) then size[bp := size[bp] + size[ptr[p]]] else size
  }

  /** if(p + p->s.size == bp) ... else p->s.ptr = bp */
  function PtrEnd(ptr: map<int, int>, size: map<int, nat>, p: int, bp: int): map<int, int>
    requires p in size && bp in ptr
  {
    ptr[p := if p + size[p] == bp then ptr[bp] else bp]
  }

  function SizeEnd(size: map<int, nat>, p: int, bp: int): map<int, nat>
    requires p in size && bp in size
  {
    if p + size[p] == bp then size[p := size[p] + size[bp]] else size
  }

  ghost predicate FitsBehind(bs: seq<Block>, k: nat, b: Block) {
    && Ordered(bs) && Clear(bs, b) && k < |bs| && bs[k].at < b.at
    && (k + 1 < |bs| ==> b.at < bs[k + 1].at)
  }

  /** What the stores of free amount to: the block m gets its size and the successor of the last block it
      swallowed, its predecessor points to it, and no other header changes. a and c cut the list where m goes. */
  ghost predicate Relinked(ptr: map<int, int>, size: map<int, nat>, ptr': map<int, int>, size': map<int, nat>,
                           bs: seq<Block>, k: nat, b: Block, m: Block, a: nat, c: nat)
    requires k < |bs|
  {
    && (a == k || a == k + 1) && k < c <= |bs|
    && m.at == (if a == k then bs[k].at else b.at)
    && m.at in ptr' && m.at in size'
    && size'[m.at] == m.units && ptr'[m.at] == (if c == |bs| then bs[0].at else bs[c].at)
    && (a == k + 1 ==> bs[k].at in ptr' && bs[k].at in size' && ptr'[bs[k].at] == m.at && size'[bs[k].at] == bs[k].units)
    && (forall x :: x in ptr && x != bs[k].at && x != b.at ==> x in ptr' && ptr'[x] == ptr[x])
    && (forall x :: x in size && x != bs[k].at && x != b.at ==> x in size' && size'[x] == size[x])
  }

  lemma StoresRelink(ptr: map<int, int>, size: map<int, nat>, bs: seq<Block>, k: nat, b: Block)
    requires Linked(ptr, size, bs) && FitsBehind(bs, k, b) && b.at in size && size[b.at] == b.units
    ensures var p, bp := bs[k].at, b.at;
      && LinkOk(ptr, size, bs, k) && LinkOk(ptr, size, bs, Next(bs, k))
      && var ptr', size' := PtrMid(ptr, size, p, bp), SizeMid(ptr, size, p, bp);
      Relinked(ptr, size, PtrEnd(ptr', size', p, bp), SizeEnd(size', p, bp), bs, k, b, Merged(bs, k, b),
               |Below(bs, k, b)|, |bs| - |Above(bs, k, b)|)
  {
    var p, bp := bs[k].at, b.at;
    assert LinkOk(ptr, size, bs, k) && LinkOk(ptr, size, bs, Next(bs, k));
    assert MergesUp(ptr, size, p, bp) <==> TouchesUpper(bs, k, b);
  }

  lemma RelinkedBelow(ptr: map<int, int>, size: map<int, nat>, ptr': map<int, int>, size': map<int, nat>,
                      bs: seq<Block>, k: nat, b: Block, m: Block, a: nat, c: nat, i: nat)
    requires Linked(ptr, size, bs) && FitsBehind(bs, k, b) && Relinked(ptr, size, ptr', size', bs, k, b, m, a, c)
    requires i < a
    ensures LinkOk(ptr', size', bs[..a] + [m] + bs[c..], i)
  {
    var r := bs[..a] + [m] + bs[c..];
    assert r[a] == m && r[i] == bs[i] && (i + 1 < a ==> r[i + 1] == bs[i + 1]);
    assert LinkOk(ptr, size, bs, i);
  }

  lemma RelinkedAbove(ptr: map<int, int>, size: map<int, nat>, ptr': map<int, int>, size': map<int, nat>,
                      bs: seq<Block>, k: nat, b: Block, m: Block, a: nat, c: nat, j: nat)
    requires Linked(ptr, size, bs) && FitsBehind(bs, k, b) && Relinked(ptr, size, ptr', size', bs, k, b, m, a, c)
    requires c <= j < |bs|
    ensures LinkOk(ptr', size', bs[..a] + [m] + bs[c..], a + 1 + j - c)
  {
    var r := bs[..a] + [m] + bs[c..];
    assert r[a + 1 + j - c] == bs[j] && (j + 1 < |bs| ==> r[a + 2 + j - c] == bs[j + 1]);
    assert r[0].at == bs[0].at;
    assert LinkOk(ptr, size, bs, j);
  }

  lemma RelinkedRing(ptr: map<int, int>, size: map<int, nat>, ptr': map<int, int>, size': map<int, nat>,
                     bs: seq<Block>, k: nat, b: Block, m: Block, a: nat, c: nat)
    requires Linked(ptr, size, bs) && FitsBehind(bs, k, b) && Relinked(ptr, size, ptr', size', bs, k, b, m, a, c)
    ensures Linked(ptr', size', bs[..a] + [m] + bs[c..])
  {
    var r := bs[..a] + [m] + bs[c..];
    forall i | 0 <= i < |r| ensures LinkOk(ptr', size', r, i) {
      if i < a {
        RelinkedBelow(ptr, size, ptr', size', bs, k, b, m, a, c, i);
      } else if i > a {
        RelinkedAbove(ptr, size, ptr', size', bs, k, b, m, a, c, c + i - a - 1);
      } else {
        assert r[a] == m && r[0].at == bs[0].at && (c < |bs| ==> r[a + 1] == bs[c]);
      }
    }
  }

  /** The stores of free turn the ring of bs into the ring of Insert(bs, k, b). */
  lemma FreeRelinks(ptr: map<int, int>, size: map<int, nat>, bs: seq<Block>, k: nat, b: Block)
    requires Linked(ptr, size, bs) && FitsBehind(bs, k, b) && b.at in size && size[b.at] == b.units
    ensures var p, bp := bs[k].at, b.at;
      && LinkOk(ptr, size, bs, k) && LinkOk(ptr, size, bs, Next(bs, k))
      && var ptr', size' := PtrMid(ptr, size, p, bp), SizeMid(ptr, size, p, bp);
      Linked(PtrEnd(ptr', size', p, bp), SizeEnd(size', p, bp), Insert(bs, k, b))
  {
    StoresRelink(ptr, size, bs, k, b);
    var p, bp := bs[k].at, b.at;
    var ptr1, size1 := PtrMid(ptr, size, p, bp), SizeMid(ptr, size, p, bp);
    RelinkedRing(ptr, size, PtrEnd(ptr1, size1, p, bp), SizeEnd(size1, p, bp), bs, k, b, Merged(bs, k, b),
                 |Below(bs, k, b)|, |bs| - |Above(bs, k, b)|);
  }

  // ---- the stores of malloc

  /** The successors in a ring from which block k is taken out. */
  lemma NextOfUnlinked(bs: seq<Block>, k: nat, i: nat)
    requires 1 <= k < |bs| && i < |bs| - 1
    ensures var r, j := Unlink(bs, k), if i < k then i else i + 1;
      && r[i] == bs[j]
      && r[Next(r, i)] == if j == k - 1 then bs[Next(bs, k)] else bs[Next(bs, j)]
  {
  }

  lemma UnlinkLinks(ptr: map<int, int>, size: map<int, nat>, bs: seq<Block>, k: nat)
    requires Linked(ptr, size, bs) && Ordered(bs) && 1 <= k < |bs|
    ensures LinkOk(ptr, size, bs, k) && Linked(ptr[bs[k - 1].at := ptr[bs[k].at]], size, Unlink(bs, k))
  {
    assert LinkOk(ptr, size, bs, k);
    var ptr', r := ptr[bs[k - 1].at := ptr[bs[k].at]], Unlink(bs, k);
    forall i | 0 <= i < |r| ensures LinkOk(ptr', size, r, i) {
      var j := if i < k then i else i + 1;
      assert LinkOk(ptr, size, bs, j) && LinkOk(ptr, size, bs, k - 1);
      NextOfUnlinked(bs, k, i);
      assert j < k - 1 ==> bs[j].End() < bs[k - 1].at;
      assert k - 1 < j ==> bs[k - 1].End() < bs[j].at;
    }
  }

  lemma CutLinks(ptr: map<int, int>, size: map<int, nat>, bs: seq<Block>, k: nat, n: nat)
    requires Linked(ptr, size, bs) && Ordered(bs) && 1 <= k < |bs| && 0 < n < bs[k].units
    ensures LinkOk(ptr, size, bs, k)
    ensures Linked(ptr, size[bs[k].at := bs[k].units - n][bs[k].End() - n := n], Cut(bs, k, n))
  {
    var size', r := size[bs[k].at := bs[k].units - n][bs[k].End() - n := n], Cut(bs, k, n);
    assert LinkOk(ptr, size, bs, k);
    forall i | 0 <= i < |r| ensures LinkOk(ptr, size', r, i) {
      assert LinkOk(ptr, size, bs, i);
      assert Next(r, i) == Next(bs, i);
    }
  }

  // ---- blocks in use

  /** Unit u lies in some block in use; live maps header addresses to sizes. */
  ghost predicate InUse(live: map<int, nat>, u: int) {
    exists a :: a in live && Block(a, live[a]).Has(u)
  }

  predicate Separate(live: map<int, nat>, a: int, b: int)
    requires a in live && b in live
  {
    a == b || a + live[a] <= b || b + live[b] <= a
  }

  /** Blocks in use are apart from each other and from every free block. */
  ghost predicate Apart(live: map<int, nat>, bs: seq<Block>) {
    && (forall a :: a in live ==> Clear(bs, Block(a, live[a])))
    && (forall a, b :: a in live && b in live ==> Separate(live, a, b))
  }

  /** Everything lies below top, above base. */
  ghost predicate Within(base: int, bs: seq<Block>, live: map<int, nat>, top: int) {
    && 0 < base < top
    && (forall i :: 0 <= i < |bs| ==> bs[i].End() <= top)
    && (forall a :: a in live ==> a + live[a] <= top)
  }

  ghost predicate Sized(size: map<int, nat>, live: map<int, nat>) {
    forall a :: a in live ==> a in size && size[a] == live[a]
  }

  /** The free list, in order, with base first; it is empty until the first malloc. */
  ghost predicate ListOk(ptr: map<int, int>, size: map<int, nat>, freep: int, base: int, bs: seq<Block>) {
    && Ordered(bs) && Linked(ptr, size, bs)
    && (freep == 0 <==> bs == [])
    && (bs != [] ==> bs[0] == Block(base, 0) && exists k :: 0 <= k < |bs| && bs[k].at == freep)
  }

  ghost predicate HeapOk(ptr: map<int, int>, size: map<int, nat>, freep: int, base: int,
                         bs: seq<Block>, live: map<int, nat>, top: int) {
    ListOk(ptr, size, freep, base, bs) && Apart(live, bs) && Sized(size, live) && Within(base, bs, live, top)
    && (bs == [] ==> live == map[])
  }

  ghost function Region(at: int, units: nat): iset<int> {
    iset u: int | Block(at, units).Has(u)
  }

  /** Every unit granted by sbrk is free or in use, and no other unit is. */
  ghost predicate Conserved(arena: iset<int>, bs: seq<Block>, live: map<int, nat>) {
    forall u :: u in arena <==> Covers(bs, u) || InUse(live, u)
  }

  /** The test of free's search loop and the test in its body: p with successor q is where bp goes. */
  predicate StopsAt(p: int, q: int, bp: int) {
    (bp > p && bp < q) || (p >= q && (bp > p || bp < q))
  }

  /** The search of free can stop at one block only, and that is where the block belongs. */
  lemma SearchStops(bs: seq<Block>, b: Block, k: nat)
    requires Ordered(bs) && Clear(bs, b) && k < |bs|
    ensures StopsAt(bs[k].at, bs[Next(bs, k)].at, b.at) <==> k == Place(bs, b.at)
    ensures FitsBehind(bs, Place(bs, b.at), b)
  {
    var goal := Place(bs, b.at);
    assert k + 1 < |bs| ==> bs[k].at < bs[k + 1].at;
    assert k < goal ==> bs[k + 1].at <= bs[goal].at;
    assert k > goal ==> b.at <= bs[k].at;
    assert goal + 1 < |bs| ==> b.at < bs[goal + 1].at;
  }

  lemma InUseWithout(live: map<int, nat>, a: int, u: int)
    requires a in live
    ensures InUse(live, u) <==> InUse(live - {a}, u) || Block(a, live[a]).Has(u)
  {
    var rest := live - {a};
    if x :| x in live && Block(x, live[x]).Has(u) {
      assert x != a ==> x in rest && Block(x, rest[x]).Has(u);
    }
    if x :| x in rest && Block(x, rest[x]).Has(u) {
      assert x in live && Block(x, live[x]).Has(u);
    }
  }

  lemma FreeKeepsApart(live: map<int, nat>, bs: seq<Block>, k: nat, b: Block)
    requires Apart(live, bs) && b.at in live && live[b.at] == b.units && FitsBehind(bs, k, b) && bs[0].units == 0
    ensures Apart(live - {b.at}, Insert(bs, k, b))
  {
    var rest := live - {b.at};
    forall a | a in rest ensures Clear(Insert(bs, k, b), Block(a, rest[a])) {
      assert Separate(live, a, b.at);
      InsertKeepsClear(bs, k, b, Block(a, live[a]));
    }
    forall a, c | a in rest && c in rest ensures Separate(rest, a, c) {
      assert Separate(live, a, c);
    }
  }

  lemma FreeKeepsSizes(ptr: map<int, int>, size: map<int, nat>, bs: seq<Block>, k: nat, b: Block, live: map<int, nat>)
    requires k < |bs| && LinkOk(ptr, size, bs, k) && LinkOk(ptr, size, bs, Next(bs, k))
    requires b.at in live && Apart(live, bs) && Sized(size, live)
    ensures Sized(SizeEnd(SizeMid(ptr, size, bs[k].at, b.at), bs[k].at, b.at), live - {b.at})
  {
    forall a | a in live ensures a != bs[k].at {
      assert Clear(bs, Block(a, live[a]));
    }
  }

  lemma FreeKeepsWithin(base: int, bs: seq<Block>, k: nat, b: Block, live: map<int, nat>, top: int)
    requires Within(base, bs, live, top) && k < |bs| && b.at in live && live[b.at] == b.units
    ensures Within(base, Insert(bs, k, b), live - {b.at}, top)
  {
    var r := Insert(bs, k, b);
    forall i | 0 <= i < |r| ensures r[i].End() <= top {
      var left, right := Below(bs, k, b), Above(bs, k, b);
      assert i < |left| ==> r[i] == bs[i];
      assert i > |left| ==> r[i] == right[i - |left| - 1] == bs[|bs| - |r| + i];
    }
  }

  /** After free, freep names the block before the freed one, or the block that swallowed it. */
  lemma FreepInList(bs: seq<Block>, k: nat, b: Block)
    requires k < |bs|
    ensures exists i :: 0 <= i < |Insert(bs, k, b)| && Insert(bs, k, b)[i].at == bs[k].at
  {
    assert Insert(bs, k, b)[k].at == bs[k].at;
  }

  lemma FreeKeepsHeap(ptr: map<int, int>, size: map<int, nat>, freep: int, base: int,
                      bs: seq<Block>, live: map<int, nat>, top: int, k: nat, b: Block)
    requires HeapOk(ptr, size, freep, base, bs, live, top) && FitsBehind(bs, k, b)
    requires b.at in live && live[b.at] == b.units
    ensures LinkOk(ptr, size, bs, k) && LinkOk(ptr, size, bs, Next(bs, k)) && b.at in size
    ensures var p, bp := bs[k].at, b.at;
      var ptr', size' := PtrMid(ptr, size, p, bp), SizeMid(ptr, size, p, bp);
      HeapOk(PtrEnd(ptr', size', p, bp), SizeEnd(size', p, bp), p, base, Insert(bs, k, b), live - {bp}, top)
  {
    FreeRelinks(ptr, size, bs, k, b);
    InsertKeepsOrder(bs, k, b);
    FreepInList(bs, k, b);
    FreeKeepsApart(live, bs, k, b);
    FreeKeepsSizes(ptr, size, bs, k, b, live);
    FreeKeepsWithin(base, bs, k, b, live, top);
    assert bs[0].at <= bs[k].at;
  }

  lemma FreeConserves(arena: iset<int>, bs: seq<Block>, k: nat, b: Block, live: map<int, nat>)
    requires Conserved(arena, bs, live) && Clear(bs, b) && k < |bs| && b.at in live && live[b.at] == b.units
    ensures Conserved(arena, Insert(bs, k, b), live - {b.at})
    ensures forall u :: Covers(Insert(bs, k, b), u) <==> Covers(bs, u) || b.Has(u)
  {
    forall u ensures Covers(Insert(bs, k, b), u) <==> Covers(bs, u) || b.Has(u) {
      InsertCovers(bs, k, b, u);
    }
    forall u ensures InUse(live, u) <==> InUse(live - {b.at}, u) || b.Has(u) {
      InUseWithout(live, b.at, u);
    }
  }

  // ---- malloc

  /** Walking the ring from behind bs[f] up to bs[k], every block passed is too small. */
  ghost predicate TooSmall(bs: seq<Block>, f: nat, k: nat, nunits: nat) {
    forall j :: 0 <= j < |bs| && (if f < k then f < j < k else j > f || j < k) ==> bs[j].units < nunits
  }

  ghost predicate HasFit(bs: seq<Block>, nunits: nat) {
    exists k :: 0 <= k < |bs| && bs[k].units >= nunits
  }

  lemma WalkOn(bs: seq<Block>, f: nat, k: nat, nunits: nat)
    requires f < |bs| && k < |bs| && k != f && TooSmall(bs, f, k, nunits) && bs[k].units < nunits
    ensures TooSmall(bs, f, Next(bs, k), nunits)
  {
  }

  function PtrTake(ptr: map<int, int>, bs: seq<Block>, k: nat, n: nat): map<int, int>
    requires 1 <= k < |bs| && bs[k].at in ptr
  {
    if bs[k].units == n then ptr[bs[k - 1].at := ptr[bs[k].at]] else ptr
  }

  function SizeTake(size: map<int, nat>, bs: seq<Block>, k: nat, n: nat): map<int, nat>
    requires k < |bs| && n <= bs[k].units
  {
    if bs[k].units == n then size else size[bs[k].at := bs[k].units - n][bs[k].End() - n := n]
  }

  lemma TakeKeepsApart(bs: seq<Block>, live: map<int, nat>, k: nat, n: nat)
    requires Ordered(bs) && Apart(live, bs) && 1 <= k < |bs| && 0 < n <= bs[k].units
    ensures Taken(bs, k, n).at !in live
    ensures Apart(live[Taken(bs, k, n).at := n], Take(bs, k, n))
  {
    var b, r := Taken(bs, k, n), Take(bs, k, n);
    var live' := live[b.at := n];
    TakeKeepsOrder(bs, k, n);
    forall a | a in live ensures Clear(r, Block(a, live[a])) && (a + live[a] <= b.at || b.End() <= a) {
      assert Clear(bs, Block(a, live[a]));
    }
    forall a, c | a in live' && c in live' ensures Separate(live', a, c) {
      assert a in live && c in live ==> Separate(live, a, c);
    }
  }

  lemma TakeKeepsSizes(bs: seq<Block>, size: map<int, nat>, live: map<int, nat>, k: nat, n: nat)
    requires Ordered(bs) && Apart(live, bs) && Sized(size, live) && 1 <= k < |bs| && 0 < n <= bs[k].units
    requires bs[k].at in size && size[bs[k].at] == bs[k].units
    ensures Sized(SizeTake(size, bs, k, n), live[Taken(bs, k, n).at := n])
  {
    forall a | a in live ensures a != bs[k].at && a != Taken(bs, k, n).at {
      assert Clear(bs, Block(a, live[a]));
    }
  }

  lemma TakeKeepsList(ptr: map<int, int>, size: map<int, nat>, freep: int, base: int, bs: seq<Block>, k: nat, n: nat)
    requires ListOk(ptr, size, freep, base, bs) && 1 <= k < |bs| && 0 < n <= bs[k].units && base > 0
    ensures LinkOk(ptr, size, bs, k)
    ensures ListOk(PtrTake(ptr, bs, k, n), SizeTake(size, bs, k, n), bs[k - 1].at, base, Take(bs, k, n))
  {
    if bs[k].units == n {
      UnlinkLinks(ptr, size, bs, k);
    } else {
      CutLinks(ptr, size, bs, k, n);
    }
    TakeKeepsOrder(bs, k, n);
    assert Take(bs, k, n)[k - 1] == bs[k - 1];
    assert bs[0].at <= bs[k - 1].at;
  }

  lemma TakeKeepsWithin(base: int, bs: seq<Block>, live: map<int, nat>, top: int, k: nat, n: nat)
    requires Within(base, bs, live, top) && k < |bs| && 0 < n <= bs[k].units
    ensures Within(base, Take(bs, k, n), live[Taken(bs, k, n).at := n], top)
  {
    var r := Take(bs, k, n);
    forall i | 0 <= i < |r| ensures r[i].End() <= top {
      if bs[k].units == n {
        assert r[i] == if i < k then bs[i] else bs[i + 1];
      }
    }
  }

  lemma TakeKeepsHeap(ptr: map<int, int>, size: map<int, nat>, freep: int, base: int,
                      bs: seq<Block>, live: map<int, nat>, top: int, k: nat, n: nat)
    requires HeapOk(ptr, size, freep, base, bs, live, top) && 1 <= k < |bs| && 0 < n <= bs[k].units
    ensures LinkOk(ptr, size, bs, k) && Taken(bs, k, n).at !in live
    ensures HeapOk(PtrTake(ptr, bs, k, n), SizeTake(size, bs, k, n), bs[k - 1].at, base,
                   Take(bs, k, n), live[Taken(bs, k, n).at := n], top)
  {
    TakeKeepsList(ptr, size, freep, base, bs, k, n);
    TakeKeepsApart(bs, live, k, n);
    TakeKeepsSizes(bs, size, live, k, n);
    TakeKeepsWithin(base, bs, live, top, k, n);
  }

  lemma TakeConserves(arena: iset<int>, bs: seq<Block>, live: map<int, nat>, k: nat, n: nat)
    requires Conserved(arena, bs, live) && Ordered(bs) && 1 <= k < |bs| && 0 < n <= bs[k].units
    requires Taken(bs, k, n).at !in live
    ensures Conserved(arena, Take(bs, k, n), live[Taken(bs, k, n).at := n])
  {
    var b := Taken(bs, k, n);
    var live' := live[b.at := n];
    assert live' - {b.at} == live;
    forall u ensures Covers(bs, u) <==> Covers(Take(bs, k, n), u) || b.Has(u) {
      TakeCovers(bs, k, n, u);
    }
    forall u ensures InUse(live', u) <==> InUse(live, u) || b.Has(u) {
      InUseWithout(live', b.at, u);
    }
  }

  /** The header count of a request, in the unsigned arithmetic of the source. */
  function Units(nbytes: nat): nat {
    (nbytes + 7) % UINT / 8 + 1
  }

  /** The block is large enough for the request exactly when the sum does not wrap, and then it is the
      smallest that is. */
  lemma UnitsSuffice(nbytes: nat)
    requires nbytes < UINT
    ensures (Units(nbytes) - 1) * 8 >= nbytes <==> nbytes <= UINT - 8
    ensures nbytes <= UINT - 8 && nbytes > 0 ==> (Units(nbytes) - 2) * 8 < nbytes
  {
  }

  lemma GrantIsAbove(bs: seq<Block>, live: map<int, nat>, base: int, top: int, b: Block)
    requires Within(base, bs, live, top) && Apart(live, bs) && Ordered(bs) && b.at >= top && b.units > 0
    requires bs != [] && bs[0] == Block(base, 0)
    ensures b.at !in live && Clear(bs, b) && forall i :: 0 <= i < |bs| ==> bs[i].at < top
    ensures Apart(live[b.at := b.units], bs)
  {
    var live' := live[b.at := b.units];
    forall a | a in live ensures a < top {
      assert Clear(bs, Block(a, live[a]));
    }
    forall a, c | a in live' && c in live' ensures Separate(live', a, c) {
      assert a in live && c in live ==> Separate(live, a, c);
    }
  }

  lemma GrantKeepsHeap(ptr: map<int, int>, size: map<int, nat>, freep: int, base: int,
                       bs: seq<Block>, live: map<int, nat>, top: int, b: Block)
    requires HeapOk(ptr, size, freep, base, bs, live, top) && b.at >= top && b.units > 0 && bs != []
    ensures b.at !in live
    ensures HeapOk(ptr, size[b.at := b.units], freep, base, bs, live[b.at := b.units], b.End())
  {
    GrantIsAbove(bs, live, base, top, b);
    var size' := size[b.at := b.units];
    forall i | 0 <= i < |bs| ensures LinkOk(ptr, size', bs, i) {
      assert LinkOk(ptr, size, bs, i);
    }
  }

  lemma GrantConserves(arena: iset<int>, bs: seq<Block>, live: map<int, nat>, b: Block)
    requires Conserved(arena, bs, live) && b.at !in live
    ensures Conserved(arena + Region(b.at, b.units), bs, live[b.at := b.units])
  {
    var live' := live[b.at := b.units];
    assert live' - {b.at} == live;
    forall u ensures InUse(live', u) <==> InUse(live, u) || b.Has(u) {
      InUseWithout(live', b.at, u);
    }
  }

  /** The free units are exactly the granted ones that no block in use has. */
  lemma FreeIsTheRest(arena: iset<int>, bs: seq<Block>, live: map<int, nat>, u: int)
    requires Conserved(arena, bs, live) && Apart(live, bs)
    ensures Covers(bs, u) <==> u in arena && !InUse(live, u)
  {
    forall a | a in live ensures !(Covers(bs, u) && Block(a, live[a]).Has(u)) {
      assert Clear(bs, Block(a, live[a]));
    }
  }

  /** The free list is a function of what has been granted and what is in use: any two histories of malloc
      and free that agree on those have the same list. Giving back what malloc returned restores it. */
  lemma HistoryDoesNotMatter(ptr: map<int, int>, size: map<int, nat>, freep: int, bs: seq<Block>, top: int,
                             ptr': map<int, int>, size': map<int, nat>, freep': int, bs': seq<Block>, top': int,
                             base: int, live: map<int, nat>, arena: iset<int>)
    requires HeapOk(ptr, size, freep, base, bs, live, top) && Conserved(arena, bs, live) && freep != 0
    requires HeapOk(ptr', size', freep', base, bs', live, top') && Conserved(arena, bs', live) && freep' != 0
    ensures bs == bs'
  {
    forall u ensures Covers(bs, u) <==> Covers(bs', u) {
      FreeIsTheRest(arena, bs, live, u);
      FreeIsTheRest(arena, bs', live, u);
    }
    CoverDeterminesList(bs, bs');
  }

  class Heap {
    var ptr: map<int, int>
    var size: map<int, nat>
    var freep: int                    // 0 until the first malloc
    const base: int
    ghost var free: seq<Block>        // the ring, lowest address first
    ghost var live: map<int, nat>     // headers of the blocks in use, with their sizes
    ghost var arena: iset<int>        // every unit sbrk has granted
    ghost var top: int                // above everything

    ghost predicate Valid()
      reads this
    {
      && HeapOk(ptr, size, freep, base, free, live, top) == true
      && Conserved(arena, free, live) == true
    }

    constructor (b: int)
      requires b > 0
      ensures Valid() && freep == 0 && base == b && arena == iset{}
    {
      ptr := map[];
      size := map[];
      freep := 0;
      base := b;
      free := [];
      live := map[];
      arena := iset{};
      top := b + 1;
    }

    /** The search loop of free: it ends, wherever freep stands, at the block behind which bp belongs. */
    method FindPlace(bp: int) returns (p: int, ghost k: nat)
      requires Valid() && freep != 0 && bp in live
      ensures k < |free| && p == free[k].at && FitsBehind(free, k, Block(bp, live[bp]))
    {
      ghost var b := Block(bp, live[bp]);
      ghost var goal := Place(free, bp);
      assert Clear(free, b);
      p := freep;
      k :| 0 <= k < |free| && free[k].at == freep;
      assert LinkOk(ptr, size, free, k);
      SearchStops(free, b, k);
      while !(bp > p && bp < ptr[p])
        invariant k < |free| && p == free[k].at && LinkOk(ptr, size, free, k)
        invariant StopsAt(p, ptr[p], bp) <==> k == goal
        decreases if k <= goal then goal - k else |free| + goal - k
      {
        if p >= ptr[p] && (bp > p || bp < ptr[p]) {
          break;
        }
        p := ptr[p];
        k := Next(free, k);
        assert LinkOk(ptr, size, free, k);
        SearchStops(free, b, k);
      }
    }
 
    /** The stores of free. */
    method Relink(p: int, bp: int)
      requires p in ptr && p in size && bp in size && ptr[p] in ptr && ptr[p] in size
      modifies this`ptr, this`size
      ensures ptr == old(PtrEnd(PtrMid(ptr, size, p, bp), SizeMid(ptr, size, p, bp), p, bp))
      ensures size == old(SizeEnd(SizeMid(ptr, size, p, bp), p, bp))
    {
      if bp + size[bp] == ptr[p] {
        size := size[bp := size[bp] + size[ptr[p]]];
        ptr := ptr[bp := ptr[ptr[p]]];
      } else {
        ptr := ptr[bp := ptr[p]];
      }
      if p + size[p] == bp {
        size := size[p := size[p] + size[bp]];
        ptr := ptr[p := ptr[bp]];
      } else {
        ptr := ptr[p := bp];
      }
    }

    /** free: the block joins the free list, merged with whatever it touches, and nothing else changes. */
    method Free(ap: int)
      requires Valid() && ap - 1 in live
      modifies this
      ensures Valid() && freep != 0 && live == old(live) - {ap - 1}
      ensures forall u :: Covers(free, u) <==> old(Covers(free, u)) || Block(ap - 1, old(live[ap - 1])).Has(u)
      ensures arena == old(arena) && top == old(top)
    {
      var bp := ap - 1;
      ghost var b, bs := Block(bp, live[bp]), free;
      var p;
      ghost var k;
      p, k := FindPlace(bp);
      FreeKeepsHeap(ptr, size, freep, base, free, live, top, k, b);
      FreeConserves(arena, free, k, b, live);
      Relink(p, bp);
      freep := p;
      free := Insert(bs, k, b);
      live := live - {bp};
    }
 
    /** The walk of malloc from freep, once round the ring: the first block that is large enough. */
    method Scan(nunits: nat) returns (found: bool, prevp: int, p: int, ghost k: nat)
      requires Valid() && freep != 0 && nunits > 0
      ensures found ==> 1 <= k < |free| && p == free[k].at && prevp == free[k - 1].at && free[k].units >= nunits
      ensures found ==> exists f :: 0 <= f < |free| && free[f].at == freep && TooSmall(free, f, k, nunits)
      ensures !found ==> forall j :: 0 <= j < |free| ==> free[j].units < nunits
    {
      ghost var f :| 0 <= f < |free| && free[f].at == freep;
      assert LinkOk(ptr, size, free, f);
      prevp := freep;
      p := ptr[prevp];
      ghost var before: nat := f;
      k := Next(free, f);
      found := true;
      while size[p] < nunits
        invariant k < |free| && before < |free| && k == Next(free, before)
        invariant p == free[k].at && prevp == free[before].at && LinkOk(ptr, size, free, k)
        invariant found && TooSmall(free, f, k, nunits)
        decreases if k > f then |free| + f - k else f - k
      {
        if p == freep {
          assert k == f;
          return false, prevp, p, k;
        }
        WalkOn(free, f, k, nunits);
        before := k;
        prevp := p;
        p := ptr[p];
        k := Next(free, k);
        assert LinkOk(ptr, size, free, k);
      }
    }

    /** What malloc does with the block it found: unlink it, or cut nunits off its end. */
    method Carve(prevp: int, p0: int, nunits: nat, ghost k: nat) returns (r: int)
      requires Valid() && freep != 0 && 1 <= k < |free| && 0 < nunits <= free[k].units
      requires p0 == free[k].at && prevp == free[k - 1].at
      modifies this`ptr, this`size, this`freep, this`free, this`live
      ensures Valid() && freep == prevp
      ensures free == old(Take(free, k, nunits))
      ensures var b := old(Taken(free, k, nunits)); r == b.at + 1 && b.at !in old(live) && live == old(live)[b.at := nunits]
    {
      TakeKeepsHeap(ptr, size, freep, base, free, live, top, k, nunits);
      TakeConserves(arena, free, live, k, nunits);
      assert LinkOk(ptr, size, free, k);
      var p := p0;
      ghost var b := Taken(free, k, nunits);
      if size[p] == nunits {
        ptr := ptr[prevp := ptr[p]];
      } else {
        size := size[p := size[p] - nunits];
        p := p + size[p];
        size := size[p := nunits];
      }
      freep := prevp;
      free := Take(free, k, nunits);
      live := live[b.at := nunits];
      return p + 1;
    }
 
    /** morecore: sbrk's answer is a parameter, None for failure; a granted region lies above everything. */
    method Morecore(nunits: nat, grant: Option<int>) returns (p: int)
      requires Valid() && freep != 0 && nunits > 0 && (grant.Some? ==> grant.value >= top)
      modifies this
      ensures Valid() && freep != 0 && live == old(live)
      ensures p == 0 <==> grant.None?
      ensures grant.None? ==> free == old(free) && arena == old(arena)
      ensures grant.Some? ==> arena == old(arena) + Region(grant.value, if nunits < NALLOC then NALLOC else nunits)
      ensures grant.Some? ==> HasFit(free, nunits)
    {
      var nu := nunits;
      if nu < NALLOC {
        nu := NALLOC;
      }
      if grant.None? {
        return 0;
      }
      var hp := grant.value;
      ghost var b, was := Block(hp, nu), live;
      GrantKeepsHeap(ptr, size, freep, base, free, live, top, b);
      GrantConserves(arena, free, live, b);
      size := size[hp := nu];
      live := live[hp := nu];
      top := b.End();
      arena := arena + Region(hp, nu);
      Free(hp + 1);
      assert live == was;
      assert forall u :: b.Has(u) ==> Covers(free, u);
      ghost var k := RunInOneBlock(free, b);
      return freep;
    }

    method Start()
      requires Valid() && freep == 0
      modifies this
      ensures Valid() && freep != 0 && live == old(live) && arena == old(arena) && top == old(top)
      ensures free == [Block(base, 0)]
    {
      ptr := ptr[base := base];
      freep := base;
      size := size[base := 0];
      free := [Block(base, 0)];
      assert free[0].at == freep && LinkOk(ptr, size, free, 0);
    }

    /** The scan of malloc and what it does with the block it finds. */
    method TakeFit(nunits: nat) returns (found: bool, r: int)
      requires Valid() && freep != 0 && nunits > 0
      modifies this`ptr, this`size, this`freep, this`free, this`live
      ensures Valid() && freep != 0
      ensures found <==> HasFit(old(free), nunits)
      ensures !found ==> live == old(live) && free == old(free)
      ensures found ==> r != 0 && r - 1 !in old(live) && live == old(live)[r - 1 := nunits]
    {
      var prevp, p;
      ghost var k;
      found, prevp, p, k := Scan(nunits);
      if found {
        assert free[0].at <= free[k - 1].at;
        r := Carve(prevp, p, nunits, k);
      } else {
        r := 0;
      }
    }

    /** The second half of malloc's loop: ask for memory once, and walk on; the new block always fits. */
    method GrowAndTake(nunits: nat, grant: Option<int>) returns (r: int)
      requires Valid() && freep != 0 && nunits > 0 && (grant.Some? ==> grant.value >= top)
      modifies this
      ensures Valid() && freep != 0
      ensures r == 0 <==> grant.None?
      ensures r == 0 ==> live == old(live) && arena == old(arena)
      ensures r != 0 ==> r - 1 !in old(live) && live == old(live)[r - 1 := nunits]
      ensures r != 0 ==> arena == old(arena) + Region(grant.value, if nunits < NALLOC then NALLOC else nunits)
    {
      var p := Morecore(nunits, grant);
      if p == 0 {
        return 0;
      }
      var found;
      found, r := TakeFit(nunits);
    }

    /** malloc. The payload address is 0 on failure; sbrks counts the calls of morecore. */
    method Malloc(nbytes: nat, grant: Option<int>) returns (r: int, sbrks: nat)
      requires Valid() && nbytes < UINT && (grant.Some? ==> grant.value >= top)
      modifies this
      ensures Valid() && freep != 0
      ensures sbrks == if HasFit(old(free), Units(nbytes)) then 0 else 1
      ensures r == 0 <==> sbrks == 1 && grant.None?
      ensures r == 0 ==> live == old(live)
      ensures r != 0 ==> r - 1 !in old(live) && live == old(live)[r - 1 := Units(nbytes)]
      ensures arena == if sbrks == 0 || grant.None? then old(arena)
                       else old(arena) + Region(grant.value, if Units(nbytes) < NALLOC then NALLOC else Units(nbytes))
    {
      var nunits := (nbytes + 7) % UINT / 8 + 1;
      if freep == 0 {
        Start();
      }
      var found;
      found, r := TakeFit(nunits);
      sbrks := 0;
      if !found {
        sbrks := 1;
        r := GrowAndTake(nunits, grant);
      }
    }
  }
}
