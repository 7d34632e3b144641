/** The address-ordered free list of umalloc.c as a value: blocks of header-sized units, lowest first.
    The first is always the empty static block base. */
module FreeList {

  datatype Block = Block(at: int, units: nat) {
    function End(): int { at + units }
    predicate Has(u: int) { at <= u < at + units }
  }

  /** Address order, no overlap, and never two blocks that touch; only the first may be empty. */
  ghost predicate Ordered(bs: seq<Block>) {
    && (forall i, j :: 0 <= i < j < |bs| ==> bs[i].End() < bs[j].at)
    && (forall i :: 1 <= i < |bs| ==> bs[i].units > 0)
  }

  /** Unit u lies in some block. */
  ghost predicate Covers(bs: seq<Block>, u: int) {
    exists i :: 0 <= i < |bs| && bs[i].Has(u)
  }

  /** b shares no unit with any block and lies above the first. */
  ghost predicate Clear(bs: seq<Block>, b: Block) {
    && (forall i :: 0 <= i < |bs| ==> bs[i].End() <= b.at || b.End() <= bs[i].at)
    && (|bs| > 0 ==> bs[0].at < b.at) && b.units > 0
  }

  // ---- free: where the block goes and what it merges with

  /** The block behind which a block starting at `at` belongs: the last one that starts below it. */
  function Place(bs: seq<Block>, at: int): (k: nat)
    requires |bs| > 0 && bs[0].at < at
    ensures k < |bs| && bs[k].at < at
    ensures forall j :: k < j < |bs| ==> at <= bs[j].at
    decreases |bs|
  {
    var last := |bs| - 1;
    if bs[last].at < at then last else Place(bs[..last], at)
  }

  /** Whether b touches the block behind which it belongs, and the one after that. */
  predicate TouchesLower(bs: seq<Block>, k: nat, b: Block) { k < |bs| && bs[k].End() == b.at }
  predicate TouchesUpper(bs: seq<Block>, k: nat, b: Block) { k + 1 < |bs| && b.End() == bs[k + 1].at }

  function Below(bs: seq<Block>, k: nat, b: Block): seq<Block>
    requires k < |bs|
  {
    if TouchesLower(bs, k, b) then bs[..k] else bs[..k + 1]
  }

  function Above(bs: seq<Block>, k: nat, b: Block): seq<Block>
    requires k < |bs|
  {
    if TouchesUpper(bs, k, b) then bs[k + 2..] else bs[k + 1..]
  }

  function Merged(bs: seq<Block>, k: nat, b: Block): (m: Block)
    requires k < |bs|
  {
    var up := if TouchesUpper(bs, k, b) then b.units + bs[k + 1].units else b.units;
    if TouchesLower(bs, k, b) then Block(bs[k].at, bs[k].units + up) else Block(b.at, up)
  }

  /** The list after b is given back behind bs[k]. */
  function Insert(bs: seq<Block>, k: nat, b: Block): seq<Block>
    requires k < |bs|
  {
    Below(bs, k, b) + [Merged(bs, k, b)] + Above(bs, k, b)
  }

  // ---- malloc: unlink a block or cut off its tail

  function Unlink(bs: seq<Block>, k: nat): seq<Block>
    requires k < |bs|
  {
    bs[..k] + bs[k + 1..]
  }

  function Cut(bs: seq<Block>, k: nat, n: nat): seq<Block>
    requires k < |bs| && n <= bs[k].units
  {
    bs[k := Block(bs[k].at, bs[k].units - n)]
  }

  /** The list after n units are taken from the end of bs[k]. */
  function Take(bs: seq<Block>, k: nat, n: nat): seq<Block>
    requires k < |bs| && n <= bs[k].units
  {
    if bs[k].units == n then Unlink(bs, k) else Cut(bs, k, n)
  }

  function Taken(bs: seq<Block>, k: nat, n: nat): Block
    requires k < |bs| && n <= bs[k].units
  {
    Block(bs[k].End() - n, n)
  }

  lemma CoversConcat(a: seq<Block>, b: seq<Block>, u: int)
    ensures Covers(a + b, u) <==> Covers(a, u) || Covers(b, u)
  {
    if i :| 0 <= i < |a| && a[i].Has(u) { assert (a + b)[i].Has(u); }
    if i :| 0 <= i < |b| && b[i].Has(u) { assert (a + b)[|a| + i].Has(u); }
  }

  lemma CoversOne(b: Block, u: int)
    ensures Covers([b], u) <==> b.Has(u)
  {
    assert [b][0] == b;
  }

  lemma Join(left: seq<Block>, m: Block, right: seq<Block>)
    requires Ordered(left) && Ordered(right) && m.units > 0 && (right != [] ==> right[0].units > 0)
    requires forall i :: 0 <= i < |left| ==> left[i].End() < m.at
    requires forall i :: 0 <= i < |right| ==> m.End() < right[i].at
    ensures Ordered(left + [m] + right)
  {
  }

  lemma Slice(bs: seq<Block>, lo: nat, hi: nat)
    requires Ordered(bs) && lo <= hi <= |bs|
    ensures Ordered(bs[lo..hi])
  {
  }

  lemma PartsAreOrdered(bs: seq<Block>, k: nat, b: Block)
    requires Ordered(bs) && k < |bs|
    ensures Ordered(Below(bs, k, b)) && Ordered(Above(bs, k, b))
  {
    Slice(bs, 0, |Below(bs, k, b)|);
    Slice(bs, |bs| - |Above(bs, k, b)|, |bs|);
  }

  /** The merged block keeps clear of its new neighbours. */
  lemma MergedIsClear(bs: seq<Block>, k: nat, b: Block)
    requires Ordered(bs) && Clear(bs, b) && k < |bs| && bs[k].at < b.at
    requires k + 1 < |bs| ==> b.at < bs[k + 1].at
    ensures var left, m, right := Below(bs, k, b), Merged(bs, k, b), Above(bs, k, b);
      && m.units > 0
      && (forall i :: 0 <= i < |left| ==> left[i].End() < m.at)
      && (forall i :: 0 <= i < |right| ==> m.End() < right[i].at && right[i].units > 0)
  {
    var m, right := Merged(bs, k, b), Above(bs, k, b);
    forall i | 0 <= i < |right| ensures m.End() < right[i].at && right[i].units > 0 {
      var j := |bs| - |right| + i;
      assert right[i] == bs[j];
    }
  }

  lemma InsertKeepsOrder(bs: seq<Block>, k: nat, b: Block)
    requires Ordered(bs) && Clear(bs, b) && k < |bs| && bs[k].at < b.at
    requires k + 1 < |bs| ==> b.at < bs[k + 1].at
    ensures Ordered(Insert(bs, k, b))
    ensures bs[0].units == 0 ==> Insert(bs, k, b)[0] == bs[0]
  {
    var left, m, right := Below(bs, k, b), Merged(bs, k, b), Above(bs, k, b);
    MergedIsClear(bs, k, b);
    PartsAreOrdered(bs, k, b);
    Join(left, m, right);
  }

  lemma InsertCovers(bs: seq<Block>, k: nat, b: Block, u: int)
    requires Clear(bs, b) && k < |bs|
    ensures Covers(Insert(bs, k, b), u) <==> Covers(bs, u) || b.Has(u)
  {
    var left, m, right := Below(bs, k, b), Merged(bs, k, b), Above(bs, k, b);
    var low := if TouchesLower(bs, k, b) then [bs[k]] else [];
    var high := if TouchesUpper(bs, k, b) then [bs[k + 1]] else [];
    assert bs == left + (low + (high + right));
    CoversConcat(left, low + (high + right), u);
    CoversConcat(low, high + right, u);
    CoversConcat(high, right, u);
    CoversConcat(left + [m], right, u);
    CoversConcat(left, [m], u);
    CoversOne(m, u);
    CoversOne(bs[k], u);
    if k + 1 < |bs| { CoversOne(bs[k + 1], u); }
  }

  /** A block apart from b and from the list stays apart from the list with b in it. */
  lemma InsertKeepsClear(bs: seq<Block>, k: nat, b: Block, c: Block)
    requires Ordered(bs) && Clear(bs, b) && k < |bs| && bs[k].at < b.at && (k + 1 < |bs| ==> b.at < bs[k + 1].at)
    requires Clear(bs, c) && (b.End() <= c.at || c.End() <= b.at) && bs[0].units == 0
    ensures Clear(Insert(bs, k, b), c)
  {
    MergedKeepsClear(bs, k, b, c);
    var right := Above(bs, k, b);
    forall i | 0 <= i < |right| ensures right[i].End() <= c.at || c.End() <= right[i].at {
      assert right[i] == bs[|bs| - |right| + i];
    }
  }

  lemma MergedKeepsClear(bs: seq<Block>, k: nat, b: Block, c: Block)
    requires Ordered(bs) && Clear(bs, b) && k < |bs| && bs[k].at < b.at && (k + 1 < |bs| ==> b.at < bs[k + 1].at)
    requires Clear(bs, c) && (b.End() <= c.at || c.End() <= b.at) && bs[0].units == 0
    ensures var m := Merged(bs, k, b); c.units > 0 && m.units > 0 && (m.End() <= c.at || c.End() <= m.at)
  {
  }

  lemma TakeKeepsOrder(bs: seq<Block>, k: nat, n: nat)
    requires Ordered(bs) && 1 <= k < |bs| && 0 < n <= bs[k].units
    ensures Ordered(Take(bs, k, n)) && Take(bs, k, n)[0] == bs[0]
    ensures Clear(Take(bs, k, n), Taken(bs, k, n))
  {
  }

  lemma TakeCovers(bs: seq<Block>, k: nat, n: nat, u: int)
    requires Ordered(bs) && 1 <= k < |bs| && 0 < n <= bs[k].units
    ensures Covers(bs, u) <==> Covers(Take(bs, k, n), u) || Taken(bs, k, n).Has(u)
    ensures !(Covers(Take(bs, k, n), u) && Taken(bs, k, n).Has(u))
  {
    var rest := if bs[k].units == n then [] else [Block(bs[k].at, bs[k].units - n)];
    var left, right := bs[..k], bs[k + 1..];
    assert Take(bs, k, n) == left + (rest + right);
    assert bs == left + ([bs[k]] + right);
    CoversConcat(left, rest + right, u);
    CoversConcat(rest, right, u);
    CoversConcat(left, [bs[k]] + right, u);
    CoversConcat([bs[k]], right, u);
    CoversOne(bs[k], u);
    CoversOne(Block(bs[k].at, bs[k].units - n), u);
  }

  /** A run of free units lies in one block, since blocks never touch. */
  lemma {:induction false} RunInOneBlock(bs: seq<Block>, b: Block) returns (k: nat)
    requires Ordered(bs) && b.units > 0
    requires forall u :: b.Has(u) ==> Covers(bs, u)
    ensures k < |bs| && bs[k].at <= b.at && b.End() <= bs[k].End()
    decreases b.units
  {
    assert b.Has(b.End() - 1);
    if b.units == 1 {
      k :| 0 <= k < |bs| && bs[k].Has(b.at);
    } else {
      k := RunInOneBlock(bs, Block(b.at, b.units - 1));
      var j :| 0 <= j < |bs| && bs[j].Has(b.End() - 1);
      OneBlockAt(bs, k, j, b.End() - 1);
    }
  }

  /** A block that goes on where another ends, or before, is that block. */
  lemma OneBlockAt(bs: seq<Block>, k: nat, j: nat, u: int)
    requires Ordered(bs) && k < |bs| && j < |bs| && bs[k].at < u <= bs[k].End() && bs[j].Has(u)
    ensures j == k
  {
  }

  /** The highest unit of an ordered list is the end of its last block. */
  lemma LastUnit(a: seq<Block>)
    requires Ordered(a) && |a| > 1
    ensures Covers(a, a[|a| - 1].End() - 1)
    ensures forall u :: Covers(a, u) ==> u < a[|a| - 1].End()
  {
    assert a[|a| - 1].Has(a[|a| - 1].End() - 1);
  }

  /** Without its last block a list covers what it covered below that block. */
  lemma DropLast(a: seq<Block>, u: int)
    requires Ordered(a) && |a| > 1
    ensures Covers(a[..|a| - 1], u) <==> Covers(a, u) && u < a[|a| - 1].at
  {
    var last := |a| - 1;
    assert a == a[..last] + [a[last]];
    CoversConcat(a[..last], [a[last]], u);
    CoversOne(a[last], u);
  }

  /** The free units alone determine the list, so freeing the same blocks in any order, or taking a
      block and giving it back, leads to the same list. */
  lemma {:induction false} CoverDeterminesList(a: seq<Block>, b: seq<Block>)
    requires Ordered(a) && Ordered(b) && |a| > 0 && |b| > 0 && a[0] == b[0] && a[0].units == 0
    requires forall u :: Covers(a, u) <==> Covers(b, u)
    ensures a == b
    decreases |a|
  {
    if |a| == 1 {
      if |b| > 1 { LastUnit(b); }
    } else {
      LastUnit(a);
      if |b| == 1 {
        assert false;
      }
      LastUnit(b);
      var x, y := a[|a| - 1], b[|b| - 1];
      assert x.End() == y.End();
      if x.at < y.at {
        SameStart(a, b);
      } else if y.at < x.at {
        SameStart(b, a);
      }
      var a', b' := a[..|a| - 1], b[..|b| - 1];
      forall u ensures Covers(a', u) <==> Covers(b', u) {
        DropLast(a, u);
        DropLast(b, u);
      }
      CoverDeterminesList(a', b');
    }
  }

  /** The unit just below the last block is free in no ordered list. */
  lemma SameStart(a: seq<Block>, b: seq<Block>)
    requires Ordered(a) && Ordered(b) && |a| > 1 && |b| > 1
    requires a[|a| - 1].End() == b[|b| - 1].End() && a[|a| - 1].at < b[|b| - 1].at
    ensures exists u :: Covers(a, u) && !Covers(b, u)
  {
    var u := b[|b| - 1].at - 1;
    assert a[|a| - 1].Has(u);
    assert Covers(a, u) && !Covers(b, u);
  }
}
