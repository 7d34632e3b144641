/** fs.c: the block allocator, bmap, readi, writei and itrunc, on the blocks that bread returns. */
module FileSystem {
  import opened Basics
  import opened BlockData
  import opened FsState

  const UINT: nat := 0x1_0000_0000

  /** What writei comes to: -1, the byte count, or the panic of balloc. */
  datatype Outcome = Refused | Written | OutOfBlocks

  /** One past the last file block that bytes off .. off + tot reach. */
  function BlocksUpTo(off: nat, tot: nat): nat {
    if tot == 0 then off / BSIZE else (off + tot - 1) / BSIZE + 1
  }

  /** What holds when writei has copied tot bytes, into file blocks lo .. hi: d0, n0 is where it started. */
  ghost predicate Progress(sb: Superblock, d0: Image, n0: seq<Inode>, disk: Image, nodes: seq<Inode>,
                           i: nat, off: nat, src: seq<Byte>, tot: nat, lo: nat, hi: nat, newly: set<nat>)
    requires i < |n0| && tot <= |src|
  {
    && lo <= hi <= MAXFILE
    && Grown(sb, d0, n0, disk, nodes, i) && nodes[i].(addrs := n0[i].addrs) == n0[i]
    && Wrote(d0, n0, disk, nodes, i, off, src[..tot])
    && (forall q :: lo <= q < hi ==> Slot(disk, nodes[i], FileSlot(q)) != 0)
    && (off + |src| <= n0[i].size ==> nodes == n0)
    && newly <= Touched(sb, disk, nodes[i], lo, hi)
  }

  lemma NothingWritten(sb: Superblock, disk: Image, nodes: seq<Inode>, i: nat, off: nat, src: seq<Byte>, newly: set<nat>)
    requires i < |nodes| && off <= MAXBYTES && newly == {}
    ensures Progress(sb, disk, nodes, disk, nodes, i, off, src, 0, off / BSIZE, off / BSIZE, newly) == true
    ensures AtBoundary(off, |src|, 0, off / BSIZE) == true
  {
  }

  /** What one turn of writei does, for src within one block. */
  ghost predicate Stepped(sb: Superblock, d0: Image, n0: seq<Inode>, disk: Image, nodes: seq<Inode>, i: nat, off: nat, src: seq<Byte>)
    requires i < |n0|
  {
    && Grown(sb, d0, n0, disk, nodes, i) && nodes[i].(addrs := n0[i].addrs) == n0[i]
    && Wrote(d0, n0, disk, nodes, i, off, src) && Slot(disk, nodes[i], FileSlot(off / BSIZE)) != 0
  }

  lemma PatchSteps(sb: Superblock, d0: Image, n0: seq<Inode>, d: Image, nodes: seq<Inode>, owner: Owner,
                   i: nat, off: nat, bn: nat, lo: nat, src: seq<Byte>, d': Image)
    requires Conserved(sb, d, nodes, owner) == true && AllDense(d, nodes) == true && i < |nodes| == |n0| && bn < MAXFILE
    requires off == bn * BSIZE + lo && off / BSIZE == bn && lo + |src| <= BSIZE
    requires SameFiles(d0, n0, d, nodes) == true && Grown(sb, d0, n0, d, nodes, i) == true
    requires var b := Slot(d, nodes[i], FileSlot(bn)); 0 < b < |d| && d' == d[b := Patch(d[b], lo, src)]
    ensures Conserved(sb, d', nodes, owner) == true && AllDense(d', nodes) == true
    ensures Stepped(sb, d0, n0, d', nodes, i, off, src) == true
    ensures Slot(d, nodes[i], FileSlot(bn)) in Touched(sb, d', nodes[i], bn, bn + 1)
    ensures Touched(sb, d, nodes[i], bn, bn + 1) <= Touched(sb, d', nodes[i], bn, bn + 1)
  {
    PatchWrites(sb, d0, n0, d, nodes, owner, i, off, bn, lo, src, d');
    PatchTouches(sb, d, nodes, d', i, bn);
    GrownTwice(sb, d0, n0, d, nodes, d', nodes, i);
    WroteSteps(sb, d0, n0, d, nodes, d', i, off, src);
  }

  lemma PatchTouches(sb: Superblock, d: Image, nodes: seq<Inode>, d': Image, i: nat, bn: nat)
    requires Grown(sb, d, nodes, d', nodes, i) == true && i < |nodes| && bn < MAXFILE && Slot(d, nodes[i], FileSlot(bn)) != 0
    ensures Slot(d, nodes[i], FileSlot(bn)) in Touched(sb, d', nodes[i], bn, bn + 1)
    ensures Slot(d', nodes[i], FileSlot(bn)) != 0
    ensures Touched(sb, d, nodes[i], bn, bn + 1) <= Touched(sb, d', nodes[i], bn, bn + 1)
  {
    TouchedGrows(sb, d, nodes, d', nodes, i, bn, bn + 1);
    assert Slot(d, nodes[i], FileSlot(bn)) in Touched(sb, d, nodes[i], bn, bn + 1);
    assert FileSlot(bn) < SLOTS;
  }

  lemma WroteSteps(sb: Superblock, d0: Image, n0: seq<Inode>, d: Image, nodes: seq<Inode>, d': Image, i: nat, off: nat, src: seq<Byte>)
    requires i < |nodes| == |n0| && SameFiles(d0, n0, d, nodes) == true && Grown(sb, d0, n0, d', nodes, i) == true
    requires Wrote(d0, n0, d', nodes, i, off, src) == true && Slot(d', nodes[i], FileSlot(off / BSIZE)) != 0
    ensures Stepped(sb, d0, n0, d', nodes, i, off, src) == true
  {
  }

  /** Where the loop of writei stands after tot of n bytes: at a block boundary, hi blocks reached. */
  predicate AtBoundary(off: nat, n: nat, tot: nat, hi: nat) {
    hi == BlocksUpTo(off, tot) && (0 < tot < n ==> (off + tot) % BSIZE == 0)
  }

  /** min(n - tot, BSIZE - off % BSIZE) */
  function StepSize(off: nat, left: nat): nat {
    if left < BSIZE - off % BSIZE then left else BSIZE - off % BSIZE
  }

  /** The n bytes from at on lie in file block bn. */
  predicate OneBlock(at: nat, n: nat, bn: nat) {
    at % BSIZE + n <= BSIZE && bn == at / BSIZE < MAXFILE
  }

  lemma BlocksAdvance(off: nat, n: nat, tot: nat, hi: nat)
    requires tot < n && AtBoundary(off, n, tot, hi) && off + n <= MAXBYTES
    ensures var m := StepSize(off + tot, n - tot);
      0 < m && tot + m <= n && OneBlock(off + tot, m, hi) == true && AtBoundary(off, n, tot + m, hi + 1) == true
  {
    var at := off + tot;
    var m := StepSize(at, n - tot);
    if tot > 0 {
      assert (at - 1) / BSIZE + 1 == at / BSIZE;
    }
    assert at == at / BSIZE * BSIZE + at % BSIZE;
    assert (at + m - 1) / BSIZE == at / BSIZE;
  }

  lemma BlocksInRange(off: nat, n: nat)
    requires off + n <= MAXBYTES
    ensures BlocksUpTo(off, n) <= MAXFILE
  {
  }

  lemma TouchedJoin(sb: Superblock, disk: Image, node: Inode, lo: nat, hi: nat)
    requires lo <= hi
    ensures Touched(sb, disk, node, lo, hi) + Touched(sb, disk, node, hi, hi + 1) <= Touched(sb, disk, node, lo, hi + 1)
  {
    TouchedBase(sb, disk, node, lo, hi);
  }

  lemma {:induction false} TouchedBase(sb: Superblock, disk: Image, node: Inode, lo: nat, hi: nat)
    ensures Touched(sb, disk, node, 0, 0) <= Touched(sb, disk, node, lo, hi)
    decreases hi
  {
    if lo < hi {
      TouchedBase(sb, disk, node, lo, hi - 1);
    }
  }

  lemma BlocksStep(sb: Superblock, d1: Image, n1: seq<Inode>, d2: Image, n2: seq<Inode>, i: nat, lo: nat, hi: nat,
                   log1: set<nat>, log2: set<nat>)
    requires i < |n1| && Grown(sb, d1, n1, d2, n2, i) && lo <= hi < MAXFILE
    requires forall q :: lo <= q < hi ==> Slot(d1, n1[i], FileSlot(q)) != 0
    requires Slot(d2, n2[i], FileSlot(hi)) != 0
    requires log1 <= Touched(sb, d1, n1[i], lo, hi) && log2 <= log1 + Touched(sb, d2, n2[i], hi, hi + 1)
    ensures forall q :: lo <= q < hi + 1 ==> Slot(d2, n2[i], FileSlot(q)) != 0
    ensures log2 <= Touched(sb, d2, n2[i], lo, hi + 1)
  {
    TouchedGrows(sb, d1, n1, d2, n2, i, lo, hi);
    TouchedJoin(sb, d2, n2[i], lo, hi);
    forall q | lo <= q < hi + 1 ensures Slot(d2, n2[i], FileSlot(q)) != 0 {
      assert FileSlot(q) < SLOTS;
    }
  }

  lemma ProgressStep(sb: Superblock, d0: Image, n0: seq<Inode>, d1: Image, n1: seq<Inode>, d2: Image, n2: seq<Inode>,
                     i: nat, off: nat, src: seq<Byte>, tot: nat, m: nat, lo: nat, hi: nat, log1: set<nat>, log2: set<nat>)
    requires i < |n0| && tot + m <= |src| && lo <= hi < MAXFILE
    requires Progress(sb, d0, n0, d1, n1, i, off, src, tot, lo, hi, log1) == true
    requires Stepped(sb, d1, n1, d2, n2, i, off + tot, src[tot..tot + m]) == true && hi == (off + tot) / BSIZE
    requires off + |src| <= n0[i].size ==> n2 == n1
    requires log2 <= log1 + Touched(sb, d2, n2[i], hi, hi + 1)
    ensures Progress(sb, d0, n0, d2, n2, i, off, src, tot + m, lo, hi + 1, log2) == true
  {
    GrownTwice(sb, d0, n0, d1, n1, d2, n2, i);
    WroteMore(d0, n0, d1, n1, d2, n2, i, off, src[..tot], src[tot..tot + m]);
    assert src[..tot] + src[tot..tot + m] == src[..tot + m];
    BlocksStep(sb, d1, n1, d2, n2, i, lo, hi, log1, log2);
  }

  lemma {:induction false} TouchedIgnoresSize(sb: Superblock, disk: Image, a: Inode, b: Inode, lo: nat, hi: nat)
    requires a.addrs == b.addrs
    ensures Touched(sb, disk, a, lo, hi) == Touched(sb, disk, b, lo, hi)
    decreases hi
  {
    if lo < hi {
      TouchedIgnoresSize(sb, disk, a, b, lo, hi - 1);
    }
  }

  /** A write that stays below the size finds every block in place. */
  lemma StepIsAllocated(d0: Image, n0: seq<Inode>, d1: Image, n1: seq<Inode>, i: nat, off: nat, src: seq<Byte>, tot: nat)
    requires i < |n0| && tot < |src| && off + |src| <= MAXBYTES && AllDense(d1, n1) && |n1| == |n0|
    ensures off + |src| <= n1[i].size ==> Slot(d1, n1[i], FileSlot((off + tot) / BSIZE)) != 0
    ensures (off + tot) / BSIZE < MAXFILE
  {
    var q := (off + tot) / BSIZE;
    assert q * BSIZE <= off + tot;
    assert Dense(d1, n1[i]);
  }

  /** old with src written over it at off. */
  function Spliced(was: seq<Byte>, off: nat, src: seq<Byte>): seq<Byte>
    requires off <= |was|
  {
    was[..off] + src + if off + |src| < |was| then was[off + |src|..] else []
  }

  function Resized(node: Inode, off: nat, n: nat): Inode
    requires off + n <= MAXBYTES
  {
    if n > 0 && off + n > node.size then node.(size := off + n) else node
  }

  /** The size plays no part in where blocks hang. */
  lemma ResizeConserves(sb: Superblock, disk: Image, nodes: seq<Inode>, owner: Owner, i: nat, size: UInt)
    requires Conserved(sb, disk, nodes, owner) && i < |nodes|
    ensures Conserved(sb, disk, nodes[i := nodes[i].(size := size)], owner)
  {
    var nodes' := nodes[i := nodes[i].(size := size)];
    forall j, t | 0 <= j < |nodes| && 0 <= t < SLOTS ensures SlotOwned(disk, nodes'[j], owner, j, t) {
      assert SlotOwned(disk, nodes[j], owner, j, t);
    }
    forall c | c in owner ensures OwnerOk(sb, disk, nodes', owner, c) {
      assert OwnerOk(sb, disk, nodes, owner, c);
    }
  }

  lemma ResizeStaysDense(sb: Superblock, d0: Image, n0: seq<Inode>, disk: Image, nodes: seq<Inode>,
                         i: nat, off: nat, src: seq<Byte>, newly: set<nat>)
    requires i < |n0| && off <= n0[i].size && off + |src| <= MAXBYTES && AllDense(d0, n0)
    requires Progress(sb, d0, n0, disk, nodes, i, off, src, |src|, off / BSIZE, BlocksUpTo(off, |src|), newly)
    ensures Dense(disk, Resized(nodes[i], off, |src|))
  {
    assert Dense(d0, n0[i]);
    var node := Resized(nodes[i], off, |src|);
    forall q | 0 <= q < MAXFILE && q * BSIZE < node.size ensures Slot(disk, node, FileSlot(q)) != 0 {
      assert FileSlot(q) < SLOTS;
      assert Slot(disk, node, FileSlot(q)) == Slot(disk, nodes[i], FileSlot(q));
      if q * BSIZE >= n0[i].size {
        assert off / BSIZE <= q < BlocksUpTo(off, |src|);
      }
    }
  }

  lemma WroteContent(d0: Image, n0: seq<Inode>, disk: Image, nodes: seq<Inode>, i: nat, off: nat, src: seq<Byte>)
    requires i < |n0| && off <= n0[i].size <= MAXBYTES && off + |src| <= MAXBYTES
    requires Wrote(d0, n0, disk, nodes, i, off, src) && nodes[i].size == n0[i].size
    ensures Content(disk, Resized(nodes[i], off, |src|)) == Spliced(Content(d0, n0[i]), off, src)
  {
    var node := Resized(nodes[i], off, |src|);
    forall k | 0 <= k < node.size ensures Content(disk, node)[k] == Spliced(Content(d0, n0[i]), off, src)[k] {
      assert FileByte(disk, node, k) == FileByte(disk, nodes[i], k);
    }
  }

  lemma OthersKeepContent(d0: Image, n0: seq<Inode>, disk: Image, nodes: seq<Inode>, i: nat, off: nat, src: seq<Byte>, j: nat)
    requires i < |n0| && j < |n0| && j != i && Wrote(d0, n0, disk, nodes, i, off, src)
    requires nodes[j].size == n0[j].size <= MAXBYTES
    ensures Content(disk, nodes[j]) == Content(d0, n0[j])
  {
    forall k | 0 <= k < n0[j].size ensures Content(disk, nodes[j])[k] == Content(d0, n0[j])[k] {
      assert FileByte(disk, nodes[j], k) == FileByte(d0, n0[j], k);
    }
  }

  lemma SlicesJoin(s: seq<Byte>, a: nat, b: nat, c: nat)
    requires a <= b <= c <= |s|
    ensures s[a..b] + s[b..c] == s[a..c]
  {
  }

  lemma StepFits(at: nat, left: nat)
    requires left > 0
    ensures 0 < StepSize(at, left) <= left && at % BSIZE + StepSize(at, left) <= BSIZE
  {
  }

  lemma DenseAt(disk: Image, node: Inode, at: nat)
    requires Dense(disk, node) && at < node.size
    ensures at / BSIZE < MAXFILE && Slot(disk, node, FileSlot(at / BSIZE)) != 0
  {
    assert at / BSIZE * BSIZE <= at;
  }

  /** The bytes of one block are a slice of the content. */
  lemma BlockBytes(disk: Image, node: Inode, at: nat, m: nat)
    requires at + m <= node.size && at % BSIZE + m <= BSIZE
    requires 0 < Slot(disk, node, FileSlot(at / BSIZE)) < |disk|
    ensures disk[Slot(disk, node, FileSlot(at / BSIZE))][at % BSIZE..at % BSIZE + m] == Content(disk, node)[at..at + m]
  {
    var bn, lo := at / BSIZE, at % BSIZE;
    assert at == bn * BSIZE + lo;
    forall k | at <= k < at + m ensures Content(disk, node)[k] == disk[Slot(disk, node, FileSlot(bn))][lo + (k - at)] {
      InBlock(bn, lo, m, k);
    }
  }

  /** The inode has changed in size and addresses only. */
  predicate SameLabels(node: Inode, node': Inode) {
    node'.(size := node.size, addrs := node.addrs) == node
  }

  /** What a successful writei does: the file is spliced, no other file or inode changes, and the blocks
      newly passed to log_write are those of the written range, their bitmap blocks, and the inode's block. */
  ghost predicate WriteEffect(sb: Superblock, d0: Image, n0: seq<Inode>, disk: Image, nodes: seq<Inode>,
                              i: nat, off: nat, src: seq<Byte>, newly: set<nat>)
    requires i < |n0| && off <= n0[i].size
  {
    && |nodes| == |n0|
    && Content(disk, nodes[i]) == Spliced(Content(d0, n0[i]), off, src) && SameLabels(n0[i], nodes[i])
    && (forall j :: 0 <= j < |n0| && j != i ==> nodes[j] == n0[j] && Content(disk, nodes[j]) == Content(d0, n0[j]))
    && newly <= Touched(sb, disk, nodes[i], off / BSIZE, BlocksUpTo(off, |src|)) + {InodeBlock(sb, i)}
  }

  /** Every block hangs where it hung, and every byte of every file is the same. */
  ghost predicate SameShape(disk: Image, disk': Image, nodes: seq<Inode>) {
    && |disk'| == |disk|
    && (forall j, t :: 0 <= j < |nodes| && 0 <= t < SLOTS ==> Slot(disk', nodes[j], t) == Slot(disk, nodes[j], t))
    && (forall j, k :: 0 <= j < |nodes| && 0 <= k < MAXBYTES ==> FileByte(disk', nodes[j], k) == FileByte(disk, nodes[j], k))
  }

  lemma ShapeKeepsDense(disk: Image, disk': Image, nodes: seq<Inode>)
    requires SameShape(disk, disk', nodes) && AllDense(disk, nodes)
    ensures AllDense(disk', nodes)
    ensures forall j :: 0 <= j < |nodes| ==> Content(disk', nodes[j]) == Content(disk, nodes[j])
  {
    forall j | 0 <= j < |nodes| ensures Dense(disk', nodes[j]) && Content(disk', nodes[j]) == Content(disk, nodes[j]) {
      assert Dense(disk, nodes[j]);
      forall bn | 0 <= bn < MAXFILE && bn * BSIZE < nodes[j].size ensures Slot(disk', nodes[j], FileSlot(bn)) != 0 {
        assert FileSlot(bn) < SLOTS;
      }
    }
  }

  lemma {:induction false} ShapeKeepsTouched(sb: Superblock, disk: Image, disk': Image, nodes: seq<Inode>, i: nat, lo: nat, hi: nat)
    requires SameShape(disk, disk', nodes) && i < |nodes| && hi <= MAXFILE
    ensures Touched(sb, disk', nodes[i], lo, hi) == Touched(sb, disk, nodes[i], lo, hi)
    decreases hi
  {
    if lo < hi {
      ShapeKeepsTouched(sb, disk, disk', nodes, i, lo, hi - 1);
      assert FileSlot(hi - 1) < SLOTS;
    }
  }

  /** What bmap does to the file system when it stores a fresh block in an address of the inode. */
  lemma AddrHung(sb: Superblock, disk: Image, nodes: seq<Inode>, owner: Owner, i: nat, s: nat, b: nat)
    requires Conserved(sb, disk, nodes, owner) && AllDense(disk, nodes)
    requires i < |nodes| && s <= NDIRECT && nodes[i].addrs[s] == 0
    requires b < |disk| && BitmapBlock(sb, b) < |disk| && !Used(sb, disk, b)
    ensures var disk', nodes' := Allocated(sb, disk, b), nodes[i := SetAddr(nodes[i], s, b)];
      && b != 0 && Conserved(sb, disk', nodes', owner[b := Place(i, s)]) == true && AllDense(disk', nodes') == true
      && SameFiles(disk, nodes, disk', nodes') == true && Grown(sb, disk, nodes, disk', nodes', i) == true
  {
    var disk', nodes' := Allocated(sb, disk, b), nodes[i := SetAddr(nodes[i], s, b)];
    FreshBlock(sb, disk, nodes, owner, b);
    AddrAllocates(sb, disk, nodes, owner, i, s, b);
    AllocKeepsMeta(sb, disk, b);
    HungIsGrown(sb, disk, nodes, disk', nodes', i, s, b);
    HungStaysDense(disk, nodes, disk', nodes', i, s, b);
  }

  /** The same for an entry of the indirect block. */
  lemma EntryHung(sb: Superblock, disk: Image, nodes: seq<Inode>, owner: Owner, i: nat, s: nat, b: nat)
    requires Conserved(sb, disk, nodes, owner) && AllDense(disk, nodes) && i < |nodes| && NDIRECT < s < SLOTS
    requires nodes[i].addrs[NDIRECT] != 0 && Slot(disk, nodes[i], s) == 0
    requires b < |disk| && BitmapBlock(sb, b) < |disk| && !Used(sb, disk, b)
    ensures nodes[i].addrs[NDIRECT] < |disk| && b != 0
    ensures var disk' := SetEntry(sb, disk, nodes[i], s, b);
      && Conserved(sb, disk', nodes, owner[b := Place(i, s)]) == true && AllDense(disk', nodes) == true
      && SameFiles(disk, nodes, disk', nodes) == true && Grown(sb, disk, nodes, disk', nodes, i) == true
      && Slot(disk', nodes[i], s) == b
  {
    FreshBlock(sb, disk, nodes, owner, b);
    IndirectOwned(sb, disk, nodes, owner, i);
    EntryAllocates(sb, disk, nodes, owner, i, s, b);
    AllocKeepsMeta(sb, disk, b);
    var disk' := SetEntry(sb, disk, nodes[i], s, b);
    HungIsGrown(sb, disk, nodes, disk', nodes, i, s, b);
    HungStaysDense(disk, nodes, disk', nodes, i, s, b);
  }

  /** What ialloc leaves in the inode block: memset, and the type. */
  function Fresh(kind: Short): Inode {
    Inode(kind, 0, 0, 0, 0, NoAddrs())
  }

  /** Giving a free inode a type moves no block. */
  lemma FreshIsConserved(sb: Superblock, disk: Image, nodes: seq<Inode>, owner: Owner, i: nat, kind: Short)
    requires Conserved(sb, disk, nodes, owner) && AllDense(disk, nodes) && i < |nodes| && nodes[i].addrs == NoAddrs()
    ensures Conserved(sb, disk, nodes[i := Fresh(kind)], owner) == true && AllDense(disk, nodes[i := Fresh(kind)]) == true
  {
    var nodes' := nodes[i := Fresh(kind)];
    forall j, t | 0 <= j < |nodes| && 0 <= t < SLOTS ensures SlotOwned(disk, nodes'[j], owner, j, t) {
      assert SlotOwned(disk, nodes[j], owner, j, t);
    }
    forall c | c in owner ensures OwnerOk(sb, disk, nodes', owner, c) {
      assert OwnerOk(sb, disk, nodes, owner, c);
    }
    forall j | 0 <= j < |nodes| ensures Dense(disk, nodes'[j]) {
      assert Dense(disk, nodes[j]);
    }
  }

  /** Blocks and contents depend on the size and the addresses of an inode alone. */
  lemma LabelsDoNotMatter(sb: Superblock, disk: Image, nodes: seq<Inode>, owner: Owner, i: nat, node: Inode)
    requires Conserved(sb, disk, nodes, owner) && AllDense(disk, nodes)
    requires i < |nodes| && node.size == nodes[i].size && node.addrs == nodes[i].addrs
    ensures Conserved(sb, disk, nodes[i := node], owner) == true && AllDense(disk, nodes[i := node]) == true
    ensures forall j :: 0 <= j < |nodes| ==> Content(disk, nodes[i := node][j]) == Content(disk, nodes[j])
  {
    var nodes' := nodes[i := node];
    forall j, t | 0 <= j < |nodes| && 0 <= t < SLOTS ensures SlotOwned(disk, nodes'[j], owner, j, t) {
      assert SlotOwned(disk, nodes[j], owner, j, t);
    }
    forall c | c in owner ensures OwnerOk(sb, disk, nodes', owner, c) {
      assert OwnerOk(sb, disk, nodes, owner, c);
    }
    forall j | 0 <= j < |nodes| ensures Dense(disk, nodes'[j]) && Content(disk, nodes'[j]) == Content(disk, nodes[j]) {
      assert Dense(disk, nodes[j]);
      assert forall k :: 0 <= k < nodes[j].size ==> FileByte(disk, nodes'[j], k) == FileByte(disk, nodes[j], k);
      forall bn | 0 <= bn < MAXFILE && bn * BSIZE < nodes[j].size ensures Slot(disk, nodes'[j], FileSlot(bn)) != 0 {
        assert Slot(disk, nodes'[j], FileSlot(bn)) == Slot(disk, nodes[j], FileSlot(bn));
      }
    }
  }

  ghost predicate OnlyChanged(base: Image, disk: Image, blocks: set<nat>) {
    |base| == |disk| && forall b :: 0 <= b < |disk| && b !in blocks ==> disk[b] == base[b]
  }

  /** The bits of all blocks below n are set. */
  ghost predicate AllUsed(sb: Superblock, disk: Image, n: nat) {
    forall c :: 0 <= c < n && c < sb.size ==> BitmapBlock(sb, c) < |disk| && Used(sb, disk, c)
  }

  lemma AllUsedFurther(sb: Superblock, disk: Image, n: nat, m: nat)
    requires AllUsed(sb, disk, n)
    requires forall c :: n <= c < m && c < sb.size ==> BitmapBlock(sb, c) < |disk| && Used(sb, disk, c)
    ensures AllUsed(sb, disk, m) == true
  {
  }

  /** The lowest free inode but for number 0. */
  predicate FirstFree(nodes: seq<Inode>, i: nat) {
    1 <= i < |nodes| && nodes[i].kind == 0 && forall j :: 1 <= j < i ==> nodes[j].kind != 0
  }

  lemma DinodeIs(sb: Superblock, disk: Image, nodes: seq<Inode>, i: nat)
    requires GeometryOk(sb, disk) && nodes == Nodes(sb, disk) && i < |nodes|
    ensures InodeBlock(sb, i) < |disk| && GetDinode(disk[InodeBlock(sb, i)], i % IPB) == nodes[i]
  {
    assert i / IPB <= (sb.ninodes - 1) / IPB;
    assert nodes[i] == Dinode(sb, disk, i);
  }

  class FileSystem {
    const sb: Superblock
    var disk: Image                  // what bread returns, block by block
    var inode: seq<Inode>            // the inodes in memory
    ghost var owner: Owner           // where each block hangs
    ghost var logged: set<nat>       // blocks passed to log_write
    ghost var base: Image            // what bread returned when none of them had been

    ghost predicate Valid()
      reads this
    {
      && Conserved(sb, disk, inode, owner) == true
      && AllDense(disk, inode) == true
      && FreeIsEmpty(inode) == true && |inode| == sb.ninodes
    }

    /** Every block that has changed has been passed to log_write. */
    ghost predicate Traced()
      reads this`disk, this`logged, this`base
    {
      OnlyChanged(base, disk, logged) == true
    }

    /** A new transaction begins. */
    ghost method BeginTransaction()
      modifies this`logged, this`base
      ensures Traced() && logged == {} && base == disk
    {
      logged := {};
      base := disk;
    }

    /** No inode in memory is ahead of the disk, as between calls. */
    ghost predicate InStep()
      reads this
    {
      inode == Nodes(sb, disk)
    }

    constructor (s: Superblock, d: Image, ghost o: Owner)
      requires Conserved(s, d, Nodes(s, d), o) && AllDense(d, Nodes(s, d)) && FreeIsEmpty(Nodes(s, d))
      ensures Valid() && InStep() && Traced() && sb == s && disk == d && owner == o && logged == {}
    {
      sb := s;
      disk := d;
      inode := Nodes(s, d);
      owner := o;
      logged := {};
      base := d;
    }

    method LogWrite(b: nat, data: Bytes)
      requires b < |disk|
      requires Traced()
      modifies this`disk, this`logged
      ensures Traced()
      ensures disk == old(disk)[b := data] && logged == old(logged) + {b}
    {
      disk := disk[b := data];
      logged := logged + {b};
    }

    /** The inner loop of balloc: the first clear bit of one bitmap block. */
    method FindClear(b: nat) returns (r: Option<nat>)
      requires GeometryOk(sb, disk) && b < sb.size && b % BPB == 0
      ensures r.Some? ==> b <= r.value < sb.size && r.value < b + BPB && BitmapBlock(sb, r.value) == BitmapBlock(sb, b)
      ensures r.Some? ==> BitmapBlock(sb, b) < |disk| && !Used(sb, disk, r.value)
      ensures forall c :: b <= c < b + BPB && c < sb.size && (r.Some? ==> c < r.value) ==>
        BitmapBlock(sb, c) < |disk| && Used(sb, disk, c)
    {
      BitmapInRange(sb, disk, b);
      var bp := disk[b / BPB + sb.bmapstart];
      var bi := 0;
      while bi < BPB && b + bi < sb.size
        invariant 0 <= bi <= BPB
        invariant forall c :: b <= c < b + bi && c < sb.size ==> BitmapBlock(sb, c) < |disk| && Used(sb, disk, c)
      {
        assert (b + bi) / BPB == b / BPB && (b + bi) % BPB == bi;
        if !Bit(bp, bi) {
          return Some(b + bi);
        }
        bi := bi + 1;
      }
      return None;
    }

    /** balloc: the lowest free block, marked and zeroed; None is the panic "out of blocks". */
    method Balloc() returns (r: Option<nat>)
      requires GeometryOk(sb, disk)
      requires Traced()
      modifies this`disk, this`logged
      ensures Traced()
      ensures r.None? ==> disk == old(disk) && logged == old(logged)
      ensures r.None? ==> forall c :: 0 <= c < sb.size ==> BitmapBlock(sb, c) < |disk| && Used(sb, disk, c)
      ensures |disk| == |old(disk)|
      ensures r.Some? ==>
        && r.value < |disk| && BitmapBlock(sb, r.value) < |disk|
        && !Used(sb, old(disk), r.value) && disk == Allocated(sb, old(disk), r.value)
        && logged == old(logged) + {BitmapBlock(sb, r.value), r.value}
      ensures r.Some? ==> forall c :: 0 <= c < r.value ==> BitmapBlock(sb, c) < |disk| && Used(sb, old(disk), c)
    {
      var b := 0;
      while b < sb.size
        invariant b % BPB == 0 && disk == old(disk) && logged == old(logged)
        invariant AllUsed(sb, disk, b) == true
      {
        r := FindClear(b);
        if r.Some? {
          AllUsedFurther(sb, disk, b, r.value);
          Take(r.value);
          return;
        }
        AllUsedFurther(sb, disk, b, b + BPB);
        b := b + BPB;
      }
      return None;
    }

    /** Mark block b and zero it. */
    method Take(b: nat)
      requires GeometryOk(sb, disk) && b < |disk| && BitmapBlock(sb, b) < |disk|
      requires Traced()
      modifies this`disk, this`logged
      ensures Traced()
      ensures disk == Allocated(sb, old(disk), b) && logged == old(logged) + {BitmapBlock(sb, b), b}
    {
      var bb := b / BPB + sb.bmapstart;
      LogWrite(bb, SetBit(disk[bb], b % BPB));
      LogWrite(b, Zeroes());
    }

    /** bfree; its precondition is that "freeing free block" does not happen. */
    method Bfree(b: nat)
      requires GeometryOk(sb, disk) && b < |disk| && BitmapBlock(sb, b) < |disk| && Used(sb, disk, b)
      requires Traced()
      modifies this`disk, this`logged
      ensures Traced()
      ensures disk == MarkFree(sb, old(disk), b) && logged == old(logged) + {BitmapBlock(sb, b)}
    {
      var bb := b / BPB + sb.bmapstart;
      LogWrite(bb, ClearBit(disk[bb], b % BPB));
    }

    /** iupdate: the inode in memory goes to its place in its inode block; the other inodes there stay, and so do
        all files. */
    method Iupdate(i: nat)
      requires Conserved(sb, disk, inode, owner) == true && i < |inode| == sb.ninodes
      requires Traced()
      modifies this`disk, this`logged
      ensures Traced()
      ensures Conserved(sb, disk, inode, owner) == true
      ensures disk == InodeStored(sb, old(disk), i, inode[i]) && logged == old(logged) + {InodeBlock(sb, i)}
      ensures Nodes(sb, disk) == Nodes(sb, old(disk))[i := inode[i]]
      ensures SameShape(old(disk), disk, inode) == true
    {
      NodesOfStored(sb, disk, i, inode[i]);
      MetaWriteIsInvisible(sb, disk, inode, owner, InodeStored(sb, disk, i, inode[i]));
      var b := i / IPB + sb.inodestart;
      LogWrite(b, PutDinode(disk[b], i % IPB, inode[i]));
    }

    /** No block is left to allocate. */
    ghost predicate DiskFull()
      reads this
    {
      forall c :: 0 <= c < sb.size ==> BitmapBlock(sb, c) < |disk| && Used(sb, disk, c)
    }

    /** The first halves of bmap: the block at address s of inode i, allocated if it is missing. */
    method BmapAddr(i: nat, s: nat) returns (r: Option<nat>)
      requires Valid() && i < |inode| && s <= NDIRECT
      requires inode[i].kind != 0
      requires Traced()
      modifies this`disk, this`inode, this`owner, this`logged
      ensures Traced()
      ensures Valid()
      ensures SameFiles(old(disk), old(inode), disk, inode) == true && Grown(sb, old(disk), old(inode), disk, inode, i) == true
      ensures old(inode[i].addrs[s]) != 0 ==> unchanged(this) && r.Some?
      ensures r.None? ==> unchanged(this) && DiskFull()
      ensures r.Some? ==> 0 < r.value < |disk| && inode[i].addrs[s] == r.value
      ensures r.Some? ==> logged <= old(logged) + {r.value, BitmapBlock(sb, r.value)}
    {
      var addr := inode[i].addrs[s];
      if addr != 0 {
        assert SlotOwned(disk, inode[i], owner, i, s) && OwnerOk(sb, disk, inode, owner, addr);
        return Some(addr);
      }
      r := NewAddr(i, s);
    }

    method NewAddr(i: nat, s: nat) returns (r: Option<nat>)
      requires Valid() && i < |inode| && s <= NDIRECT && inode[i].kind != 0 && inode[i].addrs[s] == 0
      requires Traced()
      modifies this`disk, this`inode, this`owner, this`logged
      ensures Traced()
      ensures Valid()
      ensures SameFiles(old(disk), old(inode), disk, inode) == true && Grown(sb, old(disk), old(inode), disk, inode, i) == true
      ensures r.None? ==> unchanged(this) && DiskFull()
      ensures r.Some? ==> 0 < r.value < |disk| && inode[i].addrs[s] == r.value
      ensures r.Some? ==> logged <= old(logged) + {r.value, BitmapBlock(sb, r.value)}
    {
      ghost var disk0 := disk;
      r := Balloc();
      if r.Some? {
        AddrHung(sb, disk0, inode, owner, i, s, r.value);
        inode := inode[i := SetAddr(inode[i], s, r.value)];
        owner := owner[r.value := Place(i, s)];
      }
    }

    /** The second half of bmap: entry s - NDIRECT - 1 of the indirect block of inode i. */
    method BmapEntry(i: nat, s: nat) returns (r: Option<nat>)
      requires Valid() && i < |inode| && NDIRECT < s < SLOTS && inode[i].addrs[NDIRECT] != 0
      requires Traced()
      modifies this`disk, this`owner, this`logged
      ensures Traced()
      ensures Valid()
      ensures SameFiles(old(disk), inode, disk, inode) == true && Grown(sb, old(disk), inode, disk, inode, i) == true
      ensures Slot(old(disk), inode[i], s) != 0 ==> unchanged(this) && r.Some?
      ensures r.None? ==> unchanged(this) && DiskFull()
      ensures r.Some? ==> 0 < r.value < |disk| && Slot(disk, inode[i], s) == r.value
      ensures r.Some? ==> logged <= old(logged) + {r.value, BitmapBlock(sb, r.value), inode[i].addrs[NDIRECT]}
    {
      IndirectOwned(sb, disk, inode, owner, i);
      var ind := inode[i].addrs[NDIRECT];
      var addr := Word(disk[ind], s - NDIRECT - 1);
      if addr != 0 {
        assert SlotOwned(disk, inode[i], owner, i, s) && OwnerOk(sb, disk, inode, owner, addr);
        return Some(addr);
      }
      r := NewEntry(i, s);
    }

    method NewEntry(i: nat, s: nat) returns (r: Option<nat>)
      requires Valid() && i < |inode| && NDIRECT < s < SLOTS && inode[i].addrs[NDIRECT] != 0 && Slot(disk, inode[i], s) == 0
      requires Traced()
      modifies this`disk, this`owner, this`logged
      ensures Traced()
      ensures Valid()
      ensures SameFiles(old(disk), inode, disk, inode) == true && Grown(sb, old(disk), inode, disk, inode, i) == true
      ensures r.None? ==> unchanged(this) && DiskFull()
      ensures r.Some? ==> 0 < r.value < |disk| && Slot(disk, inode[i], s) == r.value
      ensures r.Some? ==> logged <= old(logged) + {r.value, BitmapBlock(sb, r.value), inode[i].addrs[NDIRECT]}
    {
      ghost var disk0 := disk;
      var ind := inode[i].addrs[NDIRECT];
      r := Balloc();
      if r.Some? {
        EntryHung(sb, disk0, inode, owner, i, s, r.value);
        LogWrite(ind, SetWord(disk[ind], s - NDIRECT - 1, r.value));
        owner := owner[r.value := Place(i, s)];
      }
    }

    /** bmap: the block of file block bn, allocated, with its indirect block, if it is missing. */
    method Bmap(i: nat, bn: nat) returns (r: Option<nat>)
      requires Valid() && i < |inode| && bn < MAXFILE
      requires inode[i].kind != 0
      requires Traced()
      modifies this`disk, this`inode, this`owner, this`logged
      ensures Traced()
      ensures Valid()
      ensures SameFiles(old(disk), old(inode), disk, inode) && Grown(sb, old(disk), old(inode), disk, inode, i)
      ensures Slot(old(disk), old(inode[i]), FileSlot(bn)) != 0 ==> unchanged(this) && r.Some?
      ensures r.None? ==> DiskFull()
      ensures r.Some? ==> 0 < r.value < |disk| && Slot(disk, inode[i], FileSlot(bn)) == r.value
      ensures r.Some? ==> logged <= old(logged) + Touched(sb, disk, inode[i], bn, bn + 1)
    {
      if bn < NDIRECT {
        r := BmapAddr(i, bn);
        return;
      }
      ghost var disk0, inode0 := disk, inode;
      r := BmapAddr(i, NDIRECT);
      if r.None? {
        return;
      }
      ghost var disk1, inode1 := disk, inode;
      assert Slot(disk0, inode0[i], bn + 1) != 0 ==> inode0[i].addrs[NDIRECT] != 0;
      r := BmapEntry(i, bn + 1);
      GrownTwice(sb, disk0, inode0, disk1, inode1, disk, inode, i);
      SameTwice(disk0, inode0, disk1, inode1, disk, inode);
    }
 
    /** One turn of the loop of writei: src goes to offset off, which lies in one block with all of src. */
    method WriteStep(i: nat, off: nat, src: seq<Byte>) returns (ok: bool)
      requires Valid() && i < |inode| && off < MAXBYTES && off % BSIZE + |src| <= BSIZE
      requires inode[i].kind != 0
      requires Traced()
      modifies this`disk, this`inode, this`owner, this`logged
      ensures Traced()
      ensures !ok ==> DiskFull()
      ensures ok ==> Valid()
      ensures ok ==> Stepped(sb, old(disk), old(inode), disk, inode, i, off, src) == true
      ensures Slot(old(disk), old(inode[i]), FileSlot(off / BSIZE)) != 0 ==> inode == old(inode)
      ensures ok ==> logged <= old(logged) + Touched(sb, disk, inode[i], off / BSIZE, off / BSIZE + 1)
    {
      var bn, lo := off / BSIZE, off % BSIZE;
      assert off == bn * BSIZE + lo;
      var r := Bmap(i, bn);
      if r.None? {
        return false;
      }
      PatchBlock(i, off, bn, lo, src, r.value, old(disk), old(inode));
      return true;
    }

    /** memmove into block b of the file, and log_write. */
    method PatchBlock(i: nat, off: nat, bn: nat, lo: nat, src: seq<Byte>, b: nat, ghost d0: Image, ghost n0: seq<Inode>)
      requires Valid() && Traced() && i < |inode| == |n0| && bn < MAXFILE
      requires off == bn * BSIZE + lo && off / BSIZE == bn && lo + |src| <= BSIZE
      requires 0 < b < |disk| && Slot(disk, inode[i], FileSlot(bn)) == b
      requires SameFiles(d0, n0, disk, inode) == true && Grown(sb, d0, n0, disk, inode, i) == true
      modifies this`disk, this`logged
      ensures Traced() && Valid()
      ensures Stepped(sb, d0, n0, disk, inode, i, off, src) == true
      ensures logged == old(logged) + {b} && b in Touched(sb, disk, inode[i], bn, bn + 1)
      ensures Touched(sb, old(disk), inode[i], bn, bn + 1) <= Touched(sb, disk, inode[i], bn, bn + 1)
    {
      ghost var d := disk;
      var data := Patch(disk[b], lo, src);
      PatchSteps(sb, d0, n0, d, inode, owner, i, off, bn, lo, src, d[b := data]);
      LogWrite(b, data);
    }
 
    /** Where writei stands after tot bytes and hi blocks. */
    ghost predicate Writing(d0: Image, n0: seq<Inode>, l0: set<nat>, i: nat, off: nat, src: seq<Byte>, tot: nat, hi: nat)
      reads this
    {
      && Valid() && Traced() && i < |n0| == |inode| && inode[i].kind != 0 && tot <= |src|
      && Progress(sb, d0, n0, disk, inode, i, off, src, tot, off / BSIZE, hi, logged - l0) == true
    }

    ghost predicate AtTurn(d0: Image, n0: seq<Inode>, l0: set<nat>, i: nat, off: nat, src: seq<Byte>, tot: nat, hi: nat)
      reads this
    {
      AtBoundary(off, |src|, tot, hi) == true && Writing(d0, n0, l0, i, off, src, tot, hi) == true
    }

    lemma WriteEnds(d0: Image, n0: seq<Inode>, l0: set<nat>, i: nat, off: nat, src: seq<Byte>, hi: nat)
      requires AtTurn(d0, n0, l0, i, off, src, |src|, hi)
      ensures Valid() && Traced() && i < |n0|
      ensures Progress(sb, d0, n0, disk, inode, i, off, src, |src|, off / BSIZE, BlocksUpTo(off, |src|), logged - l0) == true
    {
    }

    /** One turn of that loop, seen from the start of writei: its progress grows by one block. */
    method WriteTurn(i: nat, src: seq<Byte>, off: nat, tot: nat, ghost hi: nat,
                     ghost d0: Image, ghost n0: seq<Inode>, ghost l0: set<nat>) returns (ok: bool, done: nat, ghost upto: nat)
      requires AtTurn(d0, n0, l0, i, off, src, tot, hi) && tot < |src| && off + |src| <= MAXBYTES
      modifies this`disk, this`inode, this`owner, this`logged
      ensures Traced() && (!ok ==> DiskFull())
      ensures tot < done <= |src|
      ensures ok ==> AtTurn(d0, n0, l0, i, off, src, done, upto) == true
    {
      var m := NextStep(off, |src|, tot, hi);
      ok := WriteOne(i, src, off, tot, m, hi, d0, n0, l0);
      done, upto := tot + m, hi + 1;
    }

    /** m = min(n - tot, BSIZE - off%BSIZE) */
    method NextStep(off: nat, n: nat, tot: nat, ghost hi: nat) returns (m: nat)
      requires tot < n && off + n <= MAXBYTES && AtBoundary(off, n, tot, hi) == true
      ensures 0 < m && tot + m <= n && OneBlock(off + tot, m, hi) == true && AtBoundary(off, n, tot + m, hi + 1) == true
    {
      BlocksAdvance(off, n, tot, hi);
      m := StepSize(off + tot, n - tot);
    }

    method WriteOne(i: nat, src: seq<Byte>, off: nat, tot: nat, m: nat, ghost hi: nat,
                    ghost d0: Image, ghost n0: seq<Inode>, ghost l0: set<nat>) returns (ok: bool)
      requires Writing(d0, n0, l0, i, off, src, tot, hi) && 0 < m && tot + m <= |src| && off + |src| <= MAXBYTES
      requires OneBlock(off + tot, m, hi) == true
      modifies this`disk, this`inode, this`owner, this`logged
      ensures Traced() && (!ok ==> DiskFull())
      ensures ok ==> Writing(d0, n0, l0, i, off, src, tot + m, hi + 1) == true
    {
      ghost var d1, n1, l1 := disk, inode, logged;
      StepIsAllocated(d0, n0, d1, n1, i, off, src, tot);
      ok := WriteStep(i, off + tot, src[tot..tot + m]);
      if ok {
        ProgressStep(sb, d0, n0, d1, n1, disk, inode, i, off, src, tot, m, off / BSIZE, hi, l1 - l0, logged - l0);
      }
    }

    /** The loop of writei. */
    method WriteLoop(i: nat, src: seq<Byte>, off: nat) returns (ok: bool)
      requires Valid() && i < |inode| && off <= inode[i].size && off + |src| <= MAXBYTES
      requires inode[i].kind != 0
      requires Traced()
      modifies this`disk, this`inode, this`owner, this`logged
      ensures Traced()
      ensures !ok ==> DiskFull()
      ensures ok ==> Valid()
      ensures ok ==> Progress(sb, old(disk), old(inode), disk, inode, i, off, src, |src|,
                              off / BSIZE, BlocksUpTo(off, |src|), logged - old(logged)) == true
    {
      ghost var d0, n0, l0 := disk, inode, logged;
      ghost var hi: nat := off / BSIZE;
      var tot: nat := 0;
      NothingWritten(sb, d0, n0, i, off, src, l0 - l0);
      while tot < |src|
        invariant 0 <= tot <= |src| && AtTurn(d0, n0, l0, i, off, src, tot, hi) == true
        decreases |src| - tot
      {
        var done;
        ghost var upto;
        ok, done, upto := WriteTurn(i, src, off, tot, hi, d0, n0, l0);
        if !ok {
          return;
        }
        tot, hi := done, upto;
      }
      WriteEnds(d0, n0, l0, i, off, src, hi);
      ok := true;
    }

    /** The end of writei: grow the size if the write went past it. */
    method SetSize(i: nat, src: seq<Byte>, off: nat, ghost d0: Image, ghost n0: seq<Inode>, ghost l0: set<nat>)
      requires Valid() && i < |n0| == |inode| && off <= n0[i].size && off + |src| <= MAXBYTES && AllDense(d0, n0)
      requires inode[i].kind != 0
      requires Progress(sb, d0, n0, disk, inode, i, off, src, |src|, off / BSIZE, BlocksUpTo(off, |src|), logged - l0)
      requires Traced()
      modifies this`inode, this`disk, this`logged
      ensures Traced()
      ensures Valid()
      ensures WriteEffect(sb, d0, n0, disk, inode, i, off, src, logged - l0) == true
      ensures n0 == Nodes(sb, d0) ==> InStep()
    {
      FinishWrite(d0, n0, i, src, off, l0);
      NodesKept(sb, d0, disk);
      if |src| > 0 && off + |src| > inode[i].size {
        inode := inode[i := inode[i].(size := off + |src|)];
        StoreSize(i, src, off, d0, n0, l0);
      }
    }

    method StoreSize(i: nat, src: seq<Byte>, off: nat, ghost d0: Image, ghost n0: seq<Inode>, ghost l0: set<nat>)
      requires Valid() && i < |n0| == |inode| && off <= n0[i].size && off + |src| <= MAXBYTES
      requires WriteEffect(sb, d0, n0, disk, inode, i, off, src, logged - l0)
      requires Traced()
      modifies this`disk, this`logged
      ensures Traced()
      ensures Valid()
      ensures WriteEffect(sb, d0, n0, disk, inode, i, off, src, logged - l0) == true
      ensures Nodes(sb, disk) == Nodes(sb, old(disk))[i := inode[i]]
    {
      Iupdate(i);
      ShapeKeepsDense(old(disk), disk, inode);
      BlocksInRange(off, |src|);
      ShapeKeepsTouched(sb, old(disk), disk, inode, i, off / BSIZE, BlocksUpTo(off, |src|));
    }

    /** writei on a regular file or directory. A successful write splices src into the content at off,
        leaves every other file alone, and leaves the inode blocks in step with the inodes in memory. */
    method Writei(i: nat, src: seq<Byte>, off: nat) returns (r: Outcome)
      requires Valid() && i < |inode| && off < UINT && |src| < UINT
      requires inode[i].kind != 0
      requires Traced()
      modifies this
      ensures Traced() && base == old(base)
      ensures r.Refused? <==> off > old(inode[i].size) || off + |src| > MAXBYTES
      ensures r.Refused? ==> unchanged(this)
      ensures r.OutOfBlocks? ==> DiskFull()
      ensures r.Written? ==> Valid()
      ensures r.Written? ==> WriteEffect(sb, old(disk), old(inode), disk, inode, i, off, src, logged - old(logged)) == true
      ensures r.Written? && old(InStep()) ==> InStep()
    {
      var n := |src|;
      if off > inode[i].size || (off + n) % UINT < off {
        return Refused;
      }
      if off + n > MAXBYTES {
        return Refused;
      }
      ghost var d0, n0, l0 := disk, inode, logged;
      var ok := WriteLoop(i, src, off);
      if !ok {
        return OutOfBlocks;
      }
      SetSize(i, src, off, d0, n0, l0);
      return Written;
    }

    /** What the state after the loop amounts to once the size is set. */
    lemma FinishWrite(d0: Image, n0: seq<Inode>, i: nat, src: seq<Byte>, off: nat, l0: set<nat>)
      requires Valid() && i < |n0| == |inode| && off <= n0[i].size && off + |src| <= MAXBYTES && AllDense(d0, n0)
      requires Progress(sb, d0, n0, disk, inode, i, off, src, |src|, off / BSIZE, BlocksUpTo(off, |src|), logged - l0)
      ensures var node := Resized(inode[i], off, |src|);
        && Conserved(sb, disk, inode[i := node], owner) && AllDense(disk, inode[i := node])
        && Content(disk, node) == Spliced(Content(d0, n0[i]), off, src)
        && Touched(sb, disk, inode[i], off / BSIZE, BlocksUpTo(off, |src|))
           == Touched(sb, disk, node, off / BSIZE, BlocksUpTo(off, |src|))
        && (node == inode[i] ==> inode == n0) && SameLabels(n0[i], node)
      ensures forall j :: 0 <= j < |n0| && j != i ==> inode[j] == n0[j] && Content(disk, inode[j]) == Content(d0, n0[j])
    {
      var node := Resized(inode[i], off, |src|);
      ResizeConserves(sb, disk, inode, owner, i, node.size);
      ResizeStaysDense(sb, d0, n0, disk, inode, i, off, src, logged - l0);
      assert Dense(d0, n0[i]);
      assert src[..|src|] == src;
      WroteContent(d0, n0, disk, inode, i, off, src);
      TouchedIgnoresSize(sb, disk, inode[i], node, off / BSIZE, BlocksUpTo(off, |src|));
      forall j | 0 <= j < |n0| && j != i ensures Content(disk, inode[j]) == Content(d0, n0[j]) {
        assert Dense(d0, n0[j]);
        OthersKeepContent(d0, n0, disk, inode, i, off, src, j);
      }
    }
 
    /** One turn of the loop of readi. */
    method ReadStep(i: nat, off: nat, left: nat) returns (part: seq<Byte>)
      requires Valid() && i < |inode| && left > 0 && off + left <= inode[i].size
      requires Traced()
      modifies this
      ensures Traced() && base == old(base)
      ensures unchanged(this)
      ensures 0 < |part| <= left && part == Content(disk, inode[i])[off..off + |part|]
    {
      assert AllDense(disk, inode) && Dense(disk, inode[i]);
      DenseAt(disk, inode[i], off);
      StepFits(off, left);
      var b := Bmap(i, off / BSIZE);
      var m := StepSize(off, left);
      BlockBytes(disk, inode[i], off, m);
      return disk[b.value][off % BSIZE..off % BSIZE + m];
    }

    /** readi on a regular file or directory: exactly the bytes of the content from off on, at most n of
        them; it never finds a block missing, so it changes nothing. */
    method Readi(i: nat, off0: nat, n0: nat) returns (r: Option<seq<Byte>>)
      requires Valid() && i < |inode| && off0 < UINT && n0 < UINT
      requires Traced()
      modifies this
      ensures Traced() && base == old(base)
      ensures unchanged(this)
      ensures r.None? <==> off0 > inode[i].size || off0 + n0 >= UINT
      ensures r.Some? ==>
        r.value == Content(disk, inode[i])[off0..if off0 + n0 < inode[i].size then off0 + n0 else inode[i].size]
    {
      var off, n := off0, n0;
      if off > inode[i].size || (off + n) % UINT < off {
        return None;
      }
      if off + n > inode[i].size {
        n := inode[i].size - off;
      }
      var dst := ReadLoop(i, off, n);
      return Some(dst);
    }

    /** The loop of readi. */
    method ReadLoop(i: nat, off0: nat, n: nat) returns (dst: seq<Byte>)
      requires Valid() && i < |inode| && off0 + n <= inode[i].size
      requires Traced()
      modifies this
      ensures unchanged(this) && dst == Content(disk, inode[i])[off0..off0 + n]
    {
      ghost var content := Content(disk, inode[i]);
      var tot, off := 0, off0;
      dst := [];
      while tot < n
        invariant unchanged(this) && 0 <= tot <= n && off == off0 + tot
        invariant dst == content[off0..off]
      {
        var part := ReadStep(i, off, n - tot);
        SlicesJoin(content, off0, off, off + |part|);
        dst := dst + part;
        tot := tot + |part|;
        off := off + |part|;
      }
    }

    /** The first loop of itrunc: free and forget the direct blocks. */
    method TruncDirect(i: nat)
      requires Conserved(sb, disk, inode, owner) && i < |inode|
      requires Traced()
      modifies this`disk, this`inode, this`owner, this`logged
      ensures Traced()
      ensures Conserved(sb, disk, inode, owner)
      ensures BitsOnly(sb, old(disk), disk) && owner == Unowned(old(owner), i, 0, NDIRECT)
      ensures inode == old(inode)[i := Stripped(old(inode[i]), NDIRECT)]
    {
      ghost var d0, n0, o0 := disk, inode, owner;
      var k: nat := 0;
      assert Unowned(o0, i, 0, 0) == o0 && Stripped(n0[i], 0) == n0[i];
      while k < NDIRECT
        invariant k <= NDIRECT && Traced() && Conserved(sb, disk, inode, owner) == true
        invariant BitsOnly(sb, d0, disk) == true && owner == Unowned(o0, i, 0, k)
        invariant inode == n0[i := Stripped(n0[i], k)]
      {
        TruncOne(i, k);
        WithoutJoins(o0, i, 0, k, k + 1);
        StripOneMore(n0[i], k);
        k := k + 1;
      }
    }

    /** One turn of that loop. */
    method TruncOne(i: nat, k: nat)
      requires Conserved(sb, disk, inode, owner) == true && i < |inode| && k < NDIRECT
      requires Traced()
      modifies this`disk, this`inode, this`owner, this`logged
      ensures Traced()
      ensures Conserved(sb, disk, inode, owner) == true
      ensures BitsOnly(sb, old(disk), disk) && owner == Unowned(old(owner), i, k, k + 1)
      ensures inode == old(inode)[i := SetAddr(old(inode[i]), k, 0)]
    {
      ghost var d0 := disk;
      ClearOne(sb, d0, disk, inode, owner, i, k, k);
      if inode[i].addrs[k] != 0 {
        Bfree(inode[i].addrs[k]);
      }
      EmptyOne(d0, i, k);
      inode := inode[i := SetAddr(inode[i], k, 0)];
      owner := Unowned(owner, i, k, k + 1);
    }

    lemma EmptyOne(d0: Image, i: nat, k: nat)
      requires Conserved(sb, d0, inode, owner) == true && i < |inode| && k < NDIRECT
      requires Cleared(sb, d0, disk, owner, i, k, k + 1) == true
      ensures Conserved(sb, disk, inode[i := SetAddr(inode[i], k, 0)], Unowned(owner, i, k, k + 1)) == true
      ensures BitsOnly(sb, d0, disk)
    {
      forall t | 0 <= t < SLOTS
        ensures Slot(disk, SetAddr(inode[i], k, 0), t) == if k <= t < k + 1 then 0 else Slot(d0, inode[i], t)
      {
        SlotsAfterBits(sb, d0, disk, inode, owner, i, t);
      }
      ClearedIsConserved(sb, d0, disk, inode, owner, i, SetAddr(inode[i], k, 0), k, k + 1);
    }

    /** The second half of itrunc: free what the indirect block lists, then the indirect block. */
    method TruncIndirect(i: nat)
      requires Conserved(sb, disk, inode, owner) && i < |inode|
      requires Traced()
      modifies this`disk, this`inode, this`owner, this`logged
      ensures Traced()
      ensures Conserved(sb, disk, inode, owner)
      ensures BitsOnly(sb, old(disk), disk) && owner == Unowned(old(owner), i, NDIRECT, SLOTS)
      ensures inode == old(inode)[i := SetAddr(old(inode[i]), NDIRECT, 0)]
    {
      ghost var d0 := disk;
      var ind := inode[i].addrs[NDIRECT];
      if ind != 0 {
        FreeEntries(i);
        FinishIndirect(d0, i);
        Bfree(ind);
      } else {
        NothingHangs(i);
      }
      forall t | 0 <= t < SLOTS
        ensures Slot(disk, SetAddr(inode[i], NDIRECT, 0), t) == if NDIRECT <= t < SLOTS then 0 else Slot(d0, inode[i], t)
      {
        SlotsAfterBits(sb, d0, disk, inode, owner, i, t);
      }
      ClearedIsConserved(sb, d0, disk, inode, owner, i, SetAddr(inode[i], NDIRECT, 0), NDIRECT, SLOTS);
      inode := inode[i := SetAddr(inode[i], NDIRECT, 0)];
      owner := Unowned(owner, i, NDIRECT, SLOTS);
    }

    /** The loop over the indirect block. */
    method FreeEntries(i: nat)
      requires Conserved(sb, disk, inode, owner) && i < |inode| && inode[i].addrs[NDIRECT] != 0
      requires Traced()
      modifies this`disk, this`logged
      ensures Traced()
      ensures Cleared(sb, old(disk), disk, owner, i, NDIRECT + 1, SLOTS) && GeometryOk(sb, disk)
    {
      ghost var d0 := disk;
      IndirectOwned(sb, disk, inode, owner, i);
      var ind := inode[i].addrs[NDIRECT];
      var j := 0;
      while j < NINDIRECT
        invariant 0 <= j <= NINDIRECT && GeometryOk(sb, disk) && Traced()
        invariant Cleared(sb, d0, disk, owner, i, NDIRECT + 1, NDIRECT + 1 + j) == true
      {
        EntryReady(d0, i, j);
        var b := Word(disk[ind], j);
        if b != 0 {
          Bfree(b);
        }
        j := j + 1;
      }
    }

    /** Entry j is as it was when the loop began, and freeing it extends the cleared range. */
    lemma EntryReady(d0: Image, i: nat, j: nat)
      requires Conserved(sb, d0, inode, owner) == true && i < |inode| && inode[i].addrs[NDIRECT] != 0 && j < NINDIRECT
      requires Cleared(sb, d0, disk, owner, i, NDIRECT + 1, NDIRECT + 1 + j) == true && GeometryOk(sb, disk) == true
      ensures inode[i].addrs[NDIRECT] < |disk|
      ensures var b := Word(disk[inode[i].addrs[NDIRECT]], j);
        if b == 0 then Cleared(sb, d0, disk, owner, i, NDIRECT + 1, NDIRECT + 2 + j) == true
        else
          && b < |disk| && BitmapBlock(sb, b) < |disk| && Used(sb, disk, b)
          && Cleared(sb, d0, MarkFree(sb, disk, b), owner, i, NDIRECT + 1, NDIRECT + 2 + j) == true
          && GeometryOk(sb, MarkFree(sb, disk, b)) == true
    {
      EntryKept(d0, i, j);
      ClearOne(sb, d0, disk, inode, owner, i, NDIRECT + 1, NDIRECT + 1 + j);
      var b := Slot(d0, inode[i], NDIRECT + 1 + j);
      if b != 0 {
        FreeKeepsBits(sb, d0, disk, b);
      }
    }

    lemma EntryKept(d0: Image, i: nat, j: nat)
      requires Conserved(sb, d0, inode, owner) == true && i < |inode| && inode[i].addrs[NDIRECT] != 0 && j < NINDIRECT
      requires BitsOnly(sb, d0, disk)
      ensures inode[i].addrs[NDIRECT] < |disk|
      ensures Word(disk[inode[i].addrs[NDIRECT]], j) == Slot(d0, inode[i], NDIRECT + 1 + j)
    {
      IndirectOwned(sb, d0, inode, owner, i);
    }

    /** After the entries, the indirect block itself is still marked, and freeing it completes the range. */
    lemma FinishIndirect(d0: Image, i: nat)
      requires Conserved(sb, d0, inode, owner) && i < |inode| && inode[i].addrs[NDIRECT] != 0
      requires Cleared(sb, d0, disk, owner, i, NDIRECT + 1, SLOTS) && GeometryOk(sb, disk)
      ensures var ind := inode[i].addrs[NDIRECT];
        && ind < |disk| && BitmapBlock(sb, ind) < |disk| && Used(sb, disk, ind)
        && Cleared(sb, d0, MarkFree(sb, disk, ind), owner, i, NDIRECT, SLOTS)
    {
      var ind := inode[i].addrs[NDIRECT];
      IndirectOwned(sb, d0, inode, owner, i);
      FreeKeepsBits(sb, d0, disk, ind);
      forall c | HangsFrom(owner, i, NDIRECT, SLOTS, c) && !HangsFrom(owner, i, NDIRECT + 1, SLOTS, c) ensures c == ind {
        assert OwnerOk(sb, d0, inode, owner, c);
      }
      forall c: nat | c < sb.size && BitmapBlock(sb, c) < |disk|
        ensures Used(sb, MarkFree(sb, disk, ind), c) <==> Used(sb, d0, c) && !HangsFrom(owner, i, NDIRECT, SLOTS, c)
      {
        UsedAfterMark(sb, disk, ind, c);
      }
    }

    lemma NothingHangs(i: nat)
      requires Conserved(sb, disk, inode, owner) && i < |inode| && inode[i].addrs[NDIRECT] == 0
      ensures Cleared(sb, disk, disk, owner, i, NDIRECT, SLOTS)
    {
      forall c | c in owner ensures !HangsFrom(owner, i, NDIRECT, SLOTS, c) {
        assert OwnerOk(sb, disk, inode, owner, c);
      }
    }
 
    /** itrunc: every block of inode i is freed, each once, and no other file is touched. */
    method Itrunc(i: nat)
      requires Valid() && i < |inode|
      requires Traced()
      modifies this
      ensures Traced() && base == old(base)
      ensures Valid() && (old(InStep()) ==> InStep())
      ensures inode == old(inode)[i := Stripped(old(inode[i]), NDIRECT + 1).(size := 0)]
      ensures exists d :: BitsOnly(sb, old(disk), d) && disk == InodeStored(sb, d, i, inode[i])
      ensures owner == Unowned(old(owner), i, 0, SLOTS)
      ensures forall j :: 0 <= j < |inode| && j != i ==> Content(disk, inode[j]) == old(Content(disk, inode[j]))
    {
      ghost var d0, n0, o0 := disk, inode, owner;
      TruncDirect(i);
      TruncIndirect(i);
      WithoutJoins(o0, i, 0, NDIRECT, SLOTS);
      StripOneMore(n0[i], NDIRECT);
      ResizeConserves(sb, disk, inode, owner, i, 0);
      inode := inode[i := inode[i].(size := 0)];
      BitsKeepContents(d0, n0, o0, i);
      NodesKept(sb, d0, disk);
      ghost var d1 := disk;
      Iupdate(i);
      ShapeKeepsDense(d1, disk, inode);
    }

    /** ialloc: the lowest free inode is cleared and given its type, on the disk and hence in memory; None is the
        panic, when every inode is in use. */
    method Ialloc(kind: Short) returns (r: Option<nat>)
      requires Valid() && InStep() && kind != 0
      requires Traced()
      modifies this
      ensures Traced() && base == old(base)
      ensures Valid() && InStep() && owner == old(owner)
      ensures r.None? <==> forall j :: 1 <= j < |old(inode)| ==> old(inode)[j].kind != 0
      ensures r.None? ==> unchanged(this)
      ensures r.Some? ==> FirstFree(old(inode), r.value) == true
      ensures r.Some? ==>
        inode == old(inode)[r.value := Fresh(kind)]
        && logged == old(logged) + {InodeBlock(sb, r.value)}
        && forall j :: 0 <= j < |inode| ==> Content(disk, inode[j]) == if j == r.value then [] else old(Content(disk, inode[j]))
    {
      var inum := 1;
      while inum < |inode|
        invariant 1 <= inum && unchanged(this)
        invariant forall j :: 1 <= j < inum && j < |inode| ==> inode[j].kind != 0
      {
        DinodeIs(sb, disk, inode, inum);
        var dip := GetDinode(disk[inum / IPB + sb.inodestart], inum % IPB);
        if dip.kind == 0 {
          assert FirstFree(inode, inum) == true;
          TakeInode(inum, kind);
          return Some(inum);
        }
        inum := inum + 1;
      }
      return None;
    }

    /** A free inode is cleared and typed, in its block and in memory. */
    method TakeInode(inum: nat, kind: Short)
      requires Valid() && InStep() && kind != 0 && inum < |inode| && inode[inum].kind == 0 && Traced()
      modifies this
      ensures Traced() && base == old(base) && Valid() && InStep() && owner == old(owner)
      ensures inode == old(inode)[inum := Fresh(kind)] && logged == old(logged) + {InodeBlock(sb, inum)}
      ensures forall j :: 0 <= j < |inode| ==> Content(disk, inode[j]) == if j == inum then [] else old(Content(disk, inode[j]))
    {
      ghost var n0, d0 := inode, disk;
      assert inode[inum].addrs == NoAddrs() && Dense(disk, inode[inum]);
      FreshIsConserved(sb, disk, inode, owner, inum, kind);
      inode := inode[inum := Fresh(kind)];
      Iupdate(inum);
      ShapeKeepsDense(d0, disk, inode);
      forall j | 0 <= j < |inode| && j != inum ensures Content(disk, inode[j]) == Content(d0, n0[j]) {
        assert inode[j] == n0[j];
      }
    }

    /** Inodes are changed in memory and then stored: ip->nlink = n; iupdate(ip). */
    method SetNlink(i: nat, n: Short)
      requires Valid() && InStep() && i < |inode| && inode[i].kind != 0
      requires Traced()
      modifies this
      ensures Traced() && base == old(base)
      ensures Valid() && InStep() && owner == old(owner) && logged == old(logged) + {InodeBlock(sb, i)}
      ensures inode == old(inode)[i := old(inode[i]).(nlink := n)]
      ensures forall j :: 0 <= j < |inode| ==> Content(disk, inode[j]) == old(Content(disk, inode[j]))
    {
      StoreNode(i, inode[i].(nlink := n));
    }

    /** What an inode says besides its size and its blocks is changed, and the inode stored. */
    method StoreNode(i: nat, node: Inode)
      requires Valid() && InStep() && i < |inode| && node.size == inode[i].size && node.addrs == inode[i].addrs
      requires node.kind == 0 ==> node.addrs == NoAddrs()
      requires Traced()
      modifies this
      ensures Traced() && base == old(base)
      ensures Valid() && InStep() && owner == old(owner) && logged == old(logged) + {InodeBlock(sb, i)}
      ensures inode == old(inode)[i := node] && disk == InodeStored(sb, old(disk), i, node)
      ensures forall j :: 0 <= j < |inode| ==> Content(disk, inode[j]) == old(Content(disk, inode[j]))
    {
      ghost var n0, d0 := inode, disk;
      LabelsDoNotMatter(sb, disk, inode, owner, i, node);
      inode := inode[i := node];
      Iupdate(i);
      ShapeKeepsDense(d0, disk, inode);
    }

    /** iput, for one of ref references to the inode: the last one of an inode without links frees its blocks and
        the inode itself. */
    method Iput(i: nat, ref: nat) returns (left: nat)
      requires Valid() && InStep() && i < |inode| && inode[i].kind != 0 && 0 < ref
      requires Traced()
      modifies this
      ensures Traced() && base == old(base)
      ensures Valid() && InStep() && left == ref - 1
      ensures old(inode[i].nlink) == 0 && ref == 1 ==>
        && inode == old(inode)[i := Stripped(old(inode[i]), NDIRECT + 1).(size := 0, kind := 0)]
        && owner == Unowned(old(owner), i, 0, SLOTS)
      ensures !(old(inode[i].nlink) == 0 && ref == 1) ==> unchanged(this)
      ensures forall j :: 0 <= j < |inode| && j != i ==> Content(disk, inode[j]) == old(Content(disk, inode[j]))
    {
      if inode[i].nlink == 0 {
        var r := ref;
        if r == 1 {
          Itrunc(i);
          StoreNode(i, inode[i].(kind := 0));
        }
      }
      left := ref - 1;
    }

    lemma BitsKeepContents(d0: Image, n0: seq<Inode>, o0: Owner, i: nat)
      requires Conserved(sb, d0, n0, o0) && AllDense(d0, n0) && BitsOnly(sb, d0, disk) && i < |n0|
      requires inode == n0[i := Stripped(n0[i], NDIRECT + 1).(size := 0)]
      ensures AllDense(disk, inode)
      ensures forall j :: 0 <= j < |inode| && j != i ==> Content(disk, inode[j]) == Content(d0, n0[j])
    {
      forall j | 0 <= j < |n0| ensures Dense(disk, inode[j]) {
        assert Dense(d0, n0[j]);
        forall t { SlotsAfterBits(sb, d0, disk, n0, o0, j, t); }
      }
      forall j | 0 <= j < |n0| && j != i ensures Content(disk, inode[j]) == Content(d0, n0[j]) {
        assert Dense(d0, n0[j]);
        forall k | 0 <= k < n0[j].size ensures FileByte(disk, n0[j], k) == FileByte(d0, n0[j], k) {
          BytesAfterBits(sb, d0, disk, n0, o0, j, k);
        }
      }
    }
  }
}
