/** Block conservation over every run of calls (fs.c), from the file system that mkfs makes, and what log.c adds to it:
    after a crash the disk is as it was between two calls. */
module FileConsistency {
  import opened Basics
  import opened BlockData
  import opened FsState
  import opened Fs = FileSystem
  import D = Disk
  import CrashRecovery
  import GroupCommit

  /** The inodes on the disk own their blocks, each in one place, and the bitmap says so; files have all their blocks,
      and free inodes none. */
  ghost predicate FsOk(sb: Superblock, disk: Image) {
    exists owner: Owner :: Owned(sb, disk, owner)
  }

  ghost predicate Owned(sb: Superblock, disk: Image, owner: Owner) {
    Conserved(sb, disk, Nodes(sb, disk), owner) && AllDense(disk, Nodes(sb, disk)) && FreeIsEmpty(Nodes(sb, disk))
  }

  /** Block b hangs at slot s of the allocated inode i. */
  predicate HangsAt(sb: Superblock, disk: Image, i: nat, s: nat, b: nat) {
    i < sb.ninodes && s < SLOTS && Nodes(sb, disk)[i].kind != 0 && b != 0 && Slot(disk, Nodes(sb, disk)[i], s) == b
  }

  /** The bitmap's set bits are exactly the metadata blocks and the blocks of allocated inodes, and none of these hangs
      in two places. */
  lemma BitmapIsExact(sb: Superblock, disk: Image, b: nat)
    requires FsOk(sb, disk) && b < sb.size
    ensures |disk| == sb.size && BitmapBlock(sb, b) < |disk|
    ensures Used(sb, disk, b) <==> b < sb.datastart || exists i, s :: HangsAt(sb, disk, i, s, b)
    ensures forall i, s :: HangsAt(sb, disk, i, s, b) ==> sb.datastart <= b
    ensures forall i, s, j, t :: HangsAt(sb, disk, i, s, b) && HangsAt(sb, disk, j, t, b) ==> i == j && s == t
  {
    var owner: Owner :| Owned(sb, disk, owner);
    BitmapInRange(sb, disk, b);
    forall i, s | HangsAt(sb, disk, i, s, b) ensures b in owner && owner[b] == Place(i, s) && sb.datastart <= b {
      HangingIsOwned(sb, disk, owner, i, s, b);
    }
    if b in owner {
      OwnedHangs(sb, disk, owner, b);
    }
    BitIsOwner(sb, disk, owner, b);
  }

  lemma BitIsOwner(sb: Superblock, disk: Image, owner: Owner, b: nat)
    requires Owned(sb, disk, owner) && b < sb.size && BitmapBlock(sb, b) < |disk|
    ensures Used(sb, disk, b) <==> b < sb.datastart || b in owner
  {
  }

  lemma OwnedHangs(sb: Superblock, disk: Image, owner: Owner, b: nat)
    requires Owned(sb, disk, owner) && b in owner
    ensures HangsAt(sb, disk, owner[b].inum, owner[b].slot, b)
  {
    assert OwnerOk(sb, disk, Nodes(sb, disk), owner, b);
    OwnerIsAllocated(sb, disk, owner, b);
  }

  lemma FreeHasNoBlock(disk: Image, nodes: seq<Inode>, i: nat, s: nat)
    requires FreeIsEmpty(nodes) && i < |nodes| && s < SLOTS && nodes[i].kind == 0
    ensures Slot(disk, nodes[i], s) == 0
  {
  }

  lemma OwnerIsAllocated(sb: Superblock, disk: Image, owner: Owner, b: nat)
    requires Owned(sb, disk, owner) && b in owner
    ensures owner[b].inum < sb.ninodes && Nodes(sb, disk)[owner[b].inum].kind != 0 && b != 0
  {
    var nodes := Nodes(sb, disk);
    assert OwnerOk(sb, disk, nodes, owner, b);
    if nodes[owner[b].inum].kind == 0 {
      FreeHasNoBlock(disk, nodes, owner[b].inum, owner[b].slot);
    }
  }

  /** Whatever hangs somewhere is in the map of owners. */
  lemma HangingIsOwned(sb: Superblock, disk: Image, owner: Owner, i: nat, s: nat, b: nat)
    requires Owned(sb, disk, owner) && HangsAt(sb, disk, i, s, b)
    ensures b in owner && owner[b] == Place(i, s) && sb.datastart <= b
  {
    assert SlotOwned(disk, Nodes(sb, disk)[i], owner, i, s);
    assert OwnerOk(sb, disk, Nodes(sb, disk), owner, b);
  }

  // ---- mkfs

  /** The disk of mkfs after it has marked n blocks: everything else is zero. */
  function Marked(sb: Superblock, n: nat): (r: Image)
    requires n <= sb.size && BitmapFits(sb)
    ensures |r| == sb.size
  {
    if n == 0 then seq(sb.size, _ => Zeroes()) else MarkUsed(sb, Marked(sb, n - 1), n - 1)
  }

  ghost predicate BitmapFits(sb: Superblock) {
    forall b :: 0 <= b < sb.size ==> BitmapBlock(sb, b) < sb.size
  }

  lemma GeometryFits(sb: Superblock, disk: Image)
    requires GeometryOk(sb, disk)
    ensures BitmapFits(sb)
  {
    forall b | 0 <= b < sb.size ensures BitmapBlock(sb, b) < sb.size {
      BitmapInRange(sb, disk, b);
    }
  }

  lemma MarkKeepsGeometry(sb: Superblock, disk: Image, b: nat)
    requires GeometryOk(sb, disk) && BitmapBlock(sb, b) < |disk|
    ensures GeometryOk(sb, MarkUsed(sb, disk, b))
    ensures forall c :: 0 <= c < sb.bmapstart ==> MarkUsed(sb, disk, b)[c] == disk[c]
  {
  }

  lemma {:induction false} MarkedMeta(sb: Superblock, n: nat)
    requires GeometryOk(sb, seq(sb.size, _ => Zeroes())) && BitmapFits(sb) && n <= sb.size
    ensures GeometryOk(sb, Marked(sb, n))
    ensures forall b :: 0 <= b < sb.bmapstart ==> Marked(sb, n)[b] == Zeroes()
  {
    if n > 0 {
      MarkedMeta(sb, n - 1);
      MarkKeepsGeometry(sb, Marked(sb, n - 1), n - 1);
    }
  }

  lemma {:induction false} MarkedBits(sb: Superblock, n: nat, c: nat)
    requires GeometryOk(sb, seq(sb.size, _ => Zeroes())) && BitmapFits(sb) && n <= sb.size && c < sb.size
    ensures Used(sb, Marked(sb, n), c) <==> c < n
    decreases n
  {
    if n == 0 {
      NothingUsed(sb, c);
    } else {
      MarkedBits(sb, n - 1, c);
      MarkedMeta(sb, n - 1);
      UsedAfterMark(sb, Marked(sb, n - 1), n - 1, c);
    }
  }

  lemma NothingUsed(sb: Superblock, c: nat)
    requires BitmapFits(sb) && c < sb.size
    ensures !Used(sb, Marked(sb, 0), c)
  {
    BitOfZero(c % BPB);
  }

  lemma BitOfZero(i: nat)
    requires i < BPB
    ensures !Bit(Zeroes(), i)
  {
    TestOfZero(i % 8);
  }

  lemma {:induction false} TestOfZero(i: nat)
    ensures !Test(0, i)
  {
    if i > 0 {
      TestOfZero(i - 1);
    }
  }

  /** A disk on which mkfs has marked the metadata blocks and made no file yet. */
  lemma MkfsIsOk(sb: Superblock)
    requires GeometryOk(sb, seq(sb.size, _ => Zeroes()))
    ensures BitmapFits(sb) && Owned(sb, Marked(sb, sb.datastart), map[]) && FsOk(sb, Marked(sb, sb.datastart))
    ensures forall i :: 0 <= i < sb.ninodes ==> Nodes(sb, Marked(sb, sb.datastart))[i] == Inode(0, 0, 0, 0, 0, NoAddrs())
  {
    GeometryFits(sb, seq(sb.size, _ => Zeroes()));
    MarkedMeta(sb, sb.datastart);
    var disk := Marked(sb, sb.datastart);
    forall b: nat | b < sb.size && BitmapBlock(sb, b) < |disk| ensures Used(sb, disk, b) <==> b < sb.datastart {
      MarkedBits(sb, sb.datastart, b);
    }
    forall i | 0 <= i < sb.ninodes ensures Nodes(sb, disk)[i] == Inode(0, 0, 0, 0, 0, NoAddrs()) {
      assert i / IPB <= (sb.ninodes - 1) / IPB;
      ZeroDinode(i % IPB);
    }
    assert Owned(sb, disk, map[]);
  }

  lemma ZeroDinode(m: nat)
    requires m < IPB
    ensures GetDinode(Zeroes(), m) == Inode(0, 0, 0, 0, 0, NoAddrs())
  {
    forall j | 0 <= j < 16 ensures DWord(Zeroes(), m, j) == 0 {
      WordOfZero(16 * m + j);
    }
    assert GetDinode(Zeroes(), m).addrs == NoAddrs();
  }

  // ---- every run of calls

  datatype Call =
    | AllocCall(kind: Short)
    | WriteCall(i: nat, off: nat, src: seq<Byte>)
    | ReadCall(i: nat, off: nat, n: nat)
    | LinkCall(i: nat, nlink: Short)
    | TruncCall(i: nat)
    | PutCall(i: nat, ref: nat)

  /** What the callers in sysfile.c and file.c see to: the inode is locked, and so it is in use. */
  predicate Applies(nodes: seq<Inode>, call: Call) {
    match call
    case AllocCall(kind) => kind != 0
    case WriteCall(i, off, src) => i < |nodes| && nodes[i].kind != 0 && off < UINT && |src| < UINT
    case ReadCall(i, off, n) => i < |nodes| && nodes[i].kind != 0 && off < UINT && n < UINT
    case LinkCall(i, _) => i < |nodes| && nodes[i].kind != 0
    case TruncCall(i) => i < |nodes| && nodes[i].kind != 0
    case PutCall(i, ref) => i < |nodes| && nodes[i].kind != 0 && 0 < ref
  }

  /** Every inode but i, and what it holds, is as it was. */
  ghost predicate OthersKept(d0: Image, n0: seq<Inode>, disk: Image, nodes: seq<Inode>, i: nat) {
    && |nodes| == |n0|
    && forall j :: 0 <= j < |n0| && j != i ==> nodes[j] == n0[j] && Content(disk, nodes[j]) == Content(d0, n0[j])
  }

  /** What a call is to do. A write that starts behind the end of the file, or would pass the largest size, is refused. */
  ghost predicate Does(d0: Image, n0: seq<Inode>, disk: Image, nodes: seq<Inode>, call: Call) {
    match call
    case AllocCall(kind) =>
      exists i: nat :: FirstFree(n0, i) && OthersKept(d0, n0, disk, nodes, i) && nodes[i] == Fresh(kind) && Content(disk, nodes[i]) == []
    case WriteCall(i, off, src) =>
      i < |n0| && if off > n0[i].size || off + |src| > MAXBYTES then nodes == n0 && disk == d0
                  else
                    && OthersKept(d0, n0, disk, nodes, i) && SameLabels(n0[i], nodes[i])
                    && Content(disk, nodes[i]) == Spliced(Content(d0, n0[i]), off, src)
    case ReadCall(_, _, _) => nodes == n0 && disk == d0
    case LinkCall(i, nlink) =>
      && i < |n0| && OthersKept(d0, n0, disk, nodes, i) && nodes[i] == n0[i].(nlink := nlink)
      && Content(disk, nodes[i]) == Content(d0, n0[i])
    case TruncCall(i) =>
      i < |n0| && OthersKept(d0, n0, disk, nodes, i) && nodes[i] == n0[i].(size := 0, addrs := NoAddrs())
    case PutCall(i, ref) =>
      i < |n0| && if n0[i].nlink == 0 && ref == 1
                  then OthersKept(d0, n0, disk, nodes, i) && nodes[i] == n0[i].(kind := 0, size := 0, addrs := NoAddrs())
                  else nodes == n0 && disk == d0
  }

  /** From image f to image g the call has been carried out, if it applies. */
  ghost predicate Served(sb: Superblock, f: Image, g: Image, call: Call) {
    if Applies(Nodes(sb, f), call) then Does(f, Nodes(sb, f), g, Nodes(sb, g), call) else f == g
  }

  /** One call as a transaction of its own; blocks is what it passed to log_write. It does what it is to do, and panics
      only when the disk is full or every inode is in use: above all it never frees a free block. */
  method Serve(fs: FileSystem, call: Call) returns (panicked: bool, ghost blocks: set<nat>)
    requires fs.Valid() && fs.InStep()
    modifies fs
    ensures panicked ==> fs.DiskFull() || forall j :: 1 <= j < |fs.inode| ==> fs.inode[j].kind != 0
    ensures !panicked ==> fs.Valid() && fs.InStep() && OnlyChanged(old(fs.disk), fs.disk, blocks)
    ensures !panicked ==> Served(fs.sb, old(fs.disk), fs.disk, call) == true
  {
    fs.BeginTransaction();
    panicked := false;
    if Applies(fs.inode, call) {
      if call.WriteCall? || call.ReadCall? {
        panicked := ServeData(fs, call);
      } else {
        panicked := ServeInode(fs, call);
      }
    }
    blocks := fs.logged;
  }

  method ServeData(fs: FileSystem, call: Call) returns (panicked: bool)
    requires fs.Valid() && fs.InStep() && fs.Traced() && Applies(fs.inode, call) && (call.WriteCall? || call.ReadCall?)
    modifies fs
    ensures panicked ==> fs.DiskFull()
    ensures !panicked ==> fs.Valid() && fs.InStep() && fs.Traced() && fs.base == old(fs.base)
    ensures !panicked ==> Does(old(fs.disk), old(fs.inode), fs.disk, fs.inode, call) == true
  {
    panicked := false;
    if call.WriteCall? {
      var w := fs.Writei(call.i, call.src, call.off);
      panicked := w.OutOfBlocks?;
    } else {
      var data := fs.Readi(call.i, call.off, call.n);
    }
  }

  method ServeInode(fs: FileSystem, call: Call) returns (panicked: bool)
    requires fs.Valid() && fs.InStep() && fs.Traced() && Applies(fs.inode, call) && !call.WriteCall? && !call.ReadCall?
    modifies fs
    ensures panicked ==> forall j :: 1 <= j < |fs.inode| ==> fs.inode[j].kind != 0
    ensures !panicked ==> fs.Valid() && fs.InStep() && fs.Traced() && fs.base == old(fs.base)
    ensures !panicked ==> Does(old(fs.disk), old(fs.inode), fs.disk, fs.inode, call) == true
  {
    panicked := false;
    match call
    case AllocCall(kind) => panicked := ServeAlloc(fs, kind);
    case LinkCall(i, nlink) => fs.SetNlink(i, nlink);
    case TruncCall(i) =>
      StrippedIsBare(fs.inode[i]);
      fs.Itrunc(i);
    case PutCall(i, ref) =>
      StrippedIsBare(fs.inode[i]);
      var left := fs.Iput(i, ref);
  }

  method ServeAlloc(fs: FileSystem, kind: Short) returns (panicked: bool)
    requires fs.Valid() && fs.InStep() && fs.Traced() && kind != 0
    modifies fs
    ensures panicked ==> forall j :: 1 <= j < |fs.inode| ==> fs.inode[j].kind != 0
    ensures !panicked ==> fs.Valid() && fs.InStep() && fs.Traced() && fs.base == old(fs.base)
    ensures !panicked ==> Does(old(fs.disk), old(fs.inode), fs.disk, fs.inode, AllocCall(kind)) == true
  {
    var ip := fs.Ialloc(kind);
    panicked := ip.None?;
  }

  lemma StrippedIsBare(node: Inode)
    ensures Stripped(node, NDIRECT + 1) == node.(addrs := NoAddrs())
  {
  }

  /** Every run of calls, up to a panic if there is one: images are the disks between them. */
  method Run(fs: FileSystem, calls: seq<Call>) returns (images: seq<Image>, panicked: bool, ghost blocks: seq<set<nat>>)
    requires fs.Valid() && fs.InStep()
    modifies fs
    ensures 0 < |images| <= |calls| + 1 && |blocks| == |images| - 1 && images[0] == old(fs.disk)
    ensures forall k :: 0 <= k < |images| ==> FsOk(fs.sb, images[k])
    ensures forall k :: 0 <= k < |blocks| ==> OnlyChanged(images[k], images[k + 1], blocks[k])
    ensures forall k :: 0 <= k < |blocks| ==> Served(fs.sb, images[k], images[k + 1], calls[k])
    ensures !panicked ==> |images| == |calls| + 1 && fs.disk == images[|calls|]
    ensures panicked ==> fs.DiskFull() || forall j :: 1 <= j < |fs.inode| ==> fs.inode[j].kind != 0
  {
    images, blocks, panicked := [fs.disk], [], false;
    var k := 0;
    assert Owned(fs.sb, fs.disk, fs.owner);
    while k < |calls|
      invariant 0 <= k <= |calls| && fs.Valid() && fs.InStep() && |images| == k + 1 && |blocks| == k
      invariant images[0] == old(fs.disk) && images[k] == fs.disk
      invariant forall m :: 0 <= m <= k ==> FsOk(fs.sb, images[m])
      invariant forall m :: 0 <= m < k ==> OnlyChanged(images[m], images[m + 1], blocks[m])
      invariant forall m :: 0 <= m < k ==> Served(fs.sb, images[m], images[m + 1], calls[m]) == true
    {
      ghost var logged;
      panicked, logged := Serve(fs, calls[k]);
      if panicked {
        return;
      }
      assert Owned(fs.sb, fs.disk, fs.owner);
      images, blocks := images + [fs.disk], blocks + [logged];
      k := k + 1;
    }
  }

  // ---- calls and crashes

  /** The words of a block of bytes. */
  function Words(b: Bytes): D.Block {
    seq(D.WORDS, k requires 0 <= k < D.WORDS => Word(b, k))
  }

  /** Outside the log, disk d holds the blocks of f. */
  ghost predicate Shows(d: D.Image, l: CrashRecovery.Layout, f: Image) {
    |f| == |d| && forall b :: 0 <= b < |d| && !l.InLog(b) ==> d[b] == Words(f[b])
  }

  /** A disk shows one file system at most. */
  lemma ShowsOne(d: D.Image, l: CrashRecovery.Layout, f: Image, g: Image, b: nat)
    requires Shows(d, l, f) && Shows(d, l, g) && b < |d| && !l.InLog(b)
    ensures f[b] == g[b]
  {
    forall k | 0 <= k < NWORDS ensures Word(f[b], k) == Word(g[b], k) {
      assert Words(f[b])[k] == Words(g[b])[k];
    }
    WordsDetermine(f[b], g[b]);
  }

  lemma WordsDetermine(a: Bytes, b: Bytes)
    requires forall k :: 0 <= k < NWORDS ==> Word(a, k) == Word(b, k)
    ensures a == b
  {
    forall i | 0 <= i < BSIZE ensures a[i] == b[i] {
      assert Word(a, i / 4) == Word(b, i / 4);
      SameDigits(a[4 * (i / 4)], a[4 * (i / 4) + 1], a[4 * (i / 4) + 2], a[4 * (i / 4) + 3],
                 b[4 * (i / 4)], b[4 * (i / 4) + 1], b[4 * (i / 4) + 2], b[4 * (i / 4) + 3]);
      assert i == 4 * (i / 4) + i % 4;
    }
  }

  lemma SameDigits(a0: Byte, a1: Byte, a2: Byte, a3: Byte, b0: Byte, b1: Byte, b2: Byte, b3: Byte)
    requires a0 as int + 0x100 * a1 as int + 0x1_0000 * a2 as int + 0x100_0000 * a3 as int
          == b0 as int + 0x100 * b1 as int + 0x1_0000 * b2 as int + 0x100_0000 * b3 as int
    ensures a0 == b0 && a1 == b1 && a2 == b2 && a3 == b3
  {
    var x2: int, y2: int := a2 as int + 0x100 * a3 as int, b2 as int + 0x100 * b3 as int;
    var x1: int, y1: int := a1 as int + 0x100 * x2, b1 as int + 0x100 * y2;
    LowDigit(a0, x1, b0, y1);
    LowDigit(a1, x2, b1, y2);
  }

  lemma LowDigit(a: Byte, x: int, b: Byte, y: int)
    requires a as int + 0x100 * x == b as int + 0x100 * y
    ensures a == b && x == y
  {
  }

  /** What the last write of block b stores. */
  function LastWrite(ws: seq<D.Write>, b: nat): Option<D.Block> {
    if ws == [] then None
    else if ws[|ws| - 1].at == b then Some(ws[|ws| - 1].data)
    else LastWrite(ws[..|ws| - 1], b)
  }

  lemma {:induction false} ApplyIsLast(d: D.Image, ws: seq<D.Write>, b: nat)
    requires b < |d|
    ensures D.Apply(d, ws)[b] == match LastWrite(ws, b) case None => d[b] case Some(data) => data
    decreases |ws|
  {
    if ws != [] {
      ApplyIsLast(d, ws[..|ws| - 1], b);
    }
  }

  /** ws are the log_writes of a call that took f to g: they leave what g has in the blocks they write, and g differs
      from f in no other block. */
  ghost predicate CarriesOut(l: CrashRecovery.Layout, ws: seq<D.Write>, f: Image, g: Image) {
    && |g| == |f|
    && forall b :: 0 <= b < |f| && !l.InLog(b) ==>
         match LastWrite(ws, b) case None => g[b] == f[b] case Some(data) => data == Words(g[b])
  }

  /** So do the log_writes of a call that changes only what it passes to log_write, as Serve has it. */
  lemma LoggedCarriesOut(l: CrashRecovery.Layout, ws: seq<D.Write>, f: Image, g: Image, blocks: set<nat>)
    requires OnlyChanged(f, g, blocks)
    requires forall b :: 0 <= b < |f| ==> LastWrite(ws, b) == if b in blocks then Some(Words(g[b])) else None
    ensures CarriesOut(l, ws, f, g)
  {
  }

  lemma CallIsShown(d: D.Image, l: CrashRecovery.Layout, ws: seq<D.Write>, f: Image, g: Image)
    requires Shows(d, l, f) && CarriesOut(l, ws, f, g)
    ensures Shows(D.Apply(d, ws), l, g)
  {
    forall b | 0 <= b < |d| && !l.InLog(b) ensures D.Apply(d, ws)[b] == Words(g[b]) {
      ApplyIsLast(d, ws, b);
    }
  }

  function Flatten(calls: seq<seq<D.Write>>): seq<D.Write> {
    if calls == [] then [] else Flatten(calls[..|calls| - 1]) + calls[|calls| - 1]
  }

  /** The calls go from each image to the next. */
  ghost predicate Chain(l: CrashRecovery.Layout, images: seq<Image>, calls: seq<seq<D.Write>>) {
    |images| == |calls| + 1 && forall k :: 0 <= k < |calls| ==> CarriesOut(l, calls[k], images[k], images[k + 1])
  }

  lemma {:induction false} CallsAreShown(d: D.Image, l: CrashRecovery.Layout, images: seq<Image>, calls: seq<seq<D.Write>>, m: nat)
    requires Chain(l, images, calls) && Shows(d, l, images[0]) && m <= |calls|
    ensures Shows(D.Apply(d, Flatten(calls[..m])), l, images[m])
    decreases m
  {
    if m > 0 {
      CallsAreShown(d, l, images, calls, m - 1);
      assert calls[..m][..m - 1] == calls[..m - 1];
      D.ApplyConcat(d, Flatten(calls[..m - 1]), calls[m - 1]);
      CallIsShown(D.Apply(d, Flatten(calls[..m - 1])), l, calls[m - 1], images[m - 1], images[m]);
    }
  }

  /** Whenever no operation runs, what has been logged since the boot is the log_writes of the first calls. */
  ghost predicate ServesInOrder(d: D.Image, l: CrashRecovery.Layout, schedule: seq<GroupCommit.Step>, calls: seq<seq<D.Write>>) {
    forall k :: 0 <= k <= |schedule| && GroupCommit.After(d, l, schedule[..k]).ops == {} ==>
      IsFirstCalls(GroupCommit.Updates(GroupCommit.After(d, l, schedule[..k]).hist), calls)
  }

  ghost predicate IsFirstCalls(ws: seq<D.Write>, calls: seq<seq<D.Write>>) {
    exists m :: 0 <= m <= |calls| && ws == Flatten(calls[..m])
  }

  /** What operation op has logged, in order. */
  function OfOp(hist: seq<GroupCommit.Entry>, op: nat): seq<D.Write> {
    if hist == [] then []
    else
      var last := hist[|hist| - 1];
      OfOp(hist[..|hist| - 1], op) + if last.op == op then [last.w] else []
  }

  /** Never do two operations run at once, and each that has ended has logged what its call logs; the operations are
      numbered in the order in which they begin. */
  ghost predicate OneAtATime(d: D.Image, l: CrashRecovery.Layout, schedule: seq<GroupCommit.Step>, calls: seq<seq<D.Write>>) {
    forall k :: 0 <= k <= |schedule| ==> IsSerial(GroupCommit.After(d, l, schedule[..k]), calls)
  }

  ghost predicate IsSerial(s: GroupCommit.State, calls: seq<seq<D.Write>>) {
    && |s.ops| <= 1 && s.begun <= |calls|
    && forall op :: 0 <= op < s.begun && op !in s.ops ==> OfOp(s.hist, op) == calls[op]
  }

  /** Only the operation that began last is still running, and what it has logged comes last. */
  ghost predicate InOrder(s: GroupCommit.State) {
    && (s.ops == {} || (s.begun > 0 && s.ops == {s.begun - 1}))
    && Sorted(s.hist) && forall j :: 0 <= j < |s.hist| ==> s.hist[j].op < s.begun
  }

  ghost predicate Sorted(hist: seq<GroupCommit.Entry>) {
    forall i, j :: 0 <= i < j < |hist| ==> hist[i].op <= hist[j].op
  }

  lemma StepKeepsOrder(s: GroupCommit.State, step: GroupCommit.Step)
    requires GroupCommit.WhosOk(s) && GroupCommit.Enabled(s, step) && InOrder(s) && |GroupCommit.Next(s, step).ops| <= 1
    ensures InOrder(GroupCommit.Next(s, step))
  {
    match step
    case Begin => BeginKeepsOrder(s);
    case LogWrite(u) => LogKeepsOrder(s, u);
    case _ =>
  }

  lemma LogKeepsOrder(s: GroupCommit.State, u: nat)
    requires GroupCommit.WhosOk(s) && GroupCommit.CanUpdate(s, u) && InOrder(s)
    ensures InOrder(GroupCommit.WasLogged(s, u)) == true
  {
    assert GroupCommit.WhoOk(s, s.uses[u]);
  }

  lemma BeginKeepsOrder(s: GroupCommit.State)
    requires InOrder(s) && |s.ops + {s.begun}| <= 1
    ensures InOrder(s.(ops := s.ops + {s.begun}, begun := s.begun + 1)) == true
  {
    OnlyOne(s.ops, s.begun);
  }

  lemma OnlyOne(ops: set<nat>, op: nat)
    requires op !in ops && |ops + {op}| <= 1
    ensures ops == {}
  {
    assert |ops + {op}| == |ops| + 1;
  }

  lemma {:induction false} OrderHolds(d: D.Image, l: CrashRecovery.Layout, schedule: seq<GroupCommit.Step>, calls: seq<seq<D.Write>>, k: nat)
    requires GroupCommit.Booted(d, l) && OneAtATime(d, l, schedule, calls) && k <= |schedule|
    ensures InOrder(GroupCommit.After(d, l, schedule[..k]))
  {
    if k > 0 {
      OrderHolds(d, l, schedule, calls, k - 1);
      assert schedule[..k][..k - 1] == schedule[..k - 1];
      var s := GroupCommit.After(d, l, schedule[..k - 1]);
      GroupCommit.InvHolds(d, l, schedule[..k - 1]);
      assert IsSerial(GroupCommit.After(d, l, schedule[..k]), calls);
      if GroupCommit.Enabled(s, schedule[k - 1]) {
        StepKeepsOrder(s, schedule[k - 1]);
      }
    }
  }

  lemma {:induction false} OfOpConcat(a: seq<GroupCommit.Entry>, b: seq<GroupCommit.Entry>, op: nat)
    ensures OfOp(a + b, op) == OfOp(a, op) + OfOp(b, op)
    decreases |b|
  {
    if b == [] {
      assert a + b == a;
    } else {
      assert (a + b)[..|a + b| - 1] == a + b[..|b| - 1];
      OfOpConcat(a, b[..|b| - 1], op);
    }
  }

  lemma {:induction false} OfOpAll(hist: seq<GroupCommit.Entry>, op: nat, all: bool)
    requires forall j :: 0 <= j < |hist| ==> (hist[j].op == op <==> all)
    ensures OfOp(hist, op) == if all then GroupCommit.Updates(hist) else []
    decreases |hist|
  {
    if hist != [] {
      OfOpAll(hist[..|hist| - 1], op, all);
      assert GroupCommit.Updates(hist) == GroupCommit.Updates(hist[..|hist| - 1]) + [hist[|hist| - 1].w];
    }
  }

  /** Where the entries of operations from op on begin. */
  function FirstOf(hist: seq<GroupCommit.Entry>, op: nat): (m: nat)
    requires Sorted(hist)
    ensures m <= |hist|
    ensures forall j :: 0 <= j < |hist| ==> (hist[j].op < op <==> j < m)
  {
    if hist == [] then 0
    else if hist[|hist| - 1].op < op then |hist|
    else FirstOf(hist[..|hist| - 1], op)
  }

  /** What operations that come one after the other have logged is what they have logged one by one. */
  lemma {:induction false} SortedIsFlat(hist: seq<GroupCommit.Entry>, n: nat, calls: seq<seq<D.Write>>)
    requires Sorted(hist) && n <= |calls| && forall j :: 0 <= j < |hist| ==> hist[j].op < n
    requires forall op :: 0 <= op < n ==> OfOp(hist, op) == calls[op]
    ensures GroupCommit.Updates(hist) == Flatten(calls[..n])
    decreases n
  {
    if n == 0 {
      assert hist == [];
    } else {
      var a, b := LastApart(hist, n);
      forall op | 0 <= op < n - 1 ensures OfOp(a, op) == calls[op] {
        OfOpConcat(a, b, op);
        OfOpAll(b, op, false);
      }
      SortedIsFlat(a, n - 1, calls);
      assert calls[..n][..n - 1] == calls[..n - 1];
    }
  }

  /** The entries of operation n - 1, the last one, stand together at the end. */
  lemma LastApart(hist: seq<GroupCommit.Entry>, n: nat) returns (a: seq<GroupCommit.Entry>, b: seq<GroupCommit.Entry>)
    requires Sorted(hist) && 0 < n && forall j :: 0 <= j < |hist| ==> hist[j].op < n
    ensures hist == a + b && Sorted(a) && GroupCommit.Updates(hist) == GroupCommit.Updates(a) + OfOp(hist, n - 1)
    ensures (forall j :: 0 <= j < |a| ==> a[j].op < n - 1) && forall j :: 0 <= j < |b| ==> b[j].op == n - 1
  {
    var m := FirstOf(hist, n - 1);
    a, b := hist[..m], hist[m..];
    assert hist == a + b;
    LastPart(a, b, n - 1);
  }

  lemma LastPart(a: seq<GroupCommit.Entry>, b: seq<GroupCommit.Entry>, op: nat)
    requires (forall j :: 0 <= j < |a| ==> a[j].op != op) && forall j :: 0 <= j < |b| ==> b[j].op == op
    ensures GroupCommit.Updates(a + b) == GroupCommit.Updates(a) + OfOp(a + b, op)
  {
    OfOpSkips(a, b, op);
    OfOpAll(b, op, true);
    UpdatesConcat(a, b);
  }

  lemma {:induction false} OfOpSkips(a: seq<GroupCommit.Entry>, b: seq<GroupCommit.Entry>, op: nat)
    requires forall j :: 0 <= j < |a| ==> a[j].op != op
    ensures OfOp(a + b, op) == OfOp(b, op)
    decreases |b|
  {
    if b == [] {
      OfOpAll(a, op, false);
      assert a + b == a;
    } else {
      assert (a + b)[..|a + b| - 1] == a + b[..|b| - 1];
      OfOpSkips(a, b[..|b| - 1], op);
    }
  }

  lemma UpdatesConcat(a: seq<GroupCommit.Entry>, b: seq<GroupCommit.Entry>)
    ensures GroupCommit.Updates(a + b) == GroupCommit.Updates(a) + GroupCommit.Updates(b)
  {
  }

  /** Whoever runs the calls one at a time serves them in order, however readers, commits and the steps of each call
      are interleaved. */
  lemma OneAtATimeIsInOrder(d: D.Image, l: CrashRecovery.Layout, schedule: seq<GroupCommit.Step>, calls: seq<seq<D.Write>>)
    requires GroupCommit.Booted(d, l) && OneAtATime(d, l, schedule, calls)
    ensures ServesInOrder(d, l, schedule, calls)
  {
    forall k | 0 <= k <= |schedule| && GroupCommit.After(d, l, schedule[..k]).ops == {}
      ensures IsFirstCalls(GroupCommit.Updates(GroupCommit.After(d, l, schedule[..k]).hist), calls)
    {
      var s := GroupCommit.After(d, l, schedule[..k]);
      OrderHolds(d, l, schedule, calls, k);
      assert IsSerial(s, calls);
      SortedIsFlat(s.hist, s.begun, calls);
    }
  }

  /** What is durable in s is all that had been logged in q, when no operation ran. */
  ghost predicate WasLogged(s: GroupCommit.State, q: GroupCommit.State) {
    q.ops == {} && s.kept <= |s.hist| && s.hist[..s.kept] == q.hist
  }

  /** What is durable was the whole of what had been logged at some earlier moment when no operation ran. */
  lemma {:induction false} DurableWasQuiet(d: D.Image, l: CrashRecovery.Layout, schedule: seq<GroupCommit.Step>) returns (k: nat)
    requires GroupCommit.Booted(d, l)
    ensures k <= |schedule| && WasLogged(GroupCommit.After(d, l, schedule), GroupCommit.After(d, l, schedule[..k]))
    decreases |schedule|
  {
    if schedule == [] {
      k := 0;
      return;
    }
    var last := |schedule| - 1;
    var before := schedule[..last];
    k := DurableWasQuiet(d, l, before);
    assert before[..k] == schedule[..k];
    if GroupCommit.Enabled(GroupCommit.After(d, l, before), schedule[last]) {
      GroupCommit.InvHolds(d, l, before);
      var all := QuietStep(GroupCommit.After(d, l, before), schedule[last], GroupCommit.After(d, l, schedule[..k]));
      k := if all then last else k;
    }
  }

  /** A step leaves what is durable, or makes all that is logged durable. */
  lemma QuietStep(s: GroupCommit.State, step: GroupCommit.Step, q: GroupCommit.State) returns (all: bool)
    requires GroupCommit.LogOk(s) && GroupCommit.Enabled(s, step) && WasLogged(s, q) == true
    ensures WasLogged(GroupCommit.Next(s, step), if all then s else q) == true
  {
    KeptStep(s, step);
    var s' := GroupCommit.Next(s, step);
    all := s'.kept != s.kept;
    KeptIsQuiet(s, s', q);
  }

  lemma KeptIsQuiet(s: GroupCommit.State, s': GroupCommit.State, q: GroupCommit.State)
    requires s.hist <= s'.hist && WasLogged(s, q)
    requires s'.kept == s.kept || (s.ops == {} && s'.kept == |s.hist| && s'.hist == s.hist)
    ensures WasLogged(s', if s'.kept != s.kept then s else q)
  {
    assert s'.hist[..s.kept] == s.hist[..s.kept];
  }

  /** Only the write of the header makes updates durable, and then it makes all of them so. */
  lemma KeptStep(s: GroupCommit.State, step: GroupCommit.Step)
    requires GroupCommit.LogOk(s) && GroupCommit.Enabled(s, step) && s.kept <= |s.hist|
    ensures var s' := GroupCommit.Next(s, step);
      && s.hist <= s'.hist
      && (s'.kept == s.kept || (s.ops == {} && s'.kept == |s.hist| && s'.hist == s.hist))
  {
  }

  /** The file system after a crash at any moment, and any number of crashed recoveries, is exactly what it was between
      two of the calls; in particular it is sound if it was sound between calls. */
  lemma CallsSurviveCrashes(sb: Superblock, d: D.Image, l: CrashRecovery.Layout, schedule: seq<GroupCommit.Step>,
                            crashes: seq<nat>, images: seq<Image>, calls: seq<seq<D.Write>>)
    requires GroupCommit.Booted(d, l) && Chain(l, images, calls) && Shows(d, l, images[0])
    requires ServesInOrder(d, l, schedule, calls)
    ensures var r := CrashRecovery.RecoverThroughCrashes(GroupCommit.After(d, l, schedule).disk, l, crashes);
      exists m :: 0 <= m < |images| && Shows(r, l, images[m])
    ensures (forall m :: 0 <= m < |images| ==> FsOk(sb, images[m])) ==>
      var r := CrashRecovery.RecoverThroughCrashes(GroupCommit.After(d, l, schedule).disk, l, crashes);
      exists f :: Shows(r, l, f) && FsOk(sb, f)
  {
    var s := GroupCommit.After(d, l, schedule);
    var r := CrashRecovery.RecoverThroughCrashes(s.disk, l, crashes);
    var k := DurableWasQuiet(d, l, schedule);
    var q := GroupCommit.After(d, l, schedule[..k]);
    assert IsFirstCalls(GroupCommit.Updates(q.hist), calls);
    var m :| 0 <= m <= |calls| && GroupCommit.Updates(q.hist) == Flatten(calls[..m]);
    CallsAreShown(d, l, images, calls, m);
    GroupCommit.CrashLeavesDurable(d, l, schedule, crashes);
    assert Shows(r, l, images[m]);
  }
}
