/** The on-disk state of fs.c as a value: free bitmap, inodes with direct and indirect blocks, and the
    bytes of a file that this state spells out. */
module FsState {
  import opened BlockData

  const NDIRECT: nat := 12
  const NINDIRECT: nat := NWORDS
  const MAXFILE: nat := NDIRECT + NINDIRECT
  const MAXBYTES: nat := MAXFILE * BSIZE
  const SLOTS: nat := NDIRECT + 1 + NINDIRECT
  const IPB: nat := 32             // BSIZE / sizeof(struct dinode)

  type Addrs = a: seq<UInt> | |a| == NDIRECT + 1 witness seq(NDIRECT + 1, _ => 0)

  type Short = x: int | -0x8000 <= x < 0x8000

  /** kind is 0 in a free inode. */
  datatype Inode = Inode(kind: Short, major: Short, minor: Short, nlink: Short, size: UInt, addrs: Addrs)

  datatype Superblock = Superblock(size: nat, ninodes: nat, inodestart: nat, bmapstart: nat, datastart: nat)

  /** Where a data block hangs: slots 0 .. NDIRECT - 1 are the direct blocks of an inode, slot NDIRECT is
      its indirect block, and the slots after that are the entries of the indirect block. */
  datatype Place = Place(inum: nat, slot: nat)

  type Image = seq<Bytes>

  /** The inode blocks come first, then the bitmap, which covers the disk, then the data blocks. */
  ghost predicate GeometryOk(sb: Superblock, disk: Image) {
    && 0 < sb.ninodes && 0 < sb.inodestart && (sb.ninodes - 1) / IPB + sb.inodestart < sb.bmapstart
    && |disk| == sb.size > 0 && sb.datastart <= sb.size < 0x1_0000_0000
    && 0 < sb.bmapstart && (sb.size - 1) / BPB + sb.bmapstart < sb.datastart
  }

  /** BBLOCK(b, sb) */
  function BitmapBlock(sb: Superblock, b: nat): nat {
    b / BPB + sb.bmapstart
  }

  lemma BitmapInRange(sb: Superblock, disk: Image, b: nat)
    requires GeometryOk(sb, disk) && b < |disk|
    ensures BitmapBlock(sb, b) < sb.datastart <= |disk| && 0 < BitmapBlock(sb, b)
  {
    assert b / BPB <= (sb.size - 1) / BPB;
  }

  predicate Used(sb: Superblock, disk: Image, b: nat)
    requires BitmapBlock(sb, b) < |disk|
  {
    Bit(disk[BitmapBlock(sb, b)], b % BPB)
  }

  /** The block that hangs at a slot of an inode, 0 for none. */
  function Slot(disk: Image, node: Inode, s: nat): nat {
    if s <= NDIRECT then node.addrs[s]
    else if node.addrs[NDIRECT] == 0 || node.addrs[NDIRECT] >= |disk| || s >= SLOTS then 0
    else Word(disk[node.addrs[NDIRECT]], s - NDIRECT - 1)
  }

  /** The slot of the bn-th block of a file. */
  function FileSlot(bn: nat): nat {
    if bn < NDIRECT then bn else bn + 1
  }

  /** Byte k of a file; bytes of blocks that are not allocated read as 0. */
  function FileByte(disk: Image, node: Inode, k: nat): Byte {
    var b := Slot(disk, node, FileSlot(k / BSIZE));
    if b == 0 || b >= |disk| then 0 else disk[b][k % BSIZE]
  }

  /** The contents of a file. */
  function Content(disk: Image, node: Inode): seq<Byte> {
    seq(node.size, k requires 0 <= k < node.size => FileByte(disk, node, k))
  }

  /** owner names, for every block that hangs somewhere, the one place where it hangs. */
  type Owner = map<nat, Place>

  ghost predicate SlotOwned(disk: Image, node: Inode, owner: Owner, i: nat, s: nat) {
    var b := Slot(disk, node, s);
    b != 0 ==> b in owner && owner[b] == Place(i, s)
  }

  ghost predicate OwnerOk(sb: Superblock, disk: Image, nodes: seq<Inode>, owner: Owner, b: nat)
    requires b in owner
  {
    && sb.datastart <= b < sb.size
    && owner[b].inum < |nodes| && owner[b].slot < SLOTS
    && Slot(disk, nodes[owner[b].inum], owner[b].slot) == b
  }

  /** Every block of a file below its size is allocated. */
  ghost predicate Dense(disk: Image, node: Inode) {
    && node.size <= MAXBYTES
    && forall bn :: 0 <= bn < MAXFILE && bn * BSIZE < node.size ==> Slot(disk, node, FileSlot(bn)) != 0
  }

  ghost predicate BitmapOk(sb: Superblock, disk: Image, owner: Owner) {
    forall b: nat :: b < sb.size && BitmapBlock(sb, b) < |disk| ==> (Used(sb, disk, b) <==> b < sb.datastart || b in owner)
  }

  ghost predicate NodesOwned(disk: Image, nodes: seq<Inode>, owner: Owner) {
    forall i, s :: 0 <= i < |nodes| && 0 <= s < SLOTS ==> SlotOwned(disk, nodes[i], owner, i, s)
  }

  ghost predicate OwnersOk(sb: Superblock, disk: Image, nodes: seq<Inode>, owner: Owner) {
    forall b :: b in owner ==> OwnerOk(sb, disk, nodes, owner, b)
  }

  /** The set bits of the bitmap are the metadata blocks and the blocks that hang on some inode, and each of
      those hangs in one place only. */
  ghost predicate Conserved(sb: Superblock, disk: Image, nodes: seq<Inode>, owner: Owner) {
    && GeometryOk(sb, disk)
    && BitmapOk(sb, disk, owner)
    && NodesOwned(disk, nodes, owner)
    && OwnersOk(sb, disk, nodes, owner)
  }

  ghost predicate AllDense(disk: Image, nodes: seq<Inode>) {
    forall i :: 0 <= i < |nodes| ==> Dense(disk, nodes[i])
  }

  // ---- inodes in inode blocks: sixteen words each

  /** IBLOCK(i, sb) */
  function InodeBlock(sb: Superblock, i: nat): nat {
    i / IPB + sb.inodestart
  }

  function FromShort(x: Short): nat {
    if x < 0 then x + 0x1_0000 else x
  }

  function ToShort(u: nat): Short
    requires u < 0x1_0000
  {
    if u < 0x8000 then u else u - 0x1_0000
  }

  function DinodeWord(node: Inode, j: nat): UInt
    requires j < 16
  {
    if j == 0 then FromShort(node.kind) + 0x1_0000 * FromShort(node.major)
    else if j == 1 then FromShort(node.minor) + 0x1_0000 * FromShort(node.nlink)
    else if j == 2 then node.size
    else node.addrs[j - 3]
  }

  /** Word j of the inode at place m of the block. */
  function DWord(b: Bytes, m: nat, j: nat): UInt
    requires m < IPB && j < 16
  {
    Word(b, 16 * m + j)
  }

  function GetDinode(b: Bytes, m: nat): Inode
    requires m < IPB
  {
    var w0: int, w1: int := DWord(b, m, 0), DWord(b, m, 1);
    var a: Addrs := seq(NDIRECT + 1, t requires 0 <= t < NDIRECT + 1 => DWord(b, m, 3 + t));
    Inode(ToShort(w0 % 0x1_0000), ToShort(w0 / 0x1_0000), ToShort(w1 % 0x1_0000), ToShort(w1 / 0x1_0000), DWord(b, m, 2), a)
  }

  /** The first n words of the inode go to place m of the block. */
  function PutWords(b: Bytes, m: nat, node: Inode, n: nat): Bytes
    requires m < IPB && n <= 16
  {
    if n == 0 then b else SetWord(PutWords(b, m, node, n - 1), 16 * m + n - 1, DinodeWord(node, n - 1))
  }

  function PutDinode(b: Bytes, m: nat, node: Inode): Bytes
    requires m < IPB
  {
    PutWords(b, m, node, 16)
  }

  lemma {:induction false} WordOfPut(b: Bytes, m: nat, node: Inode, n: nat, k: nat)
    requires m < IPB && n <= 16 && k < NWORDS
    ensures Word(PutWords(b, m, node, n), k) == if 16 * m <= k < 16 * m + n then DinodeWord(node, k - 16 * m) else Word(b, k)
  {
    if n > 0 {
      WordOfPut(b, m, node, n - 1, k);
      WordOfSet(PutWords(b, m, node, n - 1), 16 * m + n - 1, DinodeWord(node, n - 1), k);
    }
  }

  lemma Halves(x: Short, y: Short)
    ensures var w: int := FromShort(x) + 0x1_0000 * FromShort(y);
      0 <= w < 0x1_0000_0000 && ToShort(w % 0x1_0000) == x && ToShort(w / 0x1_0000) == y
  {
  }

  lemma DinodeOfWords(b: Bytes, m: nat, node: Inode)
    requires m < IPB && forall j :: 0 <= j < 16 ==> DWord(b, m, j) == DinodeWord(node, j)
    ensures GetDinode(b, m) == node
  {
    Halves(node.kind, node.major);
    Halves(node.minor, node.nlink);
    assert GetDinode(b, m).addrs == node.addrs by {
      forall t | 0 <= t <= NDIRECT ensures GetDinode(b, m).addrs[t] == node.addrs[t] {
        assert DWord(b, m, 3 + t) == DinodeWord(node, 3 + t);
      }
    }
  }

  /** An inode is read back as it was put, and the other inodes of the block stay as they are. */
  lemma DinodeOfPut(b: Bytes, m: nat, node: Inode, t: nat)
    requires m < IPB && t < IPB
    ensures GetDinode(PutDinode(b, m, node), t) == if t == m then node else GetDinode(b, t)
  {
    var c := PutDinode(b, m, node);
    forall j | 0 <= j < 16 ensures DWord(c, t, j) == if t == m then DinodeWord(node, j) else DWord(b, t, j) {
      WordOfPut(b, m, node, 16, 16 * t + j);
    }
    if t == m {
      DinodeOfWords(c, t, node);
    }
  }

  function Dinode(sb: Superblock, disk: Image, i: nat): Inode {
    GetDinode(if InodeBlock(sb, i) < |disk| then disk[InodeBlock(sb, i)] else Zeroes(), i % IPB)
  }

  /** The inodes that the inode blocks hold. */
  function Nodes(sb: Superblock, disk: Image): (nodes: seq<Inode>)
    ensures |nodes| == sb.ninodes
  {
    seq(sb.ninodes, i requires 0 <= i < sb.ninodes => Dinode(sb, disk, i))
  }

  /** iupdate on the disk. */
  function InodeStored(sb: Superblock, disk: Image, i: nat, node: Inode): (r: Image)
    ensures |r| == |disk|
  {
    var b := InodeBlock(sb, i);
    if b < |disk| then disk[b := PutDinode(disk[b], i % IPB, node)] else disk
  }

  lemma NodesOfStored(sb: Superblock, disk: Image, i: nat, node: Inode)
    requires GeometryOk(sb, disk) && i < sb.ninodes
    ensures InodeBlock(sb, i) < sb.bmapstart <= |disk|
    ensures Nodes(sb, InodeStored(sb, disk, i, node)) == Nodes(sb, disk)[i := node]
  {
    var r := InodeStored(sb, disk, i, node);
    assert i / IPB <= (sb.ninodes - 1) / IPB;
    forall j | 0 <= j < sb.ninodes ensures Dinode(sb, r, j) == if j == i then node else Dinode(sb, disk, j) {
      DinodeOfPut(disk[InodeBlock(sb, i)], i % IPB, node, j % IPB);
      assert j == j / IPB * IPB + j % IPB && i == i / IPB * IPB + i % IPB;
    }
  }

  /** Nothing before the bitmap changes. */
  ghost predicate MetaKept(sb: Superblock, disk: Image, disk': Image) {
    |disk'| == |disk| && forall b :: 0 <= b < |disk| && b < sb.bmapstart ==> disk'[b] == disk[b]
  }

  lemma NodesKept(sb: Superblock, disk: Image, disk': Image)
    requires GeometryOk(sb, disk) && MetaKept(sb, disk, disk')
    ensures Nodes(sb, disk') == Nodes(sb, disk)
  {
    forall i | 0 <= i < sb.ninodes ensures Dinode(sb, disk', i) == Dinode(sb, disk, i) {
      assert i / IPB <= (sb.ninodes - 1) / IPB;
    }
  }

  function NoAddrs(): Addrs {
    seq(NDIRECT + 1, _ => 0)
  }

  /** A free inode has no blocks. */
  ghost predicate FreeIsEmpty(nodes: seq<Inode>) {
    forall i :: 0 <= i < |nodes| && nodes[i].kind == 0 ==> nodes[i].addrs == NoAddrs()
  }

  /** Writing an inode block, or any other before the bitmap, leaves blocks, their owners and all files alone. */
  lemma MetaWriteIsInvisible(sb: Superblock, disk: Image, nodes: seq<Inode>, owner: Owner, disk': Image)
    requires Conserved(sb, disk, nodes, owner) && |disk'| == |disk|
    requires forall b :: sb.bmapstart <= b < |disk| ==> disk'[b] == disk[b]
    ensures Conserved(sb, disk', nodes, owner)
    ensures forall j, t :: 0 <= j < |nodes| && 0 <= t < SLOTS ==> Slot(disk', nodes[j], t) == Slot(disk, nodes[j], t)
    ensures forall j, k :: 0 <= j < |nodes| && 0 <= k < MAXBYTES ==> FileByte(disk', nodes[j], k) == FileByte(disk, nodes[j], k)
  {
    forall j, t | 0 <= j < |nodes| && 0 <= t < SLOTS ensures Slot(disk', nodes[j], t) == Slot(disk, nodes[j], t) {
      if nodes[j].addrs[NDIRECT] != 0 {
        IndirectOwned(sb, disk, nodes, owner, j);
      }
    }
    forall j, t | 0 <= j < |nodes| && 0 <= t < SLOTS ensures SlotOwned(disk', nodes[j], owner, j, t) {
      assert SlotOwned(disk, nodes[j], owner, j, t);
    }
    forall c | c in owner ensures OwnerOk(sb, disk', nodes, owner, c) {
      assert OwnerOk(sb, disk, nodes, owner, c);
    }
    forall j, k | 0 <= j < |nodes| && 0 <= k < MAXBYTES ensures FileByte(disk', nodes[j], k) == FileByte(disk, nodes[j], k) {
      FileSlotRange(k);
      assert SlotOwned(disk, nodes[j], owner, j, FileSlot(k / BSIZE));
      var c := Slot(disk, nodes[j], FileSlot(k / BSIZE));
      if c != 0 {
        assert OwnerOk(sb, disk, nodes, owner, c);
      }
    }
  }

  // ---- balloc and bfree as functions on the disk

  function MarkUsed(sb: Superblock, disk: Image, b: nat): (r: Image)
    requires BitmapBlock(sb, b) < |disk|
    ensures |r| == |disk|
  {
    var bb := BitmapBlock(sb, b);
    disk[bb := SetBit(disk[bb], b % BPB)]
  }

  function MarkFree(sb: Superblock, disk: Image, b: nat): (r: Image)
    requires BitmapBlock(sb, b) < |disk|
    ensures |r| == |disk|
  {
    var bb := BitmapBlock(sb, b);
    disk[bb := ClearBit(disk[bb], b % BPB)]
  }

  /** balloc: set the bit, zero the block. */
  function Allocated(sb: Superblock, disk: Image, b: nat): (r: Image)
    requires BitmapBlock(sb, b) < |disk| && b < |disk|
    ensures |r| == |disk|
  {
    MarkUsed(sb, disk, b)[b := Zeroes()]
  }

  lemma SameBit(sb: Superblock, b: nat, c: nat)
    requires BitmapBlock(sb, b) == BitmapBlock(sb, c) && b % BPB == c % BPB
    ensures b == c
  {
  }

  lemma UsedAfterMark(sb: Superblock, disk: Image, b: nat, c: nat)
    requires GeometryOk(sb, disk) && b < |disk| && c < |disk|
    ensures BitmapBlock(sb, b) < |disk| && BitmapBlock(sb, c) < |disk|
    ensures Used(sb, MarkUsed(sb, disk, b), c) <==> Used(sb, disk, c) || c == b
    ensures Used(sb, MarkFree(sb, disk, b), c) <==> Used(sb, disk, c) && c != b
  {
    BitmapInRange(sb, disk, b);
    BitmapInRange(sb, disk, c);
    if BitmapBlock(sb, b) == BitmapBlock(sb, c) {
      BitOfSet(disk[BitmapBlock(sb, b)], b % BPB, c % BPB);
      BitOfClear(disk[BitmapBlock(sb, b)], b % BPB, c % BPB);
      if b % BPB == c % BPB { SameBit(sb, b, c); }
    }
  }

  lemma UsedAfterAlloc(sb: Superblock, disk: Image, b: nat, c: nat)
    requires GeometryOk(sb, disk) && sb.datastart <= b < |disk| && c < |disk|
    ensures BitmapBlock(sb, b) < |disk| && BitmapBlock(sb, c) < |disk|
    ensures Used(sb, Allocated(sb, disk, b), c) <==> Used(sb, disk, c) || c == b
  {
    UsedAfterMark(sb, disk, b, c);
    BitmapInRange(sb, disk, c);
  }

  // ---- hanging a fresh block on an inode

  function SetAddr(node: Inode, s: nat, b: UInt): Inode
    requires s <= NDIRECT
  {
    node.(addrs := node.addrs[s := b])
  }

  /** The disk after balloc returned b and bmap stored it in entry s of the indirect block of node. */
  function SetEntry(sb: Superblock, disk: Image, node: Inode, s: nat, b: UInt): (r: Image)
    requires BitmapBlock(sb, b) < |disk| && b < |disk|
    requires NDIRECT < s < SLOTS && node.addrs[NDIRECT] < |disk|
    ensures |r| == |disk|
  {
    var d, ind := Allocated(sb, disk, b), node.addrs[NDIRECT];
    d[ind := SetWord(d[ind], s - NDIRECT - 1, b)]
  }

  /** A block with a clear bit is a data block that hangs nowhere. */
  lemma FreshBlock(sb: Superblock, disk: Image, nodes: seq<Inode>, owner: Owner, b: nat)
    requires Conserved(sb, disk, nodes, owner) && b < |disk|
    ensures BitmapBlock(sb, b) < |disk|
    ensures !Used(sb, disk, b) ==> sb.datastart <= b && b !in owner && b != 0
  {
    BitmapInRange(sb, disk, b);
  }

  /** The indirect block of an inode, if it has one, is a data block of its own. */
  lemma IndirectOwned(sb: Superblock, disk: Image, nodes: seq<Inode>, owner: Owner, j: nat)
    requires Conserved(sb, disk, nodes, owner) && j < |nodes| && nodes[j].addrs[NDIRECT] != 0
    ensures var ind := nodes[j].addrs[NDIRECT];
      sb.datastart <= ind < |disk| && ind in owner && owner[ind] == Place(j, NDIRECT)
  {
    assert SlotOwned(disk, nodes[j], owner, j, NDIRECT);
    assert OwnerOk(sb, disk, nodes, owner, nodes[j].addrs[NDIRECT]);
  }

  lemma SlotAfterAddr(sb: Superblock, disk: Image, nodes: seq<Inode>, owner: Owner, i: nat, s: nat, b: nat, j: nat, t: nat)
    requires Conserved(sb, disk, nodes, owner) && i < |nodes| && s <= NDIRECT && nodes[i].addrs[s] == 0
    requires sb.datastart <= b < |disk| && b !in owner && j < |nodes| && t < SLOTS && BitmapBlock(sb, b) < |disk|
    ensures Slot(Allocated(sb, disk, b), nodes[i := SetAddr(nodes[i], s, b)][j], t)
         == if j == i && t == s then b else Slot(disk, nodes[j], t)
  {
    BitmapInRange(sb, disk, b);
    if nodes[j].addrs[NDIRECT] != 0 {
      IndirectOwned(sb, disk, nodes, owner, j);
    }
    if t > NDIRECT {
      WordOfZero(t - NDIRECT - 1);
    }
  }

  lemma SlotAfterEntry(sb: Superblock, disk: Image, nodes: seq<Inode>, owner: Owner, i: nat, s: nat, b: nat, j: nat, t: nat)
    requires Conserved(sb, disk, nodes, owner) && i < |nodes| && NDIRECT < s < SLOTS
    requires nodes[i].addrs[NDIRECT] != 0 && nodes[i].addrs[NDIRECT] < |disk|
    requires sb.datastart <= b < |disk| && b !in owner && j < |nodes| && t < SLOTS && BitmapBlock(sb, b) < |disk|
    ensures Slot(SetEntry(sb, disk, nodes[i], s, b), nodes[j], t)
         == if j == i && t == s then b else Slot(disk, nodes[j], t)
  {
    BitmapInRange(sb, disk, b);
    IndirectOwned(sb, disk, nodes, owner, i);
    if nodes[j].addrs[NDIRECT] != 0 {
      IndirectOwned(sb, disk, nodes, owner, j);
      if t > NDIRECT {
        WordOfSet(disk[nodes[i].addrs[NDIRECT]], s - NDIRECT - 1, b, t - NDIRECT - 1);
      }
    }
  }

  /** One slot changes from empty to the fresh block b, whatever way it is stored. */
  ghost predicate Hung(disk: Image, nodes: seq<Inode>, disk': Image, nodes': seq<Inode>, i: nat, s: nat, b: nat) {
    && |nodes'| == |nodes| && |disk'| == |disk|
    && forall j, t :: 0 <= j < |nodes| && 0 <= t < SLOTS ==>
         Slot(disk', nodes'[j], t) == if j == i && t == s then b else Slot(disk, nodes[j], t)
  }

  lemma HungIsConserved(sb: Superblock, disk: Image, nodes: seq<Inode>, owner: Owner,
                        disk': Image, nodes': seq<Inode>, i: nat, s: nat, b: nat)
    requires Conserved(sb, disk, nodes, owner) && Hung(disk, nodes, disk', nodes', i, s, b)
    requires i < |nodes| && s < SLOTS && Slot(disk, nodes[i], s) == 0
    requires sb.datastart <= b < |disk| && b !in owner
    requires forall c: nat :: c < sb.size && BitmapBlock(sb, c) < |disk| ==>
      (Used(sb, disk', c) <==> Used(sb, disk, c) || c == b)
    ensures Conserved(sb, disk', nodes', owner[b := Place(i, s)])
  {
    var owner' := owner[b := Place(i, s)];
    forall j, t | 0 <= j < |nodes| && 0 <= t < SLOTS ensures SlotOwned(disk', nodes'[j], owner', j, t) {
      assert SlotOwned(disk, nodes[j], owner, j, t);
    }
    forall c | c in owner' ensures OwnerOk(sb, disk', nodes', owner', c) {
      if c != b {
        assert OwnerOk(sb, disk, nodes, owner, c);
      }
    }
  }

  /** Data blocks, as opposed to indirect blocks, keep their bytes. */
  ghost predicate DataKept(disk: Image, disk': Image, owner: Owner) {
    && |disk'| == |disk|
    && forall c :: c in owner && owner[c].slot != NDIRECT && c < |disk| ==> disk'[c] == disk[c]
  }

  /** No file changes, byte for byte, allocated or not. */
  ghost predicate SameFiles(disk: Image, nodes: seq<Inode>, disk': Image, nodes': seq<Inode>) {
    && |nodes'| == |nodes|
    && (forall j :: 0 <= j < |nodes| ==> nodes'[j].(addrs := nodes[j].addrs) == nodes[j])
    && forall j, k :: 0 <= j < |nodes| && 0 <= k < MAXBYTES ==>
         FileByte(disk', nodes'[j], k) == FileByte(disk, nodes[j], k)
  }

  lemma FileSlotRange(k: nat)
    requires k < MAXBYTES
    ensures k / BSIZE < MAXFILE && FileSlot(k / BSIZE) < SLOTS && FileSlot(k / BSIZE) != NDIRECT
  {
  }

  /** Hanging a zeroed block on an inode is invisible in every file. */
  lemma HungIsInvisible(sb: Superblock, disk: Image, nodes: seq<Inode>, owner: Owner,
                        disk': Image, nodes': seq<Inode>, i: nat, s: nat, b: nat, j: nat, k: nat)
    requires Conserved(sb, disk, nodes, owner) && Hung(disk, nodes, disk', nodes', i, s, b) && DataKept(disk, disk', owner)
    requires i < |nodes| && s < SLOTS && Slot(disk, nodes[i], s) == 0 && b < |disk|
    requires s != NDIRECT ==> disk'[b] == Zeroes()
    requires j < |nodes| && k < MAXBYTES
    ensures FileByte(disk', nodes'[j], k) == FileByte(disk, nodes[j], k)
  {
    FileSlotRange(k);
    var t := FileSlot(k / BSIZE);
    assert SlotOwned(disk, nodes[j], owner, j, t);
  }

  lemma AddrKeepsData(sb: Superblock, disk: Image, nodes: seq<Inode>, owner: Owner, b: nat)
    requires Conserved(sb, disk, nodes, owner) && b < |disk| && b !in owner && BitmapBlock(sb, b) < |disk|
    ensures DataKept(disk, Allocated(sb, disk, b), owner)
  {
    BitmapInRange(sb, disk, b);
    forall c | c in owner ensures c >= sb.datastart {
      assert OwnerOk(sb, disk, nodes, owner, c);
    }
  }

  /** Storing a fresh block in an address of the inode: nothing is lost, owned twice or changed. */
  lemma AddrAllocates(sb: Superblock, disk: Image, nodes: seq<Inode>, owner: Owner, i: nat, s: nat, b: nat)
    requires Conserved(sb, disk, nodes, owner) && i < |nodes| && s <= NDIRECT && nodes[i].addrs[s] == 0
    requires b < |disk| && BitmapBlock(sb, b) < |disk| && !Used(sb, disk, b)
    ensures var disk', nodes' := Allocated(sb, disk, b), nodes[i := SetAddr(nodes[i], s, b)];
      && Conserved(sb, disk', nodes', owner[b := Place(i, s)])
      && Hung(disk, nodes, disk', nodes', i, s, b)
      && SameFiles(disk, nodes, disk', nodes')
  {
    var disk', nodes' := Allocated(sb, disk, b), nodes[i := SetAddr(nodes[i], s, b)];
    FreshBlock(sb, disk, nodes, owner, b);
    forall j, t | 0 <= j < |nodes| && 0 <= t < SLOTS
      ensures Slot(disk', nodes'[j], t) == if j == i && t == s then b else Slot(disk, nodes[j], t)
    {
      SlotAfterAddr(sb, disk, nodes, owner, i, s, b, j, t);
    }
    forall c: nat | c < sb.size && BitmapBlock(sb, c) < |disk| ensures Used(sb, disk', c) <==> Used(sb, disk, c) || c == b {
      UsedAfterAlloc(sb, disk, b, c);
    }
    HungIsConserved(sb, disk, nodes, owner, disk', nodes', i, s, b);
    AddrKeepsData(sb, disk, nodes, owner, b);
    forall j, k | 0 <= j < |nodes| && 0 <= k < MAXBYTES
      ensures FileByte(disk', nodes'[j], k) == FileByte(disk, nodes[j], k)
    {
      HungIsInvisible(sb, disk, nodes, owner, disk', nodes', i, s, b, j, k);
    }
  }

  /** The same for an entry of the indirect block. */
  lemma EntryAllocates(sb: Superblock, disk: Image, nodes: seq<Inode>, owner: Owner, i: nat, s: nat, b: nat)
    requires Conserved(sb, disk, nodes, owner) && i < |nodes| && NDIRECT < s < SLOTS
    requires nodes[i].addrs[NDIRECT] != 0 && Slot(disk, nodes[i], s) == 0
    requires b < |disk| && BitmapBlock(sb, b) < |disk| && !Used(sb, disk, b)
    ensures nodes[i].addrs[NDIRECT] < |disk|
    ensures var disk' := SetEntry(sb, disk, nodes[i], s, b);
      && Conserved(sb, disk', nodes, owner[b := Place(i, s)])
      && Hung(disk, nodes, disk', nodes, i, s, b)
      && SameFiles(disk, nodes, disk', nodes)
  {
    IndirectOwned(sb, disk, nodes, owner, i);
    FreshBlock(sb, disk, nodes, owner, b);
    var disk' := SetEntry(sb, disk, nodes[i], s, b);
    forall j, t | 0 <= j < |nodes| && 0 <= t < SLOTS
      ensures Slot(disk', nodes[j], t) == if j == i && t == s then b else Slot(disk, nodes[j], t)
    {
      SlotAfterEntry(sb, disk, nodes, owner, i, s, b, j, t);
    }
    forall c: nat | c < sb.size && BitmapBlock(sb, c) < |disk| ensures Used(sb, disk', c) <==> Used(sb, disk, c) || c == b {
      UsedAfterAlloc(sb, disk, b, c);
      BitmapInRange(sb, disk, c);
    }
    HungIsConserved(sb, disk, nodes, owner, disk', nodes, i, s, b);
    AddrKeepsData(sb, disk, nodes, owner, b);
    forall j, k | 0 <= j < |nodes| && 0 <= k < MAXBYTES
      ensures FileByte(disk', nodes[j], k) == FileByte(disk, nodes[j], k)
    {
      HungIsInvisible(sb, disk, nodes, owner, disk', nodes, i, s, b, j, k);
    }
  }

  /** A slot that gains a block takes none away. */
  lemma HungStaysDense(disk: Image, nodes: seq<Inode>, disk': Image, nodes': seq<Inode>, i: nat, s: nat, b: nat)
    requires AllDense(disk, nodes) && Hung(disk, nodes, disk', nodes', i, s, b) && b != 0
    requires forall j :: 0 <= j < |nodes| ==> nodes'[j].size == nodes[j].size
    ensures AllDense(disk', nodes')
  {
    forall j | 0 <= j < |nodes| ensures Dense(disk', nodes'[j]) {
      assert Dense(disk, nodes[j]);
      forall bn | 0 <= bn < MAXFILE && bn * BSIZE < nodes[j].size ensures Slot(disk', nodes'[j], FileSlot(bn)) != 0 {
        assert FileSlot(bn) < SLOTS;
      }
    }
  }

  /** Inode i may have gained blocks; no slot lost or changed one, and no other inode was touched. */
  ghost predicate Grown(sb: Superblock, disk: Image, nodes: seq<Inode>, disk': Image, nodes': seq<Inode>, i: nat) {
    && |nodes'| == |nodes| && MetaKept(sb, disk, disk')
    && (forall j :: 0 <= j < |nodes| && j != i ==> nodes'[j] == nodes[j])
    && forall j, t :: 0 <= j < |nodes| && 0 <= t < SLOTS && Slot(disk, nodes[j], t) != 0 ==>
         Slot(disk', nodes'[j], t) == Slot(disk, nodes[j], t)
  }

  /** What balloc and bmap store lies behind the inode blocks. */
  lemma AllocKeepsMeta(sb: Superblock, disk: Image, b: nat)
    requires GeometryOk(sb, disk) && sb.datastart <= b < |disk| && BitmapBlock(sb, b) < |disk|
    ensures MetaKept(sb, disk, Allocated(sb, disk, b))
  {
  }

  lemma HungIsGrown(sb: Superblock, disk: Image, nodes: seq<Inode>, disk': Image, nodes': seq<Inode>, i: nat, s: nat, b: nat)
    requires Hung(disk, nodes, disk', nodes', i, s, b) && MetaKept(sb, disk, disk')
    requires i < |nodes| && s < SLOTS && Slot(disk, nodes[i], s) == 0
    requires forall j :: 0 <= j < |nodes| && j != i ==> nodes'[j] == nodes[j]
    ensures Grown(sb, disk, nodes, disk', nodes', i) == true
  {
  }

  lemma GrownTwice(sb: Superblock, d0: Image, n0: seq<Inode>, d1: Image, n1: seq<Inode>, d2: Image, n2: seq<Inode>, i: nat)
    requires Grown(sb, d0, n0, d1, n1, i) == true && Grown(sb, d1, n1, d2, n2, i) == true
    ensures Grown(sb, d0, n0, d2, n2, i) == true
  {
  }

  lemma SameTwice(d0: Image, n0: seq<Inode>, d1: Image, n1: seq<Inode>, d2: Image, n2: seq<Inode>)
    requires SameFiles(d0, n0, d1, n1) && SameFiles(d1, n1, d2, n2)
    ensures SameFiles(d0, n0, d2, n2)
  {
  }

  /** The blocks bmap may log on the way to file blocks lo .. hi of an inode: each block with its bitmap
      block, and the indirect block with its bitmap block. */
  function Touched(sb: Superblock, disk: Image, node: Inode, lo: nat, hi: nat): set<nat>
    decreases hi
  {
    if hi <= lo then
      if node.addrs[NDIRECT] == 0 then {} else {node.addrs[NDIRECT] as nat, BitmapBlock(sb, node.addrs[NDIRECT])}
    else
      var b := Slot(disk, node, FileSlot(hi - 1));
      Touched(sb, disk, node, lo, hi - 1) + {b, BitmapBlock(sb, b)}
  }

  lemma {:induction false} TouchedIsSmall(sb: Superblock, disk: Image, node: Inode, lo: nat, hi: nat)
    requires lo <= hi
    ensures |Touched(sb, disk, node, lo, hi)| <= 2 * (hi - lo) + 2
    decreases hi
  {
    if lo < hi {
      var b := Slot(disk, node, FileSlot(hi - 1));
      TouchedIsSmall(sb, disk, node, lo, hi - 1);
      UnionSize(Touched(sb, disk, node, lo, hi - 1), b, BitmapBlock(sb, b));
    }
  }

  lemma UnionSize(a: set<nat>, x: nat, y: nat)
    ensures |a + {x, y}| <= |a| + 2
  {
    assert a + {x, y} == (a + {x}) + {y};
  }

  lemma {:induction false} TouchedGrows(sb: Superblock, d0: Image, n0: seq<Inode>, d1: Image, n1: seq<Inode>, i: nat, lo: nat, hi: nat)
    requires Grown(sb, d0, n0, d1, n1, i) && i < |n0| && lo <= hi <= MAXFILE
    requires forall q :: lo <= q < hi ==> Slot(d0, n0[i], FileSlot(q)) != 0
    ensures Touched(sb, d0, n0[i], lo, hi) <= Touched(sb, d1, n1[i], lo, hi)
    decreases hi
  {
    if lo < hi {
      TouchedGrows(sb, d0, n0, d1, n1, i, lo, hi - 1);
      assert FileSlot(hi - 1) < SLOTS;
    } else {
      assert Slot(d0, n0[i], NDIRECT) != 0 ==> Slot(d1, n1[i], NDIRECT) == Slot(d0, n0[i], NDIRECT);
    }
  }

  // ---- writing bytes into a block of a file

  function Patch(b: Bytes, lo: nat, src: seq<Byte>): Bytes
    requires lo + |src| <= BSIZE
  {
    b[..lo] + src + b[lo + |src|..]
  }

  /** Changing bytes of one file block changes those bytes of that file, and nothing else anywhere. */
  lemma PatchIsLocal(sb: Superblock, disk: Image, nodes: seq<Inode>, owner: Owner, i: nat, bn: nat, lo: nat, src: seq<Byte>)
    requires Conserved(sb, disk, nodes, owner) && i < |nodes| && bn < MAXFILE && lo + |src| <= BSIZE
    requires Slot(disk, nodes[i], FileSlot(bn)) != 0
    ensures var b := Slot(disk, nodes[i], FileSlot(bn));
      && b < |disk|
      && var disk' := disk[b := Patch(disk[b], lo, src)];
      && Conserved(sb, disk', nodes, owner)
      && (forall j, t :: 0 <= j < |nodes| && 0 <= t < SLOTS ==> Slot(disk', nodes[j], t) == Slot(disk, nodes[j], t))
  {
    var s := FileSlot(bn);
    var b := Slot(disk, nodes[i], s);
    assert s < SLOTS && s != NDIRECT;
    assert SlotOwned(disk, nodes[i], owner, i, s);
    assert OwnerOk(sb, disk, nodes, owner, b);
    var disk' := disk[b := Patch(disk[b], lo, src)];
    forall j, t | 0 <= j < |nodes| && 0 <= t < SLOTS
      ensures Slot(disk', nodes[j], t) == Slot(disk, nodes[j], t) && SlotOwned(disk', nodes[j], owner, j, t)
    {
      assert SlotOwned(disk, nodes[j], owner, j, t);
      if nodes[j].addrs[NDIRECT] != 0 {
        IndirectOwned(sb, disk, nodes, owner, j);
      }
    }
    forall c | c in owner ensures OwnerOk(sb, disk', nodes, owner, c) {
      assert OwnerOk(sb, disk, nodes, owner, c);
    }
    forall c: nat | c < sb.size && BitmapBlock(sb, c) < |disk| ensures Used(sb, disk', c) <==> Used(sb, disk, c) {
      BitmapInRange(sb, disk, c);
    }
  }

  lemma InBlock(bn: nat, lo: nat, n: nat, k: nat)
    requires lo + n <= BSIZE
    ensures bn * BSIZE + lo <= k < bn * BSIZE + lo + n <==> k / BSIZE == bn && lo <= k % BSIZE < lo + n
    ensures k / BSIZE == bn ==> k % BSIZE - lo == k - (bn * BSIZE + lo)
  {
  }

  /** The same, for byte o of the q-th block of file j. */
  lemma PatchedAt(sb: Superblock, disk: Image, nodes: seq<Inode>, owner: Owner, i: nat, bn: nat, lo: nat, src: seq<Byte>,
                  j: nat, q: nat, o: nat)
    requires Conserved(sb, disk, nodes, owner) && i < |nodes| && bn < MAXFILE && lo + |src| <= BSIZE
    requires Slot(disk, nodes[i], FileSlot(bn)) != 0 && Slot(disk, nodes[i], FileSlot(bn)) < |disk|
    requires j < |nodes| && q < MAXFILE && o < BSIZE
    ensures var b, c := Slot(disk, nodes[i], FileSlot(bn)), Slot(disk, nodes[j], FileSlot(q));
      0 < c < |disk| ==>
        disk[b := Patch(disk[b], lo, src)][c][o]
          == if j == i && q == bn && lo <= o < lo + |src| then src[o - lo] else disk[c][o]
  {
    assert SlotOwned(disk, nodes[i], owner, i, FileSlot(bn));
    assert SlotOwned(disk, nodes[j], owner, j, FileSlot(q));
  }

  lemma PatchedByte(sb: Superblock, disk: Image, nodes: seq<Inode>, owner: Owner, i: nat, bn: nat, lo: nat, src: seq<Byte>,
                    disk': Image, j: nat, k: nat)
    requires Conserved(sb, disk, nodes, owner) && i < |nodes| && bn < MAXFILE && lo + |src| <= BSIZE
    requires Slot(disk, nodes[i], FileSlot(bn)) != 0 && Slot(disk, nodes[i], FileSlot(bn)) < |disk|
    requires disk' == disk[Slot(disk, nodes[i], FileSlot(bn)) := Patch(disk[Slot(disk, nodes[i], FileSlot(bn))], lo, src)]
    requires j < |nodes| && k < MAXBYTES
    ensures FileByte(disk', nodes[j], k)
         == if j == i && bn * BSIZE + lo <= k < bn * BSIZE + lo + |src| then src[k - (bn * BSIZE + lo)]
            else FileByte(disk, nodes[j], k)
  {
    PatchIsLocal(sb, disk, nodes, owner, i, bn, lo, src);
    FileSlotRange(k);
    InBlock(bn, lo, |src|, k);
    PatchedAt(sb, disk, nodes, owner, i, bn, lo, src, j, k / BSIZE, k % BSIZE);
    assert Slot(disk', nodes[j], FileSlot(k / BSIZE)) == Slot(disk, nodes[j], FileSlot(k / BSIZE));
  }

  /** File i has src at off and every other byte of every file is as before. */
  ghost predicate Wrote(d0: Image, n0: seq<Inode>, d1: Image, n1: seq<Inode>, i: nat, off: nat, src: seq<Byte>) {
    && |n1| == |n0|
    && forall j, k :: 0 <= j < |n0| && 0 <= k < MAXBYTES ==>
         FileByte(d1, n1[j], k) == if j == i && off <= k < off + |src| then src[k - off] else FileByte(d0, n0[j], k)
  }

  lemma WroteMore(d0: Image, n0: seq<Inode>, d1: Image, n1: seq<Inode>, d2: Image, n2: seq<Inode>,
                  i: nat, off: nat, a: seq<Byte>, b: seq<Byte>)
    requires Wrote(d0, n0, d1, n1, i, off, a) && Wrote(d1, n1, d2, n2, i, off + |a|, b)
    ensures Wrote(d0, n0, d2, n2, i, off, a + b)
  {
  }

  lemma PatchWrites(sb: Superblock, d0: Image, n0: seq<Inode>, disk: Image, nodes: seq<Inode>, owner: Owner,
                    i: nat, off: nat, bn: nat, lo: nat, src: seq<Byte>, disk': Image)
    requires off == bn * BSIZE + lo
    requires SameFiles(d0, n0, disk, nodes) == true
    requires Conserved(sb, disk, nodes, owner) == true && i < |nodes| && bn < MAXFILE && lo + |src| <= BSIZE
    requires Slot(disk, nodes[i], FileSlot(bn)) != 0 && Slot(disk, nodes[i], FileSlot(bn)) < |disk|
    requires disk' == disk[Slot(disk, nodes[i], FileSlot(bn)) := Patch(disk[Slot(disk, nodes[i], FileSlot(bn))], lo, src)]
    ensures Wrote(d0, n0, disk', nodes, i, off, src) == true
    ensures Conserved(sb, disk', nodes, owner) == true && Grown(sb, disk, nodes, disk', nodes, i) == true
    ensures AllDense(disk, nodes) ==> AllDense(disk', nodes) == true
  {
    PatchIsLocal(sb, disk, nodes, owner, i, bn, lo, src);
    assert SlotOwned(disk, nodes[i], owner, i, FileSlot(bn));
    assert OwnerOk(sb, disk, nodes, owner, Slot(disk, nodes[i], FileSlot(bn)));
    forall j, k | 0 <= j < |nodes| && 0 <= k < MAXBYTES
      ensures FileByte(disk', nodes[j], k)
           == if j == i && bn * BSIZE + lo <= k < bn * BSIZE + lo + |src| then src[k - (bn * BSIZE + lo)]
              else FileByte(d0, n0[j], k)
    {
      PatchedByte(sb, disk, nodes, owner, i, bn, lo, src, disk', j, k);
    }
    if AllDense(disk, nodes) {
      SlotsKeepDense(disk, nodes, disk', nodes);
    }
  }

  lemma SlotsKeepDense(disk: Image, nodes: seq<Inode>, disk': Image, nodes': seq<Inode>)
    requires AllDense(disk, nodes) && |nodes'| == |nodes|
    requires forall j :: 0 <= j < |nodes| ==> nodes'[j].size == nodes[j].size
    requires forall j, t :: 0 <= j < |nodes| && 0 <= t < SLOTS && Slot(disk, nodes[j], t) != 0 ==>
      Slot(disk', nodes'[j], t) == Slot(disk, nodes[j], t)
    ensures AllDense(disk', nodes')
  {
    forall j | 0 <= j < |nodes| ensures Dense(disk', nodes'[j]) {
      assert Dense(disk, nodes[j]);
      forall bn | 0 <= bn < MAXFILE && bn * BSIZE < nodes[j].size ensures Slot(disk', nodes'[j], FileSlot(bn)) != 0 {
        assert FileSlot(bn) < SLOTS;
      }
    }
  }

  // ---- giving blocks back

  /** Clearing bits leaves every data block alone. */
  ghost predicate BitsOnly(sb: Superblock, disk: Image, disk': Image) {
    MetaKept(sb, disk, disk') && forall c :: sb.datastart <= c < |disk| ==> disk'[c] == disk[c]
  }

  lemma SlotsAfterBits(sb: Superblock, disk: Image, disk': Image, nodes: seq<Inode>, owner: Owner, j: nat, t: nat)
    requires Conserved(sb, disk, nodes, owner) && BitsOnly(sb, disk, disk') && j < |nodes|
    ensures Slot(disk', nodes[j], t) == Slot(disk, nodes[j], t)
  {
    if nodes[j].addrs[NDIRECT] != 0 {
      IndirectOwned(sb, disk, nodes, owner, j);
    }
  }

  lemma BytesAfterBits(sb: Superblock, disk: Image, disk': Image, nodes: seq<Inode>, owner: Owner, j: nat, k: nat)
    requires Conserved(sb, disk, nodes, owner) && BitsOnly(sb, disk, disk') && j < |nodes| && k < MAXBYTES
    ensures FileByte(disk', nodes[j], k) == FileByte(disk, nodes[j], k)
  {
    FileSlotRange(k);
    var t := FileSlot(k / BSIZE);
    SlotsAfterBits(sb, disk, disk', nodes, owner, j, t);
    assert SlotOwned(disk, nodes[j], owner, j, t);
    if Slot(disk, nodes[j], t) != 0 {
      assert OwnerOk(sb, disk, nodes, owner, Slot(disk, nodes[j], t));
    }
  }

  /** The blocks of inode i that hang at slot lo or after it. */
  ghost predicate HangsFrom(owner: Owner, i: nat, lo: nat, hi: nat, c: nat) {
    c in owner && owner[c].inum == i && lo <= owner[c].slot < hi
  }

  function Unowned(owner: Owner, i: nat, lo: nat, hi: nat): Owner {
    map c | c in owner && !(owner[c].inum == i && lo <= owner[c].slot < hi) :: owner[c]
  }

  /** Clearing the bits of exactly the blocks at slots lo .. hi of inode i, and then those slots themselves,
      conserves blocks. */
  lemma UnhangIsConserved(sb: Superblock, disk: Image, nodes: seq<Inode>, owner: Owner,
                          disk': Image, node': Inode, i: nat, lo: nat, hi: nat)
    requires Conserved(sb, disk, nodes, owner) && BitsOnly(sb, disk, disk') && i < |nodes| && lo <= hi <= SLOTS
    requires forall c: nat :: c < sb.size && BitmapBlock(sb, c) < |disk| ==>
      (Used(sb, disk', c) <==> Used(sb, disk, c) && !HangsFrom(owner, i, lo, hi, c))
    requires forall t :: 0 <= t < SLOTS ==> Slot(disk', node', t) == if lo <= t < hi then 0 else Slot(disk, nodes[i], t)
    ensures Conserved(sb, disk', nodes[i := node'], Unowned(owner, i, lo, hi))
  {
    var nodes', owner' := nodes[i := node'], Unowned(owner, i, lo, hi);
    forall j, t | 0 <= j < |nodes| && 0 <= t < SLOTS ensures SlotOwned(disk', nodes'[j], owner', j, t) {
      assert SlotOwned(disk, nodes[j], owner, j, t);
      SlotsAfterBits(sb, disk, disk', nodes, owner, j, t);
    }
    forall c | c in owner' ensures OwnerOk(sb, disk', nodes', owner', c) {
      assert OwnerOk(sb, disk, nodes, owner, c);
      SlotsAfterBits(sb, disk, disk', nodes, owner, owner[c].inum, owner[c].slot);
    }
    forall c: nat | c < sb.size && BitmapBlock(sb, c) < |disk|
      ensures Used(sb, disk', c) <==> c < sb.datastart || c in owner'
    {
      if c in owner {
        assert OwnerOk(sb, disk, nodes, owner, c);
      }
    }
  }

  /** The bits of d0 with those of the blocks at slots lo .. hi of inode i cleared. */
  ghost predicate Cleared(sb: Superblock, d0: Image, disk: Image, owner: Owner, i: nat, lo: nat, hi: nat) {
    && BitsOnly(sb, d0, disk)
    && forall c: nat :: c < sb.size && BitmapBlock(sb, c) < |disk| ==>
         (Used(sb, disk, c) <==> Used(sb, d0, c) && !HangsFrom(owner, i, lo, hi, c))
  }

  lemma FreeKeepsBits(sb: Superblock, d0: Image, disk: Image, b: nat)
    requires GeometryOk(sb, d0) && BitsOnly(sb, d0, disk) && b < |disk|
    ensures BitmapBlock(sb, b) < |disk| && BitsOnly(sb, d0, MarkFree(sb, disk, b)) && GeometryOk(sb, MarkFree(sb, disk, b))
  {
    BitmapInRange(sb, d0, b);
  }

  /** Freeing the block at slot s extends the cleared range by that slot. */
  lemma ClearOne(sb: Superblock, d0: Image, disk: Image, nodes: seq<Inode>, owner: Owner, i: nat, lo: nat, s: nat)
    requires Conserved(sb, d0, nodes, owner) && Cleared(sb, d0, disk, owner, i, lo, s) && i < |nodes| && lo <= s < SLOTS
    ensures var b := Slot(d0, nodes[i], s);
      if b == 0 then Cleared(sb, d0, disk, owner, i, lo, s + 1)
      else
        && b < |disk| && BitmapBlock(sb, b) < |disk| && Used(sb, disk, b)
        && Cleared(sb, d0, MarkFree(sb, disk, b), owner, i, lo, s + 1)
  {
    var b := Slot(d0, nodes[i], s);
    assert SlotOwned(d0, nodes[i], owner, i, s);
    forall c | HangsFrom(owner, i, lo, s + 1, c) && !HangsFrom(owner, i, lo, s, c) ensures c == b {
      assert OwnerOk(sb, d0, nodes, owner, c);
    }
    if b != 0 {
      assert OwnerOk(sb, d0, nodes, owner, b) && HangsFrom(owner, i, lo, s + 1, b) && !HangsFrom(owner, i, lo, s, b);
      FreeKeepsBits(sb, d0, disk, b);
      FreeClears(sb, d0, disk, owner, i, lo, s, b);
    }
  }

  lemma FreeClears(sb: Superblock, d0: Image, disk: Image, owner: Owner, i: nat, lo: nat, s: nat, b: nat)
    requires GeometryOk(sb, disk) && Cleared(sb, d0, disk, owner, i, lo, s) && b < |disk| && BitmapBlock(sb, b) < |disk|
    requires BitsOnly(sb, d0, MarkFree(sb, disk, b)) == true && lo <= s
    requires forall c :: HangsFrom(owner, i, lo, s + 1, c) <==> HangsFrom(owner, i, lo, s, c) || c == b
    ensures Cleared(sb, d0, MarkFree(sb, disk, b), owner, i, lo, s + 1) == true
  {
    forall c: nat | c < sb.size && BitmapBlock(sb, c) < |disk|
      ensures Used(sb, MarkFree(sb, disk, b), c) <==> Used(sb, d0, c) && !HangsFrom(owner, i, lo, s + 1, c)
    {
      UsedAfterMark(sb, disk, b, c);
    }
  }

  /** Emptying slots lo .. hi of inode i after clearing their bits. */
  lemma ClearedIsConserved(sb: Superblock, d0: Image, disk: Image, nodes: seq<Inode>, owner: Owner, i: nat, node': Inode,
                           lo: nat, hi: nat)
    requires Conserved(sb, d0, nodes, owner) && Cleared(sb, d0, disk, owner, i, lo, hi) && i < |nodes| && lo <= hi <= SLOTS
    requires forall t :: 0 <= t < SLOTS ==> Slot(disk, node', t) == if lo <= t < hi then 0 else Slot(d0, nodes[i], t)
    ensures Conserved(sb, disk, nodes[i := node'], Unowned(owner, i, lo, hi))
  {
    UnhangIsConserved(sb, d0, nodes, owner, disk, node', i, lo, hi);
  }

  /** An inode with its first k addresses cleared. */
  function Stripped(node: Inode, k: nat): Inode
    requires k <= NDIRECT + 1
  {
    var a: Addrs := seq(k, _ => 0) + node.addrs[k..];
    node.(addrs := a)
  }

  lemma StripOneMore(node: Inode, k: nat)
    requires k <= NDIRECT
    ensures SetAddr(Stripped(node, k), k, 0) == Stripped(node, k + 1)
  {
  }

  lemma WithoutJoins(owner: Owner, i: nat, lo: nat, mid: nat, hi: nat)
    requires lo <= mid <= hi
    ensures Unowned(Unowned(owner, i, lo, mid), i, mid, hi) == Unowned(owner, i, lo, hi)
  {
  }
}
