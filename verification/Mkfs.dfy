/** What mkfs.c leaves on the disk: its root directory, and the size that it gives it at the end. */
module Mkfs {
  import opened Basics
  import opened BlockData
  import S = FsState
  import opened Fs = FileSystem
  import L = LinkCount
  import opened Dirs = Directories
  import F = FileConsistency
  import opened Sysfile

  // ---- the root

  /** ialloc(T_DIR), and the two iappends of "." and "..", on a disk without files. */
  method MakeRoot(fs: FileSystem) returns (e: End)
    requires Ready(fs) && 1 < |fs.inode| && Table(fs.disk, fs.inode) == Empty(|fs.inode|)
    modifies fs
    ensures e == Returns || e == NoBlock
    ensures e == NoBlock ==> fs.DiskFull()
    ensures e == Returns ==> Ready(fs) && Table(fs.disk, fs.inode) == L.Mkfs(|fs.inode|)
  {
    ghost var t := Table(fs.disk, fs.inode);
    assert L.FreeInode(t, 1) == 1;
    var ip := NewInode(fs, L.Dir, 0, 0);
    SpellsDir(fs, 1, []);
    e := LinkDots(fs, 1, 1);
  }

  function Empty(n: nat): L.Table {
    seq(n, _ => L.Inode(L.Free, 0, []))
  }

  /** The disk of mkfs with its root and no other file, from which every run of calls can start. */
  method Format(sb: S.Superblock) returns (fs: FileSystem, e: End)
    requires S.GeometryOk(sb, seq(sb.size, _ => Zeroes())) && 1 < sb.ninodes <= 0x1_0000
    ensures fresh(fs) && fs.sb == sb && (e == Returns || e == NoBlock)
    ensures e == NoBlock ==> fs.DiskFull()
    ensures e == Returns ==> Ready(fs) && Table(fs.disk, fs.inode) == L.Mkfs(sb.ninodes) && Sound(sb, fs.disk)
  {
    F.MkfsIsOk(sb);
    fs := new FileSystem(sb, F.Marked(sb, sb.datastart), map[]);
    NothingYet(fs.disk, fs.inode);
    e := MakeRoot(fs);
    if e == Returns {
      L.MkfsIsOk(sb.ninodes);
      SoundNow(fs);
    }
  }

  lemma NothingYet(disk: S.Image, nodes: seq<S.Inode>)
    requires |nodes| <= 0x1_0000 && forall i :: 0 <= i < |nodes| ==> nodes[i] == S.Inode(0, 0, 0, 0, 0, S.NoAddrs())
    ensures DirsOk(nodes) && Table(disk, nodes) == Empty(|nodes|)
  {
  }

  // ---- the size of the root

  /** off = ((off/BSIZE) + 1) * BSIZE */
  function WholeBlocks(size: nat): nat {
    (size / BSIZE + 1) * BSIZE
  }

  function PaddedNode(node: S.Inode): S.Inode {
    node.(size := if WholeBlocks(node.size) < UINT then WholeBlocks(node.size) else 0)
  }

  function PaddedDisk(sb: S.Superblock, disk: S.Image): S.Image
    requires 1 < sb.ninodes
  {
    S.InodeStored(sb, disk, 1, PaddedNode(S.Nodes(sb, disk)[1]))
  }

  /** iappend has allocated blocks for the bytes that it wrote and no others, on a disk of zeros. */
  ghost predicate Appended(disk: S.Image, node: S.Inode) {
    && (forall bn :: 0 <= bn < S.MAXFILE && node.size <= bn * BSIZE ==> S.Slot(disk, node, S.FileSlot(bn)) == 0)
    && (forall k :: node.size <= k < WholeBlocks(node.size) ==> S.FileByte(disk, node, k) == 0)
  }

  /** mkfs adds a block to the size of the root even when the last one is full. Then the root has a hole, and what the
      kernel promises of its files does not hold on the new disk; otherwise the disk stays sound. */
  lemma PaddingIsExact(sb: S.Superblock, disk: S.Image)
    requires Sound(sb, disk) && DirsOk(S.Nodes(sb, disk)) && 1 < sb.ninodes && Appended(disk, S.Nodes(sb, disk)[1])
    ensures Sound(sb, PaddedDisk(sb, disk)) <==> S.Nodes(sb, disk)[1].size % BSIZE != 0
  {
    var nodes, after := S.Nodes(sb, disk), PaddedDisk(sb, disk);
    var owner: S.Owner :| F.Owned(sb, disk, owner);
    PaddedShape(sb, disk, owner);
    RootIsDir(disk, nodes);
    assert S.Dense(disk, nodes[1]);
    if nodes[1].size % BSIZE == 0 {
      HoleIsUnsound(sb, disk, after, nodes);
    } else {
      PaddedIsOwned(sb, disk, after, nodes, owner);
      PaddedTable(disk, after, nodes);
      L.PaddedKeepsInv(Table(disk, nodes), 1, (WholeBlocks(nodes[1].size) - nodes[1].size) / DSIZE);
    }
  }

  lemma RootIsDir(disk: S.Image, nodes: seq<S.Inode>)
    requires L.Inv(Table(disk, nodes))
    ensures IsDir(nodes, 1) && nodes[1].kind != 0 && L.InTree(Table(disk, nodes)[1])
  {
    assert Table(disk, nodes)[1] == NodeOf(disk, nodes[1]);
  }

  lemma PaddedShape(sb: S.Superblock, disk: S.Image, owner: S.Owner)
    requires F.Owned(sb, disk, owner) && 1 < sb.ninodes
    ensures var nodes, after := S.Nodes(sb, disk), PaddedDisk(sb, disk);
      SameShape(disk, after, nodes) == true && S.Nodes(sb, after) == nodes[1 := PaddedNode(nodes[1])]
      && S.Conserved(sb, after, nodes, owner) == true
  {
    var nodes := S.Nodes(sb, disk);
    S.NodesOfStored(sb, disk, 1, PaddedNode(nodes[1]));
    S.MetaWriteIsInvisible(sb, disk, nodes, owner, PaddedDisk(sb, disk));
  }

  lemma HoleIsUnsound(sb: S.Superblock, disk: S.Image, after: S.Image, nodes: seq<S.Inode>)
    requires 1 < sb.ninodes == |nodes| && SameShape(disk, after, nodes)
    requires S.Nodes(sb, after) == nodes[1 := PaddedNode(nodes[1])]
    requires Appended(disk, nodes[1]) && nodes[1].size <= S.MAXBYTES && nodes[1].size % BSIZE == 0
    ensures !F.FsOk(sb, after)
  {
    HoleIsNotDense(disk, after, nodes);
    forall owner: S.Owner ensures !F.Owned(sb, after, owner) {
      assert !S.Dense(after, S.Nodes(sb, after)[1]);
    }
  }

  lemma HoleIsNotDense(disk: S.Image, after: S.Image, nodes: seq<S.Inode>)
    requires 1 < |nodes| && SameShape(disk, after, nodes)
    requires Appended(disk, nodes[1]) && nodes[1].size <= S.MAXBYTES && nodes[1].size % BSIZE == 0
    ensures !S.Dense(after, PaddedNode(nodes[1]))
  {
    var node, bn := nodes[1], nodes[1].size / BSIZE;
    if bn < S.MAXFILE {
      assert S.Slot(after, node, S.FileSlot(bn)) == S.Slot(disk, node, S.FileSlot(bn)) == 0;
      assert S.Slot(after, PaddedNode(node), S.FileSlot(bn)) == S.Slot(after, node, S.FileSlot(bn));
      assert bn * BSIZE < PaddedNode(node).size;
    }
  }

  lemma PaddedIsOwned(sb: S.Superblock, disk: S.Image, after: S.Image, nodes: seq<S.Inode>, owner: S.Owner)
    requires 1 < sb.ninodes == |nodes| && SameShape(disk, after, nodes) == true && S.Conserved(sb, after, nodes, owner) == true
    requires S.Nodes(sb, after) == nodes[1 := PaddedNode(nodes[1])]
    requires S.AllDense(disk, nodes) && S.FreeIsEmpty(nodes) && nodes[1].kind != 0 && nodes[1].size % BSIZE != 0
    ensures F.Owned(sb, after, owner) && F.FsOk(sb, after)
  {
    SizeDoesNotMatter(sb, after, nodes, owner);
    forall j | 0 <= j < |nodes| ensures S.Dense(after, S.Nodes(sb, after)[j]) {
      DenseStays(disk, after, nodes, j);
    }
    assert F.Owned(sb, after, owner);
  }

  lemma DenseStays(disk: S.Image, after: S.Image, nodes: seq<S.Inode>, j: nat)
    requires j < |nodes| && 1 < |nodes| && SameShape(disk, after, nodes)
    requires S.Dense(disk, nodes[j]) && nodes[1].size % BSIZE != 0
    ensures S.Dense(after, nodes[1 := PaddedNode(nodes[1])][j]) == true
  {
    var node, node' := nodes[j], nodes[1 := PaddedNode(nodes[1])][j];
    if j == 1 {
      LastBlock(node.size);
    }
    forall bn | 0 <= bn < S.MAXFILE && bn * BSIZE < node'.size ensures S.Slot(after, node', S.FileSlot(bn)) != 0 {
      if j == 1 {
        InLastBlock(node.size, bn);
      }
      assert S.FileSlot(bn) < S.SLOTS;
      assert S.Slot(after, node', S.FileSlot(bn)) == S.Slot(after, node, S.FileSlot(bn));
    }
  }

  lemma LastBlock(size: nat)
    requires size % BSIZE != 0 && size <= S.MAXBYTES
    ensures size < WholeBlocks(size) <= S.MAXBYTES < UINT
  {
  }

  lemma InLastBlock(size: nat, bn: nat)
    requires size % BSIZE != 0 && bn * BSIZE < WholeBlocks(size)
    ensures bn * BSIZE < size
  {
    assert bn <= size / BSIZE;
  }

  lemma SizeDoesNotMatter(sb: S.Superblock, disk: S.Image, nodes: seq<S.Inode>, owner: S.Owner)
    requires S.Conserved(sb, disk, nodes, owner) && 1 < |nodes|
    ensures S.Conserved(sb, disk, nodes[1 := PaddedNode(nodes[1])], owner) == true
  {
    var nodes' := nodes[1 := PaddedNode(nodes[1])];
    forall j, t | 0 <= j < |nodes| && 0 <= t < S.SLOTS ensures S.SlotOwned(disk, nodes'[j], owner, j, t) {
      assert S.SlotOwned(disk, nodes[j], owner, j, t);
    }
    forall c | c in owner ensures S.OwnerOk(sb, disk, nodes', owner, c) {
      assert S.OwnerOk(sb, disk, nodes, owner, c);
    }
  }

  /** The zeros behind the last entry are empty entries. */
  lemma PaddedTable(disk: S.Image, after: S.Image, nodes: seq<S.Inode>)
    requires SameShape(disk, after, nodes) && S.AllDense(disk, nodes) && DirsOk(nodes) && IsDir(nodes, 1)
    requires Appended(disk, nodes[1]) && nodes[1].size % BSIZE != 0
    ensures var t, size := Table(disk, nodes), nodes[1].size;
      Table(after, nodes[1 := PaddedNode(nodes[1])])
        == t[1 := t[1].(dirents := t[1].dirents + seq((WholeBlocks(size) - size) / DSIZE, _ => L.Dirent(0, "")))]
  {
    var size, nodes' := nodes[1].size, nodes[1 := PaddedNode(nodes[1])];
    ShapeKeepsDense(disk, after, nodes);
    assert IsDir(nodes, 1) && S.Dense(disk, nodes[1]);
    PaddedContent(disk, after, nodes);
    ToTheEnd(size);
    EntriesPadded(S.Content(disk, nodes[1]), (WholeBlocks(size) - size) / DSIZE);
    forall j | 0 <= j < |nodes| && j != 1 ensures NodeOf(after, nodes'[j]) == NodeOf(disk, nodes[j]) {
    }
  }

  lemma ToTheEnd(size: nat)
    requires size % DSIZE == 0
    ensures DSIZE * ((WholeBlocks(size) - size) / DSIZE) == WholeBlocks(size) - size
  {
    assert WholeBlocks(size) == DSIZE * ((size / BSIZE + 1) * (BSIZE / DSIZE));
  }

  lemma PaddedContent(disk: S.Image, after: S.Image, nodes: seq<S.Inode>)
    requires 1 < |nodes| && SameShape(disk, after, nodes)
    requires Appended(disk, nodes[1]) && nodes[1].size <= S.MAXBYTES && nodes[1].size % BSIZE != 0
    ensures var node := nodes[1];
      S.Content(after, PaddedNode(node)) == S.Content(disk, node) + seq(WholeBlocks(node.size) - node.size, _ => 0)
  {
    var node := nodes[1];
    LastBlock(node.size);
    forall k | 0 <= k < WholeBlocks(node.size) ensures S.FileByte(after, PaddedNode(node), k) == S.FileByte(disk, node, k) {
      assert S.FileByte(after, PaddedNode(node), k) == S.FileByte(after, node, k);
    }
  }

  lemma EntriesPadded(content: seq<Byte>, n: nat)
    requires |content| % DSIZE == 0
    ensures Entries(content + seq(DSIZE * n, _ => 0)) == Entries(content) + seq(n, _ => L.Dirent(0, ""))
  {
    var more := content + seq(DSIZE * n, _ => 0);
    var m := |content| / DSIZE;
    assert |more| == DSIZE * (m + n);
    forall k | 0 <= k < m + n ensures Entries(more)[k] == if k < m then Entries(content)[k] else L.Dirent(0, "") {
      EntryAt(more, k);
      if k < m {
        assert more[DSIZE * k..DSIZE * k + DSIZE] == content[DSIZE * k..DSIZE * k + DSIZE];
      } else {
        ZerosAreEmpty(more[DSIZE * k..DSIZE * k + DSIZE]);
      }
    }
  }

  lemma ZerosAreEmpty(b: seq<Byte>)
    requires |b| == DSIZE && forall i :: 0 <= i < DSIZE ==> b[i] == 0
    ensures EntryOf(b) == L.Dirent(0, "")
  {
  }
}
