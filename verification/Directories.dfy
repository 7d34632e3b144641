/** Directories as the files that they are (fs.c, sysfile.c): an entry is 32 bytes of the file, and dirlookup, dirlink,
    create, link and unlink read and write those bytes. The table of inodes and entries that a file system spells out
    changes under them exactly as LinkCount has it. */
module Directories {
  import opened Basics
  import opened BlockData
  import S = FsState
  import opened Fs = FileSystem
  import L = LinkCount

  const DSIZE: nat := 32            // sizeof(struct dirent)

  // ---- entries as bytes

  /** The bytes up to the first zero, as strncmp sees them. */
  function CName(b: seq<Byte>): string {
    if b == [] || b[0] == 0 then "" else [b[0] as char] + CName(b[1..])
  }

  /** struct dirent: two bytes of inode number, then the name. */
  function EntryOf(b: seq<Byte>): L.Dirent
    requires |b| == DSIZE
  {
    var lo: int, hi: int := b[0], b[1];
    L.Dirent(lo + 0x100 * hi, CName(b[2..]))
  }

  /** A C string. */
  predicate IsName(name: string) {
    forall i :: 0 <= i < |name| ==> 0 < name[i] as int < 0x100
  }

  predicate Storable(de: L.Dirent) {
    de.inum < 0x1_0000 && IsName(de.name) && |de.name| <= L.DIRSIZ
  }

  /** strncpy pads with zeros. */
  function Padded(name: string): seq<Byte>
    requires IsName(name)
  {
    seq(|name|, i requires 0 <= i < |name| => name[i] as int) + seq(if |name| < L.DIRSIZ then L.DIRSIZ - |name| else 0, _ => 0)
  }

  function Encode(de: L.Dirent): (b: seq<Byte>)
    requires Storable(de)
    ensures |b| == DSIZE
  {
    [de.inum % 0x100, de.inum / 0x100] + Padded(de.name)
  }

  lemma {:induction false} NameOfPadded(b: seq<Byte>, name: string)
    requires IsName(name) && |name| <= |b| && (|name| < |b| ==> b[|name|] == 0)
    requires forall i :: 0 <= i < |name| ==> b[i] == name[i] as int
    ensures CName(b) == name
    decreases |name|
  {
    if name != "" {
      NameOfPadded(b[1..], name[1..]);
      assert name == [name[0]] + name[1..];
    }
  }

  lemma EntryOfEncode(de: L.Dirent)
    requires Storable(de)
    ensures EntryOf(Encode(de)) == de
  {
    assert Encode(de)[2..] == Padded(de.name);
    NameOfPadded(Padded(de.name), de.name);
  }

  lemma {:induction false} CNameIsName(b: seq<Byte>)
    ensures IsName(CName(b)) && |CName(b)| <= |b|
    decreases |b|
  {
    if b != [] && b[0] != 0 {
      CNameIsName(b[1..]);
    }
  }

  /** The entries that the bytes of a directory spell out. */
  function Entries(content: seq<Byte>): (ds: seq<L.Dirent>)
    ensures |ds| == |content| / DSIZE
  {
    seq(|content| / DSIZE, k requires 0 <= k < |content| / DSIZE => EntryOf(content[DSIZE * k..DSIZE * k + DSIZE]))
  }

  /** Writing one entry over another, or behind the last. */
  lemma EntriesSpliced(content: seq<Byte>, k: nat, b: seq<Byte>)
    requires |content| % DSIZE == 0 && k <= |content| / DSIZE && |b| == DSIZE
    ensures var ds, r := Entries(content), Entries(Spliced(content, DSIZE * k, b));
      r == if k < |ds| then ds[k := EntryOf(b)] else ds + [EntryOf(b)]
  {
    var n := |content| / DSIZE;
    var after := Spliced(content, DSIZE * k, b);
    assert |after| == DSIZE * if k < n then n else n + 1;
    forall m | 0 <= m < |after| / DSIZE
      ensures after[DSIZE * m..DSIZE * m + DSIZE] == if m == k then b else content[DSIZE * m..DSIZE * m + DSIZE]
    {
      SpliceSlice(content, k, b, m);
    }
  }

  lemma SpliceSlice(content: seq<Byte>, k: nat, b: seq<Byte>, m: nat)
    requires |content| % DSIZE == 0 && k <= |content| / DSIZE && |b| == DSIZE
    requires m < |Spliced(content, DSIZE * k, b)| / DSIZE
    ensures m != k ==> DSIZE * m + DSIZE <= |content|
    ensures Spliced(content, DSIZE * k, b)[DSIZE * m..DSIZE * m + DSIZE] == if m == k then b else content[DSIZE * m..DSIZE * m + DSIZE]
  {
    if m < k {
      assert DSIZE * m + DSIZE <= DSIZE * k;
    } else if m > k {
      assert DSIZE * k + DSIZE <= DSIZE * m;
    }
  }

  // ---- the table of a file system

  /** T_DIR, T_FILE and T_DEV are 1, 2 and 3. */
  function KindOf(kind: S.Short): L.Kind {
    if kind == 0 then L.Free else if kind == 1 then L.Dir else if kind == 2 then L.File else L.Dev
  }

  function NodeOf(disk: S.Image, node: S.Inode): L.Inode {
    L.Inode(KindOf(node.kind), node.nlink, if KindOf(node.kind) == L.Dir then Entries(S.Content(disk, node)) else [])
  }

  function Table(disk: S.Image, nodes: seq<S.Inode>): (t: L.Table)
    ensures |t| == |nodes|
  {
    seq(|nodes|, i requires 0 <= i < |nodes| => NodeOf(disk, nodes[i]))
  }

  predicate IsDir(nodes: seq<S.Inode>, i: nat) {
    i < |nodes| && KindOf(nodes[i].kind) == L.Dir
  }

  /** Directories are whole numbers of entries, and inode numbers fit an entry. */
  ghost predicate DirsOk(nodes: seq<S.Inode>) {
    |nodes| <= 0x1_0000 && forall i: nat :: IsDir(nodes, i) ==> nodes[i].size % DSIZE == 0
  }

  ghost predicate Ready(fs: FileSystem)
    reads fs
  {
    fs.Valid() && fs.InStep() && fs.Traced() && DirsOk(fs.inode)
  }

  /** Inode j, if it was in use, has its kind and its device numbers still; and if it is no directory, all it had but
      the number of its links, and every byte. */
  ghost predicate KeptAt(d0: S.Image, n0: seq<S.Inode>, disk: S.Image, nodes: seq<S.Inode>, j: nat)
    requires j < |n0| && j < |nodes|
  {
    n0[j].kind != 0 ==>
      && nodes[j].kind == n0[j].kind && nodes[j].major == n0[j].major && nodes[j].minor == n0[j].minor
      && (KindOf(n0[j].kind) != L.Dir ==>
            nodes[j] == n0[j].(nlink := nodes[j].nlink) && S.Content(disk, nodes[j]) == S.Content(d0, n0[j]))
  }

  ghost predicate FilesKept(d0: S.Image, n0: seq<S.Inode>, disk: S.Image, nodes: seq<S.Inode>) {
    |nodes| == |n0| && forall j :: 0 <= j < |n0| ==> KeptAt(d0, n0, disk, nodes, j)
  }

  lemma KeptThrough(d0: S.Image, n0: seq<S.Inode>, d1: S.Image, n1: seq<S.Inode>, disk: S.Image, nodes: seq<S.Inode>)
    requires FilesKept(d0, n0, d1, n1) == true && FilesKept(d1, n1, disk, nodes) == true
    ensures FilesKept(d0, n0, disk, nodes) == true
  {
    forall j | 0 <= j < |n0| ensures KeptAt(d0, n0, disk, nodes, j) {
      assert KeptAt(d0, n0, d1, n1, j) && KeptAt(d1, n1, disk, nodes, j);
    }
  }

  /** ds is what directory dp spells out. */
  ghost predicate Spells(fs: FileSystem, dp: nat, ds: seq<L.Dirent>)
    reads fs
  {
    && Ready(fs) && IsDir(fs.inode, dp) && fs.inode[dp].size == DSIZE * |ds| <= S.MAXBYTES
    && ds == Table(fs.disk, fs.inode)[dp].dirents
  }

  lemma SpellsIts(fs: FileSystem, dp: nat, ds: seq<L.Dirent>)
    requires Ready(fs) && IsDir(fs.inode, dp) && ds == Table(fs.disk, fs.inode)[dp].dirents
    ensures Spells(fs, dp, ds) == true
  {
    assert S.Dense(fs.disk, fs.inode[dp]);
  }

  lemma EntryAt(content: seq<Byte>, k: nat)
    requires k < |Entries(content)|
    ensures DSIZE * k + DSIZE <= |content| && Entries(content)[k] == EntryOf(content[DSIZE * k..DSIZE * k + DSIZE])
  {
  }

  /** readi of one entry. */
  method ReadEntry(fs: FileSystem, dp: nat, off: nat, ghost ds: seq<L.Dirent>, ghost k: nat) returns (de: L.Dirent)
    requires Spells(fs, dp, ds) && off == DSIZE * k && k < |ds|
    modifies fs
    ensures unchanged(fs) && de == ds[k]
  {
    EntryAt(S.Content(fs.disk, fs.inode[dp]), k);
    var b := fs.Readi(dp, off, DSIZE);
    de := EntryOf(b.value);
  }

  // ---- dirlookup, isdirempty and dirlink

  method Dirlookup(fs: FileSystem, dp: nat, name: string, ghost ds: seq<L.Dirent>) returns (r: Option<nat>, off: nat)
    requires Spells(fs, dp, ds) == true
    modifies fs
    ensures unchanged(fs)
    ensures var k := L.Lookup(ds, name, 0); off == DSIZE * k && r == if k < |ds| then Some(ds[k].inum) else None
  {
    var size := fs.inode[dp].size;
    ghost var k := 0;
    off := 0;
    while off < size
      invariant unchanged(fs) && off == DSIZE * k && k <= |ds|
      invariant L.Lookup(ds, name, k) == L.Lookup(ds, name, 0)
      decreases |ds| - k
    {
      var de := ReadEntry(fs, dp, off, ds, k);
      if de.inum != 0 {
        if L.Trunc(name) == L.Trunc(de.name) {
          return Some(de.inum), off;
        }
      }
      off, k := off + DSIZE, k + 1;
    }
    r := None;
  }

  method Isdirempty(fs: FileSystem, dp: nat, ghost ds: seq<L.Dirent>) returns (b: bool)
    requires Spells(fs, dp, ds) == true
    modifies fs
    ensures unchanged(fs) && b == L.DotsOnly(ds)
  {
    var size := fs.inode[dp].size;
    var off := 2 * DSIZE;
    ghost var n := 2;
    while off < size
      invariant unchanged(fs) && off == DSIZE * n
      invariant forall k :: 2 <= k < n && k < |ds| ==> ds[k].inum == 0
      decreases |ds| - n
    {
      var de := ReadEntry(fs, dp, off, ds, n);
      if de.inum != 0 {
        return false;
      }
      off, n := off + DSIZE, n + 1;
    }
    return true;
  }

  /** The loop of dirlink that looks for an empty entry. */
  method FindVacant(fs: FileSystem, dp: nat, ghost ds: seq<L.Dirent>) returns (off: nat)
    requires Spells(fs, dp, ds) == true
    modifies fs
    ensures unchanged(fs) && off == DSIZE * L.Vacant(ds, 0)
  {
    var size := fs.inode[dp].size;
    ghost var k := 0;
    off := 0;
    while off < size
      invariant unchanged(fs) && off == DSIZE * k && k <= |ds|
      invariant L.Vacant(ds, k) == L.Vacant(ds, 0)
      decreases |ds| - k
    {
      var de := ReadEntry(fs, dp, off, ds, k);
      if de.inum == 0 {
        return;
      }
      off, k := off + DSIZE, k + 1;
    }
  }

  /** How a call ends: it returns, or it panics for want of a block, of room in the directory, of a link, of a type in
      the inode that an entry names, or of a free inode. */
  datatype End = Returns | NoBlock | NoRoom | NoLink | NoType | NoInode

  /** ds with de written over entry k, or behind the last. */
  function Put(ds: seq<L.Dirent>, k: nat, de: L.Dirent): seq<L.Dirent> {
    if k < |ds| then ds[k := de] else ds + [de]
  }

  /** writei of one entry. */
  method WriteEntry(fs: FileSystem, dp: nat, off: nat, de: L.Dirent, ghost ds: seq<L.Dirent>, ghost k: nat) returns (e: End)
    requires Spells(fs, dp, ds) && off == DSIZE * k && k <= |ds| && Storable(de)
    modifies fs
    ensures fs.base == old(fs.base)
    ensures e == Returns ==> FilesKept(old(fs.disk), old(fs.inode), fs.disk, fs.inode) == true
    ensures e == Returns || e == NoBlock || e == NoRoom
    ensures e == NoBlock ==> fs.DiskFull()
    ensures e == NoRoom <==> off + DSIZE > S.MAXBYTES
    ensures e == Returns ==> Ready(fs)
    ensures e == Returns ==>
      Table(fs.disk, fs.inode) == old(Table(fs.disk, fs.inode))[dp := old(Table(fs.disk, fs.inode))[dp].(dirents := Put(ds, k, de))]
  {
    ghost var d0, n0 := fs.disk, fs.inode;
    var w := fs.Writei(dp, Encode(de), off);
    e := if w.Refused? then NoRoom else if w.OutOfBlocks? then NoBlock else Returns;
    if e == Returns {
      EntryWritten(d0, n0, fs.disk, fs.inode, dp, off, de, ds, k);
    }
  }

  lemma EntryWritten(d0: S.Image, n0: seq<S.Inode>, disk: S.Image, nodes: seq<S.Inode>, dp: nat, off: nat, de: L.Dirent,
                     ds: seq<L.Dirent>, k: nat)
    requires DirsOk(n0) && IsDir(n0, dp) && off == DSIZE * k <= n0[dp].size && Storable(de)
    requires ds == Table(d0, n0)[dp].dirents && |nodes| == |n0| && SameLabels(n0[dp], nodes[dp])
    requires S.Content(disk, nodes[dp]) == Spliced(S.Content(d0, n0[dp]), off, Encode(de))
    requires forall j :: 0 <= j < |n0| && j != dp ==> nodes[j] == n0[j] && S.Content(disk, nodes[j]) == S.Content(d0, n0[j])
    ensures DirsOk(nodes)
    ensures Table(disk, nodes) == Table(d0, n0)[dp := Table(d0, n0)[dp].(dirents := Put(ds, k, de))]
  {
    PutSpliced(S.Content(d0, n0[dp]), k, de);
    assert nodes[dp].size == |S.Content(disk, nodes[dp])|;
    forall j | 0 <= j < |n0| && j != dp ensures NodeOf(disk, nodes[j]) == NodeOf(d0, n0[j]) {
    }
  }

  lemma PutSpliced(content: seq<Byte>, k: nat, de: L.Dirent)
    requires Storable(de) && |content| % DSIZE == 0 && DSIZE * k <= |content|
    ensures Entries(Spliced(content, DSIZE * k, Encode(de))) == Put(Entries(content), k, de)
    ensures |Spliced(content, DSIZE * k, Encode(de))| % DSIZE == 0
  {
    EntryOfEncode(de);
    EntriesSpliced(content, k, Encode(de));
    if DSIZE * k == |content| {
      assert |Spliced(content, DSIZE * k, Encode(de))| == DSIZE * (k + 1);
    }
  }

  method Dirlink(fs: FileSystem, dp: nat, name: string, inum: nat, ghost ds: seq<L.Dirent>) returns (r: int, e: End)
    requires Spells(fs, dp, ds) == true && IsName(name) && inum < 0x1_0000
    modifies fs
    ensures fs.base == old(fs.base)
    ensures e == Returns ==> FilesKept(old(fs.disk), old(fs.inode), fs.disk, fs.inode) == true
    ensures e == Returns || e == NoBlock || e == NoRoom
    ensures e == NoBlock ==> fs.DiskFull()
    ensures e == NoRoom ==> DSIZE * |ds| + DSIZE > S.MAXBYTES
    ensures e == Returns ==> Ready(fs)
    ensures e == Returns ==>
      if L.Lookup(ds, name, 0) < |ds| then r == -1 && unchanged(fs)
      else r == 0 && Entered(old(Table(fs.disk, fs.inode)), Table(fs.disk, fs.inode), dp, name, inum) == true
  {
    var there, _ := Dirlookup(fs, dp, name, ds);
    if there.Some? {
      return -1, Returns;
    }
    var off := FindVacant(fs, dp, ds);
    e := WriteEntry(fs, dp, off, L.Dirent(inum, L.Trunc(name)), ds, L.Vacant(ds, 0));
    r := 0;
  }

  /** From t to u directory dp has got an entry. */
  ghost predicate Entered(t: L.Table, u: L.Table, dp: nat, name: string, inum: nat) {
    dp < |t| && u == t[dp := t[dp].(dirents := L.Entered(t[dp].dirents, name, inum))]
  }

  // ---- inodes

  function ShortOf(kind: L.Kind): S.Short {
    match kind case Free => 0 case Dir => 1 case File => 2 case Dev => 3
  }

  /** ialloc */
  method Alloc(fs: FileSystem, kind: L.Kind) returns (ip: Option<nat>)
    requires Ready(fs) && kind != L.Free
    modifies fs
    ensures fs.base == old(fs.base)
    ensures FilesKept(old(fs.disk), old(fs.inode), fs.disk, fs.inode) == true
    ensures Ready(fs)
    ensures var t := old(Table(fs.disk, fs.inode));
      Allocated(t, Table(fs.disk, fs.inode), kind, 0, ip) == true && (ip.Some? ==> fs.inode[ip.value] == Fresh(ShortOf(kind)))
    ensures ip.Some? ==> old(fs.inode)[ip.value].kind == 0
  {
    ghost var d0, n0 := fs.disk, fs.inode;
    ip := fs.Ialloc(ShortOf(kind));
    if ip.Some? {
      InodeMade(d0, n0, fs.disk, fs.inode, ip.value, kind);
      NewKeepsFiles(d0, n0, fs.disk, fs.inode, ip.value);
    } else {
      FreeInodeIs(d0, n0, |n0|);
    }
  }

  lemma NewKeepsFiles(d0: S.Image, n0: seq<S.Inode>, disk: S.Image, nodes: seq<S.Inode>, i: nat)
    requires i < |n0| == |nodes| && n0[i].kind == 0
    requires forall j :: 0 <= j < |n0| && j != i ==> nodes[j] == n0[j] && S.Content(disk, nodes[j]) == S.Content(d0, n0[j])
    ensures FilesKept(d0, n0, disk, nodes) == true
  {
  }

  /** From t to u the first free inode has been taken, or there was none. */
  ghost predicate Allocated(t: L.Table, u: L.Table, kind: L.Kind, nlink: L.Short, ip: Option<nat>) {
    && 0 < |t| == |u| && var f := L.FreeInode(t, 1);
    && ip == (if f < |t| then Some(f) else None)
    && u == if f < |t| then t[f := L.Inode(kind, nlink, [])] else t
  }

  /** ialloc, and what create stores in the inode next: its device numbers and one link. */
  method NewInode(fs: FileSystem, kind: L.Kind, major: S.Short, minor: S.Short) returns (ip: Option<nat>)
    requires Ready(fs) && kind != L.Free
    modifies fs
    ensures fs.base == old(fs.base)
    ensures FilesKept(old(fs.disk), old(fs.inode), fs.disk, fs.inode) == true
    ensures Ready(fs)
    ensures Allocated(old(Table(fs.disk, fs.inode)), Table(fs.disk, fs.inode), kind, 1, ip) == true
    ensures ip.Some? ==> IsMade(fs.inode, ip.value, kind, major, minor) == true
  {
    ghost var t, d0, n0 := Table(fs.disk, fs.inode), fs.disk, fs.inode;
    ip := Alloc(fs, kind);
    if ip.Some? {
      ghost var u, d1, n1 := Table(fs.disk, fs.inode), fs.disk, fs.inode;
      Label(fs, ip.value, major, minor);
      LinkedOnce(t, u, kind, ip.value);
      NewIsMade(d0, n0, d1, n1, fs.disk, fs.inode, ip.value, kind, major, minor);
    }
  }

  /** Inode i has the given type and device numbers, and is empty if it is no directory. */
  predicate IsMade(nodes: seq<S.Inode>, i: nat, kind: L.Kind, major: S.Short, minor: S.Short) {
    && i < |nodes| && nodes[i].kind == ShortOf(kind) && nodes[i].major == major && nodes[i].minor == minor
    && (kind != L.Dir ==> nodes[i].size == 0)
  }

  lemma NewIsMade(d0: S.Image, n0: seq<S.Inode>, d1: S.Image, n1: seq<S.Inode>, disk: S.Image, nodes: seq<S.Inode>,
                  i: nat, kind: L.Kind, major: S.Short, minor: S.Short)
    requires FilesKept(d0, n0, d1, n1) && i < |n1| && n0[i].kind == 0 && n1[i] == Fresh(ShortOf(kind))
    requires Labeled(d1, n1, disk, nodes, i, major, minor)
    ensures IsMade(nodes, i, kind, major, minor) == true && FilesKept(d0, n0, disk, nodes) == true
  {
    forall j | 0 <= j < |n0| ensures KeptAt(d0, n0, disk, nodes, j) {
      assert KeptAt(d0, n0, d1, n1, j);
    }
  }

  lemma MadeStays(d0: S.Image, n0: seq<S.Inode>, disk: S.Image, nodes: seq<S.Inode>,
                  i: nat, kind: L.Kind, major: S.Short, minor: S.Short)
    requires IsMade(n0, i, kind, major, minor) && FilesKept(d0, n0, disk, nodes) && kind != L.Free
    ensures IsMade(nodes, i, kind, major, minor) == true
  {
    assert KeptAt(d0, n0, disk, nodes, i);
  }

  ghost predicate Labeled(d0: S.Image, n0: seq<S.Inode>, disk: S.Image, nodes: seq<S.Inode>, i: nat, major: S.Short, minor: S.Short) {
    && i < |n0| && nodes == n0[i := n0[i].(major := major, minor := minor, nlink := 1)]
    && forall j :: 0 <= j < |n0| ==> S.Content(disk, nodes[j]) == S.Content(d0, n0[j])
  }

  /** ip->major = major; ip->minor = minor; ip->nlink = 1; iupdate(ip) */
  method Label(fs: FileSystem, i: nat, major: S.Short, minor: S.Short)
    requires Ready(fs) && i < |fs.inode| && fs.inode[i].kind != 0
    modifies fs
    ensures fs.base == old(fs.base)
    ensures Labeled(old(fs.disk), old(fs.inode), fs.disk, fs.inode, i, major, minor) == true
    ensures Ready(fs) && |fs.inode| == |old(fs.inode)|
    ensures var t := old(Table(fs.disk, fs.inode)); Table(fs.disk, fs.inode) == t[i := t[i].(nlink := 1)]
  {
    ghost var d0, n0 := fs.disk, fs.inode;
    fs.StoreNode(i, fs.inode[i].(major := major, minor := minor, nlink := 1));
    LabelStored(d0, n0, fs.disk, fs.inode, i, 1);
  }

  lemma LinkedOnce(t: L.Table, u: L.Table, kind: L.Kind, i: nat)
    requires Allocated(t, u, kind, 0, Some(i))
    ensures i < |u| && Allocated(t, u[i := u[i].(nlink := 1)], kind, 1, Some(i)) == true
  {
  }

  lemma FreeInodeIs(disk: S.Image, nodes: seq<S.Inode>, f: nat)
    requires 0 < |nodes| && 1 <= f <= |nodes| && (f < |nodes| ==> nodes[f].kind == 0)
    requires forall j :: 1 <= j < f ==> nodes[j].kind != 0
    ensures L.FreeInode(Table(disk, nodes), 1) == f
  {
    var t := Table(disk, nodes);
    assert forall j :: 0 <= j < |t| ==> (t[j].kind == L.Free <==> nodes[j].kind == 0);
  }

  lemma InodeMade(d0: S.Image, n0: seq<S.Inode>, disk: S.Image, nodes: seq<S.Inode>, i: nat, kind: L.Kind)
    requires DirsOk(n0) && i < |n0| && nodes == n0[i := Fresh(ShortOf(kind))]
    requires forall j :: 0 <= j < |n0| ==> S.Content(disk, nodes[j]) == if j == i then [] else S.Content(d0, n0[j])
    requires 1 <= i && n0[i].kind == 0 && kind != L.Free && forall j :: 1 <= j < i ==> n0[j].kind != 0
    ensures DirsOk(nodes) == true && Allocated(Table(d0, n0), Table(disk, nodes), kind, 0, Some(i)) == true
  {
    FreeInodeIs(d0, n0, i);
    TableMade(d0, n0, disk, nodes, i, kind);
  }

  lemma TableMade(d0: S.Image, n0: seq<S.Inode>, disk: S.Image, nodes: seq<S.Inode>, i: nat, kind: L.Kind)
    requires DirsOk(n0) && i < |n0| && nodes == n0[i := Fresh(ShortOf(kind))]
    requires forall j :: 0 <= j < |n0| ==> S.Content(disk, nodes[j]) == if j == i then [] else S.Content(d0, n0[j])
    ensures DirsOk(nodes) == true && Table(disk, nodes) == Table(d0, n0)[i := L.Inode(kind, 0, [])]
  {
  }

  lemma LabelStored(d0: S.Image, n0: seq<S.Inode>, disk: S.Image, nodes: seq<S.Inode>, i: nat, n: S.Short)
    requires DirsOk(n0) && i < |n0| && |nodes| == |n0| && forall j :: 0 <= j < |n0| && j != i ==> nodes[j] == n0[j]
    requires nodes[i].kind == n0[i].kind && nodes[i].size == n0[i].size && nodes[i].nlink == n
    requires forall j :: 0 <= j < |n0| ==> S.Content(disk, nodes[j]) == S.Content(d0, n0[j])
    ensures DirsOk(nodes) && Table(disk, nodes) == Table(d0, n0)[i := Table(d0, n0)[i].(nlink := n)]
  {
  }

  /** ip->nlink = n; iupdate(ip) */
  method SetLinks(fs: FileSystem, i: nat, n: S.Short)
    requires Ready(fs) && i < |fs.inode| && fs.inode[i].kind != 0
    modifies fs
    ensures fs.base == old(fs.base)
    ensures FilesKept(old(fs.disk), old(fs.inode), fs.disk, fs.inode) == true
    ensures Ready(fs) && |fs.inode| == |old(fs.inode)|
    ensures var t := old(Table(fs.disk, fs.inode)); Table(fs.disk, fs.inode) == t[i := t[i].(nlink := n)]
  {
    ghost var d0, n0 := fs.disk, fs.inode;
    fs.SetNlink(i, n);
    LabelStored(d0, n0, fs.disk, fs.inode, i, n);
  }

  /** iput, for one of ref references. */
  method Drop(fs: FileSystem, i: nat, ref: nat) returns (left: nat)
    requires Ready(fs) && i < |fs.inode| && fs.inode[i].kind != 0 && 0 < ref
    modifies fs
    ensures fs.base == old(fs.base)
    ensures Ready(fs) && left == ref - 1
    ensures var t := old(Table(fs.disk, fs.inode));
      Table(fs.disk, fs.inode) == if t[i].nlink == 0 && ref == 1 then L.Reap(t, i) else t
    ensures |fs.inode| == |old(fs.inode)|
    ensures forall j :: 0 <= j < |fs.inode| && j != i ==> KeptAt(old(fs.disk), old(fs.inode), fs.disk, fs.inode, j)
    ensures !(old(fs.inode)[i].nlink == 0 && ref == 1) ==> unchanged(fs)
  {
    ghost var d0, n0 := fs.disk, fs.inode;
    left := fs.Iput(i, ref);
    if n0[i].nlink == 0 && ref == 1 {
      InodeReaped(d0, n0, fs.disk, fs.inode, i);
    }
  }

  lemma InodeReaped(d0: S.Image, n0: seq<S.Inode>, disk: S.Image, nodes: seq<S.Inode>, i: nat)
    requires DirsOk(n0) && i < |n0| && |nodes| == |n0| && forall j :: 0 <= j < |n0| && j != i ==> nodes[j] == n0[j]
    requires nodes[i].kind == 0 && nodes[i].nlink == n0[i].nlink
    requires forall j :: 0 <= j < |n0| && j != i ==> S.Content(disk, nodes[j]) == S.Content(d0, n0[j])
    ensures DirsOk(nodes) && Table(disk, nodes) == L.Reap(Table(d0, n0), i)
  {
  }

  // ---- create, link and unlink

  /** The entry that dirlookup finds for name, if it finds one, has the number of an inode. */
  ghost predicate FindsInode(t: L.Table, dp: nat, name: string) {
    dp < |t| && var ds := t[dp].dirents; var k := L.Lookup(ds, name, 0); k < |ds| ==> ds[k].inum < |t|
  }

  /** The inode that it finds. */
  ghost predicate Finds(t: L.Table, dp: nat, name: string, ip: nat) {
    dp < |t| && var ds := t[dp].dirents; var k := L.Lookup(ds, name, 0); k < |ds| && ds[k].inum == ip < |t|
  }

  /** It finds a free inode, or one without links. */
  ghost predicate FindsFree(t: L.Table, dp: nat, name: string) {
    exists ip: nat :: Finds(t, dp, name, ip) && t[ip].kind == L.Free
  }

  ghost predicate FindsUnlinked(t: L.Table, dp: nat, name: string) {
    exists ip: nat :: Finds(t, dp, name, ip) && t[ip].nlink < 1
  }

  /** dirlink(ip, ".", ip->inum) and dirlink(ip, "..", dp->inum) in a new directory. */
  method LinkDots(fs: FileSystem, ip: nat, dp: nat) returns (e: End)
    requires Spells(fs, ip, []) && 0 < ip && dp < 0x1_0000
    modifies fs
    ensures fs.base == old(fs.base)
    ensures e == Returns ==> FilesKept(old(fs.disk), old(fs.inode), fs.disk, fs.inode) == true
    ensures e == Returns || e == NoBlock
    ensures e == NoBlock ==> fs.DiskFull()
    ensures e == Returns ==> Ready(fs) && |fs.inode| == |old(fs.inode)|
    ensures e == Returns ==>
      var t := old(Table(fs.disk, fs.inode)); Table(fs.disk, fs.inode) == t[ip := t[ip].(dirents := L.Dots(ip, dp))]
  {
    ghost var t, d0, n0 := Table(fs.disk, fs.inode), fs.disk, fs.inode;
    var r;
    r, e := Dirlink(fs, ip, ".", ip, []);
    if e != Returns {
      return;
    }
    ghost var one, d1, n1 := [L.Dirent(ip, ".")], fs.disk, fs.inode;
    SpellsDir(fs, ip, one);
    r, e := Dirlink(fs, ip, "..", dp, one);
    if e == Returns {
      KeptThrough(d0, n0, d1, n1, fs.disk, fs.inode);
      DotsMade(t, Table(fs.disk, fs.inode), ip, dp);
    }
  }

  lemma SpellsDir(fs: FileSystem, dp: nat, ds: seq<L.Dirent>)
    requires Ready(fs) && dp < |fs.inode| && Table(fs.disk, fs.inode)[dp].kind == L.Dir
    requires ds == Table(fs.disk, fs.inode)[dp].dirents
    ensures Spells(fs, dp, ds) == true
  {
    SpellsIts(fs, dp, ds);
  }

  lemma DotsMade(t: L.Table, u: L.Table, ip: nat, dp: nat)
    requires 0 < ip < |t| && t[ip].dirents == []
    requires var one := t[ip := t[ip].(dirents := [L.Dirent(ip, ".")])]; Entered(one, u, ip, "..", dp)
    ensures u == t[ip := t[ip].(dirents := L.Dots(ip, dp))]
  {
    var one := [L.Dirent(ip, ".")];
    assert L.Vacant(one, 0) == 1 && L.Trunc("..") == "..";
    assert L.Entered(one, "..", dp) == one + [L.Dirent(dp, "..")] == L.Dots(ip, dp);
  }

  /** The number in the first entry of that name that the bytes of directory dp spell out. */
  function FindsNumber(disk: S.Image, nodes: seq<S.Inode>, dp: nat, name: string): (r: Option<nat>)
    requires dp < |nodes|
    ensures var ds := Entries(S.Content(disk, nodes[dp]));
      r == None <==> forall k :: 0 <= k < |ds| ==> !L.Holds(ds[k], name)
    ensures var ds := Entries(S.Content(disk, nodes[dp]));
      r.Some? ==> exists k: nat :: L.FirstNamed(ds, name, k) && r.value == ds[k].inum
  {
    var ds := Entries(S.Content(disk, nodes[dp]));
    var k := L.Lookup(ds, name, 0);
    if k < |ds| then assert L.FirstNamed(ds, name, k); Some(ds[k].inum) else None
  }

  lemma OldAnswers(disk: S.Image, nodes: seq<S.Inode>, dp: nat, name: string, kind: L.Kind)
    requires IsDir(nodes, dp) && kind != L.Free
    ensures FindsNumber(disk, nodes, dp, name).Some? ==>
      L.Create(Table(disk, nodes), dp, name, kind) ==
        (Table(disk, nodes), var i := FindsNumber(disk, nodes, dp, name).value;
                             if kind == L.File && i < |nodes| && nodes[i].kind == 2 then L.Existing(i) else L.Failed)
  {
    var t, ds := Table(disk, nodes), Entries(S.Content(disk, nodes[dp]));
    var k := L.Lookup(ds, name, 0);
    if k < |ds| {
      L.CreateOfOld(t, dp, name, kind, k);
    }
  }

  /** create, given the directory and the last element of the path. */
  method Create(fs: FileSystem, dp: nat, name: string, kind: L.Kind, major: S.Short, minor: S.Short)
    returns (r: L.Result, e: End)
    requires Ready(fs) && IsDir(fs.inode, dp) && IsName(name) && kind != L.Free
    requires FindsInode(Table(fs.disk, fs.inode), dp, name)
    modifies fs
    ensures fs.base == old(fs.base)
    ensures e == Returns ==> FilesKept(old(fs.disk), old(fs.inode), fs.disk, fs.inode) == true
    ensures e == NoBlock ==> fs.DiskFull()
    ensures e == NoRoom ==> DSIZE * |old(Table(fs.disk, fs.inode))[dp].dirents| + DSIZE > S.MAXBYTES
    ensures e == NoType ==> FindsFree(old(Table(fs.disk, fs.inode)), dp, name)
    ensures e != NoLink && e != NoInode
    ensures e == Returns ==> Ready(fs) && (Table(fs.disk, fs.inode), r) == L.Create(old(Table(fs.disk, fs.inode)), dp, name, kind)
    ensures e == Returns && r.Made? ==> IsMade(fs.inode, r.inum, kind, major, minor) == true
    ensures e == Returns && FindsNumber(old(fs.disk), old(fs.inode), dp, name).Some? ==>
      && Table(fs.disk, fs.inode) == old(Table(fs.disk, fs.inode))
      && r == var i := FindsNumber(old(fs.disk), old(fs.inode), dp, name).value;
              if kind == L.File && i < |old(fs.inode)| && old(fs.inode)[i].kind == 2 then L.Existing(i) else L.Failed
  {
    ghost var t := Table(fs.disk, fs.inode);
    OldAnswers(fs.disk, fs.inode, dp, name, kind);
    SpellsIts(fs, dp, t[dp].dirents);
    var there, _ := Dirlookup(fs, dp, name, t[dp].dirents);
    if there.Some? {
      r, e := OpenOld(fs, dp, name, kind, there.value, t);
    } else {
      r, e := MakeIn(fs, dp, name, kind, major, minor, t);
    }
  }

  /** The name is there. */
  method OpenOld(fs: FileSystem, dp: nat, name: string, kind: L.Kind, ip: nat, ghost t: L.Table) returns (r: L.Result, e: End)
    requires Ready(fs) && t == Table(fs.disk, fs.inode) && Finds(t, dp, name, ip) && t[dp].kind == L.Dir && kind != L.Free
    ensures e == if t[ip].kind == L.Free then NoType else Returns
    ensures (t, r) == L.Create(t, dp, name, kind)
  {
    if fs.inode[ip].kind == 0 {
      return L.Failed, NoType;
    }
    r := if kind == L.File && fs.inode[ip].kind == 2 then L.Existing(ip) else L.Failed;
    e := Returns;
  }

  /** The name is new. */
  method MakeIn(fs: FileSystem, dp: nat, name: string, kind: L.Kind, major: S.Short, minor: S.Short, ghost t: L.Table)
    returns (r: L.Result, e: End)
    requires Ready(fs) && IsDir(fs.inode, dp) && IsName(name) && kind != L.Free && t == Table(fs.disk, fs.inode)
    requires L.Lookup(t[dp].dirents, name, 0) == |t[dp].dirents|
    modifies fs
    ensures fs.base == old(fs.base)
    ensures e == Returns ==> FilesKept(old(fs.disk), old(fs.inode), fs.disk, fs.inode) == true
    ensures e == Returns || e == NoBlock || e == NoRoom
    ensures e == NoBlock ==> fs.DiskFull()
    ensures e == NoRoom ==> DSIZE * |t[dp].dirents| + DSIZE > S.MAXBYTES
    ensures e == Returns ==> Ready(fs) && (Table(fs.disk, fs.inode), r) == L.Create(t, dp, name, kind)
    ensures e == Returns && r.Made? ==> IsMade(fs.inode, r.inum, kind, major, minor) == true
  {
    ghost var d0, n0 := fs.disk, fs.inode;
    var ip := NewInode(fs, kind, major, minor);
    if ip.None? {
      return L.NoInodes, Returns;
    }
    ghost var d1, n1 := fs.disk, fs.inode;
    e := Hang(fs, dp, name, kind, ip.value, t);
    r := L.Made(ip.value);
    if e == Returns {
      KeptThrough(d0, n0, d1, n1, fs.disk, fs.inode);
      MadeStays(d1, n1, fs.disk, fs.inode, ip.value, kind, major, minor);
    }
  }

  /** The rest of create, when the new inode ip has been made of t. */
  method Hang(fs: FileSystem, dp: nat, name: string, kind: L.Kind, ip: nat, ghost t: L.Table) returns (e: End)
    requires Ready(fs) && dp < |t| && t[dp].kind == L.Dir && IsName(name) && kind != L.Free
    requires 0 < ip < |t| <= 0x1_0000 && t[ip].kind == L.Free
    requires Table(fs.disk, fs.inode) == t[ip := L.Inode(kind, 1, [])]
    requires L.Lookup(t[dp].dirents, name, 0) == |t[dp].dirents|
    modifies fs
    ensures fs.base == old(fs.base)
    ensures e == Returns ==> FilesKept(old(fs.disk), old(fs.inode), fs.disk, fs.inode) == true
    ensures e == NoBlock ==> fs.DiskFull()
    ensures e == NoRoom ==> DSIZE * |t[dp].dirents| + DSIZE > S.MAXBYTES
    ensures e == Returns || e == NoBlock || e == NoRoom
    ensures e == Returns ==> Ready(fs) && Table(fs.disk, fs.inode) == L.WithNew(t, dp, name, kind, ip)
  {
    ghost var d0, n0 := fs.disk, fs.inode;
    if kind == L.Dir {
      e := HangDots(fs, dp, ip, t);
      if e != Returns {
        return;
      }
    }
    ghost var u, d1, n1 := Table(fs.disk, fs.inode), fs.disk, fs.inode;
    SpellsDir(fs, dp, t[dp].dirents);
    var r;
    r, e := Dirlink(fs, dp, name, ip, t[dp].dirents);
    if e == Returns {
      KeptThrough(d0, n0, d1, n1, fs.disk, fs.inode);
    }
  }

  /** What create does besides when it makes a directory. */
  method HangDots(fs: FileSystem, dp: nat, ip: nat, ghost t: L.Table) returns (e: End)
    requires Ready(fs) && dp < |t| && t[dp].kind == L.Dir && 0 < ip < |t| <= 0x1_0000 && t[ip].kind == L.Free
    requires Table(fs.disk, fs.inode) == t[ip := L.Inode(L.Dir, 1, [])]
    modifies fs
    ensures fs.base == old(fs.base)
    ensures e == Returns ==> FilesKept(old(fs.disk), old(fs.inode), fs.disk, fs.inode) == true
    ensures e == Returns || e == NoBlock
    ensures e == NoBlock ==> fs.DiskFull()
    ensures e == Returns ==> Ready(fs)
    ensures e == Returns ==>
      Table(fs.disk, fs.inode) == t[ip := L.Inode(L.Dir, 1, L.Dots(ip, dp))][dp := t[dp].(nlink := L.Inc(t[dp].nlink))]
  {
    ghost var d0, n0 := fs.disk, fs.inode;
    assert Table(fs.disk, fs.inode)[dp] == t[dp];
    SetLinks(fs, dp, L.Inc(fs.inode[dp].nlink));
    ghost var d1, n1 := fs.disk, fs.inode;
    SpellsDir(fs, ip, []);
    e := LinkDots(fs, ip, dp);
    if e == Returns {
      KeptThrough(d0, n0, d1, n1, fs.disk, fs.inode);
    }
  }

  /** sys_link, given the inode, the new directory and the new name. */
  method Link(fs: FileSystem, ip: nat, dp: nat, name: string) returns (r: L.Result, e: End)
    requires Ready(fs) && IsDir(fs.inode, dp) && IsName(name) && ip < |fs.inode| && fs.inode[ip].kind != 0
    modifies fs
    ensures fs.base == old(fs.base)
    ensures e == Returns ==> FilesKept(old(fs.disk), old(fs.inode), fs.disk, fs.inode) == true
    ensures e == NoBlock ==> fs.DiskFull()
    ensures e == NoRoom ==> DSIZE * |old(Table(fs.disk, fs.inode))[dp].dirents| + DSIZE > S.MAXBYTES
    ensures e == Returns || e == NoBlock || e == NoRoom
    ensures e == Returns ==> Ready(fs) && (Table(fs.disk, fs.inode), r) == L.Link(old(Table(fs.disk, fs.inode)), ip, dp, name)
  {
    ghost var t := Table(fs.disk, fs.inode);
    if fs.inode[ip].kind == 1 {
      return L.Failed, Returns;
    }
    r, e := Enter(fs, ip, dp, name, t);
  }

  /** ip is no directory. */
  method Enter(fs: FileSystem, ip: nat, dp: nat, name: string, ghost t: L.Table) returns (r: L.Result, e: End)
    requires Ready(fs) && dp < |t| && ip < |t| && t[dp].kind == L.Dir && IsName(name) && t[ip].kind != L.Free
    requires t == Table(fs.disk, fs.inode) && t[ip].kind != L.Dir
    modifies fs
    ensures fs.base == old(fs.base)
    ensures e == Returns ==> FilesKept(old(fs.disk), old(fs.inode), fs.disk, fs.inode) == true
    ensures e == Returns || e == NoBlock || e == NoRoom
    ensures e == NoBlock ==> fs.DiskFull()
    ensures e == NoRoom ==> DSIZE * |t[dp].dirents| + DSIZE > S.MAXBYTES
    ensures e == Returns ==> Ready(fs) && (Table(fs.disk, fs.inode), r) == L.Link(t, ip, dp, name)
  {
    ghost var d0, n0 := fs.disk, fs.inode;
    SetLinks(fs, ip, L.Inc(fs.inode[ip].nlink));
    ghost var d1, n1 := fs.disk, fs.inode;
    SpellsDir(fs, dp, t[dp].dirents);
    var x;
    x, e := Dirlink(fs, dp, name, ip, t[dp].dirents);
    if e == Returns && x < 0 {
      TakeBack(fs, ip, t);
    }
    r := if x < 0 then L.Failed else L.Done;
    if e == Returns {
      KeptThrough(d0, n0, d1, n1, fs.disk, fs.inode);
    }
  }

  /** The link count again as it was. */
  method TakeBack(fs: FileSystem, ip: nat, ghost t: L.Table)
    requires Ready(fs) && ip < |t| && t[ip].kind != L.Free && Table(fs.disk, fs.inode) == t[ip := t[ip].(nlink := L.Inc(t[ip].nlink))]
    modifies fs
    ensures fs.base == old(fs.base)
    ensures FilesKept(old(fs.disk), old(fs.inode), fs.disk, fs.inode) == true
    ensures Ready(fs) && Table(fs.disk, fs.inode) == t
  {
    TakeLink(fs, ip, t[ip := t[ip].(nlink := L.Inc(t[ip].nlink))]);
    assert Table(fs.disk, fs.inode) == t;
  }

  predicate IsDots(name: string) {
    L.Trunc(name) == "." || L.Trunc(name) == ".."
  }

  /** sys_unlink, given the directory and the name. */
  method Unlink(fs: FileSystem, dp: nat, name: string) returns (r: L.Result, e: End)
    requires Ready(fs) && IsDir(fs.inode, dp) && FindsInode(Table(fs.disk, fs.inode), dp, name)
    modifies fs
    ensures fs.base == old(fs.base)
    ensures e == Returns ==> FilesKept(old(fs.disk), old(fs.inode), fs.disk, fs.inode) == true
    ensures e == NoBlock ==> fs.DiskFull()
    ensures e != NoRoom && e != NoInode
    ensures e == NoType ==> FindsFree(old(Table(fs.disk, fs.inode)), dp, name) && !IsDots(name)
    ensures e == NoLink ==> FindsUnlinked(old(Table(fs.disk, fs.inode)), dp, name) && !IsDots(name)
    ensures e == Returns ==> Ready(fs) && (Table(fs.disk, fs.inode), r) == L.Unlink(old(Table(fs.disk, fs.inode)), dp, name)
  {
    if IsDots(name) {
      return L.Failed, Returns;
    }
    ghost var t := Table(fs.disk, fs.inode);
    SpellsIts(fs, dp, t[dp].dirents);
    var there, off := Dirlookup(fs, dp, name, t[dp].dirents);
    if there.None? {
      return L.Failed, Returns;
    }
    r, e := UnlinkFound(fs, dp, name, off, there.value, t);
  }

  /** The lookup has found ip, at offset off. */
  method UnlinkFound(fs: FileSystem, dp: nat, name: string, off: nat, ip: nat, ghost t: L.Table) returns (r: L.Result, e: End)
    requires Ready(fs) && IsDir(fs.inode, dp) && t == Table(fs.disk, fs.inode) && !IsDots(name)
    requires Finds(t, dp, name, ip) && off == DSIZE * L.Lookup(t[dp].dirents, name, 0)
    modifies fs
    ensures fs.base == old(fs.base)
    ensures e == Returns ==> FilesKept(old(fs.disk), old(fs.inode), fs.disk, fs.inode) == true
    ensures e == NoBlock ==> fs.DiskFull()
    ensures e != NoRoom && e != NoInode
    ensures e == NoType ==> FindsFree(t, dp, name)
    ensures e == NoLink ==> FindsUnlinked(t, dp, name)
    ensures e == Returns ==> Ready(fs) && (Table(fs.disk, fs.inode), r) == L.Unlink(t, dp, name)
  {
    if fs.inode[ip].kind == 0 {
      return L.Failed, NoType;
    }
    if fs.inode[ip].nlink < 1 {
      return L.Failed, NoLink;
    }
    r, e := Remove(fs, dp, off, ip, L.Lookup(t[dp].dirents, name, 0), t);
  }

  /** From t to u the entry has gone, unless it names a directory that is not empty. */
  ghost predicate Removed(t: L.Table, u: L.Table, dp: nat, k: nat, ip: nat, r: L.Result) {
    && dp < |t| && k < |t[dp].dirents| && t[dp].dirents[k].inum == ip < |t|
    && if t[ip].kind == L.Dir && !L.DotsOnly(t[ip].dirents) then u == t && r == L.Failed else u == L.Cleared(t, dp, k) && r == L.Done
  }

  /** The rest of it, for the entry at offset off. */
  method Remove(fs: FileSystem, dp: nat, off: nat, ip: nat, ghost k: nat, ghost t: L.Table) returns (r: L.Result, e: End)
    requires Ready(fs) && IsDir(fs.inode, dp) && t == Table(fs.disk, fs.inode)
    requires k < |t[dp].dirents| && off == DSIZE * k && t[dp].dirents[k].inum == ip < |t| && t[ip].kind != L.Free
    modifies fs
    ensures fs.base == old(fs.base)
    ensures e == Returns ==> FilesKept(old(fs.disk), old(fs.inode), fs.disk, fs.inode) == true
    ensures e == Returns || e == NoBlock
    ensures e == NoBlock ==> fs.DiskFull()
    ensures e == Returns ==> Ready(fs)
    ensures e == Returns ==> Removed(t, Table(fs.disk, fs.inode), dp, k, ip, r)
  {
    if fs.inode[ip].kind == 1 {
      SpellsIts(fs, ip, t[ip].dirents);
      var empty := Isdirempty(fs, ip, t[ip].dirents);
      if !empty {
        return L.Failed, Returns;
      }
    }
    e := Clear(fs, dp, off, ip, k, t);
    r := L.Done;
  }

  /** memset(&de, 0, sizeof(de)), writei, and the two link counts. */
  method Clear(fs: FileSystem, dp: nat, off: nat, ip: nat, ghost k: nat, ghost t: L.Table) returns (e: End)
    requires Ready(fs) && IsDir(fs.inode, dp) && t == Table(fs.disk, fs.inode)
    requires k < |t[dp].dirents| && off == DSIZE * k && t[dp].dirents[k].inum == ip < |t| && t[ip].kind != L.Free
    modifies fs
    ensures fs.base == old(fs.base)
    ensures e == Returns ==> FilesKept(old(fs.disk), old(fs.inode), fs.disk, fs.inode) == true
    ensures e == Returns || e == NoBlock
    ensures e == NoBlock ==> fs.DiskFull()
    ensures e == Returns ==> Ready(fs) && Table(fs.disk, fs.inode) == L.Cleared(t, dp, k)
  {
    ghost var d0, n0 := fs.disk, fs.inode;
    SpellsIts(fs, dp, t[dp].dirents);
    e := WriteEntry(fs, dp, off, L.Dirent(0, ""), t[dp].dirents, k);
    if e == Returns {
      ghost var d1, n1 := fs.disk, fs.inode;
      Unlinked(fs, dp, ip, k, t);
      KeptThrough(d0, n0, d1, n1, fs.disk, fs.inode);
    }
  }

  /** The link counts: that of the parent, when the entry named a directory, and that of the inode. */
  method Unlinked(fs: FileSystem, dp: nat, ip: nat, ghost k: nat, ghost t: L.Table)
    requires Ready(fs) && dp < |t| && t[dp].kind == L.Dir && k < |t[dp].dirents|
    requires t[dp].dirents[k].inum == ip < |t| && t[ip].kind != L.Free
    requires Table(fs.disk, fs.inode) == t[dp := t[dp].(dirents := t[dp].dirents[k := L.Dirent(0, "")])]
    modifies fs
    ensures fs.base == old(fs.base)
    ensures FilesKept(old(fs.disk), old(fs.inode), fs.disk, fs.inode) == true
    ensures Ready(fs) && Table(fs.disk, fs.inode) == L.Cleared(t, dp, k)
  {
    ghost var u, d0, n0 := Table(fs.disk, fs.inode), fs.disk, fs.inode;
    assert u[dp].kind == L.Dir && u[ip].kind == t[ip].kind;
    if fs.inode[ip].kind == 1 {
      SetLinks(fs, dp, L.Dec(fs.inode[dp].nlink));
    }
    ghost var d1, n1 := fs.disk, fs.inode;
    TakeLink(fs, ip, if t[ip].kind == L.Dir then u[dp := u[dp].(nlink := L.Dec(u[dp].nlink))] else u);
    KeptThrough(d0, n0, d1, n1, fs.disk, fs.inode);
  }

  /** ip->nlink--; iupdate(ip) */
  method TakeLink(fs: FileSystem, ip: nat, ghost t: L.Table)
    requires Ready(fs) && ip < |t| && t[ip].kind != L.Free && Table(fs.disk, fs.inode) == t
    modifies fs
    ensures fs.base == old(fs.base)
    ensures FilesKept(old(fs.disk), old(fs.inode), fs.disk, fs.inode) == true
    ensures Ready(fs) && Table(fs.disk, fs.inode) == t[ip := t[ip].(nlink := L.Dec(t[ip].nlink))]
  {
    SetLinks(fs, ip, L.Dec(fs.inode[ip].nlink));
  }
}
