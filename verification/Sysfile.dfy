/** Calls of sysfile.c one after the other, on the disk that mkfs makes: after each of them the blocks of the disk are
    sound, and the link counts in its inodes are those of the entries in its directories. */
module Sysfile {
  import opened Basics
  import opened BlockData
  import S = FsState
  import opened Fs = FileSystem
  import L = LinkCount
  import opened Dirs = Directories
  import F = FileConsistency
  import D = Disk
  import CrashRecovery
  import GroupCommit

  predicate NameOk(call: L.Call) {
    match call
    case CreateCall(_, name, _) => IsName(name)
    case LinkCall(_, _, name) => IsName(name)
    case UnlinkCall(_, name) => true
    case ReapCall(_) => true
  }

  /** From t to u the call has been carried out, if it applies. */
  ghost predicate Carried(t: L.Table, u: L.Table, call: L.Call) {
    u == if L.Applies(t, call) then L.Apply(t, call) else t
  }

  ghost predicate FullDirectory(t: L.Table) {
    exists d :: 0 <= d < |t| && DSIZE * |t[d].dirents| + DSIZE > S.MAXBYTES
  }

  /** create of ".." in a directory that has left the tree. */
  predicate NamesLostParent(t: L.Table, call: L.Call) {
    call.CreateCall? && L.Trunc(call.name) == ".." && call.dp < |t| && !L.InTree(t[call.dp])
  }

  ghost predicate InodesUsed(fs: FileSystem)
    reads fs
  {
    forall j :: 1 <= j < |fs.inode| ==> fs.inode[j].kind != 0
  }

  lemma FoundIsLive(t: L.Table, dp: nat, name: string)
    requires L.Inv(t) && dp < |t| && t[dp].kind == L.Dir
    ensures FindsInode(t, dp, name)
    ensures FindsFree(t, dp, name) ==> !L.InTree(t[dp]) && L.Trunc(name) == ".."
  {
    if L.Lookup(t[dp].dirents, name, 0) < |t[dp].dirents| {
      L.FoundIsInUse(t, dp, name);
    }
  }

  /** The inode that create makes, if it makes one, is as asked for. */
  ghost predicate MadeIs(t: L.Table, nodes: seq<S.Inode>, dp: nat, name: string, kind: L.Kind, major: S.Short, minor: S.Short)
    requires dp < |t| && t[dp].kind == L.Dir && kind != L.Free
  {
    var r := L.Create(t, dp, name, kind).1;
    r.Made? ==> IsMade(nodes, r.inum, kind, major, minor)
  }

  /** create, with the panic of ialloc. */
  method ServeCreate(fs: FileSystem, dp: nat, name: string, kind: L.Kind, major: S.Short, minor: S.Short, ghost t: L.Table)
    returns (e: End)
    requires Ready(fs) && t == Table(fs.disk, fs.inode) && L.Inv(t) == true
    requires dp < |t| && t[dp].kind == L.Dir && IsName(name) && kind != L.Free
    modifies fs
    ensures fs.base == old(fs.base)
    ensures e == Returns ==> FilesKept(old(fs.disk), old(fs.inode), fs.disk, fs.inode) == true
    ensures e == NoBlock ==> fs.DiskFull()
    ensures e == NoRoom ==> FullDirectory(t)
    ensures e == NoType ==> !L.InTree(t[dp]) && L.Trunc(name) == ".."
    ensures e == NoInode ==> InodesUsed(fs)
    ensures e != NoLink
    ensures e == Returns ==> Ready(fs) && Table(fs.disk, fs.inode) == L.Create(t, dp, name, kind).0
    ensures e == Returns ==> MadeIs(t, fs.inode, dp, name, kind, major, minor) == true
  {
    FoundIsLive(t, dp, name);
    var r;
    r, e := Create(fs, dp, name, kind, major, minor);
    if e == Returns && r.NoInodes? {
      NoneWasFree(t, dp, name, kind);
      AllInUse(fs, t);
      e := NoInode;
    }
  }

  lemma NoneWasFree(t: L.Table, dp: nat, name: string, kind: L.Kind)
    requires dp < |t| && t[dp].kind == L.Dir && kind != L.Free && L.Create(t, dp, name, kind).1.NoInodes?
    ensures L.Create(t, dp, name, kind).0 == t && L.FreeInode(t, 1) == |t|
  {
  }

  lemma AllInUse(fs: FileSystem, t: L.Table)
    requires Table(fs.disk, fs.inode) == t && 0 < |t| && L.FreeInode(t, 1) == |t|
    ensures InodesUsed(fs)
  {
    assert forall j :: 0 <= j < |t| ==> t[j] == NodeOf(fs.disk, fs.inode[j]);
  }

  method ServeUnlink(fs: FileSystem, dp: nat, name: string, ghost t: L.Table) returns (e: End)
    requires Ready(fs) && t == Table(fs.disk, fs.inode) && L.Inv(t) == true
    requires dp < |t| && t[dp].kind == L.Dir
    modifies fs
    ensures fs.base == old(fs.base)
    ensures e == Returns ==> FilesKept(old(fs.disk), old(fs.inode), fs.disk, fs.inode) == true
    ensures e == Returns || e == NoBlock
    ensures e == NoBlock ==> fs.DiskFull()
    ensures e == Returns ==> Ready(fs) && Table(fs.disk, fs.inode) == L.Unlink(t, dp, name).0
  {
    FoundIsLive(t, dp, name);
    FoundHasLinks(t, dp, name);
    var r;
    r, e := Unlink(fs, dp, name);
  }

  lemma FoundHasLinks(t: L.Table, dp: nat, name: string)
    requires L.Inv(t) && dp < |t| && t[dp].kind == L.Dir
    ensures FindsUnlinked(t, dp, name) ==> IsDots(name)
  {
    if L.Lookup(t[dp].dirents, name, 0) < |t[dp].dirents| && !IsDots(name) {
      L.FoundHasLink(t, dp, name);
    }
  }

  method ServeLink(fs: FileSystem, ip: nat, dp: nat, name: string, ghost t: L.Table) returns (e: End)
    requires Ready(fs) && t == Table(fs.disk, fs.inode) && IsName(name)
    requires dp < |t| && t[dp].kind == L.Dir && ip < |t| && t[ip].kind != L.Free
    modifies fs
    ensures fs.base == old(fs.base)
    ensures e == Returns ==> FilesKept(old(fs.disk), old(fs.inode), fs.disk, fs.inode) == true
    ensures e == Returns || e == NoBlock || e == NoRoom
    ensures e == NoBlock ==> fs.DiskFull()
    ensures e == NoRoom ==> FullDirectory(t)
    ensures e == Returns ==> Ready(fs) && Table(fs.disk, fs.inode) == L.Link(t, ip, dp, name).0
  {
    var r;
    r, e := Link(fs, ip, dp, name);
  }

  lemma LinkCarried(t: L.Table, u: L.Table, ip: nat, dp: nat, name: string)
    requires u == if dp < |t| && t[dp].kind == L.Dir && ip < |t| && t[ip].kind != L.Free then L.Link(t, ip, dp, name).0 else t
    ensures Carried(t, u, L.LinkCall(ip, dp, name)) == true
  {
  }

  method ServeReap(fs: FileSystem, i: nat, ghost t: L.Table)
    requires Ready(fs) && t == Table(fs.disk, fs.inode)
    modifies fs
    ensures fs.base == old(fs.base)
    ensures Ready(fs) && Carried(t, Table(fs.disk, fs.inode), L.ReapCall(i)) == true
    ensures OthersKept(old(fs.disk), old(fs.inode), fs.disk, fs.inode, L.ReapCall(i)) == true
  {
    ghost var d0, n0 := fs.disk, fs.inode;
    if 1 <= i < |fs.inode| && fs.inode[i].kind != 0 && fs.inode[i].nlink == 0 {
      var left := Drop(fs, i, 1);
      ReapKeeps(d0, n0, fs.disk, fs.inode, i);
    }
    ReapCarried(t, Table(fs.disk, fs.inode), i);
  }

  lemma ReapKeeps(d0: S.Image, n0: seq<S.Inode>, disk: S.Image, nodes: seq<S.Inode>, i: nat)
    requires |nodes| == |n0| && i < |n0| && n0[i].nlink == 0
    requires forall j :: 0 <= j < |n0| && j != i ==> KeptAt(d0, n0, disk, nodes, j)
    ensures OthersKept(d0, n0, disk, nodes, L.ReapCall(i)) == true
  {
  }

  lemma ReapCarried(t: L.Table, u: L.Table, i: nat)
    requires u == if 1 <= i < |t| && t[i].kind != L.Free && t[i].nlink == 0 then L.Reap(t, i) else t
    ensures Carried(t, u, L.ReapCall(i)) == true
  {
  }

  lemma CreateCarried(t: L.Table, u: L.Table, dp: nat, name: string, kind: L.Kind)
    requires 0 < |t|
    requires u == if dp < |t| && t[dp].kind == L.Dir && kind != L.Free then L.Create(t, dp, name, kind).0 else t
    ensures Carried(t, u, L.CreateCall(dp, name, kind)) == true
  {
  }

  lemma UnlinkCarried(t: L.Table, u: L.Table, dp: nat, name: string)
    requires u == if dp < |t| && t[dp].kind == L.Dir then L.Unlink(t, dp, name).0 else t
    ensures Carried(t, u, L.UnlinkCall(dp, name)) == true
  {
  }

  method TryCreate(fs: FileSystem, dp: nat, name: string, kind: L.Kind, major: S.Short, minor: S.Short, ghost t: L.Table)
    returns (e: End)
    requires Ready(fs) && t == Table(fs.disk, fs.inode) && L.Inv(t) == true && IsName(name)
    modifies fs
    ensures fs.base == old(fs.base)
    ensures e == Returns ==> FilesKept(old(fs.disk), old(fs.inode), fs.disk, fs.inode) == true
    ensures e == NoBlock ==> fs.DiskFull()
    ensures e == NoRoom ==> FullDirectory(t)
    ensures e == NoType ==> NamesLostParent(t, L.CreateCall(dp, name, kind))
    ensures e == NoInode ==> InodesUsed(fs)
    ensures e != NoLink
    ensures e == Returns ==> Ready(fs) && Carried(t, Table(fs.disk, fs.inode), L.CreateCall(dp, name, kind)) == true
    ensures e == Returns && dp < |t| && t[dp].kind == L.Dir && kind != L.Free ==> MadeIs(t, fs.inode, dp, name, kind, major, minor) == true
  {
    e := Returns;
    if IsDir(fs.inode, dp) && kind != L.Free {
      e := ServeCreate(fs, dp, name, kind, major, minor, t);
    }
    if e == Returns {
      CreateCarried(t, Table(fs.disk, fs.inode), dp, name, kind);
    }
  }

  method TryLink(fs: FileSystem, ip: nat, dp: nat, name: string, ghost t: L.Table) returns (e: End)
    requires Ready(fs) && t == Table(fs.disk, fs.inode) && IsName(name)
    modifies fs
    ensures fs.base == old(fs.base)
    ensures e == Returns ==> FilesKept(old(fs.disk), old(fs.inode), fs.disk, fs.inode) == true
    ensures e == Returns || e == NoBlock || e == NoRoom
    ensures e == NoBlock ==> fs.DiskFull()
    ensures e == NoRoom ==> FullDirectory(t)
    ensures e == Returns ==> Ready(fs) && Carried(t, Table(fs.disk, fs.inode), L.LinkCall(ip, dp, name)) == true
  {
    e := Returns;
    if IsDir(fs.inode, dp) && ip < |fs.inode| && fs.inode[ip].kind != 0 {
      e := ServeLink(fs, ip, dp, name, t);
    }
    if e == Returns {
      LinkCarried(t, Table(fs.disk, fs.inode), ip, dp, name);
    }
  }

  method TryUnlink(fs: FileSystem, dp: nat, name: string, ghost t: L.Table) returns (e: End)
    requires Ready(fs) && t == Table(fs.disk, fs.inode) && L.Inv(t) == true
    modifies fs
    ensures fs.base == old(fs.base)
    ensures e == Returns ==> FilesKept(old(fs.disk), old(fs.inode), fs.disk, fs.inode) == true
    ensures e == Returns || e == NoBlock
    ensures e == NoBlock ==> fs.DiskFull()
    ensures e == Returns ==> Ready(fs) && Carried(t, Table(fs.disk, fs.inode), L.UnlinkCall(dp, name)) == true
  {
    e := Returns;
    if IsDir(fs.inode, dp) {
      e := ServeUnlink(fs, dp, name, t);
    }
    if e == Returns {
      UnlinkCarried(t, Table(fs.disk, fs.inode), dp, name);
    }
  }

  /** No inode in use has lost its type, its device numbers or, if it is no directory, a byte, but one without links
      that the call frees. */
  ghost predicate OthersKept(d0: S.Image, n0: seq<S.Inode>, disk: S.Image, nodes: seq<S.Inode>, call: L.Call) {
    |nodes| == |n0| && forall j :: 0 <= j < |n0| ==> (call == L.ReapCall(j) && n0[j].nlink == 0) || KeptAt(d0, n0, disk, nodes, j)
  }

  /** From one state to the other the call has been carried out, if it applies, and has done nothing else. */
  ghost predicate NamesDone(d0: S.Image, n0: seq<S.Inode>, disk: S.Image, nodes: seq<S.Inode>, call: L.Call,
                            major: S.Short, minor: S.Short)
  {
    var t := Table(d0, n0);
    && Carried(t, Table(disk, nodes), call) && OthersKept(d0, n0, disk, nodes, call)
    && (call.CreateCall? && call.dp < |t| && t[call.dp].kind == L.Dir && call.kind != L.Free ==>
          MadeIs(t, nodes, call.dp, call.name, call.kind, major, minor))
  }

  /** One call as a transaction of its own. While the counts are right, unlink never meets an inode without links, and
      a free inode is met only by create of ".." in a directory that has left the tree. */
  method Serve(fs: FileSystem, call: L.Call, major: S.Short, minor: S.Short, ghost t: L.Table) returns (e: End)
    requires Ready(fs) && t == Table(fs.disk, fs.inode) && L.Inv(t) == true && NameOk(call)
    modifies fs
    ensures e == Returns ==> OnlyChanged(old(fs.disk), fs.disk, fs.logged) == true
    ensures e == NoBlock ==> fs.DiskFull()
    ensures e == NoRoom ==> FullDirectory(t)
    ensures e == NoType ==> NamesLostParent(t, call)
    ensures e == NoInode ==> InodesUsed(fs)
    ensures e != NoLink
    ensures e == Returns ==> Ready(fs) && NamesDone(old(fs.disk), old(fs.inode), fs.disk, fs.inode, call, major, minor) == true
  {
    fs.BeginTransaction();
    match call
    case CreateCall(dp, name, kind) => e := TryCreate(fs, dp, name, kind, major, minor, t);
    case LinkCall(ip, dp, name) => e := TryLink(fs, ip, dp, name, t);
    case UnlinkCall(dp, name) => e := TryUnlink(fs, dp, name, t);
    case ReapCall(i) =>
      ServeReap(fs, i, t);
      e := Returns;
  }

  /** write to a regular file: the bytes reach it, unless the write is refused; no name and no link count changes. */
  method WriteData(fs: FileSystem, i: nat, off: nat, src: seq<Byte>) returns (e: End)
    requires Ready(fs) && i < |fs.inode| && fs.inode[i].kind == 2 && off < UINT && |src| < UINT
    modifies fs
    ensures e == Returns ==> OnlyChanged(old(fs.disk), fs.disk, fs.logged) == true
    ensures e == Returns || e == NoBlock
    ensures e == NoBlock ==> fs.DiskFull()
    ensures e == Returns ==> Ready(fs) && Table(fs.disk, fs.inode) == old(Table(fs.disk, fs.inode))
    ensures e == Returns ==> F.Does(old(fs.disk), old(fs.inode), fs.disk, fs.inode, F.WriteCall(i, off, src)) == true
  {
    ghost var d0, n0 := fs.disk, fs.inode;
    fs.BeginTransaction();
    var w := fs.Writei(i, src, off);
    e := if w.OutOfBlocks? then NoBlock else Returns;
    if w.Written? {
      DataHasNoNames(d0, n0, fs.disk, fs.inode, i);
    }
  }

  lemma DataHasNoNames(d0: S.Image, n0: seq<S.Inode>, disk: S.Image, nodes: seq<S.Inode>, i: nat)
    requires DirsOk(n0) && i < |n0| == |nodes| && n0[i].kind == 2 && SameLabels(n0[i], nodes[i])
    requires forall j :: 0 <= j < |n0| && j != i ==> nodes[j] == n0[j] && S.Content(disk, nodes[j]) == S.Content(d0, n0[j])
    ensures DirsOk(nodes) && Table(disk, nodes) == Table(d0, n0)
  {
    assert nodes[i].kind == 2;
    forall j | 0 <= j < |n0| ensures NodeOf(disk, nodes[j]) == NodeOf(d0, n0[j]) {
    }
  }

  // ---- every run of calls

  /** A call on names, or a write to the regular file i. */
  datatype Call =
    | NameCall(call: L.Call, major: S.Short, minor: S.Short)
    | DataCall(i: nat, off: nat, src: seq<Byte>)

  predicate CallOk(call: Call) {
    match call
    case NameCall(c, _, _) => NameOk(c)
    case DataCall(_, off, src) => off < UINT && |src| < UINT
  }

  /** From one state to the other the call has been carried out, if it applies, and has done nothing else. */
  ghost predicate Done(d0: S.Image, n0: seq<S.Inode>, disk: S.Image, nodes: seq<S.Inode>, call: Call) {
    match call
    case NameCall(c, major, minor) => NamesDone(d0, n0, disk, nodes, c, major, minor)
    case DataCall(i, off, src) =>
      && Table(disk, nodes) == Table(d0, n0)
      && if i < |n0| && n0[i].kind == 2 then F.Does(d0, n0, disk, nodes, F.WriteCall(i, off, src)) else disk == d0 && nodes == n0
  }

  /** The disk alone says it: its blocks are sound, and the counts in its inodes are those of the entries in its
      directories. */
  ghost predicate Sound(sb: S.Superblock, disk: S.Image) {
    F.FsOk(sb, disk) && L.Inv(Named(sb, disk))
  }

  /** The call makes an entry in a removed directory, or takes a count over its limit. */
  predicate Misfit(t: L.Table, call: Call) {
    call.NameCall? && L.Applies(t, call.call) && !L.Fits(t, call.call)
  }

  /** One call: if it returns, the counts are right exactly when it is no misfit. */
  method Step(fs: FileSystem, call: Call) returns (e: End)
    requires Ready(fs) && CallOk(call) && L.Inv(Table(fs.disk, fs.inode)) == true
    modifies fs
    ensures e == Returns ==> OnlyChanged(old(fs.disk), fs.disk, fs.logged) == true
    ensures e == Returns ==> Ready(fs) && L.Inv(Table(fs.disk, fs.inode)) == !Misfit(old(Table(fs.disk, fs.inode)), call)
    ensures e == Returns ==> Done(old(fs.disk), old(fs.inode), fs.disk, fs.inode, call) == true
    ensures e != Returns ==> Halts(fs, old(Table(fs.disk, fs.inode)), call, e)
  {
    match call
    case NameCall(c, major, minor) =>
      ghost var t := Table(fs.disk, fs.inode);
      e := Serve(fs, c, major, minor, t);
      if e == Returns {
        CarriedKeepsInv(t, Table(fs.disk, fs.inode), c);
      }
    case DataCall(i, off, src) =>
      e := Returns;
      if i < |fs.inode| && fs.inode[i].kind == 2 {
        e := WriteData(fs, i, off, src);
      }
  }

  lemma CarriedKeepsInv(t: L.Table, u: L.Table, call: L.Call)
    requires L.Inv(t) && Carried(t, u, call)
    ensures L.Inv(u) <==> !(L.Applies(t, call) && !L.Fits(t, call))
  {
    if L.Applies(t, call) {
      L.CallKeepsInv(t, call);
    }
  }

  /** Why a call panics. */
  ghost predicate Halts(fs: FileSystem, t: L.Table, call: Call, e: End)
    reads fs
  {
    match e
    case NoBlock => fs.DiskFull()
    case NoRoom => FullDirectory(t)
    case NoInode => InodesUsed(fs)
    case NoType => call.NameCall? && NamesLostParent(t, call.call)
    case _ => false
  }

  /** Where a run of calls ends: at its end, before a misfit, or in a panic. */
  ghost predicate Stops(fs: FileSystem, t: L.Table, calls: seq<Call>, last: nat, e: End)
    reads fs
  {
    if e == Returns then last < |calls| ==> Misfit(t, calls[last]) else last < |calls| && Halts(fs, t, calls[last], e)
  }

  function Named(sb: S.Superblock, disk: S.Image): L.Table {
    Table(disk, S.Nodes(sb, disk))
  }

  ghost predicate DoneOn(sb: S.Superblock, f: S.Image, g: S.Image, call: Call) {
    Done(f, S.Nodes(sb, f), g, S.Nodes(sb, g), call)
  }

  /** The next call of a run, unless it is a misfit. */
  method Advance(fs: FileSystem, calls: seq<Call>, k: nat) returns (go: bool, e: End)
    requires Ready(fs) == true && k < |calls| && CallOk(calls[k]) && L.Inv(Named(fs.sb, fs.disk)) == true
    modifies fs
    ensures go ==> Follows(fs.sb, old(fs.disk), fs.disk, fs.logged, calls[k]) == true
    ensures go ==> e == Returns && Ready(fs) == true && L.Inv(Named(fs.sb, fs.disk)) == true && Sound(fs.sb, fs.disk) == true
    ensures !go ==> Stops(fs, old(Named(fs.sb, fs.disk)), calls, k, e) == true
    ensures !go && e == Returns ==> fs.disk == old(fs.disk)
  {
    if Misfit(Table(fs.disk, fs.inode), calls[k]) {
      return false, Returns;
    }
    e := Step(fs, calls[k]);
    go := e == Returns;
    if go {
      SoundNow(fs);
    }
  }

  /** Sound disks, each of which the next of the calls has made of the one before by changing the given blocks; the last
      of them is disk. */
  ghost predicate History(sb: S.Superblock, calls: seq<Call>, images: seq<S.Image>, blocks: seq<set<nat>>, disk: S.Image) {
    && |images| == |blocks| + 1 <= |calls| + 1 && images[|blocks|] == disk
    && (forall k :: 0 <= k < |images| ==> Sound(sb, images[k]))
    && forall k :: 0 <= k < |blocks| ==> Follows(sb, images[k], images[k + 1], blocks[k], calls[k])
  }

  ghost predicate Follows(sb: S.Superblock, f: S.Image, g: S.Image, blocks: set<nat>, call: Call) {
    OnlyChanged(f, g, blocks) && DoneOn(sb, f, g, call)
  }

  lemma HistoryGoesOn(sb: S.Superblock, calls: seq<Call>, images: seq<S.Image>, blocks: seq<set<nat>>, d0: S.Image, disk: S.Image,
                      logged: set<nat>)
    requires History(sb, calls, images, blocks, d0) == true && Sound(sb, disk) == true
    requires |blocks| < |calls| && Follows(sb, d0, disk, logged, calls[|blocks|]) == true
    ensures History(sb, calls, images + [disk], blocks + [logged], disk) == true
  {
    var images', blocks' := images + [disk], blocks + [logged];
    forall k | 0 <= k < |images'| ensures Sound(sb, images'[k]) == true {
      assert k < |images| ==> images'[k] == images[k];
    }
    forall k | 0 <= k < |blocks'| ensures Follows(sb, images'[k], images'[k + 1], blocks'[k], calls[k]) == true {
      LinkStays(sb, calls, images, blocks, disk, logged, k);
    }
  }

  lemma LinkStays(sb: S.Superblock, calls: seq<Call>, images: seq<S.Image>, blocks: seq<set<nat>>, disk: S.Image, logged: set<nat>, k: nat)
    requires k <= |blocks| < |calls| && |images| == |blocks| + 1
    requires if k < |blocks| then Follows(sb, images[k], images[k + 1], blocks[k], calls[k]) == true
             else Follows(sb, images[k], disk, logged, calls[k]) == true
    ensures Follows(sb, (images + [disk])[k], (images + [disk])[k + 1], (blocks + [logged])[k], calls[k]) == true
  {
    assert (images + [disk])[k] == images[k] && (images + [disk])[k + 1] == if k < |blocks| then images[k + 1] else disk;
    assert (blocks + [logged])[k] == if k < |blocks| then blocks[k] else logged;
  }

  /** Every run of calls, up to the first that panics or is a misfit: images are the disks between them, and blocks what
      each call has passed to log_write. */
  method Run(fs: FileSystem, calls: seq<Call>) returns (images: seq<S.Image>, ghost blocks: seq<set<nat>>, ghost last: S.Image, e: End)
    requires Ready(fs) == true && L.Inv(Named(fs.sb, fs.disk)) == true && forall k :: 0 <= k < |calls| ==> CallOk(calls[k])
    modifies fs
    ensures 0 < |images| && images[0] == old(fs.disk) && History(fs.sb, calls, images, blocks, last) == true
    ensures e == Returns ==> fs.disk == last
    ensures Stops(fs, Named(fs.sb, last), calls, |images| - 1, e) == true
  {
    SoundNow(fs);
    images, blocks, last, e := [fs.disk], [], fs.disk, Returns;
    var k := 0;
    while k < |calls|
      invariant 0 <= k <= |calls| && |images| == k + 1 && images[0] == old(fs.disk) && last == fs.disk && e == Returns
      invariant Ready(fs) == true && L.Inv(Named(fs.sb, fs.disk)) == true
      invariant History(fs.sb, calls, images, blocks, last) == true
    {
      var go;
      go, e := Advance(fs, calls, k);
      if !go {
        return;
      }
      HistoryGoesOn(fs.sb, calls, images, blocks, last, fs.disk, fs.logged);
      images, blocks, last, k := images + [fs.disk], blocks + [fs.logged], fs.disk, k + 1;
    }
  }

  lemma SoundNow(fs: FileSystem)
    requires Ready(fs) && L.Inv(Table(fs.disk, fs.inode))
    ensures Sound(fs.sb, fs.disk) == true
  {
    assert F.Owned(fs.sb, fs.disk, fs.owner);
  }

  // ---- runs and crashes

  /** Each call has logged what its blocks held when it ended. */
  ghost predicate Logs(writes: seq<seq<D.Write>>, images: seq<S.Image>, blocks: seq<set<nat>>) {
    && |writes| == |blocks| == |images| - 1
    && forall k :: 0 <= k < |writes| ==> LogsAll(writes[k], images[k + 1], blocks[k])
  }

  /** The last write of each of the blocks is what g has there, and no other block is written. */
  ghost predicate LogsAll(ws: seq<D.Write>, g: S.Image, blocks: set<nat>) {
    forall b :: 0 <= b < |g| ==> F.LastWrite(ws, b) == if b in blocks then Some(F.Words(g[b])) else None
  }

  lemma HistoryIsChain(sb: S.Superblock, l: CrashRecovery.Layout, calls: seq<Call>, images: seq<S.Image>, blocks: seq<set<nat>>,
                       last: S.Image, writes: seq<seq<D.Write>>)
    requires History(sb, calls, images, blocks, last) && Logs(writes, images, blocks)
    ensures F.Chain(l, images, writes) == true && forall m :: 0 <= m < |images| ==> Sound(sb, images[m]) == true
  {
    forall k | 0 <= k < |writes| ensures F.CarriesOut(l, writes[k], images[k], images[k + 1]) == true {
      assert Follows(sb, images[k], images[k + 1], blocks[k], calls[k]);
      F.LoggedCarriesOut(l, writes[k], images[k], images[k + 1], blocks[k]);
    }
  }

  /** The run of calls may be cut off by a crash at any moment: after any number of crashed recoveries and one that
      finishes, the disk shows a file system in which blocks, names and link counts are right, one that was there between
      two calls. */
  lemma NamesSurviveCrashes(sb: S.Superblock, d: D.Image, l: CrashRecovery.Layout, schedule: seq<GroupCommit.Step>, crashes: seq<nat>,
                            calls: seq<Call>, images: seq<S.Image>, blocks: seq<set<nat>>, last: S.Image, writes: seq<seq<D.Write>>)
    requires History(sb, calls, images, blocks, last) == true && Logs(writes, images, blocks) == true
    requires GroupCommit.Booted(d, l) && F.Shows(d, l, images[0]) && F.OneAtATime(d, l, schedule, writes)
    ensures var r := CrashRecovery.RecoverThroughCrashes(GroupCommit.After(d, l, schedule).disk, l, crashes);
      exists m :: 0 <= m < |images| && F.Shows(r, l, images[m]) && Sound(sb, images[m])
  {
    HistoryIsChain(sb, l, calls, images, blocks, last, writes);
    F.OneAtATimeIsInOrder(d, l, schedule, writes);
    F.CallsSurviveCrashes(sb, d, l, schedule, crashes, images, writes);
  }
}
