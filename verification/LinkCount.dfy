/** Directory entries and link counts (sysfile.c and fs.c): create, link and unlink, each taken as the one
    transaction it is, on a table of inodes whose directories are sequences of entries. */
module LinkCount {
  import opened Basics

  const DIRSIZ: nat := 30
  const ROOTINO: nat := 1
  const MAXSHORT: int := 0x7fff

  type Short = x: int | -MAXSHORT - 1 <= x <= MAXSHORT

  datatype Kind = Free | Dir | File | Dev

  /** inum is 0 in an empty entry. */
  datatype Dirent = Dirent(inum: nat, name: string)

  datatype Inode = Inode(kind: Kind, nlink: Short, dirents: seq<Dirent>)

  type Table = seq<Inode>

  /** x++ on a short */
  function Inc(x: Short): Short {
    if x == MAXSHORT then -MAXSHORT - 1 else x + 1
  }

  /** x-- on a short */
  function Dec(x: Short): Short {
    if x == -MAXSHORT - 1 then MAXSHORT else x - 1
  }

  /** What DIRSIZ characters keep of a name. */
  function Trunc(name: string): string {
    if |name| <= DIRSIZ then name else name[..DIRSIZ]
  }

  // ---- dirlookup and dirlink

  predicate Holds(de: Dirent, name: string) {
    de.inum != 0 && Trunc(de.name) == Trunc(name)
  }

  /** The first entry from k on with that name, or |ds|. */
  function Lookup(ds: seq<Dirent>, name: string, k: nat): (r: nat)
    requires k <= |ds|
    ensures k <= r <= |ds| && (r < |ds| ==> Holds(ds[r], name))
    ensures forall j :: k <= j < r ==> !Holds(ds[j], name)
    decreases |ds| - k
  {
    if k == |ds| || Holds(ds[k], name) then k else Lookup(ds, name, k + 1)
  }

  /** The first empty entry from k on, or |ds|. */
  function Vacant(ds: seq<Dirent>, k: nat): (r: nat)
    requires k <= |ds|
    ensures k <= r <= |ds| && (r < |ds| ==> ds[r].inum == 0)
    ensures forall j :: k <= j < r ==> ds[j].inum != 0
    decreases |ds| - k
  {
    if k == |ds| || ds[k].inum == 0 then k else Vacant(ds, k + 1)
  }

  function Entered(ds: seq<Dirent>, name: string, inum: nat): seq<Dirent> {
    var k := Vacant(ds, 0);
    if k < |ds| then ds[k := Dirent(inum, Trunc(name))] else ds + [Dirent(inum, Trunc(name))]
  }

  /** isdirempty */
  predicate DotsOnly(ds: seq<Dirent>) {
    forall k :: 2 <= k < |ds| ==> ds[k].inum == 0
  }

  // ---- the calls, on values

  datatype Result = Done | Failed | Existing(inum: nat) | Made(inum: nat) | NoInodes

  /** ialloc: the first free inode. */
  function FreeInode(t: Table, i: nat): (r: nat)
    requires i <= |t|
    ensures i <= r <= |t| && (r < |t| ==> t[r].kind == Free)
    ensures forall j :: i <= j < r ==> t[j].kind != Free
    decreases |t| - i
  {
    if i == |t| || t[i].kind == Free then i else FreeInode(t, i + 1)
  }

  function Dots(ip: nat, dp: nat): seq<Dirent> {
    [Dirent(ip, "."), Dirent(dp, "..")]
  }

  /** create when name is new: ip is the inode that ialloc returned. */
  function WithNew(t: Table, dp: nat, name: string, kind: Kind, ip: nat): Table
    requires dp < |t| && ip < |t| && dp != ip
  {
    var d := t[dp];
    t[ip := Inode(kind, 1, if kind == Dir then Dots(ip, dp) else [])]
     [dp := d.(nlink := if kind == Dir then Inc(d.nlink) else d.nlink, dirents := Entered(d.dirents, name, ip))]
  }

  function Create(t: Table, dp: nat, name: string, kind: Kind): (Table, Result)
    requires dp < |t| && t[dp].kind == Dir && kind != Free && 0 < |t|
  {
    var k := Lookup(t[dp].dirents, name, 0);
    if k < |t[dp].dirents| then
      var i := t[dp].dirents[k].inum;
      (t, if kind == File && i < |t| && t[i].kind == File then Existing(i) else Failed)
    else
      var ip := FreeInode(t, 1);
      if ip == |t| then (t, NoInodes) else (WithNew(t, dp, name, kind, ip), Made(ip))
  }

  /** link of ip as name in dp, when it can be made. */
  function WithLink(t: Table, ip: nat, dp: nat, name: string): Table
    requires dp < |t| && ip < |t|
  {
    var t1 := t[ip := t[ip].(nlink := Inc(t[ip].nlink))];
    t1[dp := t1[dp].(dirents := Entered(t1[dp].dirents, name, ip))]
  }

  function Link(t: Table, ip: nat, dp: nat, name: string): (Table, Result)
    requires dp < |t| && t[dp].kind == Dir && ip < |t| && t[ip].kind != Free
  {
    if t[ip].kind == Dir || Lookup(t[dp].dirents, name, 0) < |t[dp].dirents| then (t, Failed)
    else (WithLink(t, ip, dp, name), Done)
  }

  /** unlink of entry k of dp. */
  function Cleared(t: Table, dp: nat, k: nat): Table
    requires dp < |t| && k < |t[dp].dirents| && t[dp].dirents[k].inum < |t|
  {
    var ip := t[dp].dirents[k].inum;
    var t1 := t[dp := t[dp].(dirents := t[dp].dirents[k := Dirent(0, "")],
                             nlink := if t[ip].kind == Dir then Dec(t[dp].nlink) else t[dp].nlink)];
    t1[ip := t1[ip].(nlink := Dec(t1[ip].nlink))]
  }

  function Unlink(t: Table, dp: nat, name: string): (Table, Result)
    requires dp < |t| && t[dp].kind == Dir
  {
    var k := Lookup(t[dp].dirents, name, 0);
    if Trunc(name) == "." || Trunc(name) == ".." || k == |t[dp].dirents| || t[dp].dirents[k].inum >= |t| then (t, Failed)
    else
      var ip := t[dp].dirents[k].inum;
      if t[ip].kind == Dir && !DotsOnly(t[ip].dirents) then (t, Failed) else (Cleared(t, dp, k), Done)
  }

  /** The last iput of an inode without links. */
  function Reap(t: Table, i: nat): Table
    requires i < |t|
  {
    t[i := Inode(Free, t[i].nlink, [])]
  }

  // ---- what link counts count

  /** A directory that is still in the tree. */
  predicate InTree(n: Inode) {
    n.kind == Dir && n.nlink > 0
  }

  /** Entry k of directory d is a link to inode i; a directory's own "." is not. */
  predicate IsRef(t: Table, i: nat, d: nat, k: nat) {
    && d < |t| && k < |t[d].dirents| && InTree(t[d])
    && t[d].dirents[k].inum == i && t[d].dirents[k].name != "."
  }

  function Refs(t: Table, i: nat): set<(nat, nat)> {
    set d, k | 0 <= d < |t| && 0 <= k < |t[d].dirents| && IsRef(t, i, d, k) :: (d, k)
  }

  predicate CountOk(t: Table, i: nat)
    requires i < |t|
  {
    if t[i].kind == Free then Refs(t, i) == {} else t[i].nlink == |Refs(t, i)|
  }

  /** The link count of every inode is the number of entries that name it in directories still in the tree. */
  ghost predicate Counted(t: Table) {
    forall i :: 1 <= i < |t| ==> CountOk(t, i)
  }

  /** A directory starts with its dots, and has nothing else once it has left the tree. */
  predicate DotsOk(t: Table, d: nat)
    requires d < |t|
  {
    var ds := t[d].dirents;
    if t[d].kind == Dir then
      && d != 0 && |ds| >= 2 && ds[0] == Dirent(d, ".") && ds[1].name == ".." && 0 < ds[1].inum < |t|
      && (!InTree(t[d]) ==> DotsOnly(ds))
    else ds == []
  }

  /** Names are unique up to DIRSIZ, and no directory is entered twice. */
  predicate Distinct(t: Table, d: nat, k: nat, l: nat)
    requires d < |t|
  {
    var ds := t[d].dirents;
    k < |ds| && l < |ds| && k != l && ds[k].inum != 0 && ds[l].inum != 0 ==>
      && |ds[k].name| <= DIRSIZ && ds[k].name != ds[l].name
      && (2 <= k && 2 <= l && ds[k].inum == ds[l].inum && ds[k].inum < |t| ==> t[ds[k].inum].kind != Dir)
  }

  /** An entry other than the dots names an inode in use; a directory so named has d for its parent. */
  predicate ChildOk(t: Table, d: nat, k: nat)
    requires d < |t|
  {
    var ds := t[d].dirents;
    2 <= k < |ds| && ds[k].inum != 0 ==>
      var i := ds[k].inum;
      && i < |t| && i != ROOTINO && t[i].kind != Free
      && (t[i].kind == Dir ==> InTree(t[i]) && |t[i].dirents| >= 2 && t[i].dirents[1].inum == d)
  }

  predicate Names(t: Table, p: nat, k: nat, i: nat) {
    p < |t| && 2 <= k < |t[p].dirents| && t[p].dirents[k].inum == i
  }

  /** The parent of a directory in the tree is in the tree and names it. */
  ghost predicate ParentOk(t: Table, d: nat)
    requires d < |t|
  {
    InTree(t[d]) && |t[d].dirents| >= 2 ==>
      var p := t[d].dirents[1].inum;
      if d == ROOTINO then p == ROOTINO
      else p < |t| && InTree(t[p]) && exists k :: Names(t, p, k, d)
  }

  ghost predicate TreeOk(t: Table) {
    && ROOTINO < |t| && InTree(t[ROOTINO]) && t[0].kind == Free
    && (forall d :: 0 <= d < |t| ==> DotsOk(t, d) && ParentOk(t, d))
    && (forall d, k, l :: 0 <= d < |t| && 0 <= k && 0 <= l ==> Distinct(t, d, k, l))
    && (forall d, k :: 0 <= d < |t| && 0 <= k ==> ChildOk(t, d, k))
  }

  ghost predicate Inv(t: Table) {
    Counted(t) && TreeOk(t)
  }

  // ---- sets of links

  lemma RefsGain(t: Table, t': Table, i: nat, d: nat, k: nat)
    requires forall e, l :: IsRef(t', i, e, l) <==> IsRef(t, i, e, l) || (e == d && l == k)
    requires !IsRef(t, i, d, k)
    ensures Refs(t', i) == Refs(t, i) + {(d, k)} && |Refs(t', i)| == |Refs(t, i)| + 1
  {
    assert IsRef(t', i, d, k);
    assert Refs(t', i) == Refs(t, i) + {(d, k)};
  }

  lemma RefsLose(t: Table, t': Table, i: nat, d: nat, k: nat)
    requires forall e, l :: IsRef(t', i, e, l) <==> IsRef(t, i, e, l) && !(e == d && l == k)
    requires IsRef(t, i, d, k)
    ensures Refs(t, i) == Refs(t', i) + {(d, k)} && |Refs(t', i)| == |Refs(t, i)| - 1
  {
    assert (d, k) in Refs(t, i);
    assert Refs(t, i) == Refs(t', i) + {(d, k)};
  }

  lemma RefsSame(t: Table, t': Table, i: nat)
    requires forall e, l :: IsRef(t', i, e, l) <==> IsRef(t, i, e, l)
    ensures Refs(t', i) == Refs(t, i)
  {
    assert forall x :: x in Refs(t', i) <==> x in Refs(t, i);
  }

  // ---- create

  /** What a new entry is. */
  lemma EnteredIs(ds: seq<Dirent>, name: string, ip: nat)
    ensures var k, es := Vacant(ds, 0), Entered(ds, name, ip);
      && k < |es| && es[k] == Dirent(ip, Trunc(name)) && |ds| <= |es| <= |ds| + 1
      && (k < |ds| ==> ds[k].inum == 0)
      && (forall l :: 0 <= l < |es| && l != k ==> l < |ds| && es[l] == ds[l])
  {
  }

  lemma NewRef(t: Table, dp: nat, name: string, kind: Kind, ip: nat, j: nat, d: nat, k: nat)
    requires dp < |t| && ip < |t| && dp != ip && InTree(t[dp]) && t[ip].kind == Free && kind != Free && j != 0 && ip != 0
    requires Trunc(name) != "." && (kind == Dir ==> t[dp].nlink < MAXSHORT)
    ensures IsRef(WithNew(t, dp, name, kind, ip), j, d, k) <==>
            || IsRef(t, j, d, k)
            || (j == ip && d == dp && k == Vacant(t[dp].dirents, 0))
            || (kind == Dir && j == dp && d == ip && k == 1)
  {
    EnteredIs(t[dp].dirents, name, ip);
  }

  /** create has found no entry of that name, and a free inode. */
  predicate CanMake(t: Table, dp: nat, name: string, kind: Kind, ip: nat) {
    && 0 < ip < |t| && dp < |t| && t[ip].kind == Free && t[dp].kind == Dir && kind != Free
    && Lookup(t[dp].dirents, name, 0) == |t[dp].dirents|
  }

  /** The new entry goes behind the dots and its name is new. */
  lemma NewEntry(t: Table, d: nat, name: string)
    requires d < |t| && t[d].kind == Dir && DotsOk(t, d) && Lookup(t[d].dirents, name, 0) == |t[d].dirents|
    ensures Trunc(name) != "." && 2 <= Vacant(t[d].dirents, 0)
  {
    assert !Holds(t[d].dirents[0], name);
  }

  lemma NewRefs(t: Table, dp: nat, name: string, kind: Kind, ip: nat, j: nat)
    requires CanMake(t, dp, name, kind, ip) && DotsOk(t, dp)
    requires InTree(t[dp]) && (kind == Dir ==> t[dp].nlink < MAXSHORT) && j != 0
    ensures 2 <= Vacant(t[dp].dirents, 0)
    ensures forall d, l :: IsRef(WithNew(t, dp, name, kind, ip), j, d, l) <==>
      || IsRef(t, j, d, l)
      || (j == ip && d == dp && l == Vacant(t[dp].dirents, 0))
      || (kind == Dir && j == dp && d == ip && l == 1)
  {
    NewEntry(t, dp, name);
    forall d: nat, l: nat {
      NewRef(t, dp, name, kind, ip, j, d, l);
    }
  }

  lemma CreateCounts(t: Table, dp: nat, name: string, kind: Kind, ip: nat, j: nat)
    requires CanMake(t, dp, name, kind, ip) && DotsOk(t, dp) && DotsOk(t, ip)
    requires InTree(t[dp]) && (kind == Dir ==> t[dp].nlink < MAXSHORT)
    requires 1 <= j < |t| && CountOk(t, j)
    ensures CountOk(WithNew(t, dp, name, kind, ip), j)
  {
    var t' := WithNew(t, dp, name, kind, ip);
    NewRefs(t, dp, name, kind, ip, j);
    if j == ip {
      RefsGain(t, t', j, dp, Vacant(t[dp].dirents, 0));
    } else if kind == Dir && j == dp {
      RefsGain(t, t', j, ip, 1);
    } else {
      RefsSame(t, t', j);
    }
  }

  /** In a directory that has left the tree a new inode has a link too many, or, when it is a directory, is out
      of reach; and a count that overflows is wrong. */
  lemma CreateMiscounts(t: Table, dp: nat, name: string, kind: Kind, ip: nat)
    requires CanMake(t, dp, name, kind, ip) && Inv(t)
    requires !InTree(t[dp]) || (kind == Dir && t[dp].nlink == MAXSHORT)
    ensures !Inv(WithNew(t, dp, name, kind, ip))
  {
    var t' := WithNew(t, dp, name, kind, ip);
    assert DotsOk(t, dp) && DotsOk(t, ip) && CountOk(t, ip);
    if InTree(t[dp]) {
      assert !CountOk(t', dp);
    } else if kind != Dir {
      forall d: nat, k: nat ensures !IsRef(t', ip, d, k) {
        assert (d, k) !in Refs(t, ip);
      }
      assert Refs(t', ip) == {};
      assert !CountOk(t', ip);
    } else {
      NewEntry(t, dp, name);
      EnteredIs(t[dp].dirents, name, ip);
      assert CountOk(t, dp);
      forall p: nat, k: nat ensures !Names(t', p, k, dp) {
        assert p < |t| ==> ChildOk(t, p, k) && DotsOk(t, p);
      }
      assert !ParentOk(t', dp);
    }
  }

  lemma CreateDots(t: Table, dp: nat, name: string, kind: Kind, ip: nat, d: nat)
    requires CanMake(t, dp, name, kind, ip) && TreeOk(t) && d < |t|
    requires InTree(t[dp]) && (kind == Dir ==> t[dp].nlink < MAXSHORT)
    ensures var t' := WithNew(t, dp, name, kind, ip); DotsOk(t', d) && ParentOk(t', d)
  {
    var t', k := WithNew(t, dp, name, kind, ip), Vacant(t[dp].dirents, 0);
    assert DotsOk(t, d) && ParentOk(t, d) && DotsOk(t, dp) && DotsOk(t, ip);
    NewEntry(t, dp, name);
    EnteredIs(t[dp].dirents, name, ip);
    if d == ip {
      assert Names(t', dp, k, ip);
    } else if InTree(t[d]) && d != ROOTINO {
      var p := t[d].dirents[1].inum;
      var l :| Names(t, p, l, d);
      assert Names(t', p, l, d);
    }
  }

  lemma CreateChild(t: Table, dp: nat, name: string, kind: Kind, ip: nat, d: nat, k: nat)
    requires CanMake(t, dp, name, kind, ip) && TreeOk(t) && d < |t|
    requires InTree(t[dp]) && (kind == Dir ==> t[dp].nlink < MAXSHORT)
    ensures ChildOk(WithNew(t, dp, name, kind, ip), d, k)
  {
    assert DotsOk(t, d) && DotsOk(t, dp) && ChildOk(t, d, k);
    NewEntry(t, dp, name);
    EnteredIs(t[dp].dirents, name, ip);
  }

  lemma CreateDistinct(t: Table, dp: nat, name: string, kind: Kind, ip: nat, d: nat, k: nat, l: nat)
    requires CanMake(t, dp, name, kind, ip) && TreeOk(t) && d < |t|
    requires InTree(t[dp]) && (kind == Dir ==> t[dp].nlink < MAXSHORT)
    ensures Distinct(WithNew(t, dp, name, kind, ip), d, k, l)
  {
    if d == dp {
      NewDistinct(t, dp, name, kind, ip, k, l);
    } else {
      assert ChildOk(t, d, k) && ChildOk(t, d, l) && Distinct(t, d, k, l);
    }
  }

  lemma NewDistinct(t: Table, dp: nat, name: string, kind: Kind, ip: nat, k: nat, l: nat)
    requires CanMake(t, dp, name, kind, ip) && TreeOk(t)
    requires InTree(t[dp]) && (kind == Dir ==> t[dp].nlink < MAXSHORT)
    ensures Distinct(WithNew(t, dp, name, kind, ip), dp, k, l)
  {
    var v := Vacant(t[dp].dirents, 0);
    assert DotsOk(t, dp) && ChildOk(t, dp, k) && ChildOk(t, dp, l) && Distinct(t, dp, k, l);
    NewEntry(t, dp, name);
    EnteredIs(t[dp].dirents, name, ip);
    var other := if k == v then l else k;
    if (k == v || l == v) && other < |t[dp].dirents| && t[dp].dirents[other].inum != 0 {
      NewNameDiffers(t, dp, name, other);
    }
  }

  lemma NewNameDiffers(t: Table, d: nat, name: string, k: nat)
    requires TreeOk(t) && d < |t| && t[d].kind == Dir && Lookup(t[d].dirents, name, 0) == |t[d].dirents|
    requires k < |t[d].dirents| && t[d].dirents[k].inum != 0
    ensures |t[d].dirents[k].name| <= DIRSIZ && t[d].dirents[k].name != Trunc(name)
  {
    assert DotsOk(t, d);
    assert Distinct(t, d, k, if k == 0 then 1 else 0);
    assert !Holds(t[d].dirents[k], name);
  }

  /** create keeps every link count right, names unique and the tree whole exactly when its directory is still
      in the tree and, for a new directory, can take one more link. */
  lemma CreateIsExact(t: Table, dp: nat, name: string, kind: Kind)
    requires Inv(t) && dp < |t| && t[dp].kind == Dir && kind != Free
    ensures var r := Create(t, dp, name, kind);
      var fit := InTree(t[dp]) && (kind == Dir ==> t[dp].nlink < MAXSHORT);
      if r.1.Made? then Inv(r.0) <==> fit else r.0 == t
  {
    var r := Create(t, dp, name, kind);
    if r.1.Made? {
      var ip, t' := r.1.inum, r.0;
      if InTree(t[dp]) && (kind == Dir ==> t[dp].nlink < MAXSHORT) {
        assert DotsOk(t, dp) && DotsOk(t, ip);
        forall j | 1 <= j < |t'| ensures CountOk(t', j) {
          assert CountOk(t, j);
          CreateCounts(t, dp, name, kind, ip, j);
        }
        CreateKeepsTree(t, dp, name, kind, ip);
      } else {
        CreateMiscounts(t, dp, name, kind, ip);
      }
    }
  }

  lemma CreateKeepsTree(t: Table, dp: nat, name: string, kind: Kind, ip: nat)
    requires CanMake(t, dp, name, kind, ip) && TreeOk(t)
    requires InTree(t[dp]) && (kind == Dir ==> t[dp].nlink < MAXSHORT)
    ensures TreeOk(WithNew(t, dp, name, kind, ip))
  {
    var t' := WithNew(t, dp, name, kind, ip);
    forall d | 0 <= d < |t'| ensures DotsOk(t', d) && ParentOk(t', d) {
      CreateDots(t, dp, name, kind, ip, d);
    }
    forall d, k, l | 0 <= d < |t'| && 0 <= k && 0 <= l ensures Distinct(t', d, k, l) {
      CreateDistinct(t, dp, name, kind, ip, d, k, l);
    }
    forall d, k | 0 <= d < |t'| && 0 <= k ensures ChildOk(t', d, k) {
      CreateChild(t, dp, name, kind, ip, d, k);
    }
  }

  // ---- link

  predicate CanLink(t: Table, ip: nat, dp: nat, name: string) {
    && ip < |t| && dp < |t| && t[ip].kind != Free && t[ip].kind != Dir && t[dp].kind == Dir
    && Lookup(t[dp].dirents, name, 0) == |t[dp].dirents|
  }

  lemma LinkCounts(t: Table, ip: nat, dp: nat, name: string, j: nat)
    requires CanLink(t, ip, dp, name) && DotsOk(t, dp) && InTree(t[dp]) && t[ip].nlink < MAXSHORT && 0 < ip
    requires 1 <= j < |t| && CountOk(t, j)
    ensures CountOk(WithLink(t, ip, dp, name), j)
  {
    var t', k := WithLink(t, ip, dp, name), Vacant(t[dp].dirents, 0);
    NewEntry(t, dp, name);
    EnteredIs(t[dp].dirents, name, ip);
    forall d, l ensures IsRef(t', j, d, l) <==> IsRef(t, j, d, l) || (j == ip && d == dp && l == k) {
    }
    if j == ip {
      RefsGain(t, t', j, dp, k);
    } else {
      RefsSame(t, t', j);
    }
  }

  lemma LinkMiscounts(t: Table, ip: nat, dp: nat, name: string)
    requires CanLink(t, ip, dp, name) && Inv(t) && (!InTree(t[dp]) || t[ip].nlink == MAXSHORT)
    ensures !Counted(WithLink(t, ip, dp, name))
  {
    var t' := WithLink(t, ip, dp, name);
    assert CountOk(t, ip) && DotsOk(t, ip);
    if !InTree(t[dp]) {
      RefsSame(t, t', ip);
    }
    assert !CountOk(t', ip);
  }

  lemma LinkKeepsTree(t: Table, ip: nat, dp: nat, name: string)
    requires CanLink(t, ip, dp, name) && TreeOk(t) && InTree(t[dp]) && 0 < ip
    ensures TreeOk(WithLink(t, ip, dp, name))
  {
    var t', v := WithLink(t, ip, dp, name), Vacant(t[dp].dirents, 0);
    assert DotsOk(t, dp) && DotsOk(t, ip);
    NewEntry(t, dp, name);
    EnteredIs(t[dp].dirents, name, ip);
    forall d | 0 <= d < |t'| ensures DotsOk(t', d) && ParentOk(t', d) {
      LinkDotsKept(t, ip, dp, name, d);
    }
    forall d, k, l | 0 <= d < |t'| && 0 <= k && 0 <= l ensures Distinct(t', d, k, l) {
      LinkDistinct(t, ip, dp, name, d, k, l);
    }
    forall d, k | 0 <= d < |t'| && 0 <= k ensures ChildOk(t', d, k) {
      assert DotsOk(t, d) && ChildOk(t, d, k);
    }
  }

  lemma LinkDistinct(t: Table, ip: nat, dp: nat, name: string, d: nat, k: nat, l: nat)
    requires CanLink(t, ip, dp, name) && TreeOk(t) && InTree(t[dp]) && 0 < ip && d < |t|
    ensures Distinct(WithLink(t, ip, dp, name), d, k, l)
  {
    if d == dp {
      EntryDistinct(t, ip, dp, name, k, l);
    } else {
      assert Distinct(t, d, k, l) && ChildOk(t, d, k);
    }
  }

  lemma EntryDistinct(t: Table, ip: nat, dp: nat, name: string, k: nat, l: nat)
    requires CanLink(t, ip, dp, name) && TreeOk(t) && InTree(t[dp]) && 0 < ip
    ensures Distinct(WithLink(t, ip, dp, name), dp, k, l)
  {
    var v := Vacant(t[dp].dirents, 0);
    assert DotsOk(t, dp) && Distinct(t, dp, k, l) && ChildOk(t, dp, k) && ChildOk(t, dp, l);
    EnteredIs(t[dp].dirents, name, ip);
    var other := if k == v then l else k;
    if (k == v || l == v) && other < |t[dp].dirents| && t[dp].dirents[other].inum != 0 {
      NewNameDiffers(t, dp, name, other);
    }
  }

  lemma LinkDotsKept(t: Table, ip: nat, dp: nat, name: string, d: nat)
    requires CanLink(t, ip, dp, name) && TreeOk(t) && InTree(t[dp]) && 0 < ip && d < |t|
    ensures var t' := WithLink(t, ip, dp, name); DotsOk(t', d) && ParentOk(t', d)
  {
    var t' := WithLink(t, ip, dp, name);
    assert DotsOk(t, d) && ParentOk(t, d) && DotsOk(t, dp);
    NewEntry(t, dp, name);
    EnteredIs(t[dp].dirents, name, ip);
    if InTree(t[d]) && d != ROOTINO {
      var p := t[d].dirents[1].inum;
      var l :| Names(t, p, l, d);
      assert Names(t', p, l, d);
    }
  }

  /** link keeps every link count right, names unique and the tree whole exactly when its directory is still in
      the tree and the inode can take one more link. */
  lemma LinkIsExact(t: Table, ip: nat, dp: nat, name: string)
    requires Inv(t) && dp < |t| && t[dp].kind == Dir && ip < |t| && t[ip].kind != Free
    ensures var r := Link(t, ip, dp, name);
      if r.1.Done? then Inv(r.0) <==> InTree(t[dp]) && t[ip].nlink < MAXSHORT else r.0 == t
  {
    var r := Link(t, ip, dp, name);
    if r.1.Done? {
      if InTree(t[dp]) && t[ip].nlink < MAXSHORT {
        assert DotsOk(t, dp);
        forall j | 1 <= j < |t| ensures CountOk(r.0, j) {
          assert CountOk(t, j);
          LinkCounts(t, ip, dp, name, j);
        }
        LinkKeepsTree(t, ip, dp, name);
      } else {
        LinkMiscounts(t, ip, dp, name);
      }
    }
  }

  // ---- unlink

  /** unlink has found the entry, and what it names may go. */
  predicate CanUnlink(t: Table, dp: nat, k: nat, ip: nat) {
    && dp < |t| && ip < |t| && InTree(t[dp]) && 2 <= k < |t[dp].dirents| && t[dp].dirents[k].inum == ip && ip != 0
    && (t[ip].kind == Dir ==> DotsOnly(t[ip].dirents) && ip != dp)
  }

  lemma UnlinkFinds(t: Table, dp: nat, name: string)
    requires TreeOk(t) && dp < |t| && t[dp].kind == Dir && Unlink(t, dp, name).1 == Done
    ensures var k := Lookup(t[dp].dirents, name, 0);
      k < |t[dp].dirents| && CanUnlink(t, dp, k, t[dp].dirents[k].inum)
  {
    var ds, k := t[dp].dirents, Lookup(t[dp].dirents, name, 0);
    assert DotsOk(t, dp) && Holds(ds[k], name);
    assert Trunc(ds[0].name) == "." && Trunc(ds[1].name) == "..";
  }

  /** An entry found in a directory of the tree is a link, and no other has its place. */
  lemma EntryIsRef(t: Table, d: nat, k: nat)
    requires TreeOk(t) && d < |t| && InTree(t[d]) && 2 <= k < |t[d].dirents| && t[d].dirents[k].inum != 0
    ensures IsRef(t, t[d].dirents[k].inum, d, k)
  {
    assert DotsOk(t, d) && Distinct(t, d, 0, k);
  }

  /** An empty directory has one link. */
  lemma EmptyHasOneLink(t: Table, dp: nat, k: nat, ip: nat, d: nat, l: nat)
    requires TreeOk(t) && CanUnlink(t, dp, k, ip) && t[ip].kind == Dir && IsRef(t, ip, d, l)
    ensures d == dp && l == k
  {
    assert ChildOk(t, dp, k) && DotsOk(t, d) && ParentOk(t, d) && ChildOk(t, d, l) && Distinct(t, dp, k, l);
    assert forall m: nat :: !Names(t, ip, m, d);
  }

  lemma UnlinkRef(t: Table, dp: nat, k: nat, ip: nat, j: nat, d: nat, l: nat)
    requires Inv(t) && CanUnlink(t, dp, k, ip) && j != 0
    requires t[ip].nlink >= 1 && (t[ip].kind == Dir ==> t[ip].nlink == 1 && t[dp].nlink >= 2)
    ensures IsRef(Cleared(t, dp, k), j, d, l) <==>
            && IsRef(t, j, d, l) && !(j == ip && d == dp && l == k)
            && !(t[ip].kind == Dir && j == dp && d == ip && l == 1)
  {
    assert ChildOk(t, dp, k) && DotsOk(t, ip) && DotsOk(t, dp);
  }

  lemma OneLink(t: Table, dp: nat, k: nat, ip: nat)
    requires Inv(t) && CanUnlink(t, dp, k, ip)
    ensures t[ip].nlink >= 1 && t[ip].kind != Free && ip != ROOTINO
    ensures t[ip].kind == Dir ==> t[ip].nlink == 1 && InTree(t[ip]) && IsRef(t, dp, ip, 1)
  {
    EntryIsRef(t, dp, k);
    assert ChildOk(t, dp, k) && CountOk(t, ip) && DotsOk(t, ip);
    assert (dp, k) in Refs(t, ip);
    if t[ip].kind == Dir {
      forall x | x in Refs(t, ip) ensures x == (dp, k) {
        EmptyHasOneLink(t, dp, k, ip, x.0, x.1);
      }
      assert Refs(t, ip) == {(dp, k)};
    }
  }

  lemma TwoLinks(r: set<(nat, nat)>, x: (nat, nat), y: (nat, nat))
    requires x in r && y in r && x != y
    ensures |r| >= 2
  {
    assert y in r - {x} && r == (r - {x}) + {x};
  }

  /** The parent of an empty directory stays in the tree without it. */
  lemma ParentStays(t: Table, dp: nat, k: nat, ip: nat)
    requires Inv(t) && CanUnlink(t, dp, k, ip) && t[ip].kind == Dir
    ensures t[dp].nlink >= 2
  {
    OneLink(t, dp, k, ip);
    assert DotsOk(t, dp) && ParentOk(t, dp) && CountOk(t, dp) && DotsOk(t, ip);
    assert (ip, 1) in Refs(t, dp);
    if dp == ROOTINO {
      assert IsRef(t, dp, dp, 1);
      assert (dp, 1) in Refs(t, dp);
      TwoLinks(Refs(t, dp), (ip, 1), (dp, 1));
    } else {
      var p := t[dp].dirents[1].inum;
      var l: nat :| Names(t, p, l, dp);
      EntryIsRef(t, p, l);
      assert (p, l) in Refs(t, dp);
      TwoLinks(Refs(t, dp), (ip, 1), (p, l));
    }
  }

  lemma UnlinkCounts(t: Table, dp: nat, k: nat, ip: nat, j: nat)
    requires Inv(t) && CanUnlink(t, dp, k, ip) && 1 <= j < |t|
    ensures CountOk(Cleared(t, dp, k), j)
  {
    var t' := Cleared(t, dp, k);
    OneLink(t, dp, k, ip);
    if t[ip].kind == Dir {
      ParentStays(t, dp, k, ip);
    }
    assert CountOk(t, j);
    EntryIsRef(t, dp, k);
    forall d, l ensures IsRef(t', j, d, l) <==>
      && IsRef(t, j, d, l) && !(j == ip && d == dp && l == k)
      && !(t[ip].kind == Dir && j == dp && d == ip && l == 1)
    {
      UnlinkRef(t, dp, k, ip, j, d, l);
    }
    if j == ip {
      RefsLose(t, t', j, dp, k);
    } else if t[ip].kind == Dir && j == dp {
      RefsLose(t, t', j, ip, 1);
    } else {
      RefsSame(t, t', j);
    }
  }

  lemma UnlinkDots(t: Table, dp: nat, k: nat, ip: nat, d: nat)
    requires Inv(t) && CanUnlink(t, dp, k, ip) && d < |t|
    ensures var t' := Cleared(t, dp, k); DotsOk(t', d) && ParentOk(t', d)
  {
    var t' := Cleared(t, dp, k);
    OneLink(t, dp, k, ip);
    if t[ip].kind == Dir {
      ParentStays(t, dp, k, ip);
    }
    assert DotsOk(t, d) && ParentOk(t, d) && DotsOk(t, dp);
    if InTree(t'[d]) && d != ROOTINO {
      var p := t[d].dirents[1].inum;
      var l :| Names(t, p, l, d);
      assert Names(t', p, l, d);
    }
  }

  lemma UnlinkChild(t: Table, dp: nat, k: nat, ip: nat, d: nat, l: nat)
    requires Inv(t) && CanUnlink(t, dp, k, ip) && d < |t|
    ensures ChildOk(Cleared(t, dp, k), d, l)
  {
    OneLink(t, dp, k, ip);
    if t[ip].kind == Dir {
      ParentStays(t, dp, k, ip);
    }
    assert DotsOk(t, d) && ChildOk(t, d, l);
    if 2 <= l < |t[d].dirents| && t[d].dirents[l].inum == ip && t[ip].kind == Dir && InTree(t[d]) {
      EntryIsRef(t, d, l);
      EmptyHasOneLink(t, dp, k, ip, d, l);
    }
  }

  lemma UnlinkKeepsTree(t: Table, dp: nat, k: nat, ip: nat)
    requires Inv(t) && CanUnlink(t, dp, k, ip)
    ensures TreeOk(Cleared(t, dp, k))
  {
    var t' := Cleared(t, dp, k);
    OneLink(t, dp, k, ip);
    if t[ip].kind == Dir {
      ParentStays(t, dp, k, ip);
    }
    forall d | 0 <= d < |t'| ensures DotsOk(t', d) && ParentOk(t', d) {
      UnlinkDots(t, dp, k, ip, d);
    }
    forall d, l, m | 0 <= d < |t'| && 0 <= l && 0 <= m ensures Distinct(t', d, l, m) {
      assert Distinct(t, d, l, m);
    }
    forall d, l | 0 <= d < |t'| && 0 <= l ensures ChildOk(t', d, l) {
      UnlinkChild(t, dp, k, ip, d, l);
    }
  }

  /** unlink keeps every link count right, names unique and the tree whole, whatever its directory. What the
      lookup finds has a link, so the panic in front of the test for an empty directory is never met; and an
      empty directory that is taken away had no other link. */
  lemma UnlinkKeepsCounts(t: Table, dp: nat, name: string)
    requires Inv(t) && dp < |t| && t[dp].kind == Dir
    ensures Inv(Unlink(t, dp, name).0)
    ensures Trunc(name) != "." && Trunc(name) != ".." && Lookup(t[dp].dirents, name, 0) < |t[dp].dirents| ==>
      var ip := t[dp].dirents[Lookup(t[dp].dirents, name, 0)].inum;
      && ip < |t| && t[ip].nlink >= 1
      && (Unlink(t, dp, name).1 == if t[ip].kind == Dir && !DotsOnly(t[ip].dirents) then Failed else Done)
      && (t[ip].kind == Dir && DotsOnly(t[ip].dirents) ==> t[ip].nlink == 1)
  {
    var k := Lookup(t[dp].dirents, name, 0);
    if Trunc(name) != "." && Trunc(name) != ".." && k < |t[dp].dirents| {
      FoundHasLink(t, dp, name);
    }
    if Unlink(t, dp, name).1 == Done {
      UnlinkFinds(t, dp, name);
      var ip := t[dp].dirents[k].inum;
      OneLink(t, dp, k, ip);
      forall j | 1 <= j < |t| ensures CountOk(Cleared(t, dp, k), j) {
        UnlinkCounts(t, dp, k, ip, j);
      }
      UnlinkKeepsTree(t, dp, k, ip);
    }
  }

  lemma FoundHasLink(t: Table, dp: nat, name: string)
    requires Inv(t) && dp < |t| && t[dp].kind == Dir && Trunc(name) != "." && Trunc(name) != ".."
    requires Lookup(t[dp].dirents, name, 0) < |t[dp].dirents|
    ensures var ip := t[dp].dirents[Lookup(t[dp].dirents, name, 0)].inum; ip < |t| && t[ip].nlink >= 1
  {
    var ds, k := t[dp].dirents, Lookup(t[dp].dirents, name, 0);
    assert DotsOk(t, dp) && Holds(ds[k], name) && ChildOk(t, dp, k);
    assert Trunc(ds[0].name) == "." && Trunc(ds[1].name) == "..";
    EntryIsRef(t, dp, k);
    assert (dp, k) in Refs(t, ds[k].inum) && CountOk(t, ds[k].inum);
  }

  /** dirlookup finds inodes in use only, but for the ".." of a directory that has left the tree. */
  lemma FoundIsInUse(t: Table, dp: nat, name: string)
    requires Inv(t) && dp < |t| && t[dp].kind == Dir
    requires Lookup(t[dp].dirents, name, 0) < |t[dp].dirents|
    ensures var ip := t[dp].dirents[Lookup(t[dp].dirents, name, 0)].inum;
      1 <= ip < |t| && (InTree(t[dp]) || Trunc(name) != ".." ==> t[ip].kind != Free)
  {
    var ds, k := t[dp].dirents, Lookup(t[dp].dirents, name, 0);
    assert DotsOk(t, dp) && Holds(ds[k], name) && ChildOk(t, dp, k) && ParentOk(t, dp);
    assert Trunc(ds[0].name) == "." && Trunc(ds[1].name) == "..";
  }

  // ---- what the calls answer, and what names mean afterwards

  /** Entry k is the first of that name. */
  predicate FirstNamed(ds: seq<Dirent>, name: string, k: nat) {
    k < |ds| && Holds(ds[k], name) && forall j :: 0 <= j < k ==> !Holds(ds[j], name)
  }

  predicate Named(ds: seq<Dirent>, name: string) {
    exists k :: 0 <= k < |ds| && Holds(ds[k], name)
  }

  /** The inode that a name in directory d means, as dirlookup has it. */
  function Resolve(t: Table, d: nat, name: string): Option<nat>
    requires d < |t|
  {
    var ds := t[d].dirents;
    var k := Lookup(ds, name, 0);
    if k < |ds| then Some(ds[k].inum) else None
  }

  lemma ResolveIs(t: Table, d: nat, name: string)
    requires d < |t|
    ensures Resolve(t, d, name) == None <==> !Named(t[d].dirents, name)
    ensures forall k: nat :: FirstNamed(t[d].dirents, name, k) ==> Resolve(t, d, name) == Some(t[d].dirents[k].inum)
  {
    var ds := t[d].dirents;
    var r := Lookup(ds, name, 0);
    forall k: nat | FirstNamed(ds, name, k) ensures r == k {
    }
  }

  /** create of a name that is there: it gives the inode back exactly when a file is asked for and the inode is a regular
      file, and fails otherwise; nothing changes. */
  lemma CreateOfOld(t: Table, dp: nat, name: string, kind: Kind, k: nat)
    requires dp < |t| && t[dp].kind == Dir && kind != Free && FirstNamed(t[dp].dirents, name, k)
    ensures var (u, r), i := Create(t, dp, name, kind), t[dp].dirents[k].inum;
      && u == t
      && (r == Existing(i) <==> kind == File && i < |t| && t[i].kind == File)
      && (r != Existing(i) <==> r == Failed)
  {
    ResolveIs(t, dp, name);
  }

  /** It makes an inode exactly when the name is new and an inode is free. */
  lemma CreateMakes(t: Table, dp: nat, name: string, kind: Kind)
    requires dp < |t| && t[dp].kind == Dir && kind != Free
    ensures var r := Create(t, dp, name, kind).1;
      && (r.Made? <==> !Named(t[dp].dirents, name) && exists i :: 1 <= i < |t| && t[i].kind == Free)
      && (r.NoInodes? <==> !Named(t[dp].dirents, name) && forall i :: 1 <= i < |t| ==> t[i].kind != Free)
      && (r.Made? ==> 1 <= r.inum < |t| && t[r.inum].kind == Free && forall i :: 1 <= i < r.inum ==> t[i].kind != Free)
  {
    ResolveIs(t, dp, name);
  }

  /** Then the name means the new inode, whose one link it is, a new directory has its dots, and every other name in
      every directory means what it meant. */
  lemma CreateNames(t: Table, dp: nat, name: string, kind: Kind, d: nat, n: string)
    requires dp < |t| && t[dp].kind == Dir && kind != Free && Create(t, dp, name, kind).1.Made? && d < |t|
    ensures var (u, r) := Create(t, dp, name, kind);
      var i := r.inum;
      && |u| == |t| && i < |t| && u[i].kind == kind && u[i].nlink == 1
      && Resolve(u, d, n) ==
           if d == dp then (if Trunc(n) == Trunc(name) then Some(i) else Resolve(t, d, n))
           else if d != i then Resolve(t, d, n)
           else if kind == Dir && Trunc(n) == "." then Some(i)
           else if kind == Dir && Trunc(n) == ".." && dp != 0 then Some(dp)
           else None
  {
    var i := FreeInode(t, 1);
    if d == dp {
      EnteredMeans(t[dp].dirents, name, i, n);
    } else if d == i && kind == Dir {
      DotsMean(i, dp, n);
    }
  }

  lemma DotsMean(i: nat, dp: nat, n: string)
    requires i != 0
    ensures var ds := Dots(i, dp);
      Lookup(ds, n, 0) == if Trunc(n) == "." then 0 else if Trunc(n) == ".." && dp != 0 then 1 else 2
  {
    var ds := Dots(i, dp);
    assert Trunc(".") == "." && Trunc("..") == ".." && |"."| != |".."|;
    assert ds[0] == Dirent(i, ".") && ds[1] == Dirent(dp, "..");
    assert Holds(ds[0], n) <==> Trunc(n) == ".";
    assert Holds(ds[1], n) <==> Trunc(n) == ".." && dp != 0;
  }

  lemma EnteredMeans(ds: seq<Dirent>, name: string, i: nat, n: string)
    requires i != 0 && Lookup(ds, name, 0) == |ds|
    ensures var es := Entered(ds, name, i);
      var a, b := Lookup(ds, n, 0), Lookup(es, n, 0);
      if Trunc(n) == Trunc(name) then b < |es| && es[b].inum == i
      else (b < |es| <==> a < |ds|) && (a < |ds| ==> es[b].inum == ds[a].inum)
  {
    var es, v := Entered(ds, name, i), Vacant(ds, 0);
    var a, b := Lookup(ds, n, 0), Lookup(es, n, 0);
    TruncTwice(name);
    assert es[v] == Dirent(i, Trunc(name));
    if Trunc(n) == Trunc(name) {
      assert Holds(es[v], n);
      assert forall j :: 0 <= j < |ds| && j != v ==> es[j] == ds[j] && !Holds(ds[j], name);
    } else {
      OthersMean(ds, es, v, n);
    }
  }

  /** A change at entry v, which has not that name before or after it, does not matter. */
  lemma OthersMean(ds: seq<Dirent>, es: seq<Dirent>, v: nat, n: string)
    requires |ds| <= |es| && v < |es| <= |ds| + 1 && !Holds(es[v], n) && (v < |ds| ==> !Holds(ds[v], n)) && (|es| > |ds| ==> v == |ds|)
    requires forall j :: 0 <= j < |ds| && j != v ==> es[j] == ds[j]
    ensures var a, b := Lookup(ds, n, 0), Lookup(es, n, 0);
      (b < |es| <==> a < |ds|) && (a < |ds| ==> b < |es| && es[b] == ds[a])
  {
    var a, b := Lookup(ds, n, 0), Lookup(es, n, 0);
    if a < |ds| {
      assert Holds(es[a], n);
    }
  }

  lemma TruncTwice(name: string)
    ensures Trunc(Trunc(name)) == Trunc(name)
  {
  }

  /** So a second create of the name gives the inode back when both are for regular files, and fails otherwise. */
  lemma CreateTwice(t: Table, dp: nat, name: string, kind: Kind, again: Kind)
    requires dp < |t| && t[dp].kind == Dir && kind != Free && again != Free && Create(t, dp, name, kind).1.Made?
    ensures var (u, r) := Create(t, dp, name, kind);
      && dp < |u| && u[dp].kind == Dir
      && Create(u, dp, name, again) == (u, if kind == File && again == File then Existing(r.inum) else Failed)
  {
    CreateNames(t, dp, name, kind, dp, name);
  }

  /** link fails exactly for a directory, and for a name that is there; when it does not, the name means the inode and
      every other name means what it meant. */
  lemma LinkNames(t: Table, ip: nat, dp: nat, name: string, d: nat, n: string)
    requires dp < |t| && t[dp].kind == Dir && 0 < ip < |t| && t[ip].kind != Free && d < |t|
    ensures var (u, r) := Link(t, ip, dp, name);
      && |u| == |t|
      && (r == Failed <==> t[ip].kind == Dir || Named(t[dp].dirents, name)) && (r != Failed <==> r == Done)
      && Resolve(u, d, n) == if r == Done && d == dp && Trunc(n) == Trunc(name) then Some(ip) else Resolve(t, d, n)
  {
    ResolveIs(t, dp, name);
    if Link(t, ip, dp, name).1 == Done && d == dp {
      EnteredMeans(t[dp].dirents, name, ip, n);
    }
  }

  /** unlink fails exactly for a dot, for a name that is not there, and for a directory that is not empty; when it does
      not, the name means nothing any more, and every other name means what it meant. */
  lemma UnlinkNames(t: Table, dp: nat, name: string, d: nat, n: string)
    requires Inv(t) && dp < |t| && t[dp].kind == Dir && d < |t|
    ensures var (u, r) := Unlink(t, dp, name);
      && |u| == |t|
      && (r == Failed <==> Trunc(name) == "." || Trunc(name) == ".." || Resolve(t, dp, name) == None || Full(t, Resolve(t, dp, name)))
      && (r != Failed <==> r == Done)
      && Resolve(u, d, n) == if r == Done && d == dp && Trunc(n) == Trunc(name) then None else Resolve(t, d, n)
  {
    if Trunc(name) != "." && Trunc(name) != ".." && Resolve(t, dp, name).Some? {
      FoundHasLink(t, dp, name);
    }
    if Unlink(t, dp, name).1 == Done {
      UnlinkFinds(t, dp, name);
      if d == dp {
        ClearedMeans(t, dp, name, n);
      }
    }
  }

  /** A directory with something in it. */
  predicate Full(t: Table, i: Option<nat>) {
    i.Some? && i.value < |t| && t[i.value].kind == Dir && !DotsOnly(t[i.value].dirents)
  }

  lemma ClearedMeans(t: Table, dp: nat, name: string, n: string)
    requires Inv(t) && dp < |t| && t[dp].kind == Dir && Lookup(t[dp].dirents, name, 0) < |t[dp].dirents|
    ensures var ds := t[dp].dirents;
      var k := Lookup(ds, name, 0);
      var es := ds[k := Dirent(0, "")];
      var a, b := Lookup(ds, n, 0), Lookup(es, n, 0);
      if Trunc(n) == Trunc(name) then b == |es| else b == a
  {
    var ds, k := t[dp].dirents, Lookup(t[dp].dirents, name, 0);
    OnlyNamed(t, dp, k);
    GoneMeans(ds, k, name, n);
  }

  lemma OnlyNamed(t: Table, dp: nat, k: nat)
    requires Inv(t) && dp < |t| && t[dp].kind == Dir && k < |t[dp].dirents| && t[dp].dirents[k].inum != 0
    ensures var ds := t[dp].dirents;
      forall j :: 0 <= j < |ds| && j != k && ds[j].inum != 0 ==> Trunc(ds[j].name) != Trunc(ds[k].name)
  {
    var ds := t[dp].dirents;
    forall j | 0 <= j < |ds| && j != k && ds[j].inum != 0 ensures Trunc(ds[j].name) != Trunc(ds[k].name) {
      assert Distinct(t, dp, j, k) && Distinct(t, dp, k, j);
    }
  }

  /** The one entry of a name is cleared. */
  lemma GoneMeans(ds: seq<Dirent>, k: nat, name: string, n: string)
    requires k < |ds| && k == Lookup(ds, name, 0)
    requires forall j :: 0 <= j < |ds| && j != k && ds[j].inum != 0 ==> Trunc(ds[j].name) != Trunc(ds[k].name)
    ensures var es := ds[k := Dirent(0, "")];
      var a, b := Lookup(ds, n, 0), Lookup(es, n, 0);
      if Trunc(n) == Trunc(name) then b == |es| else b == a
  {
    var es := ds[k := Dirent(0, "")];
    var a, b := Lookup(ds, n, 0), Lookup(es, n, 0);
    if b < |es| {
      assert es[b] == ds[b] && Holds(ds[b], n);
    }
    if Trunc(n) != Trunc(name) && a < |ds| {
      assert es[a] == ds[a];
    }
  }

  // ---- the last iput

  lemma ReapKeepsCounts(t: Table, i: nat)
    requires Inv(t) && 1 <= i < |t| && t[i].kind != Free && t[i].nlink == 0
    ensures Inv(Reap(t, i))
  {
    var t' := Reap(t, i);
    assert CountOk(t, i) && DotsOk(t, i);
    assert Refs(t, i) == {};
    forall j | 1 <= j < |t'| ensures CountOk(t', j) {
      assert CountOk(t, j);
      RefsSame(t, t', j);
    }
    forall d | 0 <= d < |t'| ensures DotsOk(t', d) && ParentOk(t', d) {
      assert DotsOk(t, d) && ParentOk(t, d);
      if d != i && InTree(t[d]) && d != ROOTINO {
        var p := t[d].dirents[1].inum;
        var l :| Names(t, p, l, d);
        assert Names(t', p, l, d);
      }
    }
    forall d, k, l | 0 <= d < |t'| && 0 <= k && 0 <= l ensures Distinct(t', d, k, l) {
      assert Distinct(t, d, k, l);
    }
    forall d, k | 0 <= d < |t'| && 0 <= k ensures ChildOk(t', d, k) {
      assert ChildOk(t, d, k) && DotsOk(t, d);
      if 2 <= k < |t[d].dirents| && t[d].dirents[k].inum != 0 && InTree(t[d]) {
        EntryIsRef(t, d, k);
        assert (d, k) in Refs(t, t[d].dirents[k].inum);
      }
    }
  }

  // ---- every run

  datatype Call =
    | CreateCall(dp: nat, name: string, kind: Kind)
    | LinkCall(ip: nat, dp: nat, name: string)
    | UnlinkCall(dp: nat, name: string)
    | ReapCall(i: nat)

  predicate IsDirectory(t: Table, d: nat) {
    d < |t| && t[d].kind == Dir
  }

  predicate Applies(t: Table, call: Call) {
    match call
    case CreateCall(dp, _, kind) => 0 < |t| && IsDirectory(t, dp) && kind != Free
    case LinkCall(ip, dp, _) => IsDirectory(t, dp) && ip < |t| && t[ip].kind != Free
    case UnlinkCall(dp, _) => IsDirectory(t, dp)
    case ReapCall(i) => 1 <= i < |t| && t[i].kind != Free && t[i].nlink == 0
  }

  /** The call adds an entry only to a directory in the tree, and no count overflows. */
  predicate Fits(t: Table, call: Call)
    requires Applies(t, call)
  {
    match call
    case CreateCall(dp, name, kind) =>
      Create(t, dp, name, kind).1.Made? ==> InTree(t[dp]) && (kind == Dir ==> t[dp].nlink < MAXSHORT)
    case LinkCall(ip, dp, name) =>
      Link(t, ip, dp, name).1.Done? ==> InTree(t[dp]) && t[ip].nlink < MAXSHORT
    case _ => true
  }

  function Apply(t: Table, call: Call): Table
    requires Applies(t, call)
  {
    match call
    case CreateCall(dp, name, kind) => Create(t, dp, name, kind).0
    case LinkCall(ip, dp, name) => Link(t, ip, dp, name).0
    case UnlinkCall(dp, name) => Unlink(t, dp, name).0
    case ReapCall(i) => Reap(t, i)
  }

  /** What mkfs leaves without files: the root, whose dots name itself. */
  function Mkfs(n: nat): Table {
    seq(n, i requires 0 <= i < n => if i == ROOTINO then Inode(Dir, 1, Dots(ROOTINO, ROOTINO)) else Inode(Free, 0, []))
  }

  lemma MkfsIsOk(n: nat)
    requires ROOTINO < n
    ensures Inv(Mkfs(n))
  {
    var t := Mkfs(n);
    assert "." != "..";
    forall i | 1 <= i < n ensures CountOk(t, i) {
      if i == ROOTINO {
        assert IsRef(t, ROOTINO, ROOTINO, 1);
        assert Refs(t, i) == {(ROOTINO, 1)};
      } else {
        assert Refs(t, i) == {};
      }
    }
  }

  /** The table after a run of calls; those that do not apply when their turn comes are skipped. */
  function After(n: nat, calls: seq<Call>): Table {
    if calls == [] then Mkfs(n)
    else
      var t, call := After(n, calls[..|calls| - 1]), calls[|calls| - 1];
      if Applies(t, call) then Apply(t, call) else t
  }

  /** Every call of the run fitted when its turn came. */
  ghost predicate AllFit(n: nat, calls: seq<Call>) {
    forall k :: 0 <= k < |calls| ==>
      var t := After(n, calls[..k]); Applies(t, calls[k]) ==> Fits(t, calls[k])
  }

  lemma CallKeepsInv(t: Table, call: Call)
    requires Inv(t) && Applies(t, call)
    ensures Inv(Apply(t, call)) <==> Fits(t, call)
  {
    match call
    case CreateCall(dp, name, kind) => CreateIsExact(t, dp, name, kind);
    case LinkCall(ip, dp, name) => LinkIsExact(t, ip, dp, name);
    case UnlinkCall(dp, name) => UnlinkKeepsCounts(t, dp, name);
    case ReapCall(i) => ReapKeepsCounts(t, i);
  }

  /** Over every run in which entries are made only in directories that are still in the tree, and no count
      overflows, each link count is the number of entries that name the inode, and names are unique. */
  lemma {:induction false} CountsHold(n: nat, calls: seq<Call>)
    requires ROOTINO < n && AllFit(n, calls)
    ensures Inv(After(n, calls))
  {
    if calls == [] {
      MkfsIsOk(n);
    } else {
      var last := |calls| - 1;
      var t := After(n, calls[..last]);
      assert AllFit(n, calls[..last]) by {
        forall k | 0 <= k < last ensures calls[..last][..k] == calls[..k] {
        }
      }
      CountsHold(n, calls[..last]);
      if Applies(t, calls[last]) {
        assert Fits(t, calls[last]);
        CallKeepsInv(t, calls[last]);
      }
    }
  }

  /** Empty entries behind the last one change nothing. */
  lemma PaddedKeepsInv(t: Table, d: nat, n: nat)
    requires Inv(t) && d < |t| && InTree(t[d])
    ensures Inv(t[d := t[d].(dirents := t[d].dirents + seq(n, _ => Dirent(0, "")))])
  {
    var t' := t[d := t[d].(dirents := t[d].dirents + seq(n, _ => Dirent(0, "")))];
    forall i | 1 <= i < |t| ensures CountOk(t', i) {
      assert CountOk(t, i);
      RefsSame(t, t', i);
    }
    PaddedKeepsTree(t, d, n);
  }

  lemma PaddedKeepsTree(t: Table, d: nat, n: nat)
    requires TreeOk(t) && d < |t| && InTree(t[d])
    ensures TreeOk(t[d := t[d].(dirents := t[d].dirents + seq(n, _ => Dirent(0, "")))])
  {
    var t' := t[d := t[d].(dirents := t[d].dirents + seq(n, _ => Dirent(0, "")))];
    forall e | 0 <= e < |t| ensures DotsOk(t', e) && ParentOk(t', e) {
      assert DotsOk(t, e) && ParentOk(t, e) && DotsOk(t, d);
      forall p, k | Names(t, p, k, e) ensures Names(t', p, k, e) {
      }
    }
    forall e, k, l | 0 <= e < |t| && 0 <= k && 0 <= l ensures Distinct(t', e, k, l) {
      assert Distinct(t, e, k, l);
    }
    forall e, k | 0 <= e < |t| && 0 <= k ensures ChildOk(t', e, k) {
      assert ChildOk(t, e, k);
      assert k < |t[e].dirents| && t[e].dirents[k].inum < |t| ==> DotsOk(t, t[e].dirents[k].inum);
    }
  }

  // ---- a run that goes wrong

  lemma MkdirInRoot(t: Table)
    requires t == Mkfs(4)
    ensures var r := Create(t, ROOTINO, "d", Dir);
      && r.1 == Made(2) && |r.0| == 4 && r.0[2] == Inode(Dir, 1, Dots(2, ROOTINO)) && r.0[3].kind == Free
      && r.0[ROOTINO] == Inode(Dir, 2, Dots(ROOTINO, ROOTINO) + [Dirent(2, "d")])
  {
    var ds := t[ROOTINO].dirents;
    assert ds == Dots(ROOTINO, ROOTINO) && "." != "d" && Trunc("..") != Trunc("d");
    assert Lookup(ds, "d", 0) == 2 && Vacant(ds, 0) == 2;
    assert FreeInode(t, 1) == 2;
  }

  lemma RmdirInRoot(t: Table)
    requires |t| == 4 && t[2] == Inode(Dir, 1, Dots(2, ROOTINO)) && t[3].kind == Free
    requires t[ROOTINO] == Inode(Dir, 2, Dots(ROOTINO, ROOTINO) + [Dirent(2, "d")])
    ensures var r := Unlink(t, ROOTINO, "d");
      && r.1 == Done && |r.0| == 4 && r.0[1].kind == Dir
      && r.0[2] == Inode(Dir, 0, Dots(2, ROOTINO)) && r.0[3].kind == Free
  {
    var ds := t[ROOTINO].dirents;
    assert "." != "d" && Trunc("..") != Trunc("d");
    assert Holds(ds[2], "d") && Lookup(ds, "d", 0) == 2;
  }

  lemma CreateInEmpty(t: Table)
    requires |t| == 4 && t[2] == Inode(Dir, 0, Dots(2, ROOTINO)) && t[3].kind == Free
    requires t[1].kind != Free
    ensures Create(t, 2, "x", File).1 == Made(3)
  {
    var ds := t[2].dirents;
    assert "." != "x" && Trunc("..") != Trunc("x");
    assert Lookup(ds, "x", 0) == 2 && FreeInode(t, 1) == 3;
  }

  lemma AfterMore(n: nat, calls: seq<Call>, call: Call)
    requires Applies(After(n, calls), call)
    ensures After(n, calls + [call]) == Apply(After(n, calls), call)
  {
    assert (calls + [call])[..|calls|] == calls;
  }

  /** The condition on the directory is needed: mkdir d, unlink d, and then, as a process whose current directory is
      still d can, create x in d. This run from a fresh file system breaks the link counts. */
  lemma UnlinkedParentMiscounts()
    ensures exists calls :: !Inv(After(4, calls))
  {
    var calls := AfterMkdir();
    calls := AfterRmdir(calls);
    var t := After(4, calls);
    CreateInEmpty(t);
    AfterMore(4, calls, CreateCall(2, "x", File));
    if Inv(t) {
      CreateIsExact(t, 2, "x", File);
      assert !Inv(After(4, calls + [CreateCall(2, "x", File)]));
    }
  }

  lemma AfterMkdir() returns (calls: seq<Call>)
    ensures var t := After(4, calls);
      && |t| == 4 && t[2] == Inode(Dir, 1, Dots(2, ROOTINO)) && t[3].kind == Free
      && t[ROOTINO] == Inode(Dir, 2, Dots(ROOTINO, ROOTINO) + [Dirent(2, "d")])
  {
    MkdirInRoot(Mkfs(4));
    calls := [CreateCall(ROOTINO, "d", Dir)];
    AfterMore(4, [], calls[0]);
    assert [] + calls == calls;
  }

  lemma AfterRmdir(before: seq<Call>) returns (calls: seq<Call>)
    requires var t := After(4, before);
      && |t| == 4 && t[2] == Inode(Dir, 1, Dots(2, ROOTINO)) && t[3].kind == Free
      && t[ROOTINO] == Inode(Dir, 2, Dots(ROOTINO, ROOTINO) + [Dirent(2, "d")])
    ensures var t := After(4, calls);
      && |t| == 4 && t[1].kind == Dir && t[2] == Inode(Dir, 0, Dots(2, ROOTINO)) && t[3].kind == Free
  {
    RmdirInRoot(After(4, before));
    calls := before + [UnlinkCall(ROOTINO, "d")];
    AfterMore(4, before, UnlinkCall(ROOTINO, "d"));
  }

  // ---- a run after which ".." leads nowhere

  /** d, which is inode 2, has the directory b, which is inode 3. */
  predicate Nested(t: Table) {
    && |t| == 4 && t[3] == Inode(Dir, 1, Dots(3, 2)) && t[2] == Inode(Dir, 2, Dots(2, ROOTINO) + [Dirent(3, "b")])
    && t[ROOTINO] == Inode(Dir, 2, Dots(ROOTINO, ROOTINO) + [Dirent(2, "d")])
  }

  lemma MkdirInD(t: Table)
    requires |t| == 4 && t[2] == Inode(Dir, 1, Dots(2, ROOTINO)) && t[3].kind == Free
    requires t[ROOTINO] == Inode(Dir, 2, Dots(ROOTINO, ROOTINO) + [Dirent(2, "d")])
    ensures var r := Create(t, 2, "b", Dir); r.1 == Made(3) && Nested(r.0)
  {
    var ds := t[2].dirents;
    assert "." != "b" && Trunc("..") != Trunc("b");
    assert Lookup(ds, "b", 0) == 2 && Vacant(ds, 0) == 2 && FreeInode(t, 1) == 3;
  }

  /** b has been removed, and is still open. */
  predicate Orphaned(t: Table) {
    && |t| == 4 && t[3] == Inode(Dir, 0, Dots(3, 2)) && t[2] == Inode(Dir, 1, Dots(2, ROOTINO) + [Dirent(0, "")])
    && t[ROOTINO] == Inode(Dir, 2, Dots(ROOTINO, ROOTINO) + [Dirent(2, "d")])
  }

  lemma RmdirInD(t: Table)
    requires Nested(t)
    ensures Orphaned(Unlink(t, 2, "b").0)
  {
    var ds := t[2].dirents;
    assert "." != "b" && Trunc("..") != Trunc("b");
    assert Holds(ds[2], "b") && Lookup(ds, "b", 0) == 2;
  }

  lemma RmdirOfParent(t: Table)
    requires Orphaned(t)
    ensures var u := Unlink(t, ROOTINO, "d").0;
      |u| == 4 && u[3] == Inode(Dir, 0, Dots(3, 2)) && u[2].kind == Dir && u[2].nlink == 0
  {
    var ds := t[ROOTINO].dirents;
    assert "." != "d" && Trunc("..") != Trunc("d");
    assert Holds(ds[2], "d") && Lookup(ds, "d", 0) == 2;
  }

  lemma Extended(before: seq<Call>, call: Call) returns (calls: seq<Call>)
    requires Inv(After(4, before)) && Applies(After(4, before), call) && Fits(After(4, before), call)
    ensures After(4, calls) == Apply(After(4, before), call) && Inv(After(4, calls))
  {
    CallKeepsInv(After(4, before), call);
    AfterMore(4, before, call);
    calls := before + [call];
  }

  /** FoundIsInUse leaves out one case, and it can happen: mkdir d, mkdir d/b, and then, while b is the current directory
      of a process, unlink d/b and unlink d. Every count is right, and ".." in b names a free inode. */
  lemma ParentIsGone()
    ensures exists calls ::
      var t := After(4, calls);
      && Inv(t) && |t| == 4 && t[3] == Inode(Dir, 0, Dots(3, 2)) && t[2].kind == Free
      && Lookup(t[3].dirents, "..", 0) == 1
  {
    MkfsIsOk(4);
    MkdirInRoot(Mkfs(4));
    var calls := Extended([], CreateCall(ROOTINO, "d", Dir));
    MkdirInD(After(4, calls));
    calls := Extended(calls, CreateCall(2, "b", Dir));
    RmdirInD(After(4, calls));
    calls := Extended(calls, UnlinkCall(2, "b"));
    calls := ParentReaped(calls);
    assert Trunc("..") != Trunc(".");
  }

  lemma ParentReaped(before: seq<Call>) returns (calls: seq<Call>)
    requires Inv(After(4, before)) && Orphaned(After(4, before))
    ensures var t := After(4, calls); Inv(t) && |t| == 4 && t[3] == Inode(Dir, 0, Dots(3, 2)) && t[2].kind == Free
  {
    RmdirOfParent(After(4, before));
    calls := Extended(before, UnlinkCall(ROOTINO, "d"));
    calls := Extended(calls, ReapCall(2));
  }

  // ---- a run that takes a count over its limit

  /** The k-th of MAXSHORT different names, none of which is "." or "..". */
  function LinkName(k: nat): string
    requires k < MAXSHORT
  {
    [(48 + k / 182) as char, (48 + k % 182) as char]
  }

  lemma NamesDiffer(j: nat, k: nat)
    requires j < MAXSHORT && k < MAXSHORT && LinkName(j) == LinkName(k)
    ensures j == k
  {
    assert (48 + j / 182) as char == (48 + k / 182) as char && (48 + j % 182) as char == (48 + k % 182) as char;
    assert j / 182 == k / 182 && j % 182 == k % 182;
  }

  predicate OldName(name: string, k: nat)
    requires k < MAXSHORT
  {
    name == "." || name == ".." || name == "f" || exists j :: 0 <= j < k && name == LinkName(j)
  }

  /** Inode 2 is a file with k links besides its first. */
  ghost predicate HasLinks(t: Table, k: nat) {
    && |t| == 3 && Inv(t) && k < MAXSHORT && t[2].kind == File && t[2].nlink == k + 1
    && t[ROOTINO].kind == Dir
    && forall e :: 0 <= e < |t[ROOTINO].dirents| && t[ROOTINO].dirents[e].inum != 0 ==> OldName(t[ROOTINO].dirents[e].name, k)
  }

  lemma NameIsNew(ds: seq<Dirent>, k: nat)
    requires k < MAXSHORT && forall e :: 0 <= e < |ds| && ds[e].inum != 0 ==> OldName(ds[e].name, k)
    ensures Lookup(ds, LinkName(k), 0) == |ds|
  {
    var e := Lookup(ds, LinkName(k), 0);
    if e < |ds| {
      OldIsNotNew(ds[e].name, k);
    }
  }

  lemma OldIsNotNew(name: string, k: nat)
    requires k < MAXSHORT && OldName(name, k)
    ensures Trunc(name) != Trunc(LinkName(k))
  {
    if j: nat :| j < k && name == LinkName(j) {
      if LinkName(j) == LinkName(k) {
        NamesDiffer(j, k);
      }
    } else {
      assert LinkName(k)[0] != '.';
    }
  }

  lemma FirstName(calls: seq<Call>)
    requires calls == [CreateCall(ROOTINO, "f", File)]
    ensures HasLinks(After(3, calls), 0)
  {
    var t := Mkfs(3);
    var ds := t[ROOTINO].dirents;
    MkfsIsOk(3);
    assert "." != "f" && Trunc("..") != Trunc("f");
    assert Lookup(ds, "f", 0) == 2 && Vacant(ds, 0) == 2 && FreeInode(t, 1) == 2;
    CreateIsExact(t, ROOTINO, "f", File);
    AfterMore(3, [], CreateCall(ROOTINO, "f", File));
    assert [] + calls == calls;
  }

  lemma OneMoreLink(t: Table, k: nat)
    requires HasLinks(t, k) && k + 1 < MAXSHORT
    ensures HasLinks(Link(t, 2, ROOTINO, LinkName(k)).0, k + 1)
  {
    var ds, t' := t[ROOTINO].dirents, Link(t, 2, ROOTINO, LinkName(k)).0;
    NameIsNew(ds, k);
    LinkIsExact(t, 2, ROOTINO, LinkName(k));
    EnteredIs(ds, LinkName(k), 2);
    forall e | 0 <= e < |t'[ROOTINO].dirents| && t'[ROOTINO].dirents[e].inum != 0
      ensures OldName(t'[ROOTINO].dirents[e].name, k + 1)
    {
      if e != Vacant(ds, 0) {
        assert OldName(ds[e].name, k);
      }
    }
  }

  lemma {:induction false} ManyLinks(k: nat) returns (calls: seq<Call>)
    requires k < MAXSHORT
    ensures HasLinks(After(3, calls), k)
  {
    if k == 0 {
      calls := [CreateCall(ROOTINO, "f", File)];
      FirstName(calls);
    } else {
      calls := ManyLinks(k - 1);
      calls := AfterLink(calls, k - 1);
    }
  }

  lemma AfterLink(before: seq<Call>, k: nat) returns (calls: seq<Call>)
    requires HasLinks(After(3, before), k) && k + 1 < MAXSHORT
    ensures HasLinks(After(3, calls), k + 1) == true
  {
    var link := LinkCall(2, ROOTINO, LinkName(k));
    OneMoreLink(After(3, before), k);
    AfterMore(3, before, link);
    calls := before + [link];
  }

  /** The condition on the count is needed too: after MAXSHORT - 1 links to a file every count is still right, and one
      more link, which the code makes, wraps it. */
  lemma CountOverflows()
    ensures exists calls, name: string ::
      var t := After(3, calls);
      && Inv(t) && InTree(t[ROOTINO]) && 2 < |t| && t[2].kind == File && Link(t, 2, ROOTINO, name).1 == Done
      && !Inv(After(3, calls + [LinkCall(2, ROOTINO, name)]))
  {
    var last := MAXSHORT - 1;
    var calls := ManyLinks(last);
    var t, name := After(3, calls), LinkName(last);
    NameIsNew(t[ROOTINO].dirents, last);
    LinkIsExact(t, 2, ROOTINO, name);
    AfterMore(3, calls, LinkCall(2, ROOTINO, name));
  }
}
