/** The buffer cache of bio.c over the disk of memide.c: NBUF buffers on a doubly linked ring that is
    kept in most-recently-used order, where a dirty buffer is pinned until its block is written. */
module BufferCache {
  import opened Basics
  import opened Disk
  import opened Sequences

  const NBUF: nat := 30
  const HEAD: nat := NBUF          // bcache.head is kept as the entry after the last buffer
  const ROOTDEV: nat := 1

  datatype Buf = Buf(valid: bool, dirty: bool, dev: nat, blockno: nat, locked: bool,
                     refcnt: nat, prev: nat, next: nat, data: Block)
  {
    predicate Keyed(d: nat, b: nat) { dev == d && blockno == b }
    predicate Busy() { refcnt > 0 || dirty }
    function Links(p: nat, n: nat): Buf { this.(prev := p, next := n) }
    /** The buffer after bget has given out one more reference to it, for block b. */
    function Reserved(b: nat): Buf {
      if Keyed(ROOTDEV, b) then this.(refcnt := refcnt + 1)
      else Buf(false, false, ROOTDEV, b, false, 1, prev, next, data)
    }
    /** The buffer once its holder has locked it for block b: a hit keeps the data. */
    function Held(b: nat, disk: Image): Buf
      requires b < |disk|
    {
      var r := Reserved(b);
      r.(locked := true, valid := true, data := if r.valid then data else disk[b])
    }
    /** The buffer without its place on the ring. */
    function Core(): Buf { Links(0, 0) }
  }

  // ---- the ring

  /** The nodes met when walking next from the head until the head comes round again. */
  function Cycle(ring: seq<nat>): seq<nat> {
    [HEAD] + ring + [HEAD]
  }

  ghost predicate Ring(b: seq<Buf>, ring: seq<nat>) {
    && |b| == NBUF + 1
    && Below(ring, NBUF) && NoDuplicates(ring)
    && (forall k :: 0 <= k <= |ring| ==>
          b[Cycle(ring)[k]].next == Cycle(ring)[k + 1] && b[Cycle(ring)[k + 1]].prev == Cycle(ring)[k])
  }

  /** b->next->prev = b->prev; b->prev->next = b->next */
  function Unlink(b: seq<Buf>, i: nat): (r: seq<Buf>)
    requires i < |b| && b[i].next < |b| && b[i].prev < |b|
    ensures |r| == |b|
  {
    var c := b[b[i].next := b[b[i].next].(prev := b[i].prev)];
    c[b[i].prev := c[b[i].prev].(next := b[i].next)]
  }

  /** b->next = head.next; b->prev = &head; head.next->prev = b; head.next = b */
  function PushFront(b: seq<Buf>, i: nat): (r: seq<Buf>)
    requires i < |b| == NBUF + 1 && b[HEAD].next < |b|
    ensures |r| == |b|
  {
    var first := b[HEAD].next;
    var c := b[i := b[i].Links(HEAD, first)];
    var d := c[first := c[first].(prev := i)];
    d[HEAD := d[HEAD].(next := i)]
  }

  lemma UnlinkKeepsRing(b: seq<Buf>, ring: seq<nat>, k: nat)
    requires Ring(b, ring) && k < |ring|
    ensures Cycle(ring)[k + 1] == ring[k] && b[ring[k]].next < |b| && b[ring[k]].prev < |b|
    ensures Ring(Unlink(b, ring[k]), Without(ring, k))
  {
    var c, c' := Cycle(ring), Cycle(Without(ring, k));
    assert c[k + 1] == ring[k];
    assert b[ring[k]].next == c[k + 2] && b[ring[k]].prev == c[k];
    var r := Unlink(b, ring[k]);
    forall m | 0 <= m < |ring| ensures r[c'[m]].next == c'[m + 1] && r[c'[m + 1]].prev == c'[m] {
      if m < k {
        assert c'[m] == c[m] && c'[m + 1] == c[m + 1];
      } else if m == k {
        assert c'[m] == c[m] && c'[m + 1] == c[m + 2];
      } else {
        assert c'[m] == c[m + 1] && c'[m + 1] == c[m + 2];
      }
    }
  }

  /** Only the links matter to the ring. */
  lemma RingFrame(b: seq<Buf>, c: seq<Buf>, ring: seq<nat>)
    requires Ring(b, ring) && |c| == |b|
    requires forall i :: 0 <= i < |b| ==> c[i].next == b[i].next && c[i].prev == b[i].prev
    ensures Ring(c, ring)
  {
  }

  lemma UnlinkKeepsCores(b: seq<Buf>, i: nat, j: nat)
    requires i < |b| && b[i].next < |b| && b[i].prev < |b| && j < |b|
    ensures Unlink(b, i)[j].Core() == b[j].Core()
  {
  }

  lemma PushFrontKeepsCores(b: seq<Buf>, i: nat, j: nat)
    requires i < |b| == NBUF + 1 && b[HEAD].next < |b| && j < |b|
    ensures PushFront(b, i)[j].Core() == b[j].Core()
  {
  }

  lemma PushFrontKeepsRing(b: seq<Buf>, ring: seq<nat>, i: nat)
    requires Ring(b, ring) && i < NBUF && i !in ring
    ensures b[HEAD].next < |b| && Ring(PushFront(b, i), [i] + ring)
  {
    var c, c' := Cycle(ring), Cycle([i] + ring);
    assert b[c[0]].next == c[1];
    var r := PushFront(b, i);
    forall m | 0 <= m <= |ring| + 1 ensures r[c'[m]].next == c'[m + 1] && r[c'[m + 1]].prev == c'[m] {
      if m >= 2 {
        assert c'[m] == c[m - 1] && c'[m + 1] == c[m];
      } else if m == 1 {
        assert c'[1] == i && c'[2] == c[1];
      } else {
        assert c'[0] == HEAD && c'[1] == i;
      }
    }
  }

  // ---- the cache

  /** What holds of every buffer. One that is valid, clean and unlocked agrees with the disk; one that is not valid
      is on its way to a process that has yet to lock it. */
  ghost predicate BufferOk(b: Buf, disk: Image) {
    && b.dev <= ROOTDEV
    && (b.dev == 0 ==> !b.valid && !b.Busy())
    && (b.dev == ROOTDEV ==> b.blockno < |disk|)
    && (b.dirty ==> b.valid)
    && (b.refcnt == 0 ==> !b.locked && (b.dev == ROOTDEV ==> b.valid))
    && (b.dev == ROOTDEV && b.valid && !b.locked && !b.dirty ==> b.data == disk[b.blockno])
  }

  /** Every buffer is fine and no block is cached twice. */
  ghost predicate TableOk(b: seq<Buf>, disk: Image) {
    && |b| == NBUF + 1
    && (forall i :: 0 <= i < NBUF ==> BufferOk(b[i], disk))
    && (forall i, j :: 0 <= i < j < NBUF && b[i].dev == b[j].dev == ROOTDEV ==> b[i].blockno != b[j].blockno)
  }

  /** The cache at one moment. */
  datatype Snapshot = Snapshot(buf: seq<Buf>, ring: seq<nat>, disk: Image)

  ghost predicate SnapshotOk(s: Snapshot) {
    TableOk(s.buf, s.disk) && |s.ring| == NBUF && Ring(s.buf, s.ring)
  }

  lemma SameCores(b: seq<Buf>, c: seq<Buf>, disk: Image)
    requires TableOk(b, disk) && |c| == |b|
    requires forall i :: 0 <= i < NBUF ==> c[i].Core() == b[i].Core()
    ensures TableOk(c, disk)
  {
    forall i | 0 <= i < NBUF ensures BufferOk(c[i], disk) && c[i].dev == b[i].dev && c[i].blockno == b[i].blockno {
      assert c[i].Core() == b[i].Core();
    }
  }

  class Cache {
    const buf: array<Buf>
    var disk: Image
    ghost var ring: seq<nat>
    ghost var writes: seq<Write>     // every block written to the disk, in order

    // "== true" keeps the invariant one fact for the verifier at every call
    ghost predicate Valid()
      reads this, buf
    {
      buf.Length == NBUF + 1 && SnapshotOk(Snapshot(buf[..], ring, disk)) == true
    }

    /** binit, on a disk whose contents survive: every buffer is empty. */
    constructor (image: Image)
      ensures Valid() && fresh(buf)
      ensures disk == image && writes == []
      ensures forall i :: 0 <= i < NBUF ==> buf[i].dev == 0
    {
      var empty := Buf(false, false, 0, 0, false, 0, HEAD, HEAD, seq(WORDS, _ => 0));
      buf := new Buf[NBUF + 1](_ => empty);
      disk := image;
      ring := [];
      writes := [];
      new;
      var i := 0;
      while i < NBUF
        invariant 0 <= i <= NBUF && |ring| == i
        invariant Ring(buf[..], ring)
        invariant forall k :: 0 <= k < i ==> ring[k] < i
        invariant forall k :: 0 <= k < NBUF ==> buf[k].Core() == empty.Core()
        invariant disk == image && writes == []
      {
        ghost var was := buf[..];
        PushFrontKeepsRing(was, ring, i);
        PushBufferFront(i);
        ring := [i] + ring;
        i := i + 1;
      }
    }

    /** The first walk of bget, from the most recently used buffer on: is the block cached? */
    method FindCached(dev: nat, blockno: nat) returns (r: Option<nat>)
      requires Valid()
      ensures r.Some? ==> r.value < NBUF && buf[r.value].Keyed(dev, blockno)
      ensures r.None? ==> forall i :: 0 <= i < NBUF ==> !buf[i].Keyed(dev, blockno)
    {
      var b := buf[HEAD].next;
      ghost var k := 0;
      assert Cycle(ring)[0] == HEAD == Cycle(ring)[NBUF + 1];
      while b != HEAD
        invariant 0 <= k <= NBUF && b == Cycle(ring)[k + 1]
        invariant forall m :: 0 <= m < k ==> !buf[ring[m]].Keyed(dev, blockno)
        decreases NBUF - k
      {
        if buf[b].dev == dev && buf[b].blockno == blockno {
          return Some(b);
        }
        b := buf[b].next;
        k := k + 1;
      }
      forall i | 0 <= i < NBUF ensures !buf[i].Keyed(dev, blockno) {
        PermutationIsOnto(ring, NBUF, i);
      }
      return None;
    }

    /** The second walk of bget, backwards: the least recently used buffer that nobody needs. */
    method FindVictim() returns (r: Option<nat>)
      requires Valid()
      ensures r.None? ==> forall i :: 0 <= i < NBUF ==> buf[i].Busy()
      ensures r.Some? ==>
        && r.value < NBUF && !buf[r.value].Busy()
        && exists k :: 0 <= k < NBUF && ring[k] == r.value && forall m :: k < m < NBUF ==> buf[ring[m]].Busy()
    {
      var b := buf[HEAD].prev;
      ghost var k := NBUF;
      assert Cycle(ring)[0] == HEAD == Cycle(ring)[NBUF + 1];
      while b != HEAD
        invariant 0 <= k <= NBUF && b == Cycle(ring)[k]
        invariant forall m :: k <= m < NBUF ==> buf[ring[m]].Busy()
        decreases k
      {
        if buf[b].refcnt == 0 && !buf[b].dirty {
          assert ring[k - 1] == b;
          return Some(b);
        }
        b := buf[b].prev;
        k := k - 1;
      }
      forall i | 0 <= i < NBUF ensures buf[i].Busy() {
        PermutationIsOnto(ring, NBUF, i);
      }
      return None;
    }

    /** bget under bcache.lock, whether or not another process has the buffer locked; None is the panic. */
    method Reserve(dev: nat, blockno: nat) returns (r: Option<nat>)
      requires Valid() && dev == ROOTDEV && blockno < |disk|
      modifies buf
      ensures Valid()
      ensures r.None? <==> old(forall i :: 0 <= i < NBUF ==> !buf[i].Keyed(dev, blockno) && buf[i].Busy())
      ensures r.None? ==> buf[..] == old(buf[..])
      ensures r.Some? ==> r.value < NBUF && buf[..] == old(buf[..][r.value := buf[r.value].Reserved(blockno)])
      ensures r.Some? && !old(buf[r.value].Keyed(dev, blockno)) ==>
        && old(forall i :: 0 <= i < NBUF ==> !buf[i].Keyed(dev, blockno))
        && old(!buf[r.value].Busy())
        && exists k :: 0 <= k < NBUF && ring[k] == r.value && forall m :: k < m < NBUF ==> old(buf[..])[ring[m]].Busy()
    {
      ghost var was := buf[..];
      r := FindCached(dev, blockno);
      if r.Some? {
        var b := r.value;
        buf[b] := buf[b].(refcnt := buf[b].refcnt + 1);
      } else {
        r := FindVictim();
        if r.Some? {
          var b := r.value;
          buf[b] := buf[b].(dev := dev);
          buf[b] := buf[b].(blockno := blockno);
          buf[b] := buf[b].(valid := false, dirty := false);
          buf[b] := buf[b].(refcnt := 1);
        }
      }
      RingFrame(was, buf[..], ring);
    }

    /** acquiresleep of a buffer that nobody has locked. */
    method Lock(i: nat)
      requires Valid() && i < NBUF && buf[i].refcnt > 0 && !buf[i].locked
      modifies buf
      ensures Valid() && buf[..] == old(buf[..][i := buf[i].(locked := true)])
    {
      ghost var was := buf[..];
      buf[i] := buf[i].(locked := true);
      RingFrame(was, buf[..], ring);
    }

    /** memide.c iderw: write a dirty buffer out, else read an invalid one in. */
    method Iderw(i: nat)
      requires Valid() && i < NBUF && buf[i].locked && buf[i].dev == ROOTDEV
      requires !buf[i].valid || buf[i].dirty
      modifies this`disk, this`writes, buf
      ensures Valid()
      ensures var b := old(buf[i]);
        if b.dirty then
          && disk == old(disk)[b.blockno := b.data] && writes == old(writes) + [Write(b.blockno, b.data)]
          && buf[..] == old(buf[..])[i := b.(dirty := false, valid := true)]
        else
          && disk == old(disk) && writes == old(writes)
          && buf[..] == old(buf[..])[i := b.(data := disk[b.blockno], valid := true)]
    {
      ghost var was := buf[..];
      if buf[i].dirty {
        buf[i] := buf[i].(dirty := false);
        disk := disk[buf[i].blockno := buf[i].data];
        writes := writes + [Write(buf[i].blockno, buf[i].data)];
      } else {
        buf[i] := buf[i].(data := disk[buf[i].blockno]);
      }
      buf[i] := buf[i].(valid := true);
      RingFrame(was, buf[..], ring);
    }

    /** bread, once no other process has the buffer locked: the locked buffer of a block, holding the cached data if
        there is any and the disk's if not. */
    method Bread(blockno: nat) returns (r: Option<nat>)
      requires Valid() && blockno < |disk|
      requires forall i :: 0 <= i < NBUF && buf[i].Keyed(ROOTDEV, blockno) ==> !buf[i].locked
      modifies buf, this`disk, this`writes
      ensures Valid() && disk == old(disk) && writes == old(writes)
      ensures r.None? <==> old(forall i :: 0 <= i < NBUF ==> !buf[i].Keyed(ROOTDEV, blockno) && buf[i].Busy())
      ensures r.None? ==> buf[..] == old(buf[..])
      ensures r.Some? ==>
        && r.value < NBUF
        && buf[..] == old(buf[..][r.value := buf[r.value].Held(blockno, disk)])
        && (old(buf[r.value].Keyed(ROOTDEV, blockno)) ||
            old(!buf[r.value].Busy() && forall i :: 0 <= i < NBUF ==> !buf[i].Keyed(ROOTDEV, blockno)))
    {
      r := Reserve(ROOTDEV, blockno);
      if r.None? {
        return;
      }
      Lock(r.value);
      if !buf[r.value].valid {
        Iderw(r.value);
      }
    }

    /** The holder of a buffer changes its bytes in place. */
    method SetData(i: nat, data: Block)
      requires Valid() && i < NBUF && buf[i].locked && buf[i].dev == ROOTDEV && buf[i].valid
      modifies buf
      ensures Valid()
      ensures buf[..] == old(buf[..][i := buf[i].(data := data)])
    {
      ghost var was := buf[..];
      buf[i] := buf[i].(data := data);
      RingFrame(was, buf[..], ring);
    }

    /** b->flags |= B_DIRTY, which is how log.c pins the buffer it holds. */
    method Pin(i: nat)
      requires Valid() && i < NBUF && buf[i].locked && buf[i].dev == ROOTDEV && buf[i].valid
      modifies buf
      ensures Valid()
      ensures buf[..] == old(buf[..][i := buf[i].(dirty := true)])
    {
      ghost var was := buf[..];
      buf[i] := buf[i].(dirty := true);
      RingFrame(was, buf[..], ring);
    }

    /** bwrite: the caller's buffer goes to the disk and is no longer pinned. */
    method Bwrite(i: nat)
      requires Valid() && i < NBUF && buf[i].locked && buf[i].dev == ROOTDEV && buf[i].valid
      modifies buf, this`disk, this`writes
      ensures Valid()
      ensures disk == old(disk[buf[i].blockno := buf[i].data])
      ensures writes == old(writes + [Write(buf[i].blockno, buf[i].data)])
      ensures buf[..] == old(buf[..][i := buf[i].(dirty := false)])
    {
      ghost var was := buf[..];
      buf[i] := buf[i].(dirty := true);
      RingFrame(was, buf[..], ring);
      Iderw(i);
    }

    method UnlinkBuffer(i: nat)
      requires i < buf.Length && buf[i].next < buf.Length && buf[i].prev < buf.Length
      modifies buf
      ensures buf[..] == old(Unlink(buf[..], i))
    {
      buf[buf[i].next] := buf[buf[i].next].(prev := buf[i].prev);
      buf[buf[i].prev] := buf[buf[i].prev].(next := buf[i].next);
    }

    method PushBufferFront(i: nat)
      requires i < HEAD < buf.Length == NBUF + 1 && buf[HEAD].next < buf.Length
      modifies buf
      ensures buf[..] == old(PushFront(buf[..], i))
    {
      buf[i] := buf[i].(next := buf[HEAD].next);
      buf[i] := buf[i].(prev := HEAD);
      buf[buf[HEAD].next] := buf[buf[HEAD].next].(prev := i);
      buf[HEAD] := buf[HEAD].(next := i);
    }

    /** The relinking of brelse: take buffer i out of the ring and put it at the front. */
    method MoveToFront(i: nat)
      requires Valid() && i < NBUF
      modifies buf, this`ring
      ensures Valid()
      ensures forall j :: 0 <= j < NBUF ==> buf[j].Core() == old(buf[j].Core())
      ensures exists k :: 0 <= k < NBUF && old(ring)[k] == i && ring == [i] + Without(old(ring), k)
    {
      ghost var was := buf[..];
      PermutationIsOnto(ring, NBUF, i);
      ghost var k :| 0 <= k < NBUF && ring[k] == i;
      UnlinkKeepsRing(was, ring, k);
      PushFrontKeepsRing(Unlink(was, i), Without(ring, k), i);
      UnlinkBuffer(i);
      PushBufferFront(i);
      ring := [i] + Without(ring, k);
      forall j | 0 <= j < NBUF ensures buf[j].Core() == was[j].Core() {
        UnlinkKeepsCores(was, i, j);
        PushFrontKeepsCores(Unlink(was, i), i, j);
      }
      SameCores(was, buf[..], disk);
    }

    /** brelse: unlock, drop the reference, and move the buffer to the front when nobody is left. */
    method Brelse(i: nat)
      requires Valid() && i < NBUF && buf[i].locked && buf[i].refcnt > 0 && buf[i].dev == ROOTDEV
      requires buf[i].valid && (buf[i].dirty || buf[i].data == disk[buf[i].blockno])
      modifies buf, this`ring
      ensures Valid()
      ensures buf[i].Core() == old(buf[i].(locked := false, refcnt := buf[i].refcnt - 1).Core())
      ensures forall j :: 0 <= j < NBUF && j != i ==> buf[j].Core() == old(buf[j].Core())
      ensures old(buf[i].refcnt) > 1 ==> ring == old(ring)
      ensures old(buf[i].refcnt) == 1 ==> exists k :: 0 <= k < NBUF && old(ring)[k] == i && ring == [i] + Without(old(ring), k)
    {
      ghost var was := buf[..];
      buf[i] := buf[i].(locked := false);
      buf[i] := buf[i].(refcnt := buf[i].refcnt - 1);
      RingFrame(was, buf[..], ring);
      if buf[i].refcnt == 0 {
        MoveToFront(i);
      }
    }
  }
}
