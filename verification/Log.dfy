/** log.c over the buffer cache: log_write pins blocks, commit turns them into the write sequence
    of CrashRecovery, and recovery replays it. */
module Log {
  import opened Basics
  import opened Disk
  import opened Sequences
  import opened CrashRecovery
  import opened BufferCache
  import opened Reservation

  /** slot[t] is the buffer that pins block lh[t], or NBUF once it is not pinned; nothing else is dirty. */
  ghost predicate Pins(b: seq<Buf>, lh: seq<nat>, slot: seq<nat>) {
    && |b| == NBUF + 1 && |slot| == |lh|
    && (forall t :: 0 <= t < |lh| && slot[t] != NBUF ==>
          slot[t] < NBUF && b[slot[t]].Keyed(ROOTDEV, lh[t]) && b[slot[t]].dirty)
    && (forall i :: 0 <= i < NBUF && b[i].dirty ==> i in slot)
  }

  ghost predicate AllPinned(b: seq<Buf>, lh: seq<nat>, slot: seq<nat>) {
    Pins(b, lh, slot) && NBUF !in slot
  }

  /** Marking a held buffer dirty pins its block: as a new entry, or where it is already pinned. */
  lemma PinsGrow(b: seq<Buf>, disk: Image, lh: seq<nat>, slot: seq<nat>, i: nat)
    requires TableOk(b, disk) && AllPinned(b, lh, slot) && i < NBUF && b[i].dev == ROOTDEV
    ensures var c := b[i := b[i].(dirty := true)];
      if b[i].blockno in lh then AllPinned(c, lh, slot) else AllPinned(c, lh + [b[i].blockno], slot + [i])
  {
    if t :| 0 <= t < |lh| && lh[t] == b[i].blockno {
      assert b[slot[t]].Keyed(ROOTDEV, lh[t]);
      assert slot[t] == i;
    } else {
      var s := slot + [i];
      forall j | 0 <= j < NBUF && (b[j].dirty || j == i) ensures j in s {
        assert j in slot || s[|slot|] == j;
      }
    }
  }

  /** Pins do not look at data, locks or links. */
  lemma KeepsPins(b: seq<Buf>, c: seq<Buf>, lh: seq<nat>, slot: seq<nat>)
    requires Pins(b, lh, slot) && |c| == NBUF + 1
    requires forall i :: 0 <= i < NBUF ==>
      c[i].dirty == b[i].dirty && c[i].dev == b[i].dev && c[i].blockno == b[i].blockno
    ensures Pins(c, lh, slot)
  {
  }

  /** Nobody is using a buffer. */
  ghost predicate Quiet(b: seq<Buf>) {
    |b| == NBUF + 1 && forall i :: 0 <= i < NBUF ==> b[i].refcnt == 0
  }

  /** What commit needs of the processes that hold buffers meanwhile: none of them has a block locked that it must
      copy, and there is a buffer to read log blocks into. */
  ghost predicate Calm(b: seq<Buf>, l: Layout, lh: seq<nat>) {
    && |b| == NBUF + 1
    && (forall i :: 0 <= i < NBUF && b[i].dev == ROOTDEV && (l.InLog(b[i].blockno) || b[i].blockno in lh) ==> !b[i].locked)
    && exists x :: 0 <= x < NBUF && !b[x].Busy()
  }

  /** From x to y the buffer stayed with those who hold it, and as it was if one of them has it locked. */
  predicate KeepsHold(x: Buf, y: Buf) {
    && y.refcnt == x.refcnt && y.locked == x.locked
    && (x.refcnt > 0 ==> y.dev == x.dev && y.blockno == x.blockno)
    && (x.locked ==> y.Core() == x.Core())
  }

  predicate StaysWith(x: Buf, y: Buf) {
    KeepsHold(x, y) && (y.dirty ==> x.dirty)
  }

  ghost predicate SameHolders(b: seq<Buf>, c: seq<Buf>) {
    |b| == |c| == NBUF + 1 && forall i :: 0 <= i < NBUF ==> StaysWith(b[i], c[i])
  }

  lemma CalmStays(b: seq<Buf>, c: seq<Buf>, l: Layout, lh: seq<nat>, disk: Image)
    requires Calm(b, l, lh) && SameHolders(b, c) && TableOk(b, disk)
    ensures Calm(c, l, lh)
  {
    var x :| 0 <= x < NBUF && !b[x].Busy();
    assert StaysWith(b[x], c[x]);
    forall i | 0 <= i < NBUF && c[i].locked ensures c[i].dev == b[i].dev && c[i].blockno == b[i].blockno && b[i].locked {
      assert StaysWith(b[i], c[i]) && BufferOk(b[i], disk);
    }
  }

  lemma SameHoldersTwice(b: seq<Buf>, c: seq<Buf>, d: seq<Buf>)
    requires SameHolders(b, c) && SameHolders(c, d)
    ensures SameHolders(b, d)
  {
    forall i | 0 <= i < NBUF ensures StaysWith(b[i], d[i]) {
      assert StaysWith(b[i], c[i]) && StaysWith(c[i], d[i]);
    }
  }

  ghost predicate RoomTwice(b: seq<Buf>) {
    |b| == NBUF + 1 && exists x, y :: 0 <= x < y < NBUF && !b[x].Busy() && !b[y].Busy()
  }

  lemma QuietHasRoom(b: seq<Buf>, lh: seq<nat>, slot: seq<nat>)
    requires Pins(b, lh, slot) && Quiet(b) && forall t :: 0 <= t < |slot| ==> slot[t] == NBUF
    ensures RoomTwice(b) == true
  {
    assert !b[0].Busy() && !b[1].Busy();
  }

  lemma QuietStays(b: seq<Buf>, c: seq<Buf>)
    requires Quiet(b) && SameHolders(b, c)
    ensures Quiet(c) == true
  {
    forall i | 0 <= i < NBUF ensures c[i].refcnt == 0 {
      assert StaysWith(b[i], c[i]);
    }
  }

  /** With nothing logged and nothing held, every buffer can be had and every valid one agrees with the disk. */
  lemma QuietIsClean(b: seq<Buf>, d: Image, lh: seq<nat>, slot: seq<nat>)
    requires TableOk(b, d) && Quiet(b) && Pins(b, lh, slot) && lh == []
    ensures forall i :: 0 <= i < NBUF ==> !b[i].Busy() && !b[i].locked
    ensures forall i :: 0 <= i < NBUF && b[i].dev == ROOTDEV ==> b[i].valid && b[i].blockno < |d| && b[i].data == d[b[i].blockno]
  {
    forall i | 0 <= i < NBUF ensures !b[i].dirty && BufferOk(b[i], d) {
      assert b[i].dirty ==> i in slot;
    }
  }

  lemma CleanIsUnpinned(b: seq<Buf>, c: seq<Buf>, lh: seq<nat>, slot: seq<nat>)
    requires Pins(b, lh, slot) && lh == [] && SameHolders(b, c)
    ensures Pins(c, lh, slot) == true
  {
    forall i | 0 <= i < NBUF ensures !c[i].dirty {
      assert StaysWith(b[i], c[i]) && (b[i].dirty ==> i in slot);
    }
  }

  lemma RoomTwiceStays(b: seq<Buf>, c: seq<Buf>)
    requires RoomTwice(b) && SameHolders(b, c)
    ensures RoomTwice(c)
  {
    var x, y :| 0 <= x < y < NBUF && !b[x].Busy() && !b[y].Busy();
    assert StaysWith(b[x], c[x]) && StaysWith(b[y], c[y]);
  }

  ghost predicate PinnedAt(b: seq<Buf>, home: nat, s: nat) {
    |b| == NBUF + 1 && s < NBUF && b[s].Keyed(ROOTDEV, home) && b[s].dirty
  }

  /** A log block and a home block can be read: the latter is pinned in buffer s, or nothing is pinned. */
  ghost predicate PairFits(b: seq<Buf>, home: nat, s: nat) {
    && |b| == NBUF + 1 && (exists x :: 0 <= x < NBUF && !b[x].Busy())
    && (PinnedAt(b, home, s) || (RoomTwice(b) && forall i :: 0 <= i < NBUF ==> !b[i].dirty))
  }

  /** Reading the first leaves room for the second. */
  lemma RoomForTwo(b: seq<Buf>, c: seq<Buf>, x: nat, home: nat, s: nat)
    requires PairFits(b, home, s) && |c| == NBUF + 1 && x < NBUF && (PinnedAt(b, home, s) ==> x != s)
    requires forall i :: 0 <= i < NBUF && i != x ==> c[i].Core() == b[i].Core()
    ensures exists i :: 0 <= i < NBUF && (c[i].Keyed(ROOTDEV, home) || !c[i].Busy())
  {
    if PinnedAt(b, home, s) {
      assert c[s].Core() == b[s].Core();
    } else {
      var u, v :| 0 <= u < v < NBUF && !b[u].Busy() && !b[v].Busy();
      var w := if u == x then v else u;
      assert c[w].Core() == b[w].Core();
    }
  }

  lemma PinnedFits(b: seq<Buf>, l: Layout, lh: seq<nat>, slot: seq<nat>, t: nat)
    requires Pins(b, lh, slot) && Calm(b, l, lh) && t < |lh| && slot[t] != NBUF
    requires forall u :: 0 <= u < |lh| ==> !l.InLog(lh[u])
    ensures PairFits(b, lh[t], slot[t]) == true && PinnedAt(b, lh[t], slot[t])
    ensures forall i :: 0 <= i < NBUF && b[i].dev == ROOTDEV && (l.InLog(b[i].blockno) || b[i].blockno == lh[t]) ==> !b[i].locked
    ensures forall i :: 0 <= i < NBUF && b[i].dev == ROOTDEV && l.InLog(b[i].blockno) ==> !b[i].dirty
  {
    forall i | 0 <= i < NBUF && b[i].dirty ensures !l.InLog(b[i].blockno) || slot[t] == NBUF || i in slot {
    }
    LogIsClean(b, l, lh, slot);
  }

  lemma HomeFits(b: seq<Buf>, l: Layout, lh: seq<nat>, slot: seq<nat>, t: nat)
    requires Pins(b, lh, slot) && Calm(b, l, lh) && t < |lh|
    requires forall u :: 0 <= u < |lh| ==> !l.InLog(lh[u])
    requires slot[t] == NBUF ==> RoomTwice(b) && forall u :: 0 <= u < |slot| ==> slot[u] == NBUF
    ensures PairFits(b, lh[t], slot[t]) == true && (PinnedAt(b, lh[t], slot[t]) || forall i :: 0 <= i < NBUF ==> !b[i].dirty)
    ensures forall i :: 0 <= i < NBUF && b[i].dev == ROOTDEV && (l.InLog(b[i].blockno) || b[i].blockno == lh[t]) ==> !b[i].locked
    ensures forall i :: 0 <= i < NBUF && b[i].dev == ROOTDEV && l.InLog(b[i].blockno) ==> !b[i].dirty
  {
    if slot[t] != NBUF {
      PinnedFits(b, l, lh, slot, t);
    }
  }

  /** No log block is ever pinned. */
  lemma LogIsClean(b: seq<Buf>, l: Layout, lh: seq<nat>, slot: seq<nat>)
    requires Pins(b, lh, slot) && forall u :: 0 <= u < |lh| ==> !l.InLog(lh[u])
    ensures forall i :: 0 <= i < NBUF && b[i].dev == ROOTDEV && l.InLog(b[i].blockno) ==> !b[i].dirty
  {
    forall i | 0 <= i < NBUF && b[i].dirty ensures !l.InLog(b[i].blockno) {
      var u :| 0 <= u < |slot| && slot[u] == i;
      assert b[slot[u]].Keyed(ROOTDEV, lh[u]);
    }
  }

  /** y is what is left of h when its holder lets go of it, having written it out or not. */
  predicate LetGo(h: Buf, y: Buf) {
    && y.refcnt == h.refcnt - 1 && !y.locked && y.valid && (y.dirty ==> h.dirty)
    && y.dev == h.dev && y.blockno == h.blockno
  }

  lemma HeadFits(b: seq<Buf>, l: Layout, lh: seq<nat>, slot: seq<nat>)
    requires Pins(b, lh, slot) && Calm(b, l, lh) && 0 < l.size
    requires forall u :: 0 <= u < |lh| ==> !l.InLog(lh[u])
    ensures exists i :: 0 <= i < NBUF && !b[i].Busy()
    ensures forall i :: 0 <= i < NBUF && b[i].Keyed(ROOTDEV, l.start) ==> !b[i].locked && !b[i].dirty
  {
    assert l.InLog(l.start);
    LogIsClean(b, l, lh, slot);
  }

  /** Buffer x can be had for block b: it is the block's and unlocked, or nobody's. */
  predicate Readable(c: seq<Buf>, x: nat, b: nat) {
    x < |c| && !c[x].locked && (c[x].Keyed(ROOTDEV, b) || !c[x].Busy())
  }

  /** What the loops of log.c hold once both blocks are read; x is the log block's buffer. */
  lemma PairRead(c: seq<Buf>, e: seq<Buf>, x: nat, y: nat, b: nat, home: nat, d: Image)
    requires TableOk(c, d) && b < |d| && home < |d| && Readable(c, x, b) && Readable(c, y, home)
    requires x < NBUF && y < NBUF && x != y && !c[x].dirty && e == c[x := c[x].Held(b, d)][y := c[y].Held(home, d)]
    ensures forall i :: i == x || i == y ==> e[i].locked && e[i].refcnt >= 1 && e[i].dev == ROOTDEV && e[i].valid
    ensures e[x].blockno == b && !e[x].dirty && e[x].data == d[b]
    ensures e[y].blockno == home && e[y].dirty == c[y].dirty && e[y].data == if c[y].dirty then c[y].data else d[home]
    ensures c[y].dirty ==> e[y].Core() == c[y].(refcnt := c[y].refcnt + 1, locked := true).Core() && !c[y].locked
  {
    assert BufferOk(c[x], d) && BufferOk(c[y], d);
  }

  /** A buffer that was read in and let go is still with its holders. */
  lemma OneReleased(b: seq<Buf>, c: seq<Buf>, blockno: nat, x: nat, d: Image)
    requires |b| == |c| == NBUF + 1 && x < NBUF && blockno < |d| && !b[x].locked
    requires (b[x].Keyed(ROOTDEV, blockno) || !b[x].Busy()) && LetGo(b[x].Held(blockno, d), c[x])
    requires forall i :: 0 <= i < NBUF && i != x ==> c[i].Core() == b[i].Core()
    ensures SameHolders(b, c)
  {
    forall i | 0 <= i < NBUF ensures StaysWith(b[i], c[i]) {
      assert i != x ==> c[i].Core() == b[i].Core();
    }
  }

  lemma PairReleased(b: seq<Buf>, c: seq<Buf>, first: nat, second: nat, x: nat, y: nat, d: Image)
    requires |b| == |c| == NBUF + 1 && x < NBUF && y < NBUF && x != y && first < |d| && second < |d|
    requires Readable(b, x, first) && Readable(b, y, second)
    requires LetGo(b[x].Held(first, d), c[x]) == true && LetGo(b[y].Held(second, d), c[y]) == true
    requires forall i :: 0 <= i < NBUF && i != x && i != y ==> c[i].Core() == b[i].Core()
    ensures SameHolders(b, c)
  {
    forall i | 0 <= i < NBUF ensures StaysWith(b[i], c[i]) {
      assert i != x && i != y ==> c[i].Core() == b[i].Core();
    }
  }

  /** Fewer than NBUF pins and no holders leave buffers to recycle. */
  lemma QuietIsCalm(b: seq<Buf>, disk: Image, l: Layout, lh: seq<nat>, slot: seq<nat>)
    requires Pins(b, lh, slot) && Quiet(b) && |lh| < NBUF && TableOk(b, disk)
    ensures Calm(b, l, lh)
  {
    var x := Pigeonhole(slot, NBUF);
    forall i | 0 <= i < NBUF ensures !b[i].locked {
      assert BufferOk(b[i], disk);
    }
  }

  /** The home-block writes that the pinned buffers stand for. */
  ghost function PendingIn(b: seq<Buf>, lh: seq<nat>, slot: seq<nat>): (tx: Transaction)
    requires AllPinned(b, lh, slot)
    ensures Homes(tx) == lh
  {
    seq(|lh|, t requires 0 <= t < |lh| => Write(lh[t], b[slot[t]].data))
  }

  lemma DirtyIsPinned(b: seq<Buf>, lh: seq<nat>, slot: seq<nat>)
    requires AllPinned(b, lh, slot)
    ensures forall i :: 0 <= i < NBUF ==> (b[i].dirty <==> i in slot)
  {
    forall i | 0 <= i < NBUF && i in slot ensures b[i].dirty {
      var t :| 0 <= t < |slot| && slot[t] == i;
      assert b[slot[t]].dirty;
    }
  }

  ghost predicate HeldStay(b: seq<Buf>, c: seq<Buf>) {
    |b| == |c| == NBUF + 1 && forall i :: 0 <= i < NBUF ==> KeepsHold(b[i], c[i])
  }

  /** Only keys and data of pinned buffers matter to what is pending. */
  lemma PinsSameKeys(b: seq<Buf>, c: seq<Buf>, lh: seq<nat>, slot: seq<nat>)
    requires AllPinned(b, lh, slot) && |c| == NBUF + 1
    requires forall i :: 0 <= i < NBUF && (b[i].dirty || c[i].dirty) ==>
      c[i].dirty == b[i].dirty && c[i].dev == b[i].dev && c[i].blockno == b[i].blockno && c[i].data == b[i].data
    ensures AllPinned(c, lh, slot) && PendingIn(c, lh, slot) == PendingIn(b, lh, slot)
  {
  }

  /** Pins depend on the dirty buffers alone. */
  lemma PinsFrame(b: seq<Buf>, c: seq<Buf>, lh: seq<nat>, slot: seq<nat>)
    requires Pins(b, lh, slot) && |c| == NBUF + 1
    requires forall i :: 0 <= i < NBUF && (b[i].dirty || c[i].dirty) ==> c[i].Core() == b[i].Core()
    ensures Pins(c, lh, slot)
    ensures NBUF !in slot ==> PendingIn(c, lh, slot) == PendingIn(b, lh, slot)
  {
    forall i | 0 <= i < NBUF && (b[i].dirty || c[i].dirty)
      ensures c[i].dirty && b[i].dirty && c[i].dev == b[i].dev && c[i].blockno == b[i].blockno && c[i].data == b[i].data
    {
      assert c[i].Core() == b[i].Core();
    }
  }

  /** Writing entry t home releases its pin and no other. */
  lemma PinsShrink(b: seq<Buf>, c: seq<Buf>, lh: seq<nat>, slot: seq<nat>, t: nat, released: nat)
    requires Pins(b, lh, slot) && NoDuplicates(lh) && |c| == NBUF + 1 && t < |lh|
    requires released < NBUF && !c[released].dirty
    requires slot[t] == released || (slot[t] == NBUF && !b[released].dirty)
    requires forall i :: 0 <= i < NBUF && i != released && (b[i].dirty || c[i].dirty) ==> c[i].Core() == b[i].Core()
    ensures Pins(c, lh, slot[t := NBUF])
  {
    forall i | 0 <= i < NBUF && i != released && (b[i].dirty || c[i].dirty)
      ensures c[i].dirty && b[i].dirty && c[i].dev == b[i].dev && c[i].blockno == b[i].blockno
    {
      assert c[i].Core() == b[i].Core();
    }
    forall i | 0 <= i < NBUF && c[i].dirty ensures i in slot[t := NBUF] {
      var u :| 0 <= u < |slot| && slot[u] == i;
      assert slot[t := NBUF][u] == i;
    }
  }

  /** The disk overlaid with the logged updates. */
  ghost function Overlay(disk: Image, tx: Transaction, b: nat): Block
    requires b < |disk|
  {
    if exists t :: 0 <= t < |tx| && tx[t].at == b then
      var t :| 0 <= t < |tx| && tx[t].at == b;
      tx[t].data
    else disk[b]
  }

  lemma OverlayAt(disk: Image, tx: Transaction, t: nat)
    requires NoDuplicates(Homes(tx)) && t < |tx| && tx[t].at < |disk|
    ensures Overlay(disk, tx, tx[t].at) == tx[t].data
  {
    assert forall u :: 0 <= u < |tx| ==> Homes(tx)[u] == tx[u].at;
  }

  /** What Bread hands out is the overlay, whether it hits a pinned buffer, hits a clean one or misses. */
  lemma BreadSeesOverlay(b: seq<Buf>, disk: Image, lh: seq<nat>, slot: seq<nat>, i: nat, blockno: nat)
    requires TableOk(b, disk) && AllPinned(b, lh, slot) && NoDuplicates(lh) && i < NBUF && blockno < |disk|
    requires if b[i].Keyed(ROOTDEV, blockno) then !b[i].locked
             else forall j :: 0 <= j < NBUF ==> !b[j].Keyed(ROOTDEV, blockno)
    ensures b[i].Held(blockno, disk).data == Overlay(disk, PendingIn(b, lh, slot), blockno)
  {
    var tx := PendingIn(b, lh, slot);
    if t :| 0 <= t < |tx| && tx[t].at == blockno {
      assert lh[t] == blockno;
      assert b[slot[t]].Keyed(ROOTDEV, blockno);
    }
  }

  lemma CommitSplits(d: Image, l: Layout, tx: Transaction, e: Image, w: seq<Write>)
    requires TransactionOk(d, l, tx) && tx != []
    requires e == Apply(d, CommitFront(d, l, tx))
    ensures Logged(e, l, Homes(tx)) == tx
    ensures w + CommitWrites(d, l, tx) == w + CommitFront(d, l, tx) + (tx + [HeadWrite(e, l, [])])
    ensures Apply(d, CommitWrites(d, l, tx)) == Apply(e, tx + [HeadWrite(e, l, [])])
  {
    HeadPhase(d, l, tx, e);
    assert CommitWrites(d, l, tx) == CommitFront(d, l, tx) + (tx + [HeadWrite(e, l, [])]);
    ApplyConcat(d, CommitFront(d, l, tx), tx + [HeadWrite(e, l, [])]);
  }

  lemma RecoverIs(d: Image, l: Layout, lh: seq<nat>)
    requires lh == Head(d, l)
    ensures Logged(d, l, lh) + [HeadWrite(d, l, [])] == RecoverWrites(d, l)
    ensures Apply(d, Logged(d, l, lh) + [HeadWrite(d, l, [])]) == Recover(d, l)
  {
  }

  lemma LoggedFrame(d: Image, l: Layout, homes: seq<nat>, w: Write)
    requires !l.InLog(w.at) && |homes| < l.size
    ensures Logged(Store(d, w), l, homes) == Logged(d, l, homes)
  {
    assert forall t :: 0 <= t < |homes| ==> l.InLog(l.Slot(t));
  }

  lemma InstallKeepsHead(d: Image, l: Layout, homes: seq<nat>, c: Image)
    requires HomesOk(|d|, l, homes) && c == Apply(d, Logged(d, l, homes))
    ensures HeadWrite(c, l, []) == HeadWrite(d, l, [])
  {
    var tx := Logged(d, l, homes);
    assert l.InLog(l.start);
    assert forall t :: 0 <= t < |tx| ==> tx[t].at == homes[t];
    ApplyMisses(d, tx, l.start);
  }

  /** Logging a held buffer changes what bread returns for its block and for no other. */
  lemma OverlayUpdated(b: seq<Buf>, c: seq<Buf>, lh: seq<nat>, slot: seq<nat>, lh': seq<nat>, slot': seq<nat>,
                       disk: Image, i: nat, blockno: nat, x: nat)
    requires AllPinned(b, lh, slot) && NoDuplicates(lh) && AllPinned(c, lh', slot') && NoDuplicates(lh')
    requires i < NBUF && x < |disk|
    requires lh' == Absorb(lh, blockno) && slot' == if blockno in lh then slot else slot + [i]
    requires forall j :: 0 <= j < NBUF && j != i ==> c[j].Core() == b[j].Core()
    requires forall j :: 0 <= j < NBUF ==> (c[j].Keyed(ROOTDEV, blockno) <==> j == i)
    ensures Overlay(disk, PendingIn(c, lh', slot'), x)
         == if x == blockno then c[i].data else Overlay(disk, PendingIn(b, lh, slot), x)
  {
    var tx, tx' := PendingIn(b, lh, slot), PendingIn(c, lh', slot');
    assert Homes(tx) == lh && Homes(tx') == lh';
    if x in lh' {
      var t :| 0 <= t < |lh'| && lh'[t] == x;
      assert c[slot'[t]].Keyed(ROOTDEV, x);
      assert Homes(tx')[t] == tx'[t].at;
      OverlayAt(disk, tx', t);
      if x != blockno {
        assert Homes(tx)[t] == tx[t].at;
        OverlayAt(disk, tx, t);
        assert c[slot'[t]].Core() == b[slot[t]].Core();
      }
    } else {
      assert lh <= lh';
      OverlayMisses(disk, tx, x);
      OverlayMisses(disk, tx', x);
    }
  }

  lemma OverlayUpdatedAt(b: seq<Buf>, c: seq<Buf>, lh: seq<nat>, slot: seq<nat>, lh': seq<nat>, slot': seq<nat>,
                         disk: Image, i: nat, blockno: nat)
    requires AllPinned(b, lh, slot) && NoDuplicates(lh) && AllPinned(c, lh', slot') && NoDuplicates(lh') && i < NBUF
    requires lh' == Absorb(lh, blockno) && slot' == if blockno in lh then slot else slot + [i]
    requires forall j :: 0 <= j < NBUF && j != i ==> c[j].Core() == b[j].Core()
    requires forall j :: 0 <= j < NBUF ==> (c[j].Keyed(ROOTDEV, blockno) <==> j == i)
    ensures forall x :: 0 <= x < |disk| ==>
      Overlay(disk, PendingIn(c, lh', slot'), x)
        == if x == blockno then c[i].data else Overlay(disk, PendingIn(b, lh, slot), x)
  {
    forall x | 0 <= x < |disk|
      ensures Overlay(disk, PendingIn(c, lh', slot'), x)
           == if x == blockno then c[i].data else Overlay(disk, PendingIn(b, lh, slot), x)
    {
      OverlayUpdated(b, c, lh, slot, lh', slot', disk, i, blockno, x);
    }
  }

  /** A client that reads block blockno into buffer i, changes it, logs it and lets it go disturbs nobody who holds a
      buffer, and changes what bread returns for that block and for no other. */
  lemma UpdateIsLocal(b: seq<Buf>, c: seq<Buf>, lh: seq<nat>, slot: seq<nat>, lh': seq<nat>, slot': seq<nat>,
                      disk: Image, i: nat, blockno: nat, data: Block)
    requires TableOk(b, disk) && TableOk(c, disk) && i < NBUF && blockno < |disk| && !b[i].locked
    requires AllPinned(b, lh, slot) && NoDuplicates(lh) && AllPinned(c, lh', slot') && NoDuplicates(lh')
    requires lh' == Absorb(lh, blockno) && slot' == if blockno in lh then slot else slot + [i]
    requires b[i].Keyed(ROOTDEV, blockno) || !b[i].Busy()
    requires var h := b[i].Held(blockno, disk);
      c[i].Core() == h.(data := data, dirty := true, locked := false, refcnt := h.refcnt - 1).Core()
    requires forall j :: 0 <= j < NBUF && j != i ==> c[j].Core() == b[j].Core()
    ensures HeldStay(b, c) == true
    ensures forall x :: 0 <= x < |disk| ==>
      Overlay(disk, PendingIn(c, lh', slot'), x) == if x == blockno then data else Overlay(disk, PendingIn(b, lh, slot), x)
  {
    forall j | 0 <= j < NBUF ensures KeepsHold(b[j], c[j]) {
      assert j != i ==> c[j].Core() == b[j].Core();
    }
    assert BufferOk(b[i], disk);
    OverlayUpdatedAt(b, c, lh, slot, lh', slot', disk, i, blockno);
  }

  lemma OverlayMisses(disk: Image, tx: Transaction, x: nat)
    requires x !in Homes(tx) && x < |disk|
    ensures Overlay(disk, tx, x) == disk[x]
  {
    assert forall u :: 0 <= u < |tx| ==> Homes(tx)[u] == tx[u].at;
  }

  lemma AppliedIsOverlay(d: Image, l: Layout, tx: Transaction, r: Image, b: nat)
    requires TransactionOk(d, l, tx) && HasApplied(d, l, tx, r) && b < |d| && !l.InLog(b)
    ensures r[b] == Overlay(d, tx, b)
  {
    assert forall t :: 0 <= t < |tx| ==> Homes(tx)[t] == tx[t].at;
  }

  /** What survives a crash of commit is, block by block, what bread returned before the transaction
      or what it returned at its end, the same choice for every block. */
  lemma CommitIsAtomicForReaders(d: Image, l: Layout, tx: Transaction, k: nat, crashes: seq<nat>, b: nat)
    requires TransactionOk(d, l, tx) && Clean(d, l) && k <= |CommitWrites(d, l, tx)|
    requires b < |d| && !l.InLog(b)
    ensures RecoverThroughCrashes(Apply(d, CommitWrites(d, l, tx)[..k]), l, crashes)[b]
         == if |tx| < k then Overlay(d, tx, b) else d[b]
    ensures Apply(d, CommitWrites(d, l, tx))[b] == Overlay(d, tx, b)
  {
    CrashAtomicity(d, l, tx, k, crashes);
    AppliedIsOverlay(d, l, if |tx| < k then tx else [], RecoverThroughCrashes(Apply(d, CommitWrites(d, l, tx)[..k]), l, crashes), b);
    CommitFinishes(d, l, tx, Apply(d, CommitWrites(d, l, tx)));
    AppliedIsOverlay(d, l, tx, Apply(d, CommitWrites(d, l, tx)), b);
  }

  class Log {
    const cache: Cache
    const layout: Layout
    var lh: seq<nat>                 // log.lh.block[0 .. log.lh.n]
    var outstanding: nat
    var committing: bool
    ghost var slot: seq<nat>         // where the blocks of lh are pinned

    /** The log has at most NBUF - 1 usable blocks, as mkfs lays it out. */
    ghost predicate Sound()
      reads this, cache, cache.buf
    {
      && cache.Valid()
      && layout.size <= NBUF && HomesOk(|cache.disk|, layout, lh) == true
      && Pins(cache.buf[..], lh, slot) == true
    }

    /** Every entry of lh is pinned: the state between transactions and during one. */
    ghost predicate Valid()
      reads this, cache, cache.buf
    {
      Sound() && NBUF !in slot
    }

    /** No entry is pinned: the state after a boot, and after every block went home. */
    ghost predicate NothingPinned()
      reads this
    {
      forall t :: 0 <= t < |slot| ==> slot[t] == NBUF
    }

    constructor (image: Image, l: Layout)
      requires 0 < l.size <= NBUF && l.start + l.size <= |image|
      ensures Valid() && Quiet(cache.buf[..]) && fresh(cache) && fresh(cache.buf)
      ensures cache.disk == image && layout == l && lh == [] && outstanding == 0 && !committing
    {
      cache := new Cache(image);
      layout := l;
      lh := [];
      slot := [];
      outstanding := 0;
      committing := false;
    }

    /** The home-block writes that the current transaction stands for. */
    ghost function Pending(): (tx: Transaction)
      reads this, cache, cache.buf
      requires Valid()
      ensures Homes(tx) == lh
    {
      PendingIn(cache.buf[..], lh, slot)
    }

    /** Both loops of log.c start by reading a log block and then a home block. The home block is
        either pinned (commit) or, after a boot, nothing is pinned at all. */
    method ReadPair(b: nat, home: nat, ghost s: nat) returns (x: nat, y: nat)
      requires cache.Valid() && b < |cache.disk| && home < |cache.disk| && b != home
      requires forall i :: 0 <= i < NBUF && cache.buf[i].Keyed(ROOTDEV, b) ==> !cache.buf[i].locked && !cache.buf[i].dirty
      requires forall i :: 0 <= i < NBUF && cache.buf[i].Keyed(ROOTDEV, home) ==> !cache.buf[i].locked
      requires PairFits(cache.buf[..], home, s)
      modifies cache, cache.buf
      ensures cache.Valid() && cache.disk == old(cache.disk) && cache.writes == old(cache.writes)
      ensures x < NBUF && y < NBUF && x != y
      ensures old(Readable(cache.buf[..], x, b)) == true && old(Readable(cache.buf[..], y, home)) == true
      ensures old(!cache.buf[x].dirty)
      ensures old(cache.buf[y].dirty) ==> y == s
      ensures old(PinnedAt(cache.buf[..], home, s)) ==> y == s
      ensures cache.buf[..] == old(cache.buf[..][x := cache.buf[x].Held(b, cache.disk)]
                                               [y := cache.buf[y].Held(home, cache.disk)])
    {
      ghost var was := cache.buf[..];
      var to := cache.Bread(b);
      assert BufferOk(was[to.value], cache.disk);
      RoomForTwo(was, cache.buf[..], to.value, home, s);
      var from := cache.Bread(home);
      assert BufferOk(was[from.value], cache.disk);
      assert PinnedAt(was, home, s) ==> cache.buf[s].Keyed(ROOTDEV, home) && cache.buf[from.value].Keyed(ROOTDEV, home);
      return to.value, from.value;
    }

    /** They end by copying one of the two over the other, writing it out and releasing both. */
    method CopyAndRelease(dst: nat, src: nat)
      requires cache.Valid() && dst < NBUF && src < NBUF && dst != src
      requires forall i :: i == dst || i == src ==>
        cache.buf[i].locked && cache.buf[i].refcnt >= 1 && cache.buf[i].dev == ROOTDEV && cache.buf[i].valid
      requires cache.buf[src].dirty || cache.buf[src].data == cache.disk[cache.buf[src].blockno]
      modifies cache, cache.buf
      ensures cache.Valid()
      ensures cache.disk == old(cache.disk[cache.buf[dst].blockno := cache.buf[src].data])
      ensures cache.writes == old(cache.writes + [Write(cache.buf[dst].blockno, cache.buf[src].data)])
      ensures LetGo(old(cache.buf[src]), cache.buf[src]) == true && LetGo(old(cache.buf[dst]), cache.buf[dst]) == true
      ensures cache.buf[src].Core() == old(cache.buf[src].(locked := false, refcnt := cache.buf[src].refcnt - 1).Core())
      ensures cache.buf[dst].Core()
           == old(cache.buf[dst].(locked := false, refcnt := cache.buf[dst].refcnt - 1, dirty := false,
                                  data := cache.buf[src].data).Core())
      ensures forall i :: 0 <= i < NBUF && i != src && i != dst ==> cache.buf[i].Core() == old(cache.buf[i].Core())
    {
      cache.SetData(dst, cache.buf[src].data);
      cache.Bwrite(dst);
      cache.Brelse(src);
      cache.Brelse(dst);
    }

    /** The body of the loop of write_log: home, pinned in buffer s, is written to b. */
    method CopyOut(b: nat, home: nat, ghost s: nat) returns (x: nat, y: nat)
      requires cache.Valid() && b < |cache.disk| && home < |cache.disk| && b != home
      requires forall i :: 0 <= i < NBUF && cache.buf[i].Keyed(ROOTDEV, b) ==> !cache.buf[i].locked && !cache.buf[i].dirty
      requires forall i :: 0 <= i < NBUF && cache.buf[i].Keyed(ROOTDEV, home) ==> !cache.buf[i].locked
      requires PairFits(cache.buf[..], home, s) == true && PinnedAt(cache.buf[..], home, s)
      modifies cache, cache.buf
      ensures cache.Valid() && x < NBUF && y < NBUF && x != y
      ensures SameHolders(old(cache.buf[..]), cache.buf[..]) == true
      ensures old(!cache.buf[x].dirty) && !cache.buf[x].dirty
      ensures forall i :: 0 <= i < NBUF && i != x ==> cache.buf[i].Core() == old(cache.buf[i].Core())
      ensures Wrote(old(cache.disk), old(cache.writes), Write(b, old(cache.buf[s].data)))
    {
      ghost var was, d := cache.buf[..], cache.disk;
      x, y := ReadPair(b, home, s);
      PairRead(was, cache.buf[..], x, y, b, home, d);
      CopyAndRelease(x, y);
      PairReleased(was, cache.buf[..], b, home, x, y, d);
    }

    /** The body of the loop of install_trans: b is written to home. */
    method CopyIn(b: nat, home: nat, ghost s: nat) returns (x: nat, y: nat)
      requires cache.Valid() && b < |cache.disk| && home < |cache.disk| && b != home
      requires forall i :: 0 <= i < NBUF && cache.buf[i].Keyed(ROOTDEV, b) ==> !cache.buf[i].locked && !cache.buf[i].dirty
      requires forall i :: 0 <= i < NBUF && cache.buf[i].Keyed(ROOTDEV, home) ==> !cache.buf[i].locked
      requires PairFits(cache.buf[..], home, s) == true
      modifies cache, cache.buf
      ensures cache.Valid() && x < NBUF && y < NBUF && x != y
      ensures SameHolders(old(cache.buf[..]), cache.buf[..]) == true
      ensures old(!cache.buf[x].dirty) && !cache.buf[x].dirty
      ensures old(cache.buf[y].dirty) ==> y == s
      ensures old(PinnedAt(cache.buf[..], home, s)) ==> y == s
      ensures forall i :: 0 <= i < NBUF && i != x && i != y ==> cache.buf[i].Core() == old(cache.buf[i].Core())
      ensures !cache.buf[y].dirty && Wrote(old(cache.disk), old(cache.writes), Write(home, old(cache.disk[b])))
    {
      ghost var was, d := cache.buf[..], cache.disk;
      x, y := ReadPair(b, home, s);
      PairRead(was, cache.buf[..], x, y, b, home, d);
      CopyAndRelease(y, x);
      PairReleased(was, cache.buf[..], b, home, x, y, d);
    }

    /** Since the disk was d and the writes w, exactly one block has been written. */
    ghost predicate Wrote(d: Image, w: seq<Write>, one: Write)
      reads cache
    {
      cache.disk == Store(d, one) && cache.writes == w + [one]
    }

    /** One turn of the loop in write_log: the pinned block of entry t goes to its log block. */
    method LogOne(t: nat)
      requires Valid() && Calm(cache.buf[..], layout, lh) == true && t < |lh|
      modifies cache, cache.buf
      ensures Valid() && SameHolders(old(cache.buf[..]), cache.buf[..]) == true && Pending() == old(Pending())
      ensures Calm(cache.buf[..], layout, lh) == true
      ensures cache.disk == old(Store(cache.disk, LogWrites(layout, Pending())[t]))
      ensures cache.writes == old(cache.writes + [LogWrites(layout, Pending())[t]])
    {
      ghost var was, d := cache.buf[..], cache.disk;
      assert layout.InLog(layout.Slot(t));
      PinnedFits(was, layout, lh, slot, t);
      var to, from := CopyOut(layout.Slot(t), lh[t], slot[t]);
      PinsFrame(was, cache.buf[..], lh, slot);
      CalmStays(was, cache.buf[..], layout, lh, d);
    }

    /** write_log: the pinned blocks go to the log area, in order; nothing else changes. */
    method WriteLog()
      requires Valid() && Calm(cache.buf[..], layout, lh) == true
      modifies cache, cache.buf
      ensures Valid() && SameHolders(old(cache.buf[..]), cache.buf[..]) == true && Pending() == old(Pending())
      ensures Calm(cache.buf[..], layout, lh) == true
      ensures cache.disk == old(Apply(cache.disk, LogWrites(layout, Pending())))
      ensures cache.writes == old(cache.writes + LogWrites(layout, Pending()))
    {
      ghost var d, w, ws := cache.disk, cache.writes, LogWrites(layout, Pending());
      var tail := 0;
      while tail < |lh|
        invariant 0 <= tail <= |lh|
        invariant Valid() && Calm(cache.buf[..], layout, lh) == true && Pending() == old(Pending())
        invariant SameHolders(old(cache.buf[..]), cache.buf[..]) == true
        invariant cache.disk == Apply(d, ws[..tail])
        invariant cache.writes == w + ws[..tail]
      {
        ghost var c := cache.buf[..];
        LogOne(tail);
        SameHoldersTwice(old(cache.buf[..]), c, cache.buf[..]);
        ApplyPrefix(d, w, ws, tail);
        tail := tail + 1;
      }
      assert ws[..tail] == ws;
    }

    /** The loop of write_head over the words of the header block. */
    method FillHead(was: Block) returns (r: Block)
      requires |lh| < WORDS
      ensures r == EncodeHead(was, lh)
    {
      r := was[0 := |lh|];
      var i := 0;
      while i < |lh|
        invariant 0 <= i <= |lh|
        invariant r == [|lh|] + lh[..i] + was[1 + i..]
      {
        r := r[1 + i := lh[i]];
        i := i + 1;
      }
      assert lh[..i] == lh;
    }

    method FlushAndRelease(i: nat, data: Block)
      requires cache.Valid() && i < NBUF && cache.buf[i].locked && cache.buf[i].refcnt >= 1
      requires cache.buf[i].dev == ROOTDEV && cache.buf[i].valid
      modifies cache, cache.buf
      ensures cache.Valid()
      ensures cache.disk == old(cache.disk[cache.buf[i].blockno := data])
      ensures cache.writes == old(cache.writes + [Write(cache.buf[i].blockno, data)])
      ensures cache.buf[i].Core() == old(cache.buf[i].(locked := false, refcnt := cache.buf[i].refcnt - 1, dirty := false, data := data).Core())
      ensures forall j :: 0 <= j < NBUF && j != i ==> cache.buf[j].Core() == old(cache.buf[j].Core())
    {
      cache.SetData(i, data);
      cache.Bwrite(i);
      cache.Brelse(i);
    }

    /** write_head. */
    method WriteHead()
      requires Sound() && Calm(cache.buf[..], layout, lh) == true
      modifies cache, cache.buf
      ensures Sound() && SameHolders(old(cache.buf[..]), cache.buf[..]) == true && Calm(cache.buf[..], layout, lh) == true
      ensures Valid() ==> Pending() == old(if Valid() then Pending() else [])
      ensures cache.disk == old(Store(cache.disk, HeadWrite(cache.disk, layout, lh)))
      ensures cache.writes == old(cache.writes + [HeadWrite(cache.disk, layout, lh)])
    {
      ghost var was, d := cache.buf[..], cache.disk;
      HeadFits(was, layout, lh, slot);
      var x := RewriteHead();
      PinsFrame(was, cache.buf[..], lh, slot);
      CalmStays(was, cache.buf[..], layout, lh, d);
    }

    /** bread of the header block, the new contents, bwrite and brelse. */
    method RewriteHead() returns (x: nat)
      requires cache.Valid() && layout.start < |cache.disk| && |lh| < WORDS
      requires exists i :: 0 <= i < NBUF && !cache.buf[i].Busy()
      requires forall i :: 0 <= i < NBUF && cache.buf[i].Keyed(ROOTDEV, layout.start) ==> !cache.buf[i].locked && !cache.buf[i].dirty
      modifies cache, cache.buf
      ensures cache.Valid() && SameHolders(old(cache.buf[..]), cache.buf[..]) == true
      ensures x < NBUF && old(!cache.buf[x].dirty) && !cache.buf[x].dirty
      ensures forall i :: 0 <= i < NBUF && i != x ==> cache.buf[i].Core() == old(cache.buf[i].Core())
      ensures Wrote(old(cache.disk), old(cache.writes), HeadWrite(old(cache.disk), layout, lh))
    {
      ghost var was, d := cache.buf[..], cache.disk;
      var b := cache.Bread(layout.start);
      x := b.value;
      assert BufferOk(was[x], d);
      var head := FillHead(cache.buf[x].data);
      FlushAndRelease(x, head);
      OneReleased(was, cache.buf[..], layout.start, x, d);
    }

    /** One turn of the loop in install_trans: the log block of entry t goes home, which unpins it. */
    method InstallOne(t: nat)
      requires Sound() && Calm(cache.buf[..], layout, lh) == true && t < |lh|
      requires slot[t] == NBUF ==> NothingPinned() && RoomTwice(cache.buf[..])
      modifies this`slot, cache, cache.buf
      ensures Sound() && slot == old(slot[t := NBUF])
      ensures SameHolders(old(cache.buf[..]), cache.buf[..]) == true && Calm(cache.buf[..], layout, lh) == true
      ensures cache.disk == old(Store(cache.disk, Logged(cache.disk, layout, lh)[t]))
      ensures cache.writes == old(cache.writes + [Logged(cache.disk, layout, lh)[t]])
      ensures Logged(cache.disk, layout, lh) == old(Logged(cache.disk, layout, lh))
    {
      ghost var was, d := cache.buf[..], cache.disk;
      LoggedFrame(d, layout, lh, Logged(d, layout, lh)[t]);
      var dbuf := CopyHome(t);
      PinsShrink(was, cache.buf[..], lh, slot, t, dbuf);
      slot := slot[t := NBUF];
      CalmStays(was, cache.buf[..], layout, lh, d);
    }

    method CopyHome(t: nat) returns (dbuf: nat)
      requires Sound() && Calm(cache.buf[..], layout, lh) == true && t < |lh|
      requires slot[t] == NBUF ==> NothingPinned() && RoomTwice(cache.buf[..])
      modifies cache, cache.buf
      ensures cache.Valid() && SameHolders(old(cache.buf[..]), cache.buf[..]) == true
      ensures dbuf < NBUF && !cache.buf[dbuf].dirty
      ensures slot[t] == dbuf || (slot[t] == NBUF && old(!cache.buf[dbuf].dirty))
      ensures forall i :: 0 <= i < NBUF && i != dbuf && (old(cache.buf[i].dirty) || cache.buf[i].dirty) ==>
        cache.buf[i].Core() == old(cache.buf[i].Core())
      ensures cache.disk == old(Store(cache.disk, Logged(cache.disk, layout, lh)[t]))
      ensures cache.writes == old(cache.writes + [Logged(cache.disk, layout, lh)[t]])
    {
      assert layout.InLog(layout.Slot(t));
      HomeFits(cache.buf[..], layout, lh, slot, t);
      var lbuf;
      lbuf, dbuf := CopyIn(layout.Slot(t), lh[t], slot[t]);
    }

    /** The first k log blocks are home, and unpinned. */
    ghost predicate Installed(b: seq<Buf>, slot0: seq<nat>, d: Image, w: seq<Write>, ws: seq<Write>, k: nat)
      reads this, cache, cache.buf
    {
      && Sound() && Calm(cache.buf[..], layout, lh) == true && SameHolders(b, cache.buf[..]) == true
      && |slot| == |slot0| && (forall u :: 0 <= u < |slot| ==> slot[u] == if u < k then NBUF else slot0[u])
      && k <= |ws| && cache.disk == Apply(d, ws[..k]) && cache.writes == w + ws[..k]
      && Logged(cache.disk, layout, lh) == ws
    }

    method InstallTurn(k: nat, ghost b: seq<Buf>, ghost slot0: seq<nat>, ghost d: Image, ghost w: seq<Write>, ghost ws: seq<Write>)
      requires Installed(b, slot0, d, w, ws, k) && k < |lh|
      requires NBUF !in slot0 || (RoomTwice(b) && forall u :: 0 <= u < |slot0| ==> slot0[u] == NBUF)
      modifies this`slot, cache, cache.buf
      ensures Installed(b, slot0, d, w, ws, k + 1) == true
    {
      ghost var c := cache.buf[..];
      if slot[k] == NBUF {
        RoomTwiceStays(b, c);
      }
      InstallOne(k);
      SameHoldersTwice(b, c, cache.buf[..]);
      ApplyPrefix(d, w, ws, k);
    }

    /** install_trans, in commit (everything is pinned) and after a boot (nothing is). */
    method InstallTrans()
      requires Sound() && Calm(cache.buf[..], layout, lh) == true
      requires NBUF !in slot || (NothingPinned() && RoomTwice(cache.buf[..]))
      modifies this`slot, cache, cache.buf
      ensures Sound() && NothingPinned()
      ensures SameHolders(old(cache.buf[..]), cache.buf[..]) == true && Calm(cache.buf[..], layout, lh) == true
      ensures cache.disk == old(Apply(cache.disk, Logged(cache.disk, layout, lh)))
      ensures cache.writes == old(cache.writes + Logged(cache.disk, layout, lh))
    {
      ghost var b, slot0, d, w, ws := cache.buf[..], slot, cache.disk, cache.writes, Logged(cache.disk, layout, lh);
      var tail := 0;
      while tail < |lh|
        invariant 0 <= tail <= |lh|
        invariant Installed(b, slot0, d, w, ws, tail) == true
      {
        InstallTurn(tail, b, slot0, d, w, ws);
        tail := tail + 1;
      }
      assert ws[..tail] == ws;
    }

    /** The part of commit up to the real commit point. */
    method WriteLogAndHead()
      requires Valid() && Calm(cache.buf[..], layout, lh) == true
      modifies cache, cache.buf
      ensures Valid() && SameHolders(old(cache.buf[..]), cache.buf[..]) == true && Pending() == old(Pending())
      ensures Calm(cache.buf[..], layout, lh) == true
      ensures cache.disk == old(Apply(cache.disk, CommitFront(cache.disk, layout, Pending())))
      ensures cache.writes == old(cache.writes + CommitFront(cache.disk, layout, Pending()))
    {
      ghost var d, ws := cache.disk, LogWrites(layout, Pending());
      WriteLog();
      LogPhase(d, layout, Pending(), |lh|, cache.disk) by { assert ws[..|lh|] == ws; }
      ghost var c := cache.buf[..];
      WriteHead();
      SameHoldersTwice(old(cache.buf[..]), c, cache.buf[..]);
      ApplyOneMore(d, ws, HeadWrite(d, layout, lh));
    }

    /** What commit does after its header write and recovery after reading the header. */
    method InstallAndClear()
      requires Sound() && Calm(cache.buf[..], layout, lh) == true
      requires NBUF !in slot || (NothingPinned() && RoomTwice(cache.buf[..]))
      modifies this`lh, this`slot, cache, cache.buf
      ensures Valid() && SameHolders(old(cache.buf[..]), cache.buf[..]) == true && lh == []
      ensures cache.disk == old(Apply(cache.disk, Logged(cache.disk, layout, lh) + [HeadWrite(cache.disk, layout, [])]))
      ensures cache.writes == old(cache.writes + (Logged(cache.disk, layout, lh) + [HeadWrite(cache.disk, layout, [])]))
    {
      ghost var d, ws := cache.disk, Logged(cache.disk, layout, lh);
      InstallTrans();
      InstallKeepsHead(d, layout, lh, cache.disk);
      ghost var c := cache.buf[..];
      ClearHead();
      SameHoldersTwice(old(cache.buf[..]), c, cache.buf[..]);
      ApplyOneMore(d, ws, HeadWrite(d, layout, []));
    }

    /** log.lh.n = 0; write_head(); */
    method ClearHead()
      requires Sound() && NothingPinned() && Calm(cache.buf[..], layout, lh) == true
      modifies this`lh, this`slot, cache, cache.buf
      ensures Valid() && SameHolders(old(cache.buf[..]), cache.buf[..]) == true && lh == []
      ensures Wrote(old(cache.disk), old(cache.writes), HeadWrite(old(cache.disk), layout, []))
    {
      lh := [];
      slot := [];
      WriteHead();
    }

    /** commit: exactly the write sequence whose crash points CrashRecovery analyses. */
    method Commit()
      requires Valid() && Calm(cache.buf[..], layout, lh) == true
      modifies this`lh, this`slot, cache, cache.buf
      ensures Valid() && SameHolders(old(cache.buf[..]), cache.buf[..]) == true && lh == []
      ensures cache.disk == old(Apply(cache.disk, CommitWrites(cache.disk, layout, Pending())))
      ensures cache.writes == old(cache.writes + CommitWrites(cache.disk, layout, Pending()))
    {
      if |lh| > 0 {
        CommitSome();
      }
    }

    method CommitSome()
      requires Valid() && Calm(cache.buf[..], layout, lh) == true && lh != []
      modifies this`lh, this`slot, cache, cache.buf
      ensures Valid() && SameHolders(old(cache.buf[..]), cache.buf[..]) == true && lh == []
      ensures cache.disk == old(Apply(cache.disk, CommitWrites(cache.disk, layout, Pending())))
      ensures cache.writes == old(cache.writes + CommitWrites(cache.disk, layout, Pending()))
    {
      ghost var d, w, tx := cache.disk, cache.writes, Pending();
      WriteLogAndHead();
      CommitSplits(d, layout, tx, cache.disk, w);
      ghost var c := cache.buf[..];
      InstallAndClear();
      SameHoldersTwice(old(cache.buf[..]), c, cache.buf[..]);
    }
 
    /** The loop of read_head over the words of the header block. */
    method DecodeHeadBlock(b: Block) returns (homes: seq<nat>)
      requires |DecodeHead(b)| <= LOGSIZE
      ensures homes == DecodeHead(b)
    {
      homes := [];
      var i := 0;
      while i < b[0]
        invariant 0 <= i <= b[0] && homes == b[1..1 + i]
      {
        homes := homes + [b[1 + i]];
        i := i + 1;
      }
    }

    /** bread of the header block, the copy that read_head takes of it, and brelse. */
    method CopyHeadBlock() returns (head: Block)
      requires Valid() && Quiet(cache.buf[..]) && lh == [] && 0 < layout.size && layout.start + layout.size <= |cache.disk|
      modifies cache, cache.buf
      ensures Valid() && Quiet(cache.buf[..]) == true
      ensures head == cache.disk[layout.start]
      ensures cache.disk == old(cache.disk) && cache.writes == old(cache.writes)
    {
      ghost var was, d := cache.buf[..], cache.disk;
      QuietIsClean(was, d, lh, slot);
      assert !was[0].Busy();
      var b := cache.Bread(layout.start);
      head := cache.buf[b.value].data;
      cache.Brelse(b.value);
      OneReleased(was, cache.buf[..], layout.start, b.value, d);
      QuietStays(was, cache.buf[..]);
      CleanIsUnpinned(was, cache.buf[..], lh, slot);
    }

    /** read_head, on a cache in which nothing is pinned. */
    method ReadHead()
      requires Valid() && Quiet(cache.buf[..]) && lh == []
      requires HomesOk(|cache.disk|, layout, Head(cache.disk, layout)) == true
      modifies this`lh, this`slot, cache, cache.buf
      ensures Sound() && Quiet(cache.buf[..]) == true && NothingPinned()
      ensures lh == Head(cache.disk, layout)
      ensures cache.disk == old(cache.disk) && cache.writes == old(cache.writes)
    {
      var head := CopyHeadBlock();
      lh := DecodeHeadBlock(head);
      slot := seq(|lh|, _ => NBUF);
    }

    /** recover_from_log. */
    method RecoverFromLog()
      requires Valid() && Quiet(cache.buf[..]) && lh == []
      requires HomesOk(|cache.disk|, layout, Head(cache.disk, layout)) == true
      modifies this`lh, this`slot, cache, cache.buf
      ensures Valid() && Quiet(cache.buf[..]) == true && lh == []
      ensures cache.disk == Recover(old(cache.disk), layout)
      ensures cache.writes == old(cache.writes) + RecoverWrites(old(cache.disk), layout)
    {
      ReadHead();
      RecoverIs(cache.disk, layout, lh);
      InstallQuietly();
    }

    /** The rest of it, when nothing is held or pinned. */
    method InstallQuietly()
      requires Sound() && Quiet(cache.buf[..]) && NothingPinned()
      modifies this`lh, this`slot, cache, cache.buf
      ensures Valid() && Quiet(cache.buf[..]) == true && lh == []
      ensures cache.disk == old(Apply(cache.disk, Logged(cache.disk, layout, lh) + [HeadWrite(cache.disk, layout, [])]))
      ensures cache.writes == old(cache.writes + (Logged(cache.disk, layout, lh) + [HeadWrite(cache.disk, layout, [])]))
    {
      ghost var c := cache.buf[..];
      QuietIsCalm(c, cache.disk, layout, lh, slot);
      QuietHasRoom(c, lh, slot);
      InstallAndClear();
      QuietStays(c, cache.buf[..]);
    }

    /** The loop of log_write. */
    method FindEntry(b: nat) returns (k: nat)
      ensures k <= |lh| && (k < |lh| ==> lh[k] == b) && (k == |lh| ==> b !in lh)
    {
      k := 0;
      while k < |lh|
        invariant 0 <= k <= |lh| && b !in lh[..k]
      {
        if lh[k] == b {
          return;
        }
        k := k + 1;
      }
    }

    /** log_write: record and pin the caller's buffer; false is one of its two panics. */
    method LogWrite(i: nat) returns (ok: bool)
      requires Valid() && i < NBUF && cache.buf[i].locked && cache.buf[i].valid && cache.buf[i].dev == ROOTDEV
      requires !layout.InLog(cache.buf[i].blockno)
      modifies this`lh, this`slot, cache.buf
      ensures ok <==> Fits(|old(lh)|, layout.size) && outstanding >= 1
      ensures !ok ==> lh == old(lh) && slot == old(slot) && cache.buf[..] == old(cache.buf[..])
      ensures ok ==> lh == Absorb(old(lh), cache.buf[i].blockno)
      ensures ok ==> slot == if cache.buf[i].blockno in old(lh) then old(slot) else old(slot) + [i]
      ensures ok ==> cache.buf[..] == old(cache.buf[..][i := cache.buf[i].(dirty := true)])
      ensures Valid()
    {
      if |lh| >= LOGSIZE || |lh| >= layout.size - 1 || outstanding < 1 {
        return false;
      }
      var b := cache.buf[i].blockno;
      var k := FindEntry(b);
      PinsGrow(cache.buf[..], cache.disk, lh, slot, i);
      if k == |lh| {
        lh := lh + [b];
        slot := slot + [i];
      } else {
        lh := lh[k := b];
      }
      cache.Pin(i);
      return true;
    }
 
    /** bread of a file-system block that no other process has locked: the caller gets what was last logged for
        it. None is the panic, which comes exactly when the block is not cached and every buffer is held or pinned. */
    method Bread(blockno: nat) returns (r: Option<nat>)
      requires Valid() && blockno < |cache.disk|
      requires forall i :: 0 <= i < NBUF && cache.buf[i].Keyed(ROOTDEV, blockno) ==> !cache.buf[i].locked
      modifies cache, cache.buf
      ensures Valid() && cache.disk == old(cache.disk) && cache.writes == old(cache.writes) && Pending() == old(Pending())
      ensures r.None? <==> old(forall i :: 0 <= i < NBUF ==>
                !cache.buf[i].Keyed(ROOTDEV, blockno) && (cache.buf[i].refcnt > 0 || i in slot))
      ensures r.None? ==> cache.buf[..] == old(cache.buf[..])
      ensures r.Some? ==>
        && r.value < NBUF && cache.buf[..] == old(cache.buf[..][r.value := cache.buf[r.value].Held(blockno, cache.disk)])
        && old(!cache.buf[r.value].locked && (cache.buf[r.value].Keyed(ROOTDEV, blockno) || !cache.buf[r.value].Busy()))
        && (r.value in slot ==> old(cache.buf[r.value].Keyed(ROOTDEV, blockno)))
        && cache.buf[r.value].data == Overlay(cache.disk, Pending(), blockno)
    {
      ghost var was := cache.buf[..];
      DirtyIsPinned(was, lh, slot);
      r := cache.Bread(blockno);
      if r.Some? {
        assert BufferOk(was[r.value], cache.disk);
        BreadSeesOverlay(was, cache.disk, lh, slot, r.value, blockno);
        PinsSameKeys(was, cache.buf[..], lh, slot);
      }
    }

    /** The usual client, as bzero in fs.c: bread, change the bytes, log_write, brelse. The caller may hold other
        buffers, and so may other processes. The disk stays as it is, and what bread returns changes at this one
        block. None of it happens when bread panics. */
    method UpdateBlock(blockno: nat, data: Block) returns (ok: bool)
      requires Valid() && blockno < |cache.disk| && !layout.InLog(blockno)
      requires forall i :: 0 <= i < NBUF && cache.buf[i].Keyed(ROOTDEV, blockno) ==> !cache.buf[i].locked
      requires Fits(|lh|, layout.size) && outstanding >= 1
      modifies this`lh, this`slot, cache, cache.buf
      ensures Valid() && cache.disk == old(cache.disk) && cache.writes == old(cache.writes)
      ensures !ok <==> old(forall i :: 0 <= i < NBUF ==>
                !cache.buf[i].Keyed(ROOTDEV, blockno) && (cache.buf[i].refcnt > 0 || i in slot))
      ensures !ok ==> lh == old(lh) && cache.buf[..] == old(cache.buf[..])
      ensures ok ==> lh == Absorb(old(lh), blockno) && HeldStay(old(cache.buf[..]), cache.buf[..]) == true
      ensures ok ==> forall b :: 0 <= b < |cache.disk| ==>
        Overlay(cache.disk, Pending(), b) == if b == blockno then data else old(Overlay(cache.disk, Pending(), b))
    {
      ghost var was := cache.buf[..];
      var bp := Bread(blockno);
      if bp.None? {
        return false;
      }
      LogRead(bp.value, blockno, data, was);
      return true;
    }

    /** The rest of it, for the buffer i that bread gave out when the buffers were as in was. */
    method LogRead(i: nat, blockno: nat, data: Block, ghost was: seq<Buf>)
      requires Valid() && i < NBUF && blockno < |cache.disk| && !layout.InLog(blockno)
      requires TableOk(was, cache.disk) == true && AllPinned(was, lh, slot) == true && Readable(was, i, blockno) == true
      requires cache.buf[..] == was[i := was[i].Held(blockno, cache.disk)]
      requires Fits(|lh|, layout.size) && outstanding >= 1
      modifies this`lh, this`slot, cache, cache.buf
      ensures Valid() && cache.disk == old(cache.disk) && cache.writes == old(cache.writes)
      ensures lh == Absorb(old(lh), blockno) && HeldStay(was, cache.buf[..]) == true
      ensures forall b :: 0 <= b < |cache.disk| ==>
        Overlay(cache.disk, Pending(), b) == if b == blockno then data else Overlay(cache.disk, PendingIn(was, old(lh), old(slot)), b)
    {
      ghost var lh0, slot0 := lh, slot;
      LogAndRelease(i, data);
      UpdateIsLocal(was, cache.buf[..], lh0, slot0, lh, slot, cache.disk, i, blockno, data);
    }

    /** The holder of buffer i changes it, logs it and lets it go. */
    method LogAndRelease(i: nat, data: Block)
      requires Valid() && i < NBUF && cache.buf[i].dev == ROOTDEV && cache.buf[i].valid
      requires cache.buf[i].locked && cache.buf[i].refcnt >= 1 && !layout.InLog(cache.buf[i].blockno)
      requires Fits(|lh|, layout.size) && outstanding >= 1
      modifies this`lh, this`slot, cache, cache.buf
      ensures Valid()
      ensures lh == Absorb(old(lh), cache.buf[i].blockno)
      ensures slot == if cache.buf[i].blockno in old(lh) then old(slot) else old(slot) + [i]
      ensures cache.disk == old(cache.disk) && cache.writes == old(cache.writes)
      ensures cache.buf[i].Core()
           == old(cache.buf[i].(data := data, dirty := true, locked := false, refcnt := cache.buf[i].refcnt - 1).Core())
      ensures forall j :: 0 <= j < NBUF && j != i ==> cache.buf[j].Core() == old(cache.buf[j].Core())
    {
      Change(i, data);
      var ok := LogWrite(i);
      Brelse(i);
    }

    method Change(i: nat, data: Block)
      requires Valid() && i < NBUF && cache.buf[i].dev == ROOTDEV && cache.buf[i].valid && cache.buf[i].locked
      modifies cache.buf
      ensures Valid() && cache.buf[..] == old(cache.buf[..][i := cache.buf[i].(data := data)])
    {
      ghost var was := cache.buf[..];
      cache.SetData(i, data);
      KeepsPins(was, cache.buf[..], lh, slot);
    }

    /** brelse of a buffer that agrees with what is logged: the pins and what bread returns stay. */
    method Brelse(i: nat)
      requires Valid() && i < NBUF && cache.buf[i].dev == ROOTDEV && cache.buf[i].valid
      requires cache.buf[i].locked && cache.buf[i].refcnt >= 1
      requires cache.buf[i].dirty || cache.buf[i].data == cache.disk[cache.buf[i].blockno]
      modifies cache.buf, cache`ring
      ensures Valid() && Pending() == old(Pending())
      ensures cache.buf[i].Core() == old(cache.buf[i].(locked := false, refcnt := cache.buf[i].refcnt - 1).Core())
      ensures forall j :: 0 <= j < NBUF && j != i ==> cache.buf[j].Core() == old(cache.buf[j].Core())
    {
      ghost var was := cache.buf[..];
      cache.Brelse(i);
      assert forall j :: 0 <= j < NBUF && j != i ==> cache.buf[j].Core() == was[j].Core();
      PinsSameKeys(was, cache.buf[..], lh, slot);
    }

    /** One pass of the loop in begin_op under log.lock; a process that is not admitted sleeps and retries. */
    method BeginOp() returns (admitted: bool)
      requires Valid()
      modifies this`outstanding
      ensures Valid()
      ensures admitted <==> !committing && Admits(|lh|, old(outstanding))
      ensures outstanding == if admitted then old(outstanding) + 1 else old(outstanding)
    {
      if committing || |lh| + (outstanding + 1) * MAXOPBLOCKS > LOGSIZE {
        return false;
      }
      outstanding := outstanding + 1;
      return true;
    }

    /** end_op: the last operation to leave commits everything the group logged. */
    method EndOp()
      requires Valid() && outstanding >= 1 && !committing
      requires outstanding == 1 ==> Calm(cache.buf[..], layout, lh)
      modifies this, cache, cache.buf
      ensures Valid() && outstanding == old(outstanding) - 1 && !committing
      ensures SameHolders(old(cache.buf[..]), cache.buf[..]) == true
      ensures outstanding > 0 ==>
        lh == old(lh) && cache.disk == old(cache.disk) && cache.buf[..] == old(cache.buf[..]) && cache.writes == old(cache.writes)
      ensures outstanding == 0 ==> lh == []
      ensures outstanding == 0 ==> cache.disk == old(Apply(cache.disk, CommitWrites(cache.disk, layout, Pending())))
      ensures outstanding == 0 ==> cache.writes == old(cache.writes + CommitWrites(cache.disk, layout, Pending()))
    {
      outstanding := outstanding - 1;
      if outstanding == 0 {
        committing := true;
        Commit();
        committing := false;
      }
    }
  }
}
