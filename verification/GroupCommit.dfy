/** Group commit as a whole (log.c over bio.c): any number of processes, inside operations and outside, hold buffers
    while others log, release and commit. A step is one critical section or one use of a locked buffer, so that
    commit itself is interleaved, block by block, with everybody who reads; a crash may come between any two steps. */
module GroupCommit {
  import opened Sequences
  import opened Basics
  import opened Disk
  import opened CrashRecovery
  import opened BufferCache
  import Reservation
  import L = Log

  /** On whose behalf a buffer is used. */
  datatype Who = Reader | Op(id: nat) | Committer

  /** One use of a buffer, from bget to brelse. locked says whether acquiresleep has returned, changed whether the
      bytes have been changed and not yet been logged or written. */
  datatype Use = Use(i: nat, blockno: nat, who: Who, locked: bool, changed: bool)

  /** One call of log_write, and the operation that made it. */
  datatype Entry = Entry(op: nat, w: Write)

  /** commit is how many block writes the running commit has made; base and tx are the disk and the logged updates
      as it found them. view is what bread should return, durable what a crash should leave, and hist the log_writes
      since the boot, of which the first kept are durable. */
  datatype State = State(l: Layout, b: seq<Buf>, uses: map<nat, Use>, disk: Image, lh: seq<nat>, slot: seq<nat>,
                         ops: set<nat>, begun: nat, commit: Option<nat>, base: Image, tx: Transaction,
                         view: Image, durable: Image, hist: seq<Entry>, kept: nat, panicked: bool)

  datatype Step =
    | Get(u: nat, x: nat, i: nat, who: Who)   // bget: a reference to buffer i, for block x
    | Lock(u: nat)                            // acquiresleep
    | Read(u: nat)                            // iderw, on a buffer that is not valid
    | Change(u: nat, data: Block)             // an operation changes the bytes
    | LogWrite(u: nat)
    | Release(u: nat)                         // brelse
    | Begin                                   // begin_op, when it is admitted
    | End(op: nat)                            // end_op, which starts commit when it is the last
    | Copy(u: nat, v: nat)                    // memmove from the buffer of v to that of u, in commit
    | FillHead(u: nat)                        // the loop of write_head
    | Flush(u: nat)                           // bwrite, in commit
    | Finish                                  // committing = 0

  // ---- steps

  /** Buffer i is the one that bget finds or may recycle for block x. */
  predicate Available(b: seq<Buf>, i: nat, x: nat) {
    && i < NBUF && i < |b|
    && (b[i].Keyed(ROOTDEV, x) || (!b[i].Busy() && forall j :: 0 <= j < NBUF && j < |b| ==> !b[j].Keyed(ROOTDEV, x)))
  }

  /** bget panics. */
  predicate NoBuffer(b: seq<Buf>, x: nat) {
    forall j :: 0 <= j < NBUF && j < |b| ==> !b[j].Keyed(ROOTDEV, x) && b[j].Busy()
  }

  /** How many block writes a commit of n entries makes. */
  function Total(n: nat): nat {
    if n == 0 then 0 else 2 * n + 2
  }

  /** Write k of them. */
  function WriteAt(base: Image, l: Layout, tx: Transaction, k: nat): Write
    requires k < Total(|tx|)
  {
    var n := |tx|;
    if k < n then Write(l.Slot(k), tx[k].data)
    else if k == n then HeadWrite(base, l, Homes(tx))
    else if k <= 2 * n then tx[k - n - 1]
    else Write(l.start, EncodeHead(HeadWrite(base, l, Homes(tx)).data, []))
  }

  /** The disk after the first k of them. */
  function DiskAt(base: Image, l: Layout, tx: Transaction, k: nat): (d: Image)
    requires k <= Total(|tx|)
    ensures |d| == |base|
  {
    if k == 0 then base else Store(DiskAt(base, l, tx, k - 1), WriteAt(base, l, tx, k - 1))
  }

  /** They are the writes whose crash points CrashRecovery analyses. */
  lemma WritesOfCommit(base: Image, l: Layout, tx: Transaction, k: nat)
    requires k <= Total(|tx|)
    ensures |CommitWrites(base, l, tx)| == Total(|tx|)
    ensures k < Total(|tx|) ==> CommitWrites(base, l, tx)[k] == WriteAt(base, l, tx, k)
  {
    assert k < |tx| ==> CommitWrites(base, l, tx)[k] == LogWrites(l, tx)[k];
  }

  lemma {:induction false} DiskAtIs(base: Image, l: Layout, tx: Transaction, k: nat)
    requires k <= Total(|tx|)
    ensures |CommitWrites(base, l, tx)| == Total(|tx|)
    ensures DiskAt(base, l, tx, k) == Apply(base, CommitWrites(base, l, tx)[..k])
  {
    WritesOfCommit(base, l, tx, k);
    if k > 0 {
      DiskAtIs(base, l, tx, k - 1);
      WritesOfCommit(base, l, tx, k - 1);
      ApplyPrefix(base, [], CommitWrites(base, l, tx), k - 1);
    }
  }

  /** Commit has another block to write. */
  predicate AtWrite(s: State) {
    s.commit.Some? && s.commit.value < Total(|s.tx|)
  }

  function NextWrite(s: State): Write
    requires AtWrite(s)
  {
    WriteAt(s.base, s.l, s.tx, s.commit.value)
  }

  /** Entry t of the log is copied to its log block, or home. */
  predicate Logs(s: State, t: nat) {
    s.commit == Some(t) && t < |s.tx|
  }

  predicate Installs(s: State, t: nat) {
    s.commit == Some(|s.tx| + 1 + t) && t < |s.tx|
  }

  predicate Heads(s: State) {
    s.tx != [] && (s.commit == Some(|s.tx|) || s.commit == Some(2 * |s.tx| + 1))
  }

  /** The blocks that commit reads in its present turn. */
  predicate InTurn(s: State, x: nat) {
    || (exists t :: 0 <= t < |s.tx| && (Logs(s, t) || Installs(s, t)) && (x == s.l.Slot(t) || x == s.tx[t].at))
    || (Heads(s) && x == s.l.start)
  }

  predicate Holding(s: State, u: nat) {
    u in s.uses && s.uses[u].i < NBUF && s.uses[u].i < |s.b| && s.uses[u].locked && s.b[s.uses[u].i].valid
  }

  predicate CommitHolds(s: State, u: nat, x: nat) {
    Holding(s, u) && s.uses[u].who == Committer && s.uses[u].blockno == x
  }

  predicate CanGet(s: State, u: nat, x: nat, i: nat, who: Who) {
    && u !in s.uses && x < |s.disk| && (Available(s.b, i, x) || NoBuffer(s.b, x))
    && match who
       case Reader => !s.l.InLog(x)
       case Op(id) => id in s.ops && !s.l.InLog(x)
       case Committer => InTurn(s, x) && forall v :: v in s.uses && s.uses[v].who == Committer ==>
           InTurn(s, s.uses[v].blockno) && s.uses[v].blockno != x
  }

  predicate CanLock(s: State, u: nat) {
    u in s.uses && s.uses[u].i < |s.b| && !s.uses[u].locked && !s.b[s.uses[u].i].locked
  }

  predicate CanRead(s: State, u: nat) {
    u in s.uses && s.uses[u].i < |s.b| && s.uses[u].locked && !s.b[s.uses[u].i].valid && s.uses[u].blockno < |s.disk|
  }

  predicate CanUpdate(s: State, u: nat) {
    Holding(s, u) && s.uses[u].who.Op?
  }

  predicate CanRelease(s: State, u: nat) {
    Holding(s, u) && !s.uses[u].changed
  }

  predicate CanEnd(s: State, op: nat) {
    op in s.ops && forall u :: u in s.uses ==> s.uses[u].who != Op(op)
  }

  /** Entry t goes from its home block to its log block, or back. */
  predicate Copies(s: State, t: nat, u: nat, v: nat) {
    && t < |s.tx|
    && ((Logs(s, t) && CommitHolds(s, u, s.l.Slot(t)) && CommitHolds(s, v, s.tx[t].at)) ||
        (Installs(s, t) && CommitHolds(s, u, s.tx[t].at) && CommitHolds(s, v, s.l.Slot(t))))
  }

  predicate CanCopy(s: State, u: nat, v: nat) {
    u in s.uses && !s.uses[u].changed && exists t :: 0 <= t < |s.tx| && Copies(s, t, u, v)
  }

  predicate CanFillHead(s: State, u: nat) {
    Heads(s) && CommitHolds(s, u, s.l.start) && !s.uses[u].changed
  }

  predicate CanFlush(s: State, u: nat) {
    AtWrite(s) && CommitHolds(s, u, NextWrite(s).at) && s.uses[u].changed && s.uses[u].blockno < |s.disk|
  }

  predicate CanFinish(s: State) {
    && s.commit == Some(Total(|s.tx|))
    && forall u :: u in s.uses ==> s.uses[u].who != Committer
  }

  /** Which steps may be taken. A process that must wait, in begin_op or acquiresleep, takes none. */
  predicate Enabled(s: State, step: Step) {
    && !s.panicked
    && match step
       case Get(u, x, i, who) => CanGet(s, u, x, i, who)
       case Lock(u) => CanLock(s, u)
       case Read(u) => CanRead(s, u)
       case Change(u, _) => CanUpdate(s, u)
       case LogWrite(u) => CanUpdate(s, u)
       case Release(u) => CanRelease(s, u)
       case Begin => s.commit.None? && Reservation.Admits(|s.lh|, |s.ops|)
       case End(op) => CanEnd(s, op)
       case Copy(u, v) => CanCopy(s, u, v)
       case FillHead(u) => CanFillHead(s, u)
       case Flush(u) => CanFlush(s, u)
       case Finish => CanFinish(s)
  }

  /** What the pinned buffers stand for. */
  function TxOf(b: seq<Buf>, lh: seq<nat>, slot: seq<nat>): Transaction {
    seq(|lh|, t requires 0 <= t < |lh| =>
      Write(lh[t], if t < |slot| && slot[t] < |b| then b[slot[t]].data else seq(WORDS, _ => 0)))
  }

  /** Use u changes its buffer to y, and whether there is something to log or write. */
  function Rewrite(s: State, u: nat, y: Buf, changed: bool): State
    requires u in s.uses && s.uses[u].i < |s.b|
  {
    s.(b := s.b[s.uses[u].i := y], uses := s.uses[u := s.uses[u].(changed := changed)])
  }

  /** bwrite by commit; t is the entry that has gone home with this write, if it was one. */
  function Flushed(s: State, u: nat): State
    requires Holding(s, u) && s.commit.Some? && s.uses[u].blockno < |s.disk|
  {
    var k, n, y := s.commit.value, |s.tx|, s.b[s.uses[u].i];
    var slot := if n < k <= 2 * n && k - n - 1 < |s.slot| then s.slot[k - n - 1 := NBUF] else s.slot;
    var s1 := Rewrite(s, u, y.(dirty := false), false);
    s1.(disk := s.disk[s.uses[u].blockno := y.data], commit := Some(k + 1),
        lh := if k == 2 * n then [] else s.lh, slot := if k == 2 * n then [] else slot,
        durable := if k == n then s.view else s.durable, kept := if k == n then |s.hist| else s.kept)
  }

  function Got(s: State, u: nat, x: nat, i: nat, who: Who): State {
    if NoBuffer(s.b, x) || i >= |s.b| then s.(panicked := true)
    else s.(b := s.b[i := s.b[i].Reserved(x)], uses := s.uses[u := Use(i, x, who, false, false)])
  }

  function Locked(s: State, u: nat): State
    requires CanLock(s, u)
  {
    var i := s.uses[u].i;
    s.(b := s.b[i := s.b[i].(locked := true)], uses := s.uses[u := s.uses[u].(locked := true)])
  }

  function WasRead(s: State, u: nat): State
    requires CanRead(s, u)
  {
    Rewrite(s, u, s.b[s.uses[u].i].(valid := true, data := s.disk[s.uses[u].blockno]), s.uses[u].changed)
  }

  function WasLogged(s: State, u: nat): State
    requires CanUpdate(s, u)
  {
    var i, x := s.uses[u].i, s.uses[u].blockno;
    if !Reservation.Fits(|s.lh|, s.l.size) then s.(panicked := true)
    else
      var w := Write(x, s.b[i].data);
      Rewrite(s, u, s.b[i].(dirty := true), false).(
        lh := Reservation.Absorb(s.lh, x), slot := if x in s.lh then s.slot else s.slot + [i],
        view := Store(s.view, w), hist := s.hist + [Entry(s.uses[u].who.id, w)])
  }

  function Released(s: State, u: nat): State
    requires CanRelease(s, u)
  {
    var i := s.uses[u].i;
    var n := if s.b[i].refcnt > 0 then s.b[i].refcnt - 1 else 0;
    s.(b := s.b[i := s.b[i].(locked := false, refcnt := n)], uses := s.uses - {u})
  }

  function Ended(s: State, op: nat): State {
    var s1 := s.(ops := s.ops - {op});
    if s1.ops != {} then s1 else s1.(commit := Some(0), base := s.disk, tx := TxOf(s.b, s.lh, s.slot))
  }

  function Filled(s: State, u: nat, data: Block): State
    requires Holding(s, u)
  {
    Rewrite(s, u, s.b[s.uses[u].i].(data := data), true)
  }

  function Next(s: State, step: Step): State
    requires Enabled(s, step)
  {
    match step
    case Get(u, x, i, who) => Got(s, u, x, i, who)
    case Lock(u) => Locked(s, u)
    case Read(u) => WasRead(s, u)
    case Change(u, data) => Filled(s, u, data)
    case LogWrite(u) => WasLogged(s, u)
    case Release(u) => Released(s, u)
    case Begin => s.(ops := s.ops + {s.begun}, begun := s.begun + 1)
    case End(op) => Ended(s, op)
    case Copy(u, v) => Filled(s, u, s.b[s.uses[v].i].data)
    case FillHead(u) => Filled(s, u, EncodeHead(s.b[s.uses[u].i].data, s.lh))
    case Flush(u) => Flushed(s, u)
    case Finish => s.(commit := None)
  }

  /** After a boot: recovery has emptied the log, and nothing is cached. */
  function Boot(d: Image, l: Layout): State {
    var empty := Buf(false, false, 0, 0, false, 0, 0, 0, seq(WORDS, _ => 0));
    State(l, seq(NBUF + 1, _ => empty), map[], d, [], [], {}, 0, None, d, [], d, d, [], 0, false)
  }

  /** The state after a schedule; steps that cannot be taken when their turn comes are skipped. */
  function After(d: Image, l: Layout, schedule: seq<Step>): State {
    if schedule == [] then Boot(d, l)
    else
      var s, step := After(d, l, schedule[..|schedule| - 1]), schedule[|schedule| - 1];
      if Enabled(s, step) then Next(s, step) else s
  }

  // ---- who uses which buffer

  function RefsTo(uses: map<nat, Use>, i: nat): set<nat> {
    set u | u in uses && uses[u].i == i
  }

  predicate UseOk(b: seq<Buf>, u: Use) {
    && u.i < NBUF < |b| && b[u.i].Keyed(ROOTDEV, u.blockno)
    && (u.locked ==> b[u.i].locked) && (u.changed ==> u.locked && b[u.i].valid)
  }

  predicate BufOk(b: Buf, disk: nat) {
    && b.dev <= ROOTDEV
    && (b.dev == 0 ==> !b.valid && !b.Busy())
    && (b.dev == ROOTDEV ==> b.blockno < disk)
    && (b.dirty ==> b.valid)
    && (b.refcnt == 0 ==> !b.locked && (b.dev == ROOTDEV ==> b.valid))
  }

  ghost predicate LockedBySome(uses: map<nat, Use>, i: nat) {
    exists u :: u in uses && uses[u].i == i && uses[u].locked
  }

  ghost predicate UsersOk(b: seq<Buf>, uses: map<nat, Use>, disk: nat) {
    && |b| == NBUF + 1
    && (forall i :: 0 <= i < NBUF ==> BufOk(b[i], disk) && b[i].refcnt == |RefsTo(uses, i)|)
    && (forall i :: 0 <= i < NBUF && b[i].locked ==> LockedBySome(uses, i))
    && (forall i, j :: 0 <= i < j < NBUF && b[i].dev == b[j].dev == ROOTDEV ==> b[i].blockno != b[j].blockno)
    && (forall u :: u in uses ==> UseOk(b, uses[u]))
    && (forall u, v :: u in uses && v in uses && uses[u].locked && uses[v].locked && uses[u].i == uses[v].i ==> u == v)
  }

  lemma RefsUpdated(uses: map<nat, Use>, u: nat, use: Use, i: nat)
    requires u in uses ==> uses[u].i == use.i
    ensures |RefsTo(uses[u := use], i)| == |RefsTo(uses, i)| + if u !in uses && use.i == i then 1 else 0
  {
    var r, r' := RefsTo(uses, i), RefsTo(uses[u := use], i);
    if u !in uses && use.i == i {
      assert r' == r + {u};
    } else {
      assert r' == r;
    }
  }

  lemma RefsDropped(uses: map<nat, Use>, u: nat, i: nat)
    requires u in uses
    ensures |RefsTo(uses, i)| == |RefsTo(uses - {u}, i)| + if uses[u].i == i then 1 else 0
  {
    var r, r' := RefsTo(uses, i), RefsTo(uses - {u}, i);
    if uses[u].i == i {
      assert r == r' + {u};
    } else {
      assert r == r';
    }
  }

  lemma Referenced(b: seq<Buf>, uses: map<nat, Use>, disk: nat, u: nat)
    requires UsersOk(b, uses, disk) && u in uses
    ensures uses[u].i < NBUF && b[uses[u].i].refcnt > 0
  {
    assert UseOk(b, uses[u]);
    assert u in RefsTo(uses, uses[u].i);
  }

  lemma GetKeepsUsers(b: seq<Buf>, uses: map<nat, Use>, disk: nat, u: nat, x: nat, i: nat, who: Who)
    requires UsersOk(b, uses, disk) && u !in uses && x < disk && Available(b, i, x)
    ensures UsersOk(b[i := b[i].Reserved(x)], uses[u := Use(i, x, who, false, false)], disk)
  {
    var b', uses' := b[i := b[i].Reserved(x)], uses[u := Use(i, x, who, false, false)];
    forall j | 0 <= j < NBUF ensures BufOk(b'[j], disk) && b'[j].refcnt == |RefsTo(uses', j)| {
      RefsUpdated(uses, u, uses'[u], j);
      assert BufOk(b[j], disk);
    }
    forall j | 0 <= j < NBUF && b'[j].locked ensures LockedBySome(uses', j) {
      var v :| v in uses && uses[v].i == j && uses[v].locked;
      assert v in uses';
    }
    forall v | v in uses' ensures UseOk(b', uses'[v]) {
      if v != u {
        Referenced(b, uses, disk, v);
      }
    }
  }

  lemma LockKeepsUsers(b: seq<Buf>, uses: map<nat, Use>, disk: nat, u: nat)
    requires UsersOk(b, uses, disk) && u in uses && uses[u].i < |b| && !uses[u].locked && !b[uses[u].i].locked
    ensures UsersOk(b[uses[u].i := b[uses[u].i].(locked := true)], uses[u := uses[u].(locked := true)], disk)
  {
    var i := uses[u].i;
    var b', uses' := b[i := b[i].(locked := true)], uses[u := uses[u].(locked := true)];
    Referenced(b, uses, disk, u);
    forall j | 0 <= j < NBUF ensures BufOk(b'[j], disk) && b'[j].refcnt == |RefsTo(uses', j)| {
      RefsUpdated(uses, u, uses'[u], j);
      assert BufOk(b[j], disk);
    }
    forall j | 0 <= j < NBUF && b'[j].locked ensures LockedBySome(uses', j) {
      var v := if j == i then u else var w :| w in uses && uses[w].i == j && uses[w].locked; w;
      assert v in uses';
    }
    forall v | v in uses' ensures UseOk(b', uses'[v]) {
      assert UseOk(b, uses[v]);
    }
    forall v | v in uses && uses[v].i == i ensures !uses[v].locked {
      assert UseOk(b, uses[v]);
    }
  }

  /** Bytes and flags may change while the lock is held. */
  predicate SameHold(x: Buf, y: Buf) {
    && y.dev == x.dev && y.blockno == x.blockno && y.refcnt == x.refcnt && y.locked == x.locked && y.valid
  }

  lemma RewriteKeepsUsers(b: seq<Buf>, uses: map<nat, Use>, disk: nat, u: nat, y: Buf, changed: bool)
    requires UsersOk(b, uses, disk) && u in uses && uses[u].i < |b| && uses[u].locked && SameHold(b[uses[u].i], y)
    ensures UsersOk(b[uses[u].i := y], uses[u := uses[u].(changed := changed)], disk)
  {
    var i := uses[u].i;
    var b', uses' := b[i := y], uses[u := uses[u].(changed := changed)];
    Referenced(b, uses, disk, u);
    forall j | 0 <= j < NBUF ensures BufOk(b'[j], disk) && b'[j].refcnt == |RefsTo(uses', j)| {
      RefsUpdated(uses, u, uses'[u], j);
      assert BufOk(b[j], disk);
    }
    forall j | 0 <= j < NBUF && b'[j].locked ensures LockedBySome(uses', j) {
      var v :| v in uses && uses[v].i == j && uses[v].locked;
      assert v in uses';
    }
    forall v | v in uses' ensures UseOk(b', uses'[v]) {
      assert UseOk(b, uses[v]);
    }
  }

  lemma ReleaseKeepsUsers(b: seq<Buf>, uses: map<nat, Use>, disk: nat, u: nat)
    requires UsersOk(b, uses, disk) && u in uses && uses[u].i < |b| && uses[u].locked && b[uses[u].i].valid
    ensures b[uses[u].i].refcnt > 0
    ensures UsersOk(b[uses[u].i := b[uses[u].i].(locked := false, refcnt := b[uses[u].i].refcnt - 1)], uses - {u}, disk)
  {
    var i := uses[u].i;
    Referenced(b, uses, disk, u);
    var b', uses' := b[i := b[i].(locked := false, refcnt := b[i].refcnt - 1)], uses - {u};
    forall j | 0 <= j < NBUF ensures BufOk(b'[j], disk) && b'[j].refcnt == |RefsTo(uses', j)| {
      RefsDropped(uses, u, j);
      assert BufOk(b[j], disk);
    }
    forall j | 0 <= j < NBUF && b'[j].locked ensures LockedBySome(uses', j) {
      var v :| v in uses && uses[v].i == j && uses[v].locked;
      assert v in uses';
    }
    forall v | v in uses' ensures UseOk(b', uses'[v]) {
      assert UseOk(b, uses[v]);
    }
  }

  // ---- what the buffers and the disk hold

  ghost predicate ChangedBySome(uses: map<nat, Use>, i: nat) {
    exists u :: u in uses && uses[u].i == i && uses[u].changed
  }

  ghost predicate ChangedByOp(uses: map<nat, Use>, i: nat) {
    exists u :: u in uses && uses[u].i == i && uses[u].changed && uses[u].who.Op?
  }

  /** A clean buffer has the disk's bytes. */
  ghost predicate CleanOk(b: seq<Buf>, uses: map<nat, Use>, disk: Image, i: nat)
    requires i < |b|
  {
    b[i].dev == ROOTDEV && b[i].valid && !b[i].dirty && !ChangedBySome(uses, i) ==>
      b[i].blockno < |disk| && b[i].data == disk[b[i].blockno]
  }

  /** A file-system block that is cached, and that no operation is changing, is as it was last logged. */
  ghost predicate DataOk(l: Layout, b: seq<Buf>, uses: map<nat, Use>, view: Image, i: nat)
    requires i < |b|
  {
    b[i].dev == ROOTDEV && b[i].valid && !l.InLog(b[i].blockno) && !ChangedByOp(uses, i) ==>
      b[i].blockno < |view| && b[i].data == view[b[i].blockno]
  }

  predicate DirtyAt(b: seq<Buf>, x: nat) {
    exists i :: 0 <= i < NBUF && i < |b| && b[i].Keyed(ROOTDEV, x) && b[i].dirty
  }

  /** A file-system block that is not pinned is on the disk as it was last logged. */
  ghost predicate DiskOk(l: Layout, b: seq<Buf>, disk: Image, view: Image, x: nat) {
    x < |disk| && x < |view| && !l.InLog(x) && !DirtyAt(b, x) ==> disk[x] == view[x]
  }

  ghost predicate DataHeld(l: Layout, b: seq<Buf>, uses: map<nat, Use>, disk: Image, view: Image) {
    && |b| == NBUF + 1 && |view| == |disk|
    && (forall i :: 0 <= i < NBUF ==> CleanOk(b, uses, disk, i) && DataOk(l, b, uses, view, i))
    && (forall x :: 0 <= x < |disk| ==> DiskOk(l, b, disk, view, x))
  }

  lemma GetKeepsData(l: Layout, b: seq<Buf>, uses: map<nat, Use>, disk: Image, view: Image, u: nat, x: nat, i: nat, who: Who)
    requires UsersOk(b, uses, |disk|) && DataHeld(l, b, uses, disk, view)
    requires u !in uses && x < |disk| && Available(b, i, x)
    ensures DataHeld(l, b[i := b[i].Reserved(x)], uses[u := Use(i, x, who, false, false)], disk, view)
  {
    var b', uses' := b[i := b[i].Reserved(x)], uses[u := Use(i, x, who, false, false)];
    forall j | 0 <= j < NBUF ensures CleanOk(b', uses', disk, j) && DataOk(l, b', uses', view, j) {
      assert CleanOk(b, uses, disk, j) && DataOk(l, b, uses, view, j) && BufOk(b[j], |disk|);
      UsesStay(uses, uses', u, j);
    }
    forall y | 0 <= y < |disk| ensures DiskOk(l, b', disk, view, y) {
      assert DiskOk(l, b, disk, view, y);
      if j :| 0 <= j < NBUF && b[j].Keyed(ROOTDEV, y) && b[j].dirty {
        assert b'[j].Keyed(ROOTDEV, y) && b'[j].dirty;
      }
    }
  }

  /** A use that changes nothing does not count. */
  lemma UsesStay(uses: map<nat, Use>, uses': map<nat, Use>, u: nat, j: nat)
    requires forall v :: v != u ==> (v in uses <==> v in uses') && (v in uses ==> uses'[v] == uses[v])
    requires u in uses ==> !uses[u].changed || (u in uses' && uses'[u].changed && uses'[u].i == uses[u].i && uses'[u].who == uses[u].who)
    requires u in uses' ==> !uses'[u].changed || (u in uses && uses[u].changed && uses'[u].i == uses[u].i && uses'[u].who == uses[u].who)
    ensures ChangedBySome(uses, j) <==> ChangedBySome(uses', j)
    ensures ChangedByOp(uses, j) <==> ChangedByOp(uses', j)
  {
    if v :| v in uses && uses[v].i == j && uses[v].changed {
      assert v in uses' && uses'[v].changed;
    }
    if v :| v in uses && uses[v].i == j && uses[v].changed && uses[v].who.Op? {
      assert v in uses' && uses'[v].changed;
    }
    if v :| v in uses' && uses'[v].i == j && uses'[v].changed {
      assert v in uses && uses[v].changed;
    }
    if v :| v in uses' && uses'[v].i == j && uses'[v].changed && uses'[v].who.Op? {
      assert v in uses && uses[v].changed;
    }
  }

  /** Locking a buffer or releasing it leaves its bytes. */
  lemma HoldKeepsData(l: Layout, b: seq<Buf>, uses: map<nat, Use>, disk: Image, view: Image, uses': map<nat, Use>, u: nat, y: Buf)
    requires DataHeld(l, b, uses, disk, view) && u in uses && uses[u].i < NBUF
    requires (uses' == uses - {u} && !uses[u].changed) || uses' == uses[u := uses[u].(locked := true)]
    requires var x := b[uses[u].i]; y == x.(locked := y.locked, refcnt := y.refcnt)
    ensures DataHeld(l, b[uses[u].i := y], uses', disk, view)
  {
    var b' := b[uses[u].i := y];
    forall j | 0 <= j < NBUF ensures CleanOk(b', uses', disk, j) && DataOk(l, b', uses', view, j) {
      assert CleanOk(b, uses, disk, j) && DataOk(l, b, uses, view, j);
      UsesStay(uses, uses', u, j);
    }
    forall x | 0 <= x < |disk| ensures DiskOk(l, b', disk, view, x) {
      assert DiskOk(l, b, disk, view, x);
      if j :| 0 <= j < NBUF && b[j].Keyed(ROOTDEV, x) && b[j].dirty {
        assert b'[j].Keyed(ROOTDEV, x) && b'[j].dirty;
      }
    }
  }

  /** The one use that has buffer i locked decides whether the buffer has been changed. */
  lemma HolderDecides(b: seq<Buf>, uses: map<nat, Use>, disk: nat, u: nat, changed: bool, j: nat)
    requires UsersOk(b, uses, disk) && u in uses && uses[u].locked && j < NBUF
    ensures var i, uses' := uses[u].i, uses[u := uses[u].(changed := changed)];
      if j == i then
        && (ChangedBySome(uses', i) <==> changed) && (ChangedByOp(uses', i) <==> changed && uses[u].who.Op?)
        && (ChangedBySome(uses, i) <==> uses[u].changed) && (ChangedByOp(uses, i) <==> uses[u].changed && uses[u].who.Op?)
      else
        && (ChangedBySome(uses', j) <==> ChangedBySome(uses, j)) && (ChangedByOp(uses', j) <==> ChangedByOp(uses, j))
  {
    var i, uses' := uses[u].i, uses[u := uses[u].(changed := changed)];
    forall v | v in uses && uses[v].i == i && uses[v].changed ensures v == u {
      assert UseOk(b, uses[v]);
    }
    assert u in uses' && uses'[u].i == i;
    if j != i {
      if v :| v in uses && uses[v].i == j && uses[v].changed {
        assert v in uses' && uses'[v].changed;
      }
      if v :| v in uses && uses[v].i == j && uses[v].changed && uses[v].who.Op? {
        assert v in uses' && uses'[v].changed;
      }
      if v :| v in uses' && uses'[v].i == j && uses'[v].changed {
        assert v in uses && uses[v].changed;
      }
      if v :| v in uses' && uses'[v].i == j && uses'[v].changed && uses'[v].who.Op? {
        assert v in uses && uses[v].changed;
      }
    }
  }

  /** The holder of buffer i changes it, with the disk or the record of what was logged, at its block only. */
  lemma RewriteKeepsData(l: Layout, b: seq<Buf>, uses: map<nat, Use>, disk: Image, view: Image,
                         u: nat, y: Buf, changed: bool, disk': Image, view': Image)
    requires UsersOk(b, uses, |disk|) && DataHeld(l, b, uses, disk, view) && u in uses && uses[u].locked
    requires uses[u].i < |b| && SameHold(b[uses[u].i], y) && |disk'| == |disk| && |view'| == |view|
    requires forall x :: 0 <= x < |disk| && x != uses[u].blockno ==> disk'[x] == disk[x] && view'[x] == view[x]
    requires uses[u].blockno < |disk|
    requires !y.dirty && !changed ==> y.data == disk'[uses[u].blockno]
    requires !l.InLog(uses[u].blockno) && !(changed && uses[u].who.Op?) ==> y.data == view'[uses[u].blockno]
    requires !l.InLog(uses[u].blockno) && !y.dirty ==> disk'[uses[u].blockno] == view'[uses[u].blockno]
    ensures DataHeld(l, b[uses[u].i := y], uses[u := uses[u].(changed := changed)], disk', view')
  {
    var i := uses[u].i;
    var b', uses' := b[i := y], uses[u := uses[u].(changed := changed)];
    assert UseOk(b, uses[u]);
    forall j | 0 <= j < NBUF ensures CleanOk(b', uses', disk', j) && DataOk(l, b', uses', view', j) {
      assert CleanOk(b, uses, disk, j) && DataOk(l, b, uses, view, j) && BufOk(b[j], |disk|);
      HolderDecides(b, uses, |disk|, u, changed, j);
    }
    forall x | 0 <= x < |disk| ensures DiskOk(l, b', disk', view', x) {
      assert DiskOk(l, b, disk, view, x);
      if x == uses[u].blockno {
        assert y.dirty ==> b'[i].Keyed(ROOTDEV, x) && b'[i].dirty;
      } else if j :| 0 <= j < NBUF && b[j].Keyed(ROOTDEV, x) && b[j].dirty {
        assert b'[j].Keyed(ROOTDEV, x) && b'[j].dirty;
      }
    }
  }

  // ---- where commit stands

  /** The disk after k writes of commit. */
  lemma CommitDisk(base: Image, l: Layout, tx: Transaction, k: nat, c: Image)
    requires TransactionOk(base, l, tx) && Clean(base, l) && k <= Total(|tx|) && c == DiskAt(base, l, tx, k)
    ensures k <= |tx| ==> At(c, l.start) == At(base, l.start) && SameHomes(base, l, c)
    ensures |tx| < k <= 2 * |tx| + 1 ==>
      && At(c, l.start) == EncodeHead(At(base, l.start), Homes(tx)) && Holds(c, l, tx)
      && HasApplied(base, l, tx[..k - |tx| - 1], c)
    ensures k == Total(|tx|) ==> Clean(c, l) && HasApplied(base, l, tx, c)
  {
    DiskAtIs(base, l, tx, k);
    var ws, n := CommitWrites(base, l, tx), |tx|;
    if k == Total(n) {
      assert ws[..k] == ws;
      CommitFinishes(base, l, tx, c);
    } else if k <= n {
      assert ws[..k] == LogWrites(l, tx)[..k];
      LogPhase(base, l, tx, k, c);
    } else {
      InstallDisk(base, l, tx, k - n - 1, c);
    }
  }

  lemma InstallDisk(base: Image, l: Layout, tx: Transaction, j: nat, c: Image)
    requires TransactionOk(base, l, tx) && tx != [] && j <= |tx|
    requires c == Apply(base, CommitWrites(base, l, tx)[..|tx| + 1 + j])
    ensures At(c, l.start) == EncodeHead(At(base, l.start), Homes(tx)) && Holds(c, l, tx)
    ensures HasApplied(base, l, tx[..j], c)
  {
    AfterHeader(base, l, tx, j, c);
    var front := CommitFront(base, l, tx);
    var e := Apply(base, front);
    HeadPhase(base, l, tx, e);
    FrontAndSome(base, l, tx, j);
    ApplyConcat(base, front, tx[..j]);
    MissesHeader(base, l, tx, j);
    ApplyMisses(e, tx[..j], l.start);
  }

  lemma FrontAndSome(base: Image, l: Layout, tx: Transaction, j: nat)
    requires tx != [] && j <= |tx|
    ensures CommitWrites(base, l, tx)[..|tx| + 1 + j] == CommitFront(base, l, tx) + tx[..j]
  {
  }

  lemma MissesHeader(base: Image, l: Layout, tx: Transaction, j: nat)
    requires TransactionOk(base, l, tx) && j <= |tx|
    ensures Misses(tx[..j], l.start)
  {
    assert l.InLog(l.start) && forall t :: 0 <= t < |tx| ==> Homes(tx)[t] == tx[t].at;
  }

  /** A committer's use that has been changed holds what commit writes next. */
  ghost predicate WhoOk(s: State, u: Use)
    requires u.i < |s.b|
  {
    match u.who
    case Reader => !s.l.InLog(u.blockno) && !u.changed
    case Op(id) => !s.l.InLog(u.blockno) && id in s.ops
    case Committer =>
      s.commit.Some? && (u.changed ==>
        AtWrite(s) && Write(u.blockno, s.b[u.i].data) == NextWrite(s))
  }

  ghost predicate WhosOk(s: State) {
    && (forall u :: u in s.uses ==> s.uses[u].i < |s.b| && WhoOk(s, s.uses[u]))
    && (forall id :: id in s.ops ==> id < s.begun)
  }

  ghost predicate IdleOk(s: State) {
    NBUF !in s.slot && Clean(s.disk, s.l) && SameHomes(s.disk, s.l, s.durable)
  }

  /** Which entries commit has still pinned, after k writes. */
  ghost predicate PinsLeft(b: seq<Buf>, lh: seq<nat>, slot: seq<nat>, tx: Transaction, k: nat) {
    if k > 2 * |tx| then lh == [] && slot == [] else PinsAre(b, lh, slot, tx, k - |tx| - 1)
  }

  /** The first m entries are home. */
  ghost predicate PinsAre(b: seq<Buf>, lh: seq<nat>, slot: seq<nat>, tx: Transaction, m: int) {
    && lh == Homes(tx) && |slot| == |tx|
    && forall t :: 0 <= t < |tx| ==>
      if t < m then slot[t] == NBUF else slot[t] < NBUF && slot[t] < |b| && b[slot[t]].data == tx[t].data
  }

  ghost predicate BusyOk(s: State, k: nat) {
    && s.ops == {} && |s.base| == |s.disk| && Clean(s.base, s.l) && TransactionOk(s.base, s.l, s.tx)
    && k <= Total(|s.tx|) && s.disk == DiskAt(s.base, s.l, s.tx, k)
    && HasApplied(s.base, s.l, s.tx, s.view) && PinsLeft(s.b, s.lh, s.slot, s.tx, k)
    && (if k <= |s.tx| then SameHomes(s.base, s.l, s.durable) else s.durable == s.view)
  }

  ghost predicate LogOk(s: State) {
    && 0 < s.l.size <= NBUF && HomesOk(|s.disk|, s.l, s.lh) && |s.durable| == |s.disk|
    && L.Pins(s.b, s.lh, s.slot) && WhosOk(s)
    && (if s.commit.None? then IdleOk(s) else BusyOk(s, s.commit.value))
  }

  ghost predicate Inv(s: State) {
    UsersOk(s.b, s.uses, |s.disk|) == true && DataHeld(s.l, s.b, s.uses, s.disk, s.view) == true && LogOk(s) == true
  }

  /** Everything but the buffers and their uses is the same. */
  predicate SameRest(s: State, s': State) {
    s' == s.(b := s'.b, uses := s'.uses)
  }

  /** A step on one buffer that neither pins nor unpins it, nor changes what is pinned. */
  lemma KeepsLog(s: State, s': State, i: nat)
    requires LogOk(s) && SameRest(s, s') && i < NBUF && |s'.b| == |s.b| == NBUF + 1 && WhosOk(s')
    requires forall j :: 0 <= j < NBUF && j != i ==> s'.b[j] == s.b[j]
    requires s'.b[i].dirty == s.b[i].dirty
    requires s.b[i].dirty ==> s'.b[i].dev == s.b[i].dev && s'.b[i].blockno == s.b[i].blockno
    requires s.b[i].dirty && s.commit.Some? ==> s'.b[i].data == s.b[i].data
    ensures LogOk(s')
  {
    PinnedAreDirty(s);
  }

  lemma PinnedAreDirty(s: State)
    requires LogOk(s)
    ensures forall t :: 0 <= t < |s.slot| && s.slot[t] != NBUF ==>
      s.slot[t] < NBUF && s.b[s.slot[t]].dirty && s.b[s.slot[t]].Keyed(ROOTDEV, s.lh[t])
    ensures forall i :: 0 <= i < NBUF && s.b[i].dirty ==> !s.l.InLog(s.b[i].blockno) && s.b[i].dev == ROOTDEV
  {
    forall i | 0 <= i < NBUF && s.b[i].dirty ensures !s.l.InLog(s.b[i].blockno) && s.b[i].dev == ROOTDEV {
      var t :| 0 <= t < |s.slot| && s.slot[t] == i;
      assert s.b[s.slot[t]].Keyed(ROOTDEV, s.lh[t]);
    }
  }

  // ---- every step keeps the invariant

  lemma GetKeepsInv(s: State, u: nat, x: nat, i: nat, who: Who)
    requires Inv(s) && CanGet(s, u, x, i, who)
    ensures Inv(Got(s, u, x, i, who)) == true
  {
    if NoBuffer(s.b, x) {
      PanicKeepsInv(s);
    } else {
      GetIsAllowed(s, u, x, i, who);
      GotKeepsInv(s, Got(s, u, x, i, who), u, x, i, who);
    }
  }

  lemma PanicKeepsInv(s: State)
    requires Inv(s)
    ensures Inv(s.(panicked := true)) == true
  {
    var s' := s.(panicked := true);
    forall u | u in s.uses ensures WhoOk(s', s.uses[u]) {
      assert WhoOk(s, s.uses[u]);
    }
  }

  /** A use that begins is one that its process may make. */
  lemma GetIsAllowed(s: State, u: nat, x: nat, i: nat, who: Who)
    requires CanGet(s, u, x, i, who) && !NoBuffer(s.b, x)
    ensures u !in s.uses && x < |s.disk| && Available(s.b, i, x) == true
    ensures var s' := Got(s, u, x, i, who);
      && u in s'.uses && s'.uses[u].i < |s'.b| && WhoOk(s', s'.uses[u]) == true
      && s' == s.(b := s.b[i := s.b[i].Reserved(x)], uses := s.uses[u := Use(i, x, who, false, false)])
  {
  }

  lemma GotKeepsInv(s: State, s': State, u: nat, x: nat, i: nat, who: Who)
    requires Inv(s) && u !in s.uses && x < |s.disk| && Available(s.b, i, x) == true
    requires s' == s.(b := s.b[i := s.b[i].Reserved(x)], uses := s.uses[u := Use(i, x, who, false, false)])
    requires WhoOk(s', s'.uses[u]) == true
    ensures Inv(s') == true
  {
    GetKeepsUsers(s.b, s.uses, |s.disk|, u, x, i, who);
    GetKeepsData(s.l, s.b, s.uses, s.disk, s.view, u, x, i, who);
    GetKeepsWhos(s, s', u);
    KeepsLog(s, s', i);
  }

  /** The new use changes nothing for the others. */
  lemma GetKeepsWhos(s: State, s': State, u: nat)
    requires UsersOk(s.b, s.uses, |s.disk|) && WhosOk(s) && u !in s.uses && u in s'.uses
    requires s' == s.(b := s'.b, uses := s.uses[u := s'.uses[u]]) && |s'.b| == |s.b|
    requires s'.uses[u].i < |s.b| && WhoOk(s', s'.uses[u]) == true
    requires forall j :: 0 <= j < |s.b| && j != s'.uses[u].i ==> s'.b[j] == s.b[j]
    requires s.b[s'.uses[u].i].refcnt > 0 ==> s'.b[s'.uses[u].i].data == s.b[s'.uses[u].i].data
    ensures WhosOk(s') == true
  {
    forall v | v in s'.uses ensures s'.uses[v].i < |s'.b| && WhoOk(s', s'.uses[v]) {
      if v != u {
        assert WhoOk(s, s.uses[v]);
        Referenced(s.b, s.uses, |s.disk|, v);
      }
    }
  }

  lemma LockKeepsInv(s: State, u: nat)
    requires Inv(s) && CanLock(s, u)
    ensures Inv(Locked(s, u))
  {
    var s', i := Locked(s, u), s.uses[u].i;
    Referenced(s.b, s.uses, |s.disk|, u);
    LockKeepsUsers(s.b, s.uses, |s.disk|, u);
    HoldKeepsData(s.l, s.b, s.uses, s.disk, s.view, s'.uses, u, s'.b[i]);
    LockKeepsWhos(s, s', u);
    KeepsLog(s, s', i);
  }

  lemma LockKeepsWhos(s: State, s': State, u: nat)
    requires WhosOk(s) && CanLock(s, u) && s' == Locked(s, u)
    ensures WhosOk(s') == true
  {
    forall v | v in s'.uses ensures s'.uses[v].i < |s'.b| && WhoOk(s', s'.uses[v]) {
      assert WhoOk(s, s.uses[v]);
    }
  }

  lemma ReleaseKeepsInv(s: State, u: nat)
    requires Inv(s) && CanRelease(s, u)
    ensures Inv(Released(s, u))
  {
    var s', i := Released(s, u), s.uses[u].i;
    ReleaseKeepsUsers(s.b, s.uses, |s.disk|, u);
    HoldKeepsData(s.l, s.b, s.uses, s.disk, s.view, s'.uses, u, s'.b[i]);
    forall v | v in s'.uses ensures WhoOk(s', s'.uses[v]) {
      assert WhoOk(s, s.uses[v]);
    }
    KeepsLog(s, s', i);
  }

  /** Only use u has its buffer locked, so only u can have changed it. */
  lemma OthersUnchanged(s: State, u: nat, v: nat)
    requires Inv(s) && u in s.uses && s.uses[u].locked && v in s.uses && v != u && s.uses[v].changed
    ensures s.uses[v].i != s.uses[u].i
  {
    assert UseOk(s.b, s.uses[v]);
  }

  lemma ReadKeepsInv(s: State, u: nat)
    requires Inv(s) && CanRead(s, u)
    ensures Inv(WasRead(s, u))
  {
    var s', i := WasRead(s, u), s.uses[u].i;
    Referenced(s.b, s.uses, |s.disk|, u);
    assert UseOk(s.b, s.uses[u]) && BufOk(s.b[i], |s.disk|) && WhoOk(s, s.uses[u]);
    RewriteKeepsUsers(s.b, s.uses, |s.disk|, u, s'.b[i], s.uses[u].changed);
    NotDirtyAt(s, i);
    assert DiskOk(s.l, s.b, s.disk, s.view, s.uses[u].blockno);
    RewriteKeepsData(s.l, s.b, s.uses, s.disk, s.view, u, s'.b[i], s.uses[u].changed, s.disk, s.view);
    forall v | v in s'.uses ensures WhoOk(s', s'.uses[v]) {
      assert WhoOk(s, s.uses[v]) && UseOk(s.b, s.uses[v]);
    }
    KeepsLog(s, s', i);
  }

  /** If the buffer of a block is not dirty, no buffer of the block is. */
  lemma NotDirtyAt(s: State, i: nat)
    requires UsersOk(s.b, s.uses, |s.disk|) && i < NBUF && s.b[i].dev == ROOTDEV && !s.b[i].dirty
    ensures !DirtyAt(s.b, s.b[i].blockno)
  {
  }

  lemma ChangeKeepsInv(s: State, u: nat, data: Block)
    requires Inv(s) && CanUpdate(s, u)
    ensures Inv(Filled(s, u, data))
  {
    var s', i := Filled(s, u, data), s.uses[u].i;
    assert UseOk(s.b, s.uses[u]) && BufOk(s.b[i], |s.disk|) && WhoOk(s, s.uses[u]);
    RewriteKeepsUsers(s.b, s.uses, |s.disk|, u, s'.b[i], true);
    if !s.b[i].dirty {
      NotDirtyAt(s, i);
    }
    assert DiskOk(s.l, s.b, s.disk, s.view, s.uses[u].blockno);
    RewriteKeepsData(s.l, s.b, s.uses, s.disk, s.view, u, s'.b[i], true, s.disk, s.view);
    forall v | v in s'.uses ensures WhoOk(s', s'.uses[v]) {
      assert WhoOk(s, s.uses[v]);
      if v != u && s.uses[v].changed {
        OthersUnchanged(s, u, v);
      }
    }
    KeepsLog(s, s', i);
  }

  /** The invariant of the buffer cache alone. */
  lemma TableIsOk(s: State)
    requires Inv(s)
    ensures TableOk(s.b, s.disk)
  {
    forall i | 0 <= i < NBUF ensures BufferOk(s.b[i], s.disk) {
      assert BufOk(s.b[i], |s.disk|) && CleanOk(s.b, s.uses, s.disk, i);
      forall u | u in s.uses && s.uses[u].i == i && s.uses[u].changed ensures s.b[i].locked {
        assert UseOk(s.b, s.uses[u]);
      }
    }
  }

  lemma LogWriteKeepsInv(s: State, u: nat)
    requires Inv(s) && CanUpdate(s, u)
    ensures Inv(WasLogged(s, u))
  {
    if Reservation.Fits(|s.lh|, s.l.size) {
      var s' := WasLogged(s, u);
      LogWriteKeepsUsers(s, s', u);
      LogWriteKeepsData(s, s', u);
      LogWriteKeepsLog(s, s', u);
    }
  }

  lemma LogWriteKeepsUsers(s: State, s': State, u: nat)
    requires UsersOk(s.b, s.uses, |s.disk|) && CanUpdate(s, u) && Reservation.Fits(|s.lh|, s.l.size) && s' == WasLogged(s, u)
    ensures UsersOk(s'.b, s'.uses, |s'.disk|) == true
  {
    RewriteKeepsUsers(s.b, s.uses, |s.disk|, u, s'.b[s.uses[u].i], false);
  }

  lemma LogWriteKeepsLog(s: State, s': State, u: nat)
    requires Inv(s) && CanUpdate(s, u) && Reservation.Fits(|s.lh|, s.l.size) && s' == WasLogged(s, u)
    ensures LogOk(s') == true
  {
    assert WhoOk(s, s.uses[u]);
    LogWriteKeepsPins(s, u, s'.b, s'.lh, s'.slot);
    LogWriteKeepsWhos(s, s', u);
  }

  lemma LogWriteKeepsData(s: State, s': State, u: nat)
    requires Inv(s) && CanUpdate(s, u) && Reservation.Fits(|s.lh|, s.l.size) && s' == WasLogged(s, u)
    ensures DataHeld(s'.l, s'.b, s'.uses, s'.disk, s'.view) == true
  {
    assert UseOk(s.b, s.uses[u]) && BufOk(s.b[s.uses[u].i], |s.disk|);
    RewriteKeepsData(s.l, s.b, s.uses, s.disk, s.view, u, s'.b[s.uses[u].i], false, s.disk, s'.view);
  }

  lemma LogWriteKeepsPins(s: State, u: nat, b: seq<Buf>, lh: seq<nat>, slot: seq<nat>)
    requires Inv(s) && CanUpdate(s, u) && Reservation.Fits(|s.lh|, s.l.size) && s.commit.None?
    requires var i, x := s.uses[u].i, s.uses[u].blockno;
      && b == s.b[i := s.b[i].(dirty := true)] && lh == Reservation.Absorb(s.lh, x)
      && slot == if x in s.lh then s.slot else s.slot + [i]
    ensures L.Pins(b, lh, slot) == true && NBUF !in slot && HomesOk(|s.disk|, s.l, lh) == true
  {
    assert UseOk(s.b, s.uses[u]) && BufOk(s.b[s.uses[u].i], |s.disk|) && WhoOk(s, s.uses[u]);
    TableIsOk(s);
    PinOne(s.b, b, s.disk, s.l, s.lh, s.slot, s.uses[u].i);
  }

  lemma PinOne(b: seq<Buf>, c: seq<Buf>, disk: Image, l: Layout, lh: seq<nat>, slot: seq<nat>, i: nat)
    requires TableOk(b, disk) && L.AllPinned(b, lh, slot) && HomesOk(|disk|, l, lh) && Reservation.Fits(|lh|, l.size)
    requires i < NBUF && b[i].dev == ROOTDEV && !l.InLog(b[i].blockno) && c == b[i := b[i].(dirty := true)]
    ensures var x := b[i].blockno;
      var lh', slot' := Reservation.Absorb(lh, x), if x in lh then slot else slot + [i];
      L.AllPinned(c, lh', slot') && HomesOk(|disk|, l, lh')
  {
    assert BufferOk(b[i], disk);
    L.PinsGrow(b, disk, lh, slot, i);
  }

  lemma LogWriteKeepsWhos(s: State, s': State, u: nat)
    requires Inv(s) && u in s.uses && s.commit.None? && s.uses[u].locked && s.uses[u].i < |s.b|
    requires s'.uses == s.uses[u := s.uses[u].(changed := false)] && |s'.b| == |s.b|
    requires s'.ops == s.ops && s'.begun == s.begun && s'.commit == s.commit && s'.l == s.l
    ensures WhosOk(s') == true
  {
    forall v | v in s'.uses ensures s'.uses[v].i < |s'.b| && WhoOk(s', s'.uses[v]) {
      assert WhoOk(s, s.uses[v]);
    }
  }

  lemma BeginKeepsInv(s: State)
    requires Inv(s) && s.commit.None?
    ensures Inv(s.(ops := s.ops + {s.begun}, begun := s.begun + 1))
  {
    var s' := s.(ops := s.ops + {s.begun}, begun := s.begun + 1);
    forall v | v in s'.uses ensures s'.uses[v].i < |s'.b| && WhoOk(s', s'.uses[v]) {
      assert WhoOk(s, s.uses[v]);
    }
  }

  lemma DirtyIsLogged(s: State, x: nat)
    requires LogOk(s) && DirtyAt(s.b, x)
    ensures x in s.lh
  {
    var i :| 0 <= i < NBUF && s.b[i].Keyed(ROOTDEV, x) && s.b[i].dirty;
    var t :| 0 <= t < |s.slot| && s.slot[t] == i;
    assert s.b[s.slot[t]].Keyed(ROOTDEV, s.lh[t]);
  }

  /** When no operation runs, what is pinned is what has been logged since the last commit. */
  lemma PendingIsView(s: State)
    requires Inv(s) && s.commit.None? && forall u :: u in s.uses ==> !s.uses[u].who.Op?
    ensures var tx := TxOf(s.b, s.lh, s.slot); Homes(tx) == s.lh && HasApplied(s.disk, s.l, tx, s.view)
  {
    var tx := TxOf(s.b, s.lh, s.slot);
    PinnedAreDirty(s);
    forall t | 0 <= t < |tx| ensures At(s.view, tx[t].at) == tx[t].data {
      assert s.slot[t] != NBUF;
      assert s.b[s.slot[t]].Keyed(ROOTDEV, s.lh[t]) && BufOk(s.b[s.slot[t]], |s.disk|);
      assert DataOk(s.l, s.b, s.uses, s.view, s.slot[t]);
    }
    forall x | 0 <= x < |s.disk| && !s.l.InLog(x) && Misses(tx, x) ensures s.view[x] == s.disk[x] {
      assert DiskOk(s.l, s.b, s.disk, s.view, x);
      if DirtyAt(s.b, x) {
        DirtyIsLogged(s, x);
      }
      assert forall t :: 0 <= t < |tx| ==> tx[t].at == s.lh[t];
    }
  }

  lemma EndKeepsInv(s: State, op: nat)
    requires Inv(s) && CanEnd(s, op)
    ensures Inv(Ended(s, op))
  {
    var s' := Ended(s, op);
    EndKeepsWhos(s, op);
    if s'.ops == {} {
      forall v | v in s.uses ensures !s.uses[v].who.Op? {
        assert WhoOk(s, s.uses[v]);
      }
      CommitStarts(s, s');
    }
  }

  lemma EndKeepsWhos(s: State, op: nat)
    requires Inv(s) && CanEnd(s, op)
    ensures WhosOk(Ended(s, op)) == true
  {
    var s' := Ended(s, op);
    forall v | v in s'.uses ensures s'.uses[v].i < |s'.b| && WhoOk(s', s'.uses[v]) {
      assert WhoOk(s, s.uses[v]);
    }
  }

  lemma CommitStarts(s: State, s': State)
    requires Inv(s) && s.commit.None? && forall u :: u in s.uses ==> !s.uses[u].who.Op?
    requires s' == s.(ops := {}, commit := Some(0), base := s.disk, tx := TxOf(s.b, s.lh, s.slot))
    ensures BusyOk(s', 0) == true
  {
    PendingIsView(s);
    PinnedAreDirty(s);
  }

  // ---- commit's own steps

  /** Entry t is still pinned, in the buffer of whoever uses its block. */
  lemma PinnedBuffer(s: State, t: nat, u: nat)
    requires Inv(s) && s.commit.Some? && s.commit.value <= |s.tx| + 1 + t && t < |s.tx|
    requires u in s.uses && s.uses[u].blockno == s.tx[t].at
    ensures s.uses[u].i == s.slot[t] && s.uses[u].i < NBUF && s.b[s.uses[u].i].dirty && s.b[s.uses[u].i].data == s.tx[t].data
    ensures !s.l.InLog(s.tx[t].at) && s.tx[t].at < |s.disk| && s.view[s.tx[t].at] == s.tx[t].data
  {
    PinnedAreDirty(s);
    assert UseOk(s.b, s.uses[u]) && Homes(s.tx)[t] == s.tx[t].at;
  }

  /** What commit reads from the log area is what the disk has there. */
  lemma LogBuffer(s: State, v: nat)
    requires Inv(s) && Holding(s, v) && s.uses[v].who == Committer && s.l.InLog(s.uses[v].blockno) && !s.uses[v].changed
    ensures !s.b[s.uses[v].i].dirty && s.uses[v].blockno < |s.disk|
    ensures s.b[s.uses[v].i].data == s.disk[s.uses[v].blockno]
  {
    PinnedAreDirty(s);
    var i := s.uses[v].i;
    assert UseOk(s.b, s.uses[v]) && CleanOk(s.b, s.uses, s.disk, i) && BufOk(s.b[i], |s.disk|);
    HolderDecides(s.b, s.uses, |s.disk|, v, false, i);
  }

  /** A use that holds something for commit to write holds its next block. */
  lemma ChangedIsTarget(s: State, v: nat)
    requires Inv(s) && v in s.uses && s.uses[v].who == Committer && s.uses[v].changed
    ensures AtWrite(s) && s.uses[v].blockno == NextWrite(s).at && s.uses[v].i < |s.b|
    ensures s.b[s.uses[v].i].data == NextWrite(s).data
  {
    assert WhoOk(s, s.uses[v]);
  }

  lemma LogsData(s: State, t: nat)
    requires Inv(s) && Logs(s, t)
    ensures AtWrite(s) && NextWrite(s) == Write(s.l.Slot(t), s.tx[t].data) && s.l.InLog(s.l.Slot(t))
  {
    assert Homes(s.tx)[t] == s.tx[t].at;
  }

  lemma InstallsData(s: State, t: nat)
    requires s.commit.Some? && BusyOk(s, s.commit.value) && Installs(s, t)
    ensures AtWrite(s) && NextWrite(s) == s.tx[t] && s.l.InLog(s.l.Slot(t))
    ensures s.l.Slot(t) < |s.disk| && s.disk[s.l.Slot(t)] == s.tx[t].data && !s.l.InLog(s.tx[t].at)
  {
    NextInstall(s, t);
    InstallDiskAt(s.base, s.l, s.tx, t, s.disk);
  }

  lemma NextInstall(s: State, t: nat)
    requires Installs(s, t)
    ensures AtWrite(s) && NextWrite(s) == s.tx[t]
  {
  }

  lemma InstallHolds(base: Image, l: Layout, tx: Transaction, t: nat, c: Image)
    requires TransactionOk(base, l, tx) && t < |tx| && c == DiskAt(base, l, tx, |tx| + 1 + t)
    ensures Holds(c, l, tx)
  {
    DiskAtIs(base, l, tx, |tx| + 1 + t);
    AfterHeader(base, l, tx, t, c);
  }

  lemma InstallDiskAt(base: Image, l: Layout, tx: Transaction, t: nat, c: Image)
    requires TransactionOk(base, l, tx) && Clean(base, l) && t < |tx| && c == DiskAt(base, l, tx, |tx| + 1 + t)
    ensures l.InLog(l.Slot(t)) && l.Slot(t) < |c| && c[l.Slot(t)] == tx[t].data && !l.InLog(tx[t].at)
  {
    InstallHolds(base, l, tx, t, c);
    HeldAt(c, l, tx, t);
  }

  lemma HeldAt(d: Image, l: Layout, tx: Transaction, t: nat)
    requires TransactionOk(d, l, tx) && Holds(d, l, tx) && t < |tx|
    ensures l.InLog(l.Slot(t)) && l.Slot(t) < |d| && d[l.Slot(t)] == tx[t].data && !l.InLog(tx[t].at)
  {
    assert Homes(tx)[t] == tx[t].at;
    assert Logged(d, l, Homes(tx))[t].data == tx[t].data;
  }

  lemma CopyGives(s: State, u: nat, v: nat)
    requires Inv(s) && CanCopy(s, u, v)
    ensures Holding(s, u) && Holding(s, v) && s.uses[u].who == Committer && AtWrite(s)
    ensures Write(s.uses[u].blockno, s.b[s.uses[v].i].data) == NextWrite(s)
    ensures s.b[s.uses[u].i].dirty ==> s.b[s.uses[v].i].data == s.b[s.uses[u].i].data
    ensures !s.l.InLog(s.uses[u].blockno) ==>
      s.b[s.uses[u].i].dirty && s.uses[u].blockno < |s.disk| && s.b[s.uses[v].i].data == s.view[s.uses[u].blockno]
  {
    var t :| 0 <= t < |s.tx| && Copies(s, t, u, v);
    if Logs(s, t) {
      LogsData(s, t);
      PinnedBuffer(s, t, v);
      LogBuffer(s, u);
    } else {
      InstallsData(s, t);
      PinnedBuffer(s, t, u);
      if s.uses[v].changed {
        ChangedIsTarget(s, v);
      }
      LogBuffer(s, v);
    }
  }

  /** Commit fills the buffer of use u with what it writes next. */
  lemma FillKeepsInv(s: State, s': State, u: nat, data: Block)
    requires Inv(s) && Holding(s, u) && s.uses[u].who == Committer && AtWrite(s) && !s.uses[u].changed
    requires Write(s.uses[u].blockno, data) == NextWrite(s)
    requires s.b[s.uses[u].i].dirty ==> data == s.b[s.uses[u].i].data
    requires !s.l.InLog(s.uses[u].blockno) ==>
      s.b[s.uses[u].i].dirty && s.uses[u].blockno < |s.disk| && data == s.view[s.uses[u].blockno]
    requires s' == Filled(s, u, data)
    ensures Inv(s')
  {
    var i := s.uses[u].i;
    assert UseOk(s.b, s.uses[u]) && BufOk(s.b[i], |s.disk|);
    RewriteKeepsUsers(s.b, s.uses, |s.disk|, u, s'.b[i], true);
    RewriteKeepsData(s.l, s.b, s.uses, s.disk, s.view, u, s'.b[i], true, s.disk, s.view);
    FillKeepsWhos(s, s', u, data);
    KeepsLog(s, s', i);
  }

  lemma FillKeepsWhos(s: State, s': State, u: nat, data: Block)
    requires Inv(s) && Holding(s, u) && s.uses[u].who == Committer && AtWrite(s) && !s.uses[u].changed
    requires Write(s.uses[u].blockno, data) == NextWrite(s)
    requires s' == Filled(s, u, data)
    ensures WhosOk(s') == true
  {
    forall v | v in s'.uses ensures s'.uses[v].i < |s'.b| && WhoOk(s', s'.uses[v]) {
      assert WhoOk(s, s.uses[v]);
      if v != u && s.uses[v].changed {
        OthersUnchanged(s, u, v);
      }
    }
  }

  lemma CopyKeepsInv(s: State, u: nat, v: nat)
    requires Inv(s) && CanCopy(s, u, v)
    ensures Holding(s, u) && Holding(s, v) && Inv(Filled(s, u, s.b[s.uses[v].i].data))
  {
    CopyGives(s, u, v);
    FillKeepsInv(s, Filled(s, u, s.b[s.uses[v].i].data), u, s.b[s.uses[v].i].data);
  }

  lemma HeadsData(s: State)
    requires Inv(s) && Heads(s)
    ensures AtWrite(s) && s.l.InLog(s.l.start)
    ensures NextWrite(s) == Write(s.l.start, EncodeHead(At(s.disk, s.l.start), s.lh))
  {
    CommitDisk(s.base, s.l, s.tx, s.commit.value, s.disk);
  }

  lemma FillHeadKeepsInv(s: State, u: nat)
    requires Inv(s) && CanFillHead(s, u)
    ensures Inv(Filled(s, u, EncodeHead(s.b[s.uses[u].i].data, s.lh)))
  {
    HeadsData(s);
    LogBuffer(s, u);
    FillKeepsInv(s, Filled(s, u, EncodeHead(s.b[s.uses[u].i].data, s.lh)), u, EncodeHead(s.b[s.uses[u].i].data, s.lh));
  }

  /** After the write nothing is left for commit to write in this turn. */
  lemma FlushKeepsWhos(s: State, s': State, u: nat)
    requires Inv(s) && CanFlush(s, u) && s' == Flushed(s, u)
    ensures WhosOk(s') == true
  {
    ChangedIsTarget(s, u);
    forall v | v in s'.uses ensures s'.uses[v].i < |s'.b| && WhoOk(s', s'.uses[v]) {
      assert WhoOk(s, s.uses[v]) && UseOk(s.b, s.uses[v]) && UseOk(s.b, s.uses[u]);
      if v != u && s.uses[v].changed && s.uses[v].who == Committer {
        ChangedIsTarget(s, v);
        OthersUnchanged(s, u, v);
      }
    }
  }

  /** The pins that are left when commit has made one more write. */
  ghost predicate PinsFit(s: State) {
    && s.commit.Some? && L.Pins(s.b, s.lh, s.slot) && PinsLeft(s.b, s.lh, s.slot, s.tx, s.commit.value)
    && HomesOk(|s.disk|, s.l, s.lh)
  }

  lemma FlushKeepsPins(s: State, s': State, u: nat)
    requires Inv(s) && CanFlush(s, u) && s' == Flushed(s, u)
    ensures PinsFit(s') == true
  {
    if t: nat :| Installs(s, t) {
      HomeKeepsPins(s, s', u, t);
    } else {
      LogKeepsPins(s, s', u);
    }
  }

  lemma HomeKeepsPins(s: State, s': State, u: nat, t: nat)
    requires Inv(s) && CanFlush(s, u) && s' == Flushed(s, u) && Installs(s, t)
    ensures PinsFit(s') == true
  {
    FlushedHome(s, u, t);
    HomePins(s, s', u, t);
  }

  lemma LogKeepsPins(s: State, s': State, u: nat)
    requires Inv(s) == true && CanFlush(s, u) && s' == Flushed(s, u) && forall t: nat :: !Installs(s, t)
    ensures PinsFit(s') == true
  {
    NotInstalling(s);
    FlushedLog(s, u);
    PinsNow(s);
    LogFlushed(s, s', u);
    SamePins(s.b, s'.b, s.lh, s.slot, s.tx, s.commit.value, s.uses[u].i);
  }

  lemma PinsNow(s: State)
    requires Inv(s) && s.commit.Some?
    ensures L.Pins(s.b, s.lh, s.slot) == true && PinsLeft(s.b, s.lh, s.slot, s.tx, s.commit.value) == true
  {
  }

  /** A write to the log leaves the entries as they are. */
  lemma LogFlushed(s: State, s': State, u: nat)
    requires CanFlush(s, u) && s' == Flushed(s, u) && !(|s.tx| < s.commit.value <= 2 * |s.tx|)
    ensures s'.b == s.b[s.uses[u].i := s.b[s.uses[u].i].(dirty := false)] && s'.tx == s.tx
    ensures s'.commit == Some(s.commit.value + 1) && s'.lh == s.lh && s'.slot == s.slot
  {
  }

  lemma NotInstalling(s: State)
    requires AtWrite(s) && forall t: nat :: !Installs(s, t)
    ensures !(|s.tx| < s.commit.value <= 2 * |s.tx|)
  {
    assert |s.tx| < s.commit.value <= 2 * |s.tx| ==> Installs(s, s.commit.value - |s.tx| - 1);
  }

  lemma HomePins(s: State, s': State, u: nat, t: nat)
    requires Installs(s, t) && Holding(s, u) && s.uses[u].blockno < |s.disk| && s' == Flushed(s, u)
    requires t < |s.slot| && s.slot[t] == s.uses[u].i
    requires L.Pins(s.b, s.lh, s.slot) && PinsAre(s.b, s.lh, s.slot, s.tx, t) && NoDuplicates(s.lh)
    ensures L.Pins(s'.b, s'.lh, s'.slot) == true && PinsLeft(s'.b, s'.lh, s'.slot, s'.tx, s'.commit.value) == true
    ensures s'.lh == s.lh || s'.lh == []
  {
    UnpinOne(s.b, s'.b, s.lh, s.slot, s.tx, t, s.uses[u].i);
    assert s'.commit == Some(|s.tx| + 2 + t);
    if t + 1 == |s.tx| {
      assert s'.lh == [] && s'.slot == [];
    } else {
      assert s'.lh == s.lh && s'.slot == s.slot[t := NBUF];
    }
  }

  lemma FlushedHome(s: State, u: nat, t: nat)
    requires Inv(s) && CanFlush(s, u) && Installs(s, t)
    ensures t < |s.slot| && s.slot[t] == s.uses[u].i < NBUF
  {
    ChangedIsTarget(s, u);
    InstallsData(s, t);
    PinnedBuffer(s, t, u);
  }

  lemma FlushedLog(s: State, u: nat)
    requires Inv(s) && CanFlush(s, u) && !(|s.tx| < s.commit.value <= 2 * |s.tx|)
    ensures s.uses[u].i < NBUF && !s.b[s.uses[u].i].dirty
  {
    assert UseOk(s.b, s.uses[u]);
    TargetInLog(s);
    PinnedAreDirty(s);
  }

  lemma SamePins(b: seq<Buf>, c: seq<Buf>, lh: seq<nat>, slot: seq<nat>, tx: Transaction, k: nat, i: nat)
    requires L.Pins(b, lh, slot) && PinsLeft(b, lh, slot, tx, k) && i < NBUF && !b[i].dirty && (k <= |tx| || 2 * |tx| < k)
    requires c == b[i := b[i].(dirty := false)]
    ensures L.Pins(c, lh, slot) == true && PinsLeft(c, lh, slot, tx, k + 1) == true
  {
    assert c == b;
  }

  /** The write of entry t to its home releases its pin; after the last one nothing is pinned. */
  lemma UnpinOne(b: seq<Buf>, c: seq<Buf>, lh: seq<nat>, slot: seq<nat>, tx: Transaction, t: nat, i: nat)
    requires L.Pins(b, lh, slot) && PinsAre(b, lh, slot, tx, t) && NoDuplicates(lh) && t < |tx|
    requires slot[t] == i < NBUF && c == b[i := b[i].(dirty := false)]
    ensures L.Pins(c, lh, slot[t := NBUF]) == true && PinsAre(c, lh, slot[t := NBUF], tx, t + 1) == true
    ensures t + 1 == |tx| ==> L.Pins(c, [], []) == true
  {
    L.PinsShrink(b, c, lh, slot, t, i);
    if t + 1 == |tx| {
      var none := slot[t := NBUF];
      assert forall m :: 0 <= m < |tx| ==> none[m] == NBUF;
    }
  }

  /** Commit's other writes go to the log area. */
  lemma TargetInLog(s: State)
    requires AtWrite(s) && TransactionOk(s.base, s.l, s.tx) && !(|s.tx| < s.commit.value <= 2 * |s.tx|)
    ensures s.l.InLog(NextWrite(s).at)
  {
  }

  lemma FlushKeepsData(s: State, s': State, u: nat)
    requires Inv(s) && CanFlush(s, u) && s' == Flushed(s, u)
    ensures DataHeld(s'.l, s'.b, s'.uses, s'.disk, s'.view) == true
  {
    var i := s.uses[u].i;
    assert UseOk(s.b, s.uses[u]) && BufOk(s.b[i], |s.disk|);
    HolderDecides(s.b, s.uses, |s.disk|, u, false, i);
    assert DataOk(s.l, s.b, s.uses, s.view, i);
    RewriteKeepsData(s.l, s.b, s.uses, s.disk, s.view, u, s'.b[i], false, s'.disk, s.view);
  }

  lemma FlushKeepsInv(s: State, u: nat)
    requires Inv(s) && CanFlush(s, u)
    ensures Inv(Flushed(s, u))
  {
    var s' := Flushed(s, u);
    ChangedIsTarget(s, u);
    FlushKeepsUsers(s, s', u);
    FlushKeepsData(s, s', u);
    FlushKeepsLog(s, s', u);
  }

  lemma FlushKeepsUsers(s: State, s': State, u: nat)
    requires Inv(s) && CanFlush(s, u) && s' == Flushed(s, u)
    ensures UsersOk(s'.b, s'.uses, |s'.disk|) == true
  {
    assert UseOk(s.b, s.uses[u]);
    RewriteKeepsUsers(s.b, s.uses, |s.disk|, u, s'.b[s.uses[u].i], false);
  }

  lemma FlushKeepsLog(s: State, s': State, u: nat)
    requires Inv(s) && CanFlush(s, u) && s' == Flushed(s, u)
    ensures LogOk(s') == true
  {
    ChangedIsTarget(s, u);
    FlushKeepsWhos(s, s', u);
    FlushKeepsPins(s, s', u);
    FlushKeepsBusy(s, s', u);
  }

  lemma FlushKeepsBusy(s: State, s': State, u: nat)
    requires AtWrite(s) && BusyOk(s, s.commit.value) && |s.durable| == |s.disk|
    requires Holding(s, u) && s.uses[u].blockno < |s.disk| && s' == Flushed(s, u)
    requires Write(s.uses[u].blockno, s.b[s.uses[u].i].data) == NextWrite(s)
    requires PinsFit(s') == true
    ensures BusyOk(s', s'.commit.value) == true && |s'.durable| == |s'.disk|
  {
  }

  lemma FinishKeepsInv(s: State)
    requires Inv(s) && CanFinish(s)
    ensures Inv(s.(commit := None))
  {
    var s' := s.(commit := None);
    forall v | v in s'.uses ensures s'.uses[v].i < |s'.b| && WhoOk(s', s'.uses[v]) {
      assert WhoOk(s, s.uses[v]);
    }
    CommitEnds(s, s');
  }

  lemma CommitEnds(s: State, s': State)
    requires LogOk(s) && s.commit == Some(Total(|s.tx|)) && s' == s.(commit := None)
    ensures IdleOk(s') == true
  {
    CommitDisk(s.base, s.l, s.tx, s.commit.value, s.disk);
    AppliedOnce(s.base, s.l, s.tx, s.disk, s.view);
    assert s.tx == [] ==> s.disk == s.base;
  }

  lemma StepKeepsInv(s: State, step: Step)
    requires Inv(s) && Enabled(s, step)
    ensures Inv(Next(s, step))
  {
    match step
    case Get(u, x, i, who) => GetKeepsInv(s, u, x, i, who);
    case Lock(u) => LockKeepsInv(s, u);
    case Read(u) => ReadKeepsInv(s, u);
    case Change(u, data) => ChangeKeepsInv(s, u, data);
    case LogWrite(u) => LogWriteKeepsInv(s, u);
    case Release(u) => ReleaseKeepsInv(s, u);
    case Begin => BeginKeepsInv(s);
    case End(op) => EndKeepsInv(s, op);
    case Copy(u, v) => CopyKeepsInv(s, u, v);
    case FillHead(u) => FillHeadKeepsInv(s, u);
    case Flush(u) => FlushKeepsInv(s, u);
    case Finish => FinishKeepsInv(s);
  }

  /** The log fits the disk and is empty. */
  ghost predicate Booted(d: Image, l: Layout) {
    0 < l.size <= NBUF && l.start + l.size <= |d| && Clean(d, l)
  }

  lemma BootIsOk(d: Image, l: Layout)
    requires Booted(d, l)
    ensures Inv(Boot(d, l))
  {
    var s := Boot(d, l);
    forall i | 0 <= i < NBUF ensures s.b[i].refcnt == |RefsTo(s.uses, i)| {
      assert RefsTo(s.uses, i) == {};
    }
  }

  lemma {:induction false} InvHolds(d: Image, l: Layout, schedule: seq<Step>)
    requires Booted(d, l)
    ensures Inv(After(d, l, schedule))
  {
    if schedule == [] {
      BootIsOk(d, l);
    } else {
      var last := |schedule| - 1;
      InvHolds(d, l, schedule[..last]);
      if Enabled(After(d, l, schedule[..last]), schedule[last]) {
        StepKeepsInv(After(d, l, schedule[..last]), schedule[last]);
      }
    }
  }

  // ---- what holds of every run

  /** A buffer that is held or pinned is never given to another block. */
  lemma HeldOrPinnedStays(d: Image, l: Layout, schedule: seq<Step>, step: Step, i: nat)
    requires Booted(d, l) && Enabled(After(d, l, schedule), step) && i < NBUF
    requires var s := After(d, l, schedule); |s.b| == NBUF + 1 && (s.b[i].refcnt > 0 || i in s.slot)
    ensures var s, s' := After(d, l, schedule), Next(After(d, l, schedule), step);
      |s'.b| == NBUF + 1 && s'.b[i].dev == s.b[i].dev == ROOTDEV && s'.b[i].blockno == s.b[i].blockno
  {
    var s := After(d, l, schedule);
    InvHolds(d, l, schedule);
    PinnedAreDirty(s);
    assert BufOk(s.b[i], |s.disk|);
    BusyKeepsKey(s, step, i);
  }

  lemma BusyKeepsKey(s: State, step: Step, i: nat)
    requires |s.b| == NBUF + 1 && i < NBUF && s.b[i].Busy() && s.b[i].dev == ROOTDEV && Enabled(s, step)
    ensures var s' := Next(s, step);
      |s'.b| == NBUF + 1 && s'.b[i].dev == ROOTDEV && s'.b[i].blockno == s.b[i].blockno
  {
    match step
    case Get(u, x, j, who) => assert NoBuffer(s.b, x) || Available(s.b, j, x);
    case _ =>
  }

  /** bget panics exactly when the block is not cached and every buffer is pinned by the log or held by a process. */
  lemma BgetPanics(d: Image, l: Layout, schedule: seq<Step>, u: nat, x: nat, i: nat, who: Who)
    requires Booted(d, l) && Enabled(After(d, l, schedule), Get(u, x, i, who))
    ensures var s := After(d, l, schedule);
      && |s.b| == NBUF + 1
      && (Next(s, Get(u, x, i, who)).panicked <==>
            forall j :: 0 <= j < NBUF ==> !s.b[j].Keyed(ROOTDEV, x) && (j in s.slot || RefsTo(s.uses, j) != {}))
  {
    var s := After(d, l, schedule);
    InvHolds(d, l, schedule);
    PinnedAreDirty(s);
    forall j | 0 <= j < NBUF ensures s.b[j].Busy() <==> j in s.slot || RefsTo(s.uses, j) != {} {
      assert s.b[j].refcnt == |RefsTo(s.uses, j)|;
    }
  }

  /** Whoever holds the lock of a buffer, once it is read in and while he has not changed it, has the bytes that were
      last logged for the block, or the disk's as the machine found it; commit or not makes no difference. */
  lemma BreadGivesLogged(d: Image, l: Layout, schedule: seq<Step>, u: nat)
    requires Booted(d, l) && Holding(After(d, l, schedule), u)
    requires var s := After(d, l, schedule); !s.uses[u].changed && !l.InLog(s.uses[u].blockno)
    ensures var s := After(d, l, schedule);
      var x := s.uses[u].blockno;
      && x < |d| && s.b[s.uses[u].i].Keyed(ROOTDEV, x)
      && s.b[s.uses[u].i].data == Apply(d, Updates(s.hist))[x]
  {
    var s := After(d, l, schedule);
    InvHolds(d, l, schedule);
    HistoryHolds(d, l, schedule);
    var i := s.uses[u].i;
    assert UseOk(s.b, s.uses[u]) && BufOk(s.b[i], |s.disk|) && DataOk(s.l, s.b, s.uses, s.view, i);
    HolderDecides(s.b, s.uses, |s.disk|, u, false, i);
  }

  /** Between commits, when nobody is in the middle of an update, that is the disk overlaid with what is pinned. */
  lemma LoggedIsOverlay(d: Image, l: Layout, schedule: seq<Step>, x: nat)
    requires Booted(d, l) && x < |d| && !l.InLog(x)
    requires var s := After(d, l, schedule); s.commit.None? && forall u :: u in s.uses ==> !s.uses[u].who.Op?
    ensures var s := After(d, l, schedule);
      && L.AllPinned(s.b, s.lh, s.slot) && |s.disk| == |d|
      && Apply(d, Updates(s.hist))[x] == L.Overlay(s.disk, L.PendingIn(s.b, s.lh, s.slot), x)
  {
    var s := After(d, l, schedule);
    InvHolds(d, l, schedule);
    HistoryHolds(d, l, schedule);
    PendingIsView(s);
    PinnedAreDirty(s);
    assert L.PendingIn(s.b, s.lh, s.slot) == TxOf(s.b, s.lh, s.slot);
    L.AppliedIsOverlay(s.disk, l, TxOf(s.b, s.lh, s.slot), s.view, x);
  }

  /** Write-ahead: a step that changes a file-system block on the disk is a write of commit, and the log on the disk
      then names every block of the transaction and holds its contents. */
  lemma WriteAhead(d: Image, l: Layout, schedule: seq<Step>, step: Step, x: nat)
    requires Booted(d, l) && Enabled(After(d, l, schedule), step) && x < |d| && !l.InLog(x)
    requires At(Next(After(d, l, schedule), step).disk, x) != At(After(d, l, schedule).disk, x)
    ensures var s := After(d, l, schedule);
      step.Flush? && s.commit.Some? && s.tx != [] && Holds(s.disk, l, s.tx) && x in Homes(s.tx)
  {
    var s := After(d, l, schedule);
    InvHolds(d, l, schedule);
    HistoryHolds(d, l, schedule);
    OnlyFlushWrites(s, step);
    ChangedIsTarget(s, step.u);
    FlushIsAhead(s, step.u, x);
  }

  lemma OnlyFlushWrites(s: State, step: Step)
    requires Enabled(s, step) && Next(s, step).disk != s.disk
    ensures step.Flush?
  {
  }

  lemma FlushIsAhead(s: State, u: nat, x: nat)
    requires AtWrite(s) && BusyOk(s, s.commit.value) && Holding(s, u) && s.uses[u].blockno == NextWrite(s).at < |s.disk|
    requires x < |s.disk| && !s.l.InLog(x) && Flushed(s, u).disk[x] != s.disk[x]
    ensures s.tx != [] && Holds(s.disk, s.l, s.tx) && x in Homes(s.tx)
  {
    if t: nat :| Installs(s, t) {
      NextInstall(s, t);
      InstallHolds(s.base, s.l, s.tx, t, s.disk);
      assert Homes(s.tx)[t] == x;
    } else {
      NotInstalling(s);
      TargetInLog(s);
    }
  }

  // ---- what survives a crash

  function Updates(hist: seq<Entry>): seq<Write> {
    seq(|hist|, t requires 0 <= t < |hist| => hist[t].w)
  }

  /** view and durable are what the log_writes, and the durable ones among them, make of the disk; and no
      operation has updates of both kinds. */
  ghost predicate HistoryOk(s: State, d: Image, l: Layout) {
    && s.l == l && |s.disk| == |d| && s.kept <= |s.hist|
    && s.view == Apply(d, Updates(s.hist)) && s.durable == Apply(d, Updates(s.hist[..s.kept]))
    && (forall j :: 0 <= j < |s.hist| ==> s.hist[j].op < s.begun)
    && (forall j :: 0 <= j < s.kept ==> s.hist[j].op !in s.ops)
    && (forall j, m :: 0 <= j < s.kept <= m < |s.hist| ==> s.hist[j].op != s.hist[m].op)
  }

  lemma OneMoreUpdate(d: Image, hist: seq<Entry>, e: Entry)
    ensures Apply(d, Updates(hist + [e])) == Store(Apply(d, Updates(hist)), e.w)
  {
    assert Updates(hist + [e]) == Updates(hist) + [e.w];
    ApplyOneMore(d, Updates(hist), e.w);
  }

  lemma StepKeepsHistory(s: State, step: Step, d: Image, l: Layout)
    requires Inv(s) && Enabled(s, step) && HistoryOk(s, d, l)
    ensures HistoryOk(Next(s, step), d, l)
  {
    match step
    case LogWrite(u) => LogWriteKeepsHistory(s, u, d, l);
    case Flush(u) => FlushKeepsHistory(s, u, d, l);
    case _ => OtherKeepsHistory(s, Next(s, step), d, l);
  }

  lemma OtherKeepsHistory(s: State, s': State, d: Image, l: Layout)
    requires HistoryOk(s, d, l) && s'.l == s.l && s'.disk == s.disk && s'.view == s.view && s'.durable == s.durable
    requires s'.hist == s.hist && s'.kept == s.kept && s.begun <= s'.begun && s'.ops <= s.ops + {s.begun}
    ensures HistoryOk(s', d, l) == true
  {
  }

  lemma LogWriteKeepsHistory(s: State, u: nat, d: Image, l: Layout)
    requires WhosOk(s) && CanUpdate(s, u) && HistoryOk(s, d, l)
    ensures HistoryOk(WasLogged(s, u), d, l) == true
  {
    var s' := WasLogged(s, u);
    assert WhoOk(s, s.uses[u]);
    if Reservation.Fits(|s.lh|, s.l.size) {
      OneMoreUpdate(d, s.hist, s'.hist[|s.hist|]);
      assert s'.hist[..s.kept] == s.hist[..s.kept];
    }
  }

  lemma FlushKeepsHistory(s: State, u: nat, d: Image, l: Layout)
    requires CanFlush(s, u) && s.ops == {} && HistoryOk(s, d, l)
    ensures HistoryOk(Flushed(s, u), d, l) == true
  {
    assert s.hist[..|s.hist|] == s.hist;
  }

  lemma {:induction false} HistoryHolds(d: Image, l: Layout, schedule: seq<Step>)
    requires Booted(d, l)
    ensures HistoryOk(After(d, l, schedule), d, l)
  {
    if schedule != [] {
      var last := |schedule| - 1;
      InvHolds(d, l, schedule[..last]);
      HistoryHolds(d, l, schedule[..last]);
      if Enabled(After(d, l, schedule[..last]), schedule[last]) {
        StepKeepsHistory(After(d, l, schedule[..last]), schedule[last], d, l);
      }
    }
  }

  /** However a crash, at any step, and any number of crashed recoveries after it cut into a run, the file-system
      blocks hold what the durable updates make of them. */
  lemma CrashLeavesDurable(d: Image, l: Layout, schedule: seq<Step>, crashes: seq<nat>)
    requires Booted(d, l)
    ensures var s := After(d, l, schedule);
      var r := RecoverThroughCrashes(s.disk, l, crashes);
      && s.kept <= |s.hist| && |r| == |d|
      && SameHomes(Apply(d, Updates(s.hist[..s.kept])), l, r) && Clean(r, l)
  {
    var s := After(d, l, schedule);
    InvHolds(d, l, schedule);
    HistoryHolds(d, l, schedule);
    if s.commit.None? {
      assert Head(s.disk, l) == [] && HomesOk(|s.disk|, l, []);
      RecoveryIsIdempotent(s.disk, l, crashes);
      assert TransactionOk(s.disk, l, []) && Holds(s.disk, l, []);
      RecoverApplies(s.disk, l, [], Recover(s.disk, l));
    } else {
      CommitCrash(s, crashes);
    }
  }

  lemma CommitCrash(s: State, crashes: seq<nat>)
    requires s.commit.Some? && BusyOk(s, s.commit.value)
    ensures var r := RecoverThroughCrashes(s.disk, s.l, crashes); SameHomes(s.durable, s.l, r) && Clean(r, s.l)
  {
    var r := RecoverThroughCrashes(s.disk, s.l, crashes);
    var k := s.commit.value;
    DiskAtIs(s.base, s.l, s.tx, k);
    CrashAtomicity(s.base, s.l, s.tx, k, crashes);
    if k > |s.tx| {
      AppliedOnce(s.base, s.l, s.tx, s.view, r);
    }
  }

  /** Group commit is atomic for each operation: of its updates all are durable or none is, and none is before the
      operation has ended. */
  lemma OperationsAreAtomic(d: Image, l: Layout, schedule: seq<Step>, op: nat)
    requires Booted(d, l)
    ensures var s := After(d, l, schedule);
      && s.kept <= |s.hist|
      && ((forall j :: 0 <= j < |s.hist| && s.hist[j].op == op ==> j < s.kept) ||
          (forall j :: 0 <= j < |s.hist| && s.hist[j].op == op ==> s.kept <= j))
      && (op in s.ops ==> forall j :: 0 <= j < s.kept ==> s.hist[j].op != op)
  {
    HistoryHolds(d, l, schedule);
  }

  // ---- what end_op promises

  /** Everything logged is durable, or still in the log in memory, or in the hands of commit. */
  ghost predicate NothingForgotten(s: State) {
    && s.kept <= |s.hist|
    && match s.commit
       case None => (s.lh == [] ==> s.kept == |s.hist|) && (s.ops == {} ==> s.lh == [])
       case Some(k) => s.ops == {} && (k > |s.tx| || s.tx == [] ==> s.kept == |s.hist|)
  }

  lemma StepForgetsNothing(s: State, step: Step)
    requires LogOk(s) && Enabled(s, step) && NothingForgotten(s)
    ensures NothingForgotten(Next(s, step))
  {
    match step
    case LogWrite(u) => LogWriteForgetsNothing(s, u);
    case Flush(u) => FlushForgetsNothing(s, u);
    case End(op) => assert |TxOf(s.b, s.lh, s.slot)| == |s.lh|;
    case Finish => assert PinsLeft(s.b, s.lh, s.slot, s.tx, s.commit.value);
    case _ =>
  }

  lemma FlushForgetsNothing(s: State, u: nat)
    requires CanFlush(s, u) && NothingForgotten(s)
    ensures NothingForgotten(Flushed(s, u)) == true
  {
  }

  lemma LogWriteForgetsNothing(s: State, u: nat)
    requires WhosOk(s) && CanUpdate(s, u) && NothingForgotten(s)
    ensures NothingForgotten(WasLogged(s, u)) == true
  {
    assert WhoOk(s, s.uses[u]);
    assert s.uses[u].blockno in Reservation.Absorb(s.lh, s.uses[u].blockno);
  }

  lemma {:induction false} NothingIsForgotten(d: Image, l: Layout, schedule: seq<Step>)
    requires Booted(d, l)
    ensures NothingForgotten(After(d, l, schedule))
  {
    if schedule != [] {
      var last := |schedule| - 1;
      InvHolds(d, l, schedule[..last]);
      NothingIsForgotten(d, l, schedule[..last]);
      if Enabled(After(d, l, schedule[..last]), schedule[last]) {
        StepForgetsNothing(After(d, l, schedule[..last]), schedule[last]);
      }
    }
  }

  /** Once the last operation has ended and its commit is over, the log in memory is empty and every update is durable:
      a crash then, with any number of crashed recoveries, leaves all that has been logged since the boot. */
  lemma EndedIsDurable(d: Image, l: Layout, schedule: seq<Step>, crashes: seq<nat>)
    requires Booted(d, l)
    requires var s := After(d, l, schedule); s.commit.None? && s.ops == {}
    ensures var s := After(d, l, schedule);
      var r := RecoverThroughCrashes(s.disk, l, crashes);
      && s.lh == [] && s.kept == |s.hist| && |r| == |d|
      && SameHomes(Apply(d, Updates(s.hist)), l, s.disk) && SameHomes(Apply(d, Updates(s.hist)), l, r)
  {
    var s := After(d, l, schedule);
    NothingIsForgotten(d, l, schedule);
    InvHolds(d, l, schedule);
    HistoryHolds(d, l, schedule);
    CrashLeavesDurable(d, l, schedule, crashes);
    assert s.hist[..s.kept] == s.hist;
  }

  // ---- one boot after the other

  /** A run, and the crashed recoveries after the crash that ends it. */
  datatype Life = Life(schedule: seq<Step>, crashes: seq<nat>)

  function DiskAfter(d: Image, l: Layout, lives: seq<Life>): Image {
    if lives == [] then d
    else
      var c, life := DiskAfter(d, l, lives[..|lives| - 1]), lives[|lives| - 1];
      RecoverThroughCrashes(After(c, l, life.schedule).disk, l, life.crashes)
  }

  /** The durable updates of all the lives, in order. */
  function AllDurable(d: Image, l: Layout, lives: seq<Life>): seq<Write> {
    if lives == [] then []
    else
      var c, life := DiskAfter(d, l, lives[..|lives| - 1]), lives[|lives| - 1];
      var s := After(c, l, life.schedule);
      AllDurable(d, l, lives[..|lives| - 1]) + Updates(if s.kept <= |s.hist| then s.hist[..s.kept] else s.hist)
  }

  lemma {:induction false} ApplySameHomes(c: Image, d: Image, l: Layout, ws: seq<Write>)
    requires SameHomes(c, l, d)
    ensures SameHomes(Apply(c, ws), l, Apply(d, ws))
    decreases |ws|
  {
    if ws != [] {
      ApplySameHomes(c, d, l, ws[..|ws| - 1]);
    }
  }

  /** Through any number of boots and crashes, the disk holds all the durable updates and no others. */
  lemma {:induction false} LivesAreSerial(d: Image, l: Layout, lives: seq<Life>)
    requires Booted(d, l)
    ensures Booted(DiskAfter(d, l, lives), l)
    ensures SameHomes(Apply(d, AllDurable(d, l, lives)), l, DiskAfter(d, l, lives))
    decreases |lives|
  {
    if lives != [] {
      var before, life := lives[..|lives| - 1], lives[|lives| - 1];
      var c := DiskAfter(d, l, before);
      LivesAreSerial(d, l, before);
      CrashLeavesDurable(c, l, life.schedule, life.crashes);
      var s := After(c, l, life.schedule);
      var ws := Updates(s.hist[..s.kept]);
      ApplyConcat(d, AllDurable(d, l, before), ws);
      ApplySameHomes(Apply(d, AllDurable(d, l, before)), c, l, ws);
    }
  }

  // ---- a run in which bget panics

  const PINS: nat := 27             // three operations of MAXOPBLOCKS - 1 blocks each

  /** The blocks that the run uses, behind the log. */
  function Far(l: Layout, k: nat): nat {
    l.start + l.size + k
  }

  lemma AfterMore(d: Image, l: Layout, schedule: seq<Step>, step: Step)
    requires Enabled(After(d, l, schedule), step)
    ensures After(d, l, schedule + [step]) == Next(After(d, l, schedule), step)
  {
    assert (schedule + [step])[..|schedule|] == schedule;
  }

  /** Three operations run, and k blocks have been logged, in as many buffers; the others have never been used. */
  ghost predicate Piled(s: State, d: Image, l: Layout, k: nat) {
    && s.l == l && s.disk == d && |s.b| == NBUF + 1 && !s.panicked && s.commit.None? && s.ops == {0, 1, 2}
    && |s.lh| == |s.slot| == |s.hist| == k <= PINS
    && (forall j :: 0 <= j < k ==> s.hist[j].op == j / (MAXOPBLOCKS - 1))
    && (forall j :: 0 <= j < k ==> s.lh[j] == Far(l, j))
    && (forall j :: 0 <= j < k ==> s.b[j].Keyed(ROOTDEV, Far(l, j)) && s.b[j].dirty)
    && (forall j :: k <= j < NBUF - |s.uses| ==> s.b[j].dev == 0 && !s.b[j].Busy() && !s.b[j].locked)
  }

  /** bget, acquiresleep and iderw for block k, on buffer k, by an operation. */
  lemma PileRead(s: State, d: Image, l: Layout, k: nat) returns (t: State)
    requires Piled(s, d, l, k) && s.uses == map[] && k < PINS && Far(l, NBUF) < |d|
    ensures var use := Use(k, Far(l, k), Op(k / (MAXOPBLOCKS - 1)), true, false);
      && CanGet(s, 0, Far(l, k), k, use.who) && CanLock(Got(s, 0, Far(l, k), k, use.who), 0)
      && CanRead(Locked(Got(s, 0, Far(l, k), k, use.who), 0), 0)
      && t == WasRead(Locked(Got(s, 0, Far(l, k), k, use.who), 0), 0)
      && t.uses == map[0 := use] && Holding(t, 0)
      && t == s.(b := s.b[k := t.b[k]], uses := t.uses)
      && t.b[k].Keyed(ROOTDEV, Far(l, k)) && t.b[k].locked && t.b[k].refcnt == 1
  {
    var who := Op(k / (MAXOPBLOCKS - 1));
    assert !NoBuffer(s.b, Far(l, k)) by { assert !s.b[k].Busy(); }
    t := WasRead(Locked(Got(s, 0, Far(l, k), k, who), 0), 0);
  }

  /** log_write and brelse of that buffer. */
  lemma PileWrite(s: State, t: State, d: Image, l: Layout, k: nat) returns (r: State)
    requires Piled(s, d, l, k) && s.uses == map[] && k < PINS && PINS < l.size && Far(l, NBUF) < |d|
    requires t.uses == map[0 := Use(k, Far(l, k), Op(k / (MAXOPBLOCKS - 1)), true, false)] && Holding(t, 0)
    requires t == s.(b := s.b[k := t.b[k]], uses := t.uses)
    requires t.b[k].Keyed(ROOTDEV, Far(l, k)) && t.b[k].locked && t.b[k].refcnt == 1
    ensures CanUpdate(t, 0) && !t.panicked && CanRelease(WasLogged(t, 0), 0) && !WasLogged(t, 0).panicked
    ensures r == Released(WasLogged(t, 0), 0) && Piled(r, d, l, k + 1) && r.uses == map[]
  {
    r := Released(WasLogged(t, 0), 0);
    assert Far(l, k) !in t.lh;
    assert r.uses == map[];
  }

  /** One more block is logged and pinned. */
  lemma PileMore(d: Image, l: Layout, schedule: seq<Step>, k: nat) returns (longer: seq<Step>)
    requires Piled(After(d, l, schedule), d, l, k) && After(d, l, schedule).uses == map[]
    requires k < PINS < l.size && Far(l, NBUF) < |d|
    ensures Piled(After(d, l, longer), d, l, k + 1) && After(d, l, longer).uses == map[]
  {
    var s := After(d, l, schedule);
    var t := PileRead(s, d, l, k);
    var r := PileWrite(s, t, d, l, k);
    var get := Get(0, Far(l, k), k, Op(k / (MAXOPBLOCKS - 1)));
    AfterMore(d, l, schedule, get);
    longer := schedule + [get];
    AfterMore(d, l, longer, Lock(0));
    longer := longer + [Lock(0)];
    AfterMore(d, l, longer, Read(0));
    longer := longer + [Read(0)];
    AfterMore(d, l, longer, LogWrite(0));
    longer := longer + [LogWrite(0)];
    AfterMore(d, l, longer, Release(0));
    longer := longer + [Release(0)];
  }

  lemma BeginMore(d: Image, l: Layout, schedule: seq<Step>, n: nat) returns (longer: seq<Step>)
    requires After(d, l, schedule) == Boot(d, l).(ops := Range(n), begun := n) && |Range(n)| == n < 3
    ensures After(d, l, longer) == Boot(d, l).(ops := Range(n + 1), begun := n + 1) && |Range(n + 1)| == n + 1
  {
    AfterMore(d, l, schedule, Begin);
    longer := schedule + [Begin];
    assert Range(n + 1) == Range(n) + {n};
  }

  lemma PileStart(d: Image, l: Layout) returns (schedule: seq<Step>)
    ensures Piled(After(d, l, schedule), d, l, 0) && After(d, l, schedule).uses == map[]
  {
    schedule := BeginMore(d, l, [], 0);
    schedule := BeginMore(d, l, schedule, 1);
    schedule := BeginMore(d, l, schedule, 2);
    StartIsPiled(After(d, l, schedule), d, l);
  }

  lemma StartIsPiled(s: State, d: Image, l: Layout)
    requires s == Boot(d, l).(ops := Range(3), begun := 3)
    ensures Piled(s, d, l, 0) && s.uses == map[]
  {
    assert Range(3) == {0, 1, 2};
  }

  lemma {:induction false} PileUp(d: Image, l: Layout, k: nat) returns (schedule: seq<Step>)
    requires k <= PINS < l.size && Far(l, NBUF) < |d|
    ensures Piled(After(d, l, schedule), d, l, k) && After(d, l, schedule).uses == map[]
  {
    if k == 0 {
      schedule := PileStart(d, l);
    } else {
      schedule := PileUp(d, l, k - 1);
      schedule := PileMore(d, l, schedule, k - 1);
    }
  }

  /** Besides, r readers each hold a buffer, the last ones of the cache. */
  ghost predicate Crowded(s: State, d: Image, l: Layout, r: nat) {
    && Piled(s, d, l, PINS) && r <= NBUF - PINS && |s.uses| == r
    && (forall u: nat :: u in s.uses <==> u < r)
    && (forall u :: 0 <= u < r ==> s.uses[u].who == Reader)
    && (forall j :: NBUF - r <= j < NBUF ==> s.b[j].dev == ROOTDEV && s.b[j].refcnt > 0 && s.b[j].blockno == Far(l, j))
  }

  lemma CanCrowd(s: State, d: Image, l: Layout, r: nat)
    requires Crowded(s, d, l, r) && r < NBUF - PINS && Far(l, NBUF) < |d|
    ensures var i := NBUF - r - 1; CanGet(s, r, Far(l, i), i, Reader) && Crowded(Got(s, r, Far(l, i), i, Reader), d, l, r + 1) == true
  {
    var i := NBUF - r - 1;
    assert !NoBuffer(s.b, Far(l, i)) by { assert !s.b[i].Busy(); }
    Crowding(s, d, l, r);
  }

  lemma Crowding(s: State, d: Image, l: Layout, r: nat)
    requires Crowded(s, d, l, r) && r < NBUF - PINS && !NoBuffer(s.b, Far(l, NBUF - r - 1))
    ensures Crowded(Got(s, r, Far(l, NBUF - r - 1), NBUF - r - 1, Reader), d, l, r + 1) == true
  {
    var i := NBUF - r - 1;
    var t := Got(s, r, Far(l, i), i, Reader);
    OneMoreUse(s.uses, r, Use(i, Far(l, i), Reader, false, false));
    StillPiled(s, d, l, r, t);
  }

  lemma OneMoreUse(uses: map<nat, Use>, r: nat, use: Use)
    requires |uses| == r && r !in uses
    ensures |uses[r := use]| == r + 1
  {
    assert uses[r := use].Keys == uses.Keys + {r};
  }

  lemma StillPiled(s: State, d: Image, l: Layout, r: nat, t: State)
    requires Piled(s, d, l, PINS) && |s.uses| == r < NBUF - PINS && |t.uses| == r + 1
    requires |t.b| == NBUF + 1 && t == s.(b := s.b[NBUF - r - 1 := t.b[NBUF - r - 1]], uses := t.uses)
    ensures Piled(t, d, l, PINS) == true
  {
  }

  lemma CrowdMore(d: Image, l: Layout, schedule: seq<Step>, r: nat) returns (longer: seq<Step>)
    requires Crowded(After(d, l, schedule), d, l, r) && r < NBUF - PINS && Far(l, NBUF) < |d|
    ensures Crowded(After(d, l, longer), d, l, r + 1) == true
  {
    var s, i := After(d, l, schedule), NBUF - r - 1;
    CanCrowd(s, d, l, r);
    var get := Get(r, Far(l, i), i, Reader);
    AfterMore(d, l, schedule, get);
    longer := schedule + [get];
  }

  lemma {:induction false} Crowd(d: Image, l: Layout, r: nat) returns (schedule: seq<Step>)
    requires r <= NBUF - PINS && PINS < l.size && Far(l, NBUF) < |d|
    ensures Crowded(After(d, l, schedule), d, l, r)
  {
    if r == 0 {
      schedule := PileUp(d, l, PINS);
      assert After(d, l, schedule).uses == map[];
    } else {
      schedule := Crowd(d, l, r - 1);
      schedule := CrowdMore(d, l, schedule, r - 1);
    }
  }

  /** Three operations that each log fewer than MAXOPBLOCKS blocks, and three readers with a buffer each, are enough:
      the next process to read a block that is not cached panics. */
  lemma BgetCanPanic(d: Image, l: Layout)
    requires Booted(d, l) && PINS < l.size && Far(l, NBUF) < |d|
    ensures exists schedule, get: Step ::
      var s := After(d, l, schedule);
      && !s.panicked && get.Get? && get.who == Reader && Enabled(s, get) && Next(s, get).panicked
      && s.ops == {0, 1, 2} && |s.lh| == |s.hist| == 3 * (MAXOPBLOCKS - 1)
      && (forall j :: 0 <= j < |s.hist| ==> s.hist[j].op == j / (MAXOPBLOCKS - 1))
      && |s.uses| == 3 && forall u :: u in s.uses ==> s.uses[u].who == Reader
  {
    var schedule := Crowd(d, l, NBUF - PINS);
    var s, get := After(d, l, schedule), Get(NBUF, Far(l, NBUF), 0, Reader);
    assert NoBuffer(s.b, Far(l, NBUF));
    assert Enabled(s, get) && Next(s, get).panicked;
  }
}
