/** The on-disk redo log of log.c as block-write sequences, and what a crash between any two of
    those writes leaves behind. */
module CrashRecovery {
  import opened Sequences
  import opened Disk

  const MAXOPBLOCKS: nat := 10
  const LOGSIZE: nat := 30         // MAXOPBLOCKS * 3

  /** The log area of the superblock: a header block followed by size - 1 log blocks. */
  datatype Layout = Layout(start: nat, size: nat) {
    predicate InLog(b: nat) { start <= b < start + size }
    function Slot(t: nat): nat { start + t + 1 }    // the log block of entry t
  }

  /** A transaction is the list of home-block writes it stands for. */
  type Transaction = seq<Write>

  /** Home blocks are distinct, on the disk and outside the log, and there are few enough of them. */
  ghost predicate HomesOk(disk: nat, l: Layout, homes: seq<nat>) {
    && |homes| <= LOGSIZE && |homes| < l.size
    && l.start + l.size <= disk
    && NoDuplicates(homes)
    && forall t :: 0 <= t < |homes| ==> homes[t] < disk && !l.InLog(homes[t])
  }

  function Homes(tx: Transaction): (homes: seq<nat>)
    ensures |homes| == |tx|
  {
    seq(|tx|, t requires 0 <= t < |tx| => tx[t].at)
  }

  // ---- the header block

  /** The header block that write_head leaves: n, then block[0..n); later words keep their old value. */
  function EncodeHead(was: Block, homes: seq<nat>): (r: Block)
    ensures |homes| < WORDS ==> DecodeHead(r) == homes
  {
    if |homes| >= WORDS then was else
      var r: Block := [|homes|] + homes + was[1 + |homes|..];
      assert r[1..1 + |homes|] == homes;
      r
  }

  /** The block numbers that read_head takes from the header block; an n that cannot fit gives too many. */
  function DecodeHead(b: Block): seq<nat> {
    if b[0] < WORDS then b[1..1 + b[0]] else b[1..]
  }

  function At(d: Image, b: nat): Block {
    if b < |d| then d[b] else seq(WORDS, _ => 0)
  }

  function Head(d: Image, l: Layout): seq<nat> {
    DecodeHead(At(d, l.start))
  }

  // ---- the write sequences of commit and recovery

  /** write_log: the new contents, one log block each. */
  function LogWrites(l: Layout, tx: Transaction): (ws: seq<Write>)
    ensures |ws| == |tx|
  {
    seq(|tx|, t requires 0 <= t < |tx| => Write(l.Slot(t), tx[t].data))
  }

  /** install_trans: the home-block writes that the log area of d stands for. */
  function Logged(d: Image, l: Layout, homes: seq<nat>): (tx: Transaction)
    ensures |tx| == |homes|
  {
    seq(|homes|, t requires 0 <= t < |homes| => Write(homes[t], At(d, l.Slot(t))))
  }

  function HeadWrite(d: Image, l: Layout, homes: seq<nat>): Write {
    Write(l.start, EncodeHead(At(d, l.start), homes))
  }

  /** The writes of commit up to and including the header. */
  function CommitFront(d: Image, l: Layout, tx: Transaction): (ws: seq<Write>)
    ensures |ws| == |tx| + 1
  {
    LogWrites(l, tx) + [HeadWrite(d, l, Homes(tx))]
  }

  /** log.c commit(): log blocks, header, home blocks, cleared header. */
  function CommitWrites(d: Image, l: Layout, tx: Transaction): (ws: seq<Write>)
    ensures tx != [] ==> |ws| == 2 * |tx| + 2
  {
    if tx == [] then [] else
      CommitFront(d, l, tx) + tx + [Write(l.start, EncodeHead(EncodeHead(At(d, l.start), Homes(tx)), []))]
  }

  /** log.c recover_from_log(): home blocks from the log, then a cleared header. */
  function RecoverWrites(d: Image, l: Layout): seq<Write> {
    Logged(d, l, Head(d, l)) + [HeadWrite(d, l, [])]
  }

  function Recover(d: Image, l: Layout): (r: Image)
    ensures |r| == |d|
  {
    Apply(d, RecoverWrites(d, l))
  }

  // ---- what they are meant to achieve

  ghost predicate TransactionOk(d: Image, l: Layout, tx: Transaction) {
    HomesOk(|d|, l, Homes(tx))
  }

  /** r holds exactly the file-system blocks of d with tx applied; the log area is not looked at. */
  ghost predicate HasApplied(d: Image, l: Layout, tx: Transaction, r: Image) {
    && |r| == |d|
    && (forall t :: 0 <= t < |tx| ==> At(r, tx[t].at) == tx[t].data)
    && (forall b :: 0 <= b < |d| && !l.InLog(b) && Misses(tx, b) ==> r[b] == d[b])
  }

  /** The log of d names tx and holds its data: the state between the two header writes of commit. */
  ghost predicate Holds(d: Image, l: Layout, tx: Transaction) {
    Head(d, l) == Homes(tx) && Logged(d, l, Homes(tx)) == tx
  }

  /** No transaction waits in the log of d. */
  ghost predicate Clean(d: Image, l: Layout) {
    Head(d, l) == []
  }

  // ---- the phases of commit

  /** Copying blocks into the log touches neither the header nor any home block. */
  lemma {:induction false} LogPhase(d: Image, l: Layout, tx: Transaction, k: nat, c: Image)
    requires TransactionOk(d, l, tx) && k <= |tx|
    requires c == Apply(d, LogWrites(l, tx)[..k])
    ensures HasApplied(d, l, [], c) && c[l.start] == d[l.start]
    ensures forall t :: 0 <= t < k ==> c[l.Slot(t)] == tx[t].data
  {
    var ws := LogWrites(l, tx)[..k];
    forall b | 0 <= b < |d| && (!l.InLog(b) || b == l.start) ensures c[b] == d[b] {
      ApplyMisses(d, ws, b);
    }
    forall t | 0 <= t < k ensures c[l.Slot(t)] == tx[t].data {
      ApplyHits(d, ws, t);
    }
  }

  /** Once the header is written the log holds the whole transaction, and no home block has moved. */
  lemma {:induction false} HeadPhase(d: Image, l: Layout, tx: Transaction, c: Image)
    requires TransactionOk(d, l, tx)
    requires c == Apply(d, CommitFront(d, l, tx))
    ensures HasApplied(d, l, [], c) && Holds(c, l, tx)
    ensures c[l.start] == EncodeHead(d[l.start], Homes(tx))
  {
    var ws := LogWrites(l, tx);
    LogPhase(d, l, tx, |tx|, Apply(d, ws)) by { assert ws[..|tx|] == ws; }
    ApplyOneMore(d, ws, HeadWrite(d, l, Homes(tx)));
    assert l.InLog(l.start);
    assert forall t :: 0 <= t < |tx| ==> At(c, l.Slot(t)) == tx[t].data;
  }

  /** Installing keeps the log intact, so it can be replayed from any point. */
  lemma {:induction false} InstallPhase(d: Image, l: Layout, tx: Transaction, k: nat, c: Image)
    requires TransactionOk(d, l, tx) && k <= |tx|
    requires c == Apply(d, tx[..k])
    ensures HasApplied(d, l, tx[..k], c)
    ensures Holds(d, l, tx) ==> Holds(c, l, tx)
  {
    var ws := tx[..k];
    DistinctHomes(tx);
    forall b | 0 <= b < |d| && Misses(ws, b) ensures c[b] == d[b] {
      ApplyMisses(d, ws, b);
    }
    forall t | 0 <= t < k ensures At(c, ws[t].at) == ws[t].data {
      assert Homes(tx)[t] == ws[t].at;
      ApplyHits(d, ws, t);
    }
    forall b: nat | l.InLog(b) ensures c[b] == d[b] {
      assert forall t :: 0 <= t < k ==> Homes(tx)[t] == ws[t].at;
      ApplyMisses(d, ws, b);
    }
    assert forall t :: 0 <= t < |tx| ==> l.InLog(l.Slot(t));
    assert l.InLog(l.start);
  }

  lemma DistinctHomes(tx: Transaction)
    requires NoDuplicates(Homes(tx))
    ensures DistinctTargets(tx)
  {
    assert forall t :: 0 <= t < |tx| ==> Homes(tx)[t] == tx[t].at;
  }

  /** The header block is no file-system block. */
  lemma HeaderIsOutside(d: Image, l: Layout, tx: Transaction, c: Image, head: Block)
    requires TransactionOk(d, l, tx) && HasApplied(d, l, tx, c)
    ensures HasApplied(d, l, tx, Store(c, Write(l.start, head)))
  {
    assert l.InLog(l.start);
    assert forall t :: 0 <= t < |tx| ==> Homes(tx)[t] == tx[t].at;
  }

  // ---- recovery

  lemma {:induction false} RecoverApplies(d: Image, l: Layout, tx: Transaction, r: Image)
    requires TransactionOk(d, l, tx) && Holds(d, l, tx)
    requires r == Recover(d, l)
    ensures HasApplied(d, l, tx, r) && Clean(r, l)
  {
    InstallPhase(d, l, tx, |tx|, Apply(d, tx)) by { assert tx[..|tx|] == tx; }
    assert tx[..|tx|] == tx;
    ApplyOneMore(d, tx, HeadWrite(d, l, []));
    HeaderIsOutside(d, l, tx, Apply(d, tx), HeadWrite(d, l, []).data);
  }

  /** Applying a transaction over a disk on which part of it is already applied is applying it once. */
  lemma ApplyTwice(d: Image, l: Layout, tx: Transaction, k: nat, c: Image, r: Image)
    requires k <= |tx| && HasApplied(d, l, tx[..k], c) && HasApplied(c, l, tx, r)
    ensures HasApplied(d, l, tx, r)
  {
    forall b | 0 <= b < |d| && !l.InLog(b) && Misses(tx, b) ensures r[b] == d[b] {
      assert Misses(tx[..k], b);
    }
  }

  /** Both outcomes of applying tx to d agree on every file-system block. */
  ghost predicate SameHomes(d: Image, l: Layout, r: Image) {
    HasApplied(d, l, [], r)
  }

  lemma AppliedOnce(d: Image, l: Layout, tx: Transaction, r: Image, s: Image)
    requires HasApplied(d, l, tx, r) && HasApplied(d, l, tx, s)
    ensures SameHomes(r, l, s)
  {
    forall b | 0 <= b < |d| && !l.InLog(b) ensures r[b] == s[b] {
      if t :| 0 <= t < |tx| && tx[t].at == b {
        assert At(r, b) == At(s, b);
      }
    }
  }

  lemma AppliedThenSame(d: Image, l: Layout, tx: Transaction, r: Image, s: Image)
    requires TransactionOk(d, l, tx) && HasApplied(d, l, tx, r) && SameHomes(r, l, s)
    ensures HasApplied(d, l, tx, s)
  {
    assert forall t :: 0 <= t < |tx| ==> Homes(tx)[t] == tx[t].at;
  }

  /** Recovery stopped after any number of its writes and started again ends in the same place. */
  lemma {:induction false} RecoverRestarts(d: Image, l: Layout, k: nat, c: Image)
    requires HomesOk(|d|, l, Head(d, l)) && k <= |RecoverWrites(d, l)|
    requires c == Apply(d, RecoverWrites(d, l)[..k])
    ensures HomesOk(|c|, l, Head(c, l))
    ensures SameHomes(Recover(d, l), l, Recover(c, l))
  {
    var tx := Logged(d, l, Head(d, l));
    assert Homes(tx) == Head(d, l);
    RecoverApplies(d, l, tx, Recover(d, l));
    if k <= |tx| {
      assert RecoverWrites(d, l)[..k] == tx[..k];
      InstallPhase(d, l, tx, k, c);
      RecoverApplies(c, l, tx, Recover(c, l));
      ApplyTwice(d, l, tx, k, c, Recover(c, l));
      AppliedOnce(d, l, tx, Recover(d, l), Recover(c, l));
    } else {
      assert RecoverWrites(d, l)[..k] == RecoverWrites(d, l);
      RecoverApplies(c, l, [], Recover(c, l));
    }
  }

  /** Boot after boot: each attempt crashes after the given number of writes, the last one finishes. */
  function RecoverThroughCrashes(d: Image, l: Layout, crashes: seq<nat>): (r: Image)
    ensures |r| == |d|
    decreases |crashes|
  {
    if crashes == [] || crashes[0] > |RecoverWrites(d, l)| then Recover(d, l) else
      RecoverThroughCrashes(Apply(d, RecoverWrites(d, l)[..crashes[0]]), l, crashes[1..])
  }

  lemma {:induction false} RecoveryIsIdempotent(d: Image, l: Layout, crashes: seq<nat>)
    requires HomesOk(|d|, l, Head(d, l))
    ensures var r := RecoverThroughCrashes(d, l, crashes);
      SameHomes(Recover(d, l), l, r) && Clean(r, l)
    decreases |crashes|
  {
    if crashes == [] || crashes[0] > |RecoverWrites(d, l)| {
      var tx := Logged(d, l, Head(d, l));
      assert Homes(tx) == Head(d, l);
      RecoverApplies(d, l, tx, Recover(d, l));
    } else {
      var c := Apply(d, RecoverWrites(d, l)[..crashes[0]]);
      RecoverRestarts(d, l, crashes[0], c);
      RecoveryIsIdempotent(c, l, crashes[1..]);
    }
  }

  // ---- crash atomicity

  /** Commit stopped before its header write: the log is still empty and every home block old. */
  lemma {:induction false} BeforeHeader(d: Image, l: Layout, tx: Transaction, k: nat, c: Image)
    requires TransactionOk(d, l, tx) && Clean(d, l) && k <= |tx|
    requires c == Apply(d, CommitWrites(d, l, tx)[..k])
    ensures Clean(c, l) && SameHomes(d, l, c)
  {
    assert CommitWrites(d, l, tx)[..k] == LogWrites(l, tx)[..k];
    LogPhase(d, l, tx, k, c);
  }

  /** Commit stopped between its header writes: the log can rebuild every home block. */
  lemma {:induction false} AfterHeader(d: Image, l: Layout, tx: Transaction, j: nat, c: Image)
    requires TransactionOk(d, l, tx) && tx != [] && j <= |tx|
    requires c == Apply(d, CommitWrites(d, l, tx)[..|tx| + 1 + j])
    ensures Holds(c, l, tx) && HasApplied(d, l, tx[..j], c)
  {
    var front := CommitFront(d, l, tx);
    var e := Apply(d, front);
    assert c == Apply(e, tx[..j]) by {
      assert CommitWrites(d, l, tx)[..|tx| + 1 + j] == front + tx[..j];
      ApplyConcat(d, front, tx[..j]);
    }
    HeadPhase(d, l, tx, e);
    InstallPhase(e, l, tx, j, c);
    assert forall b :: 0 <= b < |d| && !l.InLog(b) ==> e[b] == d[b];
  }

  /** Commit run to its end: every home block is new and the log is empty again. */
  lemma {:induction false} CommitFinishes(d: Image, l: Layout, tx: Transaction, c: Image)
    requires TransactionOk(d, l, tx) && Clean(d, l)
    requires c == Apply(d, CommitWrites(d, l, tx))
    ensures Clean(c, l) && HasApplied(d, l, tx, c)
  {
    if tx != [] {
      var ws := CommitWrites(d, l, tx);
      var last := |ws| - 1;
      var e := Apply(d, ws[..last]);
      AfterHeader(d, l, tx, |tx|, e);
      assert tx[..|tx|] == tx;
      assert c == Store(e, ws[last]);
      HeaderIsOutside(d, l, tx, e, ws[last].data);
    }
  }

  /** One recovery, run to its end, after a crash at any point of commit. */
  lemma {:induction false} RecoverAfterCrash(d: Image, l: Layout, tx: Transaction, k: nat, c: Image)
    requires TransactionOk(d, l, tx) && Clean(d, l) && k <= |CommitWrites(d, l, tx)|
    requires c == Apply(d, CommitWrites(d, l, tx)[..k])
    ensures HomesOk(|c|, l, Head(c, l))
    ensures HasApplied(d, l, if |tx| < k then tx else [], Recover(c, l))
  {
    var r := Recover(c, l);
    if k <= |tx| {
      BeforeHeader(d, l, tx, k, c);
      RecoverApplies(c, l, [], r);
      AppliedThenSame(d, l, [], c, r);
    } else if k < |CommitWrites(d, l, tx)| {
      AfterHeader(d, l, tx, k - |tx| - 1, c);
      RecoverApplies(c, l, tx, r);
      ApplyTwice(d, l, tx, k - |tx| - 1, c, r);
    } else {
      assert CommitWrites(d, l, tx)[..k] == CommitWrites(d, l, tx);
      CommitFinishes(d, l, tx, c);
      RecoverApplies(c, l, [], r);
      AppliedThenSame(d, l, tx, c, r);
    }
  }

  /** Crash atomicity: stop commit after any k block writes, lose memory, and recover through any
      number of crashed recoveries; the file-system blocks are all old or all new, and all new
      exactly when the header write was among the k. */
  lemma {:induction false} CrashAtomicity(d: Image, l: Layout, tx: Transaction, k: nat, crashes: seq<nat>)
    requires TransactionOk(d, l, tx) && Clean(d, l) && k <= |CommitWrites(d, l, tx)|
    ensures var r := RecoverThroughCrashes(Apply(d, CommitWrites(d, l, tx)[..k]), l, crashes);
      HasApplied(d, l, if |tx| < k then tx else [], r) && Clean(r, l)
  {
    var c := Apply(d, CommitWrites(d, l, tx)[..k]);
    RecoverAfterCrash(d, l, tx, k, c);
    RecoveryIsIdempotent(c, l, crashes);
    AppliedThenSame(d, l, if |tx| < k then tx else [], Recover(c, l), RecoverThroughCrashes(c, l, crashes));
  }

  // ---- whole histories

  /** One commit in the life of the disk: it finishes, or the machine stops after k of its block
      writes and comes back through the given crashed recoveries. */
  datatype Event = Finishes(tx: Transaction) | Stops(tx: Transaction, k: nat, reboots: seq<nat>)

  function DiskAfter(d: Image, l: Layout, history: seq<Event>): (r: Image)
    ensures |r| == |d|
  {
    if history == [] then d else
      var c := DiskAfter(d, l, history[..|history| - 1]);
      match history[|history| - 1]
      case Finishes(tx) => Apply(c, CommitWrites(c, l, tx))
      case Stops(tx, k, reboots) =>
        var ws := CommitWrites(c, l, tx);
        RecoverThroughCrashes(Apply(c, if k < |ws| then ws[..k] else ws), l, reboots)
  }

  /** The home-block writes of the transactions that took effect: those whose header was written. */
  function Effective(history: seq<Event>): seq<Write> {
    if history == [] then [] else
      var e := history[|history| - 1];
      Effective(history[..|history| - 1]) + if e.Finishes? || |e.tx| < e.k then e.tx else []
  }

  ghost predicate HistoryOk(d: Image, l: Layout, history: seq<Event>) {
    forall i :: 0 <= i < |history| ==> TransactionOk(d, l, history[i].tx)
  }

  lemma {:induction false} OneEvent(c: Image, l: Layout, tx: Transaction, a: Image, r: Image)
    requires TransactionOk(c, l, tx) && SameHomes(a, l, c) && HasApplied(c, l, tx, r)
    ensures SameHomes(Apply(a, tx), l, r)
  {
    DistinctHomes(tx);
    forall b | 0 <= b < |a| && !l.InLog(b) ensures r[b] == Apply(a, tx)[b] {
      if t :| 0 <= t < |tx| && tx[t].at == b {
        ApplyHits(a, tx, t);
        assert At(r, b) == tx[t].data;
      } else {
        ApplyMisses(a, tx, b);
      }
    }
  }

  /** Over every history of commits, crashes and crashed recoveries, the file-system blocks are the
      initial ones with exactly the transactions whose header was written applied in order. */
  lemma {:induction false} HistoriesAreSerial(d: Image, l: Layout, history: seq<Event>)
    requires l.size > 0 && l.start + l.size <= |d| && Clean(d, l) && HistoryOk(d, l, history)
    ensures var r := DiskAfter(d, l, history);
      SameHomes(Apply(d, Effective(history)), l, r) && Clean(r, l)
    decreases |history|
  {
    if history != [] {
      var before, e := history[..|history| - 1], history[|history| - 1];
      HistoriesAreSerial(d, l, before);
      var c, a := DiskAfter(d, l, before), Apply(d, Effective(before));
      var ws := CommitWrites(c, l, e.tx);
      var took := if e.Finishes? || |e.tx| < e.k then e.tx else [];
      ApplyConcat(d, Effective(before), took);
      match e {
        case Finishes(tx) =>
          CommitFinishes(c, l, tx, Apply(c, ws));
        case Stops(tx, k, reboots) =>
          var n := if k < |ws| then k else |ws|;
          assert ws[..|ws|] == ws;
          CrashAtomicity(c, l, tx, n, reboots);
      }
      OneEvent(c, l, took, a, DiskAfter(d, l, history));
    }
  }
}
