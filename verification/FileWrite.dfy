/** filewrite of file.c: a long write becomes a series of transactions, each small enough for the log. */
module FileWrite {
  import opened BlockData
  import opened FsState
  import opened Fs = FileSystem
  import CrashRecovery
  import Reservation
  import opened Sequences

  /** ((MAXOPBLOCKS - 1 - 1 - 2) / 2) * 512 */
  const MAXCHUNK: nat := (CrashRecovery.MAXOPBLOCKS - 1 - 1 - 2) / 2 * 512

  lemma ChunkBlocks(off: nat, n: nat)
    requires n <= MAXCHUNK
    ensures off / BSIZE <= BlocksUpTo(off, n) <= off / BSIZE + 2
  {
  }

  /** One chunk logs at most two data blocks, three bitmap blocks, the indirect block and the inode block,
      which is below what an operation may log without ever reaching the panic of log_write. */
  lemma TransactionFits(sb: Superblock, d0: Image, n0: seq<Inode>, disk: Image, nodes: seq<Inode>,
                        i: nat, off: nat, src: seq<Byte>, newly: set<nat>)
    requires i < |n0| && off <= n0[i].size && |src| <= MAXCHUNK
    requires WriteEffect(sb, d0, n0, disk, nodes, i, off, src, newly)
    ensures |newly| <= 7 < CrashRecovery.MAXOPBLOCKS
    ensures !Reservation.CanPanic(|newly|)
  {
    var lo, hi := off / BSIZE, BlocksUpTo(off, |src|);
    ChunkBlocks(off, |src|);
    TouchedIsSmall(sb, disk, nodes[i], lo, hi);
    var t := Touched(sb, disk, nodes[i], lo, hi);
    SubsetSize(newly, t + {InodeBlock(sb, i)});
    Reservation.PanicNeedsFullBudget(|newly|);
  }

  lemma SpliceTwice(was: seq<Byte>, off: nat, a: seq<Byte>, b: seq<Byte>)
    requires off <= |was|
    ensures Spliced(Spliced(was, off, a), off + |a|, b) == Spliced(was, off, a + b)
  {
  }

  /** From (d0, n0) to (d1, n1), src reached inode i at off, and no other file changed. */
  ghost predicate Delivered(d0: Image, n0: seq<Inode>, d1: Image, n1: seq<Inode>, i: nat, off: nat, src: seq<Byte>) {
    && |n1| == |n0| && i < |n0| && off <= n0[i].size && off + |src| <= n1[i].size
    && Content(d1, n1[i]) == Spliced(Content(d0, n0[i]), off, src)
    && forall j :: 0 <= j < |n0| && j != i ==> Content(d1, n1[j]) == Content(d0, n0[j])
  }

  lemma DeliveredTwice(d0: Image, n0: seq<Inode>, d1: Image, n1: seq<Inode>, d2: Image, n2: seq<Inode>,
                       i: nat, off: nat, src: seq<Byte>, k: nat, n: nat)
    requires k + n <= |src|
    requires Delivered(d0, n0, d1, n1, i, off, src[..k]) == true
    requires Delivered(d1, n1, d2, n2, i, off + k, src[k..k + n]) == true
    ensures Delivered(d0, n0, d2, n2, i, off, src[..k + n]) == true
  {
    SpliceTwice(Content(d0, n0[i]), off, src[..k], src[k..k + n]);
    assert src[..k] + src[k..k + n] == src[..k + n];
    assert |Content(d2, n2[i])| == |Spliced(Content(d0, n0[i]), off, src[..k + n])|;
  }

  class File {
    const fs: FileSystem
    const ip: nat                    // the inode of the file
    var off: nat

    constructor (f: FileSystem, i: nat)
      ensures fs == f && ip == i && off == 0
    {
      fs := f;
      ip := i;
      off := 0;
    }

    ghost predicate Valid()
      reads this, fs
    {
      fs.Valid() && ip < |fs.inode| && fs.inode[ip].kind != 0 && off <= fs.inode[ip].size
    }

    /** filewrite on an inode. done bytes reach the file, in order and without a gap, and off moves past
        them; done is all of src exactly when the call returns its length, and else ends before the first chunk that
        would pass the largest size. ops holds what each of the
        transactions passed to log_write. */
    method Filewrite(src: seq<Byte>) returns (r: int, panicked: bool, ghost done: nat, ghost ops: seq<set<nat>>)
      requires Valid() && |src| < UINT
      modifies this, fs
      ensures panicked ==> fs.DiskFull()
      ensures !panicked ==> Valid() && done <= |src| && r == (if done == |src| then |src| else -1)
      ensures !panicked ==> (r == -1 <==> old(off) + |src| > MAXBYTES)
      ensures !panicked ==> off == old(off) + done
      ensures !panicked ==> StopsAt(old(off), |src|, done)
      ensures !panicked ==> Delivered(old(fs.disk), old(fs.inode), fs.disk, fs.inode, ip, old(off), src[..done]) == true
      ensures AllFit(ops) == true
    {
      ghost var d0, n0, at := fs.disk, fs.inode, off;
      NothingDelivered(src);
      var i;
      i, panicked, ops := WriteChunks(src, d0, n0, at);
      done := i;
      r := if i == |src| then |src| else -1;
    }

    /** Of n bytes from offset at on, all are written or else whole chunks as long as the next one fits. */
    static ghost predicate StopsAt(at: nat, n: nat, done: nat) {
      WholeChunks(done, n) && (done < n ==> at + done + (if n - done > MAXCHUNK then MAXCHUNK else n - done) > MAXBYTES)
    }

    /** Whole chunks of n bytes have been written, or all of them. */
    static ghost predicate WholeChunks(done: nat, n: nat) {
      done < n ==> done % MAXCHUNK == 0
    }

    static lemma OneMoreChunk(done: nat, n: nat, n1: nat)
      requires WholeChunks(done, n) && done < n && n1 == (if n - done > MAXCHUNK then MAXCHUNK else n - done)
      ensures WholeChunks(done + n1, n) == true
    {
    }

    /** The loop of filewrite: it ends at the end of src, or before a chunk that would pass the largest file size. */
    method WriteChunks(src: seq<Byte>, ghost d0: Image, ghost n0: seq<Inode>, ghost at: nat)
      returns (i: nat, panicked: bool, ghost ops: seq<set<nat>>)
      requires Reached(d0, n0, at, src, 0) == true
      modifies this, fs
      ensures panicked ==> fs.DiskFull()
      ensures !panicked ==> i <= |src| && Reached(d0, n0, at, src, i) == true && (i < |src| ==> at + |src| > MAXBYTES)
      ensures !panicked ==> StopsAt(at, |src|, i)
      ensures AllFit(ops) == true
    {
      var n := |src|;
      i := 0;
      ops := [];
      panicked := false;
      while i < n
        invariant 0 <= i <= n && Reached(d0, n0, at, src, i) == true && AllFit(ops) == true
        invariant WholeChunks(i, n) == true
      {
        var n1 := n - i;
        if n1 > MAXCHUNK {
          n1 := MAXCHUNK;
        }
        var w;
        ghost var logged;
        w, logged := WriteNext(src, i, n1, d0, n0, at);
        if w.OutOfBlocks? {
          return i, true, ops;
        }
        if w.Refused? {
          break;
        }
        OneMoreFits(ops, logged);
        OneMoreChunk(i, n, n1);
        ops, i := ops + [logged], i + n1;
      }
    }

    /** Every transaction is within the budget. */
    static ghost predicate AllFit(ops: seq<set<nat>>) {
      forall t :: 0 <= t < |ops| ==> |ops[t]| <= 7
    }

    static lemma OneMoreFits(ops: seq<set<nat>>, logged: set<nat>)
      requires AllFit(ops) && |logged| <= 7
      ensures AllFit(ops + [logged]) == true
    {
    }

    /** The first i bytes of src are in the file. */
    ghost predicate Reached(d0: Image, n0: seq<Inode>, at: nat, src: seq<Byte>, i: nat)
      reads this, fs
    {
      && Valid() && i <= |src| && off == at + i && fs.inode[ip].size <= MAXBYTES
      && Delivered(d0, n0, fs.disk, fs.inode, ip, at, src[..i]) == true
    }

    lemma NothingDelivered(src: seq<Byte>)
      requires Valid()
      ensures Reached(fs.disk, fs.inode, off, src, 0) == true
    {
      assert Dense(fs.disk, fs.inode[ip]);
      assert src[..0] == [];
      assert Spliced(Content(fs.disk, fs.inode[ip]), off, []) == Content(fs.disk, fs.inode[ip]);
    }

    /** One turn of that loop. */
    method WriteNext(src: seq<Byte>, i: nat, n: nat, ghost d0: Image, ghost n0: seq<Inode>, ghost at: nat)
      returns (w: Outcome, ghost logged: set<nat>)
      requires Reached(d0, n0, at, src, i) == true && 0 < n <= MAXCHUNK && i + n <= |src|
      modifies this, fs
      ensures w.OutOfBlocks? ==> fs.DiskFull()
      ensures w.Refused? <==> at + i + n > MAXBYTES
      ensures w.Refused? ==> Reached(d0, n0, at, src, i) == true
      ensures w.Written? ==> Reached(d0, n0, at, src, i + n) == true && |logged| <= 7
    {
      ghost var d1, n1 := fs.disk, fs.inode;
      assert off == at + i && Delivered(d0, n0, d1, n1, ip, at, src[..i]) == true;
      w, logged := WriteChunk(src[i..i + n]);
      if w.Written? {
        ReachesOn(d0, n0, d1, n1, at, src, i, n);
      } else if w.Refused? {
        HasReached(d0, n0, at, src, i);
      }
    }

    lemma ReachesOn(d0: Image, n0: seq<Inode>, d1: Image, n1: seq<Inode>, at: nat, src: seq<Byte>, i: nat, n: nat)
      requires Valid() && i + n <= |src| && off == at + i + n && Delivered(d0, n0, d1, n1, ip, at, src[..i]) == true
      requires Delivered(d1, n1, fs.disk, fs.inode, ip, at + i, src[i..i + n]) == true
      ensures Reached(d0, n0, at, src, i + n) == true
    {
      DeliveredTwice(d0, n0, d1, n1, fs.disk, fs.inode, ip, at, src, i, n);
      HasReached(d0, n0, at, src, i + n);
    }

    lemma HasReached(d0: Image, n0: seq<Inode>, at: nat, src: seq<Byte>, i: nat)
      requires Valid() && i <= |src| && off == at + i && Delivered(d0, n0, fs.disk, fs.inode, ip, at, src[..i]) == true
      ensures Reached(d0, n0, at, src, i) == true
    {
      assert Dense(fs.disk, fs.inode[ip]);
    }

    /** One transaction of filewrite: begin_op, writei, end_op. */
    method WriteChunk(chunk: seq<Byte>) returns (w: Outcome, ghost logged: set<nat>)
      requires Valid() && 0 < |chunk| <= MAXCHUNK
      modifies this, fs
      ensures w.OutOfBlocks? ==> fs.DiskFull()
      ensures !w.OutOfBlocks? ==> Valid()
      ensures w.Refused? <==> old(off) + |chunk| > MAXBYTES
      ensures w.Refused? ==> off == old(off) && fs.disk == old(fs.disk) && fs.inode == old(fs.inode)
      ensures w.Written? ==> off == old(off) + |chunk| && |logged| <= 7
      ensures w.Written? ==> Delivered(old(fs.disk), old(fs.inode), fs.disk, fs.inode, ip, old(off), chunk) == true
    {
      ghost var d0, n0 := fs.disk, fs.inode;
      fs.BeginTransaction();
      assert AllDense(d0, n0) && Dense(d0, n0[ip]);
      w := fs.Writei(ip, chunk, off);
      logged := fs.logged;
      if w.Written? {
        assert fs.logged - {} == fs.logged;
        TransactionFits(fs.sb, d0, n0, fs.disk, fs.inode, ip, off, chunk, fs.logged);
        assert |Content(fs.disk, fs.inode[ip])| == |Spliced(Content(d0, n0[ip]), off, chunk)|;
        off := off + |chunk|;
      }
    }
  }
}
