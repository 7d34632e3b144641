/** Commit can always go on: whenever a commit is under way and nobody holds a buffer, there are steps that bring it to
    its end. It needs one free buffer, and the log is short enough to leave one. */
module CommitProgress {
  import opened Sequences
  import opened Basics
  import opened Disk
  import opened CrashRecovery
  import opened BufferCache
  import opened GroupCommit

  /** The state after more steps; those that cannot be taken are skipped. */
  function RunFrom(s: State, steps: seq<Step>): State
    decreases |steps|
  {
    if steps == [] then s else RunFrom(if Enabled(s, steps[0]) then Next(s, steps[0]) else s, steps[1..])
  }

  lemma {:induction false} RunThen(s: State, a: seq<Step>, b: seq<Step>)
    ensures RunFrom(s, a + b) == RunFrom(RunFrom(s, a), b)
    decreases |a|
  {
    if a == [] {
      assert a + b == b;
    } else {
      assert (a + b)[1..] == a[1..] + b;
      RunThen(if Enabled(s, a[0]) then Next(s, a[0]) else s, a[1..], b);
    }
  }

  lemma RunOne(s: State, steps: seq<Step>, t: State, step: Step)
    requires t == RunFrom(s, steps) && Enabled(t, step)
    ensures RunFrom(s, steps + [step]) == Next(t, step)
  {
    RunThen(s, steps, [step]);
    assert [step][1..] == [];
    assert RunFrom(t, [step]) == RunFrom(Next(t, step), []);
  }

  lemma {:induction false} AfterThen(d: Image, l: Layout, schedule: seq<Step>, steps: seq<Step>)
    ensures After(d, l, schedule + steps) == RunFrom(After(d, l, schedule), steps)
    decreases |steps|
  {
    if steps == [] {
      assert schedule + steps == schedule;
    } else {
      var one := schedule + [steps[0]];
      assert one[..|one| - 1] == schedule && one + steps[1..] == schedule + steps;
      AfterThen(d, l, one, steps[1..]);
    }
  }

  /** A commit is under way and nobody holds a buffer. */
  ghost predicate Alone(s: State) {
    Inv(s) == true && !s.panicked && s.commit.Some? && s.uses == map[]
  }

  // ---- buffers for commit

  lemma NobodyHolds(s: State, i: nat)
    requires Inv(s) && s.uses == map[] && i < NBUF
    ensures i < |s.b| && s.b[i].refcnt == 0 && !s.b[i].locked
  {
    assert BufOk(s.b[i], |s.disk|);
    assert RefsTo(s.uses, i) == {};
  }

  /** bget finds a buffer for any block. */
  lemma SomeBuffer(s: State, x: nat) returns (i: nat)
    requires Inv(s) && s.uses == map[]
    ensures Available(s.b, i, x) && !s.b[i].locked
  {
    if j :| 0 <= j < NBUF && s.b[j].Keyed(ROOTDEV, x) {
      i := j;
    } else {
      i := Pigeonhole(s.slot, NBUF);
      assert !s.b[i].dirty;
    }
    NobodyHolds(s, i);
  }

  /** The home block of an entry that commit has still to install is pinned in a buffer. */
  lemma HomeBuffer(s: State, t: nat) returns (i: nat)
    requires LogOk(s) && s.commit.Some? && t < |s.tx| && s.commit.value <= |s.tx| + 1 + t
    ensures i < NBUF && i < |s.b| && s.b[i].Keyed(ROOTDEV, s.tx[t].at) && s.b[i].dirty
    ensures !s.l.InLog(s.tx[t].at) && s.tx[t].at < |s.disk|
  {
    PinnedAreDirty(s);
    i := s.slot[t];
    assert Homes(s.tx)[t] == s.tx[t].at;
  }

  // ---- bread by commit

  /** Use u of commit holds block x in buffer i, and nothing else has happened. */
  ghost predicate Fetched(s: State, t: State, u: nat, x: nat, i: nat) {
    && SameRest(s, t) && t.uses == s.uses[u := Use(i, x, Committer, true, false)]
    && i < NBUF && |t.b| == |s.b| == NBUF + 1 && t.b[i].locked && t.b[i].valid
    && forall j :: 0 <= j < |s.b| && j != i ==> t.b[j] == s.b[j]
  }

  lemma Fetch(s: State, u: nat, x: nat, i: nat) returns (steps: seq<Step>, t: State)
    requires Inv(s) == true && !s.panicked && CanGet(s, u, x, i, Committer) && Available(s.b, i, x) && !s.b[i].locked
    ensures t == RunFrom(s, steps) && Inv(t) == true && Fetched(s, t, u, x, i) == true
  {
    SizeIs(s);
    var s1 := GetStep(s, u, x, i);
    RunOne(s, [], s, Get(u, x, i, Committer));
    StepKeepsInv(s, Get(u, x, i, Committer));
    var s2 := LockStep(s, s1, u, x, i);
    steps := [] + [Get(u, x, i, Committer)];
    RunOne(s, steps, s1, Lock(u));
    StepKeepsInv(s1, Lock(u));
    steps := steps + [Lock(u)];
    t := ReadStep(s, s2, u, x, i);
    if !s2.b[i].valid {
      RunOne(s, steps, s2, Read(u));
      StepKeepsInv(s2, Read(u));
      steps := steps + [Read(u)];
    }
  }

  lemma SizeIs(s: State)
    requires Inv(s)
    ensures |s.b| == NBUF + 1
  {
  }

  /** s1 is s but for the use u of block x in buffer i and that buffer. */
  ghost predicate Using(s: State, s1: State, u: nat, x: nat, i: nat, locked: bool) {
    && SameRest(s, s1) && s1.uses == s.uses[u := Use(i, x, Committer, locked, false)]
    && i < NBUF && |s1.b| == |s.b| == NBUF + 1 && s1.b[i].locked == locked && x < |s1.disk| && !s1.panicked
    && forall j :: 0 <= j < |s.b| && j != i ==> s1.b[j] == s.b[j]
  }

  lemma GetStep(s: State, u: nat, x: nat, i: nat) returns (s1: State)
    requires !s.panicked && CanGet(s, u, x, i, Committer) && Available(s.b, i, x) && !s.b[i].locked && |s.b| == NBUF + 1
    ensures Enabled(s, Get(u, x, i, Committer)) && s1 == Next(s, Get(u, x, i, Committer)) && Using(s, s1, u, x, i, false) == true
  {
    s1 := Next(s, Get(u, x, i, Committer));
  }

  lemma LockStep(s: State, s1: State, u: nat, x: nat, i: nat) returns (s2: State)
    requires Using(s, s1, u, x, i, false)
    ensures Enabled(s1, Lock(u)) && s2 == Next(s1, Lock(u)) && Using(s, s2, u, x, i, true) == true
  {
    s2 := Next(s1, Lock(u));
    assert s2.uses == s.uses[u := Use(i, x, Committer, true, false)];
  }

  lemma ReadStep(s: State, s2: State, u: nat, x: nat, i: nat) returns (t: State)
    requires Using(s, s2, u, x, i, true)
    ensures !s2.b[i].valid ==> Enabled(s2, Read(u))
    ensures t == (if s2.b[i].valid then s2 else Next(s2, Read(u))) && Fetched(s, t, u, x, i) == true
  {
    t := if s2.b[i].valid then s2 else Next(s2, Read(u));
    assert t.uses == s2.uses;
  }

  // ---- one block written by commit

  /** The next block has been written, and nobody holds a buffer again. */
  ghost predicate Wrote(s: State, t: State) {
    && s.commit.Some? && t.commit == Some(s.commit.value + 1) && t.tx == s.tx && t.uses == map[]
    && !t.panicked && t.hist == s.hist
  }

  /** From s to t only buffers and uses have changed. */
  lemma StillCommits(s: State, t: State)
    requires SameRest(s, t) && AtWrite(s)
    ensures AtWrite(t) && NextWrite(t) == NextWrite(s) && t.tx == s.tx && t.hist == s.hist && t.panicked == s.panicked
  {
  }

  /** The block that commit has filled goes to the disk, and its buffers are released. */
  lemma FlushStep(s: State, u: nat) returns (t: State)
    requires !s.panicked && AtWrite(s) && CommitHolds(s, u, NextWrite(s).at) && s.uses[u].changed && s.uses[u].blockno < |s.disk|
    ensures Enabled(s, Flush(u)) && t == Next(s, Flush(u)) && t.uses == s.uses[u := s.uses[u].(changed := false)]
    ensures t.commit == Some(s.commit.value + 1) && t.tx == s.tx && !t.panicked && t.hist == s.hist
    ensures |t.b| == |s.b| && forall i :: 0 <= i < |s.b| ==> t.b[i].valid == s.b[i].valid
  {
    t := Next(s, Flush(u));
  }

  lemma ReleaseStep(s: State, u: nat) returns (t: State)
    requires !s.panicked && CanRelease(s, u)
    ensures Enabled(s, Release(u)) && t == Next(s, Release(u)) && t.uses == s.uses - {u}
    ensures t.commit == s.commit && t.tx == s.tx && !t.panicked && t.hist == s.hist
    ensures |t.b| == |s.b| && forall i :: 0 <= i < |s.b| ==> t.b[i].valid == s.b[i].valid
  {
    t := Next(s, Release(u));
  }

  /** Filling a buffer leaves who holds what. */
  lemma FillStep(s: State, u: nat, data: Block) returns (t: State)
    requires Holding(s, u)
    ensures t == Filled(s, u, data) && SameRest(s, t) && t.uses == s.uses[u := s.uses[u].(changed := true)]
    ensures |t.b| == |s.b| && forall i :: 0 <= i < |s.b| ==> t.b[i].valid == s.b[i].valid
  {
    t := Filled(s, u, data);
  }

  lemma InDisk(s: State, u: nat)
    requires Inv(s) && u in s.uses
    ensures s.uses[u].blockno < |s.disk|
  {
    assert UseOk(s.b, s.uses[u]) && BufOk(s.b[s.uses[u].i], |s.disk|);
  }

  /** Once use u is filled for the next write, it is written and released. */
  lemma FlushAndRelease(s: State, u: nat) returns (r: State)
    requires !s.panicked && AtWrite(s) && CommitHolds(s, u, NextWrite(s).at) && s.uses[u].changed && s.uses[u].blockno < |s.disk|
    ensures Enabled(s, Flush(u)) && Enabled(Next(s, Flush(u)), Release(u)) && r == Next(Next(s, Flush(u)), Release(u))
    ensures r.uses == s.uses - {u} && r.commit == Some(s.commit.value + 1) && r.tx == s.tx && !r.panicked && r.hist == s.hist
    ensures |r.b| == |s.b| && forall i :: 0 <= i < |s.b| ==> r.b[i].valid == s.b[i].valid
  {
    var f := FlushStep(s, u);
    r := ReleaseStep(f, u);
  }

  lemma RunThree(s: State, a: Step, b: Step, c: Step)
    requires Enabled(s, a) && Enabled(Next(s, a), b) && Enabled(Next(Next(s, a), b), c)
    ensures RunFrom(s, [] + [a] + [b] + [c]) == Next(Next(Next(s, a), b), c)
  {
    RunOne(s, [], s, a);
    RunOne(s, [] + [a], Next(s, a), b);
    RunOne(s, [] + [a] + [b], Next(Next(s, a), b), c);
  }

  /** The bytes of v are copied to u, u is written, and both are released. */
  lemma CopyOut(s: State, t: nat, u: nat, v: nat) returns (steps: seq<Step>, r: State)
    requires Inv(s) == true && !s.panicked && t < |s.tx| && Copies(s, t, u, v) && u != v && s.uses.Keys == {u, v}
    requires !s.uses[u].changed && !s.uses[v].changed
    ensures r == RunFrom(s, steps) && Wrote(s, r) == true
  {
    var f := CopyStep(s, t, u, v);
    var g := FlushFilled(s, f, u, v);
    r := DropSource(s, g, v);
    RunThree(s, Copy(u, v), Flush(u), Release(u));
    steps := [] + [Copy(u, v)] + [Flush(u)] + [Release(u)];
    RunOne(s, steps, g, Release(v));
    steps := steps + [Release(v)];
  }

  /** In f use u is filled for the next write, and v is as in s. */
  ghost predicate Filling(s: State, f: State, u: nat, v: nat) {
    && AtWrite(f) && CommitHolds(f, u, NextWrite(f).at) && f.uses[u].changed && f.uses[u].blockno < |f.disk|
    && !f.panicked && f.commit == s.commit && f.tx == s.tx && f.hist == s.hist
    && u != v && f.uses.Keys == {u, v} && Holding(f, v) && !f.uses[v].changed
  }

  lemma CopyStep(s: State, t: nat, u: nat, v: nat) returns (f: State)
    requires Inv(s) == true && !s.panicked && t < |s.tx| && Copies(s, t, u, v) && u != v && s.uses.Keys == {u, v}
    requires !s.uses[u].changed && !s.uses[v].changed
    ensures Enabled(s, Copy(u, v)) && f == Next(s, Copy(u, v)) && Filling(s, f, u, v) == true
  {
    CanFillFrom(s, t, u, v);
    f := FilledFrom(s, u, v);
  }

  lemma CanFillFrom(s: State, t: nat, u: nat, v: nat)
    requires Inv(s) == true && t < |s.tx| && Copies(s, t, u, v) && !s.uses[u].changed
    ensures CanCopy(s, u, v) && AtWrite(s) && CommitHolds(s, u, NextWrite(s).at) && s.uses[u].blockno < |s.disk| && Holding(s, v)
  {
    assert CanCopy(s, u, v);
    CopyGives(s, u, v);
    InDisk(s, u);
  }

  lemma FilledFrom(s: State, u: nat, v: nat) returns (f: State)
    requires !s.panicked && CanCopy(s, u, v) && u != v && s.uses.Keys == {u, v} && !s.uses[v].changed
    requires AtWrite(s) && CommitHolds(s, u, NextWrite(s).at) && s.uses[u].blockno < |s.disk| && Holding(s, v)
    ensures Enabled(s, Copy(u, v)) && f == Next(s, Copy(u, v)) && Filling(s, f, u, v) == true
  {
    f := FillStep(s, u, s.b[s.uses[v].i].data);
    StillCommits(s, f);
  }

  /** In g it has been written and released. */
  ghost predicate Emptied(s: State, g: State, v: nat) {
    && !g.panicked && s.commit.Some? && g.commit == Some(s.commit.value + 1) && g.tx == s.tx && g.hist == s.hist
    && g.uses.Keys == {v} && CanRelease(g, v)
  }

  lemma FlushFilled(s: State, f: State, u: nat, v: nat) returns (g: State)
    requires Filling(s, f, u, v)
    ensures Enabled(f, Flush(u)) && Enabled(Next(f, Flush(u)), Release(u)) && g == Next(Next(f, Flush(u)), Release(u))
    ensures Emptied(s, g, v) == true
  {
    g := FlushAndRelease(f, u);
    assert g.uses.Keys == {v} && g.uses[v] == f.uses[v];
  }

  lemma DropSource(s: State, g: State, v: nat) returns (r: State)
    requires Emptied(s, g, v)
    ensures Enabled(g, Release(v)) && r == Next(g, Release(v)) && Wrote(s, r) == true
  {
    r := ReleaseStep(g, v);
    assert r.uses.Keys == {};
  }

  /** Both blocks of an entry are read, and one is copied over the other. */
  lemma CopyTurn(s: State, t: nat) returns (steps: seq<Step>, r: State)
    requires Alone(s) && t < |s.tx| && (Logs(s, t) || Installs(s, t))
    ensures r == RunFrom(s, steps) && Wrote(s, r) == true
  {
    var b, last;
    steps, b := FetchBoth(s, t);
    SameEntry(s, b, t);
    if Logs(s, t) {
      last, r := CopyOut(b, t, 0, 1);
    } else {
      last, r := CopyOut(b, t, 1, 0);
    }
    WroteToo(s, b, r);
    RunThen(s, steps, last);
    steps := steps + last;
  }

  lemma SameEntry(s: State, b: State, t: nat)
    requires SameRest(s, b) && t < |s.tx| && CommitHolds(b, 0, s.l.Slot(t)) && CommitHolds(b, 1, s.tx[t].at)
    ensures Logs(s, t) ==> Copies(b, t, 0, 1)
    ensures Installs(s, t) ==> Copies(b, t, 1, 0)
  {
  }

  lemma WroteToo(s: State, b: State, r: State)
    requires SameRest(s, b) && Wrote(b, r)
    ensures Wrote(s, r) == true
  {
  }

  lemma FetchBoth(s: State, t: nat) returns (steps: seq<Step>, b: State)
    requires Alone(s) && t < |s.tx| && (Logs(s, t) || Installs(s, t))
    ensures b == RunFrom(s, steps) && Inv(b) == true && !b.panicked && SameRest(s, b) && b.uses.Keys == {0, 1}
    ensures CommitHolds(b, 0, s.l.Slot(t)) && CommitHolds(b, 1, s.tx[t].at) && !b.uses[0].changed && !b.uses[1].changed
  {
    var log, home := s.l.Slot(t), s.tx[t].at;
    LogBlock(s, t);
    var i := SomeBuffer(s, log);
    var j := HomeBuffer(s, t);
    InItsTurn(s, t);
    var a, more;
    steps, a := Fetch(s, 0, log, i);
    HomeStays(s, a, i, j, log, home);
    more, b := Fetch(a, 1, home, j);
    RunThen(s, steps, more);
    BothHeld(s, a, b, i, j, log, home);
    steps := steps + more;
  }

  lemma InItsTurn(s: State, t: nat)
    requires t < |s.tx| && (Logs(s, t) || Installs(s, t))
    ensures InTurn(s, s.l.Slot(t)) && InTurn(s, s.tx[t].at)
  {
  }

  lemma LogBlock(s: State, t: nat)
    requires LogOk(s) && s.commit.Some? && t < |s.tx| && s.commit.value <= |s.tx| + 1 + t
    ensures s.l.InLog(s.l.Slot(t)) && s.l.Slot(t) < |s.disk|
  {
    assert |Homes(s.tx)| == |s.tx|;
  }

  lemma HomeStays(s: State, a: State, i: nat, j: nat, log: nat, home: nat)
    requires Alone(s) && Inv(a) == true && Fetched(s, a, 0, log, i) && InTurn(s, log) && InTurn(s, home) && log != home && home < |s.disk|
    requires j < NBUF && j < |s.b| && s.b[j].Keyed(ROOTDEV, home) && s.b[j].dirty
    ensures !a.panicked && CanGet(a, 1, home, j, Committer) && Available(a.b, j, home) && !a.b[j].locked
  {
    NobodyHolds(s, j);
    OtherBuffer(s, a, i, j, log, home);
    SameTurn(s, a, log);
    SameTurn(s, a, home);
    CanGetHome(a, i, j, log, home);
  }

  lemma CanGetHome(a: State, i: nat, j: nat, log: nat, home: nat)
    requires a.uses == map[0 := Use(i, log, Committer, true, false)] && InTurn(a, log) == true && InTurn(a, home) == true
    requires log != home && home < |a.disk| && j < NBUF && j < |a.b| && a.b[j].Keyed(ROOTDEV, home)
    ensures CanGet(a, 1, home, j, Committer) && Available(a.b, j, home)
  {
  }

  lemma OtherBuffer(s: State, a: State, i: nat, j: nat, log: nat, home: nat)
    requires Inv(s) == true && Inv(a) == true && Fetched(s, a, 0, log, i) && log != home
    requires j < NBUF && j < |s.b| && s.b[j].Keyed(ROOTDEV, home) && s.b[j].dirty
    ensures j != i && a.b[j] == s.b[j]
  {
    var t := StaysPinned(s, j);
    PinnedAreDirty(a);
    UsedIsKeyed(a, 0);
  }

  lemma StaysPinned(s: State, j: nat) returns (t: nat)
    requires Inv(s) && j < NBUF && j < |s.b| && s.b[j].dirty
    ensures t < |s.slot| && t < |s.lh| && s.slot[t] == j && s.b[j].Keyed(ROOTDEV, s.lh[t])
  {
    t :| 0 <= t < |s.slot| && s.slot[t] == j;
  }

  lemma UsedIsKeyed(s: State, u: nat)
    requires Inv(s) && u in s.uses
    ensures s.uses[u].i < |s.b| && s.b[s.uses[u].i].Keyed(ROOTDEV, s.uses[u].blockno)
  {
    assert UseOk(s.b, s.uses[u]);
  }

  lemma SameTurn(s: State, a: State, x: nat)
    requires SameRest(s, a) && InTurn(s, x)
    ensures InTurn(a, x) == true
  {
    assert forall t :: Logs(a, t) == Logs(s, t) && Installs(a, t) == Installs(s, t);
  }

  lemma BothHeld(s: State, a: State, b: State, i: nat, j: nat, log: nat, home: nat)
    requires Alone(s) && Fetched(s, a, 0, log, i) && Fetched(a, b, 1, home, j)
    ensures !b.panicked && b.uses.Keys == {0, 1} && SameRest(s, b)
    ensures CommitHolds(b, 0, log) && CommitHolds(b, 1, home) && !b.uses[0].changed && !b.uses[1].changed
  {
    assert i != j ==> b.b[i] == a.b[i];
  }

  /** The header block is read, filled and written. */
  lemma HeadTurn(s: State) returns (steps: seq<Step>, r: State)
    requires Alone(s) && Heads(s)
    ensures r == RunFrom(s, steps) && Wrote(s, r) == true
  {
    HeadBlock(s);
    var i := SomeBuffer(s, s.l.start);
    var a, last;
    steps, a := Fetch(s, 0, s.l.start, i);
    HeadHeld(s, a, i);
    last, r := FillOut(a, 0);
    WroteToo(s, a, r);
    RunThen(s, steps, last);
    steps := steps + last;
  }

  lemma HeadHeld(s: State, a: State, i: nat)
    requires Alone(s) && Heads(s) && Fetched(s, a, 0, s.l.start, i) && AtWrite(s) && NextWrite(s).at == s.l.start < |s.disk|
    ensures !a.panicked && Heads(a) && AtWrite(a) && NextWrite(a).at == a.l.start < |a.disk| && SameRest(s, a)
    ensures CommitHolds(a, 0, a.l.start) && !a.uses[0].changed && a.uses.Keys == {0}
  {
  }

  lemma HeadBlock(s: State)
    requires LogOk(s) && Heads(s)
    ensures AtWrite(s) && NextWrite(s).at == s.l.start < |s.disk|
  {
  }

  lemma FillOut(s: State, u: nat) returns (steps: seq<Step>, r: State)
    requires !s.panicked && Heads(s) && AtWrite(s) && NextWrite(s).at == s.l.start < |s.disk|
    requires CommitHolds(s, u, s.l.start) && !s.uses[u].changed && s.uses.Keys == {u}
    ensures r == RunFrom(s, steps) && Wrote(s, r) == true
  {
    var f := FillStep(s, u, EncodeHead(s.b[s.uses[u].i].data, s.lh));
    assert f == Next(s, FillHead(u));
    StillCommits(s, f);
    r := FlushAndRelease(f, u);
    RunThree(s, FillHead(u), Flush(u), Release(u));
    steps := [] + [FillHead(u)] + [Flush(u)] + [Release(u)];
    assert r.uses.Keys == {};
  }

  // ---- the whole commit

  lemma OneWrite(s: State) returns (steps: seq<Step>, r: State)
    requires Alone(s) && AtWrite(s)
    ensures r == RunFrom(s, steps) && Wrote(s, r) == true
  {
    var k, n := s.commit.value, |s.tx|;
    if k < n {
      steps, r := CopyTurn(s, k);
    } else if n < k <= 2 * n {
      steps, r := CopyTurn(s, k - n - 1);
    } else {
      steps, r := HeadTurn(s);
    }
  }

  lemma {:induction false} RunKeepsInv(s: State, steps: seq<Step>)
    requires Inv(s) == true
    ensures Inv(RunFrom(s, steps)) == true
    decreases |steps|
  {
    if steps != [] {
      if Enabled(s, steps[0]) {
        StepKeepsInv(s, steps[0]);
      }
      RunKeepsInv(if Enabled(s, steps[0]) then Next(s, steps[0]) else s, steps[1..]);
    }
  }

  /** The commit is over. */
  ghost predicate Over(s: State, r: State) {
    r.commit.None? && !r.panicked && r.uses == map[] && r.hist == s.hist && r.ops == {}
  }

  lemma {:induction false} Writes(s: State, left: nat) returns (steps: seq<Step>, r: State)
    requires Alone(s) && s.commit.value <= Total(|s.tx|) && left == Total(|s.tx|) - s.commit.value
    ensures r == RunFrom(s, steps) && Over(s, r) == true
    decreases left
  {
    if left == 0 {
      r := FinishStep(s);
      RunOne(s, [], s, Finish);
      steps := [] + [Finish];
    } else {
      var t, more;
      steps, t := OneWrite(s);
      RunKeepsInv(s, steps);
      more, r := Writes(t, left - 1);
      RunThen(s, steps, more);
      steps := steps + more;
    }
  }

  lemma FinishStep(s: State) returns (r: State)
    requires Alone(s) && s.commit == Some(Total(|s.tx|))
    ensures Enabled(s, Finish) && r == Next(s, Finish) && Over(s, r) == true
  {
    r := Next(s, Finish);
  }

  /** A commit under way can be brought to its end once nobody holds a buffer: then all that was logged is durable, and
      a crash, with any number of crashed recoveries, leaves it. */
  lemma CommitCanFinish(d: Image, l: Layout, schedule: seq<Step>, crashes: seq<nat>) returns (more: seq<Step>)
    requires Booted(d, l)
    requires var s := After(d, l, schedule); s.commit.Some? && s.uses == map[] && !s.panicked
    ensures var s, r := After(d, l, schedule), After(d, l, schedule + more);
      && r.commit.None? && !r.panicked && r.hist == s.hist && r.kept == |r.hist| && r.lh == []
      && SameHomes(Apply(d, Updates(s.hist)), l, RecoverThroughCrashes(r.disk, l, crashes))
  {
    var s := After(d, l, schedule);
    InvHolds(d, l, schedule);
    AtMostTotal(s);
    var r;
    more, r := Writes(s, Total(|s.tx|) - s.commit.value);
    AfterThen(d, l, schedule, more);
    EndedIsDurable(d, l, schedule + more, crashes);
  }

  lemma AtMostTotal(s: State)
    requires Inv(s) && s.commit.Some?
    ensures s.commit.value <= Total(|s.tx|) && s.ops == {}
  {
  }

  // ---- one operation by itself

  /** The one operation has block x, read in, in buffer 0; nothing has been logged. */
  ghost predicate HasBlock(s: State, d: Image, l: Layout, x: nat, changed: bool) {
    && x < |d| && |s.b| == NBUF + 1 && s.b[0].Keyed(ROOTDEV, x) && s.b[0].locked && s.b[0].valid && s.b[0].refcnt == 1
    && s == Boot(d, l).(ops := {0}, begun := 1, b := s.b, uses := map[0 := Use(0, x, Op(0), true, changed)])
  }

  lemma Began(d: Image, l: Layout) returns (s: State)
    ensures Enabled(Boot(d, l), Begin) && s == Next(Boot(d, l), Begin) && s == Boot(d, l).(ops := {0}, begun := 1)
  {
    s := Next(Boot(d, l), Begin);
  }

  /** bget, acquiresleep and iderw. */
  lemma Brings(d: Image, l: Layout, s: State, x: nat) returns (t: State)
    requires s == Boot(d, l).(ops := {0}, begun := 1) && x < |d| && !l.InLog(x)
    ensures CanGet(s, 0, x, 0, Op(0)) && CanLock(Got(s, 0, x, 0, Op(0)), 0) && !Got(s, 0, x, 0, Op(0)).panicked
    ensures CanRead(Locked(Got(s, 0, x, 0, Op(0)), 0), 0) && t == WasRead(Locked(Got(s, 0, x, 0, Op(0)), 0), 0)
    ensures HasBlock(t, d, l, x, false)
  {
    assert !s.b[0].Busy() && !s.b[0].Keyed(ROOTDEV, x);
    t := WasRead(Locked(Got(s, 0, x, 0, Op(0)), 0), 0);
  }

  /** The bytes are changed. */
  lemma Changes(s: State, d: Image, l: Layout, x: nat, data: Block) returns (t: State)
    requires HasBlock(s, d, l, x, false)
    ensures Enabled(s, Change(0, data)) && t == Next(s, Change(0, data)) && HasBlock(t, d, l, x, true) && t.b[0].data == data
  {
    t := Next(s, Change(0, data));
  }

  /** log_write and brelse. */
  lemma LogsIt(s: State, d: Image, l: Layout, x: nat, data: Block) returns (t: State, u: State)
    requires HasBlock(s, d, l, x, true) && s.b[0].data == data && 1 < l.size
    ensures Enabled(s, LogWrite(0)) && t == Next(s, LogWrite(0)) && Enabled(t, Release(0)) && u == Next(t, Release(0))
    ensures u.ops == {0} && u.commit.None? && u.uses == map[] && !u.panicked && u.hist == [Entry(0, Write(x, data))]
  {
    t := Next(s, LogWrite(0));
    u := Next(t, Release(0));
  }

  /** end_op of the one operation. */
  lemma Ends(s: State) returns (t: State)
    requires s.ops == {0} && s.commit.None? && s.uses == map[] && !s.panicked
    ensures Enabled(s, End(0)) && t == Next(s, End(0)) && t.commit.Some? && t.uses == map[] && !t.panicked && t.hist == s.hist
  {
    t := Next(s, End(0));
  }

  /** An operation that changes one block has steps up to the end of its end_op. */
  lemma OneOperation(d: Image, l: Layout, x: nat, data: Block) returns (steps: seq<Step>, s: State)
    requires 1 < l.size && x < |d| && !l.InLog(x)
    ensures s == RunFrom(Boot(d, l), steps)
    ensures s.commit.Some? && s.uses == map[] && !s.panicked && s.hist == [Entry(0, Write(x, data))]
  {
    var s0 := Boot(d, l);
    var s1 := Began(d, l);
    var s2 := Brings(d, l, s1, x);
    var s3 := Changes(s2, d, l, x, data);
    var s4, s5 := LogsIt(s3, d, l, x, data);
    s := Ends(s5);
    RunOne(s0, [], s0, Begin);
    steps := [] + [Begin];
    RunOne(s0, steps, s1, Get(0, x, 0, Op(0)));
    steps := steps + [Get(0, x, 0, Op(0))];
    RunOne(s0, steps, Got(s1, 0, x, 0, Op(0)), Lock(0));
    steps := steps + [Lock(0)];
    RunOne(s0, steps, Locked(Got(s1, 0, x, 0, Op(0)), 0), Read(0));
    steps := steps + [Read(0)];
    RunOne(s0, steps, s2, Change(0, data));
    steps := steps + [Change(0, data)];
    RunOne(s0, steps, s3, LogWrite(0));
    steps := steps + [LogWrite(0)];
    RunOne(s0, steps, s4, Release(0));
    steps := steps + [Release(0)];
    RunOne(s0, steps, s5, End(0));
    steps := steps + [End(0)];
  }

  /** Any block outside the log can be given any contents: there is a run that ends with them on the disk, with every
      other such block as it was, and with the log empty. */
  lemma WriteReachesDisk(d: Image, l: Layout, x: nat, data: Block) returns (schedule: seq<Step>)
    requires Booted(d, l) && 1 < l.size && x < |d| && !l.InLog(x)
    ensures var s := After(d, l, schedule);
      && s.commit.None? && s.ops == {} && s.uses == map[] && s.lh == [] && !s.panicked && |s.disk| == |d|
      && forall y :: 0 <= y < |d| && !l.InLog(y) ==> s.disk[y] == if y == x then data else d[y]
  {
    var first, s := OneOperation(d, l, x, data);
    AfterThen(d, l, [], first);
    assert [] + first == first;
    InvHolds(d, l, first);
    AtMostTotal(s);
    var more, r := Writes(s, Total(|s.tx|) - s.commit.value);
    AfterThen(d, l, first, more);
    schedule := first + more;
    EndedIsDurable(d, l, schedule, []);
    OneUpdate(r.hist, x, data, d);
    SameAt(d[x := data], l, r.disk);
  }

  lemma OneUpdate(hist: seq<Entry>, x: nat, data: Block, d: Image)
    requires hist == [Entry(0, Write(x, data))] && x < |d|
    ensures Apply(d, Updates(hist)) == d[x := data]
  {
    var ws := [Write(x, data)];
    assert Updates(hist) == ws && ws[..0] == [];
  }

  lemma SameAt(d: Image, l: Layout, r: Image)
    requires SameHomes(d, l, r)
    ensures |r| == |d| && forall y :: 0 <= y < |d| && !l.InLog(y) ==> r[y] == d[y]
  {
    assert Homes([]) == [];
  }
}
