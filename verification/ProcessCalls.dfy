/** What each call of proc.c comes to when nothing else moves meanwhile: the caller's CPU makes its statements one after
    the other, from the moment the process enters the kernel until it is back or off the CPU. */
module ProcessCalls {
  import opened Basics
  import opened ProcTable
  import opened Scheduling
  import opened Lifecycle
  import S = Scheduling

  /** Process p runs user code on CPU c, and nobody is in a critical section. */
  ghost predicate Calm(s: State, c: nat, p: nat) {
    Inv(s) == true && c < |s.cpus| && p < |s.t| && s.cpus[c].on == Some(p) && s.t[p].pc == User && s.lock == Free
  }

  lemma CallerRuns(s: State, c: nat, p: nat)
    requires Calm(s, c, p)
    ensures s.t[p].state == RUNNING && s.t[p].chan == NoChan && s.t[p].kstack && s.init < |s.t|
  {
    assert CpuOk(s, c) && ProcOk(s, p);
  }

  /** The table and the owner of ptable.lock are changed, nothing else. */
  function With(s: State, t: Table, lock: Owner): State {
    s.(t := t, lock := lock)
  }

  /** Process p has been switched away from, and the scheduler of CPU c has ptable.lock. */
  function Away(s: State, c: nat, t: Table): State
    requires c < |s.cpus|
  {
    s.(t := t, lock := By(c), cpus := s.cpus[c := s.cpus[c].(on := None)])
  }

  lemma Tick(s: State, c: nat, n: nat, t: State, u: State)
    requires Alone(s, c, n) == t && Enabled(t, Go(c, true)) && Next(t, Go(c, true)) == u
    ensures Alone(s, c, n + 1) == u
  {
  }

  /** Process p makes a statement in its critical section, with table t: w is what it leaves of the table. */
  predicate InSection(s: State, c: nat, p: nat, t: Table) {
    && c < |s.cpus| && p < |s.t| == |t| && s.cpus[c].on == Some(p)
    && Inside(t[p].pc) && !t[p].pc.Sched? && t[p].pc != ForkFind
  }

  lemma Works(s: State, c: nat, n: nat, p: nat, r: State, t: Table, w: Table)
    requires InSection(s, c, p, t) && Alone(r, c, n) == With(s, t, By(c)) && Writes(With(s, t, By(c)), p, true) == w
    ensures Alone(r, c, n + 1) ==
      With(s, w[p := w[p].(pc := NextPc(With(s, t, By(c)), p, true))], if t[p].pc.ForkRel? then Free else By(c))
  {
    Tick(r, c, n, With(s, t, By(c)), Next(With(s, t, By(c)), Go(c, true)));
  }

  /** It calls sched. */
  lemma Leaves(s: State, c: nat, n: nat, p: nat, r: State, t: Table, a: After)
    requires c < |s.cpus| && p < |s.t| == |t| && s.cpus[c].on == Some(p)
    requires Alone(r, c, n) == With(s, t, By(c)) && t[p].pc == Sched(a)
    ensures Alone(r, c, n + 1) == Away(s, c, t[p := t[p].(pc := AfterPc(a))])
  {
    Tick(r, c, n, With(s, t, By(c)), Away(s, c, t[p := t[p].(pc := AfterPc(a))]));
  }

  /** It lets go of the lock, and the call returns. */
  lemma Returns(s: State, c: nat, n: nat, p: nat, r: State, t: Table)
    requires c < |s.cpus| && p < |s.t| == |t| && s.cpus[c].on == Some(p)
    requires Alone(r, c, n) == With(s, t, By(c)) && t[p].pc == Rel(User)
    ensures Alone(r, c, n + 1) == With(s, t[p := t[p].(pc := User)], Free)
  {
    Tick(r, c, n, With(s, t, By(c)), With(s, t[p := t[p].(pc := User)], Free));
  }

  /** On the way off the CPU: the process changes nothing but itself. */
  function Falling(q: Proc, p: nat): Proc {
    match q.pc
    case SleepChan(n) => q.(chan := Other(n), pc := SleepState(n))
    case SleepState(n) => q.(state := SLEEPING, pc := Sched(ThenTidy(n)))
    case WaitChan => q.(chan := OnProc(p), pc := WaitState)
    case WaitState => q.(state := SLEEPING, pc := Sched(ThenWait))
    case YieldSet(k) => q.(state := RUNNABLE, pc := Sched(ThenRelease(k)))
    case ExitZombie => q.(state := ZOMBIE, pc := Sched(Never))
    case _ => q
  }

  /** Process p, at q, with the lock. */
  ghost predicate Stands(s: State, c: nat, n: nat, p: nat, r: State, t: Table, q: Proc) {
    && c < |s.cpus| && p < |s.t| == |t| && s.cpus[c].on == Some(p) && Alone(r, c, n) == With(s, t[p := q], By(c))
  }

  lemma Falls(s: State, c: nat, n: nat, p: nat, r: State, t: Table, q: Proc)
    requires Stands(s, c, n, p, r, t, q) && Falling(q, p) != q
    ensures Stands(s, c, n + 1, p, r, t, Falling(q, p)) == true
  {
    var t1 := t[p := q];
    var w := Writes(With(s, t1, By(c)), p, true);
    Works(s, c, n, p, r, t1, w);
    assert w[p := w[p].(pc := NextPc(With(s, t1, By(c)), p, true))] == t[p := Falling(q, p)];
  }

  lemma FallsOff(s: State, c: nat, n: nat, p: nat, r: State, t: Table, q: Proc, a: After)
    requires Stands(s, c, n, p, r, t, q) && q.pc == Sched(a)
    ensures Alone(r, c, n + 1) == Away(s, c, t[p := q.(pc := AfterPc(a))])
  {
    Leaves(s, c, n, p, r, t[p := q], a);
    assert t[p := q][p := q.(pc := AfterPc(a))] == t[p := q.(pc := AfterPc(a))];
  }

  /** Where a process is when it has entered the kernel and taken the lock. */
  function First(op: Pc): Pc {
    match op
    case YieldAcq(k) => YieldSet(k)
    case SleepAcq(n) => SleepChan(n)
    case WaitAcq => WaitScan
    case ExitAcq => ExitWake
    case ForkAcq => ForkFind
    case KillAcq(pid) => KillScan(pid)
    case WakeAcq(n) => WakeScan(n)
    case _ => op
  }

  /** The first statement of a call takes the lock. */
  lemma Takes(s: State, c: nat, p: nat, op: Pc)
    requires Calm(s, c, p) && Entry(op) && (op == ExitAcq ==> p != s.init)
    ensures Enabled(s, Call(c, op)) && Next(s, Call(c, op)) == At(s, p, op)
    ensures Stands(s, c, 1, p, At(s, p, op), s.t, s.t[p].(pc := First(op))) == true
  {
    var r := At(s, p, op);
    assert Next(r, Go(c, true)).t == s.t[p := s.t[p].(pc := First(op))];
    Tick(r, c, 0, r, With(s, s.t[p := s.t[p].(pc := First(op))], By(c)));
  }

  // ---- sleep, yield, wakeup and kill

  lemma SleepDown(s: State, c: nat, p: nat, n: nat, r: State, q: Proc)
    requires Stands(s, c, 1, p, r, s.t, q) && q.pc == SleepChan(n)
    ensures Alone(r, c, 4) == Away(s, c, s.t[p := q.(state := SLEEPING, chan := Other(n), pc := SleepTidy(n))])
  {
    Falls(s, c, 1, p, r, s.t, q);
    Falls(s, c, 2, p, r, s.t, Falling(q, p));
    FallsOff(s, c, 3, p, r, s.t, Falling(Falling(q, p), p), ThenTidy(n));
  }

  /** sleep gives the CPU away, asleep on the channel. */
  lemma SleepSleeps(s: State, c: nat, p: nat, n: nat)
    requires Calm(s, c, p)
    ensures Enabled(s, Call(c, SleepAcq(n)))
    ensures Alone(Next(s, Call(c, SleepAcq(n))), c, 4) ==
      Away(s, c, s.t[p := s.t[p].(state := SLEEPING, chan := Other(n), pc := SleepTidy(n))])
  {
    Takes(s, c, p, SleepAcq(n));
    SleepDown(s, c, p, n, At(s, p, SleepAcq(n)), s.t[p].(pc := SleepChan(n)));
  }

  lemma YieldDown(s: State, c: nat, p: nat, r: State, q: Proc)
    requires Stands(s, c, 1, p, r, s.t, q) && q.pc == YieldSet(User)
    ensures Alone(r, c, 3) == Away(s, c, s.t[p := q.(state := RUNNABLE, pc := Rel(User))])
  {
    Falls(s, c, 1, p, r, s.t, q);
    FallsOff(s, c, 2, p, r, s.t, Falling(q, p), ThenRelease(User));
  }

  /** yield gives it away and leaves the process runnable, to go on where it was. */
  lemma YieldYields(s: State, c: nat, p: nat)
    requires Calm(s, c, p)
    ensures Enabled(s, Preempt(c))
    ensures Alone(Next(s, Preempt(c)), c, 3) == Away(s, c, s.t[p := s.t[p].(state := RUNNABLE, pc := Rel(User))])
  {
    Takes(s, c, p, YieldAcq(User));
    YieldDown(s, c, p, At(s, p, YieldAcq(User)), s.t[p].(pc := YieldSet(User)));
  }

  /** After one statement on the table the call returns. */
  lemma WorksOnce(s: State, c: nat, p: nat, r: State, q: Proc, w: Table)
    requires Stands(s, c, 1, p, r, s.t, q) && (q.pc.WakeScan? || q.pc.KillScan?) && |w| == |s.t| && w[p].pc == User
    requires Writes(With(s, s.t[p := q], By(c)), p, true) == w[p := w[p].(pc := q.pc)]
    ensures Alone(r, c, 3) == With(s, w, Free)
  {
    var w1 := w[p := w[p].(pc := Rel(User))];
    WorksOut(s, c, p, r, q, w, w1);
    Returns(s, c, 2, p, r, w1);
    assert w1[p := w[p]] == w;
  }

  lemma WorksOut(s: State, c: nat, p: nat, r: State, q: Proc, w: Table, w1: Table)
    requires Stands(s, c, 1, p, r, s.t, q) && (q.pc.WakeScan? || q.pc.KillScan?) && |w| == |s.t|
    requires Writes(With(s, s.t[p := q], By(c)), p, true) == w[p := w[p].(pc := q.pc)] && w1 == w[p := w[p].(pc := Rel(User))]
    ensures Alone(r, c, 2) == With(s, w1, By(c))
  {
    var w0 := w[p := w[p].(pc := q.pc)];
    Works(s, c, 1, p, r, s.t[p := q], w0);
    assert w0[p := w1[p]] == w1;
  }

  lemma WakeWrites(s: State, c: nat, p: nat, n: nat)
    requires p < |s.t| && s.t[p].state == RUNNING
    ensures var q := s.t[p].(pc := WakeScan(n));
      var w := Woken(s.t, Other(n)); w[p] == s.t[p] && Writes(With(s, s.t[p := q], By(c)), p, true) == w[p := w[p].(pc := q.pc)]
  {
  }

  lemma {:induction false} SamePids(t: Table, u: Table, pid: int, i: nat)
    requires |u| == |t| && i <= |t| && forall j :: 0 <= j < |t| ==> u[j].pid == t[j].pid
    ensures FindPid(u, pid, i) == FindPid(t, pid, i)
    decreases |t| - i
  {
    if i < |t| {
      SamePids(t, u, pid, i + 1);
    }
  }

  lemma KillWrites(s: State, c: nat, p: nat, pid: int)
    requires p < |s.t| && s.t[p].state == RUNNING
    ensures var q := s.t[p].(pc := KillScan(pid));
      var w := Killed(s.t, pid);
      |w| == |s.t| && w[p].pc == s.t[p].pc && Writes(With(s, s.t[p := q], By(c)), p, true) == w[p := w[p].(pc := q.pc)]
  {
    SamePids(s.t, s.t[p := s.t[p].(pc := KillScan(pid))], pid, 0);
  }

  /** wakeup makes runnable all who sleep on the channel. */
  lemma WakeupWakes(s: State, c: nat, p: nat, n: nat)
    requires Calm(s, c, p)
    ensures Enabled(s, Call(c, WakeAcq(n)))
    ensures Alone(Next(s, Call(c, WakeAcq(n))), c, 3) == With(s, Woken(s.t, Other(n)), Free)
  {
    CallerRuns(s, c, p);
    Takes(s, c, p, WakeAcq(n));
    WakeWrites(s, c, p, n);
    WorksOnce(s, c, p, At(s, p, WakeAcq(n)), s.t[p].(pc := WakeScan(n)), Woken(s.t, Other(n)));
  }

  /** kill marks the process with the pid, and makes it runnable if it was asleep. */
  lemma KillKills(s: State, c: nat, p: nat, pid: int)
    requires Calm(s, c, p)
    ensures Enabled(s, Call(c, KillAcq(pid)))
    ensures Alone(Next(s, Call(c, KillAcq(pid))), c, 3) == With(s, Killed(s.t, pid), Free)
  {
    CallerRuns(s, c, p);
    Takes(s, c, p, KillAcq(pid));
    KillWrites(s, c, p, pid);
    WorksOnce(s, c, p, At(s, p, KillAcq(pid)), s.t[p].(pc := KillScan(pid)), Killed(s.t, pid));
  }

  // ---- exit

  /** The table when p has woken its parent and passed its children on. */
  function Bereft(s: State, p: nat): (t: Table)
    requires p < |s.t|
    ensures |t| == |s.t|
  {
    PassedOn(if s.t[p].parent.Some? then Woken(s.t, OnProc(s.t[p].parent.value)) else s.t, p, s.init)
  }

  lemma {:induction false} SameZombies(t: Table, u: Table, cur: nat, i: nat)
    requires |u| == |t| && i <= |t| && forall j :: 0 <= j < |t| ==> ZombieChild(u[j], cur) == ZombieChild(t[j], cur)
    ensures FindZombie(u, cur, i) == FindZombie(t, cur, i)
    decreases |t| - i
  {
    if i < |t| {
      SameZombies(t, u, cur, i + 1);
    }
  }

  lemma WakesParent(s: State, c: nat, p: nat)
    requires p < |s.t| && s.t[p].state == RUNNING && s.t[p].parent.Some?
    ensures var q := s.t[p].(pc := ExitWake);
      var w := Woken(s.t, OnProc(s.t[p].parent.value));
      w[p] == s.t[p] && Writes(With(s, s.t[p := q], By(c)), p, true) == w[p := q]
  {
  }

  lemma PassesOn(s: State, c: nat, p: nat, t: Table)
    requires p < |t| == |s.t| && t[p].state == RUNNING && t[p].parent != Some(p)
    ensures var q := t[p].(pc := ExitPass);
      var w := PassedOn(t, p, s.init);
      |w| == |t| && w[p] == t[p] && Writes(With(s, t[p := q], By(c)), p, true) == w[p := q]
  {
    SameZombies(t, t[p := t[p].(pc := ExitPass)], p, 0);
  }

  /** A statement that leaves p itself but for what it does next. */
  lemma WorksOn(s: State, c: nat, n: nat, p: nat, r: State, t: Table, q: Proc, w: Table, pc: Pc)
    requires Stands(s, c, n, p, r, t, q) && Inside(q.pc) && !q.pc.Sched? && q.pc != ForkFind && !q.pc.ForkRel?
    requires |w| == |t| && Writes(With(s, t[p := q], By(c)), p, true) == w[p := q] && NextPc(With(s, t[p := q], By(c)), p, true) == pc
    ensures Stands(s, c, n + 1, p, r, w, q.(pc := pc)) == true
  {
    Works(s, c, n, p, r, t[p := q], w[p := q]);
    assert w[p := q][p := q.(pc := pc)] == w[p := q.(pc := pc)];
  }

  lemma ExitDown(s: State, c: nat, p: nat, r: State, t: Table, q: Proc)
    requires Stands(s, c, 3, p, r, t, q) && q.pc == ExitZombie
    ensures Alone(r, c, 5) == Away(s, c, t[p := q.(state := ZOMBIE, pc := ZombieExit)])
  {
    Falls(s, c, 3, p, r, t, q);
    FallsOff(s, c, 4, p, r, t, Falling(q, p), Never);
  }

  lemma ExitRuns(s: State, c: nat, p: nat, r: State)
    requires p < |s.t| && s.t[p].state == RUNNING && s.t[p].parent.Some? && s.t[p].parent != Some(p)
    requires Stands(s, c, 1, p, r, s.t, s.t[p].(pc := ExitWake))
    ensures Alone(r, c, 5) == Away(s, c, Bereft(s, p)[p := s.t[p].(state := ZOMBIE, pc := ZombieExit)])
  {
    var w := Woken(s.t, OnProc(s.t[p].parent.value));
    WakesParent(s, c, p);
    WorksOn(s, c, 1, p, r, s.t, s.t[p].(pc := ExitWake), w, ExitPass);
    PassesOn(s, c, p, w);
    WorksOn(s, c, 2, p, r, w, s.t[p].(pc := ExitPass), Bereft(s, p), ExitZombie);
    ExitDown(s, c, p, r, Bereft(s, p), s.t[p].(pc := ExitZombie));
  }

  /** What exit of p does to another process: its parent and, if it leaves a zombie behind, init are woken from wait, and
      its children go to init. */
  ghost predicate Mourns(s: State, p: nat, a: Proc, b: Proc, q: nat)
    requires p < |s.t|
  {
    var woken := InWait(a) && (s.t[p].parent == Some(q) || (q == s.init && exists z :: 0 <= z < |s.t| && ZombieChild(s.t[z], p)));
    b == a.(parent := if a.parent == Some(p) then Some(s.init) else a.parent, state := if woken then RUNNABLE else a.state)
  }

  lemma BereftIs(s: State, p: nat, q: nat)
    requires p < |s.t| && q < |s.t| && q != p && s.t[p].parent.Some?
    requires forall ch: nat :: s.t[q].state == SLEEPING && s.t[q].chan == OnProc(ch) <==> InWait(s.t[q]) && ch == q
    ensures Mourns(s, p, s.t[q], Bereft(s, p)[q], q)
  {
    var t := Woken(s.t, OnProc(s.t[p].parent.value));
    SameZombies(s.t, t, p, 0);
    assert FindZombie(s.t, p, 0) < |s.t| <==> exists z :: 0 <= z < |s.t| && ZombieChild(s.t[z], p);
  }

  lemma SleepsOnItself(s: State, q: nat, ch: nat)
    requires q < |s.t| && ChanOk(s, q) && PlaceOk(s, q)
    ensures s.t[q].state == SLEEPING && s.t[q].chan == OnProc(ch) <==> InWait(s.t[q]) && ch == q
  {
  }

  lemma BereftAll(s: State, p: nat)
    requires Inv(s) == true && p < |s.t| && s.t[p].parent.Some?
    ensures forall q :: 0 <= q < |s.t| && q != p ==> Mourns(s, p, s.t[q], Bereft(s, p)[q], q)
  {
    forall q | 0 <= q < |s.t| && q != p ensures Mourns(s, p, s.t[q], Bereft(s, p)[q], q) {
      assert ProcOk(s, q);
      forall ch: nat ensures s.t[q].state == SLEEPING && s.t[q].chan == OnProc(ch) <==> InWait(s.t[q]) && ch == q {
        SleepsOnItself(s, q, ch);
      }
      BereftIs(s, p, q);
    }
  }

  lemma HasParent(s: State, p: nat)
    requires Inv(s) && p < |s.t| && Alive(s.t[p]) && p != s.init
    ensures s.t[p].parent.Some? && s.t[p].parent != Some(p)
  {
    assert ProcOk(s, p);
  }

  /** exit makes the process a zombie that is off the CPU for good, and hands its children to init. */
  lemma ExitExits(s: State, c: nat, p: nat)
    requires Calm(s, c, p) && p != s.init
    ensures Enabled(s, Call(c, ExitAcq))
    ensures Alone(Next(s, Call(c, ExitAcq)), c, 5) == Away(s, c, Bereft(s, p)[p := s.t[p].(state := ZOMBIE, pc := ZombieExit)])
    ensures forall q :: 0 <= q < |s.t| && q != p ==> Mourns(s, p, s.t[q], Bereft(s, p)[q], q)
  {
    CallerRuns(s, c, p);
    HasParent(s, p);
    Takes(s, c, p, ExitAcq);
    ExitRuns(s, c, p, At(s, p, ExitAcq));
    BereftAll(s, p);
  }

  // ---- wait

  lemma ScanFinds(s: State, c: nat, p: nat)
    requires p < |s.t|
    ensures var x := With(s, s.t[p := s.t[p].(pc := WaitScan)], By(c));
      && FindZombie(x.t, p, 0) == FindZombie(s.t, p, 0) && (HasChild(x.t, p) <==> HasChild(s.t, p))
  {
    var t := s.t[p := s.t[p].(pc := WaitScan)];
    SameZombies(s.t, t, p, 0);
    assert forall i :: 0 <= i < |t| ==> t[i].parent == s.t[i].parent;
  }

  lemma Scanned(s: State, c: nat, p: nat, r: State, pc: Pc)
    requires p < |s.t| && Stands(s, c, 1, p, r, s.t, s.t[p].(pc := WaitScan))
    requires var z := FindZombie(s.t, p, 0);
      pc == if z < |s.t| then WaitFree(z) else if !HasChild(s.t, p) || s.t[p].killed then Rel(User) else WaitChan
    ensures Stands(s, c, 2, p, r, s.t, s.t[p].(pc := pc)) == true
  {
    ScanFinds(s, c, p);
    WorksOn(s, c, 1, p, r, s.t, s.t[p].(pc := WaitScan), s.t, pc);
  }

  lemma ReturnsTo(s: State, c: nat, n: nat, p: nat, r: State, t: Table, q: Proc)
    requires Stands(s, c, n, p, r, t, q) && q.pc == Rel(User) && t[p] == q.(pc := User)
    ensures Alone(r, c, n + 1) == With(s, t, Free)
  {
    Returns(s, c, n, p, r, t[p := q]);
    assert t[p := q][p := q.(pc := User)] == t;
  }

  /** wait in a process that has no zombie child, and no child or has been killed: nothing changes. */
  lemma WaitReturns(s: State, c: nat, p: nat)
    requires Calm(s, c, p) && (s.t[p].killed || !HasChild(s.t, p)) && forall i :: 0 <= i < |s.t| ==> !ZombieChild(s.t[i], p)
    ensures Enabled(s, Call(c, WaitAcq)) && Alone(Next(s, Call(c, WaitAcq)), c, 3) == s
  {
    var r := At(s, p, WaitAcq);
    Takes(s, c, p, WaitAcq);
    Scanned(s, c, p, r, Rel(User));
    ReturnsTo(s, c, 2, p, r, s.t, s.t[p].(pc := Rel(User)));
  }

  lemma WaitDown(s: State, c: nat, p: nat, r: State, q: Proc)
    requires Stands(s, c, 2, p, r, s.t, q) && q.pc == WaitChan
    ensures Alone(r, c, 5) == Away(s, c, s.t[p := q.(state := SLEEPING, chan := OnProc(p), pc := WaitTidy)])
  {
    Falls(s, c, 2, p, r, s.t, q);
    Falls(s, c, 3, p, r, s.t, Falling(q, p));
    FallsOff(s, c, 4, p, r, s.t, Falling(Falling(q, p), p), ThenWait);
  }

  /** wait in a process that has children, none of them a zombie, and has not been killed: it goes to sleep. */
  lemma WaitSleeps(s: State, c: nat, p: nat)
    requires Calm(s, c, p) && !s.t[p].killed && HasChild(s.t, p) && forall i :: 0 <= i < |s.t| ==> !ZombieChild(s.t[i], p)
    ensures Enabled(s, Call(c, WaitAcq))
    ensures Alone(Next(s, Call(c, WaitAcq)), c, 5) ==
      Away(s, c, s.t[p := s.t[p].(state := SLEEPING, chan := OnProc(p), pc := WaitTidy)])
  {
    var r := At(s, p, WaitAcq);
    Takes(s, c, p, WaitAcq);
    Scanned(s, c, p, r, WaitChan);
    WaitDown(s, c, p, r, s.t[p].(pc := WaitChan));
  }

  lemma ReapRuns(s: State, c: nat, p: nat, r: State, z: nat)
    requires p < |s.t| && z < |s.t| && z != p && s.t[p].pc == User && Stands(s, c, 2, p, r, s.t, s.t[p].(pc := WaitFree(z)))
    ensures Alone(r, c, 5) ==
      With(s, s.t[z := s.t[z].(state := UNUSED, pid := 0, parent := None, killed := false, kstack := false)], Free)
  {
    var t1 := s.t[z := s.t[z].(kstack := false)];
    var t2 := s.t[z := s.t[z].(state := UNUSED, pid := 0, parent := None, killed := false, kstack := false)];
    WorksOn(s, c, 2, p, r, s.t, s.t[p].(pc := WaitFree(z)), t1, WaitReap(z));
    WorksOn(s, c, 3, p, r, t1, s.t[p].(pc := WaitReap(z)), t2, Rel(User));
    ReturnsTo(s, c, 4, p, r, t2, s.t[p].(pc := Rel(User)));
  }

  /** wait in a process with a zombie child: the first of them leaves its entry unused. */
  lemma WaitReaps(s: State, c: nat, p: nat, z: nat)
    requires Calm(s, c, p) && z < |s.t| && ZombieChild(s.t[z], p) && forall i :: 0 <= i < z ==> !ZombieChild(s.t[i], p)
    ensures Enabled(s, Call(c, WaitAcq))
    ensures Alone(Next(s, Call(c, WaitAcq)), c, 5) ==
      With(s, s.t[z := s.t[z].(state := UNUSED, pid := 0, parent := None, killed := false, kstack := false)], Free)
  {
    var r := At(s, p, WaitAcq);
    CallerRuns(s, c, p);
    Takes(s, c, p, WaitAcq);
    assert FindZombie(s.t, p, 0) == z;
    Scanned(s, c, p, r, WaitFree(z));
    ReapRuns(s, c, p, r, z);
  }

  // ---- fork

  /** Process p, at q; the lock may be free. */
  ghost predicate StandsAt(s: State, c: nat, n: nat, p: nat, r: State, t: Table, q: Proc, lock: Owner) {
    && c < |s.cpus| && p < |s.t| == |t| && s.cpus[c].on == Some(p) && Alone(r, c, n) == With(s, t[p := q], lock)
  }

  /** A statement of fork behind the search for an entry. */
  lemma ForkGoes(s: State, c: nat, n: nat, p: nat, r: State, t: Table, q: Proc, lock: Owner, w: Table, pc: Pc)
    requires StandsAt(s, c, n, p, r, t, q, lock) && Forks(q.pc) && (q.pc.ForkAcq2? ==> lock == Free)
    requires |w| == |t| && Writes(With(s, t[p := q], lock), p, true) == w[p := q]
    requires NextPc(With(s, t[p := q], lock), p, true) == pc
    ensures StandsAt(s, c, n + 1, p, r, w, q.(pc := pc), if q.pc.ForkAcq2? then By(c) else if q.pc.ForkRel? then Free else lock) == true
  {
    var x := With(s, t[p := q], lock);
    var y := With(s, w[p := q.(pc := pc)], if q.pc.ForkAcq2? then By(c) else if q.pc.ForkRel? then Free else lock);
    assert w[p := q][p := q.(pc := pc)] == w[p := q.(pc := pc)];
    assert Next(x, Go(c, true)) == y;
    Tick(r, c, n, x, y);
  }

  /** The new process in the course of fork: found, given a stack, given a parent, and runnable. */
  function Found(s: State, np: nat): Proc
    requires np < |s.t|
  {
    s.t[np].(state := EMBRYO, pid := s.nextpid)
  }

  function Stacked(s: State, np: nat): Proc
    requires np < |s.t|
  {
    Found(s, np).(kstack := true, pc := Rel(User))
  }

  function Born(s: State, p: nat, np: nat): Proc
    requires np < |s.t|
  {
    Stacked(s, np).(parent := Some(p), state := RUNNABLE)
  }

  lemma {:induction false} SameUnused(t: Table, u: Table, i: nat)
    requires |u| == |t| && i <= |t| && forall j :: 0 <= j < |t| ==> u[j].state == t[j].state
    ensures FindUnused(u, i) == FindUnused(t, i)
    decreases |t| - i
  {
    if i < |t| {
      SameUnused(t, u, i + 1);
    }
  }

  /** The search, which also gives out the pid. */
  lemma ForkFinds(s: State, c: nat, p: nat, r: State, np: nat)
    requires np < |s.t| && p < |s.t| && np != p && np == FindUnused(s.t, 0)
    requires Stands(s, c, 1, p, r, s.t, s.t[p].(pc := ForkFind))
    ensures StandsAt(s.(nextpid := s.nextpid + 1), c, 2, p, r, s.t[np := Found(s, np)], s.t[p].(pc := ForkRel(np)), By(c)) == true
  {
    var q, s1 := s.t[p].(pc := ForkFind), s.(nextpid := s.nextpid + 1);
    var x, y := With(s, s.t[p := q], By(c)), With(s1, s.t[np := Found(s, np)][p := q.(pc := ForkRel(np))], By(c));
    FindsNext(s, c, p, np, q, x, y);
    Tick(r, c, 1, x, y);
  }

  lemma FindsNext(s: State, c: nat, p: nat, np: nat, q: Proc, x: State, y: State)
    requires np < |s.t| && p < |s.t| && np != p && np == FindUnused(s.t, 0) && q == s.t[p].(pc := ForkFind)
    requires c < |s.cpus| && s.cpus[c].on == Some(p) && x == With(s, s.t[p := q], By(c))
    requires y == With(s.(nextpid := s.nextpid + 1), s.t[np := Found(s, np)][p := q.(pc := ForkRel(np))], By(c))
    ensures Enabled(x, Go(c, true)) && Next(x, Go(c, true)) == y
  {
    SameUnused(s.t, x.t, 0);
    assert x.t[np := Found(s, np)][p := q.(pc := ForkRel(np))] == y.t;
  }

  lemma ForkLetsGo(s1: State, c: nat, p: nat, r: State, np: nat, t: Table, q: Proc)
    requires StandsAt(s1, c, 2, p, r, t, q.(pc := ForkRel(np)), By(c))
    ensures StandsAt(s1, c, 3, p, r, t, q.(pc := ForkStack(np)), Free) == true
  {
    ForkGoes(s1, c, 2, p, r, t, q.(pc := ForkRel(np)), By(c), t, ForkStack(np));
  }

  lemma ForkEarly(s: State, s1: State, c: nat, p: nat, r: State, np: nat)
    requires np < |s.t| && p < |s.t| && np != p && s1 == s.(nextpid := s.nextpid + 1)
    requires StandsAt(s1, c, 2, p, r, s.t[np := Found(s, np)], s.t[p].(pc := ForkRel(np)), By(c))
    ensures StandsAt(s1, c, 4, p, r, s.t[np := Stacked(s, np)], s.t[p].(pc := ForkVm(np)), Free) == true
  {
    var q, t, w := s.t[p], s.t[np := Found(s, np)], s.t[np := Stacked(s, np)];
    ForkLetsGo(s1, c, p, r, np, t, q);
    assert t[p := q.(pc := ForkStack(np))][np := Stacked(s, np)] == w[p := q.(pc := ForkStack(np))];
    ForkGoes(s1, c, 3, p, r, t, q.(pc := ForkStack(np)), Free, w, ForkVm(np));
  }

  lemma ForkCopies(s: State, s1: State, c: nat, p: nat, r: State, np: nat, t: Table)
    requires np < |s.t| && p < |s.t| && |t| == |s.t| && StandsAt(s1, c, 4, p, r, t, s.t[p].(pc := ForkVm(np)), Free)
    ensures StandsAt(s1, c, 5, p, r, t, s.t[p].(pc := ForkParent(np)), Free) == true
  {
    ForkGoes(s1, c, 4, p, r, t, s.t[p].(pc := ForkVm(np)), Free, t, ForkParent(np));
  }

  lemma ForkAdopts(s: State, s1: State, c: nat, p: nat, r: State, np: nat)
    requires np < |s.t| && p < |s.t| && np != p && s1 == s.(nextpid := s.nextpid + 1)
    requires StandsAt(s1, c, 5, p, r, s.t[np := Stacked(s, np)], s.t[p].(pc := ForkParent(np)), Free)
    ensures StandsAt(s1, c, 6, p, r, s.t[np := Stacked(s, np).(parent := Some(p))], s.t[p].(pc := ForkAcq2(np)), Free) == true
  {
    var q, t, w := s.t[p], s.t[np := Stacked(s, np)], s.t[np := Stacked(s, np).(parent := Some(p))];
    assert t[p := q.(pc := ForkParent(np))][np := w[np]] == w[p := q.(pc := ForkParent(np))];
    ForkGoes(s1, c, 5, p, r, t, q.(pc := ForkParent(np)), Free, w, ForkAcq2(np));
  }

  lemma ForkLate(s: State, s1: State, c: nat, p: nat, r: State, np: nat)
    requires np < |s.t| && p < |s.t| && np != p && s1 == s.(nextpid := s.nextpid + 1)
    requires StandsAt(s1, c, 6, p, r, s.t[np := Stacked(s, np).(parent := Some(p))], s.t[p].(pc := ForkAcq2(np)), Free)
    ensures Stands(s1, c, 8, p, r, s.t[np := Born(s, p, np)], s.t[p].(pc := Rel(User))) == true
  {
    ForkTakes(s1, c, p, r, np, s.t[np := Stacked(s, np).(parent := Some(p))], s.t[p]);
    ForkLets(s, s1, c, p, r, np);
  }

  lemma ForkTakes(s1: State, c: nat, p: nat, r: State, np: nat, t: Table, q: Proc)
    requires StandsAt(s1, c, 6, p, r, t, q.(pc := ForkAcq2(np)), Free)
    ensures StandsAt(s1, c, 7, p, r, t, q.(pc := ForkRun(np)), By(c)) == true
  {
    ForkGoes(s1, c, 6, p, r, t, q.(pc := ForkAcq2(np)), Free, t, ForkRun(np));
  }

  lemma ForkLets(s: State, s1: State, c: nat, p: nat, r: State, np: nat)
    requires np < |s.t| && p < |s.t| && np != p && s1 == s.(nextpid := s.nextpid + 1)
    requires StandsAt(s1, c, 7, p, r, s.t[np := Stacked(s, np).(parent := Some(p))], s.t[p].(pc := ForkRun(np)), By(c))
    ensures Stands(s1, c, 8, p, r, s.t[np := Born(s, p, np)], s.t[p].(pc := Rel(User))) == true
  {
    var q, t, w := s.t[p], s.t[np := Stacked(s, np).(parent := Some(p))], s.t[np := Born(s, p, np)];
    assert t[p := q.(pc := ForkRun(np))][np := w[np]] == w[p := q.(pc := ForkRun(np))];
    ForkGoes(s1, c, 7, p, r, t, q.(pc := ForkRun(np)), By(c), w, Rel(User));
  }

  /** fork, when there is memory: the first unused entry becomes a runnable child with the next pid and a stack. */
  lemma ForkForks(s: State, c: nat, p: nat, np: nat)
    requires Calm(s, c, p) && np < |s.t| && s.t[np].state == UNUSED && forall i :: 0 <= i < np ==> s.t[i].state != UNUSED
    ensures Enabled(s, Call(c, ForkAcq))
    ensures Alone(Next(s, Call(c, ForkAcq)), c, 9) == s.(nextpid := s.nextpid + 1, t := s.t[np := s.t[np].(
      state := RUNNABLE, pid := s.nextpid, parent := Some(p), kstack := true, pc := Rel(User))])
  {
    CallerRuns(s, c, p);
    Takes(s, c, p, ForkAcq);
    assert FindUnused(s.t, 0) == np;
    ForkRuns(s, c, p, np, At(s, p, ForkAcq));
  }

  lemma ForkRuns(s: State, c: nat, p: nat, np: nat, r: State)
    requires np < |s.t| && p < |s.t| && np != p && np == FindUnused(s.t, 0) && s.t[p].pc == User
    requires Stands(s, c, 1, p, r, s.t, s.t[p].(pc := ForkFind))
    ensures Alone(r, c, 9) == s.(nextpid := s.nextpid + 1, t := s.t[np := Born(s, p, np)], lock := Free)
  {
    var s1 := s.(nextpid := s.nextpid + 1);
    ForkFinds(s, c, p, r, np);
    ForkEarly(s, s1, c, p, r, np);
    ForkCopies(s, s1, c, p, r, np, s.t[np := Stacked(s, np)]);
    ForkAdopts(s, s1, c, p, r, np);
    ForkLate(s, s1, c, p, r, np);
    ReturnsTo(s1, c, 8, p, r, s.t[np := Born(s, p, np)], s.t[p].(pc := Rel(User)));
  }

  lemma ForkGivesUp(s: State, c: nat, p: nat, r: State, q: Proc)
    requires Stands(s, c, 1, p, r, s.t, q) && q.pc == ForkFind && q.state == s.t[p].state
    requires forall i :: 0 <= i < |s.t| ==> s.t[i].state != UNUSED
    ensures Stands(s, c, 2, p, r, s.t, q.(pc := Rel(User))) == true
  {
    var x := With(s, s.t[p := q], By(c));
    SameUnused(s.t, x.t, 0);
    assert FindUnused(s.t, 0) == |s.t|;
    assert x.t[p := q.(pc := Rel(User))] == s.t[p := q.(pc := Rel(User))];
    Tick(r, c, 1, x, With(s, s.t[p := q.(pc := Rel(User))], By(c)));
  }

  /** With every entry in use fork fails, and nothing changes. */
  lemma ForkFindsNone(s: State, c: nat, p: nat)
    requires Calm(s, c, p) && forall i :: 0 <= i < |s.t| ==> s.t[i].state != UNUSED
    ensures Enabled(s, Call(c, ForkAcq)) && Alone(Next(s, Call(c, ForkAcq)), c, 3) == s
  {
    var r, q := At(s, p, ForkAcq), s.t[p].(pc := ForkFind);
    Takes(s, c, p, ForkAcq);
    ForkGivesUp(s, c, p, r, q);
    ReturnsTo(s, c, 2, p, r, s.t, q.(pc := Rel(User)));
  }
}
