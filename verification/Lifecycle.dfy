/** From fork to wait (proc.c): what else holds in every reachable state of the scheduler's machine, and what each
    call comes to when it returns. */
module Lifecycle {
  import opened Basics
  import opened ProcTable
  import opened Scheduling
  import S = Scheduling

  // ---- more that holds in every reachable state

  /** Asleep in wait, or on the way there with ptable.lock held. */
  predicate Waits(q: Proc) {
    GoesToWait(q.pc) || (q.pc == WaitTidy && q.state == SLEEPING)
  }

  /** Who waits has a child and has not been killed. */
  ghost predicate WaitOk(s: State, p: nat)
    requires p < |s.t|
  {
    Waits(s.t[p]) ==> HasChild(s.t, p) && !s.t[p].killed
  }

  ghost predicate HasMaker(s: State, q: nat) {
    exists p :: 0 <= p < |s.t| && Making(s.t[p].pc) == Some(q)
  }

  /** Somebody in fork is filling in every embryo. */
  ghost predicate EmbryoOk(s: State, q: nat)
    requires q < |s.t|
  {
    s.t[q].state == EMBRYO ==> HasMaker(s, q)
  }

  /** A pid is given out once; 0 stands for none. */
  predicate PidsApart(s: State, p: nat, q: nat)
    requires p < |s.t| && q < |s.t|
  {
    p != q && s.t[p].pid == s.t[q].pid ==> s.t[p].pid == 0
  }

  predicate PidRange(s: State, p: nat)
    requires p < |s.t|
  {
    0 <= s.t[p].pid < s.nextpid && (s.t[p].state != UNUSED ==> s.t[p].pid > 0)
  }

  ghost predicate More(s: State) {
    && (forall p :: 0 <= p < |s.t| ==> WaitOk(s, p) && EmbryoOk(s, p) && PidRange(s, p))
    && (forall p, q :: 0 <= p < |s.t| && 0 <= q < |s.t| ==> PidsApart(s, p, q))
  }

  // ---- a statement of process r on CPU c

  /** A child keeps its parent, unless it is the parent that moves. */
  lemma ChildStays(s: State, s': State, c: nat, r: nat, lucky: bool, i: nat, p: nat)
    requires Moves(s, s', c, r) && SelfMoves(s, s', c, r, lucky) && i < |s.t| && r != p && s.t[i].parent == Some(p)
    requires i != r ==> OtherEffect(s, s', c, r, i)
    ensures i < |s'.t| && s'.t[i].parent == Some(p)
  {
  }

  lemma HasChildStays(s: State, s': State, c: nat, r: nat, lucky: bool, p: nat)
    requires Steps(s, s', c, r, lucky) && p != r && HasChild(s.t, p)
    ensures HasChild(s'.t, p)
  {
    var i :| 0 <= i < |s.t| && s.t[i].parent == Some(p);
    if i != r {
      assert OtherEffect(s, s', c, r, i);
    }
    ChildStays(s, s', c, r, lucky, i, p);
    assert s'.t[i].parent == Some(p);
  }

  /** Somebody else's statement neither sends p into wait nor marks it while it waits. */
  lemma WaiterStays(s: State, s': State, c: nat, r: nat, p: nat)
    requires Moves(s, s', c, r) && p < |s.t| && p != r && OtherEffect(s, s', c, r, p) && PlaceOk(s, p)
    requires Waits(s'.t[p])
    ensures Waits(s.t[p]) && s'.t[p].killed == s.t[p].killed
  {
  }

  lemma OtherWait(s: State, s': State, c: nat, r: nat, lucky: bool, p: nat)
    requires Steps(s, s', c, r, lucky) && p < |s.t| && p != r && PlaceOk(s, p) && WaitOk(s, p)
    ensures WaitOk(s', p)
  {
    assert OtherEffect(s, s', c, r, p);
    if Waits(s'.t[p]) {
      WaiterStays(s, s', c, r, p);
      HasChildStays(s, s', c, r, lucky, p);
    }
  }

  /** p goes into wait only behind its scan of the table. */
  lemma ComesToWait(s: State, p: nat, lucky: bool)
    requires p < |s.t| && Sound(s.t[p].pc)
    ensures var pc, pc' := s.t[p].pc, NextPc(s, p, lucky);
      GoesToWait(pc') || pc' == WaitTidy ==> GoesToWait(pc) || (pc == WaitScan && HasChild(s.t, p) && !s.t[p].killed)
  {
  }

  lemma OwnWait(s: State, c: nat, p: nat, lucky: bool)
    requires s.init < |s.t| && Runs(s, c, p) && Sound(s.t[p].pc) && WaitOk(s, p)
    ensures var s' := Execute(s, c, p, lucky); |s'.t| == |s.t| && WaitOk(s', p)
  {
    ComesToWait(s, p, lucky);
    var s' := Execute(s, c, p, lucky);
    if Waits(s'.t[p]) {
      WaitWrites(s, c, p, lucky);
      var i :| 0 <= i < |s.t| && s.t[i].parent == Some(p);
      assert s'.t[i].parent == Some(p);
    }
  }

  lemma WaitWrites(s: State, c: nat, p: nat, lucky: bool)
    requires Runs(s, c, p) && (GoesToWait(s.t[p].pc) || s.t[p].pc == WaitScan)
    ensures var s' := Execute(s, c, p, lucky);
      && |s'.t| == |s.t| && s'.t[p].killed == s.t[p].killed
      && forall i :: 0 <= i < |s.t| ==> s'.t[i].parent == s.t[i].parent
  {
  }

  /** An embryo is given up only when it is no embryo any more. */
  lemma MakerKeeps(s: State, c: nat, r: nat, lucky: bool, q: nat)
    requires s.init < |s.t| && Runs(s, c, r) && TargetOk(s, r) && Sound(s.t[r].pc) && q < |s.t| && Making(s.t[r].pc) == Some(q)
    ensures var s' := Execute(s, c, r, lucky); |s'.t| == |s.t| && (Making(s'.t[r].pc) == Some(q) || s'.t[q].state != EMBRYO)
  {
    if !Forks(s.t[r].pc) {
      BaseStays(s, r, lucky);
    }
  }

  /** Where an embryo comes from. */
  lemma EmbryoWas(s: State, s': State, c: nat, r: nat, lucky: bool, q: nat)
    requires Moves(s, s', c, r) == true && SelfMoves(s, s', c, r, lucky) == true && q < |s.t| && s'.t[q].state == EMBRYO
    requires q != r ==> OtherEffect(s, s', c, r, q) == true
    ensures q != r && (s.t[q].state == EMBRYO || s'.t[r].pc == ForkRel(q))
  {
  }

  /** What a maker is doing is changed by nobody else. */
  lemma MakerStays(s: State, s': State, c: nat, r: nat, p: nat)
    requires Moves(s, s', c, r) && p < |s.t| && p != r && OtherEffect(s, s', c, r, p) && PlaceOk(s, p) && Making(s.t[p].pc).Some?
    ensures s'.t[p].pc == s.t[p].pc
  {
  }

  lemma StepFacts(s: State, s': State, c: nat, r: nat, lucky: bool, q: nat)
    requires Steps(s, s', c, r, lucky) == true && q < |s.t|
    ensures Moves(s, s', c, r) == true && SelfMoves(s, s', c, r, lucky) == true
    ensures q != r ==> OtherEffect(s, s', c, r, q) == true
  {
  }

  /** From s to s' process r on CPU c makes one statement, the one that is its turn. */
  ghost predicate Ran(s: State, s': State, c: nat, r: nat, lucky: bool) {
    Runs(s, c, r) && Steps(s, s', c, r, lucky) && s' == Execute(s, c, r, lucky)
  }

  lemma RanFacts(s: State, s': State, c: nat, r: nat, lucky: bool, q: nat)
    requires Ran(s, s', c, r, lucky) && q < |s.t|
    ensures |s'.t| == |s.t| && r < |s.t|
    ensures Moves(s, s', c, r) == true && SelfMoves(s, s', c, r, lucky) == true
    ensures q != r ==> OtherEffect(s, s', c, r, q) == true
  {
  }

  lemma StepEmbryo(s: State, s': State, c: nat, r: nat, lucky: bool, q: nat)
    requires Inv(s) == true && Ran(s, s', c, r, lucky) == true && q < |s.t| && EmbryoOk(s, q)
    ensures q < |s'.t| && EmbryoOk(s', q)
  {
    RanFacts(s, s', c, r, lucky, q);
    if s'.t[q].state == EMBRYO {
      EmbryoWas(s, s', c, r, lucky, q);
      if s.t[q].state == EMBRYO {
        EmbryoIsKept(s, s', c, r, lucky, q);
      } else {
        MadeByFork(s', r, q);
      }
    }
  }

  lemma MadeByFork(s: State, r: nat, q: nat)
    requires r < |s.t| && s.t[r].pc == ForkRel(q)
    ensures HasMaker(s, q) == true
  {
    assert Making(s.t[r].pc) == Some(q);
  }

  lemma EmbryoIsKept(s: State, s': State, c: nat, r: nat, lucky: bool, q: nat)
    requires Inv(s) == true && Ran(s, s', c, r, lucky) == true
    requires q < |s.t| && q < |s'.t| && s'.t[q].state == EMBRYO && HasMaker(s, q) == true
    ensures HasMaker(s', q) == true
  {
    var p :| 0 <= p < |s.t| && Making(s.t[p].pc) == Some(q);
    RanFacts(s, s', c, r, lucky, p);
    assert ProcOk(s, p);
    KeptByMaker(s, s', c, r, lucky, q, p);
    assert Making(s'.t[p].pc) == Some(q);
  }

  lemma KeptByMaker(s: State, s': State, c: nat, r: nat, lucky: bool, q: nat, p: nat)
    requires Moves(s, s', c, r) == true && s' == Execute(s, c, r, lucky) && p < |s.t|
    requires p != r ==> OtherEffect(s, s', c, r, p) == true
    requires PlaceOk(s, p) && q < |s.t| && s'.t[q].state == EMBRYO && Making(s.t[p].pc) == Some(q)
    ensures Making(s'.t[p].pc) == Some(q)
  {
    if p == r {
      MakerKeeps(s, c, r, lucky, q);
    } else {
      MakerStays(s, s', c, r, p);
    }
  }

  /** The pid of an entry stays, is given up, or is the next one. */
  lemma PidStays(s: State, s': State, c: nat, r: nat, lucky: bool, q: nat)
    requires Moves(s, s', c, r) && SelfMoves(s, s', c, r, lucky) && q < |s.t| && (q != r ==> OtherEffect(s, s', c, r, q))
    requires PidRange(s, q)
    ensures PidRange(s', q)
    ensures s'.t[q].pid == s.t[q].pid || s'.t[q].pid == 0 || (s'.t[q].pid == s.nextpid && s'.t[r].pc == ForkRel(q))
  {
  }

  lemma StepPids(s: State, s': State, c: nat, r: nat, lucky: bool, p: nat, q: nat)
    requires Steps(s, s', c, r, lucky) && p < |s.t| && q < |s.t| && PidsApart(s, p, q) && PidRange(s, p) && PidRange(s, q)
    ensures PidsApart(s', p, q) && PidRange(s', p)
  {
    assert (p != r ==> OtherEffect(s, s', c, r, p)) && (q != r ==> OtherEffect(s, s', c, r, q));
    PidStays(s, s', c, r, lucky, p);
    PidStays(s, s', c, r, lucky, q);
  }

  lemma ExecuteKeepsMore(s: State, c: nat, r: nat, lucky: bool)
    requires Inv(s) && More(s) && Runs(s, c, r)
    ensures More(Execute(s, c, r, lucky))
  {
    var s' := Execute(s, c, r, lucky);
    ExecuteSteps(s, c, r, lucky);
    forall p | 0 <= p < |s'.t| ensures WaitOk(s', p) && EmbryoOk(s', p) && PidRange(s', p) {
      ExecuteKeepsOne(s, s', c, r, lucky, p);
    }
    forall p, q | 0 <= p < |s'.t| && 0 <= q < |s'.t| ensures PidsApart(s', p, q) {
      StepPids(s, s', c, r, lucky, p, q);
    }
  }

  lemma ExecuteKeepsOne(s: State, s': State, c: nat, r: nat, lucky: bool, p: nat)
    requires Inv(s) && Runs(s, c, r) && Steps(s, s', c, r, lucky) == true && s' == Execute(s, c, r, lucky) && p < |s.t|
    requires WaitOk(s, p) && EmbryoOk(s, p) && PidRange(s, p)
    ensures WaitOk(s', p) && EmbryoOk(s', p) && PidRange(s', p)
  {
    assert ProcOk(s, p);
    if p == r {
      OwnWait(s, c, p, lucky);
    } else {
      OtherWait(s, s', c, r, lucky, p);
    }
    assert Ran(s, s', c, r, lucky);
    StepEmbryo(s, s', c, r, lucky, p);
    StepPids(s, s', c, r, lucky, p, p);
  }

  // ---- the other steps

  /** Entry q in t' is that in t but for what it does next, or but for being picked to run. */
  predicate Alike(a: Proc, b: Proc) {
    && b == a.(state := b.state, pc := b.pc) && (b.state == a.state || (a.state == RUNNABLE && b.state == RUNNING))
    && (b.pc == a.pc || (!Waits(b) && (Making(b.pc) == Making(a.pc) || a.pc == User)))
  }

  lemma AlikeKeepsMore(s: State, s': State)
    requires More(s) && |s'.t| == |s.t| && s'.nextpid == s.nextpid
    requires forall q :: 0 <= q < |s.t| ==> Alike(s.t[q], s'.t[q])
    ensures More(s')
  {
    forall p | 0 <= p < |s'.t| ensures WaitOk(s', p) && EmbryoOk(s', p) && PidRange(s', p) {
      assert Alike(s.t[p], s'.t[p]) && WaitOk(s, p) && EmbryoOk(s, p) && PidRange(s, p);
      if Waits(s'.t[p]) {
        var i :| 0 <= i < |s.t| && s.t[i].parent == Some(p);
        assert Alike(s.t[i], s'.t[i]) && s'.t[i].parent == Some(p);
      }
      if s'.t[p].state == EMBRYO {
        var m :| 0 <= m < |s.t| && Making(s.t[m].pc) == Some(p);
        assert Alike(s.t[m], s'.t[m]) && Making(s'.t[m].pc) == Some(p);
      }
    }
    forall p, q | 0 <= p < |s'.t| && 0 <= q < |s'.t| ensures PidsApart(s', p, q) {
      assert Alike(s.t[p], s'.t[p]) && Alike(s.t[q], s'.t[q]) && PidsApart(s, p, q);
    }
  }

  lemma TurnIsAlike(a: Proc, pc: Pc)
    requires pc == YieldAcq(a.pc) || (a.pc == User && Entry(pc))
    ensures Alike(a, a.(pc := pc))
  {
  }

  lemma StepKeepsMore(s: State, step: Step)
    requires Inv(s) && More(s) && Enabled(s, step)
    ensures More(Next(s, step))
  {
    assert CpuOk(s, step.c);
    if step.Go? && s.cpus[step.c].on.Some? {
      ExecuteKeepsMore(s, step.c, s.cpus[step.c].on.value, step.lucky);
    } else {
      StepIsAlike(s, step);
      AlikeKeepsMore(s, Next(s, step));
    }
  }

  lemma StepIsAlike(s: State, step: Step)
    requires Enabled(s, step) && CpuOk(s, step.c) && !(step.Go? && s.cpus[step.c].on.Some?)
    ensures var s' := Next(s, step);
      |s'.t| == |s.t| && s'.nextpid == s.nextpid && forall q :: 0 <= q < |s.t| ==> Alike(s.t[q], s'.t[q])
  {
    if !step.Go? {
      var p := s.cpus[step.c].on.value;
      TurnIsAlike(s.t[p], if step.Call? then step.op else YieldAcq(s.t[p].pc));
    }
  }

  lemma {:induction false} MoreHolds(s0: State, schedule: seq<Step>)
    requires Init(s0)
    ensures Inv(S.After(s0, schedule)) && More(S.After(s0, schedule))
  {
    InvHolds(s0, schedule);
    if schedule != [] {
      var s, step := S.After(s0, schedule[..|schedule| - 1]), schedule[|schedule| - 1];
      MoreHolds(s0, schedule[..|schedule| - 1]);
      if Enabled(s, step) {
        StepKeepsMore(s, step);
      }
    }
  }

  // ---- wait

  /** A process that is asleep in wait, or has decided to sleep there, has a child and has not been killed; and every
      child of it is alive or being made. */
  lemma WaitingHasChild(s0: State, schedule: seq<Step>, p: nat)
    requires Init(s0)
    requires var s := S.After(s0, schedule); p < |s.t| && Waits(s.t[p])
    ensures var s := S.After(s0, schedule);
      && !s.t[p].killed && HasChild(s.t, p)
      && forall q :: 0 <= q < |s.t| && s.t[q].parent == Some(p) ==> Alive(s.t[q]) || s.t[q].state == EMBRYO
  {
    MoreHolds(s0, schedule);
    var s := S.After(s0, schedule);
    assert WaitOk(s, p);
    forall q | 0 <= q < |s.t| && s.t[q].parent == Some(p) ensures Alive(s.t[q]) || s.t[q].state == EMBRYO {
      assert PairOk(s, p, q) && ProcOk(s, q);
      ChildOfWaiter(s, p, q);
    }
  }

  lemma ChildOfWaiter(s: State, p: nat, q: nat)
    requires p < |s.t| && q < |s.t| && Waits(s.t[p]) && s.t[q].parent == Some(p)
    requires ZombieSeen(s, p, q) && WindowOk(s, p, q) && ParentOk(s, q)
    ensures Alive(s.t[q]) || s.t[q].state == EMBRYO
  {
  }

  /** The scan of wait: it reaps exactly when a child is a zombie, and it returns -1 exactly when no child is one and the
      process has no child at all or has been killed; otherwise it goes to sleep. Nothing else changes. */
  lemma WaitDecides(s0: State, schedule: seq<Step>, c: nat, p: nat, lucky: bool)
    requires Init(s0)
    requires var s := S.After(s0, schedule);
      c < |s.cpus| && s.cpus[c].on == Some(p) && p < |s.t| && s.t[p].pc == WaitScan && Enabled(s, Go(c, lucky))
    ensures var s := S.After(s0, schedule);
      var s' := Next(s, Go(c, lucky));
      && |s'.t| == |s.t| && s' == At(s, p, s'.t[p].pc)
      && (s'.t[p].pc.WaitFree? <==> exists q :: 0 <= q < |s.t| && s.t[q].parent == Some(p) && s.t[q].state == ZOMBIE)
      && (s'.t[p].pc == Rel(User) <==>
            && (forall q :: 0 <= q < |s.t| && s.t[q].parent == Some(p) ==> s.t[q].state != ZOMBIE)
            && (s.t[p].killed || forall q :: 0 <= q < |s.t| ==> s.t[q].parent != Some(p)))
      && (s'.t[p].pc.WaitFree? || s'.t[p].pc == Rel(User) || s'.t[p].pc == WaitChan)
  {
    var s := S.After(s0, schedule);
    var z := FindZombie(s.t, p, 0);
    assert z < |s.t| ==> s.t[z].parent == Some(p) && s.t[z].state == ZOMBIE;
    assert forall q :: 0 <= q < |s.t| && s.t[q].parent == Some(p) && s.t[q].state == ZOMBIE ==> ZombieChild(s.t[q], p);
  }

  /** A reaped child leaves its entry as one that was never used, and no other entry changes. */
  lemma ReapEmpties(s0: State, schedule: seq<Step>, c: nat, p: nat, z: nat, lucky: bool)
    requires Init(s0)
    requires var s := S.After(s0, schedule);
      c < |s.cpus| && s.cpus[c].on == Some(p) && p < |s.t| && s.t[p].pc == WaitReap(z) && Enabled(s, Go(c, lucky))
    ensures var s := S.After(s0, schedule);
      var s' := Next(s, Go(c, lucky));
      && |s'.t| == |s.t| && z < |s.t| && z != p && s.t[z].state == ZOMBIE && s.t[z].parent == Some(p)
      && s'.t[z] == Proc(UNUSED, 0, None, NoChan, false, false, ZombieExit)
      && forall q :: 0 <= q < |s.t| && q != z && q != p ==> s'.t[q] == s.t[q]
  {
    InvHolds(s0, schedule);
    var s := S.After(s0, schedule);
    assert CpuOk(s, c) && ProcOk(s, p) && PairOk(s, p, p) && ProcOk(s, s.t[p].pc.z);
    Reaps(s, c, p, z, lucky);
  }

  lemma Reaps(s: State, c: nat, p: nat, z: nat, lucky: bool)
    requires c < |s.cpus| && p < |s.t| && s.t[p].pc == WaitReap(z) && WindowOk(s, p, p) && s.t[p].state == RUNNING
    requires Holder(s) == Some(p) && PlaceOk(s, z) && ChanOk(s, z)
    ensures var s' := Execute(s, c, p, lucky);
      && |s'.t| == |s.t| && z < |s.t| && z != p && s.t[z].state == ZOMBIE && s.t[z].parent == Some(p)
      && s'.t[z] == Proc(UNUSED, 0, None, NoChan, false, false, ZombieExit)
      && forall q :: 0 <= q < |s.t| && q != z && q != p ==> s'.t[q] == s.t[q]
  {
    assert Inside(Sched(Never));
  }

  // ---- fork

  /** No entry is lost in fork: whoever took it is still filling it in. */
  lemma EmbryoHasMaker(s0: State, schedule: seq<Step>, q: nat)
    requires Init(s0)
    requires var s := S.After(s0, schedule); q < |s.t| && s.t[q].state == EMBRYO
    ensures var s := S.After(s0, schedule); exists p :: 0 <= p < |s.t| && Alive(s.t[p]) && Making(s.t[p].pc) == Some(q)
  {
    MoreHolds(s0, schedule);
    var s := S.After(s0, schedule);
    assert EmbryoOk(s, q);
    var p :| 0 <= p < |s.t| && Making(s.t[p].pc) == Some(q);
    assert ProcOk(s, p);
  }

  /** fork ends in one of two ways: the new process can run, as the caller's child, with a stack and a pid that no other
      process has; or its entry is unused again, without a stack and without a parent. */
  lemma ForkEnds(s0: State, schedule: seq<Step>, c: nat, p: nat, np: nat, lucky: bool)
    requires Init(s0)
    requires var s := S.After(s0, schedule);
      && c < |s.cpus| && s.cpus[c].on == Some(p) && p < |s.t| && Enabled(s, Go(c, lucky))
      && Making(s.t[p].pc) == Some(np) && Making(Next(s, Go(c, lucky)).t[p].pc) != Some(np)
    ensures var s, s' := S.After(s0, schedule), Next(S.After(s0, schedule), Go(c, lucky));
      && np < |s.t| == |s'.t| && np != p
      && if s.t[p].pc == ForkRun(np) then
           && s'.t[np] == s.t[np].(state := RUNNABLE) && s'.t[np].parent == Some(p) && s'.t[np].kstack && s'.t[np].pid > 0
           && forall q :: 0 <= q < |s'.t| && q != np ==> s'.t[q].pid != s'.t[np].pid
         else !lucky && s'.t[np].state == UNUSED && !s'.t[np].kstack && s'.t[np].parent == None && s'.t[p].pc == User
  {
    MoreHolds(s0, schedule);
    var s := S.After(s0, schedule);
    assert ProcOk(s, p) && CpuOk(s, c);
    LeavesMaking(s, p, np, lucky);
    assert PidRange(s, np);
    if s.t[p].pc == ForkRun(np) {
      ForkRuns(s, c, p, np, lucky);
    } else {
      ForkFails(s, c, p, np);
    }
  }

  lemma ForkRuns(s: State, c: nat, p: nat, np: nat, lucky: bool)
    requires c < |s.cpus| && p < |s.t| && s.init < |s.t| && s.t[p].pc == ForkRun(np) && MakingOk(s, p) && PidRange(s, np)
    requires forall q :: 0 <= q < |s.t| ==> PidsApart(s, q, np)
    ensures var s' := Execute(s, c, p, lucky);
      && |s'.t| == |s.t| && np < |s.t| && s'.t[np] == s.t[np].(state := RUNNABLE) && s'.t[np].parent == Some(p)
      && s'.t[np].kstack && s'.t[np].pid > 0 && forall q :: 0 <= q < |s'.t| && q != np ==> s'.t[q].pid != s'.t[np].pid
  {
    forall q | 0 <= q < |s.t| && q != np ensures s.t[q].pid != s.t[np].pid {
      assert PidsApart(s, q, np);
    }
  }

  lemma ForkFails(s: State, c: nat, p: nat, np: nat)
    requires c < |s.cpus| && p < |s.t| && s.init < |s.t| && MakingOk(s, p) && (s.t[p].pc == ForkStack(np) || s.t[p].pc == ForkVm(np))
    ensures var s' := Execute(s, c, p, false);
      && |s'.t| == |s.t| && np < |s.t| && s'.t[np].state == UNUSED && !s'.t[np].kstack && s'.t[np].parent == None && s'.t[p].pc == User
  {
  }

  lemma LeavesMaking(s: State, p: nat, np: nat, lucky: bool)
    requires p < |s.t| && Making(s.t[p].pc) == Some(np) && Making(NextPc(s, p, lucky)) != Some(np) && Sound(s.t[p].pc)
    ensures s.t[p].pc == ForkRun(np) || (!lucky && (s.t[p].pc == ForkStack(np) || s.t[p].pc == ForkVm(np)))
  {
    if !Forks(s.t[p].pc) {
      BaseStays(s, p, lucky);
    }
  }

  lemma BaseStays(s: State, p: nat, lucky: bool)
    requires p < |s.t| && Making(s.t[p].pc).Some? && !Forks(s.t[p].pc) && Sound(s.t[p].pc)
    ensures Base(NextPc(s, p, lucky)) == Base(s.t[p].pc)
  {
  }

  /** Two entries never have the same pid, but for those that have none; a process has one. */
  lemma PidsAreUnique(s0: State, schedule: seq<Step>, p: nat, q: nat)
    requires Init(s0)
    requires var s := S.After(s0, schedule); p < |s.t| && q < |s.t| && p != q && s.t[p].pid == s.t[q].pid
    ensures var s := S.After(s0, schedule); s.t[p].pid == 0 && s.t[p].state == UNUSED && s.t[q].state == UNUSED
  {
    MoreHolds(s0, schedule);
    var s := S.After(s0, schedule);
    assert PidsApart(s, p, q) && PidRange(s, p) && PidRange(s, q);
  }

  // ---- kill, sleep and wakeup

  /** kill marks the one process with the pid, which then is not asleep, and changes no other. */
  lemma KillIsExact(s0: State, schedule: seq<Step>, c: nat, p: nat, pid: int, lucky: bool, q: nat)
    requires Init(s0) && pid != 0
    requires var s := S.After(s0, schedule);
      c < |s.cpus| && s.cpus[c].on == Some(p) && p < |s.t| && s.t[p].pc == KillScan(pid) && Enabled(s, Go(c, lucky)) && q < |s.t|
    ensures var s, s' := S.After(s0, schedule), Next(S.After(s0, schedule), Go(c, lucky));
      && |s'.t| == |s.t| && s'.t[q].killed == (s.t[q].killed || s.t[q].pid == pid)
      && s'.t[q].state == (if s.t[q].pid == pid && s.t[q].state == SLEEPING then RUNNABLE else s.t[q].state)
      && s'.t[q] == s.t[q].(killed := s'.t[q].killed, state := s'.t[q].state, pc := s'.t[q].pc)
  {
    MoreHolds(s0, schedule);
    var s := S.After(s0, schedule);
    var i := FindPid(s.t, pid, 0);
    assert i < |s.t| ==> PidsApart(s, i, q);
    Kills(s, c, p, pid, lucky, q);
  }

  lemma Kills(s: State, c: nat, p: nat, pid: int, lucky: bool, q: nat)
    requires c < |s.cpus| && p < |s.t| && s.t[p].pc == KillScan(pid) && q < |s.t| && pid != 0
    requires FindPid(s.t, pid, 0) < |s.t| ==> PidsApart(s, FindPid(s.t, pid, 0), q)
    ensures var s' := Execute(s, c, p, lucky);
      && |s'.t| == |s.t| && s'.t[q].killed == (s.t[q].killed || s.t[q].pid == pid)
      && s'.t[q].state == (if s.t[q].pid == pid && s.t[q].state == SLEEPING then RUNNABLE else s.t[q].state)
      && s'.t[q] == s.t[q].(killed := s'.t[q].killed, state := s'.t[q].state, pc := s'.t[q].pc)
  {
  }

  /** Asleep in sleep(n). */
  predicate Naps(q: Proc, n: nat) {
    q.state == SLEEPING && (q.pc == SleepTidy(n) || q.pc == Sched(ThenTidy(n)))
  }

  /** wakeup(n) makes every process runnable that is asleep in sleep(n), and touches no other. */
  lemma WakeupIsExact(s0: State, schedule: seq<Step>, c: nat, p: nat, n: nat, lucky: bool, q: nat)
    requires Init(s0)
    requires var s := S.After(s0, schedule);
      c < |s.cpus| && s.cpus[c].on == Some(p) && p < |s.t| && s.t[p].pc == WakeScan(n) && Enabled(s, Go(c, lucky)) && q < |s.t|
    requires q != p
    ensures var s, s' := S.After(s0, schedule), Next(S.After(s0, schedule), Go(c, lucky));
      |s'.t| == |s.t| && s'.t[q] == if Naps(s.t[q], n) then s.t[q].(state := RUNNABLE) else s.t[q]
  {
    InvHolds(s0, schedule);
    var s := S.After(s0, schedule);
    assert ProcOk(s, q);
    Wakes(s, c, p, n, lucky, q);
  }

  lemma Wakes(s: State, c: nat, p: nat, n: nat, lucky: bool, q: nat)
    requires c < |s.cpus| && p < |s.t| && s.t[p].pc == WakeScan(n) && q < |s.t| && q != p && PlaceOk(s, q) && ChanOk(s, q)
    ensures var s' := Execute(s, c, p, lucky);
      |s'.t| == |s.t| && s'.t[q] == if Naps(s.t[q], n) then s.t[q].(state := RUNNABLE) else s.t[q]
  {
  }

  // ---- exit

  /** In exit, from its critical section on. */
  predicate Leaving(pc: Pc) {
    match Base(pc)
    case ExitAcq => true case ExitWake => true case ExitPass => true case ExitZombie => true case ZombieExit => true
    case Sched(a) => a == Never
    case _ => false
  }

  /** Who has called exit goes nowhere else until its entry is reaped. */
  lemma ExitIsForGood(s0: State, schedule: seq<Step>, step: Step, p: nat)
    requires Init(s0) && Enabled(S.After(s0, schedule), step)
    requires var s := S.After(s0, schedule); p < |s.t| && Leaving(s.t[p].pc) && (Alive(s.t[p]) || s.t[p].state == ZOMBIE)
    ensures var s' := Next(S.After(s0, schedule), step);
      p < |s'.t| && ((Leaving(s'.t[p].pc) && (Alive(s'.t[p]) || s'.t[p].state == ZOMBIE)) || s'.t[p].state == UNUSED)
  {
    InvHolds(s0, schedule);
    var s := S.After(s0, schedule);
    assert CpuOk(s, step.c);
    if step.Go? && s.cpus[step.c].on.Some? {
      ExitGoesOn(s, step.c, s.cpus[step.c].on.value, step.lucky, p);
    } else {
      LeavingStays(s, step, p);
    }
  }

  lemma ExitGoesOn(s: State, c: nat, r: nat, lucky: bool, p: nat)
    requires Inv(s) && Runs(s, c, r) && p < |s.t| && Leaving(s.t[p].pc) && (Alive(s.t[p]) || s.t[p].state == ZOMBIE)
    ensures var s' := Execute(s, c, r, lucky);
      |s'.t| == |s.t| && ((Leaving(s'.t[p].pc) && (Alive(s'.t[p]) || s'.t[p].state == ZOMBIE)) || s'.t[p].state == UNUSED)
  {
    ExecuteSteps(s, c, r, lucky);
    StepFacts(s, Execute(s, c, r, lucky), c, r, lucky, p);
    LeavingGoesOn(s, Execute(s, c, r, lucky), c, r, lucky, p);
  }

  lemma LeavingStays(s: State, step: Step, p: nat)
    requires Enabled(s, step) && (step.Go? ==> s.cpus[step.c].on.None?)
    requires p < |s.t| && Leaving(s.t[p].pc) && (Alive(s.t[p]) || s.t[p].state == ZOMBIE)
    ensures var s' := Next(s, step); |s'.t| == |s.t| && Leaving(s'.t[p].pc) && (Alive(s'.t[p]) || s'.t[p].state == ZOMBIE)
  {
  }

  lemma LeavingGoesOn(s: State, s': State, c: nat, r: nat, lucky: bool, p: nat)
    requires Moves(s, s', c, r) && SelfMoves(s, s', c, r, lucky) && p < |s.t| && (p != r ==> OtherEffect(s, s', c, r, p))
    requires Leaving(s.t[p].pc) && (Alive(s.t[p]) || s.t[p].state == ZOMBIE)
    ensures (Leaving(s'.t[p].pc) && (Alive(s'.t[p]) || s'.t[p].state == ZOMBIE)) || s'.t[p].state == UNUSED
  {
  }

  // ---- the scheduler

  /** The first runnable process at i or later, or |t|. */
  function FirstRunnable(t: Table, i: nat): (j: nat)
    requires i <= |t|
    ensures i <= j <= |t| && (j < |t| ==> t[j].state == RUNNABLE)
    ensures forall k :: i <= k < j ==> t[k].state != RUNNABLE
    decreases |t| - i
  {
    if i == |t| || t[i].state == RUNNABLE then i else FirstRunnable(t, i + 1)
  }

  /** n statements of CPU c, while the other CPUs make none. */
  function Alone(s: State, c: nat, n: nat): State {
    if n == 0 then s
    else
      var t := Alone(s, c, n - 1);
      if Enabled(t, Go(c, true)) then Next(t, Go(c, true)) else t
  }

  /** n turns of scheduler() on CPU c, while the other CPUs make no step. */
  function Turns(s: State, c: nat, n: nat): (t: State)
    ensures |t.cpus| == |s.cpus|
  {
    if n == 0 || c >= |s.cpus| then s else Schedule(Turns(s, c, n - 1), c)
  }

  predicate InLoop(s: State, c: nat) {
    c < |s.cpus| && s.cpus[c].on.None? && (s.cpus[c].loop == Start ==> s.lock == Free)
  }

  ghost predicate StaysIn(s: State, c: nat, n: nat) {
    forall m :: 0 <= m < n ==> InLoop(Turns(s, c, m), c) == true
  }

  /** They are the statements that the CPU makes. */
  lemma {:induction false} AloneTurns(s: State, c: nat, n: nat)
    requires StaysIn(s, c, n) == true
    ensures Alone(s, c, n) == Turns(s, c, n)
  {
    if n > 0 {
      StaysShorter(s, c, n);
      AloneTurns(s, c, n - 1);
      OneTurn(s, c, n);
    }
  }

  lemma StaysShorter(s: State, c: nat, n: nat)
    requires StaysIn(s, c, n) == true && 0 < n
    ensures StaysIn(s, c, n - 1) == true
  {
  }

  lemma StaysBefore(s: State, c: nat, n: nat)
    requires StaysIn(s, c, n) && 0 < n
    ensures InLoop(Turns(s, c, n - 1), c) == true && c < |s.cpus|
  {
    assert InLoop(Turns(s, c, n - 1), c) == true;
  }

  lemma OneTurn(s: State, c: nat, n: nat)
    requires 0 < n && StaysIn(s, c, n) == true && Alone(s, c, n - 1) == Turns(s, c, n - 1)
    ensures Alone(s, c, n) == Turns(s, c, n)
  {
    StaysBefore(s, c, n);
    LoopGoes(Turns(s, c, n - 1), c);
  }

  lemma LoopGoes(s: State, c: nat)
    requires InLoop(s, c)
    ensures Enabled(s, Go(c, true)) && Next(s, Go(c, true)) == Schedule(s, c)
  {
  }

  /** CPU c executes process j. */
  function Picked(s: State, c: nat, j: nat): State
    requires c < |s.cpus| && j < |s.t|
  {
    s.(t := s.t[j := s.t[j].(state := RUNNING)], lock := By(c), cpus := s.cpus[c := Cpu(Some(j), Some(j), Back(j))])
  }

  /** Where the CPU goes on when process i has given it up, or the loop starts. */
  function Behind(loop: Loop): nat {
    if loop.Back? then loop.i + 1 else 0
  }

  /** The state with CPU c at process j of its loop. */
  function AtProc(s: State, c: nat, j: nat): State
    requires c < |s.cpus|
  {
    s.(lock := By(c), cpus := s.cpus[c := Cpu(None, None, Scan(j))])
  }

  lemma {:induction false} Scans(s: State, c: nat, n: nat)
    requires InLoop(s, c) && Behind(s.cpus[c].loop) <= |s.t|
    requires (s.cpus[c].loop == Start && s.cpus[c].proc == None) || (s.cpus[c].loop.Back? && s.lock == By(c))
    requires Behind(s.cpus[c].loop) + n <= FirstRunnable(s.t, Behind(s.cpus[c].loop))
    ensures Turns(s, c, n + 1) == AtProc(s, c, Behind(s.cpus[c].loop) + n)
  {
    if n == 0 {
      assert Turns(s, c, 0) == s;
    } else {
      Scans(s, c, n - 1);
    }
  }

  /** What the loop does when it has come to the first process that can run, or past the last one. */
  lemma LoopEnds(t: State, c: nat, j: nat)
    requires c < |t.cpus| && t.cpus[c] == Cpu(None, None, Scan(j)) && j <= |t.t| && (j < |t.t| ==> t.t[j].state == RUNNABLE)
    requires t.lock == By(c)
    ensures InLoop(Schedule(t, c), c)
    ensures Schedule(Schedule(t, c), c) ==
      if j < |t.t| then Picked(t, c, j) else t.(lock := Free, cpus := t.cpus[c := Cpu(None, None, Start)])
  {
  }

  predicate Begins(s: State, c: nat) {
    && c < |s.cpus| && s.cpus[c].on.None? && Behind(s.cpus[c].loop) <= |s.t|
    && ((s.cpus[c].loop == Start && s.cpus[c].proc == None && s.lock == Free) || (s.cpus[c].loop.Back? && s.lock == By(c)))
  }

  lemma StaysInLoop(s: State, c: nat, m: nat)
    requires Begins(s, c) && Behind(s.cpus[c].loop) + m <= FirstRunnable(s.t, Behind(s.cpus[c].loop)) + 1
    ensures InLoop(Turns(s, c, m), c) == true
  {
    if m > 0 {
      Scans(s, c, m - 1);
    }
  }

  lemma AllInLoop(s: State, c: nat)
    requires Begins(s, c)
    ensures var i := Behind(s.cpus[c].loop); StaysIn(s, c, FirstRunnable(s.t, i) - i + 3) == true
  {
    var i := Behind(s.cpus[c].loop);
    var j := FirstRunnable(s.t, i);
    forall m | 0 <= m < j - i + 3 ensures InLoop(Turns(s, c, m), c) == true {
      if m <= j - i + 1 {
        StaysInLoop(s, c, m);
      } else {
        Scans(s, c, j - i);
        LoopEnds(Turns(s, c, j - i + 1), c, j);
      }
    }
  }

  /** Where the loop ends up. */
  function Chosen(s: State, c: nat, j: nat): State
    requires c < |s.cpus|
  {
    if j < |s.t| then Picked(s, c, j) else s.(lock := Free, cpus := s.cpus[c := Cpu(None, None, Start)])
  }

  /** By itself CPU c goes on to the first process at i or later that can run, or lets go of the lock when there is
      none. */
  ghost predicate GoesTo(s: State, c: nat, i: nat) {
    && c < |s.cpus| && i <= |s.t|
    && var j := FirstRunnable(s.t, i);
       StaysIn(s, c, j - i + 3) && Turns(s, c, j - i + 3) == Chosen(s, c, j)
  }

  lemma ChosenFromProc(s: State, c: nat, j: nat)
    requires c < |s.cpus| && j <= |s.t| && (j < |s.t| ==> s.t[j].state == RUNNABLE)
    ensures Schedule(Schedule(AtProc(s, c, j), c), c) == Chosen(s, c, j)
  {
    var t := AtProc(s, c, j);
    LoopEnds(t, c, j);
    SamePick(s, t, c, j);
  }

  lemma TurnsEnd(s: State, c: nat, n: nat, j: nat)
    requires c < |s.cpus| && j <= |s.t| && (j < |s.t| ==> s.t[j].state == RUNNABLE) && Turns(s, c, n) == AtProc(s, c, j)
    ensures Turns(s, c, n + 2) == Chosen(s, c, j)
  {
    TwoMore(s, c, n, AtProc(s, c, j));
    ChosenFromProc(s, c, j);
  }

  lemma PicksNext(s: State, c: nat)
    requires Begins(s, c)
    ensures GoesTo(s, c, Behind(s.cpus[c].loop)) == true
  {
    var i := Behind(s.cpus[c].loop);
    var j := FirstRunnable(s.t, i);
    Scans(s, c, j - i);
    AllInLoop(s, c);
    Lands(s, c, i, j, j - i + 1);
  }

  lemma Lands(s: State, c: nat, i: nat, j: nat, n: nat)
    requires c < |s.cpus| && i <= |s.t| && j == FirstRunnable(s.t, i) && n == j - i + 1
    requires Turns(s, c, n) == AtProc(s, c, j) && StaysIn(s, c, n + 2) == true
    ensures GoesTo(s, c, i) == true
  {
    TurnsEnd(s, c, n, j);
  }

  lemma SamePick(s: State, t: State, c: nat, j: nat)
    requires c < |s.cpus| && t == s.(lock := By(c), cpus := s.cpus[c := Cpu(None, None, Scan(j))])
    ensures j < |s.t| ==> Picked(t, c, j) == Picked(s, c, j)
    ensures t.(lock := Free, cpus := t.cpus[c := Cpu(None, None, Start)]) == s.(lock := Free, cpus := s.cpus[c := Cpu(None, None, Start)])
  {
    var busy, idle := Cpu(Some(j), Some(j), Back(j)), Cpu(None, None, Start);
    assert t.cpus[c := busy] == s.cpus[c := busy] && t.cpus[c := idle] == s.cpus[c := idle];
  }

  lemma TwoMore(s: State, c: nat, n: nat, t: State)
    requires c < |s.cpus| && Turns(s, c, n) == t
    ensures Turns(s, c, n + 2) == Schedule(Schedule(t, c), c)
  {
    assert Turns(s, c, n + 1) == Schedule(t, c);
  }

  /** scheduler() by itself, behind process i or at the start of the loop: the CPU goes on to the next process that can
      run, in the order of the table; when there is none behind i it lets go of ptable.lock and starts anew. */
  lemma RoundRobin(s0: State, schedule: seq<Step>, c: nat)
    requires Init(s0)
    requires var s := S.After(s0, schedule);
      c < |s.cpus| && s.cpus[c].on.None? && (s.cpus[c].loop.Back? || (s.cpus[c].loop == Start && s.lock == Free))
    ensures var s := S.After(s0, schedule); GoesTo(s, c, Behind(s.cpus[c].loop)) == true
  {
    InvHolds(s0, schedule);
    BeginsTurn(S.After(s0, schedule), c);
    PicksNext(S.After(s0, schedule), c);
  }

  lemma BeginsTurn(s: State, c: nat)
    requires Inv(s) && c < |s.cpus| && s.cpus[c].on.None? && (s.cpus[c].loop.Back? || (s.cpus[c].loop == Start && s.lock == Free))
    ensures Begins(s, c) == true
  {
    assert CpuOk(s, c);
  }
}
