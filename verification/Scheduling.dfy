/** Processes and CPUs (proc.c) as a state machine: the scheduler and its hand-over of ptable.lock across
    swtch, yield, sleep and wakeup, fork, exit, wait and kill, on any number of CPUs. A step is one statement
    of one CPU; a loop over the table, which runs with ptable.lock held, counts as one statement. */
module Scheduling {
  import opened Basics
  import opened ProcTable

  /** Where a CPU is in scheduler(). */
  datatype Loop =
    | Start                       // acquire(&ptable.lock)
    | Scan(i: nat)                // look at process i; if it can run, c->proc = p and p->state = RUNNING
    | Switch(i: nat)              // swtch(&(c->scheduler), p->context)
    | Back(i: nat)                // c->proc = 0, p++
    | Done                        // release(&ptable.lock)

  /** on is the process whose kernel stack the CPU executes on; without one it executes scheduler(). */
  datatype Cpu = Cpu(proc: Option<nat>, on: Option<nat>, loop: Loop)

  datatype Owner = Free | By(c: nat)

  datatype State = State(t: Table, cpus: seq<Cpu>, lock: Owner, nextpid: int, init: nat)

  datatype Step =
    | Go(c: nat, lucky: bool)     // the CPU's next statement; lucky is whether an allocation in it succeeds
    | Call(c: nat, op: Pc)        // the process on c, in User, enters the kernel
    | Preempt(c: nat)             // a timer interrupt makes the process on c yield

  /** After userinit. */
  predicate Init(s: State) {
    && s.init < |s.t| && s.nextpid == 2 && s.lock == Free
    && s.t[s.init] == Proc(RUNNABLE, 1, None, NoChan, false, true, Rel(User))
    && (forall p :: 0 <= p < |s.t| && p != s.init ==> s.t[p] == Proc(UNUSED, 0, None, NoChan, false, false, User))
    && (forall c :: 0 <= c < |s.cpus| ==> s.cpus[c] == Cpu(None, None, Start))
  }

  /** The system calls and calls that touch the process table. */
  predicate Entry(pc: Pc) {
    match pc
    case YieldAcq(k) => k == User
    case SleepAcq(_) => true case WaitAcq => true case ExitAcq => true case ForkAcq => true
    case KillAcq(_) => true case WakeAcq(_) => true
    case _ => false
  }

  /** The next statement of a process takes ptable.lock. */
  predicate Acquires(pc: Pc) {
    match pc
    case YieldAcq(_) => true case SleepAcq(_) => true case WaitAcq => true case ExitAcq => true
    case ForkAcq => true case ForkAcq2(_) => true case KillAcq(_) => true case WakeAcq(_) => true
    case _ => false
  }

  /** A process at pc, executing, holds ptable.lock. */
  predicate Holds(pc: Pc) {
    match pc
    case User => false
    case YieldAcq(_) => false case SleepAcq(_) => false case WaitAcq => false case ExitAcq => false
    case ForkAcq => false case ForkAcq2(_) => false case KillAcq(_) => false case WakeAcq(_) => false
    case ForkStack(_) => false case ForkVm(_) => false case ForkParent(_) => false
    case _ => true
  }

  /** Where a process is that has been switched away from. */
  predicate Resumes(pc: Pc) {
    pc.Rel? || pc.SleepTidy? || pc == WaitTidy
  }

  predicate Enabled(s: State, step: Step) {
    step.c < |s.cpus| && (s.cpus[step.c].on.Some? ==> s.cpus[step.c].on.value < |s.t|) && CanGo(s, s.cpus[step.c], step)
  }

  predicate CanGo(s: State, cpu: Cpu, step: Step)
    requires cpu.on.Some? ==> cpu.on.value < |s.t|
  {
    match step
    case Go(_, _) =>
      if cpu.on.Some? then
        var pc := s.t[cpu.on.value].pc;
        pc != User && pc != ZombieExit && (Acquires(pc) ==> s.lock == Free)
      else cpu.loop == Start ==> s.lock == Free
    case Call(_, op) =>
      cpu.on.Some? && s.t[cpu.on.value].pc == User && Entry(op) && (op == ExitAcq ==> cpu.on.value != s.init)
    case Preempt(_) => cpu.on.Some? && !Holds(s.t[cpu.on.value].pc)
  }

  function At(s: State, p: nat, pc: Pc): State
    requires p < |s.t|
  {
    s.(t := s.t[p := s.t[p].(pc := pc)])
  }

  function Put(s: State, p: nat, q: Proc): State
    requires p < |s.t|
  {
    s.(t := s.t[p := q])
  }

  /** One turn of scheduler() on CPU c. */
  function Schedule(s: State, c: nat): State
    requires c < |s.cpus|
  {
    var cpu := s.cpus[c];
    match cpu.loop
    case Start => s.(lock := By(c), cpus := s.cpus[c := cpu.(loop := Scan(0))])
    case Scan(i) =>
      if i >= |s.t| then s.(cpus := s.cpus[c := cpu.(loop := Done)])
      else if s.t[i].state == RUNNABLE then
        Put(s, i, s.t[i].(state := RUNNING)).(cpus := s.cpus[c := cpu.(proc := Some(i), loop := Switch(i))])
      else s.(cpus := s.cpus[c := cpu.(loop := Scan(i + 1))])
    case Switch(i) => s.(cpus := s.cpus[c := cpu.(on := Some(i), loop := Back(i))])
    case Back(i) => s.(cpus := s.cpus[c := cpu.(proc := None, loop := Scan(i + 1))])
    case Done => s.(lock := Free, cpus := s.cpus[c := cpu.(loop := Start)])
  }

  function AfterPc(a: After): Pc {
    match a
    case ThenRelease(k) => Rel(k)
    case ThenTidy(n) => SleepTidy(n)
    case ThenWait => WaitTidy
    case Never => ZombieExit
  }

  /** What the statement of process p stores in the table. */
  function Writes(s: State, p: nat, lucky: bool): (t: Table)
    requires p < |s.t|
    ensures |t| == |s.t|
  {
    var me := s.t[p];
    match me.pc
    case YieldSet(k) => s.t[p := me.(state := RUNNABLE)]
    case SleepChan(n) => s.t[p := me.(chan := Other(n))]
    case SleepState(_) => s.t[p := me.(state := SLEEPING)]
    case SleepTidy(_) => s.t[p := me.(chan := NoChan)]
    case WaitFree(z) => if z < |s.t| then s.t[z := s.t[z].(kstack := false)] else s.t
    case WaitReap(z) =>
      if z < |s.t| then s.t[z := s.t[z].(pid := 0, parent := None, killed := false, state := UNUSED)] else s.t
    case WaitChan => s.t[p := me.(chan := OnProc(p))]
    case WaitState => s.t[p := me.(state := SLEEPING)]
    case WaitTidy => s.t[p := me.(chan := NoChan)]
    case ExitWake => if me.parent.Some? then Woken(s.t, OnProc(me.parent.value)) else s.t
    case ExitPass => PassedOn(s.t, p, s.init)
    case ExitZombie => s.t[p := me.(state := ZOMBIE)]
    case ForkFind =>
      var np := FindUnused(s.t, 0);
      if np < |s.t| then s.t[np := s.t[np].(state := EMBRYO, pid := s.nextpid)] else s.t
    case ForkStack(np) =>
      if np >= |s.t| then s.t
      else if lucky then s.t[np := s.t[np].(kstack := true, pc := Rel(User))]
      else s.t[np := s.t[np].(state := UNUSED)]
    case ForkVm(np) => if np < |s.t| && !lucky then s.t[np := s.t[np].(kstack := false, state := UNUSED)] else s.t
    case ForkParent(np) => if np < |s.t| then s.t[np := s.t[np].(parent := Some(p))] else s.t
    case ForkRun(np) => if np < |s.t| then s.t[np := s.t[np].(state := RUNNABLE)] else s.t
    case KillScan(pid) => Killed(s.t, pid)
    case WakeScan(n) => Woken(s.t, Other(n))
    case _ => s.t
  }

  /** Where the statement takes process p. */
  function NextPc(s: State, p: nat, lucky: bool): Pc
    requires p < |s.t|
  {
    var me := s.t[p];
    match me.pc
    case User => User
    case ZombieExit => ZombieExit
    case YieldAcq(k) => YieldSet(k)
    case YieldSet(k) => Sched(ThenRelease(k))
    case SleepAcq(n) => SleepChan(n)
    case SleepChan(n) => SleepState(n)
    case SleepState(n) => Sched(ThenTidy(n))
    case SleepTidy(_) => Rel(User)
    case Sched(a) => AfterPc(a)
    case Rel(k) => k
    case WaitAcq => WaitScan
    case WaitScan =>
      var z := FindZombie(s.t, p, 0);
      if z < |s.t| then WaitFree(z) else if !HasChild(s.t, p) || me.killed then Rel(User) else WaitChan
    case WaitFree(z) => WaitReap(z)
    case WaitReap(_) => Rel(User)
    case WaitChan => WaitState
    case WaitState => Sched(ThenWait)
    case WaitTidy => WaitScan
    case ExitAcq => ExitWake
    case ExitWake => ExitPass
    case ExitPass => ExitZombie
    case ExitZombie => Sched(Never)
    case ForkAcq => ForkFind
    case ForkFind =>
      var np := FindUnused(s.t, 0);
      if np < |s.t| then ForkRel(np) else Rel(User)
    case ForkRel(np) => ForkStack(np)
    case ForkStack(np) => if lucky then ForkVm(np) else User
    case ForkVm(np) => if lucky then ForkParent(np) else User
    case ForkParent(np) => ForkAcq2(np)
    case ForkAcq2(np) => ForkRun(np)
    case ForkRun(_) => Rel(User)
    case KillAcq(pid) => KillScan(pid)
    case KillScan(_) => Rel(User)
    case WakeAcq(n) => WakeScan(n)
    case WakeScan(_) => Rel(User)
  }

  /** The statement of process p on CPU c. */
  function Execute(s: State, c: nat, p: nat, lucky: bool): State
    requires c < |s.cpus| && p < |s.t|
  {
    var pc, t := s.t[p].pc, Writes(s, p, lucky);
    State(t[p := t[p].(pc := NextPc(s, p, lucky))],
          if pc.Sched? then s.cpus[c := s.cpus[c].(on := None)] else s.cpus,
          if Acquires(pc) then By(c) else if pc.Rel? || pc.ForkRel? then Free else s.lock,
          s.nextpid + if pc == ForkFind && FindUnused(s.t, 0) < |s.t| then 1 else 0,
          s.init)
  }

  function Next(s: State, step: Step): State
    requires Enabled(s, step)
  {
    var cpu := s.cpus[step.c];
    match step
    case Go(c, lucky) => if cpu.on.Some? then Execute(s, c, cpu.on.value, lucky) else Schedule(s, c)
    case Call(c, op) => At(s, cpu.on.value, op)
    case Preempt(c) => At(s, cpu.on.value, YieldAcq(s.t[cpu.on.value].pc))
  }

  // ---- what holds in every reachable state

  /** Neither dead nor being made. */
  predicate Alive(q: Proc) {
    q.state == RUNNING || q.state == RUNNABLE || q.state == SLEEPING
  }

  /** What a process was doing when it was preempted, if it was. */
  function Base(pc: Pc): Pc {
    match pc
    case YieldAcq(k) => Base(k)
    case YieldSet(k) => Base(k)
    case Sched(ThenRelease(k)) => Base(k)
    case Rel(k) => Base(k)
    case _ => pc
  }

  /** The entry that a process in fork is filling in. */
  function Making(pc: Pc): Option<nat> {
    match Base(pc)
    case ForkRel(np) => Some(np) case ForkStack(np) => Some(np) case ForkVm(np) => Some(np)
    case ForkParent(np) => Some(np) case ForkAcq2(np) => Some(np) case ForkRun(np) => Some(np)
    case _ => None
  }

  /** In the critical section, other than just after being switched to. */
  predicate Inside(pc: Pc) {
    Holds(pc) && !Resumes(pc) && pc != ZombieExit
  }

  /** The state of a process that is executing. */
  function Shown(pc: Pc): RunState {
    match pc
    case Sched(ThenRelease(_)) => RUNNABLE
    case Sched(Never) => ZOMBIE
    case Sched(_) => SLEEPING
    case _ => RUNNING
  }

  /** The process executing with ptable.lock. */
  function Holder(s: State): Option<nat> {
    if s.lock.By? && s.lock.c < |s.cpus| then s.cpus[s.lock.c].on else None
  }

  predicate CpuHolds(s: State, c: nat)
    requires c < |s.cpus|
  {
    var cpu := s.cpus[c];
    if cpu.on.Some? then cpu.on.value < |s.t| && Holds(s.t[cpu.on.value].pc) else cpu.loop != Start
  }

  predicate CpuOk(s: State, c: nat)
    requires c < |s.cpus|
  {
    var cpu := s.cpus[c];
    && (CpuHolds(s, c) <==> s.lock == By(c))
    && match cpu.on
       case Some(p) =>
         && p < |s.t| && cpu.proc == Some(p) && cpu.loop == Back(p)
         && s.t[p].state == Shown(s.t[p].pc) && s.t[p].pc != ZombieExit
       case None =>
         match cpu.loop
         case Switch(i) => i < |s.t| && cpu.proc == Some(i) && s.t[i].state == RUNNING && Resumes(s.t[i].pc)
         case Back(i) => i < |s.t| && cpu.proc == Some(i) && s.t[i].state != RUNNING
         case _ => cpu.proc == None
  }

  /** No process is on two CPUs. */
  predicate Apart(s: State, c: nat, d: nat)
    requires c < |s.cpus| && d < |s.cpus|
  {
    c != d && s.cpus[c].proc.Some? ==> s.cpus[d].proc != s.cpus[c].proc
  }

  ghost predicate OnSomeCpu(s: State, p: nat) {
    exists c :: 0 <= c < |s.cpus| && s.cpus[c].proc == Some(p)
  }

  /** A process that yields was not holding ptable.lock. */
  predicate Sound(pc: Pc) {
    match pc
    case YieldAcq(k) => !Holds(k) && Sound(k)
    case YieldSet(k) => !Holds(k) && Sound(k)
    case Sched(ThenRelease(k)) => !Holds(k) && Sound(k)
    case Rel(k) => !Holds(k) && Sound(k)
    case _ => true
  }

  /** What the state of a process says about where it is. */
  predicate PlaceOk(s: State, p: nat)
    requires p < |s.t|
  {
    var q := s.t[p];
    && (q.state == RUNNABLE ==> Resumes(q.pc) || Shown(q.pc) == RUNNABLE)
    && (q.state == SLEEPING ==> q.pc.SleepTidy? || q.pc == WaitTidy || Shown(q.pc) == SLEEPING)
    && (q.state == ZOMBIE ==> q.pc == ZombieExit || q.pc == Sched(Never))
    && (q.state == UNUSED || q.state == EMBRYO ==> q.pc == User || q.pc == ZombieExit || q.pc == Rel(User))
    && (Inside(q.pc) ==> Holder(s) == Some(p))
    && Sound(q.pc)
  }

  predicate StackOk(s: State, p: nat)
    requires p < |s.t|
  {
    var q := s.t[p];
    && (Alive(q) ==> q.kstack) && (q.state == UNUSED ==> !q.kstack)
    && (q.state == ZOMBIE && !q.kstack ==>
          Holder(s).Some? && Holder(s).value < |s.t| && s.t[Holder(s).value].pc == WaitReap(p))
  }

  predicate PidOk(s: State, p: nat)
    requires p < |s.t| && s.init < |s.t|
  {
    var q := s.t[p];
    && (q.state != UNUSED ==> q.pid < s.nextpid && (p != s.init ==> s.t[s.init].pid < q.pid))
    && (p == s.init ==> Alive(q) && q.parent == None && Base(q.pc) != ExitAcq && !q.pc.ExitWake? && !q.pc.ExitPass? && !q.pc.ExitZombie?)
  }

  /** A parent is alive and older; a process that lives, or is dead but not yet waited for, has one. */
  predicate ParentOk(s: State, p: nat)
    requires p < |s.t|
  {
    var q := s.t[p];
    && (q.parent.Some? ==> q.parent.value < |s.t| && Alive(s.t[q.parent.value]) && s.t[q.parent.value].pid < q.pid)
    && (Alive(q) || q.state == ZOMBIE ==> p == s.init || q.parent.Some?)
    && (q.state == UNUSED ==> q.parent == None)
  }

  /** The entry that process p is making in fork. */
  predicate MakingOk(s: State, p: nat)
    requires p < |s.t|
  {
    Making(s.t[p].pc).Some? ==>
      var np := Making(s.t[p].pc).value;
      && Alive(s.t[p]) && np < |s.t| && np != p && np != s.init && s.t[np].state == EMBRYO && s.t[p].pid < s.t[np].pid
      && match Base(s.t[p].pc)
         case ForkRel(_) => s.t[np].parent == None && !s.t[np].kstack
         case ForkStack(_) => s.t[np].parent == None && !s.t[np].kstack
         case ForkVm(_) => s.t[np].parent == None && s.t[np].kstack && s.t[np].pc == Rel(User)
         case ForkParent(_) => s.t[np].parent == None && s.t[np].kstack && s.t[np].pc == Rel(User)
         case _ => s.t[np].parent == Some(p) && s.t[np].kstack && s.t[np].pc == Rel(User)
  }

  /** Asleep in wait. */
  predicate InWait(q: Proc) {
    q.state == SLEEPING && (q.pc == WaitTidy || q.pc == Sched(ThenWait))
  }

  predicate ChanOk(s: State, p: nat)
    requires p < |s.t|
  {
    var q := s.t[p];
    match q.pc
    case WaitState => q.chan == OnProc(p)
    case WaitTidy => q.chan == OnProc(p)
    case Sched(ThenWait) => q.chan == OnProc(p)
    case SleepState(n) => q.chan == Other(n)
    case SleepTidy(n) => q.chan == Other(n)
    case Sched(ThenTidy(n)) => q.chan == Other(n)
    case _ => q.chan == NoChan
  }

  /** Two processes do not make the same entry. */
  predicate MakersApart(s: State, p: nat, q: nat)
    requires p < |s.t| && q < |s.t|
  {
    p != q && Making(s.t[p].pc).Some? ==> Making(s.t[q].pc) != Making(s.t[p].pc)
  }

  /** A parent is not asleep in wait when its child is a zombie. */
  predicate ZombieSeen(s: State, p: nat, q: nat)
    requires p < |s.t| && q < |s.t|
  {
    ZombieChild(s.t[q], p) ==> !InWait(s.t[p])
  }

  /** What p is about to do with ptable.lock held fits with q. */
  predicate WindowOk(s: State, p: nat, q: nat)
    requires p < |s.t| && q < |s.t|
  {
    match s.t[p].pc
    case WaitFree(z) => z < |s.t| && ZombieChild(s.t[z], p)
    case WaitReap(z) => z < |s.t| && ZombieChild(s.t[z], p) && !s.t[z].kstack
    case WaitChan => !ZombieChild(s.t[q], p)
    case WaitState => !ZombieChild(s.t[q], p)
    case Sched(ThenWait) => !ZombieChild(s.t[q], p)
    case ExitPass => s.t[p].parent == Some(q) ==> !InWait(s.t[q])
    case ExitZombie => (s.t[p].parent == Some(q) ==> !InWait(s.t[q])) && s.t[q].parent != Some(p)
    case _ => true
  }

  predicate PairOk(s: State, p: nat, q: nat)
    requires p < |s.t| && q < |s.t|
  {
    MakersApart(s, p, q) && ZombieSeen(s, p, q) && WindowOk(s, p, q)
  }

  predicate ProcOk(s: State, p: nat)
    requires p < |s.t| && s.init < |s.t|
  {
    PlaceOk(s, p) && StackOk(s, p) && PidOk(s, p) && ParentOk(s, p) && MakingOk(s, p) && ChanOk(s, p)
  }

  ghost predicate Inv(s: State) {
    && s.init < |s.t|
    && (forall c :: 0 <= c < |s.cpus| ==> CpuOk(s, c))
    && (forall c, d :: 0 <= c < |s.cpus| && 0 <= d < |s.cpus| ==> Apart(s, c, d))
    && (forall p :: 0 <= p < |s.t| ==> ProcOk(s, p) && (s.t[p].state == RUNNING ==> OnSomeCpu(s, p)))
    && (forall p, q :: 0 <= p < |s.t| && 0 <= q < |s.t| ==> PairOk(s, p, q))
  }

  // ---- one statement of process p on CPU c

  /** Woken, killed or passed on to init: what a walk over the table by process p, at me, does to an entry. */
  predicate Touched(a: Proc, b: Proc, me: Proc, p: nat, init: nat) {
    && b == a.(state := b.state, killed := b.killed, parent := b.parent)
    && (b.state == a.state || (a.state == SLEEPING && b.state == RUNNABLE))
    && b.parent == (if me.pc.ExitPass? && a.parent == Some(p) then Some(init) else a.parent)
    && (b.killed == a.killed || (me.pc.KillScan? && b.killed && b.state != SLEEPING))
    && (me.pc.ExitWake? && me.parent.Some? && a.chan == OnProc(me.parent.value) ==> b.state != SLEEPING)
  }

  /** The statements that may touch every process. */
  predicate Reaches(pc: Pc) {
    pc.ExitWake? || pc.ExitPass? || pc.KillScan? || pc.WakeScan?
  }

  /** What a statement of p on CPU c does to another process q. */
  predicate OtherEffect(s: State, s': State, c: nat, p: nat, q: nat)
    requires p < |s.t| && q < |s.t| == |s'.t|
  {
    var a, b, pc := s.t[q], s'.t[q], s.t[p].pc;
    || (b == a && pc != WaitReap(q))
    || (s.lock == By(c) && Reaches(pc) && Touched(a, b, s.t[p], p, s.init))
    || (s.lock == By(c) && pc == WaitFree(q) && b == a.(kstack := false))
    || (s.lock == By(c) && pc == WaitReap(q) && b == a.(pid := 0, parent := None, killed := false, state := UNUSED))
    || (s.lock == By(c) && pc == ForkFind && s'.t[p].pc == ForkRel(q) && a.state == UNUSED && b == a.(state := EMBRYO, pid := s.nextpid))
    || (pc == ForkStack(q) && (b == a.(kstack := true, pc := Rel(User)) || b == a.(state := UNUSED)))
    || (pc == ForkVm(q) && b == a.(kstack := false, state := UNUSED))
    || (pc == ForkParent(q) && b == a.(parent := Some(p)))
    || (s.lock == By(c) && pc == ForkRun(q) && b == a.(state := RUNNABLE))
  }

  /** What it does to the rest of the state. */
  predicate Frame(s: State, s': State, c: nat, p: nat)
    requires c < |s.cpus| && p < |s.t|
  {
    var pc := s.t[p].pc;
    && |s'.t| == |s.t| && s'.init == s.init
    && s'.nextpid == s.nextpid + (if pc == ForkFind && s'.t[p].pc.ForkRel? then 1 else 0)
    && s'.lock == (if Acquires(pc) then By(c) else if pc.Rel? || pc.ForkRel? then Free else s.lock)
    && s'.cpus == if pc.Sched? then s.cpus[c := s.cpus[c].(on := None)] else s.cpus
  }

  /** Process p executes on CPU c. */
  predicate Runs(s: State, c: nat, p: nat) {
    && c < |s.cpus| && p < |s.t| && s.cpus[c].on == Some(p) && (Holds(s.t[p].pc) <==> s.lock == By(c))
    && s.t[p].pc != User && s.t[p].pc != ZombieExit && (Acquires(s.t[p].pc) ==> s.lock == Free)
  }

  lemma ExecuteFrame(s: State, c: nat, p: nat, lucky: bool)
    requires Runs(s, c, p)
    ensures Frame(s, Execute(s, c, p, lucky), c, p)
  {
  }

  lemma ExecuteEffect(s: State, c: nat, p: nat, lucky: bool, q: nat)
    requires Runs(s, c, p) && q < |s.t| && q != p
    ensures |Execute(s, c, p, lucky).t| == |s.t| && OtherEffect(s, Execute(s, c, p, lucky), c, p, q)
  {
    if Reaches(s.t[p].pc) {
      ReachEffect(s, c, p, lucky, q);
    }
  }

  lemma ReachEffect(s: State, c: nat, p: nat, lucky: bool, q: nat)
    requires Runs(s, c, p) && q < |s.t| && q != p && Reaches(s.t[p].pc)
    ensures |Execute(s, c, p, lucky).t| == |s.t| && Touched(s.t[q], Execute(s, c, p, lucky).t[q], s.t[p], p, s.init)
  {
  }

  /** What the entry that p works on is. */
  predicate TargetOk(s: State, p: nat)
    requires p < |s.t| && s.init < |s.t|
  {
    && MakingOk(s, p) && Alive(s.t[s.init]) && s.t[s.init].parent == None
    && (s.t[p].pc.WaitFree? ==> s.t[p].pc.z < |s.t| && ZombieChild(s.t[s.t[p].pc.z], p))
    && (s.t[p].pc.WaitReap? ==> s.t[p].pc.z < |s.t| && ZombieChild(s.t[s.t[p].pc.z], p) && !s.t[s.t[p].pc.z].kstack)
  }

  // ---- the rest of the system: from s to s' process p on CPU c makes one statement

  predicate Moves(s: State, s': State, c: nat, p: nat) {
    && s.init < |s.t| && Runs(s, c, p) && CpuOk(s, c) && TargetOk(s, p) && Frame(s, s', c, p)
  }

  /** The process that CPU d is concerned with. */
  function Concern(cpu: Cpu): Option<nat> {
    if cpu.on.Some? then cpu.on else if cpu.loop.Switch? || cpu.loop.Back? then Some(cpu.loop.i) else None
  }

  lemma OtherCpu(s: State, s': State, c: nat, p: nat, d: nat)
    requires Moves(s, s', c, p) && d < |s.cpus| && d != c && CpuOk(s, d) && Apart(s, d, c)
    requires Concern(s.cpus[d]).Some? ==>
      Concern(s.cpus[d]).value < |s.t| && OtherEffect(s, s', c, p, Concern(s.cpus[d]).value)
    ensures CpuOk(s', d)
  {
  }

  lemma OtherPlace(s: State, s': State, c: nat, p: nat, q: nat)
    requires Moves(s, s', c, p) && q < |s.t| && q != p && OtherEffect(s, s', c, p, q) && PlaceOk(s, q)
    ensures PlaceOk(s', q)
  {
  }

  lemma OtherStack(s: State, s': State, c: nat, p: nat, q: nat)
    requires Moves(s, s', c, p) && q < |s.t| && q != p && OtherEffect(s, s', c, p, q) && StackOk(s, q)
    requires Holder(s).Some? && Holder(s).value != p ==>
      && Holder(s).value < |s.t| && OtherEffect(s, s', c, p, Holder(s).value) && s.t[Holder(s).value].state != EMBRYO
    requires s.t[p].pc.WaitFree? ==> s'.t[p].pc == WaitReap(s.t[p].pc.z)
    ensures StackOk(s', q)
  {
  }

  lemma OtherPid(s: State, s': State, c: nat, p: nat, q: nat)
    requires Moves(s, s', c, p) && q < |s.t| && q != p && OtherEffect(s, s', c, p, q) && PidOk(s, q) && PidOk(s, s.init)
    requires s'.t[s.init].pid == s.t[s.init].pid < s.nextpid
    ensures PidOk(s', q)
  {
  }

  /** What a statement of p does to p itself. */
  predicate SelfEffect(s: State, s': State, p: nat)
    requires p < |s.t| == |s'.t|
  {
    var a, b := s.t[p], s'.t[p];
    && b.pid == a.pid && b.kstack == a.kstack && b.parent == a.parent
    && b.state == Shown(b.pc) && (b.state == ZOMBIE <==> a.pc.ExitZombie?)
  }

  lemma ExecuteSelf(s: State, c: nat, p: nat, lucky: bool)
    requires s.init < |s.t| && Runs(s, c, p) && CpuOk(s, c) && TargetOk(s, p) && ParentOk(s, p)
    requires !s.t[p].pc.Sched? && Sound(s.t[p].pc)
    ensures var s' := Execute(s, c, p, lucky); |s'.t| == |s.t| && SelfEffect(s, s', p)
  {
    if s.t[p].pc.Rel? {
    } else if Reaches(s.t[p].pc) {
      ReachSelf(s, c, p, lucky);
    } else if Making(s.t[p].pc).Some? {
      MakerSelf(s, c, p, lucky);
    }
  }

  lemma ReachSelf(s: State, c: nat, p: nat, lucky: bool)
    requires s.init < |s.t| && Runs(s, c, p) && CpuOk(s, c) && ParentOk(s, p) && Reaches(s.t[p].pc)
    ensures var s' := Execute(s, c, p, lucky); |s'.t| == |s.t| && SelfEffect(s, s', p)
  {
  }

  lemma MakerSelf(s: State, c: nat, p: nat, lucky: bool)
    requires s.init < |s.t| && Runs(s, c, p) && CpuOk(s, c) && TargetOk(s, p) && Making(s.t[p].pc).Some?
    requires !s.t[p].pc.Sched? && !s.t[p].pc.Rel?
    ensures var s' := Execute(s, c, p, lucky); |s'.t| == |s.t| && SelfEffect(s, s', p)
  {
  }

  lemma OtherParent(s: State, s': State, c: nat, p: nat, q: nat)
    requires Moves(s, s', c, p) && q < |s.t| && q != p && OtherEffect(s, s', c, p, q) && ParentOk(s, q) && PidOk(s, q)
    requires s'.t[p].pid == s.t[p].pid && (s.t[p].pc == ExitZombie ==> s.t[q].parent != Some(p))
    requires s.t[p].pc != ExitZombie && Alive(s.t[p]) ==> Alive(s'.t[p])
    requires s.t[q].parent.Some? ==>
      s.t[q].parent.value < |s.t| && (s.t[q].parent.value != p ==> OtherEffect(s, s', c, p, s.t[q].parent.value))
    requires Alive(s'.t[s.init]) && s'.t[s.init].pid == s.t[s.init].pid
    ensures ParentOk(s', q)
  {
    if s'.t[q].parent == s.t[q].parent && s.t[q].parent.Some? {
      SameParent(s, s', c, p, q);
    } else {
      NewParent(s, s', c, p, q);
    }
  }

  lemma NewParent(s: State, s': State, c: nat, p: nat, q: nat)
    requires Moves(s, s', c, p) && q < |s.t| && q != p && OtherEffect(s, s', c, p, q) && ParentOk(s, q) && PidOk(s, q)
    requires s'.t[p].pid == s.t[p].pid && (s.t[p].pc != ExitZombie && Alive(s.t[p]) ==> Alive(s'.t[p]))
    requires s'.t[q].parent != s.t[q].parent || s.t[q].parent.None?
    requires Alive(s'.t[s.init]) && s'.t[s.init].pid == s.t[s.init].pid
    ensures ParentOk(s', q) == true
  {
  }

  lemma SameParent(s: State, s': State, c: nat, p: nat, q: nat)
    requires Moves(s, s', c, p) && q < |s.t| && q != p && OtherEffect(s, s', c, p, q) && ParentOk(s, q)
    requires s'.t[p].pid == s.t[p].pid && (s.t[p].pc == ExitZombie ==> s.t[q].parent != Some(p))
    requires s.t[p].pc != ExitZombie && Alive(s.t[p]) ==> Alive(s'.t[p])
    requires s'.t[q].parent == s.t[q].parent && s.t[q].parent.Some?
    requires s.t[q].parent.value != p ==> OtherEffect(s, s', c, p, s.t[q].parent.value)
    ensures var r := s.t[q].parent.value; r < |s'.t| && Alive(s'.t[r]) && s'.t[r].pid < s'.t[q].pid
  {
  }

  lemma OtherMaking(s: State, s': State, c: nat, p: nat, q: nat)
    requires Moves(s, s', c, p) && q < |s.t| && q != p && OtherEffect(s, s', c, p, q) && MakingOk(s, q)
    requires Making(s.t[q].pc).Some? ==>
      && Making(s.t[p].pc) != Making(s.t[q].pc) && Making(s.t[q].pc).value < |s.t|
      && Making(s.t[q].pc).value != p && OtherEffect(s, s', c, p, Making(s.t[q].pc).value)
    ensures MakingOk(s', q)
  {
    if Making(s.t[q].pc).Some? {
      EmbryoKept(s, s', c, p, Making(s.t[q].pc).value);
    }
  }

  /** Nobody but its maker touches an embryo. */
  lemma EmbryoKept(s: State, s': State, c: nat, p: nat, np: nat)
    requires Moves(s, s', c, p) && np < |s.t| && np != p && OtherEffect(s, s', c, p, np)
    requires s.t[np].state == EMBRYO && s.t[np].parent != Some(p) && Making(s.t[p].pc) != Some(np)
    ensures s'.t[np] == s.t[np] || (s'.t[np].(chan := s.t[np].chan, killed := s.t[np].killed) == s.t[np])
  {
  }

  lemma OtherChan(s: State, s': State, c: nat, p: nat, q: nat)
    requires Moves(s, s', c, p) && q < |s.t| && q != p && OtherEffect(s, s', c, p, q) && ChanOk(s, q) && PlaceOk(s, q)
    ensures ChanOk(s', q)
  {
  }

  lemma SelfControl(s: State, p: nat, lucky: bool)
    requires p < |s.t| && Sound(s.t[p].pc) && s.t[p].pc != User && s.t[p].pc != ZombieExit
    ensures var pc, pc' := s.t[p].pc, NextPc(s, p, lucky);
      && Sound(pc')
      && (pc.Sched? ==> Resumes(pc') || pc' == ZombieExit)
      && (!pc.Sched? ==> (Holds(pc') <==> Acquires(pc) || (Holds(pc) && !pc.Rel? && !pc.ForkRel?)) && pc' != ZombieExit)
  {
  }

  // ---- the actor itself

  /** From s to s' process p on CPU c makes one statement, seen from p. */
  predicate SelfMoves(s: State, s': State, c: nat, p: nat, lucky: bool) {
    && s.init < |s.t| && Runs(s, c, p) && CpuOk(s, c) && Frame(s, s', c, p) && Sound(s.t[p].pc)
    && s'.t[p].pc == NextPc(s, p, lucky)
    && if s.t[p].pc.Sched? then s'.t[p] == s.t[p].(pc := s'.t[p].pc) else SelfEffect(s, s', p)
  }

  lemma SelfCpu(s: State, s': State, c: nat, p: nat, lucky: bool)
    requires SelfMoves(s, s', c, p, lucky)
    ensures CpuOk(s', c)
  {
    SelfControl(s, p, lucky);
  }

  lemma SelfPlace(s: State, s': State, c: nat, p: nat, lucky: bool)
    requires SelfMoves(s, s', c, p, lucky)
    ensures PlaceOk(s', p)
  {
    SelfControl(s, p, lucky);
  }

  lemma SelfStack(s: State, s': State, c: nat, p: nat, lucky: bool)
    requires SelfMoves(s, s', c, p, lucky) && StackOk(s, p)
    ensures StackOk(s', p)
  {
  }

  lemma SelfPid(s: State, s': State, c: nat, p: nat, lucky: bool)
    requires SelfMoves(s, s', c, p, lucky) && PidOk(s, p) && s'.t[s.init].pid == s.t[s.init].pid
    ensures PidOk(s', p)
  {
  }

  lemma SelfParent(s: State, s': State, c: nat, p: nat, lucky: bool)
    requires SelfMoves(s, s', c, p, lucky) && ParentOk(s, p) && TargetOk(s, p)
    requires s.t[p].parent.Some? ==> OtherEffect(s, s', c, p, s.t[p].parent.value)
    ensures ParentOk(s', p)
  {
  }

  lemma SelfChan(s: State, c: nat, p: nat, lucky: bool)
    requires Runs(s, c, p) && CpuOk(s, c) && ChanOk(s, p) && Sound(s.t[p].pc)
    ensures var s' := Execute(s, c, p, lucky); |s'.t| == |s.t| && ChanOk(s', p)
  {
    if Reaches(s.t[p].pc) {
      ReachChan(s, c, p, lucky);
    }
  }

  lemma ReachChan(s: State, c: nat, p: nat, lucky: bool)
    requires Runs(s, c, p) && CpuOk(s, c) && ChanOk(s, p) && Reaches(s.t[p].pc)
    ensures var s' := Execute(s, c, p, lucky); |s'.t| == |s.t| && ChanOk(s', p)
  {
  }

  lemma SelfMaking(s: State, c: nat, p: nat, lucky: bool)
    requires s.init < |s.t| && Runs(s, c, p) && CpuOk(s, c) && TargetOk(s, p) && PidOk(s, p) && Sound(s.t[p].pc)
    requires FindUnused(s.t, 0) < |s.t| ==> ParentOk(s, FindUnused(s.t, 0)) && StackOk(s, FindUnused(s.t, 0))
    ensures var s' := Execute(s, c, p, lucky); |s'.t| == |s.t| && s'.init < |s.t| && MakingOk(s', p)
  {
    if s.t[p].pc == ForkFind {
      FoundMaking(s, c, p, lucky);
    } else if Forks(s.t[p].pc) {
      ForkMaking(s, c, p, lucky);
    } else if Making(s.t[p].pc).Some? {
      PausedMaking(s, c, p, lucky);
    } else {
      NotMaking(s, p, lucky);
    }
  }

  predicate Forks(pc: Pc) {
    pc.ForkRel? || pc.ForkStack? || pc.ForkVm? || pc.ForkParent? || pc.ForkAcq2? || pc.ForkRun?
  }

  lemma ForkMaking(s: State, c: nat, p: nat, lucky: bool)
    requires s.init < |s.t| && Runs(s, c, p) && CpuOk(s, c) && TargetOk(s, p) && Forks(s.t[p].pc)
    ensures var s' := Execute(s, c, p, lucky); |s'.t| == |s.t| && s'.init < |s.t| && MakingOk(s', p)
  {
    if s.t[p].pc.ForkRel? || s.t[p].pc.ForkStack? || s.t[p].pc.ForkVm? {
      EarlyMaking(s, c, p, lucky);
    } else {
      LateMaking(s, c, p, lucky);
    }
  }

  lemma EarlyMaking(s: State, c: nat, p: nat, lucky: bool)
    requires s.init < |s.t| && Runs(s, c, p) && CpuOk(s, c) && TargetOk(s, p)
    requires s.t[p].pc.ForkRel? || s.t[p].pc.ForkStack? || s.t[p].pc.ForkVm?
    ensures var s' := Execute(s, c, p, lucky); |s'.t| == |s.t| && s'.init < |s.t| && MakingOk(s', p) == true
  {
  }

  lemma LateMaking(s: State, c: nat, p: nat, lucky: bool)
    requires s.init < |s.t| && Runs(s, c, p) && CpuOk(s, c) && TargetOk(s, p)
    requires s.t[p].pc.ForkParent? || s.t[p].pc.ForkAcq2? || s.t[p].pc.ForkRun?
    ensures var s' := Execute(s, c, p, lucky); |s'.t| == |s.t| && s'.init < |s.t| && MakingOk(s', p) == true
  {
  }

  /** A process preempted in fork. */
  lemma PausedMaking(s: State, c: nat, p: nat, lucky: bool)
    requires s.init < |s.t| && Runs(s, c, p) && CpuOk(s, c) && TargetOk(s, p) && !Forks(s.t[p].pc)
    requires Making(s.t[p].pc).Some?
    ensures var s' := Execute(s, c, p, lucky); |s'.t| == |s.t| && s'.init < |s.t| && MakingOk(s', p)
  {
    assert Base(NextPc(s, p, lucky)) == Base(s.t[p].pc);
  }

  lemma NotMaking(s: State, p: nat, lucky: bool)
    requires p < |s.t| && Making(s.t[p].pc).None? && s.t[p].pc != ForkFind
    ensures Making(NextPc(s, p, lucky)).None?
  {
  }

  lemma FoundMaking(s: State, c: nat, p: nat, lucky: bool)
    requires s.init < |s.t| && Runs(s, c, p) && CpuOk(s, c) && TargetOk(s, p) && PidOk(s, p) && s.t[p].pc == ForkFind
    requires FindUnused(s.t, 0) < |s.t| ==> ParentOk(s, FindUnused(s.t, 0)) && StackOk(s, FindUnused(s.t, 0))
    ensures var s' := Execute(s, c, p, lucky); |s'.t| == |s.t| && s'.init < |s.t| && MakingOk(s', p)
  {
  }

  // ---- pairs

  lemma OtherMakers(s: State, s': State, c: nat, p: nat, q: nat, r: nat)
    requires Moves(s, s', c, p) && q < |s.t| && r < |s.t| && q != p && r != p && MakersApart(s, q, r)
    requires OtherEffect(s, s', c, p, q) && OtherEffect(s, s', c, p, r)
    ensures MakersApart(s', q, r)
  {
  }

  lemma OtherZombie(s: State, s': State, c: nat, p: nat, q: nat, r: nat)
    requires Moves(s, s', c, p) && q < |s.t| && r < |s.t| && q != p && r != p && ZombieSeen(s, q, r)
    requires OtherEffect(s, s', c, p, q) && OtherEffect(s, s', c, p, r)
    requires s.t[p].pc == ExitPass && ZombieChild(s.t[r], p) && q == s.init ==> !InWait(s'.t[q])
    ensures ZombieSeen(s', q, r)
  {
  }

  lemma OtherWindow(s: State, s': State, c: nat, p: nat, q: nat, r: nat)
    requires Moves(s, s', c, p) && q < |s.t| && r < |s.t| && q != p && WindowOk(s, q, r)
    requires OtherEffect(s, s', c, p, q) && PlaceOk(s, q) && s'.t[p].parent == s.t[p].parent
    requires if r == p then s'.t[p].state == ZOMBIE ==> s.t[p].state == ZOMBIE || s.lock == By(c) else OtherEffect(s, s', c, p, r)
    requires InWait(s'.t[p]) ==> InWait(s.t[p]) || s.lock == By(c)
    requires s.t[q].pc.WaitFree? || s.t[q].pc.WaitReap? ==>
      s.t[q].pc.z < |s.t| && (s.t[q].pc.z != p ==> OtherEffect(s, s', c, p, s.t[q].pc.z))
    requires s.t[p].state == ZOMBIE ==> s.lock == By(c)
    ensures WindowOk(s', q, r)
  {
    if s.t[q].pc.WaitFree? || s.t[q].pc.WaitReap? {
      OtherReaper(s, s', c, p, q, r);
    } else if r == p {
      WaiterOverMover(s, s', c, p, q);
    } else {
      OtherWaiter(s, s', c, p, q, r);
    }
  }

  lemma OtherReaper(s: State, s': State, c: nat, p: nat, q: nat, r: nat)
    requires Moves(s, s', c, p) && q < |s.t| && r < |s.t| && q != p && WindowOk(s, q, r)
    requires OtherEffect(s, s', c, p, q) && PlaceOk(s, q) && s'.t[p].parent == s.t[p].parent
    requires if r == p then s'.t[p].state == ZOMBIE ==> s.t[p].state == ZOMBIE || s.lock == By(c) else OtherEffect(s, s', c, p, r)
    requires InWait(s'.t[p]) ==> InWait(s.t[p]) || s.lock == By(c)
    requires s.t[q].pc.WaitFree? || s.t[q].pc.WaitReap?
    requires s.t[q].pc.z < |s.t| && (s.t[q].pc.z != p ==> OtherEffect(s, s', c, p, s.t[q].pc.z))
    requires s.t[p].state == ZOMBIE ==> s.lock == By(c)
    ensures WindowOk(s', q, r) == true
  {
  }

  /** In wait, with ptable.lock held. */
  predicate GoesToWait(pc: Pc) {
    pc == WaitChan || pc == WaitState || pc == Sched(ThenWait)
  }

  predicate GoesToExit(pc: Pc) {
    pc == ExitPass || pc == ExitZombie
  }

  lemma OtherWaiter(s: State, s': State, c: nat, p: nat, q: nat, r: nat)
    requires Moves(s, s', c, p) && q < |s.t| && r < |s.t| && q != p && WindowOk(s, q, r)
    requires OtherEffect(s, s', c, p, q) && PlaceOk(s, q) && s'.t[p].parent == s.t[p].parent
    requires r != p && OtherEffect(s, s', c, p, r)
    requires !s.t[q].pc.WaitFree? && !s.t[q].pc.WaitReap?
    ensures WindowOk(s', q, r) == true
  {
    if GoesToWait(s.t[q].pc) {
      WaiterSeesOther(s, s', c, p, q, r);
    } else if GoesToExit(s.t[q].pc) {
      LeaverSeesOther(s, s', c, p, q, r);
    } else {
      NobodyWatches(s, s', c, p, q, r);
    }
  }

  lemma WaiterSeesOther(s: State, s': State, c: nat, p: nat, q: nat, r: nat)
    requires Moves(s, s', c, p) && q < |s.t| && r < |s.t| && q != p && WindowOk(s, q, r)
    requires OtherEffect(s, s', c, p, q) && PlaceOk(s, q) && s'.t[p].parent == s.t[p].parent
    requires r != p && OtherEffect(s, s', c, p, r)
    requires GoesToWait(s.t[q].pc)
    ensures WindowOk(s', q, r) == true
  {
  }

  lemma LeaverSeesOther(s: State, s': State, c: nat, p: nat, q: nat, r: nat)
    requires Moves(s, s', c, p) && q < |s.t| && r < |s.t| && q != p && WindowOk(s, q, r)
    requires OtherEffect(s, s', c, p, q) && PlaceOk(s, q) && s'.t[p].parent == s.t[p].parent
    requires r != p && OtherEffect(s, s', c, p, r)
    requires GoesToExit(s.t[q].pc)
    ensures WindowOk(s', q, r) == true
  {
  }

  lemma NobodyWatches(s: State, s': State, c: nat, p: nat, q: nat, r: nat)
    requires Moves(s, s', c, p) && q < |s.t| && r < |s.t| && q != p && OtherEffect(s, s', c, p, q)
    requires !GoesToWait(s.t[q].pc) && !GoesToExit(s.t[q].pc) && !s.t[q].pc.WaitFree? && !s.t[q].pc.WaitReap?
    ensures WindowOk(s', q, r) == true
  {
  }

  lemma WaiterOverMover(s: State, s': State, c: nat, p: nat, q: nat)
    requires Moves(s, s', c, p) && q < |s.t| && q != p && WindowOk(s, q, p)
    requires OtherEffect(s, s', c, p, q) && PlaceOk(s, q) && s'.t[p].parent == s.t[p].parent
    requires s'.t[p].state == ZOMBIE ==> s.t[p].state == ZOMBIE || s.lock == By(c)
    requires InWait(s'.t[p]) ==> InWait(s.t[p]) || s.lock == By(c)
    requires !s.t[q].pc.WaitFree? && !s.t[q].pc.WaitReap?
    ensures WindowOk(s', q, p) == true
  {
    if GoesToWait(s.t[q].pc) {
      WaiterSeesMover(s, s', c, p, q);
    } else if GoesToExit(s.t[q].pc) {
      LeaverSeesMover(s, s', c, p, q);
    } else {
      NobodyWatches(s, s', c, p, q, p);
    }
  }

  lemma WaiterSeesMover(s: State, s': State, c: nat, p: nat, q: nat)
    requires Moves(s, s', c, p) && q < |s.t| && q != p && WindowOk(s, q, p)
    requires OtherEffect(s, s', c, p, q) && PlaceOk(s, q) && s'.t[p].parent == s.t[p].parent
    requires s'.t[p].state == ZOMBIE ==> s.t[p].state == ZOMBIE || s.lock == By(c)
    requires GoesToWait(s.t[q].pc)
    ensures WindowOk(s', q, p) == true
  {
  }

  lemma LeaverSeesMover(s: State, s': State, c: nat, p: nat, q: nat)
    requires Moves(s, s', c, p) && q < |s.t| && q != p && WindowOk(s, q, p)
    requires OtherEffect(s, s', c, p, q) && PlaceOk(s, q) && s'.t[p].parent == s.t[p].parent
    requires InWait(s'.t[p]) ==> InWait(s.t[p]) || s.lock == By(c)
    requires GoesToExit(s.t[q].pc)
    ensures WindowOk(s', q, p) == true
  {
  }

  /** Passing a zombie on to init wakes it. */
  lemma PassWakes(s: State, c: nat, p: nat, lucky: bool, r: nat)
    requires s.init < |s.t| && Runs(s, c, p) && s.t[p].pc == ExitPass && r < |s.t| && ZombieChild(s.t[r], p)
    requires ChanOk(s, s.init) && s.init != p
    ensures !InWait(Execute(s, c, p, lucky).t[s.init])
  {
  }

  lemma MakingStays(s: State, p: nat, lucky: bool)
    requires p < |s.t|
    ensures var m := Making(NextPc(s, p, lucky));
      m == None || m == Making(s.t[p].pc) || (s.t[p].pc == ForkFind && m == Some(FindUnused(s.t, 0)) && FindUnused(s.t, 0) < |s.t|)
  {
  }

  lemma SelfMakers(s: State, s': State, c: nat, p: nat, lucky: bool, r: nat)
    requires SelfMoves(s, s', c, p, lucky) && r < |s.t| && r != p && OtherEffect(s, s', c, p, r)
    requires MakersApart(s, p, r) && MakersApart(s, r, p) && MakingOk(s, r)
    ensures MakersApart(s', p, r) && MakersApart(s', r, p)
  {
    MakingStays(s, p, lucky);
  }

  lemma SelfZombie(s: State, s': State, c: nat, p: nat, lucky: bool, r: nat)
    requires SelfMoves(s, s', c, p, lucky) && TargetOk(s, p) && r < |s.t| && ZombieSeen(s, p, r) && WindowOk(s, p, r)
    requires r != p ==> OtherEffect(s, s', c, p, r)
    ensures ZombieSeen(s', p, r)
  {
    WaitComes(s, p, lucky);
  }

  lemma WaitComes(s: State, p: nat, lucky: bool)
    requires p < |s.t| && Sound(s.t[p].pc)
    ensures NextPc(s, p, lucky) == WaitTidy || NextPc(s, p, lucky) == Sched(ThenWait) ==>
      s.t[p].pc == WaitState || s.t[p].pc == Sched(ThenWait) || s.t[p].pc == WaitTidy
  {
  }

  lemma ZombieSelf(s: State, s': State, c: nat, p: nat, lucky: bool, q: nat)
    requires SelfMoves(s, s', c, p, lucky) && q < |s.t| && q != p && OtherEffect(s, s', c, p, q)
    requires ZombieSeen(s, q, p) && WindowOk(s, p, q)
    ensures ZombieSeen(s', q, p)
  {
  }

  lemma SelfWindow(s: State, c: nat, p: nat, lucky: bool, r: nat)
    requires s.init < |s.t| && Runs(s, c, p) && CpuOk(s, c) && TargetOk(s, p) && Sound(s.t[p].pc) && r < |s.t|
    requires ParentOk(s, p) && ChanOk(s, r) && WindowOk(s, p, r) && PidOk(s, p)
    ensures WindowOk(Execute(s, c, p, lucky), p, r)
  {
    if Reaches(s.t[p].pc) {
      ReachWindow(s, c, p, lucky, r);
    }
  }

  lemma ReachWindow(s: State, c: nat, p: nat, lucky: bool, r: nat)
    requires s.init < |s.t| && Runs(s, c, p) && CpuOk(s, c) && TargetOk(s, p) && r < |s.t| && Reaches(s.t[p].pc)
    requires ParentOk(s, p) && ChanOk(s, r) && WindowOk(s, p, r) && PidOk(s, p)
    ensures WindowOk(Execute(s, c, p, lucky), p, r)
  {
    if s.t[p].pc.ExitWake? {
      WakeWindow(s, c, p, lucky, r);
    } else if s.t[p].pc.ExitPass? {
      PassWindow(s, c, p, lucky, r);
    }
  }

  lemma WakeWindow(s: State, c: nat, p: nat, lucky: bool, r: nat)
    requires s.init < |s.t| && Runs(s, c, p) && r < |s.t| && s.t[p].pc.ExitWake? && ParentOk(s, p) && ChanOk(s, r)
    ensures WindowOk(Execute(s, c, p, lucky), p, r)
  {
  }

  lemma PassWindow(s: State, c: nat, p: nat, lucky: bool, r: nat)
    requires s.init < |s.t| && Runs(s, c, p) && CpuOk(s, c) && r < |s.t| && s.t[p].pc.ExitPass?
    requires ParentOk(s, p) && ChanOk(s, r) && WindowOk(s, p, r) && PidOk(s, p)
    ensures WindowOk(Execute(s, c, p, lucky), p, r)
  {
  }

  // ---- the other steps

  /** Process p, on CPU c and without the lock, turns to pc: a call, or an interruption. */
  predicate Turns(s: State, c: nat, p: nat, pc: Pc) {
    && s.init < |s.t| && c < |s.cpus| && p < |s.t| && s.cpus[c].on == Some(p) && CpuOk(s, c)
    && !Holds(s.t[p].pc) && !Holds(pc) && Sound(pc)
    && (pc == YieldAcq(s.t[p].pc) || (s.t[p].pc == User && Making(pc).None? && (p == s.init ==> Base(pc) != ExitAcq)))
  }

  lemma TurnProc(s: State, c: nat, p: nat, pc: Pc, q: nat)
    requires Turns(s, c, p, pc) && q < |s.t| && ProcOk(s, q)
    ensures ProcOk(At(s, p, pc), q)
  {
    TurnPlace(s, c, p, pc, q);
    TurnFamily(s, c, p, pc, q);
  }

  lemma TurnFamily(s: State, c: nat, p: nat, pc: Pc, q: nat)
    requires Turns(s, c, p, pc) && q < |s.t| && PidOk(s, q) && ParentOk(s, q) && MakingOk(s, q)
    ensures PidOk(At(s, p, pc), q) && ParentOk(At(s, p, pc), q) && MakingOk(At(s, p, pc), q)
  {
  }

  lemma TurnPlace(s: State, c: nat, p: nat, pc: Pc, q: nat)
    requires Turns(s, c, p, pc) && q < |s.t| && PlaceOk(s, q) && StackOk(s, q) && ChanOk(s, q)
    ensures PlaceOk(At(s, p, pc), q) && StackOk(At(s, p, pc), q) && ChanOk(At(s, p, pc), q)
  {
  }

  lemma TurnCpu(s: State, c: nat, p: nat, pc: Pc, d: nat)
    requires Turns(s, c, p, pc) && d < |s.cpus| && CpuOk(s, d) && Apart(s, d, c)
    ensures CpuOk(At(s, p, pc), d)
  {
  }

  lemma TurnPair(s: State, c: nat, p: nat, pc: Pc, q: nat, r: nat)
    requires Turns(s, c, p, pc) && q < |s.t| && r < |s.t| && PairOk(s, q, r)
    ensures PairOk(At(s, p, pc), q, r)
  {
  }

  /** CPU c executes scheduler(). */
  predicate Schedules(s: State, c: nat) {
    s.init < |s.t| && c < |s.cpus| && s.cpus[c].on.None? && CpuOk(s, c) && (s.cpus[c].loop == Start ==> s.lock == Free)
  }

  lemma ScheduleProc(s: State, c: nat, q: nat)
    requires Schedules(s, c) && q < |s.t| && ProcOk(s, q)
    requires Holder(s).Some? ==> Holder(s).value < |s.t|
    ensures ProcOk(Schedule(s, c), q)
  {
    SchedulePlace(s, c, q);
    ScheduleParent(s, c, q);
  }

  lemma ScheduleParent(s: State, c: nat, q: nat)
    requires Schedules(s, c) && q < |s.t| && PidOk(s, q) && ParentOk(s, q) && MakingOk(s, q)
    ensures PidOk(Schedule(s, c), q) && ParentOk(Schedule(s, c), q) && MakingOk(Schedule(s, c), q)
  {
  }

  lemma SchedulePlace(s: State, c: nat, q: nat)
    requires Schedules(s, c) && q < |s.t| && PlaceOk(s, q) && StackOk(s, q) && ChanOk(s, q)
    requires Holder(s).Some? ==> Holder(s).value < |s.t|
    ensures PlaceOk(Schedule(s, c), q) && StackOk(Schedule(s, c), q) && ChanOk(Schedule(s, c), q)
  {
  }

  lemma ScheduleCpu(s: State, c: nat, d: nat)
    requires Schedules(s, c) && d < |s.cpus| && CpuOk(s, d) && Apart(s, d, c)
    requires s.cpus[c].loop.Scan? && s.cpus[c].loop.i < |s.t| ==> PlaceOk(s, s.cpus[c].loop.i)
    ensures CpuOk(Schedule(s, c), d)
  {
  }

  lemma SchedulePair(s: State, c: nat, q: nat, r: nat)
    requires Schedules(s, c) && q < |s.t| && r < |s.t| && PairOk(s, q, r)
    ensures PairOk(Schedule(s, c), q, r)
  {
  }

  /** A CPU that picks a process is the only one that has it. */
  lemma ScheduleApart(s: State, c: nat, d: nat, e: nat)
    requires Schedules(s, c) && d < |s.cpus| && e < |s.cpus| && CpuOk(s, d) && CpuOk(s, e) && Apart(s, d, e)
    ensures Apart(Schedule(s, c), d, e)
  {
  }

  lemma ScheduleRunning(s: State, c: nat, q: nat)
    requires Schedules(s, c) && q < |s.t| && (s.t[q].state == RUNNING ==> OnSomeCpu(s, q))
    ensures var s' := Schedule(s, c); s'.t[q].state == RUNNING ==> OnSomeCpu(s', q)
  {
    var s' := Schedule(s, c);
    if s.t[q].state == RUNNING {
      var d :| 0 <= d < |s.cpus| && s.cpus[d].proc == Some(q);
      assert s'.cpus[d].proc == Some(q);
    } else if s'.t[q].state == RUNNING {
      assert s'.cpus[c].proc == Some(q);
    }
  }

  // ---- every step keeps the invariant

  lemma ScheduleKeepsInv(s: State, c: nat)
    requires Inv(s) && Schedules(s, c) == true
    ensures Inv(Schedule(s, c))
  {
    var s' := Schedule(s, c);
    if s.lock.By? && s.lock.c < |s.cpus| {
      assert CpuOk(s, s.lock.c);
    }
    forall d | 0 <= d < |s'.cpus| ensures CpuOk(s', d) {
      ScheduleCpu(s, c, d);
    }
    forall d, e | 0 <= d < |s'.cpus| && 0 <= e < |s'.cpus| ensures Apart(s', d, e) {
      ScheduleApart(s, c, d, e);
    }
    forall q | 0 <= q < |s'.t| ensures ProcOk(s', q) && (s'.t[q].state == RUNNING ==> OnSomeCpu(s', q)) {
      ScheduleProc(s, c, q);
      ScheduleRunning(s, c, q);
    }
    SchedulePairs(s, c);
  }

  lemma SchedulePairs(s: State, c: nat)
    requires Inv(s) && Schedules(s, c) == true
    ensures var s' := Schedule(s, c); forall q, r :: 0 <= q < |s'.t| && 0 <= r < |s'.t| ==> PairOk(s', q, r)
  {
    var s' := Schedule(s, c);
    forall q, r | 0 <= q < |s'.t| && 0 <= r < |s'.t| ensures PairOk(s', q, r) {
      SchedulePair(s, c, q, r);
    }
  }

  lemma TurnKeepsInv(s: State, c: nat, p: nat, pc: Pc)
    requires Inv(s) && Turns(s, c, p, pc) == true
    ensures Inv(At(s, p, pc))
  {
    var s' := At(s, p, pc);
    forall d | 0 <= d < |s'.cpus| ensures CpuOk(s', d) {
      TurnCpu(s, c, p, pc, d);
    }
    forall d, e | 0 <= d < |s'.cpus| && 0 <= e < |s'.cpus| ensures Apart(s', d, e) {
      assert Apart(s, d, e);
    }
    forall q | 0 <= q < |s'.t| ensures ProcOk(s', q) && (s'.t[q].state == RUNNING ==> OnSomeCpu(s', q)) {
      TurnProc(s, c, p, pc, q);
      if s.t[q].state == RUNNING {
        var d :| 0 <= d < |s.cpus| && s.cpus[d].proc == Some(q);
        assert s'.cpus[d].proc == Some(q);
      }
    }
    forall q, r | 0 <= q < |s'.t| && 0 <= r < |s'.t| ensures PairOk(s', q, r) {
      TurnPair(s, c, p, pc, q, r);
    }
  }

  lemma ExecuteKeepsCpus(s: State, c: nat, p: nat, lucky: bool, s': State)
    requires Inv(s) && Runs(s, c, p)
    requires Moves(s, s', c, p) == true && SelfMoves(s, s', c, p, lucky) == true
    requires forall q :: 0 <= q < |s.t| && q != p ==> OtherEffect(s, s', c, p, q) == true
    ensures forall d :: 0 <= d < |s'.cpus| ==> CpuOk(s', d)
    ensures forall d, e :: 0 <= d < |s'.cpus| && 0 <= e < |s'.cpus| ==> Apart(s', d, e)
  {
    SelfCpu(s, s', c, p, lucky);
    forall d | 0 <= d < |s'.cpus| && d != c ensures CpuOk(s', d) {
      assert CpuOk(s, d) && Apart(s, d, c);
      OtherCpu(s, s', c, p, d);
    }
    forall d, e | 0 <= d < |s'.cpus| && 0 <= e < |s'.cpus| ensures Apart(s', d, e) {
      assert Apart(s, d, e);
      MovesKeepsApart(s, s', c, p, d, e);
    }
  }

  lemma MovesKeepsApart(s: State, s': State, c: nat, p: nat, d: nat, e: nat)
    requires Moves(s, s', c, p) && d < |s.cpus| && e < |s.cpus| && Apart(s, d, e)
    ensures |s'.cpus| == |s.cpus| && Apart(s', d, e) == true
  {
  }

  /** From s to s' process p on CPU c makes one statement. */
  ghost predicate Steps(s: State, s': State, c: nat, p: nat, lucky: bool) {
    && Moves(s, s', c, p) && SelfMoves(s, s', c, p, lucky)
    && forall q :: 0 <= q < |s.t| && q != p ==> OtherEffect(s, s', c, p, q)
  }

  lemma ExecuteKeepsPlace(s: State, s': State, c: nat, p: nat, lucky: bool, q: nat)
    requires Inv(s) && Steps(s, s', c, p, lucky) == true && q < |s.t| && q != p
    ensures PlaceOk(s', q)
  {
    assert ProcOk(s, q);
    OtherPlace(s, s', c, p, q);
  }

  lemma ExecuteKeepsStack(s: State, s': State, c: nat, p: nat, lucky: bool, q: nat)
    requires Inv(s) && Steps(s, s', c, p, lucky) == true && q < |s.t| && q != p
    ensures StackOk(s', q)
  {
    assert StackOk(s, q) by {
      assert ProcOk(s, q);
    }
    if Holder(s).Some? {
      HolderRuns(s);
    }
    StepsStack(s, s', c, p, lucky, q);
  }

  lemma HolderRuns(s: State)
    requires Inv(s) && Holder(s).Some?
    ensures Holder(s).value < |s.t| && s.t[Holder(s).value].state != EMBRYO
  {
    assert CpuOk(s, s.lock.c);
  }

  lemma StepsStack(s: State, s': State, c: nat, p: nat, lucky: bool, q: nat)
    requires Steps(s, s', c, p, lucky) && q < |s.t| && q != p && StackOk(s, q)
    requires Holder(s).Some? ==> Holder(s).value < |s.t| && s.t[Holder(s).value].state != EMBRYO
    ensures StackOk(s', q)
  {
    assert OtherEffect(s, s', c, p, q);
    if Holder(s).Some? && Holder(s).value != p {
      assert OtherEffect(s, s', c, p, Holder(s).value);
    }
    OtherStack(s, s', c, p, q);
  }

  lemma InitStays(s: State, s': State, c: nat, p: nat, lucky: bool)
    requires Moves(s, s', c, p) && SelfMoves(s, s', c, p, lucky) && PidOk(s, s.init)
    requires s.init != p ==> OtherEffect(s, s', c, p, s.init)
    ensures Alive(s'.t[s.init]) && s'.t[s.init].pid == s.t[s.init].pid
    ensures s'.t[p].pid == s.t[p].pid && (s.t[p].pc != ExitZombie && Alive(s.t[p]) ==> Alive(s'.t[p]))
  {
  }

  lemma ExecuteKeepsPid(s: State, s': State, c: nat, p: nat, lucky: bool, q: nat)
    requires Inv(s) && Steps(s, s', c, p, lucky) == true && q < |s.t| && q != p
    ensures PidOk(s', q)
  {
    assert ProcOk(s, q) && ProcOk(s, s.init);
    InitStays(s, s', c, p, lucky);
    OtherPid(s, s', c, p, q);
  }

  lemma ExecuteKeepsParent(s: State, s': State, c: nat, p: nat, lucky: bool, q: nat)
    requires Inv(s) && Steps(s, s', c, p, lucky) == true && q < |s.t| && q != p
    ensures ParentOk(s', q)
  {
    assert ProcOk(s, q) && ProcOk(s, s.init) && PairOk(s, p, q);
    InitStays(s, s', c, p, lucky);
    OtherParent(s, s', c, p, q);
  }

  lemma ExecuteKeepsMaking(s: State, s': State, c: nat, p: nat, lucky: bool, q: nat)
    requires Inv(s) && Steps(s, s', c, p, lucky) == true && q < |s.t| && q != p
    ensures MakingOk(s', q)
  {
    assert ProcOk(s, q) && PairOk(s, q, p);
    OtherMaking(s, s', c, p, q);
  }

  lemma ExecuteKeepsOther(s: State, s': State, c: nat, p: nat, lucky: bool, q: nat)
    requires Inv(s) && Steps(s, s', c, p, lucky) == true && q < |s.t| && q != p
    ensures ProcOk(s', q)
  {
    ExecuteKeepsPlace(s, s', c, p, lucky, q);
    ExecuteKeepsStack(s, s', c, p, lucky, q);
    ExecuteKeepsPid(s, s', c, p, lucky, q);
    ExecuteKeepsParent(s, s', c, p, lucky, q);
    ExecuteKeepsMaking(s, s', c, p, lucky, q);
    assert ProcOk(s, q);
    OtherChan(s, s', c, p, q);
  }

  lemma ExecuteKeepsSelf(s: State, s': State, c: nat, p: nat, lucky: bool)
    requires Inv(s) && Steps(s, s', c, p, lucky) == true && s' == Execute(s, c, p, lucky)
    ensures ProcOk(s', p)
  {
    assert ProcOk(s, p);
    SelfPlace(s, s', c, p, lucky);
    ExecuteKeepsOwnPids(s, s', c, p, lucky);
    SelfChan(s, c, p, lucky);
    ExecuteKeepsOwnMaking(s, c, p, lucky);
  }

  lemma ExecuteKeepsOwnPids(s: State, s': State, c: nat, p: nat, lucky: bool)
    requires Inv(s) && Steps(s, s', c, p, lucky) == true
    ensures StackOk(s', p) && PidOk(s', p) && ParentOk(s', p)
  {
    assert ProcOk(s, p) && ProcOk(s, s.init);
    InitStays(s, s', c, p, lucky);
    SelfStack(s, s', c, p, lucky);
    SelfPid(s, s', c, p, lucky);
    SelfParent(s, s', c, p, lucky);
  }

  lemma ExecuteKeepsOwnMaking(s: State, c: nat, p: nat, lucky: bool)
    requires Inv(s) && Runs(s, c, p) && TargetOk(s, p)
    ensures |Execute(s, c, p, lucky).t| == |s.t| && MakingOk(Execute(s, c, p, lucky), p)
  {
    assert ProcOk(s, p) && CpuOk(s, c);
    if FindUnused(s.t, 0) < |s.t| {
      assert ProcOk(s, FindUnused(s.t, 0));
    }
    SelfMaking(s, c, p, lucky);
  }

  lemma ExecuteKeepsOwnPair(s: State, s': State, c: nat, p: nat, lucky: bool, r: nat)
    requires Inv(s) && Steps(s, s', c, p, lucky) == true && s' == Execute(s, c, p, lucky) && r < |s.t|
    ensures PairOk(s', p, r)
  {
    assert PairOk(s, p, r) && PairOk(s, r, p) && ProcOk(s, r) && ProcOk(s, p);
    SelfWindow(s, c, p, lucky, r);
    SelfZombie(s, s', c, p, lucky, r);
    if r != p {
      SelfMakers(s, s', c, p, lucky, r);
    }
  }

  lemma SelfFacts(s: State, s': State, c: nat, p: nat, lucky: bool)
    requires SelfMoves(s, s', c, p, lucky)
    ensures s'.t[p].parent == s.t[p].parent
    ensures s'.t[p].state == ZOMBIE ==> s.t[p].state == ZOMBIE || s.lock == By(c)
    ensures InWait(s'.t[p]) ==> InWait(s.t[p]) || s.lock == By(c)
    ensures s.t[p].state == ZOMBIE ==> s.lock == By(c)
  {
  }

  lemma ExecuteKeepsWindow(s: State, s': State, c: nat, p: nat, lucky: bool, q: nat, r: nat)
    requires Inv(s) && Steps(s, s', c, p, lucky) == true && q < |s.t| && r < |s.t| && q != p
    ensures WindowOk(s', q, r)
  {
    assert WindowOk(s, q, r) by {
      assert PairOk(s, q, r);
    }
    assert PlaceOk(s, q) by {
      assert ProcOk(s, q);
    }
    StepsWindow(s, s', c, p, lucky, q, r);
  }

  lemma StepsWindow(s: State, s': State, c: nat, p: nat, lucky: bool, q: nat, r: nat)
    requires Steps(s, s', c, p, lucky) && q < |s.t| && r < |s.t| && q != p && WindowOk(s, q, r) && PlaceOk(s, q)
    ensures WindowOk(s', q, r)
  {
    SelfFacts(s, s', c, p, lucky);
    assert OtherEffect(s, s', c, p, q);
    if r != p {
      assert OtherEffect(s, s', c, p, r);
    }
    OtherWindow(s, s', c, p, q, r);
  }

  lemma ExecuteKeepsPairWithSelf(s: State, s': State, c: nat, p: nat, lucky: bool, q: nat)
    requires Inv(s) && Steps(s, s', c, p, lucky) == true && q < |s.t| && q != p
    ensures PairOk(s', q, p)
  {
    assert PairOk(s, q, p) && PairOk(s, p, q) && ProcOk(s, q);
    ExecuteKeepsWindow(s, s', c, p, lucky, q, p);
    SelfMakers(s, s', c, p, lucky, q);
    ZombieSelf(s, s', c, p, lucky, q);
  }

  lemma ExecuteKeepsOtherPair(s: State, s': State, c: nat, p: nat, lucky: bool, q: nat, r: nat)
    requires Inv(s) && Steps(s, s', c, p, lucky) == true && s' == Execute(s, c, p, lucky)
    requires q < |s.t| && r < |s.t| && q != p && r != p
    ensures PairOk(s', q, r)
  {
    assert PairOk(s, q, r);
    ExecuteKeepsWindow(s, s', c, p, lucky, q, r);
    OtherMakers(s, s', c, p, q, r);
    if s.t[p].pc == ExitPass && ZombieChild(s.t[r], p) {
      assert ProcOk(s, s.init);
      PassWakes(s, c, p, lucky, r);
    }
    OtherZombie(s, s', c, p, q, r);
  }

  lemma ExecuteSteps(s: State, c: nat, p: nat, lucky: bool)
    requires Inv(s) && Runs(s, c, p)
    ensures Steps(s, Execute(s, c, p, lucky), c, p, lucky)
  {
    var s' := Execute(s, c, p, lucky);
    assert CpuOk(s, c) && ProcOk(s, p) && ProcOk(s, s.init) && PairOk(s, p, p);
    ExecuteFrame(s, c, p, lucky);
    if !s.t[p].pc.Sched? {
      ExecuteSelf(s, c, p, lucky);
    }
    forall q | 0 <= q < |s.t| && q != p ensures OtherEffect(s, s', c, p, q) {
      ExecuteEffect(s, c, p, lucky, q);
    }
  }

  lemma NotMadeToRun(s: State, s': State, c: nat, p: nat, q: nat)
    requires Moves(s, s', c, p) && q < |s.t| && OtherEffect(s, s', c, p, q) && s'.t[q].state == RUNNING
    ensures s.t[q].state == RUNNING
  {
  }

  lemma ExecuteKeepsRunning(s: State, s': State, c: nat, p: nat, lucky: bool, q: nat)
    requires Inv(s) && Steps(s, s', c, p, lucky) == true && q < |s.t| && s'.t[q].state == RUNNING
    ensures OnSomeCpu(s', q)
  {
    if q == p {
      assert s'.cpus[c].proc == Some(p);
    } else {
      NotMadeToRun(s, s', c, p, q);
      var d :| 0 <= d < |s.cpus| && s.cpus[d].proc == Some(q);
      assert s'.cpus[d].proc == Some(q);
    }
  }

  lemma ExecuteKeepsProcs(s: State, s': State, c: nat, p: nat, lucky: bool)
    requires Inv(s) && Steps(s, s', c, p, lucky) == true && s' == Execute(s, c, p, lucky)
    ensures forall q :: 0 <= q < |s'.t| ==> ProcOk(s', q) && (s'.t[q].state == RUNNING ==> OnSomeCpu(s', q))
  {
    forall q | 0 <= q < |s'.t| ensures ProcOk(s', q) && (s'.t[q].state == RUNNING ==> OnSomeCpu(s', q)) {
      if q == p {
        ExecuteKeepsSelf(s, s', c, p, lucky);
      } else {
        ExecuteKeepsOther(s, s', c, p, lucky, q);
      }
      if s'.t[q].state == RUNNING {
        ExecuteKeepsRunning(s, s', c, p, lucky, q);
      }
    }
  }

  lemma ExecuteKeepsPairs(s: State, s': State, c: nat, p: nat, lucky: bool)
    requires Inv(s) && Steps(s, s', c, p, lucky) == true && s' == Execute(s, c, p, lucky)
    ensures forall q, r :: 0 <= q < |s'.t| && 0 <= r < |s'.t| ==> PairOk(s', q, r)
  {
    forall q, r | 0 <= q < |s'.t| && 0 <= r < |s'.t| ensures PairOk(s', q, r) {
      if q == p {
        ExecuteKeepsOwnPair(s, s', c, p, lucky, r);
      } else if r == p {
        ExecuteKeepsPairWithSelf(s, s', c, p, lucky, q);
      } else {
        ExecuteKeepsOtherPair(s, s', c, p, lucky, q, r);
      }
    }
  }

  lemma ExecuteKeepsInv(s: State, c: nat, p: nat, lucky: bool)
    requires Inv(s) && Runs(s, c, p)
    ensures Inv(Execute(s, c, p, lucky))
  {
    var s' := Execute(s, c, p, lucky);
    ExecuteSteps(s, c, p, lucky);
    ExecuteKeepsCpus(s, c, p, lucky, s');
    ExecuteKeepsProcs(s, s', c, p, lucky);
    ExecuteKeepsPairs(s, s', c, p, lucky);
  }

  lemma CallKeepsInv(s: State, c: nat, op: Pc)
    requires Inv(s) && Enabled(s, Call(c, op))
    ensures Inv(Next(s, Call(c, op)))
  {
    assert CpuOk(s, c);
    TurnKeepsInv(s, c, s.cpus[c].on.value, op);
  }

  lemma PreemptKeepsInv(s: State, c: nat)
    requires Inv(s) && Enabled(s, Preempt(c))
    ensures Inv(Next(s, Preempt(c)))
  {
    var p := s.cpus[c].on.value;
    assert CpuOk(s, c) && ProcOk(s, p);
    TurnKeepsInv(s, c, p, YieldAcq(s.t[p].pc));
  }

  lemma StepKeepsInv(s: State, step: Step)
    requires Inv(s) && Enabled(s, step)
    ensures Inv(Next(s, step))
  {
    match step
    case Go(c, lucky) =>
      assert CpuOk(s, c);
      if s.cpus[c].on.Some? {
        ExecuteKeepsInv(s, c, s.cpus[c].on.value, lucky);
      } else {
        ScheduleKeepsInv(s, c);
      }
    case Call(c, op) => CallKeepsInv(s, c, op);
    case Preempt(c) => PreemptKeepsInv(s, c);
  }

  // ---- every run

  /** The state after a schedule; a step that is not possible when its turn comes is skipped. */
  function After(s0: State, schedule: seq<Step>): State {
    if schedule == [] then s0
    else
      var s, step := After(s0, schedule[..|schedule| - 1]), schedule[|schedule| - 1];
      if Enabled(s, step) then Next(s, step) else s
  }

  lemma {:induction false} InvHolds(s0: State, schedule: seq<Step>)
    requires Init(s0)
    ensures Inv(After(s0, schedule))
  {
    if schedule != [] {
      var s, step := After(s0, schedule[..|schedule| - 1]), schedule[|schedule| - 1];
      InvHolds(s0, schedule[..|schedule| - 1]);
      if Enabled(s, step) {
        StepKeepsInv(s, step);
      }
    }
  }

  // ---- scheduler safety

  /** No process is on two CPUs; while ptable.lock is free a process is RUNNING exactly when a CPU's c->proc
      points to it, and that CPU executes it. */
  lemma RunningIsOnOneCpu(s0: State, schedule: seq<Step>, p: nat)
    requires Init(s0) && p < |After(s0, schedule).t|
    ensures var s := After(s0, schedule);
      && (forall c, d :: 0 <= c < |s.cpus| && 0 <= d < |s.cpus| && s.cpus[c].proc == s.cpus[d].proc == Some(p) ==> c == d)
      && (s.lock == Free ==>
            (s.t[p].state == RUNNING <==> exists c :: 0 <= c < |s.cpus| && s.cpus[c].proc == Some(p) && s.cpus[c].on == Some(p)))
  {
    InvHolds(s0, schedule);
    var s := After(s0, schedule);
    assert ProcOk(s, p);
    forall c, d | 0 <= c < |s.cpus| && 0 <= d < |s.cpus| && s.cpus[c].proc == s.cpus[d].proc == Some(p) ensures c == d {
      assert Apart(s, c, d);
    }
    if s.t[p].state == RUNNING {
      var c :| 0 <= c < |s.cpus| && s.cpus[c].proc == Some(p);
      assert CpuOk(s, c);
    }
    forall c | 0 <= c < |s.cpus| && s.lock == Free && s.cpus[c].on == Some(p) ensures s.t[p].state == RUNNING {
      assert CpuOk(s, c);
    }
  }

  /** The kernel stack a CPU executes on is never freed under it, and a zombie never runs again. */
  lemma StackIsNotFreedUnderCpu(s0: State, schedule: seq<Step>, c: nat, p: nat)
    requires Init(s0)
    requires var s := After(s0, schedule); c < |s.cpus| && s.cpus[c].on == Some(p)
    ensures var s := After(s0, schedule); p < |s.t| && s.t[p].kstack && s.t[p].pc != ZombieExit
  {
    InvHolds(s0, schedule);
    var s := After(s0, schedule);
    assert CpuOk(s, c) && ProcOk(s, p);
    if s.lock.By? && s.lock.c < |s.cpus| {
      assert CpuOk(s, s.lock.c);
    }
  }

  // ---- exit and wait

  /** Following parent links from p leads to init, in at most n steps. */
  predicate LeadsToInit(t: Table, init: nat, p: nat, n: nat)
    decreases n
  {
    p == init || (n > 0 && p < |t| && t[p].parent.Some? && LeadsToInit(t, init, t[p].parent.value, n - 1))
  }

  lemma {:induction false} LinksLeadToInit(s: State, p: nat, n: nat)
    requires s.init < |s.t| && p < |s.t| && (Alive(s.t[p]) || s.t[p].state == ZOMBIE)
    requires forall q :: 0 <= q < |s.t| ==> PidOk(s, q) && ParentOk(s, q)
    requires s.t[p].pid <= s.t[s.init].pid + n
    ensures LeadsToInit(s.t, s.init, p, n)
    decreases n
  {
    assert PidOk(s, p) && ParentOk(s, p);
    if p != s.init {
      assert PidOk(s, s.t[p].parent.value);
      LinksLeadToInit(s, s.t[p].parent.value, n - 1);
    }
  }

  /** Every process other than init that lives or waits to be waited for has a parent, which is alive, is
      older, and leads to init in the end; so no process is its own ancestor. */
  lemma EveryProcessHasLivingParent(s0: State, schedule: seq<Step>, p: nat)
    requires Init(s0)
    requires var s := After(s0, schedule); p < |s.t| && p != s.init && (Alive(s.t[p]) || s.t[p].state == ZOMBIE)
    ensures var s := After(s0, schedule);
      && s.t[p].parent.Some? && s.t[p].parent.value < |s.t| && Alive(s.t[s.t[p].parent.value])
      && s.t[s.t[p].parent.value].pid < s.t[p].pid
      && exists n :: LeadsToInit(s.t, s.init, p, n)
  {
    InvHolds(s0, schedule);
    var s := After(s0, schedule);
    assert ProcOk(s, p) && forall q :: 0 <= q < |s.t| ==> ProcOk(s, q);
    LinksLeadToInit(s, p, s.t[p].pid - s.t[s.init].pid);
  }

  /** No process is asleep in wait while one of its children is a zombie. */
  lemma NoZombieUnderSleepingParent(s0: State, schedule: seq<Step>, p: nat, q: nat)
    requires Init(s0)
    requires var s := After(s0, schedule); p < |s.t| && q < |s.t| && s.t[q].parent == Some(p) && s.t[q].state == ZOMBIE
    ensures !InWait(After(s0, schedule).t[p])
  {
    InvHolds(s0, schedule);
    assert PairOk(After(s0, schedule), p, q);
  }

  /** init is never a zombie, so orphans always have someone to wait for them. */
  lemma InitLives(s0: State, schedule: seq<Step>)
    requires Init(s0)
    ensures var s := After(s0, schedule); s.init < |s.t| && Alive(s.t[s.init]) && s.t[s.init].kstack
  {
    InvHolds(s0, schedule);
    assert ProcOk(After(s0, schedule), After(s0, schedule).init);
  }
}
