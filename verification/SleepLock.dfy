/** Sleep locks (sleeplock.c) over sleep and wakeup (proc.c), as a state machine in which every step of
    any process is one lock operation or one field write. Any number of processes use one lock. */
module SleepLock {

  /** Where a process is; the comment names the statement it executes next. */
  datatype Pc =
    | Idle                        // outside, not holding the sleep lock
    | Holding                     // outside, holding it
    // acquiresleep
    | AcqSpin                     // acquire(&lk->lk)
    | AcqTest                     // while(lk->locked)
    | Claim                       // lk->locked = 1
    | ClaimPid                    // lk->pid = myproc()->pid
    | AcqRelease                  // release(&lk->lk)
    // sleep(lk, &lk->lk)
    | SleepPt                     // acquire(&ptable.lock)
    | SleepRelease                // release(lk)
    | SleepChan                   // p->chan = chan
    | SleepState                  // p->state = SLEEPING
    | SleepSched                  // sched(): swtch to the scheduler, which then owns ptable.lock
    | SwitchedOut                 // not running; the scheduler may resume it in sched()
    | WokenChan                   // p->chan = 0, with ptable.lock handed over by the scheduler
    | WokenRelease                // release(&ptable.lock)
    // releasesleep
    | RelSpin                     // acquire(&lk->lk)
    | RelClear                    // lk->locked = 0
    | RelPid                      // lk->pid = 0
    | RelPt                       // wakeup: acquire(&ptable.lock)
    | RelScan(i: nat)             // wakeup1: look at process i
    | RelPtRelease                // release(&ptable.lock)
    | RelRelease                  // release(&lk->lk)
    // holdingsleep; held says whether the caller does hold the lock
    | AskSpin(held: bool)         // acquire(&lk->lk)
    | AskRead(held: bool)         // r = lk->locked && (lk->pid == myproc()->pid)
    | AskRelease(held: bool, r: bool)  // release(&lk->lk); return r
    // kill of process target
    | KillPt(target: nat)         // acquire(&ptable.lock)
    | KillWake(target: nat)       // if(p->state == SLEEPING) p->state = RUNNABLE
    | KillRelease                 // release(&ptable.lock)

  datatype RunState = RUNNING | SLEEPING | RUNNABLE

  datatype Proc = Proc(pc: Pc, state: RunState, onLock: bool)   // onLock: p->chan == lk

  datatype Owner = Free | Scheduler | By(p: nat)

  /** lk: owner of the spin lock lk->lk; pt: owner of ptable.lock. Process p has pid p + 1. */
  datatype State = State(procs: seq<Proc>, lk: Owner, pt: Owner, locked: bool, pid: nat)
  {
    function At(p: nat, pc: Pc): State
      requires p < |procs|
    {
      this.(procs := procs[p := procs[p].(pc := pc)])
    }
    function Put(p: nat, proc: Proc): State
      requires p < |procs|
    {
      this.(procs := procs[p := proc])
    }
  }

  datatype Step =
    | Acquire(p: nat)             // an idle process calls acquiresleep
    | Release(p: nat)             // the holder calls releasesleep
    | Ask(p: nat)                 // an idle process or the holder calls holdingsleep
    | Kill(p: nat, target: nat)   // an idle process calls kill
    | Go(p: nat)                  // process p executes its next statement
    | SchedulerTakes              // acquire(&ptable.lock) in scheduler
    | Dispatch(p: nat)            // p->state = RUNNING; swtch to p, which now owns ptable.lock
    | SchedulerLeaves             // release(&ptable.lock) in scheduler

  function Init(n: nat): State {
    State(seq(n, _ => Proc(Idle, RUNNING, false)), Free, Free, false, 0)
  }

  /** A spin lock is acquired only when it is free; every other statement can always execute. */
  predicate Enabled(s: State, step: Step) {
    match step
    case Acquire(p) => p < |s.procs| && s.procs[p].pc == Idle
    case Release(p) => p < |s.procs| && s.procs[p].pc == Holding
    case Ask(p) => p < |s.procs| && (s.procs[p].pc == Idle || s.procs[p].pc == Holding)
    case Kill(p, target) => p < |s.procs| && s.procs[p].pc == Idle && target < |s.procs|
    case Go(p) =>
      && p < |s.procs|
      && (match s.procs[p].pc
          case Idle => false
          case Holding => false
          case SwitchedOut => false
          case AcqSpin => s.lk == Free
          case RelSpin => s.lk == Free
          case AskSpin(_) => s.lk == Free
          case SleepPt => s.pt == Free
          case RelPt => s.pt == Free
          case KillPt(_) => s.pt == Free
          case _ => true)
    case SchedulerTakes => s.pt == Free
    case Dispatch(p) =>
      p < |s.procs| && s.pt == Scheduler && s.procs[p].pc == SwitchedOut && s.procs[p].state == RUNNABLE
    case SchedulerLeaves => s.pt == Scheduler
  }

  /** One statement of process p. */
  function Execute(s: State, p: nat): State
    requires p < |s.procs|
  {
    var me := s.procs[p];
    match me.pc
    case Idle => s
    case Holding => s
    case AcqSpin => s.At(p, AcqTest).(lk := By(p))
    case AcqTest => s.At(p, if s.locked then SleepPt else Claim)
    case Claim => s.At(p, ClaimPid).(locked := true)
    case ClaimPid => s.At(p, AcqRelease).(pid := p + 1)
    case AcqRelease => s.At(p, Holding).(lk := Free)
    case SleepPt => s.At(p, SleepRelease).(pt := By(p))
    case SleepRelease => s.At(p, SleepChan).(lk := Free)
    case SleepChan => s.Put(p, me.(pc := SleepState, onLock := true))
    case SleepState => s.Put(p, me.(pc := SleepSched, state := SLEEPING))
    case SleepSched => s.At(p, SwitchedOut).(pt := Scheduler)
    case SwitchedOut => s
    case WokenChan => s.Put(p, me.(pc := WokenRelease, onLock := false))
    case WokenRelease => s.At(p, AcqSpin).(pt := Free)
    case RelSpin => s.At(p, RelClear).(lk := By(p))
    case RelClear => s.At(p, RelPid).(locked := false)
    case RelPid => s.At(p, RelPt).(pid := 0)
    case RelPt => s.At(p, RelScan(0)).(pt := By(p))
    case RelScan(i) =>
      if i >= |s.procs| then s.At(p, RelPtRelease)
      else
        var q := s.procs[i];
        var t := if q.state == SLEEPING && q.onLock then s.Put(i, q.(state := RUNNABLE)) else s;
        t.At(p, RelScan(i + 1))
    case RelPtRelease => s.At(p, RelRelease).(pt := Free)
    case RelRelease => s.At(p, Idle).(lk := Free)
    case AskSpin(held) => s.At(p, AskRead(held)).(lk := By(p))
    case AskRead(held) => s.At(p, AskRelease(held, s.locked && s.pid == p + 1))
    case AskRelease(held, _) => s.At(p, if held then Holding else Idle).(lk := Free)
    case KillPt(target) => s.At(p, KillWake(target)).(pt := By(p))
    case KillWake(target) =>
      var t := if target < |s.procs| && s.procs[target].state == SLEEPING
               then s.Put(target, s.procs[target].(state := RUNNABLE)) else s;
      t.At(p, KillRelease)
    case KillRelease => s.At(p, Idle).(pt := Free)
  }

  function Next(s: State, step: Step): State
    requires Enabled(s, step)
  {
    match step
    case Acquire(p) => s.At(p, AcqSpin)
    case Release(p) => s.At(p, RelSpin)
    case Ask(p) => s.At(p, AskSpin(s.procs[p].pc == Holding))
    case Kill(p, target) => s.At(p, KillPt(target))
    case Go(p) => Execute(s, p)
    case SchedulerTakes => s.(pt := Scheduler)
    case Dispatch(p) => s.Put(p, s.procs[p].(pc := WokenChan, state := RUNNING)).(pt := By(p))
    case SchedulerLeaves => s.(pt := Free)
  }

  // ---- what each place in the code implies

  /** Between acquire(&lk->lk) and its release. */
  predicate InLk(pc: Pc) {
    match pc
    case AcqTest => true case Claim => true case ClaimPid => true case AcqRelease => true
    case SleepPt => true case SleepRelease => true
    case RelClear => true case RelPid => true case RelPt => true case RelScan(_) => true
    case RelPtRelease => true case RelRelease => true
    case AskRead(_) => true case AskRelease(_, _) => true
    case _ => false
  }

  /** Between getting ptable.lock and giving it up. */
  predicate InPt(pc: Pc) {
    match pc
    case SleepRelease => true case SleepChan => true case SleepState => true case SleepSched => true
    case WokenChan => true case WokenRelease => true
    case RelScan(_) => true case RelPtRelease => true
    case KillWake(_) => true case KillRelease => true
    case _ => false
  }

  /** Has set locked and not yet cleared it. */
  predicate Owns(pc: Pc) {
    match pc
    case ClaimPid => true case AcqRelease => true case Holding => true
    case RelSpin => true case RelClear => true
    case AskSpin(held) => held case AskRead(held) => held case AskRelease(held, _) => held
    case _ => false
  }

  /** Has cleared locked, and its wakeup has yet to look at process p. */
  predicate WillWake(pc: Pc, p: nat) {
    match pc
    case RelPid => true case RelPt => true
    case RelScan(i) => i <= p
    case _ => false
  }

  /** Committed to sleep: past the test of lk->locked, and not made RUNNABLE since. */
  predicate Sleepy(proc: Proc) {
    match proc.pc
    case SleepPt => true case SleepRelease => true case SleepChan => true case SleepState => true
    case SleepSched => true
    case SwitchedOut => proc.state == SLEEPING
    case _ => false
  }

  predicate LkOk(s: State, p: nat)
    requires p < |s.procs|
  {
    InLk(s.procs[p].pc) <==> s.lk == By(p)
  }

  predicate PtOk(s: State, p: nat)
    requires p < |s.procs|
  {
    InPt(s.procs[p].pc) <==> s.pt == By(p)
  }

  predicate OwnerOk(s: State, p: nat)
    requires p < |s.procs|
  {
    var pc := s.procs[p].pc;
    && (Owns(pc) ==> s.locked && (pc != ClaimPid ==> s.pid == p + 1))
    && (pc == Claim || pc == RelPid ==> !s.locked)
  }

  predicate SleeperOk(proc: Proc) {
    && (proc.state == SLEEPING ==> proc.pc == SleepSched || proc.pc == SwitchedOut)
    && (proc.pc == SleepSched ==> proc.state == SLEEPING)
    && (proc.pc == SwitchedOut ==> proc.state != RUNNING)
    && (proc.pc == SleepState || proc.pc == SleepSched || proc.pc == SwitchedOut ==> proc.onLock)
  }

  /** holdingsleep answers whether its caller holds the lock. */
  predicate AnswerOk(pc: Pc) {
    pc.AskRelease? ==> pc.r == pc.held
  }

  /** What holds of process p by itself, given the shared fields. */
  predicate ProcOk(s: State, p: nat)
    requires p < |s.procs|
  {
    LkOk(s, p) && PtOk(s, p) && OwnerOk(s, p) && SleeperOk(s.procs[p]) && AnswerOk(s.procs[p].pc)
  }

  /** Two processes are never both between setting locked and clearing it. */
  predicate Apart(s: State, p: nat, q: nat)
    requires p < |s.procs| && q < |s.procs|
  {
    p != q ==> !(Owns(s.procs[p].pc) && Owns(s.procs[q].pc))
  }

  /** locked is set only on behalf of a process that will clear it. */
  ghost predicate LockedIsOwned(s: State) {
    s.locked ==> exists p :: 0 <= p < |s.procs| && Owns(s.procs[p].pc)
  }

  /** Some process is bound to look at p in its wakeup. */
  ghost predicate WakeupComing(s: State, p: nat) {
    exists r :: 0 <= r < |s.procs| && WillWake(s.procs[r].pc, p)
  }

  ghost predicate Inv(s: State) {
    && (forall p :: 0 <= p < |s.procs| ==> ProcOk(s, p))
    && (forall p, q :: 0 <= p < |s.procs| && 0 <= q < |s.procs| ==> Apart(s, p, q))
    && LockedIsOwned(s)
    && (forall p :: 0 <= p < |s.procs| && Sleepy(s.procs[p]) ==> s.locked || WakeupComing(s, p))
  }

  // ---- one statement of process p, seen from process q

  lemma ExecuteKeepsLk(s: State, p: nat, q: nat)
    requires p < |s.procs| && q < |s.procs| && Enabled(s, Go(p)) && LkOk(s, p) && LkOk(s, q)
    ensures LkOk(Execute(s, p), q)
  {
  }

  lemma ExecuteKeepsPt(s: State, p: nat, q: nat)
    requires p < |s.procs| && q < |s.procs| && Enabled(s, Go(p)) && PtOk(s, p) && PtOk(s, q)
    ensures PtOk(Execute(s, p), q)
  {
  }

  lemma ExecuteKeepsOwner(s: State, p: nat, q: nat)
    requires p < |s.procs| && q < |s.procs| && Enabled(s, Go(p))
    requires LkOk(s, p) && LkOk(s, q) && OwnerOk(s, p) && OwnerOk(s, q) && Apart(s, p, q)
    ensures OwnerOk(Execute(s, p), q)
  {
  }

  lemma ExecuteKeepsOwnSleep(s: State, p: nat)
    requires p < |s.procs| && Enabled(s, Go(p)) && SleeperOk(s.procs[p])
    ensures SleeperOk(Execute(s, p).procs[p])
  {
  }

  lemma ExecuteKeepsOtherSleep(s: State, p: nat, q: nat)
    requires p < |s.procs| && q < |s.procs| && p != q && Enabled(s, Go(p))
    requires PtOk(s, p) && PtOk(s, q) && SleeperOk(s.procs[q])
    ensures SleeperOk(Execute(s, p).procs[q])
  {
  }

  lemma ExecuteKeepsApart(s: State, p: nat, q: nat, r: nat)
    requires p < |s.procs| && q < |s.procs| && r < |s.procs| && Enabled(s, Go(p))
    requires OwnerOk(s, p) && OwnerOk(s, q) && OwnerOk(s, r) && Apart(s, q, r)
    ensures Apart(Execute(s, p), q, r)
  {
  }

  lemma ExecuteAnswers(s: State, p: nat, q: nat)
    requires Inv(s) && p < |s.procs| && q < |s.procs| && Enabled(s, Go(p))
    ensures AnswerOk(Execute(s, p).procs[q].pc)
  {
    if s.procs[p].pc.AskRead? && s.locked {
      var owner :| 0 <= owner < |s.procs| && Owns(s.procs[owner].pc);
      assert ProcOk(s, owner) && ProcOk(s, p) && Apart(s, owner, p);
    }
    assert ProcOk(s, q);
  }

  lemma ExecuteKeepsOwned(s: State, p: nat)
    requires Inv(s) && p < |s.procs| && Enabled(s, Go(p))
    ensures LockedIsOwned(Execute(s, p))
  {
    var n := Execute(s, p);
    if s.locked {
      var owner :| 0 <= owner < |s.procs| && Owns(s.procs[owner].pc);
      assert ProcOk(s, owner) && ProcOk(s, p) && Apart(s, owner, p);
      assert n.locked ==> Owns(n.procs[owner].pc);
    } else {
      assert n.locked ==> Owns(n.procs[p].pc);
    }
  }

  /** A process that is bound to look at q still is, unless it has just made q RUNNABLE. */
  lemma WakerGoesOn(s: State, p: nat, q: nat, r: nat)
    requires p < |s.procs| && q < |s.procs| && r < |s.procs| && Enabled(s, Go(p))
    requires PtOk(s, p) && PtOk(s, q) && SleeperOk(s.procs[q])
    requires Sleepy(s.procs[q]) && WillWake(s.procs[r].pc, q) && LkOk(s, r) && LkOk(s, q)
    requires Sleepy(Execute(s, p).procs[q])
    ensures WillWake(Execute(s, p).procs[r].pc, q)
  {
  }

  /** A process that goes on being sleepy keeps its waker, and one that becomes sleepy has one. */
  lemma ExecuteKeepsWakeup(s: State, p: nat, q: nat)
    requires Inv(s) && p < |s.procs| && q < |s.procs| && Enabled(s, Go(p))
    requires Sleepy(Execute(s, p).procs[q])
    ensures Execute(s, p).locked || WakeupComing(Execute(s, p), q)
  {
    var n := Execute(s, p);
    assert ProcOk(s, p) && ProcOk(s, q);
    if s.locked {
      assert n.locked || WillWake(n.procs[p].pc, q);
    } else if Sleepy(s.procs[q]) {
      var r :| 0 <= r < |s.procs| && WillWake(s.procs[r].pc, q);
      assert ProcOk(s, r);
      WakerGoesOn(s, p, q, r);
    }
  }

  // ---- all steps

  /** The steps other than Go touch no lock field and no process but their own. */
  lemma OtherStepsKeepProc(s: State, step: Step, q: nat)
    requires Enabled(s, step) && !step.Go? && q < |s.procs| && ProcOk(s, q)
    ensures var n := Next(s, step);
      && ProcOk(n, q) && n.locked == s.locked && (Owns(n.procs[q].pc) <==> Owns(s.procs[q].pc))
      && (Sleepy(n.procs[q]) ==> Sleepy(s.procs[q]))
      && (forall x :: WillWake(s.procs[q].pc, x) ==> WillWake(n.procs[q].pc, x))
  {
  }

  lemma OtherStepsKeepInv(s: State, step: Step)
    requires Inv(s) && Enabled(s, step) && !step.Go?
    ensures Inv(Next(s, step))
  {
    var n := Next(s, step);
    forall q | 0 <= q < |s.procs|
      ensures ProcOk(n, q) && (Owns(n.procs[q].pc) <==> Owns(s.procs[q].pc))
    {
      assert ProcOk(s, q);
      OtherStepsKeepProc(s, step, q);
    }
    forall q, r | 0 <= q < |s.procs| && 0 <= r < |s.procs| ensures Apart(n, q, r) {
      assert Apart(s, q, r);
    }
    forall q | 0 <= q < |s.procs| && Sleepy(n.procs[q]) ensures n.locked || WakeupComing(n, q) {
      assert ProcOk(s, q);
      OtherStepsKeepProc(s, step, q);
      if !s.locked {
        var r :| 0 <= r < |s.procs| && WillWake(s.procs[r].pc, q);
        assert ProcOk(s, r);
        OtherStepsKeepProc(s, step, r);
        assert WillWake(n.procs[r].pc, q);
      }
    }
  }

  lemma StepKeepsInv(s: State, step: Step)
    requires Inv(s) && Enabled(s, step)
    ensures Inv(Next(s, step))
  {
    if step.Go? {
      GoKeepsInv(s, step.p);
    } else {
      OtherStepsKeepInv(s, step);
    }
  }

  lemma GoKeepsInv(s: State, p: nat)
    requires Inv(s) && Enabled(s, Go(p))
    ensures Inv(Execute(s, p))
  {
    var n := Execute(s, p);
    forall q | 0 <= q < |s.procs| ensures ProcOk(n, q) {
      assert ProcOk(s, p) && ProcOk(s, q) && Apart(s, p, q);
      ExecuteKeepsLk(s, p, q);
      ExecuteKeepsPt(s, p, q);
      ExecuteKeepsOwner(s, p, q);
      if p == q {
        ExecuteKeepsOwnSleep(s, p);
      } else {
        ExecuteKeepsOtherSleep(s, p, q);
      }
      ExecuteAnswers(s, p, q);
    }
    forall q, r | 0 <= q < |s.procs| && 0 <= r < |s.procs| ensures Apart(n, q, r) {
      assert ProcOk(s, p) && ProcOk(s, q) && ProcOk(s, r);
      ExecuteKeepsApart(s, p, q, r);
    }
    ExecuteKeepsOwned(s, p);
    forall q | 0 <= q < |s.procs| && Sleepy(n.procs[q]) ensures n.locked || WakeupComing(n, q) {
      ExecuteKeepsWakeup(s, p, q);
    }
  }

  // ---- every run

  /** The state after a schedule; a step that is not possible when its turn comes is skipped. */
  function After(n: nat, schedule: seq<Step>): State {
    if schedule == [] then Init(n)
    else
      var s, step := After(n, schedule[..|schedule| - 1]), schedule[|schedule| - 1];
      if Enabled(s, step) then Next(s, step) else s
  }

  lemma {:induction false} InvHolds(n: nat, schedule: seq<Step>)
    ensures Inv(After(n, schedule))
  {
    if schedule != [] {
      var s, step := After(n, schedule[..|schedule| - 1]), schedule[|schedule| - 1];
      InvHolds(n, schedule[..|schedule| - 1]);
      if Enabled(s, step) {
        StepKeepsInv(s, step);
      }
    }
  }

  /** In every interleaving at most one process holds the lock, and the lock then carries its pid. */
  lemma MutualExclusion(n: nat, schedule: seq<Step>, p: nat, q: nat)
    requires var s := After(n, schedule);
      p < |s.procs| && q < |s.procs| && s.procs[p].pc == Holding && s.procs[q].pc == Holding
    ensures p == q && After(n, schedule).locked && After(n, schedule).pid == p + 1
  {
    InvHolds(n, schedule);
    assert Apart(After(n, schedule), p, q) && ProcOk(After(n, schedule), p);
  }

  /** In every interleaving a process asleep on the lock implies that somebody holds it, or that some
      releasesleep has cleared it and its wakeup has not yet looked at the sleeper. */
  lemma NoLostWakeup(n: nat, schedule: seq<Step>, p: nat)
    requires var s := After(n, schedule); p < |s.procs| && s.procs[p].state == SLEEPING
    ensures var s := After(n, schedule);
      && s.procs[p].onLock
      && ((exists q :: 0 <= q < |s.procs| && Owns(s.procs[q].pc)) || WakeupComing(s, p))
  {
    InvHolds(n, schedule);
    var s := After(n, schedule);
    assert ProcOk(s, p);
    assert Sleepy(s.procs[p]);
  }

  /** In every interleaving holdingsleep answers true exactly to the process that holds the lock. */
  lemma HoldingsleepIsExact(n: nat, schedule: seq<Step>, p: nat)
    requires var s := After(n, schedule); p < |s.procs| && s.procs[p].pc.AskRelease?
    ensures var s := After(n, schedule);
      && s.procs[p].pc.r == s.procs[p].pc.held
      && (s.procs[p].pc.held <==> s.locked && s.pid == p + 1)
  {
    InvHolds(n, schedule);
    var s := After(n, schedule);
    assert ProcOk(s, p);
    if s.locked {
      var owner :| 0 <= owner < |s.procs| && Owns(s.procs[owner].pc);
      assert ProcOk(s, owner);
    }
  }

  // ---- what the calls come to when nobody else moves

  /** The next statement of process p, if it can go on. */
  function One(s: State, p: nat): State {
    if Enabled(s, Go(p)) then Execute(s, p) else s
  }

  /** n statements of process p, one after the other. */
  function Alone(s: State, p: nat, n: nat): State
    decreases n
  {
    if n == 0 then s else Alone(One(s, p), p, n - 1)
  }

  lemma {:induction false} Adds(s: State, p: nat, a: nat, b: nat)
    ensures Alone(s, p, a + b) == Alone(Alone(s, p, a), p, b)
    decreases a
  {
    if a > 0 {
      Adds(One(s, p), p, a - 1, b);
    }
  }

  lemma Tick(s: State, p: nat, n: nat, t: State)
    requires Alone(s, p, n) == t && Enabled(t, Go(p))
    ensures Alone(s, p, n + 1) == Execute(t, p)
  {
    Adds(s, p, n, 1);
    assert Alone(One(t, p), p, 0) == One(t, p);
  }

  /** What process p has become. */
  predicate Stands(s: State, p: nat, n: nat, t: State, q: Proc) {
    p < |s.procs| == |t.procs| && Alone(s, p, n) == t.Put(p, q)
  }

  lemma Moves(s: State, p: nat, n: nat, t: State, q: Proc, u: State, q': Proc)
    requires Stands(s, p, n, t, q) && Enabled(t.Put(p, q), Go(p)) && |u.procs| == |t.procs|
    requires Execute(t.Put(p, q), p) == u.Put(p, q')
    ensures Stands(s, p, n + 1, u, q') == true
  {
    Tick(s, p, n, t.Put(p, q));
  }

  /** acquiresleep of a lock that is free takes it. */
  lemma AcquireTakes(s: State, p: nat)
    requires Enabled(s, Acquire(p)) && s.lk == Free && !s.locked
    ensures Alone(Next(s, Acquire(p)), p, 5) == s.At(p, Holding).(locked := true, pid := p + 1)
  {
    var r, q := Next(s, Acquire(p)), s.procs[p];
    var t := s.(lk := By(p));
    var u := t.(locked := true);
    Moves(r, p, 0, s, q.(pc := AcqSpin), t, q.(pc := AcqTest));
    Moves(r, p, 1, t, q.(pc := AcqTest), t, q.(pc := Claim));
    Moves(r, p, 2, t, q.(pc := Claim), u, q.(pc := ClaimPid));
    Moves(r, p, 3, u, q.(pc := ClaimPid), u.(pid := p + 1), q.(pc := AcqRelease));
    Moves(r, p, 4, u.(pid := p + 1), q.(pc := AcqRelease), u.(pid := p + 1, lk := Free), q.(pc := Holding));
  }

  /** Up to the moment when sleep has given up the spin lock. */
  lemma FindsTaken(s: State, p: nat, r: State)
    requires Enabled(s, Acquire(p)) && s.lk == Free && s.pt == Free && s.locked && r == Next(s, Acquire(p))
    ensures Stands(r, p, 4, s.(pt := By(p)), s.procs[p].(pc := SleepChan)) == true
  {
    var q, t := s.procs[p], s.(lk := By(p));
    var u, v := t.(pt := By(p)), s.(pt := By(p));
    Moves(r, p, 0, s, q.(pc := AcqSpin), t, q.(pc := AcqTest));
    Moves(r, p, 1, t, q.(pc := AcqTest), t, q.(pc := SleepPt));
    Moves(r, p, 2, t, q.(pc := SleepPt), u, q.(pc := SleepRelease));
    Moves(r, p, 3, u, q.(pc := SleepRelease), v, q.(pc := SleepChan));
  }

  /** acquiresleep of a lock that is taken goes to sleep on it, with the spin lock free again. */
  lemma AcquireSleeps(s: State, p: nat)
    requires Enabled(s, Acquire(p)) && s.lk == Free && s.pt == Free && s.locked
    ensures Alone(Next(s, Acquire(p)), p, 7) ==
      s.Put(p, s.procs[p].(pc := SwitchedOut, state := SLEEPING, onLock := true)).(pt := Scheduler)
  {
    var r, q, v := Next(s, Acquire(p)), s.procs[p], s.(pt := By(p));
    FindsTaken(s, p, r);
    Moves(r, p, 4, v, q.(pc := SleepChan), v, q.(pc := SleepState, onLock := true));
    Moves(r, p, 5, v, q.(pc := SleepState, onLock := true), v, q.(pc := SleepSched, onLock := true, state := SLEEPING));
    Moves(r, p, 6, v, q.(pc := SleepSched, onLock := true, state := SLEEPING), v.(pt := Scheduler),
          q.(pc := SwitchedOut, onLock := true, state := SLEEPING));
  }

  /** Who has been woken and is run again tries anew. */
  lemma WokenRetries(s: State, p: nat)
    requires Enabled(s, Dispatch(p))
    ensures Alone(Next(s, Dispatch(p)), p, 2) == s.Put(p, Proc(AcqSpin, RUNNING, false)).(pt := Free)
  {
    var r, q := Next(s, Dispatch(p)), s.procs[p].(pc := WokenChan, state := RUNNING);
    var t := s.(pt := By(p));
    Moves(r, p, 0, t, q, t, Proc(WokenRelease, RUNNING, false));
    Moves(r, p, 1, t, Proc(WokenRelease, RUNNING, false), s.(pt := Free), Proc(AcqSpin, RUNNING, false));
  }

  /** The processes once wakeup has looked at the first i of them. */
  function Seen(procs: seq<Proc>, i: nat): seq<Proc> {
    seq(|procs|, j requires 0 <= j < |procs| =>
      if j < i && procs[j].state == SLEEPING && procs[j].onLock then procs[j].(state := RUNNABLE) else procs[j])
  }

  lemma {:induction false} ScansOn(s: State, p: nat, q: Proc, i: nat)
    requires p < |s.procs| && i <= |s.procs| && s.procs[p].state != SLEEPING && q == s.procs[p].(pc := RelScan(0))
    ensures Stands(s.Put(p, q), p, i, s.(procs := Seen(s.procs, i)), q.(pc := RelScan(i))) == true
    decreases i
  {
    if i == 0 {
      assert Seen(s.procs, 0) == s.procs;
    } else {
      ScansOn(s, p, q, i - 1);
      OneLook(s, p, q, i - 1);
      Looks(s, s.Put(p, q), p, q, i - 1);
    }
  }

  lemma Looks(s: State, r: State, p: nat, q: Proc, i: nat)
    requires p < |s.procs| && i < |s.procs|
    requires var t, u := s.(procs := Seen(s.procs, i)), s.(procs := Seen(s.procs, i + 1));
      Stands(r, p, i, t, q.(pc := RelScan(i))) && Execute(t.Put(p, q.(pc := RelScan(i))), p) == u.Put(p, q.(pc := RelScan(i + 1)))
    ensures Stands(r, p, i + 1, s.(procs := Seen(s.procs, i + 1)), q.(pc := RelScan(i + 1))) == true
  {
    Moves(r, p, i, s.(procs := Seen(s.procs, i)), q.(pc := RelScan(i)), s.(procs := Seen(s.procs, i + 1)), q.(pc := RelScan(i + 1)));
  }

  lemma OneLook(s: State, p: nat, q: Proc, i: nat)
    requires p < |s.procs| && i < |s.procs| && s.procs[p].state != SLEEPING && q == s.procs[p].(pc := RelScan(0))
    ensures var t, u := s.(procs := Seen(s.procs, i)), s.(procs := Seen(s.procs, i + 1));
      Execute(t.Put(p, q.(pc := RelScan(i))), p) == u.Put(p, q.(pc := RelScan(i + 1)))
  {
    var t, u := s.(procs := Seen(s.procs, i)), s.(procs := Seen(s.procs, i + 1));
    assert Execute(t.Put(p, q.(pc := RelScan(i))), p).procs == u.Put(p, q.(pc := RelScan(i + 1))).procs;
  }

  /** The state in which releasesleep has cleared the lock and begins to wake the sleepers. */
  function Held(s: State, p: nat): State {
    s.(lk := By(p), pt := By(p), locked := false, pid := 0)
  }

  lemma Clears(s: State, p: nat, r: State)
    requires Enabled(s, Release(p)) && s.lk == Free && s.pt == Free && r == Next(s, Release(p))
    ensures Stands(r, p, 2, s.(lk := By(p), locked := false), s.procs[p].(pc := RelPid)) == true
  {
    var q, t := s.procs[p], s.(lk := By(p));
    Moves(r, p, 0, s, q.(pc := RelSpin), t, q.(pc := RelClear));
    Moves(r, p, 1, t, q.(pc := RelClear), t.(locked := false), q.(pc := RelPid));
  }

  lemma ReleaseStarts(s: State, p: nat, r: State)
    requires Enabled(s, Release(p)) && s.lk == Free && s.pt == Free && r == Next(s, Release(p))
    ensures Stands(r, p, 4, Held(s, p), s.procs[p].(pc := RelScan(0))) == true
  {
    var q, t := s.procs[p], s.(lk := By(p));
    Clears(s, p, r);
    Moves(r, p, 2, t.(locked := false), q.(pc := RelPid), t.(locked := false, pid := 0), q.(pc := RelPt));
    Moves(r, p, 3, t.(locked := false, pid := 0), q.(pc := RelPt), t.(locked := false, pid := 0, pt := By(p)), q.(pc := RelScan(0)));
  }

  lemma ReleaseEnds(s: State, p: nat, q: Proc)
    requires p < |s.procs| && q.pc == RelScan(|s.procs|)
    ensures Stands(s.Put(p, q), p, 3, s.(lk := Free, pt := Free), q.(pc := Idle)) == true
  {
    var r := s.Put(p, q);
    Moves(r, p, 0, s, q, s, q.(pc := RelPtRelease));
    Moves(r, p, 1, s, q.(pc := RelPtRelease), s.(pt := Free), q.(pc := RelRelease));
    Moves(r, p, 2, s.(pt := Free), q.(pc := RelRelease), s.(lk := Free, pt := Free), q.(pc := Idle));
  }

  /** The walk of wakeup and what follows, from state t. */
  lemma ScanAndEnd(t: State, p: nat, q: Proc, u: State)
    requires p < |t.procs| && t.procs[p].state != SLEEPING && q == t.procs[p].(pc := RelScan(0))
    requires u == t.(procs := Seen(t.procs, |t.procs|))
    ensures Alone(t.Put(p, q), p, |t.procs| + 3) == u.(lk := Free, pt := Free).Put(p, q.(pc := Idle))
  {
    ScansOn(t, p, q, |t.procs|);
    ReleaseEnds(u, p, q.(pc := RelScan(|t.procs|)));
    Adds(t.Put(p, q), p, |t.procs|, 3);
  }

  lemma Awake(s: State, p: nat)
    requires Inv(s) && Enabled(s, Release(p))
    ensures s.procs[p].state != SLEEPING
  {
    assert ProcOk(s, p);
  }

  lemma ReleaseRuns(s: State, p: nat, r: State)
    requires Enabled(s, Release(p)) && s.lk == Free && s.pt == Free && s.procs[p].state != SLEEPING && r == Next(s, Release(p))
    ensures Alone(r, p, 4 + (|s.procs| + 3)) ==
      s.(procs := Seen(s.procs, |s.procs|)[p := s.procs[p].(pc := Idle)], locked := false, pid := 0)
  {
    ReleaseStarts(s, p, r);
    var t, q := Held(s, p), s.procs[p].(pc := RelScan(0));
    ScanAndEnd(t, p, q, t.(procs := Seen(s.procs, |s.procs|)));
    Adds(r, p, 4, |s.procs| + 3);
  }

  /** releasesleep frees the lock and makes runnable all who sleep on it. */
  lemma ReleaseFrees(s: State, p: nat)
    requires Inv(s) && Enabled(s, Release(p)) && s.lk == Free && s.pt == Free
    ensures Alone(Next(s, Release(p)), p, |s.procs| + 7) ==
      s.(procs := Seen(s.procs, |s.procs|)[p := s.procs[p].(pc := Idle)], locked := false, pid := 0)
  {
    Awake(s, p);
    ReleaseRuns(s, p, Next(s, Release(p)));
  }
}
