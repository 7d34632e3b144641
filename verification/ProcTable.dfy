/** The process table of proc.c and the loops that walk it. */
module ProcTable {
  import opened Basics

  datatype RunState = UNUSED | EMBRYO | SLEEPING | RUNNABLE | RUNNING | ZOMBIE

  /** What a process may sleep on: a process, in wait, or something else. */
  datatype Chan = NoChan | OnProc(p: nat) | Other(n: nat)

  /** Where a process is in the kernel; the comment names the statement it executes next. */
  datatype Pc =
    | User                        // nowhere near the process table
    | YieldAcq(k: Pc)             // yield, interrupting k: acquire(&ptable.lock)
    | YieldSet(k: Pc)             // state = RUNNABLE
    | SleepAcq(n: nat)            // sleep(chan, lk): acquire(&ptable.lock); release(lk)
    | SleepChan(n: nat)           // p->chan = chan
    | SleepState(n: nat)          // p->state = SLEEPING
    | SleepTidy(n: nat)           // p->chan = 0
    | Sched(next: After)          // sched(): swtch to this CPU's scheduler
    | Rel(k: Pc)                  // release(&ptable.lock), then k
    | WaitAcq                     // wait: acquire(&ptable.lock)
    | WaitScan                    // the loop over the table
    | WaitFree(z: nat)            // kfree(p->kstack); p->kstack = 0
    | WaitReap(z: nat)            // p->pid = 0 ... p->state = UNUSED
    | WaitChan                    // sleep(curproc, &ptable.lock): p->chan = chan
    | WaitState                   // p->state = SLEEPING
    | WaitTidy                    // p->chan = 0
    | ExitAcq                     // exit: acquire(&ptable.lock)
    | ExitWake                    // wakeup1(curproc->parent)
    | ExitPass                    // the loop that passes children to init
    | ExitZombie                  // curproc->state = ZOMBIE
    | ZombieExit                  // panic("zombie exit")
    | ForkAcq                     // allocproc: acquire(&ptable.lock)
    | ForkFind                    // the loop, then state = EMBRYO, pid = nextpid++
    | ForkRel(np: nat)            // release(&ptable.lock)
    | ForkStack(np: nat)          // kstack = kalloc(), and the context
    | ForkVm(np: nat)             // pgdir = copyuvm(...)
    | ForkParent(np: nat)         // np->parent = curproc
    | ForkAcq2(np: nat)           // acquire(&ptable.lock)
    | ForkRun(np: nat)            // np->state = RUNNABLE
    | KillAcq(pid: int)           // kill: acquire(&ptable.lock)
    | KillScan(pid: int)          // the loop
    | WakeAcq(n: nat)             // wakeup: acquire(&ptable.lock)
    | WakeScan(n: nat)            // wakeup1(chan)

  /** What follows sched() when the process runs again. */
  datatype After = ThenRelease(k: Pc) | ThenTidy(n: nat) | ThenWait | Never

  datatype Proc = Proc(state: RunState, pid: int, parent: Option<nat>, chan: Chan, killed: bool, kstack: bool, pc: Pc)

  type Table = seq<Proc>

  // ---- wakeup1

  function WokenProc(q: Proc, ch: Chan): Proc {
    if q.state == SLEEPING && q.chan == ch then q.(state := RUNNABLE) else q
  }

  function Woken(t: Table, ch: Chan): Table {
    seq(|t|, i requires 0 <= i < |t| => WokenProc(t[i], ch))
  }

  // ---- exit: the loop that passes children on

  function Adopted(q: Proc, cur: nat, init: nat): Proc {
    if q.parent == Some(cur) then q.(parent := Some(init)) else q
  }

  predicate ZombieChild(q: Proc, cur: nat) {
    q.parent == Some(cur) && q.state == ZOMBIE
  }

  /** The first zombie child of cur at i or later, or |t|. */
  function FindZombie(t: Table, cur: nat, i: nat): (z: nat)
    requires i <= |t|
    ensures i <= z <= |t| && (z < |t| ==> ZombieChild(t[z], cur))
    ensures forall j :: i <= j < z ==> !ZombieChild(t[j], cur)
    decreases |t| - i
  {
    if i == |t| || ZombieChild(t[i], cur) then i else FindZombie(t, cur, i + 1)
  }

  /** All children of cur go to init, which is woken if one of them is a zombie. */
  function PassedOn(t: Table, cur: nat, init: nat): Table {
    var t1 := seq(|t|, i requires 0 <= i < |t| => Adopted(t[i], cur, init));
    if FindZombie(t, cur, 0) < |t| then Woken(t1, OnProc(init)) else t1
  }

  // ---- the other searches

  predicate HasChild(t: Table, cur: nat) {
    exists i :: 0 <= i < |t| && t[i].parent == Some(cur)
  }

  function FindUnused(t: Table, i: nat): (u: nat)
    requires i <= |t|
    ensures i <= u <= |t| && (u < |t| ==> t[u].state == UNUSED)
    ensures forall j :: i <= j < u ==> t[j].state != UNUSED
    decreases |t| - i
  {
    if i == |t| || t[i].state == UNUSED then i else FindUnused(t, i + 1)
  }

  function FindPid(t: Table, pid: int, i: nat): (u: nat)
    requires i <= |t|
    ensures i <= u <= |t| && (u < |t| ==> t[u].pid == pid)
    ensures forall j :: i <= j < u ==> t[j].pid != pid
    decreases |t| - i
  {
    if i == |t| || t[i].pid == pid then i else FindPid(t, pid, i + 1)
  }

  function KilledProc(q: Proc): Proc {
    q.(killed := true, state := if q.state == SLEEPING then RUNNABLE else q.state)
  }

  function Killed(t: Table, pid: int): Table {
    var i := FindPid(t, pid, 0);
    if i < |t| then t[i := KilledProc(t[i])] else t
  }

  // ---- the loops

  class PTable {
    const proc: array<Proc>
    const initproc: nat

    constructor (p: array<Proc>, init: nat)
      ensures proc == p && initproc == init
    {
      proc, initproc := p, init;
    }

    method Wakeup1(chan: Chan)
      modifies proc
      ensures proc[..] == Woken(old(proc[..]), chan)
    {
      ghost var t := proc[..];
      var p := 0;
      while p < proc.Length
        invariant 0 <= p <= proc.Length
        invariant forall i :: 0 <= i < proc.Length ==> proc[i] == if i < p then WokenProc(t[i], chan) else t[i]
      {
        if proc[p].state == SLEEPING && proc[p].chan == chan {
          proc[p] := proc[p].(state := RUNNABLE);
        }
        p := p + 1;
      }
    }

    /** The loop of exit. */
    method PassChildren(curproc: nat)
      modifies proc
      ensures proc[..] == PassedOn(old(proc[..]), curproc, initproc)
    {
      ghost var t := proc[..];
      var p := 0;
      while p < proc.Length
        invariant 0 <= p <= proc.Length
        invariant forall i :: 0 <= i < proc.Length ==> proc[i] == Passing(t, curproc, p, i)
      {
        if proc[p].parent == Some(curproc) {
          proc[p] := proc[p].(parent := Some(initproc));
          if proc[p].state == ZOMBIE {
            Wakeup1(OnProc(initproc));
            assert forall i :: 0 <= i < proc.Length ==> proc[..][i] == proc[i];
          }
        }
        p := p + 1;
      }
      assert FindZombie(t, curproc, 0) < |t| <==> exists i :: 0 <= i < |t| && ZombieChild(t[i], curproc);
    }

    /** Entry i when the loop of exit has done p entries. */
    ghost function Passing(t: Table, curproc: nat, p: nat, i: nat): Proc
      requires i < |t| && p <= |t|
    {
      var q := if i < p then Adopted(t[i], curproc, initproc) else t[i];
      if exists j :: 0 <= j < p && ZombieChild(t[j], curproc) then WokenProc(q, OnProc(initproc)) else q
    }

    /** The loop of wait: z is the first zombie child, or the size of the table. */
    method ScanChildren(curproc: nat) returns (havekids: bool, z: nat)
      ensures z == FindZombie(proc[..], curproc, 0)
      ensures havekids <==> HasChild(proc[..], curproc)
    {
      havekids := false;
      z := 0;
      while z < proc.Length
        invariant 0 <= z <= proc.Length
        invariant FindZombie(proc[..], curproc, 0) == FindZombie(proc[..], curproc, z)
        invariant havekids <==> exists i :: 0 <= i < z && proc[..][i].parent == Some(curproc)
      {
        if proc[z].parent == Some(curproc) {
          havekids := true;
          assert proc[..][z].parent == Some(curproc);
          if proc[z].state == ZOMBIE {
            return;
          }
        }
        z := z + 1;
      }
    }

    /** The loop of allocproc, and what follows at found. */
    method FindSlot(nextpid: int) returns (p: nat)
      modifies proc
      ensures p == FindUnused(old(proc[..]), 0)
      ensures proc[..] == if p < proc.Length then old(proc[..])[p := old(proc[p]).(state := EMBRYO, pid := nextpid)] else old(proc[..])
    {
      p := 0;
      while p < proc.Length
        invariant 0 <= p <= proc.Length && proc[..] == old(proc[..])
        invariant FindUnused(proc[..], 0) == FindUnused(proc[..], p)
      {
        if proc[p].state == UNUSED {
          proc[p] := proc[p].(state := EMBRYO, pid := nextpid);
          return;
        }
        p := p + 1;
      }
    }

    method KillPid(pid: int) returns (r: int)
      modifies proc
      ensures proc[..] == Killed(old(proc[..]), pid)
      ensures r == if exists i :: 0 <= i < proc.Length && old(proc[..])[i].pid == pid then 0 else -1
    {
      var p := 0;
      while p < proc.Length
        invariant 0 <= p <= proc.Length && proc[..] == old(proc[..])
        invariant FindPid(proc[..], pid, 0) == FindPid(proc[..], pid, p)
        invariant forall i :: 0 <= i < p ==> proc[..][i].pid != pid
      {
        if proc[p].pid == pid {
          assert old(proc[..])[p].pid == pid;
          proc[p] := proc[p].(killed := true);
          if proc[p].state == SLEEPING {
            proc[p] := proc[p].(state := RUNNABLE);
          }
          return 0;
        }
        p := p + 1;
      }
      return -1;
    }
  }
}
