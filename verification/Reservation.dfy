/** Log-space reservation in log.c: begin_op admits an operation only if the log could still take
    MAXOPBLOCKS more blocks from it and from every operation already running. A state machine whose
    steps are the critical sections of log.lock, run by any number of processes. */
module Reservation {
  import opened Sequences
  import opened CrashRecovery

  /** log_write's search: a block that is already logged is absorbed. */
  function Absorb(lh: seq<nat>, b: nat): (r: seq<nat>)
    ensures NoDuplicates(lh) ==> NoDuplicates(r)
  {
    if b in lh then lh else lh + [b]
  }

  /** The test of begin_op, with n blocks logged and the given number of operations running. */
  predicate Admits(n: nat, outstanding: nat) {
    n + (outstanding + 1) * MAXOPBLOCKS <= LOGSIZE
  }

  /** The test whose failure makes log_write panic; size is log.size, which counts the header block. */
  predicate Fits(n: nat, size: nat) {
    n < LOGSIZE && n < size - 1
  }

  /** active holds, for each running operation, the distinct blocks it has logged so far. */
  datatype State = State(lh: seq<nat>, active: seq<set<nat>>, committing: bool, panicked: bool)

  datatype Step = Begin | LogWrite(op: nat, b: nat) | End(op: nat) | CommitDone

  const INIT := State([], [], false, false)

  /** Which steps a process may take, if no operation logs more than budget distinct blocks. A process
      whose begin_op is not admitted sleeps, which is no step. */
  predicate Enabled(s: State, budget: nat, step: Step) {
    && !s.panicked
    && match step
       case Begin => !s.committing && Admits(|s.lh|, |s.active|)
       case LogWrite(op, b) => op < |s.active| && |s.active[op] + {b}| <= budget
       case End(op) => op < |s.active|
       case CommitDone => s.committing
  }

  function Next(s: State, size: nat, step: Step): State {
    match step
    case Begin => s.(active := s.active + [{}])
    case LogWrite(op, b) =>
      if op >= |s.active| then s
      else if !Fits(|s.lh|, size) then s.(panicked := true)
      else s.(lh := Absorb(s.lh, b), active := s.active[op := s.active[op] + {b}])
    case End(op) =>
      if op >= |s.active| then s
      else var rest := s.active[..op] + s.active[op + 1..];
        s.(active := rest, committing := rest == [])
    case CommitDone => s.(lh := [], committing := false)
  }

  function Run(size: nat, steps: seq<Step>): State {
    if steps == [] then INIT else Next(Run(size, steps[..|steps| - 1]), size, steps[|steps| - 1])
  }

  /** Every step of the run was allowed when it was taken. */
  predicate Legal(size: nat, budget: nat, steps: seq<Step>) {
    steps == [] ||
    var before := steps[..|steps| - 1];
    Legal(size, budget, before) && Enabled(Run(size, before), budget, steps[|steps| - 1])
  }

  /** How many more blocks the running operations may still log. */
  function Unused(active: seq<set<nat>>, budget: nat): int {
    if active == [] then 0
    else Unused(active[..|active| - 1], budget) + budget - |active[|active| - 1]|
  }

  lemma {:induction false} UnusedConcat(a: seq<set<nat>>, b: seq<set<nat>>, budget: nat)
    ensures Unused(a + b, budget) == Unused(a, budget) + Unused(b, budget)
    decreases |b|
  {
    if b == [] {
      assert a + b == a;
    } else {
      var last := |b| - 1;
      assert (a + b)[..|a + b| - 1] == a + b[..last];
      UnusedConcat(a, b[..last], budget);
    }
  }

  /** Taking one operation's set out of the list takes its share out of the sum. */
  lemma UnusedAt(a: seq<set<nat>>, op: nat, budget: nat)
    requires op < |a|
    ensures Unused(a, budget) == Unused(a[..op] + a[op + 1..], budget) + budget - |a[op]|
  {
    assert a == a[..op] + ([a[op]] + a[op + 1..]);
    UnusedConcat(a[..op], [a[op]] + a[op + 1..], budget);
    UnusedConcat([a[op]], a[op + 1..], budget);
    UnusedConcat(a[..op], a[op + 1..], budget);
    var one := [a[op]];
    assert |one[..0]| == 0;
  }

  lemma UnusedUpdate(a: seq<set<nat>>, op: nat, x: set<nat>, budget: nat)
    requires op < |a|
    ensures Unused(a[op := x], budget) == Unused(a, budget) + |a[op]| - |x|
  {
    var c := a[op := x];
    assert c[..op] + c[op + 1..] == a[..op] + a[op + 1..];
    UnusedAt(a, op, budget);
    UnusedAt(c, op, budget);
  }

  lemma {:induction false} UnusedBound(a: seq<set<nat>>, budget: nat)
    requires forall i :: 0 <= i < |a| ==> |a[i]| <= budget
    ensures 0 <= Unused(a, budget) <= budget * |a|
  {
    if a != [] {
      UnusedBound(a[..|a| - 1], budget);
    }
  }

  /** Each operation's blocks are in the log. */
  ghost predicate Accounted(s: State, budget: nat) {
    && (forall i :: 0 <= i < |s.active| ==> |s.active[i]| <= budget)
    && (forall i :: 0 <= i < |s.active| ==> forall b :: b in s.active[i] ==> b in s.lh)
    && NoDuplicates(s.lh)
    && (s.active == [] ==> s.committing || s.lh == [])
    && (s.committing ==> s.active == [])
  }

  lemma StepAccounts(s: State, size: nat, budget: nat, step: Step)
    requires Accounted(s, budget) && Enabled(s, budget, step)
    ensures Accounted(Next(s, size, step), budget)
  {
    if step.LogWrite? && Fits(|s.lh|, size) {
      var n := Next(s, size, step);
      assert forall b :: b in s.lh ==> b in n.lh;
    }
  }

  /** Logging a block uses up at least as much budget as it adds to the log. */
  lemma StepKeepsSum(s: State, size: nat, budget: nat, limit: nat, step: Step)
    requires Accounted(s, budget) && Enabled(s, budget, step) && !step.Begin?
    requires |s.lh| + Unused(s.active, budget) <= limit
    ensures var n := Next(s, size, step); |n.lh| + Unused(n.active, budget) <= limit
  {
    match step
    case LogWrite(op, b) =>
      if Fits(|s.lh|, size) {
        UnusedUpdate(s.active, op, s.active[op] + {b}, budget);
        if b !in s.active[op] {
          assert |s.active[op] + {b}| == |s.active[op]| + 1;
        } else {
          assert s.active[op] + {b} == s.active[op];
        }
      }
    case End(op) =>
      UnusedAt(s.active, op, budget);
    case CommitDone =>
  }

  lemma BeginReserves(s: State, budget: nat, limit: nat)
    requires Accounted(s, budget) && Enabled(s, budget, Begin) && budget <= MAXOPBLOCKS
    ensures var n := Next(s, 0, Begin);
      && |n.lh| + Unused(n.active, budget) <= |s.lh| + budget * (|s.active| + 1)
      && |n.lh| + Unused(n.active, budget) <= LOGSIZE
  {
    UnusedBound(s.active, budget);
    var a := s.active + [{}];
    assert a[..|a| - 1] == s.active;
  }

  /** In every run in which operations log at most MAXOPBLOCKS distinct blocks each, the log plus all
      unused reservations fits in LOGSIZE, and commit runs only with no operation active. */
  lemma {:induction false} ReservationHolds(size: nat, steps: seq<Step>)
    requires Legal(size, MAXOPBLOCKS, steps)
    ensures var s := Run(size, steps);
      && Accounted(s, MAXOPBLOCKS)
      && |s.lh| + Unused(s.active, MAXOPBLOCKS) <= LOGSIZE
      && (s.committing ==> s.active == [])
  {
    if steps != [] {
      var before, step := steps[..|steps| - 1], steps[|steps| - 1];
      ReservationHolds(size, before);
      var s := Run(size, before);
      StepAccounts(s, size, MAXOPBLOCKS, step);
      if step.Begin? {
        BeginReserves(s, MAXOPBLOCKS, LOGSIZE);
      } else {
        StepKeepsSum(s, size, MAXOPBLOCKS, LOGSIZE, step);
      }
    }
  }

  // ---- the panic of log_write

  /** mkfs gives the log LOGSIZE blocks including the header, one fewer than begin_op reckons with. */
  const MKFS_NLOG: nat := LOGSIZE

  /** One block less per operation is enough: the log never gets within reach of the panic. */
  lemma {:induction false} NeverFull(steps: seq<Step>)
    requires Legal(MKFS_NLOG, MAXOPBLOCKS - 1, steps)
    ensures var s := Run(MKFS_NLOG, steps);
      && Accounted(s, MAXOPBLOCKS - 1) && !s.panicked
      && |s.lh| + Unused(s.active, MAXOPBLOCKS - 1) <= LOGSIZE - 2
  {
    if steps != [] {
      var before, step := steps[..|steps| - 1], steps[|steps| - 1];
      NeverFull(before);
      var s := Run(MKFS_NLOG, before);
      StepAccounts(s, MKFS_NLOG, MAXOPBLOCKS - 1, step);
      UnusedBound(s.active, MAXOPBLOCKS - 1);
      if step.Begin? {
        BeginReserves(s, MAXOPBLOCKS - 1, LOGSIZE - 2);
      } else {
        StepKeepsSum(s, MKFS_NLOG, MAXOPBLOCKS - 1, LOGSIZE - 2, step);
      }
    }
  }

  function Upto(k: nat): seq<nat> {
    seq(k, i => i)
  }

  lemma OneMoreStep(size: nat, budget: nat, steps: seq<Step>, step: Step)
    requires Legal(size, budget, steps) && Enabled(Run(size, steps), budget, step)
    ensures Legal(size, budget, steps + [step]) && Run(size, steps + [step]) == Next(Run(size, steps), size, step)
  {
    assert (steps + [step])[..|steps|] == steps;
  }

  /** Three operations; block i is logged by operation i / MAXOPBLOCKS. */
  function Fill(k: nat): seq<Step> {
    if k == 0 then [] + [Begin] + [Begin] + [Begin]
    else Fill(k - 1) + [LogWrite((k - 1) / MAXOPBLOCKS, k - 1)]
  }

  /** Block numbers 0 .. k are logged, and operation j has not yet logged more than its share of them. */
  ghost predicate Filled(s: State, k: nat) {
    && !s.panicked && !s.committing && s.lh == Upto(k) && |s.active| == 3
    && forall j :: 0 <= j < 3 && k < (j + 1) * MAXOPBLOCKS ==> |s.active[j]| <= if k < j * MAXOPBLOCKS then 0 else k - j * MAXOPBLOCKS
  }

  lemma FillStep(s: State, i: nat, budget: nat)
    requires Filled(s, i) && i < LOGSIZE && budget >= MAXOPBLOCKS
    ensures var step := LogWrite(i / MAXOPBLOCKS, i); var t := Next(s, MKFS_NLOG, step);
      && Enabled(s, budget, step)
      && (if i < LOGSIZE - 1 then Filled(t, i + 1) else t.panicked)
  {
    var op := i / MAXOPBLOCKS;
    assert Upto(i + 1) == Upto(i) + [i];
    assert |s.active[op] + {i}| <= |s.active[op]| + 1;
  }

  lemma FillStart(budget: nat)
    ensures Legal(MKFS_NLOG, budget, Fill(0)) && Filled(Run(MKFS_NLOG, Fill(0)), 0)
  {
    var one := [] + [Begin];
    OneMoreStep(MKFS_NLOG, budget, [], Begin);
    OneMoreStep(MKFS_NLOG, budget, one, Begin);
    OneMoreStep(MKFS_NLOG, budget, one + [Begin], Begin);
    assert Run(MKFS_NLOG, Fill(0)).active == [{}, {}, {}];
    assert Upto(0) == [];
  }

  lemma {:induction false} FillRuns(k: nat, budget: nat)
    requires k < LOGSIZE && budget >= MAXOPBLOCKS
    ensures Legal(MKFS_NLOG, budget, Fill(k)) && Filled(Run(MKFS_NLOG, Fill(k)), k) == true
  {
    if k == 0 {
      FillStart(budget);
    } else {
      FillRuns(k - 1, budget);
      FillMore(Fill(k - 1), k - 1, budget);
    }
  }

  lemma FillMore(steps: seq<Step>, i: nat, budget: nat)
    requires i < LOGSIZE - 1 && budget >= MAXOPBLOCKS && Legal(MKFS_NLOG, budget, steps) && Filled(Run(MKFS_NLOG, steps), i) == true
    ensures var more := steps + [LogWrite(i / MAXOPBLOCKS, i)];
      Legal(MKFS_NLOG, budget, more) && Filled(Run(MKFS_NLOG, more), i + 1) == true
  {
    FillStep(Run(MKFS_NLOG, steps), i, budget);
    OneMoreStep(MKFS_NLOG, budget, steps, LogWrite(i / MAXOPBLOCKS, i));
  }

  lemma {:induction false} LegalMonotone(size: nat, budget: nat, larger: nat, steps: seq<Step>)
    requires Legal(size, budget, steps) && budget <= larger
    ensures Legal(size, larger, steps)
  {
    if steps != [] {
      LegalMonotone(size, budget, larger, steps[..|steps| - 1]);
    }
  }

  ghost predicate CanPanic(budget: nat) {
    exists steps :: Legal(MKFS_NLOG, budget, steps) && Run(MKFS_NLOG, steps).panicked
  }

  /** On the log that mkfs makes, "too big a transaction" can be reached exactly when operations may log
      MAXOPBLOCKS distinct blocks, the number begin_op reserves for each. */
  lemma PanicNeedsFullBudget(budget: nat)
    ensures CanPanic(budget) <==> budget >= MAXOPBLOCKS
  {
    if budget >= MAXOPBLOCKS {
      var i := LOGSIZE - 1;
      FillRuns(i, budget);
      FillStep(Run(MKFS_NLOG, Fill(i)), i, budget);
      OneMoreStep(MKFS_NLOG, budget, Fill(i), LogWrite(i / MAXOPBLOCKS, i));
    } else if CanPanic(budget) {
      var steps :| Legal(MKFS_NLOG, budget, steps) && Run(MKFS_NLOG, steps).panicked;
      LegalMonotone(MKFS_NLOG, budget, MAXOPBLOCKS - 1, steps);
      NeverFull(steps);
    }
  }
}
