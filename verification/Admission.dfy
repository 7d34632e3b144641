/** Group commit keeps to the reservations of begin_op: every run of GroupCommit is a run of Reservation, with readers,
    buffers and the writes of commit left out. So the log never overflows in any of them. */
module Admission {
  import opened Sequences
  import opened Disk
  import opened CrashRecovery
  import G = GroupCommit
  import R = Reservation

  /** The distinct blocks that operation op has logged. */
  function Logged(hist: seq<G.Entry>, op: nat): set<nat> {
    set e | e in hist && e.op == op :: e.w.at
  }

  /** No operation has logged more than budget distinct blocks. */
  ghost predicate Within(hist: seq<G.Entry>, budget: nat) {
    forall op: nat :: |Logged(hist, op)| <= budget
  }

  lemma LoggedMore(hist: seq<G.Entry>, e: G.Entry, op: nat)
    ensures Logged(hist + [e], op) == Logged(hist, op) + if e.op == op then {e.w.at} else {}
  {
    var more := hist + [e];
    assert forall x :: x in more <==> x in hist || x == e;
    if e.op == op {
      assert e in more;
    }
  }

  lemma WithinBefore(hist: seq<G.Entry>, more: seq<G.Entry>, budget: nat)
    requires hist <= more && Within(more, budget)
    ensures Within(hist, budget)
  {
    forall op: nat ensures |Logged(hist, op)| <= budget {
      assert forall e :: e in hist ==> e in more;
      SubsetSize(Logged(hist, op), Logged(more, op));
    }
  }

  /** ids are the running operations in the order in which r has them; between commits both have the same log. */
  ghost predicate Related(s: G.State, r: R.State, ids: seq<nat>) {
    && !r.panicked && r.committing == s.commit.Some? && (s.commit.None? ==> r.lh == s.lh)
    && |ids| == |r.active| && NoDuplicates(ids) && Elements(ids) == s.ops
    && forall k :: 0 <= k < |ids| ==> r.active[k] == Logged(s.hist, ids[k])
  }

  /** Operations are numbered before they log anything. */
  ghost predicate Numbered(s: G.State) {
    (forall op :: op in s.ops ==> op < s.begun) && forall j :: 0 <= j < |s.hist| ==> s.hist[j].op < s.begun
  }

  lemma StepKeepsNumbers(s: G.State, step: G.Step)
    requires G.WhosOk(s) && Numbered(s) && G.Enabled(s, step)
    ensures Numbered(G.Next(s, step)) && s.hist <= G.Next(s, step).hist
  {
    if step.LogWrite? {
      assert G.WhoOk(s, s.uses[step.u]);
    }
  }

  function IndexOf(ids: seq<nat>, op: nat): (k: nat)
    requires op in ids
    ensures k < |ids| && ids[k] == op
  {
    if ids[0] == op then 0 else 1 + IndexOf(ids[1..], op)
  }

  lemma BeginIsBegin(s: G.State, r: R.State, ids: seq<nat>, budget: nat)
    requires Related(s, r, ids) && Numbered(s) && G.Enabled(s, G.Begin)
    ensures R.Enabled(r, budget, R.Begin)
    ensures Related(G.Next(s, G.Begin), R.Next(r, s.l.size, R.Begin), ids + [s.begun])
  {
    ElementsSize(ids);
    assert Logged(s.hist, s.begun) == {};
    assert Elements(ids + [s.begun]) == Elements(ids) + {s.begun};
    assert forall op :: op in ids ==> op in Elements(ids);
  }

  lemma EndIsEnd(s: G.State, r: R.State, ids: seq<nat>, op: nat, k: nat, budget: nat)
    requires Related(s, r, ids) && G.Enabled(s, G.End(op)) && s.commit.None? && k < |ids| && ids[k] == op
    ensures R.Enabled(r, budget, R.End(k))
    ensures Related(G.Next(s, G.End(op)), R.Next(r, s.l.size, R.End(k)), Without(ids, k))
  {
    var rest := Without(ids, k);
    OneOut(ids, k);
    assert r.active[..k] + r.active[k + 1..] == [] <==> rest == [];
    assert rest == [] <==> Elements(rest) == {} by {
      if rest != [] {
        assert rest[0] in Elements(rest);
      }
    }
  }

  lemma OneOut(ids: seq<nat>, k: nat)
    requires NoDuplicates(ids) && k < |ids|
    ensures NoDuplicates(Without(ids, k)) && Elements(Without(ids, k)) == Elements(ids) - {ids[k]}
  {
    var rest := Without(ids, k);
    forall x | x in Elements(ids) - {ids[k]} ensures x in rest {
      var j :| 0 <= j < |ids| && ids[j] == x;
      assert rest[if j < k then j else j - 1] == x;
    }
    forall j | 0 <= j < |rest| ensures rest[j] in Elements(ids) - {ids[k]} {
      assert rest[j] == ids[if j < k then j else j + 1];
    }
  }

  /** log_write, unless it panics. */
  lemma LogWriteIsLogWrite(s: G.State, r: R.State, ids: seq<nat>, u: nat, k: nat, budget: nat)
    requires Related(s, r, ids) && G.Enabled(s, G.LogWrite(u)) && s.commit.None? && k < |ids| && ids[k] == s.uses[u].who.id
    requires |Logged(s.hist, ids[k]) + {s.uses[u].blockno}| <= budget
    ensures R.Enabled(r, budget, R.LogWrite(k, s.uses[u].blockno))
    ensures G.Next(s, G.LogWrite(u)).panicked == R.Next(r, s.l.size, R.LogWrite(k, s.uses[u].blockno)).panicked
    ensures !G.Next(s, G.LogWrite(u)).panicked ==>
      Related(G.Next(s, G.LogWrite(u)), R.Next(r, s.l.size, R.LogWrite(k, s.uses[u].blockno)), ids)
  {
    var e := G.Entry(ids[k], Write(s.uses[u].blockno, s.b[s.uses[u].i].data));
    forall j | 0 <= j < |ids|
      ensures Logged(s.hist + [e], ids[j]) == Logged(s.hist, ids[j]) + if j == k then {s.uses[u].blockno} else {}
    {
      LoggedMore(s.hist, e, ids[j]);
    }
  }

  /** Every step of group commit is a step of Reservation or changes nothing that it has. */
  lemma StepIsReserved(s: G.State, r: R.State, ids: seq<nat>, step: G.Step, budget: nat) returns (steps: seq<R.Step>, ids': seq<nat>)
    requires G.LogOk(s) && Numbered(s) && G.NothingForgotten(s) && Related(s, r, ids) && G.Enabled(s, step)
    requires G.NothingForgotten(G.Next(s, step)) && !G.Next(s, step).panicked && Within(G.Next(s, step).hist, budget)
    ensures |steps| <= 1 && (steps != [] ==> R.Enabled(r, budget, steps[0]))
    ensures Related(G.Next(s, step), if steps == [] then r else R.Next(r, s.l.size, steps[0]), ids') == true
  {
    steps, ids' := [], ids;
    match step
    case Begin =>
      BeginIsBegin(s, r, ids, budget);
      steps, ids' := [R.Begin], ids + [s.begun];
    case End(op) =>
      assert op in Elements(ids);
      var k := IndexOf(ids, op);
      EndIsEnd(s, r, ids, op, k, budget);
      steps, ids' := [R.End(k)], Without(ids, k);
    case LogWrite(u) =>
      var k := WriteIsReserved(s, r, ids, u, budget);
      steps := [R.LogWrite(k, s.uses[u].blockno)];
    case Finish =>
      steps := [R.CommitDone];
    case _ =>
  }

  lemma WriteIsReserved(s: G.State, r: R.State, ids: seq<nat>, u: nat, budget: nat) returns (k: nat)
    requires G.LogOk(s) == true && G.NothingForgotten(s) == true && Related(s, r, ids) && G.Enabled(s, G.LogWrite(u))
    requires !G.Next(s, G.LogWrite(u)).panicked && Within(G.Next(s, G.LogWrite(u)).hist, budget)
    ensures k < |ids| && R.Enabled(r, budget, R.LogWrite(k, s.uses[u].blockno))
    ensures Related(G.Next(s, G.LogWrite(u)), R.Next(r, s.l.size, R.LogWrite(k, s.uses[u].blockno)), ids) == true
  {
    k := Writer(s, ids, u);
    LoggedMore(s.hist, G.Next(s, G.LogWrite(u)).hist[|s.hist|], ids[k]);
    LogWriteIsLogWrite(s, r, ids, u, k, budget);
  }

  /** Who calls log_write is a running operation, and no commit runs. */
  lemma Writer(s: G.State, ids: seq<nat>, u: nat) returns (k: nat)
    requires G.LogOk(s) == true && G.NothingForgotten(s) == true && G.CanUpdate(s, u) && Elements(ids) == s.ops
    ensures k < |ids| && ids[k] == s.uses[u].who.id && s.commit.None?
  {
    assert G.WhoOk(s, s.uses[u]);
    assert s.uses[u].who.id in Elements(ids);
    k := IndexOf(ids, s.uses[u].who.id);
  }

  /** Every run of group commit is a run of Reservation, in which each operation logs as much as it does here. */
  lemma {:induction false} RunsAreReserved(d: Image, l: Layout, schedule: seq<G.Step>, budget: nat)
    returns (steps: seq<R.Step>, ids: seq<nat>)
    requires G.Booted(d, l)
    requires var s := G.After(d, l, schedule); !s.panicked && Within(s.hist, budget)
    ensures R.Legal(l.size, budget, steps) && Numbered(G.After(d, l, schedule))
    ensures Related(G.After(d, l, schedule), R.Run(l.size, steps), ids) == true
    decreases |schedule|
  {
    if schedule == [] {
      steps, ids := [], [];
      return;
    }
    var before, step := schedule[..|schedule| - 1], schedule[|schedule| - 1];
    var s := G.After(d, l, before);
    G.InvHolds(d, l, before);
    if !G.Enabled(s, step) {
      steps, ids := RunsAreReserved(d, l, before, budget);
      return;
    }
    G.NothingIsForgotten(d, l, before);
    G.NothingIsForgotten(d, l, schedule);
    HistoryGrows(s, step, budget);
    steps, ids := RunsAreReserved(d, l, before, budget);
    StepKeepsNumbers(s, step);
    SameSize(d, l, before);
    var more;
    more, ids := StepIsReserved(s, R.Run(l.size, steps), ids, step, budget);
    if more != [] {
      R.OneMoreStep(l.size, budget, steps, more[0]);
      steps := steps + [more[0]];
    }
  }

  lemma HistoryGrows(s: G.State, step: G.Step, budget: nat)
    requires G.Enabled(s, step) && Within(G.Next(s, step).hist, budget)
    ensures Within(s.hist, budget) && (!G.Next(s, step).panicked ==> !s.panicked)
  {
    WithinBefore(s.hist, G.Next(s, step).hist, budget);
  }

  lemma {:induction false} SameSize(d: Image, l: Layout, schedule: seq<G.Step>)
    ensures G.After(d, l, schedule).l == l
  {
    if schedule != [] {
      SameSize(d, l, schedule[..|schedule| - 1]);
    }
  }

  /** On the log that mkfs makes, and with each operation one block below what begin_op reserves for it, log_write finds
      room in every run. */
  lemma LogNeverFull(d: Image, l: Layout, schedule: seq<G.Step>, u: nat)
    requires G.Booted(d, l) && l.size == R.MKFS_NLOG
    requires var s := G.After(d, l, schedule);
      && G.Enabled(s, G.LogWrite(u)) && Within(s.hist, MAXOPBLOCKS - 1)
      && |Logged(s.hist, s.uses[u].who.id) + {s.uses[u].blockno}| <= MAXOPBLOCKS - 1
    ensures !G.Next(G.After(d, l, schedule), G.LogWrite(u)).panicked
  {
    var s := G.After(d, l, schedule);
    var steps, ids := RunsAreReserved(d, l, schedule, MAXOPBLOCKS - 1);
    R.NeverFull(steps);
    G.InvHolds(d, l, schedule);
    G.NothingIsForgotten(d, l, schedule);
    SameSize(d, l, schedule);
    RoomIsLeft(s, R.Run(l.size, steps), ids, u);
  }

  lemma RoomIsLeft(s: G.State, r: R.State, ids: seq<nat>, u: nat)
    requires Related(s, r, ids) && G.LogOk(s) == true && G.NothingForgotten(s) == true && G.Enabled(s, G.LogWrite(u))
    requires R.Accounted(r, MAXOPBLOCKS - 1) && |r.lh| + R.Unused(r.active, MAXOPBLOCKS - 1) <= LOGSIZE - 2
    requires s.l.size == R.MKFS_NLOG
    ensures !G.Next(s, G.LogWrite(u)).panicked
  {
    var k := Writer(s, ids, u);
    R.UnusedBound(r.active, MAXOPBLOCKS - 1);
    assert R.Fits(|s.lh|, s.l.size);
  }
}
