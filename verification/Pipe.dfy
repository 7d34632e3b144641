/** pipe.c: a ring of 512 bytes with counters that wrap at 32 bits, and the readers and writers that sleep on
    it. What a process does under p->lock, from taking it to sleeping or returning, is one step. */
module Pipe {
  import opened Basics

  const PIPESIZE: nat := 512
  const UINT: nat := 0x1_0000_0000

  type Byte = x: int | 0 <= x < 256

  /** The struct pipe of pipe.c, without its lock. */
  datatype Ring = Ring(data: seq<Byte>, nread: nat, nwrite: nat, readopen: bool, writeopen: bool)

  // ---- the ring

  predicate IsFull(p: Ring) {
    p.nwrite == (p.nread + PIPESIZE) % UINT
  }

  predicate IsEmpty(p: Ring) {
    p.nread == p.nwrite
  }

  /** p->data[p->nwrite++ % PIPESIZE] = b */
  function Put(p: Ring, b: Byte): Ring {
    p.(data := if |p.data| == PIPESIZE then p.data[p.nwrite % PIPESIZE := b] else p.data, nwrite := (p.nwrite + 1) % UINT)
  }

  /** p->data[p->nread % PIPESIZE] */
  function Front(p: Ring): Byte {
    if |p.data| == PIPESIZE then p.data[p.nread % PIPESIZE] else 0
  }

  /** Stores src from i on, until the ring is full: the ring then, and where it stopped. */
  function Fill(p: Ring, src: seq<Byte>, i: nat): (r: (Ring, nat))
    requires i <= |src|
    ensures i <= r.1 <= |src|
    decreases |src| - i
  {
    if i == |src| || IsFull(p) then (p, i) else Fill(Put(p, src[i]), src, i + 1)
  }

  /** Takes up to n bytes out: the ring then, and the bytes. */
  function Drain(p: Ring, n: nat): (Ring, seq<Byte>)
    decreases n
  {
    if n == 0 || IsEmpty(p) then (p, [])
    else
      var r := Drain(p.(nread := (p.nread + 1) % UINT), n - 1);
      (r.0, [Front(p)] + r.1)
  }

  // ---- the loops

  class PipeBuffer {
    const data: array<Byte>
    var nread: nat
    var nwrite: nat
    var readopen: bool
    var writeopen: bool

    predicate Valid()
      reads this
    {
      data.Length == PIPESIZE && nread < UINT && nwrite < UINT
    }

    function Abs(): Ring
      reads this, data
    {
      Ring(data[..], nread, nwrite, readopen, writeopen)
    }

    /** pipealloc */
    constructor ()
      ensures Valid() && fresh(data) && nread == nwrite == 0 && readopen && writeopen
    {
      data := new Byte[PIPESIZE](_ => 0);
      nread, nwrite, readopen, writeopen := 0, 0, true, true;
    }

    /** pipewrite from byte i on, until it returns or sleeps: it returns n with done, or -1 with failed, and
        otherwise sleeps. wake says whether it calls wakeup(&p->nread). */
    method PipewriteRun(addr: seq<Byte>, i0: nat, killed: bool) returns (i: nat, done: bool, failed: bool, wake: bool)
      requires Valid() && i0 <= |addr|
      modifies this`nwrite, data
      ensures Valid() && (Abs(), i) == Fill(old(Abs()), addr, i0)
      ensures done <==> i == |addr|
      ensures failed <==> i < |addr| && (!readopen || killed)
      ensures wake <==> !failed
    {
      i := i0;
      while i < |addr|
        invariant i0 <= i <= |addr| && Valid() && Fill(Abs(), addr, i) == Fill(old(Abs()), addr, i0)
      {
        if nwrite == (nread + PIPESIZE) % UINT {
          if !readopen || killed {
            return i, false, true, false;
          }
          return i, false, false, true;
        }
        ghost var p := Abs();
        data[nwrite % PIPESIZE] := addr[i];
        nwrite := (nwrite + 1) % UINT;
        assert Abs() == Put(p, addr[i]);
        i := i + 1;
      }
      return i, true, false, true;
    }

    /** piperead until it returns or sleeps; wake says whether it calls wakeup(&p->nwrite). */
    method PipereadRun(n: nat, killed: bool) returns (out: seq<Byte>, done: bool, failed: bool, wake: bool)
      requires Valid()
      modifies this`nread
      ensures Valid()
      ensures done <==> !(IsEmpty(old(Abs())) && writeopen)
      ensures failed <==> IsEmpty(old(Abs())) && writeopen && killed
      ensures wake <==> done
      ensures (Abs(), out) == if done then Drain(old(Abs()), n) else (old(Abs()), [])
    {
      out := [];
      if nread == nwrite && writeopen {
        if killed {
          return [], false, true, false;
        }
        return [], false, false, false;
      }
      var i := 0;
      ghost var p0 := Abs();
      assert [] + Drain(p0, n).1 == Drain(p0, n).1;
      while i < n
        invariant 0 <= i <= n && Valid()
        invariant Drain(p0, n) == (Drain(Abs(), n - i).0, out + Drain(Abs(), n - i).1)
      {
        if nread == nwrite {
          break;
        }
        ghost var p, was := Abs(), out;
        out := out + [data[nread % PIPESIZE]];
        nread := (nread + 1) % UINT;
        assert Abs() == p.(nread := (p.nread + 1) % UINT);
        assert was + ([Front(p)] + Drain(Abs(), n - i - 1).1) == out + Drain(Abs(), n - i - 1).1;
        i := i + 1;
      }
      assert out + [] == out;
      return out, true, false, true;
    }
  }

  // ---- the ring holds what has been stored and not yet returned

  /** After the bytes wrote have been stored and the bytes read returned. */
  ghost predicate Keeps(p: Ring, wrote: seq<Byte>, read: seq<Byte>) {
    && |p.data| == PIPESIZE && p.nread == |read| % UINT && p.nwrite == |wrote| % UINT
    && |read| <= |wrote| <= |read| + PIPESIZE && read == wrote[..|read|]
    && forall k :: |read| <= k < |wrote| ==> p.data[k % PIPESIZE] == wrote[k]
  }

  /** 512 divides 2 to the 32nd. */
  lemma WrapKeepsSlot(x: nat)
    ensures x % UINT % PIPESIZE == x % PIPESIZE
  {
    var q, r := x / UINT, x % UINT;
    assert x == (q * 0x80_0000 + r / PIPESIZE) * PIPESIZE + r % PIPESIZE;
  }

  lemma WrapSucc(x: nat)
    ensures (x % UINT + 1) % UINT == (x + 1) % UINT
  {
  }

  lemma FullIsFull(p: Ring, wrote: seq<Byte>, read: seq<Byte>)
    requires Keeps(p, wrote, read)
    ensures IsFull(p) <==> |wrote| == |read| + PIPESIZE
    ensures IsEmpty(p) <==> |wrote| == |read|
  {
  }

  lemma {:induction false} FillKeeps(p: Ring, wrote: seq<Byte>, read: seq<Byte>, src: seq<Byte>, i: nat)
    requires Keeps(p, wrote, read) && i <= |src|
    ensures var r := Fill(p, src, i);
      Keeps(r.0, wrote + src[i..r.1], read) && r.1 == i + Min(|src| - i, |read| + PIPESIZE - |wrote|)
    decreases |src| - i
  {
    FullIsFull(p, wrote, read);
    if i < |src| && !IsFull(p) {
      PutKeeps(p, wrote, read, src[i]);
      FillKeeps(Put(p, src[i]), wrote + [src[i]], read, src, i + 1);
      OneMore(wrote, src, i, Fill(p, src, i).1);
    } else {
      assert wrote + src[i..i] == wrote;
    }
  }

  lemma OneMore(wrote: seq<Byte>, src: seq<Byte>, i: nat, e: nat)
    requires i < e <= |src|
    ensures wrote + [src[i]] + src[i + 1..e] == wrote + src[i..e]
  {
  }

  lemma PutKeeps(p: Ring, wrote: seq<Byte>, read: seq<Byte>, b: Byte)
    requires Keeps(p, wrote, read) && |wrote| < |read| + PIPESIZE
    ensures Keeps(Put(p, b), wrote + [b], read)
  {
    var n := |wrote|;
    WrapKeepsSlot(n);
    WrapSucc(n);
    forall k | |read| <= k < n + 1 ensures Put(p, b).data[k % PIPESIZE] == (wrote + [b])[k] {
      OtherSlot(k, n);
    }
  }

  lemma OtherSlot(k: nat, n: nat)
    requires n < k + PIPESIZE && k < n + 1
    ensures k % PIPESIZE == n % PIPESIZE ==> k == n
  {
  }

  /** The byte in front is the first one not yet read. */
  lemma FrontKeeps(p: Ring, wrote: seq<Byte>, read: seq<Byte>)
    requires Keeps(p, wrote, read) && |read| < |wrote|
    ensures Keeps(p.(nread := (p.nread + 1) % UINT), wrote, read + [Front(p)]) == true
  {
    WrapKeepsSlot(|read|);
    WrapSucc(|read|);
    assert Front(p) == wrote[|read|];
    assert read + [Front(p)] == wrote[..|read| + 1];
  }

  lemma {:induction false} DrainKeeps(p: Ring, wrote: seq<Byte>, read: seq<Byte>, n: nat)
    requires Keeps(p, wrote, read)
    ensures var r := Drain(p, n);
      Keeps(r.0, wrote, read + r.1) && |r.1| == Min(n, |wrote| - |read|)
    decreases n
  {
    FullIsFull(p, wrote, read);
    if n > 0 && !IsEmpty(p) {
      var p1, read1 := p.(nread := (p.nread + 1) % UINT), read + [Front(p)];
      FrontKeeps(p, wrote, read);
      DrainKeeps(p1, wrote, read1, n - 1);
      assert read1 + Drain(p1, n - 1).1 == read + ([Front(p)] + Drain(p1, n - 1).1);
    } else {
      assert read + [] == read;
    }
  }

  // ---- readers and writers

  /** What a process is doing with the pipe, and the number of its call; it sleeps on nread or on nwrite when asleep. */
  datatype Task = Idle | Writing(id: nat, src: seq<Byte>, i: nat, asleep: bool) | Reading(id: nat, n: nat, asleep: bool)

  /** What has become of a call: it has not returned, or it has returned how much it wrote or read, or -1. */
  datatype End = Going | Returned | Failed

  datatype WriteCall = WriteCall(src: seq<Byte>, end: End)

  datatype ReadCall = ReadCall(n: nat, end: End)

  /** wrote and read are the bytes stored and taken since the pipe was made; from and into say which call of pipewrite
      stored, and which call of piperead took, each of them. */
  datatype State = State(p: Ring, tasks: seq<Task>, killed: seq<bool>, wrote: seq<Byte>, from: seq<nat>,
                         read: seq<Byte>, into: seq<nat>, sends: seq<WriteCall>, gets: seq<ReadCall>)

  datatype Step =
    | Write(t: nat, src: seq<Byte>)    // process t calls pipewrite
    | Read(t: nat, n: nat)             // process t calls piperead
    | Run(t: nat)                      // process t takes p->lock and goes on until it sleeps or returns
    | Kill(t: nat)                     // kill: also wakes t
    | Close(writable: bool)            // pipeclose

  function Init(n: nat): State {
    State(Ring(seq(PIPESIZE, _ => 0), 0, 0, true, true), seq(n, _ => Idle), seq(n, _ => false), [], [], [], [], [], [])
  }

  /** wakeup(&p->nread) */
  function WakeReader(t: Task): Task {
    match t
    case Reading(id, n, _) => Reading(id, n, false)
    case _ => t
  }

  function WakeReaders(ts: seq<Task>): seq<Task> {
    seq(|ts|, i requires 0 <= i < |ts| => WakeReader(ts[i]))
  }

  /** wakeup(&p->nwrite) */
  function WakeWriter(t: Task): Task {
    match t
    case Writing(id, src, i, _) => Writing(id, src, i, false)
    case _ => t
  }

  function WakeWriters(ts: seq<Task>): seq<Task> {
    seq(|ts|, i requires 0 <= i < |ts| => WakeWriter(ts[i]))
  }

  /** Neither end is closed while a call on it is under way. */
  predicate Enabled(s: State, step: Step) {
    |s.killed| == |s.tasks| &&
    match step
    case Write(t, _) => t < |s.tasks| && s.tasks[t] == Idle && s.p.writeopen
    case Read(t, _) => t < |s.tasks| && s.tasks[t] == Idle && s.p.readopen
    case Run(t) => t < |s.tasks| && s.tasks[t] != Idle && !s.tasks[t].asleep
    case Kill(t) => t < |s.tasks|
    case Close(writable) => forall t :: 0 <= t < |s.tasks| ==> if writable then !s.tasks[t].Writing? else !s.tasks[t].Reading?
  }

  function Times(id: nat, n: nat): seq<nat> {
    seq(n, _ => id)
  }

  function Ended(s: State, id: nat, end: End): seq<WriteCall> {
    if id < |s.sends| then s.sends[id := s.sends[id].(end := end)] else s.sends
  }

  function Got(s: State, id: nat, end: End): seq<ReadCall> {
    if id < |s.gets| then s.gets[id := s.gets[id].(end := end)] else s.gets
  }

  /** What pipewrite does of process t, from byte i on. */
  function RunWriter(s: State, t: nat): State
    requires t < |s.tasks| == |s.killed| && s.tasks[t].Writing?
  {
    var task := s.tasks[t];
    if task.i > |task.src| then s
    else
      var r := Fill(s.p, task.src, task.i);
      var s1 := s.(p := r.0, wrote := s.wrote + task.src[task.i..r.1], from := s.from + Times(task.id, r.1 - task.i));
      if r.1 == |task.src| then s1.(tasks := WakeReaders(s.tasks[t := Idle]), sends := Ended(s, task.id, Returned))
      else if !s.p.readopen || s.killed[t] then s1.(tasks := s.tasks[t := Idle], sends := Ended(s, task.id, Failed))
      else s1.(tasks := WakeReaders(s.tasks[t := Writing(task.id, task.src, r.1, true)]))
  }

  function RunReader(s: State, t: nat): State
    requires t < |s.tasks| == |s.killed| && s.tasks[t].Reading?
  {
    var task := s.tasks[t];
    if IsEmpty(s.p) && s.p.writeopen then
      if s.killed[t] then s.(tasks := s.tasks[t := Idle], gets := Got(s, task.id, Failed))
      else s.(tasks := s.tasks[t := Reading(task.id, task.n, true)])
    else
      var r := Drain(s.p, task.n);
      s.(p := r.0, read := s.read + r.1, into := s.into + Times(task.id, |r.1|), tasks := WakeWriters(s.tasks[t := Idle]),
         gets := Got(s, task.id, Returned))
  }

  function Next(s: State, step: Step): State
    requires Enabled(s, step)
  {
    match step
    case Write(t, src) =>
      s.(tasks := s.tasks[t := Writing(|s.sends|, src, 0, false)], sends := s.sends + [WriteCall(src, Going)])
    case Read(t, n) => s.(tasks := s.tasks[t := Reading(|s.gets|, n, false)], gets := s.gets + [ReadCall(n, Going)])
    case Run(t) => if s.tasks[t].Writing? then RunWriter(s, t) else RunReader(s, t)
    case Kill(t) => s.(killed := s.killed[t := true], tasks := s.tasks[t := WakeReader(WakeWriter(s.tasks[t]))])
    case Close(writable) =>
      if writable then s.(p := s.p.(writeopen := false), tasks := WakeReaders(s.tasks))
      else s.(p := s.p.(readopen := false), tasks := WakeWriters(s.tasks))
  }

  function After(n: nat, schedule: seq<Step>): State {
    if schedule == [] then Init(n)
    else
      var s, step := After(n, schedule[..|schedule| - 1]), schedule[|schedule| - 1];
      if Enabled(s, step) then Next(s, step) else s
  }

  // ---- first in, first out

  /** A process in the middle of a call can go on: who sleeps has not been killed, and the other end is open. */
  predicate TaskOk(s: State, t: nat)
    requires t < |s.tasks| == |s.killed|
  {
    match s.tasks[t]
    case Idle => true
    case Writing(_, src, i, asleep) => i <= |src| && s.p.writeopen && (asleep ==> s.p.readopen && !s.killed[t])
    case Reading(_, _, asleep) => s.p.readopen && (asleep ==> s.p.writeopen && !s.killed[t])
  }

  ghost predicate Inv(s: State) {
    |s.killed| == |s.tasks| && Keeps(s.p, s.wrote, s.read) && forall t :: 0 <= t < |s.tasks| ==> TaskOk(s, t)
  }

  lemma {:induction false} FillKeepsEnds(p: Ring, src: seq<Byte>, i: nat)
    requires i <= |src|
    ensures var q := Fill(p, src, i).0; q.nread == p.nread && q.readopen == p.readopen && q.writeopen == p.writeopen
    decreases |src| - i
  {
    if i < |src| && !IsFull(p) {
      FillKeepsEnds(Put(p, src[i]), src, i + 1);
    }
  }

  lemma {:induction false} DrainKeepsEnds(p: Ring, n: nat)
    ensures var q := Drain(p, n).0; q.readopen == p.readopen && q.writeopen == p.writeopen
    decreases n
  {
    if n > 0 && !IsEmpty(p) {
      DrainKeepsEnds(p.(nread := (p.nread + 1) % UINT), n - 1);
    }
  }

  lemma StepKeepsInv(s: State, step: Step)
    requires Inv(s) && Enabled(s, step)
    ensures Inv(Next(s, step))
  {
    var s' := Next(s, step);
    if step.Run? {
      assert TaskOk(s, step.t);
      if s.tasks[step.t].Writing? {
        var task := s.tasks[step.t];
        FillKeeps(s.p, s.wrote, s.read, task.src, task.i);
        FillKeepsEnds(s.p, task.src, task.i);
      } else {
        DrainKeeps(s.p, s.wrote, s.read, s.tasks[step.t].n);
        DrainKeepsEnds(s.p, s.tasks[step.t].n);
      }
    }
    forall t | 0 <= t < |s'.tasks| ensures TaskOk(s', t) {
      assert TaskOk(s, t);
    }
  }

  lemma {:induction false} InvHolds(n: nat, schedule: seq<Step>)
    ensures Inv(After(n, schedule))
  {
    if schedule != [] {
      var s, step := After(n, schedule[..|schedule| - 1]), schedule[|schedule| - 1];
      InvHolds(n, schedule[..|schedule| - 1]);
      if Enabled(s, step) {
        StepKeepsInv(s, step);
      }
    }
  }

  /** In every run, kills and wrapped counters included, the bytes returned are the first of the bytes stored,
      and at most 512 are on the way. */
  lemma FirstInFirstOut(n: nat, schedule: seq<Step>)
    ensures var s := After(n, schedule);
      s.read <= s.wrote && |s.wrote| - |s.read| <= PIPESIZE
  {
    InvHolds(n, schedule);
  }

  // ---- what each call has stored and taken

  /** The bytes of call id among data, in order. */
  function Share(data: seq<Byte>, owner: seq<nat>, id: nat): seq<Byte>
    requires |owner| == |data|
  {
    if data == [] then []
    else
      var last := |data| - 1;
      Share(data[..last], owner[..last], id) + if owner[last] == id then [data[last]] else []
  }

  lemma {:induction false} ShareGrows(data: seq<Byte>, owner: seq<nat>, more: seq<Byte>, to: nat, id: nat)
    requires |owner| == |data|
    ensures Share(data + more, owner + Times(to, |more|), id) == Share(data, owner, id) + if id == to then more else []
    decreases |more|
  {
    if more == [] {
      assert data + more == data && owner + Times(to, 0) == owner;
    } else {
      var last := |more| - 1;
      ShareGrows(data, owner, more[..last], to, id);
      assert (data + more)[..|data| + last] == data + more[..last];
      assert (owner + Times(to, |more|))[..|data| + last] == owner + Times(to, last);
      assert more == more[..last] + [more[last]];
    }
  }

  lemma {:induction false} NoShare(data: seq<Byte>, owner: seq<nat>, id: nat)
    requires |owner| == |data| && forall j :: 0 <= j < |owner| ==> owner[j] < id
    ensures Share(data, owner, id) == []
    decreases |data|
  {
    if data != [] {
      NoShare(data[..|data| - 1], owner[..|data| - 1], id);
    }
  }

  /** What call id of pipewrite has stored. */
  function Stored(s: State, id: nat): seq<Byte>
    requires |s.from| == |s.wrote|
  {
    Share(s.wrote, s.from, id)
  }

  /** What call id of piperead has taken. */
  function Taken(s: State, id: nat): seq<Byte>
    requires |s.into| == |s.read|
  {
    Share(s.read, s.into, id)
  }

  ghost predicate WriterHas(s: State, id: nat) {
    exists t :: 0 <= t < |s.tasks| && s.tasks[t].Writing? && s.tasks[t].id == id
  }

  ghost predicate ReaderHas(s: State, id: nat) {
    exists t :: 0 <= t < |s.tasks| && s.tasks[t].Reading? && s.tasks[t].id == id
  }

  /** A call of pipewrite that has returned n has stored all of src, one that has returned -1 less than that, and both
      from the first byte on. */
  ghost predicate SendOk(s: State, id: nat)
    requires |s.from| == |s.wrote| && id < |s.sends|
  {
    match s.sends[id].end
    case Going => WriterHas(s, id)
    case Returned => Stored(s, id) == s.sends[id].src
    case Failed => |Stored(s, id)| < |s.sends[id].src| && Stored(s, id) <= s.sends[id].src
  }

  ghost predicate GetOk(s: State, id: nat)
    requires |s.into| == |s.read| && id < |s.gets|
  {
    match s.gets[id].end
    case Going => ReaderHas(s, id)
    case Returned => |Taken(s, id)| <= s.gets[id].n
    case Failed => Taken(s, id) == []
  }

  /** A process in pipewrite has stored the bytes before i, and one in piperead none yet. */
  ghost predicate CallOk(s: State, t: nat)
    requires |s.from| == |s.wrote| && |s.into| == |s.read| && t < |s.tasks|
  {
    match s.tasks[t]
    case Idle => true
    case Writing(id, src, i, _) => id < |s.sends| && s.sends[id] == WriteCall(src, Going) && i <= |src| && Stored(s, id) == src[..i]
    case Reading(id, n, _) => id < |s.gets| && s.gets[id] == ReadCall(n, Going) && Taken(s, id) == []
  }

  predicate CallsApart(s: State, t: nat, u: nat)
    requires t < |s.tasks| && u < |s.tasks|
  {
    && (t != u && s.tasks[t].Writing? && s.tasks[u].Writing? ==> s.tasks[t].id != s.tasks[u].id)
    && (t != u && s.tasks[t].Reading? && s.tasks[u].Reading? ==> s.tasks[t].id != s.tasks[u].id)
  }

  ghost predicate CallsOk(s: State) {
    && |s.from| == |s.wrote| && |s.into| == |s.read|
    && (forall j :: 0 <= j < |s.from| ==> s.from[j] < |s.sends|)
    && (forall j :: 0 <= j < |s.into| ==> s.into[j] < |s.gets|)
    && (forall id :: 0 <= id < |s.sends| ==> SendOk(s, id))
    && (forall id :: 0 <= id < |s.gets| ==> GetOk(s, id))
    && (forall t :: 0 <= t < |s.tasks| ==> CallOk(s, t))
    && (forall t, u :: 0 <= t < |s.tasks| && 0 <= u < |s.tasks| ==> CallsApart(s, t, u))
  }

  /** Sleeping and waking aside, every process is where it was. */
  predicate SameWork(a: Task, b: Task) {
    match a
    case Idle => b == Idle
    case Writing(id, src, i, _) => b.Writing? && b == Writing(id, src, i, b.asleep)
    case Reading(id, n, _) => b.Reading? && b == Reading(id, n, b.asleep)
  }

  lemma WakingKeepsCalls(s: State, s': State)
    requires CallsOk(s) && |s'.tasks| == |s.tasks| && forall t :: 0 <= t < |s.tasks| ==> SameWork(s.tasks[t], s'.tasks[t])
    requires s'.wrote == s.wrote && s'.from == s.from && s'.read == s.read && s'.into == s.into && s'.sends == s.sends && s'.gets == s.gets
    ensures CallsOk(s')
  {
    forall id | 0 <= id < |s.sends| ensures SendOk(s', id) {
      assert SendOk(s, id);
      if s.sends[id].end == Going {
        var t :| 0 <= t < |s.tasks| && s.tasks[t].Writing? && s.tasks[t].id == id;
        assert SameWork(s.tasks[t], s'.tasks[t]);
      }
    }
    forall id | 0 <= id < |s.gets| ensures GetOk(s', id) {
      assert GetOk(s, id);
      if s.gets[id].end == Going {
        var t :| 0 <= t < |s.tasks| && s.tasks[t].Reading? && s.tasks[t].id == id;
        assert SameWork(s.tasks[t], s'.tasks[t]);
      }
    }
    forall t | 0 <= t < |s.tasks| ensures CallOk(s', t) {
      assert CallOk(s, t) && SameWork(s.tasks[t], s'.tasks[t]);
    }
    forall t, u | 0 <= t < |s.tasks| && 0 <= u < |s.tasks| ensures CallsApart(s', t, u) {
      assert CallsApart(s, t, u) && SameWork(s.tasks[t], s'.tasks[t]) && SameWork(s.tasks[u], s'.tasks[u]);
    }
  }

  lemma WriteKeepsCalls(s: State, t: nat, src: seq<Byte>)
    requires CallsOk(s) && t < |s.tasks| && s.tasks[t] == Idle
    ensures CallsOk(s.(tasks := s.tasks[t := Writing(|s.sends|, src, 0, false)], sends := s.sends + [WriteCall(src, Going)]))
  {
    var s' := s.(tasks := s.tasks[t := Writing(|s.sends|, src, 0, false)], sends := s.sends + [WriteCall(src, Going)]);
    NoShare(s.wrote, s.from, |s.sends|);
    forall id | 0 <= id < |s'.sends| ensures SendOk(s', id) {
      if id == |s.sends| {
        assert s'.tasks[t].id == id;
      } else {
        assert SendOk(s, id);
        if s.sends[id].end == Going {
          var u :| 0 <= u < |s.tasks| && s.tasks[u].Writing? && s.tasks[u].id == id;
          assert s'.tasks[u] == s.tasks[u];
        }
      }
    }
    forall id | 0 <= id < |s'.gets| ensures GetOk(s', id) {
      assert GetOk(s, id);
      if s.gets[id].end == Going {
        var u :| 0 <= u < |s.tasks| && s.tasks[u].Reading? && s.tasks[u].id == id;
        assert s'.tasks[u] == s.tasks[u];
      }
    }
    forall u | 0 <= u < |s.tasks| ensures CallOk(s', u) {
      assert CallOk(s, u);
    }
    forall u, v | 0 <= u < |s.tasks| && 0 <= v < |s.tasks| ensures CallsApart(s', u, v) {
      assert CallsApart(s, u, v) && CallOk(s, u) && CallOk(s, v);
    }
  }

  lemma ReadKeepsCalls(s: State, t: nat, n: nat)
    requires CallsOk(s) && t < |s.tasks| && s.tasks[t] == Idle
    ensures CallsOk(s.(tasks := s.tasks[t := Reading(|s.gets|, n, false)], gets := s.gets + [ReadCall(n, Going)]))
  {
    var s' := s.(tasks := s.tasks[t := Reading(|s.gets|, n, false)], gets := s.gets + [ReadCall(n, Going)]);
    NoShare(s.read, s.into, |s.gets|);
    forall id | 0 <= id < |s'.gets| ensures GetOk(s', id) {
      if id == |s.gets| {
        assert s'.tasks[t].id == id;
      } else {
        assert GetOk(s, id);
        if s.gets[id].end == Going {
          var u :| 0 <= u < |s.tasks| && s.tasks[u].Reading? && s.tasks[u].id == id;
          assert s'.tasks[u] == s.tasks[u];
        }
      }
    }
    forall id | 0 <= id < |s'.sends| ensures SendOk(s', id) {
      assert SendOk(s, id);
      if s.sends[id].end == Going {
        var u :| 0 <= u < |s.tasks| && s.tasks[u].Writing? && s.tasks[u].id == id;
        assert s'.tasks[u] == s.tasks[u];
      }
    }
    forall u | 0 <= u < |s.tasks| ensures CallOk(s', u) {
      assert CallOk(s, u);
    }
    forall u, v | 0 <= u < |s.tasks| && 0 <= v < |s.tasks| ensures CallsApart(s', u, v) {
      assert CallsApart(s, u, v) && CallOk(s, u) && CallOk(s, v);
    }
  }

  /** Process t stores the bytes of its call up to e, and is then asleep, or idle with that end. */
  lemma StoreKeepsCalls(s: State, s': State, t: nat, e: nat, task: Task, end: End)
    requires CallsOk(s) && t < |s.tasks| && s.tasks[t].Writing? && s.tasks[t].i <= e <= |s.tasks[t].src|
    requires var w := s.tasks[t];
      && s'.wrote == s.wrote + w.src[w.i..e] && s'.from == s.from + Times(w.id, e - w.i)
      && s'.tasks == s.tasks[t := task] && s'.sends == Ended(s, w.id, end) && s'.read == s.read && s'.into == s.into && s'.gets == s.gets
      && match end
         case Going => task == Writing(w.id, w.src, e, true)
         case Returned => task == Idle && e == |w.src|
         case Failed => task == Idle && e < |w.src|
    ensures CallsOk(s')
  {
    var w := s.tasks[t];
    assert CallOk(s, t);
    forall id ensures Stored(s', id) == if id == w.id then w.src[..e] else Stored(s, id) {
      ShareGrows(s.wrote, s.from, w.src[w.i..e], w.id, id);
      assert w.src[..w.i] + w.src[w.i..e] == w.src[..e];
    }
    forall id | 0 <= id < |s'.sends| ensures SendOk(s', id) {
      assert SendOk(s, id);
      StoredEnds(s, s', t, e, task, end, id);
    }
    forall id | 0 <= id < |s'.gets| ensures GetOk(s', id) {
      assert GetOk(s, id);
      if s.gets[id].end == Going {
        var u :| 0 <= u < |s.tasks| && s.tasks[u].Reading? && s.tasks[u].id == id;
        assert s'.tasks[u] == s.tasks[u];
      }
    }
    forall u | 0 <= u < |s.tasks| ensures CallOk(s', u) {
      assert CallOk(s, u) && CallsApart(s, t, u);
    }
    forall u, v | 0 <= u < |s.tasks| && 0 <= v < |s.tasks| ensures CallsApart(s', u, v) {
      assert CallsApart(s, u, v);
    }
  }

  lemma StoredEnds(s: State, s': State, t: nat, e: nat, task: Task, end: End, id: nat)
    requires |s.from| == |s.wrote| && |s'.from| == |s'.wrote| && t < |s.tasks| && s.tasks[t].Writing? && e <= |s.tasks[t].src|
    requires var w := s.tasks[t];
      && w.id < |s.sends| && s.sends[w.id] == WriteCall(w.src, Going)
      && s'.tasks == s.tasks[t := task] && s'.sends == s.sends[w.id := s.sends[w.id].(end := end)]
      && match end
         case Going => task == Writing(w.id, w.src, e, true)
         case Returned => task == Idle && e == |w.src|
         case Failed => task == Idle && e < |w.src|
    requires id < |s.sends| && SendOk(s, id) && Stored(s', id) == if id == s.tasks[t].id then s.tasks[t].src[..e] else Stored(s, id)
    ensures SendOk(s', id)
  {
    var w := s.tasks[t];
    if id == w.id {
      assert s'.tasks[t] == task;
    } else if s.sends[id].end == Going {
      var u :| 0 <= u < |s.tasks| && s.tasks[u].Writing? && s.tasks[u].id == id;
      assert s'.tasks[u] == s.tasks[u];
    }
  }

  /** Process t takes bytes, if any, and its call ends. */
  lemma TakeKeepsCalls(s: State, s': State, t: nat, out: seq<Byte>, end: End)
    requires CallsOk(s) && t < |s.tasks| && s.tasks[t].Reading?
    requires var w := s.tasks[t];
      && s'.read == s.read + out && s'.into == s.into + Times(w.id, |out|) && |out| <= w.n && end != Going
      && (end == Failed ==> out == []) && s'.tasks == s.tasks[t := Idle] && s'.gets == Got(s, w.id, end)
      && s'.wrote == s.wrote && s'.from == s.from && s'.sends == s.sends
    ensures CallsOk(s')
  {
    var w := s.tasks[t];
    assert CallOk(s, t);
    forall id ensures Taken(s', id) == if id == w.id then out else Taken(s, id) {
      ShareGrows(s.read, s.into, out, w.id, id);
      assert [] + out == out;
    }
    forall id | 0 <= id < |s'.gets| ensures GetOk(s', id) {
      assert GetOk(s, id);
      if id != w.id && s.gets[id].end == Going {
        var u :| 0 <= u < |s.tasks| && s.tasks[u].Reading? && s.tasks[u].id == id;
        assert s'.tasks[u] == s.tasks[u];
      }
    }
    forall id | 0 <= id < |s'.sends| ensures SendOk(s', id) {
      assert SendOk(s, id);
      if s.sends[id].end == Going {
        var u :| 0 <= u < |s.tasks| && s.tasks[u].Writing? && s.tasks[u].id == id;
        assert s'.tasks[u] == s.tasks[u];
      }
    }
    forall u | 0 <= u < |s.tasks| ensures CallOk(s', u) {
      assert CallOk(s, u) && CallsApart(s, t, u);
    }
    forall u, v | 0 <= u < |s.tasks| && 0 <= v < |s.tasks| ensures CallsApart(s', u, v) {
      assert CallsApart(s, u, v);
    }
  }

  lemma RunKeepsCalls(s: State, t: nat)
    requires CallsOk(s) && Inv(s) && Enabled(s, Run(t))
    ensures CallsOk(Next(s, Run(t)))
  {
    var w, s' := s.tasks[t], Next(s, Run(t));
    assert TaskOk(s, t) && CallOk(s, t);
    if w.Writing? {
      var r := Fill(s.p, w.src, w.i);
      var end := if r.1 == |w.src| then Returned else if !s.p.readopen || s.killed[t] then Failed else Going;
      var task := if end == Going then Writing(w.id, w.src, r.1, true) else Idle;
      var m := s'.(tasks := s.tasks[t := task], sends := Ended(s, w.id, end));
      assert Ended(s, w.id, Going) == s.sends;
      StoreKeepsCalls(s, m, t, r.1, task, end);
      WakingKeepsCalls(m, s');
    } else if IsEmpty(s.p) && s.p.writeopen {
      if s.killed[t] {
        assert s.into + Times(w.id, 0) == s.into && s.read + [] == s.read;
        TakeKeepsCalls(s, s', t, [], Failed);
      } else {
        WakingKeepsCalls(s, s');
      }
    } else {
      var r := Drain(s.p, w.n);
      DrainKeeps(s.p, s.wrote, s.read, w.n);
      var m := s'.(tasks := s.tasks[t := Idle]);
      TakeKeepsCalls(s, m, t, r.1, Returned);
      WakingKeepsCalls(m, s');
    }
  }

  lemma StepKeepsCalls(s: State, step: Step)
    requires CallsOk(s) && Inv(s) && Enabled(s, step)
    ensures CallsOk(Next(s, step))
  {
    match step
    case Write(t, src) => WriteKeepsCalls(s, t, src);
    case Read(t, n) => ReadKeepsCalls(s, t, n);
    case Run(t) => RunKeepsCalls(s, t);
    case _ => WakingKeepsCalls(s, Next(s, step));
  }

  lemma {:induction false} CallsHold(n: nat, schedule: seq<Step>)
    ensures Inv(After(n, schedule)) && CallsOk(After(n, schedule))
  {
    InvHolds(n, schedule);
    if schedule != [] {
      var s, step := After(n, schedule[..|schedule| - 1]), schedule[|schedule| - 1];
      CallsHold(n, schedule[..|schedule| - 1]);
      if Enabled(s, step) {
        StepKeepsCalls(s, step);
      }
    }
  }

  /** Process t is in call id of pipewrite, and the bytes before i are what it has stored. */
  predicate Underway(s: State, t: nat, id: nat)
    requires |s.from| == |s.wrote|
  {
    && t < |s.tasks| && id < |s.sends| && s.tasks[t].Writing? && s.tasks[t].id == id && s.tasks[t].src == s.sends[id].src
    && s.tasks[t].i <= |s.sends[id].src| && Stored(s, id) == s.sends[id].src[..s.tasks[t].i]
  }

  /** In every run, whoever else reads and writes: a call of pipewrite that is under way has stored the bytes before i, in
      order; one that has returned n has stored all of src, and one that has returned -1 a beginning of it. */
  lemma CallsStoreInOrder(n: nat, schedule: seq<Step>, id: nat)
    requires id < |After(n, schedule).sends|
    ensures var s := After(n, schedule);
      && |s.from| == |s.wrote|
      && match s.sends[id].end
         case Going => exists t :: 0 <= t < |s.tasks| && Underway(s, t, id)
         case Returned => Stored(s, id) == s.sends[id].src
         case Failed => Stored(s, id) < s.sends[id].src
  {
    CallsHold(n, schedule);
    var s := After(n, schedule);
    assert SendOk(s, id);
    if s.sends[id].end == Going {
      var t :| 0 <= t < |s.tasks| && s.tasks[t].Writing? && s.tasks[t].id == id;
      assert CallOk(s, t) && Underway(s, t, id);
    }
  }

  // ---- one turn of a writer, one turn of a reader

  predicate NoReaderSleeps(ts: seq<Task>) {
    forall u :: 0 <= u < |ts| && ts[u].Reading? ==> !ts[u].asleep
  }

  predicate NoWriterSleeps(ts: seq<Task>) {
    forall u :: 0 <= u < |ts| && ts[u].Writing? ==> !ts[u].asleep
  }

  /** From taking p->lock to sleeping or returning pipewrite stores as many bytes as there is room for, returns n exactly
      when that was the rest of them, and -1 exactly when it was not and the reader has gone or it has been killed;
      otherwise it sleeps. Unless it returns -1 no reader sleeps any more. */
  ghost predicate WritesOn(s: State, s': State, t: nat)
    requires t < |s.tasks| == |s.killed| && s.tasks[t].Writing?
  {
    var w := s.tasks[t];
    && |s.read| <= |s.wrote| <= |s.read| + PIPESIZE && w.i <= |w.src| && |s'.tasks| == |s.tasks| && w.id < |s'.sends|
    && var room, left := |s.read| + PIPESIZE - |s.wrote|, |w.src| - w.i;
       && s'.wrote == s.wrote + w.src[w.i..w.i + Min(left, room)] && s'.read == s.read
       && if left <= room then s'.tasks[t] == Idle && s'.sends[w.id].end == Returned && NoReaderSleeps(s'.tasks)
          else if !s.p.readopen || s.killed[t] then s'.tasks[t] == Idle && s'.sends[w.id].end == Failed
          else s'.tasks[t] == Writing(w.id, w.src, w.i + room, true) && s'.sends[w.id].end == Going && NoReaderSleeps(s'.tasks)
  }

  lemma WriterTurn(n: nat, schedule: seq<Step>, t: nat)
    requires Enabled(After(n, schedule), Run(t)) && After(n, schedule).tasks[t].Writing?
    ensures WritesOn(After(n, schedule), Next(After(n, schedule), Run(t)), t)
  {
    CallsHold(n, schedule);
    var s := After(n, schedule);
    assert TaskOk(s, t) && CallOk(s, t);
    WriterGoesOn(s, t);
  }

  lemma WriterGoesOn(s: State, t: nat)
    requires t < |s.tasks| == |s.killed| && s.tasks[t].Writing? && Keeps(s.p, s.wrote, s.read) && s.tasks[t].i <= |s.tasks[t].src|
    requires s.tasks[t].id < |s.sends| && s.sends[s.tasks[t].id].end == Going
    ensures WritesOn(s, RunWriter(s, t), t) == true
  {
    FillKeeps(s.p, s.wrote, s.read, s.tasks[t].src, s.tasks[t].i);
  }

  /** From taking p->lock to sleeping or returning piperead takes the oldest bytes, as many as it asks for and there are,
      and leaves no writer asleep; it waits exactly when there are none and the writer is there, and then returns -1 if
      it has been killed. */
  ghost predicate ReadsOn(s: State, s': State, t: nat)
    requires t < |s.tasks| == |s.killed| && s.tasks[t].Reading?
  {
    var w := s.tasks[t];
    && |s.read| <= |s.wrote| && w.id < |s'.gets| && |s'.tasks| == |s.tasks| && s'.wrote == s.wrote
    && var there := |s.wrote| - |s.read|;
       if there == 0 && s.p.writeopen then
         && s'.read == s.read
         && if s.killed[t] then s'.tasks[t] == Idle && s'.gets[w.id].end == Failed
            else s'.tasks[t] == Reading(w.id, w.n, true) && s'.gets[w.id].end == Going
       else
         && s'.read == s.read + s.wrote[|s.read|..|s.read| + Min(w.n, there)]
         && s'.tasks[t] == Idle && s'.gets[w.id].end == Returned && NoWriterSleeps(s'.tasks)
  }

  lemma ReaderTurn(n: nat, schedule: seq<Step>, t: nat)
    requires Enabled(After(n, schedule), Run(t)) && After(n, schedule).tasks[t].Reading?
    ensures ReadsOn(After(n, schedule), Next(After(n, schedule), Run(t)), t)
  {
    CallsHold(n, schedule);
    var s := After(n, schedule);
    assert CallOk(s, t);
    ReaderGoesOn(s, t);
  }

  lemma ReaderGoesOn(s: State, t: nat)
    requires t < |s.tasks| == |s.killed| && s.tasks[t].Reading? && Keeps(s.p, s.wrote, s.read)
    requires s.tasks[t].id < |s.gets| && s.gets[s.tasks[t].id].end == Going
    ensures ReadsOn(s, RunReader(s, t), t) == true
  {
    var w := s.tasks[t];
    FullIsFull(s.p, s.wrote, s.read);
    if !(IsEmpty(s.p) && s.p.writeopen) {
      DrainKeeps(s.p, s.wrote, s.read, w.n);
      OldestOut(s.p, s.wrote, s.read, w.n);
    }
  }

  lemma OldestOut(p: Ring, wrote: seq<Byte>, read: seq<Byte>, n: nat)
    requires Keeps(p, wrote, read)
    ensures Drain(p, n).1 == wrote[|read|..|read| + Min(n, |wrote| - |read|)]
  {
    DrainKeeps(p, wrote, read, n);
    var out := Drain(p, n).1;
    assert (read + out)[|read|..] == out;
    assert wrote[..|read + out|][|read|..] == wrote[|read|..|read| + |out|];
  }

  // ---- one writer

  /** What the first k calls of pipewrite have stored, one after the other. */
  function Joined(s: State, k: nat): seq<Byte>
    requires |s.from| == |s.wrote|
  {
    if k == 0 then [] else Joined(s, k - 1) + Stored(s, k - 1)
  }

  predicate OnlyWriter(schedule: seq<Step>, w: nat) {
    forall k :: 0 <= k < |schedule| && schedule[k].Write? ==> schedule[k].t == w
  }

  ghost predicate OneWriter(s: State, w: nat) {
    && |s.from| == |s.wrote| && s.wrote == Joined(s, |s.sends|)
    && (forall t :: 0 <= t < |s.tasks| && s.tasks[t].Writing? ==> t == w && s.tasks[t].id + 1 == |s.sends|)
  }

  lemma {:induction false} JoinedSame(s: State, s': State, k: nat)
    requires |s.from| == |s.wrote| && |s'.from| == |s'.wrote|
    requires forall id :: 0 <= id < k ==> Stored(s', id) == Stored(s, id)
    ensures Joined(s', k) == Joined(s, k)
  {
    if k > 0 {
      JoinedSame(s, s', k - 1);
    }
  }

  lemma StepKeepsOneWriter(s: State, step: Step, w: nat)
    requires CallsOk(s) && Inv(s) && Enabled(s, step) && OneWriter(s, w) && (step.Write? ==> step.t == w)
    ensures OneWriter(Next(s, step), w)
  {
    if step.Write? {
      NewCallJoins(s, w, step.src);
    } else if step.Run? && s.tasks[step.t].Writing? {
      WriterJoins(s, step.t, w);
    } else {
      OthersJoin(s, step, w);
    }
  }

  lemma NewCallJoins(s: State, w: nat, src: seq<Byte>)
    requires CallsOk(s) && Enabled(s, Write(w, src)) && OneWriter(s, w)
    ensures OneWriter(Next(s, Write(w, src)), w)
  {
    var s' := Next(s, Write(w, src));
    NoShare(s.wrote, s.from, |s.sends|);
    JoinedSame(s, s', |s.sends|);
    assert Joined(s', |s.sends| + 1) == Joined(s, |s.sends|) + [];
  }

  lemma OthersJoin(s: State, step: Step, w: nat)
    requires Enabled(s, step) && OneWriter(s, w) && !step.Write? && !(step.Run? && s.tasks[step.t].Writing?)
    ensures OneWriter(Next(s, step), w)
  {
    JoinedSame(s, Next(s, step), |s.sends|);
  }

  lemma WriterJoins(s: State, t: nat, w: nat)
    requires CallsOk(s) && Inv(s) && Enabled(s, Run(t)) && OneWriter(s, w) && s.tasks[t].Writing?
    ensures OneWriter(Next(s, Run(t)), w)
  {
    var task := s.tasks[t];
    assert TaskOk(s, t) && CallOk(s, t);
    JoinsLast(s, RunWriter(s, t), task.src[task.i..Fill(s.p, task.src, task.i).1]);
  }

  /** More bytes of the last call. */
  lemma JoinsLast(s: State, s': State, more: seq<Byte>)
    requires |s.from| == |s.wrote| && s.wrote == Joined(s, |s.sends|) && 0 < |s.sends| == |s'.sends|
    requires s'.wrote == s.wrote + more && s'.from == s.from + Times(|s.sends| - 1, |more|)
    ensures s'.wrote == Joined(s', |s'.sends|)
  {
    var last := |s.sends| - 1;
    forall id: nat ensures Stored(s', id) == Stored(s, id) + if id == last then more else [] {
      ShareGrows(s.wrote, s.from, more, last, id);
    }
    assert forall id :: 0 <= id < last ==> Stored(s, id) + [] == Stored(s, id);
    JoinedSame(s, s', last);
    assert Joined(s', last + 1) == Joined(s, last) + (Stored(s, last) + more) == Joined(s, last + 1) + more;
  }

  /** With one writer, the bytes that were stored are those of its calls, one call after the other: all of src of each
      that has returned n, a beginning of it of each that has returned -1, and src[..i] of the one under way. */
  lemma {:induction false} OneWriterInOrder(n: nat, schedule: seq<Step>, w: nat)
    requires OnlyWriter(schedule, w)
    ensures CallsOk(After(n, schedule)) && OneWriter(After(n, schedule), w)
  {
    CallsHold(n, schedule);
    if schedule != [] {
      var s, step := After(n, schedule[..|schedule| - 1]), schedule[|schedule| - 1];
      OneWriterInOrder(n, schedule[..|schedule| - 1], w);
      CallsHold(n, schedule[..|schedule| - 1]);
      if Enabled(s, step) {
        StepKeepsOneWriter(s, step, w);
      }
    }
  }

  // ---- who sleeps

  /** A sleeping reader means an empty pipe, a sleeping writer a full one. */
  predicate SleepOk(s: State, t: nat)
    requires t < |s.tasks|
  {
    && (s.tasks[t].Reading? && s.tasks[t].asleep ==> IsEmpty(s.p) && s.p.writeopen)
    && (s.tasks[t].Writing? && s.tasks[t].asleep ==> IsFull(s.p))
  }

  ghost predicate AllSleepOk(s: State) {
    forall t :: 0 <= t < |s.tasks| ==> SleepOk(s, t)
  }

  predicate ReaderSleeps(s: State) {
    exists t :: 0 <= t < |s.tasks| && s.tasks[t].Reading? && s.tasks[t].asleep
  }

  /** The step that strands a reader: a killed writer with more than a pipeful to go. */
  predicate Strands(s: State, step: Step) {
    && step.Run? && step.t < |s.tasks| == |s.killed| && s.tasks[step.t].Writing? && s.killed[step.t]
    && s.tasks[step.t].i <= |s.tasks[step.t].src| && |s.tasks[step.t].src| - s.tasks[step.t].i > PIPESIZE
    && ReaderSleeps(s)
  }

  /** A step keeps sleepers in order exactly when it does not strand a reader. */
  lemma SleepersKept(s: State, step: Step)
    requires Inv(s) && AllSleepOk(s) && Enabled(s, step)
    ensures AllSleepOk(Next(s, step)) <==> !Strands(s, step)
  {
    if step.Run? {
      if s.tasks[step.t].Writing? {
        WriterKeepsSleepers(s, step.t);
      } else {
        ReaderKeepsSleepers(s, step.t);
      }
    } else {
      forall t | 0 <= t < |s.tasks| ensures SleepOk(Next(s, step), t) {
        assert SleepOk(s, t);
      }
    }
  }

  lemma ReaderKeepsSleepers(s: State, t: nat)
    requires Inv(s) && AllSleepOk(s) && Enabled(s, Run(t)) && s.tasks[t].Reading?
    ensures AllSleepOk(RunReader(s, t))
  {
    var s' := RunReader(s, t);
    if !(IsEmpty(s.p) && s.p.writeopen) {
      forall q | 0 <= q < |s.tasks| ensures !s'.tasks[q].Idle? ==> !s'.tasks[q].asleep {
        assert SleepOk(s, q);
      }
    }
    forall q | 0 <= q < |s.tasks| ensures SleepOk(s', q) {
      assert SleepOk(s, q);
    }
  }

  lemma WriterKeepsSleepers(s: State, t: nat)
    requires Inv(s) && AllSleepOk(s) && Enabled(s, Run(t)) && s.tasks[t].Writing?
    ensures AllSleepOk(RunWriter(s, t)) <==> !Strands(s, Run(t))
  {
    var s', task := RunWriter(s, t), s.tasks[t];
    assert TaskOk(s, t);
    FillKeeps(s.p, s.wrote, s.read, task.src, task.i);
    FillKeepsEnds(s.p, task.src, task.i);
    FullIsFull(s.p, s.wrote, s.read);
    FullIsFull(s'.p, s'.wrote, s'.read);
    if ReaderSleeps(s) {
      var q :| 0 <= q < |s.tasks| && s.tasks[q].Reading? && s.tasks[q].asleep;
      assert SleepOk(s, q) && TaskOk(s, q);
      if Strands(s, Run(t)) {
        assert s'.tasks[q] == s.tasks[q] && !SleepOk(s', q);
      }
    }
    if !Strands(s, Run(t)) {
      forall q | 0 <= q < |s.tasks| ensures SleepOk(s', q) {
        assert SleepOk(s, q) && TaskOk(s, q);
      }
    }
  }

  predicate NoKills(schedule: seq<Step>) {
    forall i :: 0 <= i < |schedule| ==> !schedule[i].Kill?
  }

  lemma {:induction false} SleepersHold(n: nat, schedule: seq<Step>)
    requires NoKills(schedule)
    ensures var s := After(n, schedule);
      AllSleepOk(s) && |s.killed| == |s.tasks| && forall t :: 0 <= t < |s.killed| ==> !s.killed[t]
  {
    if schedule != [] {
      var s, step := After(n, schedule[..|schedule| - 1]), schedule[|schedule| - 1];
      SleepersHold(n, schedule[..|schedule| - 1]);
      InvHolds(n, schedule[..|schedule| - 1]);
      if Enabled(s, step) {
        SleepersKept(s, step);
      }
    }
  }

  /** In every run without kills a sleeping reader finds the pipe empty and a sleeping writer finds it full, so
      a reader and a writer never sleep at the same time. */
  lemma NeverBothAsleep(n: nat, schedule: seq<Step>, t: nat, u: nat)
    requires NoKills(schedule)
    requires var s := After(n, schedule); t < |s.tasks| && u < |s.tasks| && s.tasks[t].Reading? && s.tasks[t].asleep
    ensures var s := After(n, schedule);
      && s.wrote == s.read
      && !(s.tasks[u].Writing? && s.tasks[u].asleep)
  {
    var s := After(n, schedule);
    SleepersHold(n, schedule);
    InvHolds(n, schedule);
    assert SleepOk(s, t) && SleepOk(s, u);
    FullIsFull(s.p, s.wrote, s.read);
    assert s.wrote[..|s.read|] == s.wrote;
  }

  function Zeroes(n: nat): seq<Byte> {
    seq(n, _ => 0)
  }

  lemma AfterMore(n: nat, schedule: seq<Step>, step: Step)
    ensures var s := After(n, schedule); After(n, schedule + [step]) == if Enabled(s, step) then Next(s, step) else s
  {
    assert (schedule + [step])[..|schedule|] == schedule;
  }

  /** A reader sleeps though there is something to read. */
  predicate Stranded(s: State, t: nat) {
    t < |s.tasks| && s.tasks[t].Reading? && s.tasks[t].asleep && !IsEmpty(s.p)
  }

  /** A reader falls asleep, a writer of 513 bytes starts and is killed. */
  function Prelude(): seq<Step> {
    [Read(0, 1), Run(0), Write(1, Zeroes(PIPESIZE + 1)), Kill(1)]
  }

  lemma AfterPrelude()
    ensures var s := After(2, Prelude());
      && s.tasks == [Reading(0, 1, true), Writing(0, Zeroes(PIPESIZE + 1), 0, false)] && s.killed == [false, true]
      && s.wrote == [] && s.read == [] && s.p == Init(2).p
  {
    var a := [Read(0, 1)];
    var b := a + [Run(0)];
    var c := b + [Write(1, Zeroes(PIPESIZE + 1))];
    AfterMore(2, [], Read(0, 1));
    assert [] + [Read(0, 1)] == a;
    AfterMore(2, a, Run(0));
    AfterMore(2, b, Write(1, Zeroes(PIPESIZE + 1)));
    AfterMore(2, c, Kill(1));
    assert c + [Kill(1)] == Prelude();
  }

  /** With a kill it can happen: the killed writer fills the pipe and returns -1 without waking the reader. */
  lemma KillStrandsReader()
    ensures exists schedule :: Stranded(After(2, schedule), 0)
  {
    AfterPrelude();
    var e := Prelude() + [Run(1)];
    AfterMore(2, Prelude(), Run(1));
    var s, s' := After(2, Prelude()), After(2, e);
    InvHolds(2, Prelude());
    InvHolds(2, e);
    FillKeeps(s.p, [], [], Zeroes(PIPESIZE + 1), 0);
    FillKeepsEnds(s.p, Zeroes(PIPESIZE + 1), 0);
    FullIsFull(s'.p, s'.wrote, s'.read);
    assert Stranded(s', 0);
  }
}
