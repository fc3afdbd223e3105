/** Several processes over one area: every interleaving of lock, unlock, attach and the bodies of
    extend, alloc, free and shrinking realloc (userspace/lib/mm.c:126-258,
    userspace/include/mm.h:68-98). A body is one step, taken by a process that holds the lock;
    `Mm.Handle.Took` says of each call that it is lock, body, unlock. */
module MmProtocol {
  import opened MmLayout

  type Pid = nat

  /** The part of struct mm_private that changes. */
  datatype Proc = Proc(lock: nat, mapped: nat)

  datatype System = System(area: Area, sem: nat, procs: map<Pid, Proc>)

  datatype Step =
    | Attach(pid: Pid)
    | Lock(pid: Pid)
    | Unlock(pid: Pid)
    | Extend(pid: Pid, more: nat, canGrow: bool)
    | Alloc(pid: Pid, size: nat, canGrow: bool)
    | Free(pid: Pid, ptr: nat)
    | Shrink(pid: Pid, ptr: nat, size: nat)

  predicate Enabled(s: System, step: Step) {
    match step
    case Attach(pid) => pid !in s.procs && s.sem > 0
    case Lock(pid) => pid in s.procs && (s.procs[pid].lock > 0 || s.sem > 0)
    case Unlock(pid) => Holds(s, pid)
    case Extend(pid, _, _) => Holds(s, pid)
    case Alloc(pid, _, _) => Holds(s, pid)
    case Free(pid, ptr) => Holds(s, pid) && (ptr == 0 || s.area.Live(ptr))
    case Shrink(pid, ptr, size) =>
      Holds(s, pid) && s.area.Live(ptr)
      && 0 < size && size + CHUNK <= s.area.chunks[IndexOf(s.area, ptr)].size
  }

  predicate Holds(s: System, pid: Pid) {
    pid in s.procs && s.procs[pid].lock > 0
  }

  function LockProc(p: Proc, total: nat): Proc {
    if p.lock == 0 && p.mapped < total then Proc(1, total) else p.(lock := p.lock + 1)
  }

  /** mm_extend computes the new total from what the caller has mapped. */
  function ExtendArea(a: Area, mapped: nat, more: nat): Area {
    a.(dynamicSize := if a.Base() <= mapped + more then mapped + more - a.Base() else 0)
  }

  function Next(s: System, step: Step): System
    requires Enabled(s, step)
  {
    match step
    case Attach(pid) => s.(procs := s.procs[pid := Proc(0, s.area.Total())])
    case Lock(pid) =>
      var p := s.procs[pid];
      s.(sem := if p.lock == 0 then s.sem - 1 else s.sem,
         procs := s.procs[pid := LockProc(p, s.area.Total())])
    case Unlock(pid) =>
      var p := s.procs[pid];
      s.(sem := if p.lock == 1 then s.sem + 1 else s.sem,
         procs := s.procs[pid := p.(lock := p.lock - 1)])
    case Extend(pid, more, canGrow) =>
      if more == 0 || !canGrow then s
      else
        var p := s.procs[pid];
        s.(area := ExtendArea(s.area, p.mapped, more),
           procs := s.procs[pid := p.(mapped := p.mapped + more)])
    case Alloc(pid, size, canGrow) =>
      var p := s.procs[pid];
      var b := MmLayout.Alloc(s.area, size, canGrow).0;
      s.(area := b, procs := s.procs[pid := p.(mapped := p.mapped + (b.dynamicSize - s.area.dynamicSize))])
    case Free(pid, ptr) => s.(area := Release(s.area, ptr))
    case Shrink(pid, ptr, size) => s.(area := Resize(s.area, IndexOf(s.area, ptr), size + CHUNK))
  }

  /** At most one process holds the semaphore; nobody has mapped more than there is; the holder has
      mapped exactly what there is. */
  ghost predicate Safe(s: System) {
    && s.area.WellFormed()
    && s.sem <= 1
    && (forall pid | pid in s.procs :: SHARED <= s.procs[pid].mapped <= s.area.Total())
    && (forall pid | Holds(s, pid) :: s.sem == 0 && s.procs[pid].mapped == s.area.Total())
    && (forall pid, q | Holds(s, pid) && Holds(s, q) :: pid == q)
    && (s.sem == 0 ==> exists pid :: Holds(s, pid))
  }

  ghost predicate Initial(s: System) {
    s.area.chunks == [] && s.sem == 1 && s.procs == map[]
  }

  ghost predicate IsRun(ss: seq<System>, steps: seq<Step>) {
    && |ss| == |steps| + 1
    && Initial(ss[0])
    && forall k | 0 <= k < |steps| :: TakesStep(ss[k], steps[k], ss[k + 1])
  }

  predicate TakesStep(s: System, step: Step, s': System) {
    Enabled(s, step) && s' == Next(s, step)
  }

  // ----- One step -----------------------------------------------------------

  lemma StepKeepsArea(s: System, step: Step)
    requires Safe(s) && Enabled(s, step)
    ensures var a, b := s.area, Next(s, step).area;
            b.WellFormed() && b.Base() == a.Base() && b.Total() >= a.Total()
    ensures step.Extend? && step.more > 0 && step.canGrow ==> Next(s, step).area == Grow(s.area, step.more)
  {
    match step
    case Extend(pid, more, canGrow) => GrowKeepsWellFormed(s.area, more);
    case Alloc(pid, size, canGrow) => AllocKeepsWellFormed(s.area, size, canGrow);
    case Free(pid, ptr) => if ptr != 0 { RemoveKeepsWellFormed(s.area, IndexOf(s.area, ptr)); }
    case Shrink(pid, ptr, size) => ResizeKeepsWellFormed(s.area, IndexOf(s.area, ptr), size + CHUNK);
    case _ =>
  }

  lemma StepKeepsSafe(s: System, step: Step)
    requires Safe(s) && Enabled(s, step)
    ensures Safe(Next(s, step))
  {
    var s' := Next(s, step);
    StepKeepsArea(s, step);
    assert forall pid | pid in s'.procs && pid != step.pid :: pid in s.procs && s'.procs[pid] == s.procs[pid];
    assert forall pid | Holds(s', pid) && pid != step.pid :: Holds(s, pid);
    if s'.sem == 0 {
      assert step.Lock? ==> Holds(s', step.pid);
      if !step.Lock? {
        var pid :| Holds(s, pid);
        assert Holds(s', pid);
      }
    }
  }

  /** The step is a free or a shrink of exactly this chunk. */
  predicate Touches(step: Step, c: Chunk) {
    (step.Free? || step.Shrink?) && step.ptr == c.Payload()
  }

  /** A live chunk stays where it is, untouched, whatever any process does, unless the step frees
      or shrinks exactly that chunk. */
  lemma StepKeepsChunk(s: System, step: Step, c: Chunk)
    requires Enabled(s, step) && c in s.area.chunks && !Touches(step, c)
    ensures c in Next(s, step).area.chunks
  {
    match step
    case Alloc(pid, size, canGrow) => AllocKeepsChunk(s.area, size, canGrow, c);
    case Free(pid, ptr) => ReleaseKeepsChunk(s.area, ptr, c);
    case Shrink(pid, ptr, size) =>
      var i :| 0 <= i < |s.area.chunks| && s.area.chunks[i] == c;
      assert Next(s, step).area.chunks[i] == c;
    case _ =>
  }

  lemma AllocKeepsChunk(a: Area, size: nat, canGrow: bool, c: Chunk)
    requires c in a.chunks
    ensures c in MmLayout.Alloc(a, size, canGrow).0.chunks
  {
    var i :| 0 <= i < |a.chunks| && a.chunks[i] == c;
    var b := MmLayout.Alloc(a, size, canGrow).0;
    if b.chunks != a.chunks {
      var k := FirstFit(a, CHUNK + size, 0);
      assert b.chunks[if i < k then i else i + 1] == c;
    }
  }

  lemma ReleaseKeepsChunk(a: Area, ptr: nat, c: Chunk)
    requires c in a.chunks && ptr != c.Payload() && (ptr == 0 || a.Live(ptr))
    ensures c in Release(a, ptr).chunks
  {
    if ptr != 0 {
      var i :| 0 <= i < |a.chunks| && a.chunks[i] == c;
      var k := IndexOf(a, ptr);
      assert Release(a, ptr).chunks[if i < k then i else i - 1] == c;
    }
  }

  // ----- Whole calls --------------------------------------------------------

  /** The steps that are bodies of library calls. */
  predicate IsBody(step: Step) { step.Extend? || step.Alloc? || step.Free? || step.Shrink? }

  /** What a body does to the area. */
  function Body(a: Area, step: Step): Area
    requires IsBody(step) && CanRun(a, step)
  {
    match step
    case Extend(_, more, canGrow) => if canGrow then Grow(a, more) else a
    case Alloc(_, size, canGrow) => MmLayout.Alloc(a, size, canGrow).0
    case Free(_, ptr) => Release(a, ptr)
    case Shrink(_, ptr, size) => Resize(a, IndexOf(a, ptr), size + CHUNK)
  }

  predicate CanRun(a: Area, step: Step)
    requires IsBody(step)
  {
    match step
    case Free(_, ptr) => ptr == 0 || a.Live(ptr)
    case Shrink(_, ptr, size) => a.Live(ptr) && 0 < size && size + CHUNK <= a.chunks[IndexOf(a, ptr)].size
    case _ => true
  }

  /** A process can make a call: it gets the lock, and the body can run. */
  predicate CanCall(s: System, step: Step) {
    IsBody(step) && Enabled(s, Step.Lock(step.pid)) && CanRun(s.area, step)
  }

  /** Lock, body, unlock. */
  function Call(s: System, step: Step): System
    requires CanCall(s, step)
  {
    Next(Next(Next(s, Step.Lock(step.pid)), step), Step.Unlock(step.pid))
  }

  /** A call leaves the lock and the semaphore as they were, and its caller with all of the area
      mapped; and it does to the area what its body does. */
  lemma CallDoesItsBody(s: System, step: Step)
    requires Safe(s) && CanCall(s, step)
    ensures var t := Call(s, step);
            && Safe(t) && t.sem == s.sem && t.area == Body(s.area, step)
            && t.procs == s.procs[step.pid := Proc(s.procs[step.pid].lock, t.area.Total())]
  {
    var locked := Next(s, Step.Lock(step.pid));
    StepKeepsSafe(s, Step.Lock(step.pid));
    LockTakes(s, step.pid);
    BodyRuns(locked, step);
    StepKeepsSafe(locked, step);
    StepKeepsSafe(Next(locked, step), Step.Unlock(step.pid));
  }

  lemma LockTakes(s: System, pid: Pid)
    requires Safe(s) && Enabled(s, Step.Lock(pid))
    ensures var t := Next(s, Step.Lock(pid));
            t == System(s.area, 0, s.procs[pid := Proc(s.procs[pid].lock + 1, s.area.Total())])
  {
    assert s.procs[pid].lock > 0 ==> Holds(s, pid);
  }

  lemma BodyRuns(s: System, step: Step)
    requires Safe(s) && Holds(s, step.pid) && IsBody(step) && CanRun(s.area, step)
    ensures Enabled(s, step)
    ensures var t := Next(s, step);
            && t.area == Body(s.area, step) && t.sem == s.sem
            && t.procs == s.procs[step.pid := Proc(s.procs[step.pid].lock, t.area.Total())]
  {
  }

  // ----- Whole runs ---------------------------------------------------------

  lemma {:induction false} RunsAreSafe(ss: seq<System>, steps: seq<Step>, k: nat)
    requires IsRun(ss, steps) && k < |ss|
    ensures Safe(ss[k])
  {
    if k > 0 {
      RunsAreSafe(ss, steps, k - 1);
      assert TakesStep(ss[k - 1], steps[k - 1], ss[k]);
      StepKeepsSafe(ss[k - 1], steps[k - 1]);
    }
  }

  lemma {:induction false} LiveStaysLive(ss: seq<System>, steps: seq<Step>, c: Chunk, j: nat, k: nat)
    requires IsRun(ss, steps) && j <= k < |ss| && c in ss[j].area.chunks
    requires forall m | j <= m < k :: !Touches(steps[m], c)
    ensures c in ss[k].area.chunks
  {
    if j < k {
      LiveStaysLive(ss, steps, c, j, k - 1);
      assert TakesStep(ss[k - 1], steps[k - 1], ss[k]);
      StepKeepsChunk(ss[k - 1], steps[k - 1], c);
    }
  }

  /** Whatever is allocated at step j stays a chunk of its own, at its place and disjoint from every
      other live chunk, for as long as nobody frees or shrinks it; by any number of processes, in
      any order. */
  lemma AllocatedStaysOwned(ss: seq<System>, steps: seq<Step>, ptr: nat, j: nat, k: nat)
    requires IsRun(ss, steps) && j < k < |ss| && steps[j].Alloc?
    requires ptr == MmLayout.Alloc(ss[j].area, steps[j].size, steps[j].canGrow).1 != 0
    requires forall m | j < m < k :: !Touches(steps[m], Chunk(ptr - CHUNK, CHUNK + steps[j].size))
    ensures var c := Chunk(ptr - CHUNK, CHUNK + steps[j].size);
            && c in ss[k].area.chunks
            && ss[k].area.Base() <= c.addr && c.End() <= ss[k].area.Total()
            && forall d | d in ss[k].area.chunks && d != c :: Disjoint(c, d)
  {
    var c := Chunk(ptr - CHUNK, CHUNK + steps[j].size);
    RunsAreSafe(ss, steps, j);
    AllocatedIsThere(ss[j].area, steps[j].size, steps[j].canGrow);
    assert TakesStep(ss[j], steps[j], ss[j + 1]);
    assert c in ss[j + 1].area.chunks;
    LiveStaysLive(ss, steps, c, j + 1, k);
    RunsAreSafe(ss, steps, k);
    MembersAreDisjoint(ss[k].area, c);
  }

  lemma AllocatedIsThere(a: Area, size: nat, canGrow: bool)
    requires a.WellFormed() && MmLayout.Alloc(a, size, canGrow).1 != 0
    ensures var (b, ptr) := MmLayout.Alloc(a, size, canGrow); Chunk(ptr - CHUNK, CHUNK + size) in b.chunks
  {
    var (b, ptr) := MmLayout.Alloc(a, size, canGrow);
    AllocIsFresh(a, size, canGrow);
    assert Chunk(ptr - CHUNK, CHUNK + size) in multiset(b.chunks);
  }

  lemma MembersAreDisjoint(a: Area, c: Chunk)
    requires a.WellFormed() && c in a.chunks
    ensures a.Base() <= c.addr && c.End() <= a.Total()
    ensures forall d | d in a.chunks && d != c :: Disjoint(c, d)
  {
    var i :| 0 <= i < |a.chunks| && a.chunks[i] == c;
    Ordered(a, i, |a.chunks|);
    assert a.InOrder(i);
    forall d | d in a.chunks && d != c
      ensures Disjoint(c, d)
    {
      var j :| 0 <= j < |a.chunks| && a.chunks[j] == d;
      ChunksAreDisjointAndInside(a, i, j);
    }
  }

  /** A critical section is one: as long as `pid` holds the lock every step is its own; all that
      another process can do is wait. */
  lemma SectionsExclude(ss: seq<System>, steps: seq<Step>, k: nat, pid: Pid)
    requires IsRun(ss, steps) && k < |steps| && Holds(ss[k], pid)
    ensures steps[k].pid == pid
  {
    RunsAreSafe(ss, steps, k);
    assert TakesStep(ss[k], steps[k], ss[k + 1]);
    OnlyTheHolderSteps(ss[k], steps[k], pid);
  }

  lemma OnlyTheHolderSteps(s: System, step: Step, pid: Pid)
    requires Safe(s) && Enabled(s, step) && Holds(s, pid)
    ensures step.pid == pid
  {
    if Holds(s, step.pid) {
    }
  }

  /** The semaphore comes back only with the outermost unlock: a process that has locked m times
      more than it has unlocked holds it exactly when m > 0, and then nobody else does. */
  lemma NestingCounts(ss: seq<System>, steps: seq<Step>, k: nat, pid: Pid)
    requires IsRun(ss, steps) && k < |ss| && pid in ss[k].procs
    ensures ss[k].procs[pid].lock == Depth(steps[..k], pid)
    ensures Depth(steps[..k], pid) > 0 ==> ss[k].sem == 0 && forall q | Holds(ss[k], q) :: q == pid
  {
    LocksAreDepth(ss, steps, k, pid);
    RunsAreSafe(ss, steps, k);
    assert Depth(steps[..k], pid) > 0 ==> Holds(ss[k], pid);
  }

  function Depth(steps: seq<Step>, pid: Pid): int {
    if steps == [] then 0
    else
      var rest, step := steps[..|steps| - 1], steps[|steps| - 1];
      Depth(rest, pid) + if step == Lock(pid) then 1 else if step == Unlock(pid) then -1 else 0
  }

  lemma {:induction false} LocksAreDepth(ss: seq<System>, steps: seq<Step>, k: nat, pid: Pid)
    requires IsRun(ss, steps) && k < |ss|
    ensures if pid in ss[k].procs then ss[k].procs[pid].lock == Depth(steps[..k], pid)
            else Depth(steps[..k], pid) == 0
  {
    if k > 0 {
      LocksAreDepth(ss, steps, k - 1, pid);
      assert TakesStep(ss[k - 1], steps[k - 1], ss[k]);
      assert steps[..k][..k - 1] == steps[..k - 1];
    }
  }
}
