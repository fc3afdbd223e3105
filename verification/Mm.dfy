/** The allocator as its callers see it (userspace/lib/mm.c, userspace/include/mm.h:28-164):
    handles of several processes over one shared segment. Every load and store is checked
    against the size that the handle has mapped. */
module Mm {
  import opened MmLayout
  import opened MmList
  import opened MmProtocol

  /** The POSIX shared-memory object and its semaphore. `area` is what its cells mean. */
  class Segment {
    var mem: Memory
    var sem: nat
    ghost var area: Area

    ghost predicate Valid()
      reads this
    {
      Represents(mem, area) && sem <= 1
    }

    /** A fresh object of `size` bytes, set up by mm_create (userspace/lib/mm.c:84-103). */
    constructor (staticSize: nat, size: nat)
      requires SHARED + staticSize <= size
      ensures Valid() && sem == 1
      ensures area == Area(staticSize, size - (SHARED + staticSize), [])
    {
      mem := seq(size, _ => 0)[STATIC := staticSize]
                              [DYNAMIC := size - (SHARED + staticSize)]
                              [HEAD + NEXT := HEAD]
                              [HEAD + PREV := HEAD];
      sem := 1;
      area := Area(staticSize, size - (SHARED + staticSize), []);
    }
  }

  /** page_size: `size` rounded up to whole pages. */
  function PageSize(size: nat, page: nat): (r: nat)
    requires page > 0
    ensures size <= r < size + page && exists pages: nat :: r == page * pages
  {
    var pages := (size + page - 1) / page;
    assert size + page - 1 == page * pages + (size + page - 1) % page;
    page * pages
  }

  /** struct mm_private. */
  class Handle {
    const seg: Segment
    var lock: nat
    var mappedSize: nat
    const init: bool

    ghost predicate Valid()
      reads this, seg
    {
      && seg.Valid()
      && SHARED <= mappedSize <= |seg.mem|
      && (lock > 0 ==> seg.sem == 0 && mappedSize == |seg.mem|)
    }

    /** What `MmProtocol` keeps of a handle. */
    ghost function AsProc(): Proc
      reads this
    {
      Proc(lock, mappedSize)
    }

    /** A state of the protocol in which process `pid` is this handle. */
    ghost predicate Describes(s: System, pid: Pid)
      reads this, seg
    {
      Safe(s) && s.area == seg.area && s.sem == seg.sem && pid in s.procs && s.procs[pid] == AsProc()
    }

    /** Whatever the other processes are, what has happened is that call in the protocol. */
    twostate predicate Took(step: Step)
      reads this, seg
    {
      forall s: System | old(Describes(s, step.pid)) :: CanCall(s, step) && Describes(Call(s, step), step.pid)
    }

    twostate lemma TookCall(step: Step)
      requires old(Valid()) && old(CanLock()) && IsBody(step) && CanRun(old(seg.area), step)
      requires seg.area == Body(old(seg.area), step) && seg.sem == old(seg.sem)
      requires lock == old(lock) && mappedSize == seg.area.Total()
      ensures Took(step)
    {
      forall s: System | old(Describes(s, step.pid))
        ensures CanCall(s, step) && Describes(Call(s, step), step.pid)
      {
        CallDoesItsBody(s, step);
      }
    }

    /** The semaphore can be taken, or this handle holds it already. */
    ghost predicate CanLock()
      reads this, seg
    {
      lock > 0 || seg.sem > 0
    }

    /** mm_create when the object does not exist yet. */
    constructor Create(staticSize: nat, dynamicSize: nat, page: nat)
      requires page > 0
      ensures Valid() && lock == 0 && init && fresh(seg)
      ensures seg.sem == 1 && seg.area.chunks == [] && seg.area.staticSize == staticSize
      ensures dynamicSize <= seg.area.dynamicSize < dynamicSize + page
      ensures mappedSize == |seg.mem| && exists pages: nat :: mappedSize == page * pages
    {
      var size := PageSize(staticSize + dynamicSize + SHARED, page);
      seg := new Segment(staticSize, size);
      mappedSize := size;
      lock := 0;
      init := true;
    }

    /** mm_create when the object is there: map the header, read the sizes, map the rest. */
    constructor Attach(seg: Segment)
      requires seg.Valid() && seg.sem == 1
      ensures Valid() && this.seg == seg && lock == 0 && !init && mappedSize == |seg.mem|
      ensures forall s: System, pid: Pid | s.area == seg.area && s.sem == seg.sem && pid !in s.procs ::
                Enabled(s, Step.Attach(pid)) && Next(s, Step.Attach(pid)) == s.(procs := s.procs[pid := AsProc()])
    {
      this.seg := seg;
      lock := 0;
      init := false;
      mappedSize := SHARED + seg.mem[STATIC] + seg.mem[DYNAMIC];
    }

    // ----- Memory through the mapping ----------------------------------------

    function Load(p: nat): (v: int)
      requires p < mappedSize <= |seg.mem|
      reads this, seg
      ensures v == Cell(seg.mem, p)
    {
      seg.mem[p]
    }

    method Store(p: nat, v: int)
      requires p < mappedSize <= |seg.mem|
      modifies seg`mem
      ensures seg.mem == old(seg.mem)[p := v]
    {
      seg.mem := seg.mem[p := v];
    }

    /** __mm_list_add. */
    method ListAdd(x: nat, prev: nat, next: nat)
      requires mappedSize <= |seg.mem|
      requires x + LH <= mappedSize && prev + LH <= mappedSize && next + LH <= mappedSize
      modifies seg`mem
      ensures seg.mem == old(seg.mem)[next + PREV := x][x + NEXT := next][x + PREV := prev][prev + NEXT := x]
    {
      Store(next + PREV, x);
      Store(x + NEXT, next);
      Store(x + PREV, prev);
      Store(prev + NEXT, x);
    }

    // ----- Locking -----------------------------------------------------------

    /** mm_lock. The semaphore is taken once; whoever takes it maps what others have added. */
    method Lock()
      requires Valid() && CanLock()
      modifies `lock, `mappedSize, seg`sem
      ensures Valid()
      ensures lock == old(lock) + 1
      ensures seg.sem == if old(lock) == 0 then old(seg.sem) - 1 else old(seg.sem)
      ensures mappedSize == |seg.mem|
      ensures AsProc() == LockProc(old(AsProc()), seg.area.Total())
      ensures forall other: Handle | old(allocated(other)) && other != this && other.seg == seg && other.lock == 0 ::
                old(other.Valid()) ==> other.Valid()
    {
      lock := lock + 1;
      if lock > 1 {
        return;
      }
      seg.sem := seg.sem - 1;
      var mmSize := SHARED + Load(STATIC) + Load(DYNAMIC);
      if mmSize <= mappedSize {
        return;
      }
      mappedSize := mmSize;
    }

    /** mm_unlock. Only the outermost call gives the semaphore back. */
    method Unlock()
      requires lock > 0
      modifies `lock, seg`sem
      ensures lock == old(lock) - 1
      ensures seg.sem == if lock == 0 then old(seg.sem) + 1 else old(seg.sem)
      ensures old(Valid()) ==> Valid()
      ensures forall other: Handle | old(allocated(other)) && other != this && other.seg == seg && other.lock == 0 ::
                old(Valid()) && old(other.Valid()) ==> other.Valid()
    {
      lock := lock - 1;
      if lock > 0 {
        return;
      }
      seg.sem := seg.sem + 1;
    }

    /** mm_extend; `canGrow` says whether ftruncate succeeds. */
    method Extend(size: nat, canGrow: bool) returns (failed: bool)
      requires Valid() && CanLock()
      modifies this, seg
      ensures Valid() && lock == old(lock) && seg.sem == old(seg.sem)
      ensures failed <==> size > 0 && !canGrow
      ensures seg.area == if failed then old(seg.area) else Grow(old(seg.area), size)
      ensures SameUserBytes(old(seg.mem), seg.mem, old(seg.area))
      ensures size > 0 ==> mappedSize == |seg.mem|
      ensures size == 0 ==> unchanged(this) && unchanged(seg)
      ensures size > 0 ==> forall pid: Pid :: Took(Step.Extend(pid, size, canGrow))
      ensures forall other: Handle | old(allocated(other)) && other != this && other.seg == seg && other.lock == 0 ::
                old(other.Valid()) ==> other.Valid()
    {
      var shr := ReadHeader();
      if size == 0 {
        return false;
      }
      failed := ExtendWith(shr, size, canGrow);
      forall pid: Pid
        ensures Took(Step.Extend(pid, size, canGrow))
      {
        TookCall(Step.Extend(pid, size, canGrow));
      }
    }

    /** mm_extend first copies the header, before it has the lock ... */
    method ReadHeader() returns (shr: Snapshot)
      requires Valid()
      ensures shr == HeaderOf(seg.mem)
    {
      shr := Snapshot(Load(STATIC), Load(HEAD + PREV), Load(HEAD + NEXT));
    }

    /** ... and writes it back after it has grown the area. If another process has changed the head of
        the list in between, the area is no longer what the memory holds. */
    method ExtendWith(shr: Snapshot, size: nat, canGrow: bool) returns (failed: bool)
      requires Valid() && CanLock() && size > 0 && shr.staticSize == seg.area.staticSize
      modifies this, seg
      ensures lock == old(lock) && seg.sem == old(seg.sem) && failed == !canGrow
      ensures failed ==> Valid() && seg.area == old(seg.area) && seg.mem == old(seg.mem)
      ensures !failed ==> seg.area == Grow(old(seg.area), size) && (Valid() <==> shr == HeaderOf(old(seg.mem)))
      ensures SameUserBytes(old(seg.mem), seg.mem, old(seg.area))
      ensures mappedSize == |seg.mem| == seg.area.Total()
    {
      ghost var a, mem := seg.area, seg.mem;
      Lock();
      var mmSize := mappedSize + size;
      if !canGrow {
        Unlock();
        return true;
      }
      seg.mem := seg.mem + seq(size, _ => 0);
      mappedSize := mmSize;
      Store(STATIC, shr.staticSize);
      Store(DYNAMIC, mappedSize - (SHARED + shr.staticSize));
      Store(HEAD + PREV, shr.prev);
      Store(HEAD + NEXT, shr.next);
      assert seg.mem == GrowCells(mem, shr, size);
      GrowRepresents(mem, a, shr, size);
      seg.area := Grow(a, size);
      Unlock();
      return false;
    }

    // ----- Allocation --------------------------------------------------------

    /** mm_alloc. */
    method Alloc(size: nat, canGrow: bool) returns (ptr: nat)
      requires Valid() && CanLock()
      modifies this, seg
      ensures Valid() && lock == old(lock) && seg.sem == old(seg.sem)
      ensures (seg.area, ptr) == MmLayout.Alloc(old(seg.area), size, canGrow)
      ensures SameUserBytes(old(seg.mem), seg.mem, old(seg.area))
      ensures size > 0 ==> mappedSize == |seg.mem|
      ensures size == 0 ==> unchanged(this) && unchanged(seg)
      ensures size > 0 ==> forall pid: Pid :: Took(Step.Alloc(pid, size, canGrow))
      ensures forall other: Handle | old(allocated(other)) && other != this && other.seg == seg && other.lock == 0 ::
                old(other.Valid()) ==> other.Valid()
    {
      if size == 0 {
        return 0;
      }
      Lock();
      ptr := FindPlace(size, canGrow);
      Unlock();
      forall pid: Pid
        ensures Took(Step.Alloc(pid, size, canGrow))
      {
        TookCall(Step.Alloc(pid, size, canGrow));
      }
    }

    /** What mm_alloc does inside the lock: in the first gap that is large enough, or at the end. */
    method FindPlace(size: nat, canGrow: bool) returns (ptr: nat)
      requires Valid() && lock > 0 && size > 0 && mappedSize == |seg.mem|
      modifies this, seg
      ensures Valid() && lock == old(lock) && seg.sem == old(seg.sem) && mappedSize == |seg.mem|
      ensures (seg.area, ptr) == MmLayout.Alloc(old(seg.area), size, canGrow)
      ensures SameUserBytes(old(seg.mem), seg.mem, old(seg.area))
    {
      var last, inGap, next := FindGap(CHUNK + size);
      if inGap {
        NodeLinks(seg.mem, seg.area, FirstFit(seg.area, CHUNK + size, 0));
        Place(last, CHUNK + size, Load(next + PREV), next, FirstFit(seg.area, CHUNK + size, 0));
        ptr := last + CHUNK;
      } else {
        ptr := Append(size, last, canGrow);
      }
    }

    /** The rest of mm_alloc (userspace/lib/mm.c:213-226): after the last chunk, in an area that
        is extended if it has to be. */
    method Append(size: nat, last: nat, canGrow: bool) returns (ptr: nat)
      requires Valid() && lock > 0 && size > 0
      requires FirstFit(seg.area, CHUNK + size, 0) == |seg.area.chunks|
      requires last == seg.area.GapStart(|seg.area.chunks|)
      modifies this, seg
      ensures Valid() && lock == old(lock) && seg.sem == old(seg.sem) && mappedSize == |seg.mem|
      ensures (seg.area, ptr) == MmLayout.Alloc(old(seg.area), size, canGrow)
      ensures SameUserBytes(old(seg.mem), seg.mem, old(seg.area))
    {
      ghost var a, mem := seg.area, seg.mem;
      var end := SHARED + Load(STATIC) + Load(DYNAMIC);
      if end < last + CHUNK + size {
        var failed := Extend(last + CHUNK + size - end, canGrow);
        if failed {
          return 0;
        }
        UserBytesSurviveGrow(a, seg.area.dynamicSize - a.dynamicSize);
      }
      ghost var k := |a.chunks|;
      NodeLinks(seg.mem, seg.area, k);
      Place(last, CHUNK + size, Load(HEAD + PREV), HEAD, k);
      ptr := last + CHUNK;
    }

    /** The scan of mm_alloc (userspace/lib/mm.c:189-211): the start of the first gap of `need`
        bytes and the list head after it, or the end of the last chunk. */
    method FindGap(need: nat) returns (last: nat, inGap: bool, next: nat)
      requires Valid() && lock > 0
      ensures last == seg.area.GapStart(FirstFit(seg.area, need, 0))
      ensures inGap <==> FirstFit(seg.area, need, 0) < |seg.area.chunks|
      ensures inGap ==> next == Node(seg.area, FirstFit(seg.area, need, 0) + 1)
    {
      ghost var a, k := seg.area, 0;
      last := SHARED + Load(STATIC);
      NodeLinks(seg.mem, a, 0);
      next := Load(HEAD + NEXT);
      while next != HEAD
        invariant k <= |a.chunks| && next == Node(a, k + 1) && last == a.GapStart(k)
        invariant FirstFit(a, need, 0) == FirstFit(a, need, k)
        decreases |a.chunks| - k
      {
        NodeInside(a, k + 1);
        assert k < |a.chunks| && a.InOrder(k) && SizeAt(seg.mem, a, k);
        var chunk := next - LH;
        if chunk - last >= need {
          return last, true, next;
        }
        last := chunk + Load(chunk);
        k := k + 1;
        NodeLinks(seg.mem, a, k);
        next := Load(next + NEXT);
      }
      NodeLinks(seg.mem, a, k);
      return last, false, next;
    }

    /** Writes the size of a new chunk and links it in between `prev` and `next`. */
    method Place(at: nat, need: nat, prev: nat, next: nat, ghost k: nat)
      requires Valid() && lock > 0 && Insertable(seg.area, k, Chunk(at, need))
      requires prev == Node(seg.area, k) && next == Node(seg.area, k + 1)
      modifies seg`mem, seg`area
      ensures Valid() && seg.area == Insert(old(seg.area), k, Chunk(at, need))
      ensures |seg.mem| == old(|seg.mem|)
      ensures SameUserBytes(old(seg.mem), seg.mem, old(seg.area))
    {
      InsertRepresents(seg.mem, seg.area, k, Chunk(at, need));
      Store(at, need);
      ListAdd(at + LH, prev, next);
      seg.area := Insert(seg.area, k, Chunk(at, need));
    }

    // ----- Release and resize ------------------------------------------------

    /** mm_free. */
    method Free(ptr: nat)
      requires Valid() && CanLock() && (ptr == 0 || seg.area.Live(ptr))
      modifies this, seg
      ensures Valid() && lock == old(lock) && seg.sem == old(seg.sem)
      ensures seg.area == Release(old(seg.area), ptr)
      ensures ptr != 0 ==> Freed(old(seg.area), old(seg.area).chunks[IndexOf(old(seg.area), ptr)], seg.area)
      ensures SameUserBytes(old(seg.mem), seg.mem, old(seg.area))
      ensures ptr != 0 ==> mappedSize == |seg.mem| == old(|seg.mem|)
      ensures ptr != 0 ==> forall pid: Pid :: Took(Step.Free(pid, ptr))
      ensures forall other: Handle | old(allocated(other)) && other != this && other.seg == seg && other.lock == 0 ::
                old(other.Valid()) ==> other.Valid()
    {
      if ptr == 0 {
        return;
      }
      Lock();
      ghost var k := IndexOf(seg.area, ptr);
      RemoveRepresents(seg.mem, seg.area, k);
      RemoveIsExact(seg.area, k);
      ListDel(ptr - CHUNK + LH, k);
      seg.area := Remove(seg.area, k);
      Unlock();
      forall pid: Pid
        ensures Took(Step.Free(pid, ptr))
      {
        TookCall(Step.Free(pid, ptr));
      }
    }

    /** mm_list_del of the list head of chunk k. */
    method ListDel(x: nat, ghost k: nat)
      requires Valid() && lock > 0 && k < |seg.area.chunks| && x == Node(seg.area, k + 1)
      requires Node(seg.area, k) + LH <= |seg.mem|
      requires x + LH <= |seg.mem| && Node(seg.area, k + 2) + LH <= |seg.mem|
      modifies seg`mem
      ensures seg.mem == RemoveCells(old(seg.mem), x, Node(seg.area, k), Node(seg.area, k + 2))
    {
      NodeLinks(seg.mem, seg.area, k);
      NodeLinks(seg.mem, seg.area, k + 1);
      var prev, next := Load(x + PREV), Load(x + NEXT);
      Store(next + PREV, prev);
      Store(prev + NEXT, next);
      Store(x + PREV, 0);
      Store(x + NEXT, 0);
    }

    /** mm_realloc. When a block has to move, the code reads the chunk's size through a pointer that
        it took before the allocation, and copies that many bytes, header included; `fault` says that
        the pointer is stale or that the copy leaves the new payload or the mapped area, and the
        model stops there. */
    method Realloc(ptr: nat, size: nat, canGrow: bool) returns (res: nat, fault: bool)
      requires Valid() && CanLock() && (ptr == 0 || seg.area.Live(ptr))
      modifies this, seg
      ensures Valid() && (!fault ==> lock == old(lock) && seg.sem == old(seg.sem))
      ensures ptr == 0 ==> !fault && (seg.area, res) == MmLayout.Alloc(old(seg.area), size, canGrow)
      ensures ptr != 0 ==> (seg.area, res, fault) == MmLayout.Realloc(old(seg.area), ptr, size, canGrow)
      ensures ptr != 0 && !fault ==>
                Reallocated(old(seg.area), old(seg.area).chunks[IndexOf(old(seg.area), ptr)], size, seg.area, res)
      ensures SameUserBytes(old(seg.mem), seg.mem, old(seg.area))
      ensures ptr != 0 && res != 0 && !fault ==>
                Moved(old(seg.mem), seg.mem, ptr, res,
                      Min(size, old(seg.area).chunks[IndexOf(old(seg.area), ptr)].size - CHUNK))
      ensures forall other: Handle | old(allocated(other)) && other != this && other.seg == seg && other.lock == 0 ::
                old(other.Valid()) ==> other.Valid()
    {
      if ptr == 0 {
        res := Alloc(size, canGrow);
        return res, false;
      }
      if size == 0 {
        ReallocIsExact(seg.area, ptr, size, canGrow);
        Free(ptr);
        return 0, false;
      }
      Lock();
      res, fault := ResizeBlock(ptr, size, canGrow);
      if fault {
        return;
      }
      Unlock();
    }

    /** What mm_realloc does inside the lock. */
    method ResizeBlock(ptr: nat, size: nat, canGrow: bool) returns (res: nat, fault: bool)
      requires Valid() && lock > 0 && seg.area.Live(ptr) && size > 0
      modifies this, seg
      ensures Valid() && lock == old(lock) && seg.sem == old(seg.sem)
      ensures (seg.area, res, fault) == MmLayout.Realloc(old(seg.area), ptr, size, canGrow)
      ensures !fault ==>
                Reallocated(old(seg.area), old(seg.area).chunks[IndexOf(old(seg.area), ptr)], size, seg.area, res)
      ensures SameUserBytes(old(seg.mem), seg.mem, old(seg.area))
      ensures res != 0 && !fault ==>
                Moved(old(seg.mem), seg.mem, ptr, res,
                      Min(size, old(seg.area).chunks[IndexOf(old(seg.area), ptr)].size - CHUNK))
    {
      ghost var k := IndexOf(seg.area, ptr);
      NodeInside(seg.area, k + 1);
      assert SizeAt(seg.mem, seg.area, k) && seg.area.InOrder(k);
      var chunkSize := Load(ptr - CHUNK);
      if chunkSize >= size + CHUNK {
        ReallocIsExact(seg.area, ptr, size, canGrow);
        Shrink(ptr, size, k);
        return ptr, false;
      }
      res, fault := Move(ptr, size, canGrow, chunkSize);
    }

    method Shrink(ptr: nat, size: nat, ghost k: nat)
      requires Valid() && lock > 0 && seg.area.Live(ptr) && k == IndexOf(seg.area, ptr)
      requires 0 < size && size + CHUNK <= seg.area.chunks[k].size
      modifies seg`mem, seg`area
      ensures Valid() && seg.area == Resize(old(seg.area), k, size + CHUNK)
      ensures |seg.mem| == old(|seg.mem|)
      ensures SameUserBytes(old(seg.mem), seg.mem, old(seg.area))
      ensures Moved(old(seg.mem), seg.mem, ptr, ptr, size)
      ensures forall s: System, pid: Pid | old(Describes(s, pid)) ::
                Enabled(s, Step.Shrink(pid, ptr, size)) && Describes(Next(s, Step.Shrink(pid, ptr, size)), pid)
    {
      ghost var a := seg.area;
      ResizeRepresents(seg.mem, a, k, size + CHUNK);
      PayloadIsUserByte(a, k);
      Store(ptr - CHUNK, size + CHUNK);
      seg.area := Resize(a, k, size + CHUNK);
      forall s: System, pid: Pid | old(Describes(s, pid))
        ensures Enabled(s, Step.Shrink(pid, ptr, size)) && Describes(Next(s, Step.Shrink(pid, ptr, size)), pid)
      {
        StepKeepsSafe(s, Step.Shrink(pid, ptr, size));
      }
    }

    /** The path of mm_realloc that allocates, copies and frees (userspace/lib/mm.c:261-269). */
    method Move(ptr: nat, size: nat, canGrow: bool, chunkSize: nat) returns (res: nat, fault: bool)
      requires Valid() && lock > 0 && seg.area.Live(ptr)
      requires chunkSize == seg.area.chunks[IndexOf(seg.area, ptr)].size < size + CHUNK
      requires 0 < size
      modifies this, seg
      ensures Valid() && lock == old(lock) && seg.sem == old(seg.sem)
      ensures (seg.area, res, fault) == MmLayout.Realloc(old(seg.area), ptr, size, canGrow)
      ensures !fault ==>
                Reallocated(old(seg.area), old(seg.area).chunks[IndexOf(old(seg.area), ptr)], size, seg.area, res)
      ensures SameUserBytes(old(seg.mem), seg.mem, old(seg.area))
      ensures res != 0 && !fault ==> Moved(old(seg.mem), seg.mem, ptr, res, chunkSize - CHUNK)
    {
      if !MmLayout.Realloc(seg.area, ptr, size, canGrow).2 {
        ReallocIsExact(seg.area, ptr, size, canGrow);
      }
      ghost var a, mem := seg.area, seg.mem;
      var mapped := mappedSize;
      res := Alloc(size, canGrow);
      if res == 0 {
        return 0, false;
      }
      AllocKeepsOthersLive(a, size, canGrow, ptr);
      if mappedSize != mapped {
        return res, true;
      }
      if chunkSize > size || ptr + chunkSize > |seg.mem| {
        return res, true;
      }
      ghost var mem1 := seg.mem;
      CopyRepresents(a, seg.mem, size, canGrow, ptr, chunkSize);
      Copy(res, ptr, chunkSize);
      ghost var mem2 := seg.mem;
      Free(ptr);
      MovedBytes(a, mem, mem1, mem2, seg.mem, ptr, size, canGrow, chunkSize);
      return res, false;
    }

    /** memcpy inside the area. */
    method Copy(to: nat, from: nat, len: nat)
      requires mappedSize <= |seg.mem| && to + len <= mappedSize && from + len <= mappedSize
      modifies seg`mem
      ensures seg.mem == CopyCells(old(seg.mem), to, from, len)
    {
      seg.mem := seg.mem[..to] + seg.mem[from..from + len] + seg.mem[to + len..];
    }
  }

  /** After alloc, copy and free every old user byte is where it was, and the moved payload is
      readable at its new place. */
  lemma MovedBytes(a: Area, mem: Memory, mem1: Memory, mem2: Memory, mem3: Memory,
                   ptr: nat, size: nat, canGrow: bool, len: nat)
    requires a.WellFormed() && a.Live(ptr) && MmLayout.Alloc(a, size, canGrow).1 != 0
    requires len == a.chunks[IndexOf(a, ptr)].size <= size && ptr + len <= |mem1|
    requires MmLayout.Alloc(a, size, canGrow).1 + len <= |mem1|
    requires mem2 == CopyCells(mem1, MmLayout.Alloc(a, size, canGrow).1, ptr, len)
    requires SameUserBytes(mem, mem1, a) && SameUserBytes(mem1, mem2, a)
    requires SameUserBytes(mem2, mem3, MmLayout.Alloc(a, size, canGrow).0)
    ensures SameUserBytes(mem, mem3, a)
    ensures Moved(mem, mem3, ptr, MmLayout.Alloc(a, size, canGrow).1, len - CHUNK)
  {
    var (b, res) := MmLayout.Alloc(a, size, canGrow);
    forall p: nat | UserByte(a, p)
      ensures Cell(mem3, p) == Cell(mem, p)
    {
      UserBytesSurviveAlloc(a, size, canGrow, p);
    }
    var k := FirstFit(a, CHUNK + size, 0);
    assert b.chunks[k] == Chunk(res - CHUNK, CHUNK + size);
    forall p: nat | ptr <= p < ptr + len - CHUNK
      ensures Cell(mem3, res + (p - ptr)) == Cell(mem, p)
    {
      assert b.chunks[k].PayloadCovers(res + (p - ptr));
      assert UserByte(b, res + (p - ptr));
      CopiedCell(mem1, res, ptr, len, res + (p - ptr));
      assert a.chunks[IndexOf(a, ptr)].PayloadCovers(p);
      assert UserByte(a, p);
    }
  }

  function Min(x: int, y: int): int { if x < y then x else y }

  lemma UserBytesSurviveGrow(a: Area, more: nat)
    ensures forall p: nat | UserByte(a, p) :: UserByte(Grow(a, more), p)
  {
    forall p: nat | UserByte(a, p)
      ensures UserByte(Grow(a, more), p)
    {
      if i :| 0 <= i < |a.chunks| && a.chunks[i].PayloadCovers(p) {
        assert Grow(a, more).chunks[i].PayloadCovers(p);
      }
    }
  }
}
