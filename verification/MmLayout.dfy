/** The allocator's address arithmetic (userspace/lib/mm.c), without memory.

    An area is the shared header, the static part and a growable dynamic part in which chunks
    are kept in address order. Here an area is a value; `MmList` ties it to the linked list
    that the allocator walks, `MmProtocol` to the processes that share it. */
module MmLayout {

  // sizeof(struct mm_shared) and sizeof(struct mm_chunk) where size_t has 8 bytes.
  const SHARED: nat := 24
  const CHUNK: nat := 16

  /** A chunk in use; `size` counts the chunk's header too. */
  datatype Chunk = Chunk(addr: nat, size: nat) {
    function End(): nat { addr + size }

    /** What mm_alloc hands out. */
    function Payload(): nat { addr + CHUNK }

    predicate Covers(p: nat) { addr <= p < End() }

    predicate PayloadCovers(p: nat) { Payload() <= p < End() }
  }

  datatype Area = Area(staticSize: nat, dynamicSize: nat, chunks: seq<Chunk>) {
    function Base(): nat { SHARED + staticSize }

    function Total(): nat { Base() + dynamicSize }

    /** The first free address after chunk i - 1. */
    function GapStart(i: nat): nat
      requires i <= |chunks|
    {
      if i == 0 then Base() else chunks[i - 1].End()
    }

    /** The first address after the gap in front of chunk i, or after the area. */
    function GapEnd(i: nat): nat
      requires i <= |chunks|
    {
      if i < |chunks| then chunks[i].addr else Total()
    }

    /** Chunk i starts after its predecessor ends and holds more than its header. */
    ghost predicate InOrder(i: nat)
      requires i < |chunks|
    {
      CHUNK < chunks[i].size && GapStart(i) <= chunks[i].addr
    }

    /** Chunks lie in the dynamic part, in increasing order and without overlap. */
    ghost predicate WellFormed() {
      && (forall i | 0 <= i < |chunks| :: InOrder(i))
      && GapStart(|chunks|) <= Total()
    }

    predicate Fits(i: nat, need: nat)
      requires i < |chunks|
    {
      chunks[i].addr - GapStart(i) >= need
    }

    predicate Live(ptr: nat) {
      exists i | 0 <= i < |chunks| :: chunks[i].Payload() == ptr
    }

    /** [at, at + need) is in the dynamic part and touches no chunk. */
    ghost predicate Free(at: nat, need: nat) {
      && Base() <= at && at + need <= Total()
      && forall i | 0 <= i < |chunks| :: at + need <= chunks[i].addr || chunks[i].End() <= at
    }

    ghost predicate HasRoom(need: nat) {
      exists at: nat :: Free(at, need)
    }
  }

  /** The chunks that belong to a pointer's owner: what a caller may rely on. */
  ghost predicate Disjoint(c: Chunk, d: Chunk) {
    forall p: nat :: !(c.Covers(p) && d.Covers(p))
  }

  /** Order is transitive: gaps come before the chunks that follow them. */
  lemma {:induction false} Ordered(a: Area, i: nat, j: nat)
    requires a.WellFormed() && i <= j <= |a.chunks|
    ensures a.GapStart(i) <= a.GapStart(j) <= a.GapEnd(j) <= a.Total()
    ensures i < j ==> a.chunks[i].End() <= a.GapStart(j)
    ensures a.Base() <= a.GapStart(i)
    decreases |a.chunks| - i, j
  {
    if i < j {
      assert a.InOrder(i);
      Ordered(a, i + 1, j);
    } else if j < |a.chunks| {
      assert a.InOrder(j);
      Ordered(a, j + 1, |a.chunks|);
    }
    Bounded(a, i);
  }

  lemma {:induction false} Bounded(a: Area, i: nat)
    requires a.WellFormed() && i <= |a.chunks|
    ensures a.Base() <= a.GapStart(i)
  {
    if i > 0 {
      assert a.InOrder(i - 1);
      Bounded(a, i - 1);
    }
  }

  lemma ChunksAreDisjointAndInside(a: Area, i: nat, j: nat)
    requires a.WellFormed() && i < |a.chunks| && j < |a.chunks| && i != j
    ensures Disjoint(a.chunks[i], a.chunks[j])
    ensures a.Base() <= a.chunks[i].addr < a.chunks[i].Payload() < a.chunks[i].End() <= a.Total()
    ensures a.chunks[i].Payload() != a.chunks[j].Payload()
  {
    assert a.InOrder(i) && a.InOrder(j);
    Ordered(a, i, |a.chunks|);
    if i < j {
      Ordered(a, i, j);
    } else {
      Ordered(a, j, i);
    }
  }

  // ----- First fit ----------------------------------------------------------

  /** The first gap from `i` on that takes `need` bytes, or the tail of the area. */
  function FirstFit(a: Area, need: nat, i: nat): (k: nat)
    requires i <= |a.chunks|
    ensures i <= k <= |a.chunks|
    ensures forall j | i <= j < k :: !a.Fits(j, need)
    ensures k < |a.chunks| ==> a.Fits(k, need)
    decreases |a.chunks| - i
  {
    if i < |a.chunks| && !a.Fits(i, need) then FirstFit(a, need, i + 1) else i
  }

  function Insert(a: Area, k: nat, c: Chunk): Area
    requires k <= |a.chunks|
  {
    a.(chunks := a.chunks[..k] + [c] + a.chunks[k..])
  }

  function Remove(a: Area, k: nat): Area
    requires k < |a.chunks|
  {
    a.(chunks := a.chunks[..k] + a.chunks[k + 1..])
  }

  function Resize(a: Area, k: nat, size: nat): Area
    requires k < |a.chunks|
  {
    a.(chunks := a.chunks[k := a.chunks[k].(size := size)])
  }

  function Grow(a: Area, more: nat): Area {
    a.(dynamicSize := a.dynamicSize + more)
  }

  /** By how much the area is too short for `need` bytes after its last chunk. */
  function Shortfall(a: Area, need: nat): nat {
    var last := a.GapStart(|a.chunks|);
    if a.Total() < last + need then last + need - a.Total() else 0
  }

  /** mm_alloc: the area it leaves and the pointer it returns, 0 for MM_NULL.
      `canGrow` says whether ftruncate succeeds, if it is called. */
  function Alloc(a: Area, size: nat, canGrow: bool): (Area, nat)
  {
    if size == 0 then (a, 0)
    else
      var need := CHUNK + size;
      var k := FirstFit(a, need, 0);
      var at := a.GapStart(k);
      if k == |a.chunks| && Shortfall(a, need) > 0 then
        if canGrow then (Insert(Grow(a, Shortfall(a, need)), k, Chunk(at, need)), at + CHUNK)
        else (a, 0)
      else (Insert(a, k, Chunk(at, need)), at + CHUNK)
  }

  lemma InsertKeepsWellFormed(a: Area, k: nat, c: Chunk)
    requires a.WellFormed() && k <= |a.chunks|
    requires CHUNK < c.size && a.GapStart(k) <= c.addr && c.End() <= a.GapEnd(k)
    ensures Insert(a, k, c).WellFormed()
  {
    var b := Insert(a, k, c);
    forall i | 0 <= i < |b.chunks|
      ensures b.InOrder(i)
    {
      if i < k {
        assert a.InOrder(i);
      } else if i > k {
        assert a.InOrder(i - 1);
        assert b.chunks[i] == a.chunks[i - 1];
      }
    }
    assert k < |a.chunks| ==> b.chunks[|a.chunks|] == a.chunks[|a.chunks| - 1];
  }

  lemma RemoveKeepsWellFormed(a: Area, k: nat)
    requires a.WellFormed() && k < |a.chunks|
    ensures Remove(a, k).WellFormed()
  {
    var b := Remove(a, k);
    assert a.InOrder(k);
    forall i | 0 <= i < |b.chunks|
      ensures b.InOrder(i)
    {
      if i < k {
        assert a.InOrder(i);
      } else {
        assert a.InOrder(i + 1);
        assert b.chunks[i] == a.chunks[i + 1];
      }
    }
    assert k < |b.chunks| ==> b.chunks[|b.chunks| - 1] == a.chunks[|b.chunks|];
  }

  lemma RemovedIsNotLive(a: Area, k: nat)
    requires a.WellFormed() && k < |a.chunks|
    ensures !Remove(a, k).Live(a.chunks[k].Payload())
  {
    var b := Remove(a, k);
    forall i | 0 <= i < |b.chunks|
      ensures b.chunks[i].Payload() != a.chunks[k].Payload()
    {
      assert b.chunks[i] == a.chunks[if i < k then i else i + 1];
      ChunksAreDisjointAndInside(a, if i < k then i else i + 1, k);
    }
  }

  lemma ResizeKeepsWellFormed(a: Area, k: nat, size: nat)
    requires a.WellFormed() && k < |a.chunks| && CHUNK < size <= a.chunks[k].size
    ensures Resize(a, k, size).WellFormed()
  {
    var b := Resize(a, k, size);
    forall i | 0 <= i < |b.chunks|
      ensures b.InOrder(i)
    {
      assert a.InOrder(i);
    }
  }

  lemma GrowKeepsWellFormed(a: Area, more: nat)
    requires a.WellFormed()
    ensures Grow(a, more).WellFormed()
  {
    forall i | 0 <= i < |a.chunks|
      ensures Grow(a, more).InOrder(i)
    {
      assert a.InOrder(i);
    }
  }

  lemma AllocKeepsWellFormed(a: Area, size: nat, canGrow: bool)
    requires a.WellFormed()
    ensures Alloc(a, size, canGrow).0.WellFormed()
  {
    var (b, ptr) := Alloc(a, size, canGrow);
    if ptr != 0 {
      var need := CHUNK + size;
      var k := FirstFit(a, need, 0);
      var g := if k == |a.chunks| then Grow(a, Shortfall(a, need)) else a;
      GrowKeepsWellFormed(a, Shortfall(a, need));
      assert b == Insert(g, k, Chunk(a.GapStart(k), need));
      assert g.GapStart(k) == a.GapStart(k);
      InsertKeepsWellFormed(g, k, Chunk(a.GapStart(k), need));
    }
  }

  // ----- What mm_alloc promises ---------------------------------------------

  /** The new payload is a chunk of its own of exactly the requested size; nothing else moves,
      shrinks or disappears, and it meets no chunk that was in use and no static byte. */
  lemma AllocIsFresh(a: Area, size: nat, canGrow: bool)
    requires a.WellFormed() && Alloc(a, size, canGrow).1 != 0
    ensures var (b, ptr) := Alloc(a, size, canGrow);
            var c := Chunk(ptr - CHUNK, CHUNK + size);
            && multiset(b.chunks) == multiset(a.chunks) + multiset{c}
            && b.Base() == a.Base() <= c.addr && c.End() <= b.Total()
            && forall d | d in a.chunks :: Disjoint(c, d)
  {
    var (b, ptr) := Alloc(a, size, canGrow);
    var k := FirstFit(a, CHUNK + size, 0);
    var c := Chunk(a.GapStart(k), CHUNK + size);
    AllocKeepsWellFormed(a, size, canGrow);
    InsertedElements(a.chunks, k, c);
    assert b.chunks[k] == c;
    Ordered(b, k, |b.chunks|);
    forall d | d in a.chunks
      ensures Disjoint(c, d)
    {
      InsertedIsApart(b, a.chunks, k, c, d);
    }
  }

  lemma InsertedIsApart(b: Area, s: seq<Chunk>, k: nat, c: Chunk, d: Chunk)
    requires b.WellFormed() && k <= |s| && b.chunks == s[..k] + [c] + s[k..] && d in s
    ensures Disjoint(c, d)
  {
    var i :| 0 <= i < |s| && s[i] == d;
    ChunksAreDisjointAndInside(b, k, if i < k then i else i + 1);
  }

  lemma InsertedElements<T>(s: seq<T>, k: nat, x: T)
    requires k <= |s|
    ensures multiset(s[..k] + [x] + s[k..]) == multiset(s) + multiset{x}
  {
    assert s == s[..k] + s[k..];
  }

  /** First fit is lowest fit: any free stretch of the area that is long enough starts at or after
      the chunk that mm_alloc chose, and if there is one the area does not grow. */
  lemma AllocTakesTheLowestFreePlace(a: Area, size: nat, canGrow: bool, at: nat)
    requires a.WellFormed() && size > 0 && a.Free(at, CHUNK + size)
    ensures Alloc(a, size, canGrow).1 != 0
    ensures Alloc(a, size, canGrow).1 - CHUNK <= at
    ensures Alloc(a, size, canGrow).0.dynamicSize == a.dynamicSize
  {
    var need := CHUNK + size;
    var k := FirstFit(a, need, 0);
    var g := GapOf(a, at, need, 0);
    assert g < |a.chunks| ==> a.Fits(g, need);
    Ordered(a, k, g);
  }

  /** The gap a free stretch lies in. */
  lemma GapOf(a: Area, at: nat, need: nat, i: nat) returns (g: nat)
    requires a.WellFormed() && need > 0 && a.Free(at, need)
    requires i <= |a.chunks| && a.GapStart(i) <= at
    ensures i <= g <= |a.chunks| && a.GapStart(g) <= at && at + need <= a.GapEnd(g)
    decreases |a.chunks| - i
  {
    if i == |a.chunks| || at + need <= a.chunks[i].addr {
      g := i;
    } else {
      g := GapOf(a, at, need, i + 1);
    }
  }

  /** The area grows exactly when no free stretch is long enough, and then by the least number of
      bytes that makes one. */
  lemma AllocGrowsOnlyWhenFull(a: Area, size: nat, less: nat)
    requires a.WellFormed() && size > 0
    ensures Alloc(a, size, true).1 != 0
    ensures var grown := Alloc(a, size, true).0.dynamicSize;
            && (grown > a.dynamicSize <==> !a.HasRoom(CHUNK + size))
            && (less < grown - a.dynamicSize ==> !Grow(a, less).HasRoom(CHUNK + size))
  {
    var need := CHUNK + size;
    var (b, ptr) := Alloc(a, size, true);
    if b.dynamicSize == a.dynamicSize {
      var at := a.GapStart(FirstFit(a, need, 0));
      AllocIsFresh(a, size, true);
      forall i | 0 <= i < |a.chunks|
        ensures at + need <= a.chunks[i].addr || a.chunks[i].End() <= at
      {
        assert a.chunks[i] in a.chunks && a.InOrder(i);
        DisjointMeansApart(Chunk(at, need), a.chunks[i]);
      }
      assert a.Free(at, need);
    } else {
      if less < b.dynamicSize - a.dynamicSize {
        TooShort(a, need, less);
      }
      TooShort(a, need, 0);
      assert Grow(a, 0) == a;
    }
  }

  lemma DisjointMeansApart(c: Chunk, d: Chunk)
    requires c.size > 0 && d.size > 0 && Disjoint(c, d)
    ensures c.End() <= d.addr || d.End() <= c.addr
  {
    assert !(c.Covers(c.addr) && d.Covers(c.addr));
    assert !(c.Covers(d.addr) && d.Covers(d.addr));
  }

  lemma TooShort(a: Area, need: nat, less: nat)
    requires a.WellFormed() && need > 0 && less < Shortfall(a, need)
    requires FirstFit(a, need, 0) == |a.chunks|
    ensures !Grow(a, less).HasRoom(need)
  {
    forall at: nat
      ensures !Grow(a, less).Free(at, need)
    {
      if Grow(a, less).Free(at, need) {
        RoomIsAGap(a, need, less, at);
      }
    }
  }

  lemma RoomIsAGap(a: Area, need: nat, less: nat, at: nat)
    requires a.WellFormed() && need > 0 && Grow(a, less).Free(at, need)
    ensures FirstFit(a, need, 0) < |a.chunks| || Shortfall(a, need) <= less
  {
    GrowKeepsWellFormed(a, less);
    var g := GapOf(Grow(a, less), at, need, 0);
    assert g < |a.chunks| ==> a.Fits(g, need);
  }

  // ----- What mm_free and mm_realloc promise --------------------------------

  /** The chunk a live pointer names; unique in a well-formed area. */
  function IndexOf(a: Area, ptr: nat): (k: nat)
    requires a.Live(ptr)
    ensures k < |a.chunks| && a.chunks[k].Payload() == ptr
    ensures forall j | 0 <= j < k :: a.chunks[j].Payload() != ptr
  {
    IndexFrom(a, ptr, 0)
  }

  function IndexFrom(a: Area, ptr: nat, i: nat): (k: nat)
    requires i <= |a.chunks|
    requires exists j | i <= j < |a.chunks| :: a.chunks[j].Payload() == ptr
    ensures i <= k < |a.chunks| && a.chunks[k].Payload() == ptr
    ensures forall j | i <= j < k :: a.chunks[j].Payload() != ptr
    decreases |a.chunks| - i
  {
    if a.chunks[i].Payload() == ptr then i else IndexFrom(a, ptr, i + 1)
  }

  function Release(a: Area, ptr: nat): Area
    requires ptr == 0 || a.Live(ptr)
  {
    if ptr == 0 then a else Remove(a, IndexOf(a, ptr))
  }

  /** Freeing what was just allocated gives back the old chunk list; only growth stays. */
  lemma FreeUndoesAlloc(a: Area, size: nat, canGrow: bool)
    requires a.WellFormed()
    ensures var (b, ptr) := Alloc(a, size, canGrow);
            && (ptr != 0 ==> b.Live(ptr))
            && Release(b, ptr).chunks == a.chunks
            && Release(b, ptr).dynamicSize == b.dynamicSize
            && Release(b, ptr).staticSize == a.staticSize
  {
    var (b, ptr) := Alloc(a, size, canGrow);
    if ptr != 0 {
      AllocKeepsWellFormed(a, size, canGrow);
      var k := FirstFit(a, CHUNK + size, 0);
      assert b.chunks[k].Payload() == ptr;
      var i := IndexOf(b, ptr);
      if i != k { ChunksAreDisjointAndInside(b, i, k); }
      assert b.chunks[..k] == a.chunks[..k];
      assert b.chunks[k + 1..] == a.chunks[k..];
      assert Release(b, ptr).chunks == a.chunks[..k] + a.chunks[k..];
    }
  }

  lemma AllocKeepsOthersLive(a: Area, size: nat, canGrow: bool, ptr: nat)
    requires a.WellFormed() && a.Live(ptr)
    ensures var b := Alloc(a, size, canGrow).0;
            b.Live(ptr) && b.chunks[IndexOf(b, ptr)] == a.chunks[IndexOf(a, ptr)]
  {
    var (b, res) := Alloc(a, size, canGrow);
    if res != 0 {
      var k, i := FirstFit(a, CHUNK + size, 0), IndexOf(a, ptr);
      var j := if i < k then i else i + 1;
      assert b.chunks[j] == a.chunks[i];
      AllocKeepsWellFormed(a, size, canGrow);
      var l := IndexOf(b, ptr);
      if l != j { ChunksAreDisjointAndInside(b, l, j); }
    }
  }

  /** mm_realloc of a live pointer: the area, the pointer it returns and whether the copy goes wrong.
      The code takes the chunk's address before it allocates. If that grows the area and so maps it
      anew, the size is read through the old mapping; if not, a copy of the old chunk's size, which
      counts its header, may leave the new payload or the area. */
  function Realloc(a: Area, ptr: nat, size: nat, canGrow: bool): (Area, nat, bool)
    requires a.WellFormed() && a.Live(ptr)
  {
    var k := IndexOf(a, ptr);
    var oldSize := a.chunks[k].size;
    if size == 0 then (Release(a, ptr), 0, false)
    else if oldSize >= size + CHUNK then (Resize(a, k, size + CHUNK), ptr, false)
    else
      var (b, res) := Alloc(a, size, canGrow);
      AllocKeepsOthersLive(a, size, canGrow, ptr);
      if res == 0 then (a, 0, false)
      else if b.Total() > a.Total() || oldSize > size || ptr + oldSize > b.Total() then (b, res, true)
      else (Release(b, ptr), res, false)
  }

  /** What is left when a chunk has been freed: all the others, in an area of the same size. */
  ghost predicate Freed(a: Area, c: Chunk, b: Area) {
    && b.WellFormed() && multiset(b.chunks) == multiset(a.chunks) - multiset{c}
    && b.staticSize == a.staticSize && b.dynamicSize == a.dynamicSize
    && !b.Live(c.Payload())
  }

  lemma RemoveIsExact(a: Area, k: nat)
    requires a.WellFormed() && k < |a.chunks|
    ensures Freed(a, a.chunks[k], Remove(a, k))
  {
    RemoveKeepsWellFormed(a, k);
    RemovedIsNotLive(a, k);
    assert a.chunks == a.chunks[..k] + [a.chunks[k]] + a.chunks[k + 1..];
  }

  /** Freeing takes away exactly the chunk with this payload. */
  lemma ReleaseIsExact(a: Area, ptr: nat, c: Chunk)
    requires a.WellFormed() && c in a.chunks && c.Payload() == ptr
    ensures a.Live(ptr) && Freed(a, c, Release(a, ptr))
  {
    var i :| 0 <= i < |a.chunks| && a.chunks[i] == c;
    assert a.chunks[i].Payload() == ptr;
    var k := IndexOf(a, ptr);
    if i != k { ChunksAreDisjointAndInside(a, i, k); }
    RemoveIsExact(a, k);
  }

  /** An allocation is refused exactly when no free stretch is long enough and the area cannot grow;
      then nothing changes. */
  lemma AllocRefusedIff(a: Area, size: nat, canGrow: bool)
    requires a.WellFormed() && size > 0
    ensures Alloc(a, size, canGrow).1 == 0 <==> !canGrow && !a.HasRoom(CHUNK + size)
    ensures Alloc(a, size, canGrow).1 == 0 ==> Alloc(a, size, canGrow).0 == a
  {
    AllocGrowsOnlyWhenFull(a, size, 0);
  }

  /** What a reallocation of chunk c to `size` bytes at `res` leaves: with no size the chunk is gone;
      refused, everything is as it was; granted, the chunk is replaced by one of that size, in place
      exactly when it was large enough already, and the pointer to the old place, if that is another
      one, is dead. The area keeps its size. */
  ghost predicate Reallocated(a: Area, c: Chunk, size: nat, b: Area, res: nat) {
    if size == 0 then res == 0 && Freed(a, c, b)
    else if res == 0 then b == a && c.size < CHUNK + size && !a.HasRoom(CHUNK + size)
    else
      && b.WellFormed() && b.staticSize == a.staticSize && b.dynamicSize == a.dynamicSize && res >= CHUNK
      && multiset(b.chunks) == multiset(a.chunks) - multiset{c} + multiset{Chunk(res - CHUNK, CHUNK + size)}
      && (res == c.Payload() <==> CHUNK + size <= c.size)
      && (res != c.Payload() ==> !b.Live(c.Payload()))
  }

  lemma ResizeIsExact(a: Area, k: nat, size: nat)
    requires a.WellFormed() && k < |a.chunks| && 0 < size && CHUNK + size <= a.chunks[k].size
    ensures Reallocated(a, a.chunks[k], size, Resize(a, k, CHUNK + size), a.chunks[k].Payload())
  {
    var c, d := a.chunks[k], Chunk(a.chunks[k].addr, CHUNK + size);
    ResizeKeepsWellFormed(a, k, CHUNK + size);
    assert Resize(a, k, CHUNK + size).chunks == a.chunks[k := d];
    assert multiset(a.chunks[k := d]) == multiset(a.chunks) - multiset{c} + multiset{d};
  }

  lemma MoveIsExact(a: Area, ptr: nat, size: nat, canGrow: bool)
    requires a.WellFormed() && a.Live(ptr) && a.chunks[IndexOf(a, ptr)].size < CHUNK + size
    requires Alloc(a, size, canGrow).1 != 0 && Alloc(a, size, canGrow).0.Total() == a.Total()
    ensures Alloc(a, size, canGrow).0.Live(ptr)
    ensures var (b, res) := Alloc(a, size, canGrow);
            Reallocated(a, a.chunks[IndexOf(a, ptr)], size, Release(b, ptr), res)
  {
    var (b, res) := Alloc(a, size, canGrow);
    var c, d := a.chunks[IndexOf(a, ptr)], Chunk(res - CHUNK, CHUNK + size);
    AllocKeepsOthersLive(a, size, canGrow, ptr);
    AllocKeepsWellFormed(a, size, canGrow);
    AllocIsFresh(a, size, canGrow);
    assert c in a.chunks && a.InOrder(IndexOf(a, ptr));
    assert c.Covers(c.addr) && !d.Covers(c.addr) && c != d;
    ReleaseIsExact(b, ptr, c);
    Exchanged(multiset(a.chunks), c, d);
  }

  lemma Exchanged<T>(m: multiset<T>, x: T, y: T)
    requires x in m
    ensures m + multiset{y} - multiset{x} == m - multiset{x} + multiset{y}
  {
  }

  /** mm_realloc, where it does not go wrong. */
  lemma ReallocIsExact(a: Area, ptr: nat, size: nat, canGrow: bool)
    requires a.WellFormed() && a.Live(ptr) && !Realloc(a, ptr, size, canGrow).2
    ensures var (b, res, _) := Realloc(a, ptr, size, canGrow);
            && Reallocated(a, a.chunks[IndexOf(a, ptr)], size, b, res)
            && (res == 0 && size > 0 ==> !canGrow)
  {
    var k := IndexOf(a, ptr);
    if size == 0 {
      assert a.chunks[k] in a.chunks;
      ReleaseIsExact(a, ptr, a.chunks[k]);
    } else if a.chunks[k].size >= size + CHUNK {
      ResizeIsExact(a, k, size);
    } else {
      AllocRefusedIff(a, size, canGrow);
      if Alloc(a, size, canGrow).1 != 0 {
        MoveIsExact(a, ptr, size, canGrow);
      }
    }
  }

  /** A move goes wrong exactly when no free stretch is long enough, so that the area has to grow;
      or the block grows by less than a header; or its new place is below the old one, which ends
      less than a header before the area does. All of this can be known before the call. */
  lemma ReallocFaultsIff(a: Area, ptr: nat, size: nat, canGrow: bool)
    requires a.WellFormed() && a.Live(ptr) && size > 0
    requires a.chunks[IndexOf(a, ptr)].size < size + CHUNK && Alloc(a, size, canGrow).1 != 0
    ensures var k := IndexOf(a, ptr);
            Realloc(a, ptr, size, canGrow).2
            <==> || !a.HasRoom(CHUNK + size)
                 || size < a.chunks[k].size
                 || (FirstFit(a, CHUNK + size, 0) <= k && a.Total() < a.chunks[k].End() + CHUNK)
  {
    AllocGrowsOnlyWhenFull(a, size, 0);
    if a.HasRoom(CHUNK + size) {
      assert Alloc(a, size, canGrow) == Alloc(a, size, true);
      MoveDown(a, ptr, size, canGrow);
    }
  }

  /** Without growth the old chunk and a header behind it fit in the area whenever the new place is
      above the old one. */
  lemma MoveDown(a: Area, ptr: nat, size: nat, canGrow: bool)
    requires a.WellFormed() && a.Live(ptr) && size > 0
    requires Alloc(a, size, canGrow).1 != 0 && Alloc(a, size, canGrow).0.Total() == a.Total()
    ensures var k := IndexOf(a, ptr);
            a.Total() < a.chunks[k].End() + CHUNK ==> FirstFit(a, CHUNK + size, 0) <= k
  {
    var k, j := IndexOf(a, ptr), FirstFit(a, CHUNK + size, 0);
    if k < j {
      Ordered(a, k, j);
      assert a.GapStart(j) + CHUNK + size <= a.GapEnd(j);
      Ordered(a, j, |a.chunks|);
    }
  }

  /** A pointer that is live, room for it in a larger area, and a copy through a stale mapping. */
  lemma ReallocReadsStaleMapping()
    ensures var a := Area(0, 32, [Chunk(24, 32)]);
            && a.WellFormed() && a.Live(40) && a.chunks[0].size <= 32
            && Alloc(a, 32, true) == (Area(0, 80, [Chunk(24, 32), Chunk(56, 48)]), 72)
            && Realloc(a, 40, 32, true).2
  {
    var a := Area(0, 32, [Chunk(24, 32)]);
    assert a.InOrder(0) && a.chunks[0].Payload() == 40;
    assert a.Live(40);
    assert !a.Fits(0, 48);
    assert FirstFit(a, 48, 0) == 1;
    assert a.chunks[..1] + [Chunk(56, 48)] + a.chunks[1..] == [Chunk(24, 32), Chunk(56, 48)];
  }
}
