/** The allocator's intrusive list (userspace/include/mm.h:45-165) as it lies in the shared area.

    The area is a sequence of cells addressed by byte offset. A field is kept whole in the cell
    of its first byte and its other bytes are never addressed, so two fields are independent as
    long as the objects that hold them do not overlap; that they never do is proved here. */
module MmList {
  import opened MmLayout

  // Offsets in struct mm_shared, struct mm_list_head and struct mm_chunk.
  const STATIC: nat := 0
  const DYNAMIC: nat := 8
  const HEAD: nat := 16
  const PREV: nat := 0
  const NEXT: nat := 4
  const LH: nat := 8

  type Memory = seq<int>

  /** The i-th list head of the circle: the area's own at both ends, chunk i - 1 in between. */
  function Node(a: Area, i: nat): nat
    requires i <= |a.chunks| + 1
  {
    if i == 0 || i == |a.chunks| + 1 then HEAD else a.chunks[i - 1].addr + LH
  }

  function Cell(mem: Memory, p: int): int {
    if 0 <= p < |mem| then mem[p] else 0
  }

  ghost predicate NextAt(mem: Memory, a: Area, i: nat)
    requires i <= |a.chunks|
  {
    Cell(mem, Node(a, i) + NEXT) == Node(a, i + 1)
  }

  ghost predicate PrevAt(mem: Memory, a: Area, i: nat)
    requires i <= |a.chunks|
  {
    Cell(mem, Node(a, i + 1) + PREV) == Node(a, i)
  }

  /** Node i and its successor point at each other. */
  ghost predicate LinkAt(mem: Memory, a: Area, i: nat)
    requires i <= |a.chunks|
  {
    NextAt(mem, a, i) && PrevAt(mem, a, i)
  }

  ghost predicate SizeAt(mem: Memory, a: Area, i: nat)
    requires i < |a.chunks|
  {
    Cell(mem, a.chunks[i].addr) == a.chunks[i].size
  }

  ghost predicate Links(mem: Memory, a: Area) {
    forall i | 0 <= i <= |a.chunks| :: LinkAt(mem, a, i)
  }

  ghost predicate Sizes(mem: Memory, a: Area) {
    forall i | 0 <= i < |a.chunks| :: SizeAt(mem, a, i)
  }

  /** The cells hold exactly the area: its size, its header and a well-formed circular list of
      its chunks in address order. */
  ghost predicate Represents(mem: Memory, a: Area) {
    && a.WellFormed()
    && |mem| == a.Total()
    && mem[STATIC] == a.staticSize && mem[DYNAMIC] == a.dynamicSize
    && Links(mem, a) && Sizes(mem, a)
  }

  /** Bytes that belong to users of the area: the static part and every payload. */
  ghost predicate UserByte(a: Area, p: nat) {
    SHARED <= p < a.Base() || exists i | 0 <= i < |a.chunks| :: a.chunks[i].PayloadCovers(p)
  }

  ghost predicate SameUserBytes(mem: Memory, mem': Memory, a: Area) {
    forall p: nat | UserByte(a, p) :: Cell(mem', p) == Cell(mem, p)
  }

  /** Only the allocator's own cells differ: list heads and chunk sizes of `a`. */
  ghost predicate BookKeeping(a: Area, p: int) {
    p == HEAD + PREV || p == HEAD + NEXT
    || exists i | 0 <= i < |a.chunks| :: Header(a.chunks[i], p)
  }

  predicate Header(c: Chunk, p: int) {
    p == c.addr || p == c.addr + LH + PREV || p == c.addr + LH + NEXT
  }

  // ----- Nodes keep apart ---------------------------------------------------

  lemma NodesApart(a: Area, i: nat, j: nat)
    requires a.WellFormed() && i < j <= |a.chunks|
    ensures Node(a, i) + CHUNK <= Node(a, j)
  {
    Ordered(a, j - 1, |a.chunks|);
    assert a.InOrder(j - 1);
    if i > 0 {
      Ordered(a, i - 1, j - 1);
      assert a.InOrder(i - 1);
    }
  }

  lemma NodeInside(a: Area, i: nat)
    requires a.WellFormed() && i <= |a.chunks| + 1
    ensures HEAD <= Node(a, i) && Node(a, i) + LH <= a.Total()
    ensures 0 < i <= |a.chunks| ==> a.Base() + LH <= Node(a, i)
  {
    if 0 < i <= |a.chunks| {
      Ordered(a, i - 1, |a.chunks|);
      assert a.InOrder(i - 1);
    }
  }

  lemma BookKeepingIsNoUserByte(a: Area, p: nat)
    requires a.WellFormed() && BookKeeping(a, p)
    ensures !UserByte(a, p)
  {
    if p != HEAD + PREV && p != HEAD + NEXT {
      var i :| 0 <= i < |a.chunks| && Header(a.chunks[i], p);
      Ordered(a, i, |a.chunks|);
      assert a.InOrder(i);
      forall j | 0 <= j < |a.chunks|
        ensures !a.chunks[j].PayloadCovers(p)
      {
        HeaderOutsidePayload(a, i, j, p);
      }
    } else {
      forall j | 0 <= j < |a.chunks|
        ensures !a.chunks[j].PayloadCovers(p)
      {
        Ordered(a, j, |a.chunks|);
        assert a.InOrder(j);
      }
    }
  }

  lemma HeaderOutsidePayload(a: Area, i: nat, j: nat, p: nat)
    requires a.WellFormed() && i < |a.chunks| && j < |a.chunks| && Header(a.chunks[i], p)
    ensures !a.chunks[j].PayloadCovers(p)
  {
    assert a.InOrder(i) && a.InOrder(j);
    if i < j {
      Ordered(a, i, j);
    } else if j < i {
      Ordered(a, j, i);
    }
  }

  /** In a represented area `prev` and `next` are inverse all the way round. */
  lemma LinksAreInverse(mem: Memory, a: Area, i: nat)
    requires Represents(mem, a) && i <= |a.chunks|
    ensures var x := Node(a, i);
            Cell(mem, Cell(mem, x + NEXT) + PREV) == x && Cell(mem, Cell(mem, x + PREV) + NEXT) == x
  {
    assert LinkAt(mem, a, i);
    var j := if i == 0 then |a.chunks| else i - 1;
    assert LinkAt(mem, a, j);
  }

  /** Nodes with different positions on the circle of |chunks| + 1 are a header apart. */
  lemma NodesDistinct(a: Area, i: nat, j: nat)
    requires a.WellFormed() && i <= |a.chunks| + 1 && j <= |a.chunks| + 1
    ensures || i == j || (i == 0 && j == |a.chunks| + 1) || (j == 0 && i == |a.chunks| + 1)
            || Node(a, i) + CHUNK <= Node(a, j) || Node(a, j) + CHUNK <= Node(a, i)
    ensures HEAD <= Node(a, i) && Node(a, i) + LH <= a.Total()
  {
    NodeInside(a, i);
    var i', j' := if i == |a.chunks| + 1 then 0 else i, if j == |a.chunks| + 1 then 0 else j;
    if i' < j' {
      NodesApart(a, i', j');
    } else if j' < i' {
      NodesApart(a, j', i');
    }
  }

  // ----- Insertion ----------------------------------------------------------

  /** What __mm_list_add leaves, after `c.size` is stored: five cells change. */
  function InsertCells(mem: Memory, c: Chunk, prev: nat, next: nat): Memory
    requires prev + LH <= |mem| && next + LH <= |mem| && c.addr + CHUNK <= |mem|
  {
    mem[c.addr := c.size]
       [next + PREV := c.addr + LH]
       [c.addr + LH + NEXT := next]
       [c.addr + LH + PREV := prev]
       [prev + NEXT := c.addr + LH]
  }

  ghost predicate Insertable(a: Area, k: nat, c: Chunk) {
    k <= |a.chunks| && CHUNK < c.size && a.GapStart(k) <= c.addr && c.End() <= a.GapEnd(k)
  }

  lemma NodesAfterInsert(a: Area, k: nat, c: Chunk, i: nat)
    requires k <= |a.chunks| && i <= |a.chunks| + 2
    ensures var b := Insert(a, k, c);
            Node(b, i) == if i <= k then Node(a, i)
                          else if i == k + 1 then c.addr + LH
                          else Node(a, i - 1)
  {
  }

  lemma InsertBounds(mem: Memory, a: Area, k: nat, c: Chunk)
    requires Represents(mem, a) && Insertable(a, k, c)
    ensures Node(a, k) + LH <= |mem| && Node(a, k + 1) + LH <= |mem| && c.addr + CHUNK <= |mem|
    ensures Insert(a, k, c).WellFormed()
  {
    NodeInside(a, k);
    NodeInside(a, k + 1);
    Ordered(a, k, |a.chunks|);
    InsertKeepsWellFormed(a, k, c);
  }

  /** Every cell after an insertion. */
  ghost predicate Inserted(mem: Memory, mem': Memory, c: Chunk, prev: nat, next: nat) {
    && |mem'| == |mem|
    && forall p: int :: Cell(mem', p) ==
         if p == c.addr then c.size
         else if p == next + PREV || p == prev + NEXT then c.addr + LH
         else if p == c.addr + LH + NEXT then next
         else if p == c.addr + LH + PREV then prev
         else Cell(mem, p)
  }

  lemma InsertCellsInserts(mem: Memory, c: Chunk, prev: nat, next: nat)
    requires prev + LH <= |mem| && next + LH <= |mem| && c.addr + CHUNK <= |mem|
    requires Apart(prev, c.addr + LH) && Apart(next, c.addr + LH) && (prev == next || Apart(prev, next))
    ensures Inserted(mem, InsertCells(mem, c, prev, next), c, prev, next)
  {
  }

  /** Two list heads of different objects: a chunk header's worth of bytes between them. */
  predicate Apart(x: nat, y: nat) {
    x + CHUNK <= y || y + CHUNK <= x
  }

  lemma InsertFrame(mem: Memory, a: Area, k: nat, c: Chunk)
    requires Represents(mem, a) && Insertable(a, k, c)
    ensures Node(a, k) + LH <= |mem| && Node(a, k + 1) + LH <= |mem| && c.addr + CHUNK <= |mem|
    ensures Insert(a, k, c).WellFormed()
    ensures Apart(Node(a, k), c.addr + LH) && Apart(Node(a, k + 1), c.addr + LH)
    ensures Node(a, k) == Node(a, k + 1) || Apart(Node(a, k), Node(a, k + 1))
  {
    var b := Insert(a, k, c);
    InsertBounds(mem, a, k, c);
    NodesAfterInsert(a, k, c, k);
    NodesAfterInsert(a, k, c, k + 1);
    NodesAfterInsert(a, k, c, k + 2);
    NodesDistinct(b, k, k + 1);
    NodesDistinct(b, k + 1, k + 2);
    NodesDistinct(a, k, k + 1);
  }

  lemma InsertKeepsOtherNext(mem: Memory, mem': Memory, a: Area, k: nat, c: Chunk, i: nat)
    requires Represents(mem, a) && Insertable(a, k, c) && i <= |a.chunks| + 1 && (i < k || i > k + 1)
    requires Inserted(mem, mem', c, Node(a, k), Node(a, k + 1))
    ensures NextAt(mem', Insert(a, k, c), i)
  {
    var b := Insert(a, k, c);
    InsertFrame(mem, a, k, c);
    NodesAfterInsert(a, k, c, i);
    NodesAfterInsert(a, k, c, i + 1);
    var j := if i < k then i else i - 1;
    assert LinkAt(mem, a, j);
    NodesAfterInsert(a, k, c, k + 1);
    NodesDistinct(a, j, k);
    NodesDistinct(a, j, k + 1);
    NodesDistinct(b, i, k + 1);
  }

  lemma InsertKeepsNext(mem: Memory, mem': Memory, a: Area, k: nat, c: Chunk, i: nat)
    requires Represents(mem, a) && Insertable(a, k, c) && i <= |a.chunks| + 1
    requires Inserted(mem, mem', c, Node(a, k), Node(a, k + 1))
    ensures NextAt(mem', Insert(a, k, c), i)
  {
    if i < k || i > k + 1 {
      InsertKeepsOtherNext(mem, mem', a, k, c, i);
    } else {
      InsertFrame(mem, a, k, c);
      NodesAfterInsert(a, k, c, i);
      NodesAfterInsert(a, k, c, i + 1);
    }
  }

  lemma InsertKeepsOtherPrev(mem: Memory, mem': Memory, a: Area, k: nat, c: Chunk, i: nat)
    requires Represents(mem, a) && Insertable(a, k, c) && i <= |a.chunks| + 1 && (i < k || i > k + 1)
    requires Inserted(mem, mem', c, Node(a, k), Node(a, k + 1))
    ensures PrevAt(mem', Insert(a, k, c), i)
  {
    var b := Insert(a, k, c);
    InsertFrame(mem, a, k, c);
    NodesAfterInsert(a, k, c, i);
    NodesAfterInsert(a, k, c, i + 1);
    NodesAfterInsert(a, k, c, k + 1);
    NodesDistinct(b, i + 1, k + 1);
    PrevIsKept(mem, mem', a, k, c, if i < k then i else i - 1);
  }

  lemma PrevIsKept(mem: Memory, mem': Memory, a: Area, k: nat, c: Chunk, j: nat)
    requires Represents(mem, a) && Insertable(a, k, c) && j <= |a.chunks| && j != k
    requires Inserted(mem, mem', c, Node(a, k), Node(a, k + 1))
    requires Node(a, j + 1) + LH <= c.addr || c.addr + CHUNK <= Node(a, j + 1)
    ensures Cell(mem', Node(a, j + 1) + PREV) == Node(a, j)
  {
    InsertFrame(mem, a, k, c);
    assert LinkAt(mem, a, j);
    NodesDistinct(a, j + 1, k);
    NodesDistinct(a, j + 1, k + 1);
  }

  lemma InsertKeepsPrev(mem: Memory, mem': Memory, a: Area, k: nat, c: Chunk, i: nat)
    requires Represents(mem, a) && Insertable(a, k, c) && i <= |a.chunks| + 1
    requires Inserted(mem, mem', c, Node(a, k), Node(a, k + 1))
    ensures PrevAt(mem', Insert(a, k, c), i)
  {
    if i < k || i > k + 1 {
      InsertKeepsOtherPrev(mem, mem', a, k, c, i);
    } else {
      InsertFrame(mem, a, k, c);
      NodesAfterInsert(a, k, c, i);
      NodesAfterInsert(a, k, c, i + 1);
    }
  }

  lemma InsertKeepsSize(mem: Memory, mem': Memory, a: Area, k: nat, c: Chunk, i: nat)
    requires Represents(mem, a) && Insertable(a, k, c) && i <= |a.chunks|
    requires Inserted(mem, mem', c, Node(a, k), Node(a, k + 1))
    ensures SizeAt(mem', Insert(a, k, c), i)
  {
    var b := Insert(a, k, c);
    InsertFrame(mem, a, k, c);
    if i != k {
      var j := if i < k then i else i - 1;
      assert SizeAt(mem, a, j) && b.chunks[i] == a.chunks[j];
      NodesAfterInsert(a, k, c, k + 1);
      NodesDistinct(a, j + 1, k);
      NodesDistinct(a, j + 1, k + 1);
      NodesDistinct(b, i + 1, k + 1);
    }
  }

  /** __mm_list_add between neighbours k and k + 1 turns the cells of `a` into those of `a` with
      the chunk put in, and touches no byte of any user. */
  lemma InsertRepresents(mem: Memory, a: Area, k: nat, c: Chunk)
    requires Represents(mem, a) && Insertable(a, k, c)
    ensures Node(a, k) + LH <= |mem| && Node(a, k + 1) + LH <= |mem| && c.addr + CHUNK <= |mem|
    ensures Represents(InsertCells(mem, c, Node(a, k), Node(a, k + 1)), Insert(a, k, c))
    ensures SameUserBytes(mem, InsertCells(mem, c, Node(a, k), Node(a, k + 1)), a)
  {
    InsertFrame(mem, a, k, c);
    InsertCellsInserts(mem, c, Node(a, k), Node(a, k + 1));
    InsertedRepresents(mem, InsertCells(mem, c, Node(a, k), Node(a, k + 1)), a, k, c);
    InsertKeepsUserBytes(mem, InsertCells(mem, c, Node(a, k), Node(a, k + 1)), a, k, c);
  }

  lemma InsertedRepresents(mem: Memory, mem': Memory, a: Area, k: nat, c: Chunk)
    requires Represents(mem, a) && Insertable(a, k, c)
    requires Inserted(mem, mem', c, Node(a, k), Node(a, k + 1))
    ensures Represents(mem', Insert(a, k, c))
  {
    InsertFrame(mem, a, k, c);
    var b := Insert(a, k, c);
    forall i | 0 <= i <= |b.chunks|
      ensures LinkAt(mem', b, i)
    {
      InsertKeepsNext(mem, mem', a, k, c, i);
      InsertKeepsPrev(mem, mem', a, k, c, i);
    }
    forall i | 0 <= i < |b.chunks|
      ensures SizeAt(mem', b, i)
    {
      InsertKeepsSize(mem, mem', a, k, c, i);
    }
    NodeInside(a, k);
    NodeInside(a, k + 1);
    Ordered(a, k, |a.chunks|);
    assert Cell(mem', STATIC) == Cell(mem, STATIC) && Cell(mem', DYNAMIC) == Cell(mem, DYNAMIC);
  }

  lemma InsertKeepsUserBytes(mem: Memory, mem': Memory, a: Area, k: nat, c: Chunk)
    requires Represents(mem, a) && Insertable(a, k, c)
    requires Inserted(mem, mem', c, Node(a, k), Node(a, k + 1))
    ensures SameUserBytes(mem, mem', a)
  {
    InsertFrame(mem, a, k, c);
    forall p: nat | UserByte(a, p)
      ensures Cell(mem', p) == Cell(mem, p)
    {
      UserByteNotBookKeeping(a, Insert(a, k, c), k, c, p);
    }
  }

  lemma UserByteNotBookKeeping(a: Area, b: Area, k: nat, c: Chunk, p: nat)
    requires a.WellFormed() && Insertable(a, k, c) && b == Insert(a, k, c) && b.WellFormed() && UserByte(a, p)
    ensures !Header(c, p) && p != Node(a, k) + NEXT && p != Node(a, k + 1) + PREV
  {
    NodeIsBookKeeping(a, k);
    NodeIsBookKeeping(a, k + 1);
    if BookKeeping(a, Node(a, k) + NEXT) { BookKeepingIsNoUserByte(a, Node(a, k) + NEXT); }
    if BookKeeping(a, Node(a, k + 1) + PREV) { BookKeepingIsNoUserByte(a, Node(a, k + 1) + PREV); }
    Ordered(a, k, |a.chunks|);
    if i :| 0 <= i < |a.chunks| && a.chunks[i].PayloadCovers(p) {
      var j := if i < k then i else i + 1;
      assert b.chunks[j] == a.chunks[i] && b.chunks[k] == c;
      if Header(c, p) { HeaderOutsidePayload(b, k, j, p); }
    }
  }

  lemma NodeIsBookKeeping(a: Area, i: nat)
    requires i <= |a.chunks| + 1
    ensures BookKeeping(a, Node(a, i) + NEXT) && BookKeeping(a, Node(a, i) + PREV)
  {
    if 0 < i <= |a.chunks| {
      assert Header(a.chunks[i - 1], Node(a, i) + NEXT) && Header(a.chunks[i - 1], Node(a, i) + PREV);
    }
  }

  // ----- Removal ------------------------------------------------------------

  /** What mm_list_del leaves of the list head at x. */
  function RemoveCells(mem: Memory, x: nat, prev: nat, next: nat): Memory
    requires x + LH <= |mem| && prev + LH <= |mem| && next + LH <= |mem|
  {
    mem[next + PREV := prev][prev + NEXT := next][x + PREV := 0][x + NEXT := 0]
  }

  /** Every cell after a removal. */
  ghost predicate Removed(mem: Memory, mem': Memory, x: nat, prev: nat, next: nat) {
    && |mem'| == |mem|
    && forall p: int :: Cell(mem', p) ==
         if p == next + PREV then prev
         else if p == prev + NEXT then next
         else if p == x + PREV || p == x + NEXT then 0
         else Cell(mem, p)
  }

  lemma RemoveCellsRemoves(mem: Memory, x: nat, prev: nat, next: nat)
    requires x + LH <= |mem| && prev + LH <= |mem| && next + LH <= |mem|
    requires Apart(prev, x) && Apart(next, x) && (prev == next || Apart(prev, next))
    ensures Removed(mem, RemoveCells(mem, x, prev, next), x, prev, next)
  {
  }

  lemma NodesAfterRemove(a: Area, k: nat, i: nat)
    requires k < |a.chunks| && i <= |a.chunks|
    ensures Node(Remove(a, k), i) == if i <= k then Node(a, i) else Node(a, i + 1)
  {
  }

  lemma RemoveFrame(mem: Memory, a: Area, k: nat)
    requires Represents(mem, a) && k < |a.chunks|
    ensures Node(a, k) + LH <= |mem| && Node(a, k + 1) + LH <= |mem| && Node(a, k + 2) + LH <= |mem|
    ensures Remove(a, k).WellFormed()
    ensures Apart(Node(a, k), Node(a, k + 1)) && Apart(Node(a, k + 1), Node(a, k + 2))
    ensures Node(a, k) == Node(a, k + 2) || Apart(Node(a, k), Node(a, k + 2))
  {
    NodesDistinct(a, k, k + 1);
    NodesDistinct(a, k + 1, k + 2);
    NodesDistinct(a, k + 2, k);
    RemoveKeepsWellFormed(a, k);
  }

  lemma RemoveKeepsNext(mem: Memory, mem': Memory, a: Area, k: nat, i: nat)
    requires Represents(mem, a) && k < |a.chunks| && i < |a.chunks|
    requires Removed(mem, mem', Node(a, k + 1), Node(a, k), Node(a, k + 2))
    ensures NextAt(mem', Remove(a, k), i)
  {
    RemoveFrame(mem, a, k);
    NodesAfterRemove(a, k, i);
    NodesAfterRemove(a, k, i + 1);
    if i != k {
      NextIsApart(mem, mem', a, k, if i < k then i else i + 1);
    }
  }

  lemma NextIsApart(mem: Memory, mem': Memory, a: Area, k: nat, j: nat)
    requires Represents(mem, a) && k < |a.chunks| && j <= |a.chunks| && j != k && j != k + 1
    requires Removed(mem, mem', Node(a, k + 1), Node(a, k), Node(a, k + 2))
    ensures Cell(mem', Node(a, j) + NEXT) == Node(a, j + 1)
  {
    assert LinkAt(mem, a, j);
    NodesDistinct(a, j, k);
    NodesDistinct(a, j, k + 1);
    NodesDistinct(a, j, k + 2);
  }

  lemma RemoveKeepsPrev(mem: Memory, mem': Memory, a: Area, k: nat, i: nat)
    requires Represents(mem, a) && k < |a.chunks| && i < |a.chunks|
    requires Removed(mem, mem', Node(a, k + 1), Node(a, k), Node(a, k + 2))
    ensures PrevAt(mem', Remove(a, k), i)
  {
    RemoveFrame(mem, a, k);
    NodesAfterRemove(a, k, i);
    NodesAfterRemove(a, k, i + 1);
    if i != k {
      PrevIsApart(mem, mem', a, k, if i < k then i else i + 1);
    }
  }

  lemma PrevIsApart(mem: Memory, mem': Memory, a: Area, k: nat, j: nat)
    requires Represents(mem, a) && k < |a.chunks| && j <= |a.chunks| && j != k && j != k + 1
    requires Removed(mem, mem', Node(a, k + 1), Node(a, k), Node(a, k + 2))
    ensures Cell(mem', Node(a, j + 1) + PREV) == Node(a, j)
  {
    assert LinkAt(mem, a, j);
    NodesDistinct(a, j + 1, k);
    NodesDistinct(a, j + 1, k + 1);
    NodesDistinct(a, j + 1, k + 2);
  }

  lemma RemoveKeepsSize(mem: Memory, mem': Memory, a: Area, k: nat, i: nat)
    requires Represents(mem, a) && k < |a.chunks| && i < |a.chunks| - 1
    requires Removed(mem, mem', Node(a, k + 1), Node(a, k), Node(a, k + 2))
    ensures SizeAt(mem', Remove(a, k), i)
  {
    RemoveFrame(mem, a, k);
    var j := if i < k then i else i + 1;
    assert Remove(a, k).chunks[i] == a.chunks[j] && SizeAt(mem, a, j);
    NodesDistinct(a, j + 1, k);
    NodesDistinct(a, j + 1, k + 1);
    NodesDistinct(a, j + 1, k + 2);
  }

  /** mm_list_del of chunk k's list head turns the cells of `a` into those of `a` without the
      chunk, and touches no byte of any user. */
  lemma RemoveRepresents(mem: Memory, a: Area, k: nat)
    requires Represents(mem, a) && k < |a.chunks|
    ensures Node(a, k) + LH <= |mem| && Node(a, k + 1) + LH <= |mem| && Node(a, k + 2) + LH <= |mem|
    ensures Represents(RemoveCells(mem, Node(a, k + 1), Node(a, k), Node(a, k + 2)), Remove(a, k))
    ensures SameUserBytes(mem, RemoveCells(mem, Node(a, k + 1), Node(a, k), Node(a, k + 2)), a)
  {
    RemoveFrame(mem, a, k);
    RemoveCellsRemoves(mem, Node(a, k + 1), Node(a, k), Node(a, k + 2));
    RemovedRepresents(mem, RemoveCells(mem, Node(a, k + 1), Node(a, k), Node(a, k + 2)), a, k);
  }

  lemma RemovedRepresents(mem: Memory, mem': Memory, a: Area, k: nat)
    requires Represents(mem, a) && k < |a.chunks|
    requires Removed(mem, mem', Node(a, k + 1), Node(a, k), Node(a, k + 2))
    ensures Represents(mem', Remove(a, k)) && SameUserBytes(mem, mem', a)
  {
    RemoveFrame(mem, a, k);
    var b := Remove(a, k);
    forall i | 0 <= i <= |b.chunks|
      ensures LinkAt(mem', b, i)
    {
      RemoveKeepsNext(mem, mem', a, k, i);
      RemoveKeepsPrev(mem, mem', a, k, i);
    }
    forall i | 0 <= i < |b.chunks|
      ensures SizeAt(mem', b, i)
    {
      RemoveKeepsSize(mem, mem', a, k, i);
    }
    NodeInside(a, k);
    NodeInside(a, k + 1);
    NodeInside(a, k + 2);
    assert Cell(mem', STATIC) == Cell(mem, STATIC) && Cell(mem', DYNAMIC) == Cell(mem, DYNAMIC);
    forall p: nat | UserByte(a, p)
      ensures Cell(mem', p) == Cell(mem, p)
    {
      NodeIsNoUserByte(a, k, p);
      NodeIsNoUserByte(a, k + 1, p);
      NodeIsNoUserByte(a, k + 2, p);
    }
  }

  lemma NodeIsNoUserByte(a: Area, i: nat, p: nat)
    requires a.WellFormed() && i <= |a.chunks| + 1 && UserByte(a, p)
    ensures p != Node(a, i) + NEXT && p != Node(a, i) + PREV
  {
    NodeIsBookKeeping(a, i);
    if BookKeeping(a, p) { BookKeepingIsNoUserByte(a, p); }
  }

  // ----- Shrinking, growing, writing ----------------------------------------

  lemma ResizeRepresents(mem: Memory, a: Area, k: nat, size: nat)
    requires Represents(mem, a) && k < |a.chunks| && CHUNK < size <= a.chunks[k].size
    ensures a.chunks[k].addr < |mem|
    ensures Represents(mem[a.chunks[k].addr := size], Resize(a, k, size))
    ensures SameUserBytes(mem, mem[a.chunks[k].addr := size], a)
  {
    ResizeKeepsWellFormed(a, k, size);
    NodeInside(a, k + 1);
    var at := a.chunks[k].addr;
    var mem', b := mem[at := size], Resize(a, k, size);
    forall i | 0 <= i <= |b.chunks|
      ensures LinkAt(mem', b, i)
    {
      ResizeKeepsLink(mem, a, k, size, i);
    }
    forall i | 0 <= i < |b.chunks|
      ensures SizeAt(mem', b, i)
    {
      assert SizeAt(mem, a, i);
      NodesDistinct(a, i + 1, k + 1);
    }
    forall p: nat | UserByte(a, p)
      ensures Cell(mem', p) == Cell(mem, p)
    {
      assert Header(a.chunks[k], at);
      if p == at { BookKeepingIsNoUserByte(a, p); }
    }
  }

  lemma ResizeKeepsLink(mem: Memory, a: Area, k: nat, size: nat, i: nat)
    requires Represents(mem, a) && k < |a.chunks| && a.chunks[k].addr < |mem| && i <= |a.chunks|
    ensures LinkAt(mem[a.chunks[k].addr := size], Resize(a, k, size), i)
  {
    var b := Resize(a, k, size);
    assert LinkAt(mem, a, i);
    assert Node(b, i) == Node(a, i) && Node(b, i + 1) == Node(a, i + 1);
    NodesDistinct(a, i, k + 1);
    NodesDistinct(a, i + 1, k + 1);
    NodeInside(a, k + 1);
  }

  /** Writes that leave the allocator's own cells alone cannot break it. */
  lemma UserWritesKeepRepresents(mem: Memory, mem': Memory, a: Area)
    requires Represents(mem, a) && |mem'| == |mem|
    requires forall p: nat | p == STATIC || p == DYNAMIC || BookKeeping(a, p) :: Cell(mem', p) == Cell(mem, p)
    ensures Represents(mem', a)
  {
    assert Cell(mem', STATIC) == Cell(mem, STATIC) && Cell(mem', DYNAMIC) == Cell(mem, DYNAMIC);
    forall i | 0 <= i <= |a.chunks|
      ensures LinkAt(mem', a, i)
    {
      assert LinkAt(mem, a, i);
      NodeIsBookKeeping(a, i);
      NodeIsBookKeeping(a, i + 1);
    }
    forall i | 0 <= i < |a.chunks|
      ensures SizeAt(mem', a, i)
    {
      assert SizeAt(mem, a, i) && Header(a.chunks[i], a.chunks[i].addr);
    }
  }

  /** The copy of struct mm_shared that mm_extend takes before it locks. */
  datatype Snapshot = Snapshot(staticSize: nat, prev: int, next: int)

  function HeaderOf(mem: Memory): Snapshot
    requires SHARED <= |mem| && mem[STATIC] >= 0
  {
    Snapshot(mem[STATIC], mem[HEAD + PREV], mem[HEAD + NEXT])
  }

  /** What mm_extend leaves: `more` new bytes, and the header rewritten from the snapshot. */
  function GrowCells(mem: Memory, shr: Snapshot, more: nat): Memory
    requires SHARED <= |mem|
  {
    (mem + seq(more, _ => 0))
      [STATIC := shr.staticSize]
      [DYNAMIC := |mem| + more - (SHARED + shr.staticSize)]
      [HEAD + PREV := shr.prev]
      [HEAD + NEXT := shr.next]
  }

  lemma GrownCell(mem: Memory, shr: Snapshot, more: nat, p: int)
    requires SHARED <= |mem|
    ensures Cell(GrowCells(mem, shr, more), p) ==
              if p == STATIC then shr.staticSize
              else if p == DYNAMIC then |mem| + more - (SHARED + shr.staticSize)
              else if p == HEAD + PREV then shr.prev
              else if p == HEAD + NEXT then shr.next
              else Cell(mem, p)
  {
  }

  /** mm_extend keeps the list exactly when the head it copied before locking is still the head:
      always for a caller that already holds the lock, but not for one that does not and lets
      another process allocate in between. */
  lemma GrowRepresents(mem: Memory, a: Area, shr: Snapshot, more: nat)
    requires Represents(mem, a) && shr.staticSize == a.staticSize
    ensures Represents(GrowCells(mem, shr, more), Grow(a, more)) <==>
              shr.prev == Cell(mem, HEAD + PREV) && shr.next == Cell(mem, HEAD + NEXT)
    ensures SameUserBytes(mem, GrowCells(mem, shr, more), a)
  {
    var mem', b := GrowCells(mem, shr, more), Grow(a, more);
    GrowKeepsWellFormed(a, more);
    var n := |a.chunks|;
    assert LinkAt(mem, a, 0) && LinkAt(mem, a, n);
    GrownCell(mem, shr, more, HEAD + PREV);
    GrownCell(mem, shr, more, HEAD + NEXT);
    if Represents(mem', b) {
      assert LinkAt(mem', b, 0) && LinkAt(mem', b, n);
      assert Node(b, 1) == Node(a, 1) && Node(b, n) == Node(a, n);
    }
    if shr.prev == Cell(mem, HEAD + PREV) && shr.next == Cell(mem, HEAD + NEXT) {
      GrowKeepsCells(mem, a, shr, more);
    }
    forall p: nat | UserByte(a, p)
      ensures Cell(mem', p) == Cell(mem, p)
    {
      GrownCell(mem, shr, more, p);
      NodeIsNoUserByte(a, 0, p);
      UserByteAboveHeader(a, p);
    }
  }

  lemma UserByteAboveHeader(a: Area, p: nat)
    requires a.WellFormed() && UserByte(a, p)
    ensures SHARED <= p < a.Total()
  {
    if i :| 0 <= i < |a.chunks| && a.chunks[i].PayloadCovers(p) {
      Ordered(a, i, |a.chunks|);
      assert a.InOrder(i);
    }
  }

  lemma GrowKeepsCells(mem: Memory, a: Area, shr: Snapshot, more: nat)
    requires Represents(mem, a) && shr.staticSize == a.staticSize
    requires shr.prev == Cell(mem, HEAD + PREV) && shr.next == Cell(mem, HEAD + NEXT)
    ensures Represents(GrowCells(mem, shr, more), Grow(a, more))
  {
    var mem', b := GrowCells(mem, shr, more), Grow(a, more);
    GrowKeepsWellFormed(a, more);
    forall i | 0 <= i <= |b.chunks|
      ensures LinkAt(mem', b, i)
    {
      assert LinkAt(mem, a, i);
      assert Node(b, i) == Node(a, i) && Node(b, i + 1) == Node(a, i + 1);
      NodeInside(a, i);
      NodeInside(a, i + 1);
      GrownCell(mem, shr, more, Node(a, i) + NEXT);
      GrownCell(mem, shr, more, Node(a, i + 1) + PREV);
    }
    forall i | 0 <= i < |b.chunks|
      ensures SizeAt(mem', b, i)
    {
      assert SizeAt(mem, a, i);
      NodeInside(a, i + 1);
      GrownCell(mem, shr, more, a.chunks[i].addr);
    }
    GrownCell(mem, shr, more, STATIC);
    GrownCell(mem, shr, more, DYNAMIC);
  }

  // ----- Reading links, copying payloads ------------------------------------

  lemma NodeLinks(mem: Memory, a: Area, i: nat)
    requires Represents(mem, a) && i <= |a.chunks|
    ensures Node(a, i) + LH <= |mem| && Node(a, i + 1) + LH <= |mem|
    ensures mem[Node(a, i) + NEXT] == Node(a, i + 1) && mem[Node(a, i + 1) + PREV] == Node(a, i)
    ensures Node(a, i + 1) == HEAD <==> i == |a.chunks|
  {
    assert LinkAt(mem, a, i);
    NodeInside(a, i);
    NodeInside(a, i + 1);
  }

  lemma PayloadIsUserByte(a: Area, k: nat)
    requires k < |a.chunks|
    ensures forall p: nat | a.chunks[k].PayloadCovers(p) :: UserByte(a, p)
  {
  }

  lemma UserBytesSurviveAlloc(a: Area, size: nat, canGrow: bool, p: nat)
    requires a.WellFormed() && UserByte(a, p)
    ensures UserByte(MmLayout.Alloc(a, size, canGrow).0, p)
  {
    var (b, res) := MmLayout.Alloc(a, size, canGrow);
    if i :| res != 0 && 0 <= i < |a.chunks| && a.chunks[i].PayloadCovers(p) {
      var k := FirstFit(a, CHUNK + size, 0);
      var j := if i < k then i else i + 1;
      assert b.chunks[j] == a.chunks[i] && b.chunks[j].PayloadCovers(p);
    }
  }

  /** memcpy of `len` bytes inside the area. */
  function CopyCells(mem: Memory, to: nat, from: nat, len: nat): Memory
    requires to + len <= |mem| && from + len <= |mem|
  {
    mem[..to] + mem[from..from + len] + mem[to + len..]
  }

  lemma CopiedCell(mem: Memory, to: nat, from: nat, len: nat, p: int)
    requires to + len <= |mem| && from + len <= |mem|
    ensures |CopyCells(mem, to, from, len)| == |mem|
    ensures Cell(CopyCells(mem, to, from, len), p) ==
              if to <= p < to + len then mem[from + p - to] else Cell(mem, p)
  {
  }

  /** Filling a payload that was just allocated disturbs neither the list nor anybody's bytes. */
  lemma CopyRepresents(a: Area, mem: Memory, size: nat, canGrow: bool, from: nat, len: nat)
    requires a.WellFormed() && MmLayout.Alloc(a, size, canGrow).1 != 0
    requires Represents(mem, MmLayout.Alloc(a, size, canGrow).0)
    requires len <= size && from + len <= |mem|
    ensures var (b, to) := MmLayout.Alloc(a, size, canGrow);
            && to + len <= |mem|
            && Represents(CopyCells(mem, to, from, len), b)
            && SameUserBytes(mem, CopyCells(mem, to, from, len), a)
  {
    var (b, to) := MmLayout.Alloc(a, size, canGrow);
    var k := FirstFit(a, CHUNK + size, 0);
    var c := b.chunks[k];
    assert c == Chunk(to - CHUNK, CHUNK + size);
    AllocIsFresh(a, size, canGrow);
    PayloadIsUserByte(b, k);
    Ordered(b, k, |b.chunks|);
    forall p: nat | p == STATIC || p == DYNAMIC || BookKeeping(b, p)
      ensures Cell(CopyCells(mem, to, from, len), p) == Cell(mem, p)
    {
      CopiedCell(mem, to, from, len, p);
      if BookKeeping(b, p) { BookKeepingIsNoUserByte(b, p); }
    }
    CopiedCell(mem, to, from, len, 0);
    UserWritesKeepRepresents(mem, CopyCells(mem, to, from, len), b);
    forall p: nat | UserByte(a, p)
      ensures Cell(CopyCells(mem, to, from, len), p) == Cell(mem, p)
    {
      CopiedCell(mem, to, from, len, p);
      if c.PayloadCovers(p) { NewPayloadIsFresh(a, c, p); }
    }
  }

  /** Memories that hold the same area have the same bookkeeping. */
  lemma BookKeepingIsDetermined(mem: Memory, mem': Memory, b: Area, p: nat)
    requires Represents(mem, b) && Represents(mem', b) && BookKeeping(b, p)
    ensures Cell(mem', p) == Cell(mem, p)
  {
    var n := |b.chunks|;
    if p == HEAD + PREV || p == HEAD + NEXT {
      assert LinkAt(mem, b, 0) && LinkAt(mem', b, 0) && LinkAt(mem, b, n) && LinkAt(mem', b, n);
    } else {
      var i :| 0 <= i < n && Header(b.chunks[i], p);
      assert SizeAt(mem, b, i) && SizeAt(mem', b, i);
      assert LinkAt(mem, b, i) && LinkAt(mem', b, i) && LinkAt(mem, b, i + 1) && LinkAt(mem', b, i + 1);
      assert Node(b, i + 1) == b.chunks[i].addr + LH;
    }
  }

  lemma BookKeepingIsNotInPayload(b: Area, j: nat, p: nat)
    requires b.WellFormed() && j < |b.chunks| && BookKeeping(b, p)
    ensures !b.chunks[j].PayloadCovers(p)
  {
    BookKeepingIsNoUserByte(b, p);
  }

  /** A copy into a payload that runs over its end: the memory still holds the area exactly when
      every header cell it runs over is overwritten with what it holds already. */
  lemma OverrunRepresentsIff(mem: Memory, b: Area, j: nat, from: nat, len: nat)
    requires Represents(mem, b) && j < |b.chunks|
    requires b.chunks[j].Payload() + len <= |mem| && from + len <= |mem|
    ensures var to := b.chunks[j].Payload();
            Represents(CopyCells(mem, to, from, len), b)
            <==> forall p: nat | b.chunks[j].End() <= p < to + len && BookKeeping(b, p) ::
                   Cell(mem, from + p - to) == Cell(mem, p)
  {
    var to := b.chunks[j].Payload();
    var mem' := CopyCells(mem, to, from, len);
    if Represents(mem', b) {
      forall p: nat | b.chunks[j].End() <= p < to + len && BookKeeping(b, p)
        ensures Cell(mem, from + p - to) == Cell(mem, p)
      {
        CopiedCell(mem, to, from, len, p);
        assert b.InOrder(j);
        BookKeepingIsDetermined(mem, mem', b, p);
      }
    }
    if forall p: nat | b.chunks[j].End() <= p < to + len && BookKeeping(b, p) :: Cell(mem, from + p - to) == Cell(mem, p) {
      Ordered(b, j, |b.chunks|);
      assert b.InOrder(j);
      forall p: nat | p == STATIC || p == DYNAMIC || BookKeeping(b, p)
        ensures Cell(mem', p) == Cell(mem, p)
      {
        CopiedCell(mem, to, from, len, p);
        if to <= p < to + len {
          assert BookKeeping(b, p);
          BookKeepingIsNotInPayload(b, j, p);
          assert Cell(mem, from + p - to) == Cell(mem, p);
        }
      }
      CopiedCell(mem, to, from, len, 0);
      UserWritesKeepRepresents(mem, mem', b);
    }
  }

  /** What mm_realloc does to the chunk behind the new one when a block grows by less than a header:
      the area survives the copy exactly when the header cells that it hits get what they held. */
  lemma ReallocOverrun(mem: Memory, b: Area, j: nat, ptr: nat, oldSize: nat)
    requires Represents(mem, b) && j + 1 < |b.chunks| && b.chunks[j + 1].addr == b.chunks[j].End()
    requires b.chunks[j].size - CHUNK < oldSize < b.chunks[j].size && ptr + oldSize <= |mem|
    ensures var res, next := b.chunks[j].Payload(), b.chunks[j + 1];
            && res + oldSize <= |mem|
            && (Represents(CopyCells(mem, res, ptr, oldSize), b)
                <==> forall p: nat | Header(next, p) && p < res + oldSize :: Cell(mem, ptr + p - res) == Cell(mem, p))
  {
    var res, next := b.chunks[j].Payload(), b.chunks[j + 1];
    assert b.InOrder(j + 1) && b.InOrder(j);
    Ordered(b, j + 1, |b.chunks|);
    OverrunRepresentsIff(mem, b, j, ptr, oldSize);
    forall p: nat | next.addr <= p < res + oldSize
      ensures BookKeeping(b, p) <==> Header(next, p)
    {
      if BookKeeping(b, p) {
        OnlyItsOwnHeader(b, j + 1, p);
      }
    }
  }

  /** Between the start of a chunk and its payload there is no bookkeeping but its own. */
  lemma OnlyItsOwnHeader(b: Area, j: nat, p: nat)
    requires b.WellFormed() && j < |b.chunks| && BookKeeping(b, p)
    requires b.chunks[j].addr <= p < b.chunks[j].Payload()
    ensures Header(b.chunks[j], p)
  {
    NodeInside(b, j + 1);
    var i :| 0 <= i < |b.chunks| && Header(b.chunks[i], p);
    assert b.InOrder(i) && b.InOrder(j);
    assert b.chunks[i].Covers(p) && b.chunks[j].Covers(p);
    if i != j {
      ChunksAreDisjointAndInside(b, i, j);
    }
  }

  /** The `len` bytes at `from` before are the `len` bytes at `to` after. */
  ghost predicate Moved(mem: Memory, mem': Memory, from: nat, to: nat, len: int) {
    forall p: nat | from <= p < from + len :: Cell(mem', to + (p - from)) == Cell(mem, p)
  }

  lemma NewPayloadIsFresh(a: Area, c: Chunk, p: nat)
    requires c.PayloadCovers(p) && a.Base() <= c.addr && forall d | d in a.chunks :: Disjoint(c, d)
    ensures !UserByte(a, p)
  {
    assert c.Covers(p);
    forall i | 0 <= i < |a.chunks|
      ensures !a.chunks[i].PayloadCovers(p)
    {
      assert Disjoint(c, a.chunks[i]);
      assert !a.chunks[i].Covers(p);
    }
  }
}
