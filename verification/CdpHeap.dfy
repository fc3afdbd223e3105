/** The ageing heap of CDP neighbours (userspace/cdpd/cdp_aging.c:28-125, cdpd.c:345-379): a binary
    min-heap on expiry times in an array, with a pointer back from each neighbour to its slot. */
module CdpHeap {
  type Id = nat

  /** neighbor_heap_t. */
  datatype Entry = Entry(tstamp: int, n: Id)

  /** The slots in use, the hnode of every neighbour (as an index) and its holding time. */
  datatype State = State(slots: seq<Entry>, hnode: map<Id, nat>, ttl: map<Id, nat>)

  // ----- Heap order ---------------------------------------------------------

  function Parent(k: nat): (p: nat)
    requires k > 0
    ensures p < k && (k == 2 * p + 1 || k == 2 * p + 2)
  {
    (k - 1) / 2
  }

  /** No child of slot i expires before time t. */
  predicate NoChildBefore(s: seq<Entry>, i: nat, t: int) {
    && (2 * i + 1 < |s| ==> t <= s[2 * i + 1].tstamp)
    && (2 * i + 2 < |s| ==> t <= s[2 * i + 2].tstamp)
  }

  predicate InOrder(s: seq<Entry>, i: nat)
    requires i < |s|
  {
    NoChildBefore(s, i, s[i].tstamp)
  }

  ghost predicate IsHeap(s: seq<Entry>) {
    forall i: nat | i < |s| :: InOrder(s, i)
  }

  /** A heap, but for slot `pos` being too early for its parent. */
  ghost predicate IsHeapAbove(s: seq<Entry>, pos: nat) {
    && pos < |s|
    && (forall i: nat | i < |s| && (pos == 0 || i != Parent(pos)) :: InOrder(s, i))
    && (pos > 0 ==>
          && NoChildBefore(s, pos, s[Parent(pos)].tstamp)
          && forall c: nat | c < |s| && c > 0 && c != pos && Parent(c) == Parent(pos) ::
               s[Parent(pos)].tstamp <= s[c].tstamp)
  }

  /** A heap, but for slot `pos` being too late for its children. */
  ghost predicate IsHeapBelow(s: seq<Entry>, pos: nat) {
    && pos < |s|
    && (forall i: nat | i < |s| && i != pos :: InOrder(s, i))
    && (pos > 0 ==> NoChildBefore(s, pos, s[Parent(pos)].tstamp))
  }

  /** Every neighbour in the heap knows its slot. */
  ghost predicate Placed(s: State) {
    forall i: nat | i < |s.slots| :: KnowsSlot(s, i)
  }

  predicate KnowsSlot(s: State, i: nat)
    requires i < |s.slots|
  {
    s.slots[i].n in s.hnode && s.hnode[s.slots[i].n] == i
  }

  // ----- The operations -----------------------------------------------------

  /** _XCHG. */
  function Exchange(s: State, i: nat, j: nat): State
    requires i < |s.slots| && j < |s.slots|
  {
    s.(slots := s.slots[i := s.slots[j]][j := s.slots[i]],
       hnode := s.hnode[s.slots[j].n := i][s.slots[i].n := j])
  }

  function SiftUp(s: State, pos: nat): State
    requires pos < |s.slots|
    decreases pos
  {
    if pos == 0 || s.slots[pos].tstamp >= s.slots[Parent(pos)].tstamp then s
    else SiftUp(Exchange(s, pos, Parent(pos)), Parent(pos))
  }

  /** The child that expires first, the left one when they tie. */
  function FirstChild(s: seq<Entry>, pos: nat): (c: nat)
    requires 2 * pos + 1 < |s|
    ensures pos < c < |s| && Parent(c) == pos
    ensures NoChildBefore(s, pos, s[c].tstamp)
  {
    if 2 * pos + 2 < |s| && s[2 * pos + 2].tstamp < s[2 * pos + 1].tstamp then 2 * pos + 2 else 2 * pos + 1
  }

  function SiftDown(s: State, pos: nat): State
    requires pos < |s.slots|
    decreases |s.slots| - pos
  {
    if 2 * pos + 1 >= |s.slots| || s.slots[pos].tstamp <= s.slots[FirstChild(s.slots, pos)].tstamp then s
    else SiftDown(Exchange(s, FirstChild(s.slots, pos), pos), FirstChild(s.slots, pos))
  }

  /** A neighbour not seen before: append it and sift it up. */
  function Insert(s: State, id: Id, ttl: nat, now: int): State {
    SiftUp(State(s.slots + [Entry(ttl + now, id)], s.hnode[id := |s.slots|], s.ttl[id := ttl]), |s.slots|)
  }

  /** The slot that the neighbour's hnode names gets a new time. */
  function Touch(s: State, id: Id, now: int): (t: State)
    requires id in s.hnode && id in s.ttl
    ensures |t.slots| == |s.slots| && t.hnode == s.hnode && t.ttl == s.ttl
  {
    var k := s.hnode[id];
    if k < |s.slots| then s.(slots := s.slots[k := s.slots[k].(tstamp := s.ttl[id] + now)]) else s
  }

  /** What is then sifted down from slot j, if there is one. */
  function RefreshFrom(s: State, id: Id, now: int, j: nat): State
    requires id in s.hnode && id in s.ttl
  {
    if j < |s.slots| then SiftDown(Touch(s, id, now), j) else Touch(s, id, now)
  }

  /** A neighbour heard again. The slot to sift down from is the index of the slot that its hnode names
      divided by `size`, the size of a heap entry in bytes. */
  function Refresh(s: State, id: Id, now: int, size: nat): State
    requires id in s.hnode && id in s.ttl && size > 0
  {
    RefreshFrom(s, id, now, s.hnode[id] / size)
  }

  /** The last entry moves to the root and the root's neighbour is freed. */
  function Moved(s: State): State
    requires |s.slots| > 0
  {
    var last := |s.slots| - 1;
    State(s.slots[0 := s.slots[last]][..last], s.hnode - {s.slots[0].n}, s.ttl - {s.slots[0].n})
  }

  function Pop(s: State): (t: State)
    requires |s.slots| > 0
    ensures |t.slots| == |s.slots| - 1
  {
    SiftDownKeepsLength(Moved(s), 0);
    if |s.slots| == 1 then Moved(s) else SiftDown(Moved(s), 0)
  }

  /** One round of cdp_clean_loop, the clock standing at `now`: what it frees, in order, and the rest. */
  function Expire(s: State, now: int): (r: (seq<Entry>, State))
    decreases |s.slots|
  {
    if |s.slots| == 0 || s.slots[0].tstamp > now then ([], s)
    else
      var (freed, rest) := Expire(Pop(s), now);
      ([s.slots[0]] + freed, rest)
  }

  lemma SiftDownKeepsLength(s: State, pos: nat)
    ensures pos < |s.slots| ==> |SiftDown(s, pos).slots| == |s.slots|
    decreases |s.slots| - pos
  {
    if pos < |s.slots| && 2 * pos + 1 < |s.slots| {
      SiftDownKeepsLength(Exchange(s, FirstChild(s.slots, pos), pos), FirstChild(s.slots, pos));
    }
  }

  // ----- Exchanges ----------------------------------------------------------

  lemma ExchangeIsPermutation(s: State, i: nat, j: nat)
    requires i < |s.slots| && j < |s.slots|
    ensures multiset(Exchange(s, i, j).slots) == multiset(s.slots)
  {
    var a := s.slots[i := s.slots[j]];
    assert multiset(a) == multiset(s.slots) - multiset{s.slots[i]} + multiset{s.slots[j]};
    assert multiset(a[j := s.slots[i]]) == multiset(a) - multiset{a[j]} + multiset{s.slots[i]};
  }

  /** An exchange refreshes both back pointers: one of them may have been stale before. */
  lemma ExchangePlaces(s: State, i: nat, j: nat)
    requires i < |s.slots| && j < |s.slots| && i != j
    requires forall k: nat | k < |s.slots| && k != j :: KnowsSlot(s, k)
    requires forall k: nat | k < |s.slots| && k != j :: s.slots[k].n != s.slots[j].n
    ensures Placed(Exchange(s, i, j))
  {
    var t := Exchange(s, i, j);
    forall k: nat | k < |t.slots|
      ensures KnowsSlot(t, k)
    {
      assert k != j ==> KnowsSlot(s, k);
      assert KnowsSlot(s, i);
    }
  }

  lemma PlacedIsDistinct(s: State, i: nat, j: nat)
    requires Placed(s) && i < |s.slots| && j < |s.slots| && s.slots[i].n == s.slots[j].n
    ensures i == j
  {
    assert KnowsSlot(s, i) && KnowsSlot(s, j);
  }

  // ----- Sifting restores the heap ------------------------------------------

  /** After the exchange the parent's slot is in order: it holds the earliest of the three. */
  lemma UpStepAtParent(s: State, pos: nat)
    requires IsHeapAbove(s.slots, pos) && pos > 0
    requires s.slots[pos].tstamp < s.slots[Parent(pos)].tstamp
    ensures InOrder(Exchange(s, pos, Parent(pos)).slots, Parent(pos))
  {
    var p := Parent(pos);
    assert 2 * p + 1 < |s.slots| && 2 * p + 1 != pos ==> Parent(2 * p + 1) == p;
    assert 2 * p + 2 < |s.slots| && 2 * p + 2 != pos ==> Parent(2 * p + 2) == p;
  }

  lemma UpStepElsewhere(s: State, pos: nat, i: nat)
    requires IsHeapAbove(s.slots, pos) && pos > 0
    requires s.slots[pos].tstamp < s.slots[Parent(pos)].tstamp
    requires i < |s.slots| && i != Parent(pos) && (Parent(pos) == 0 || i != Parent(Parent(pos)))
    ensures InOrder(Exchange(s, pos, Parent(pos)).slots, i)
  {
    assert InOrder(s.slots, i);
  }

  lemma UpStepAbove(s: State, pos: nat)
    requires IsHeapAbove(s.slots, pos) && pos > 0 && Parent(pos) > 0
    requires s.slots[pos].tstamp < s.slots[Parent(pos)].tstamp
    ensures var p := Parent(pos);
            var b := Exchange(s, pos, p).slots;
            && NoChildBefore(b, p, b[Parent(p)].tstamp)
            && forall c: nat | c < |b| && c > 0 && c != p && Parent(c) == Parent(p) ::
                 b[Parent(p)].tstamp <= b[c].tstamp
  {
    var p := Parent(pos);
    assert InOrder(s.slots, Parent(p));
    assert 2 * p + 1 < |s.slots| && 2 * p + 1 != pos ==> Parent(2 * p + 1) == p;
    assert 2 * p + 2 < |s.slots| && 2 * p + 2 != pos ==> Parent(2 * p + 2) == p;
  }

  lemma UpStep(s: State, pos: nat)
    requires IsHeapAbove(s.slots, pos) && pos > 0
    requires s.slots[pos].tstamp < s.slots[Parent(pos)].tstamp
    ensures IsHeapAbove(Exchange(s, pos, Parent(pos)).slots, Parent(pos))
  {
    var p := Parent(pos);
    var b := Exchange(s, pos, p).slots;
    forall i: nat | i < |b| && (p == 0 || i != Parent(p))
      ensures InOrder(b, i)
    {
      if i == p {
        UpStepAtParent(s, pos);
      } else {
        UpStepElsewhere(s, pos, i);
      }
    }
    if p > 0 {
      UpStepAbove(s, pos);
    }
  }

  lemma {:induction false} SiftUpRestoresHeap(s: State, pos: nat)
    requires IsHeapAbove(s.slots, pos)
    ensures IsHeap(SiftUp(s, pos).slots)
    decreases pos
  {
    if pos > 0 {
      if s.slots[pos].tstamp < s.slots[Parent(pos)].tstamp {
        UpStep(s, pos);
        SiftUpRestoresHeap(Exchange(s, pos, Parent(pos)), Parent(pos));
      } else {
        assert InOrder(s.slots, Parent(pos));
      }
    }
  }

  lemma {:induction false} SiftUpKeeps(s: State, pos: nat)
    requires pos < |s.slots|
    ensures multiset(SiftUp(s, pos).slots) == multiset(s.slots)
    ensures Placed(s) ==> Placed(SiftUp(s, pos))
    decreases pos
  {
    if pos > 0 && s.slots[pos].tstamp < s.slots[Parent(pos)].tstamp {
      var p := Parent(pos);
      ExchangeIsPermutation(s, pos, p);
      if Placed(s) {
        forall k: nat | k < |s.slots| && k != p
          ensures s.slots[k].n != s.slots[p].n
        {
          if s.slots[k].n == s.slots[p].n {
            PlacedIsDistinct(s, k, p);
          }
        }
        ExchangePlaces(s, pos, p);
      }
      SiftUpKeeps(Exchange(s, pos, p), p);
    }
  }

  lemma DownStep(s: State, pos: nat)
    requires IsHeapBelow(s.slots, pos) && 2 * pos + 1 < |s.slots|
    requires s.slots[FirstChild(s.slots, pos)].tstamp < s.slots[pos].tstamp
    ensures IsHeapBelow(Exchange(s, FirstChild(s.slots, pos), pos).slots, FirstChild(s.slots, pos))
  {
    var c := FirstChild(s.slots, pos);
    var a, b := s.slots, Exchange(s, c, pos).slots;
    assert InOrder(a, c);
    forall i: nat | i < |b| && i != c
      ensures InOrder(b, i)
    {
      if i != pos {
        assert InOrder(a, i);
        assert pos > 0 && i == Parent(pos) ==> a[i].tstamp <= a[c].tstamp;
      }
    }
  }

  lemma {:induction false} SiftDownRestoresHeap(s: State, pos: nat)
    requires IsHeapBelow(s.slots, pos)
    ensures IsHeap(SiftDown(s, pos).slots)
    decreases |s.slots| - pos
  {
    if 2 * pos + 1 < |s.slots| {
      if s.slots[FirstChild(s.slots, pos)].tstamp < s.slots[pos].tstamp {
        DownStep(s, pos);
        SiftDownRestoresHeap(Exchange(s, FirstChild(s.slots, pos), pos), FirstChild(s.slots, pos));
      } else {
        assert InOrder(s.slots, pos);
      }
    } else {
      assert InOrder(s.slots, pos);
    }
  }

  lemma {:induction false} SiftDownIsPermutation(s: State, pos: nat)
    requires pos < |s.slots|
    ensures multiset(SiftDown(s, pos).slots) == multiset(s.slots)
    ensures SiftDown(s, pos).ttl == s.ttl
    decreases |s.slots| - pos
  {
    if 2 * pos + 1 < |s.slots| && s.slots[FirstChild(s.slots, pos)].tstamp < s.slots[pos].tstamp {
      var c := FirstChild(s.slots, pos);
      ExchangeIsPermutation(s, c, pos);
      SiftDownIsPermutation(Exchange(s, c, pos), c);
    }
  }

  /** Every neighbour knows its slot, but for the one in slot `pos`; and no neighbour is there twice. */
  ghost predicate PlacedBut(s: State, pos: nat) {
    && pos < |s.slots|
    && (forall k: nat | k < |s.slots| && k != pos :: KnowsSlot(s, k))
    && (forall k: nat | k < |s.slots| && k != pos :: s.slots[k].n != s.slots[pos].n)
  }

  lemma PlacedIsPlacedBut(s: State, pos: nat)
    requires Placed(s) && pos < |s.slots|
    ensures PlacedBut(s, pos)
  {
    forall k: nat | k < |s.slots| && k != pos
      ensures s.slots[k].n != s.slots[pos].n
    {
      if s.slots[k].n == s.slots[pos].n {
        PlacedIsDistinct(s, k, pos);
      }
    }
  }

  lemma {:induction false} SiftDownPlaces(s: State, pos: nat)
    requires Placed(s) && pos < |s.slots|
    ensures Placed(SiftDown(s, pos))
    decreases |s.slots| - pos
  {
    if 2 * pos + 1 < |s.slots| && s.slots[FirstChild(s.slots, pos)].tstamp < s.slots[pos].tstamp {
      var c := FirstChild(s.slots, pos);
      PlacedIsPlacedBut(s, pos);
      ExchangePlaces(s, c, pos);
      SiftDownPlaces(Exchange(s, c, pos), c);
    }
  }

  // ----- A new neighbour ----------------------------------------------------

  lemma InsertKeepsHeap(s: State, id: Id, ttl: nat, now: int)
    requires IsHeap(s.slots)
    ensures IsHeap(Insert(s, id, ttl, now).slots)
    ensures multiset(Insert(s, id, ttl, now).slots) == multiset(s.slots) + multiset{Entry(ttl + now, id)}
  {
    var n := |s.slots|;
    var t := State(s.slots + [Entry(ttl + now, id)], s.hnode[id := n], s.ttl[id := ttl]);
    forall i: nat | i < |t.slots| && (n == 0 || i != Parent(n))
      ensures InOrder(t.slots, i)
    {
      assert i < n ==> InOrder(s.slots, i);
    }
    if n > 0 {
      assert InOrder(s.slots, Parent(n));
    }
    SiftUpRestoresHeap(t, n);
    SiftUpKeeps(t, n);
  }

  /** A neighbour that is not in the heap yet leaves everyone's back pointer right. */
  lemma InsertPlaces(s: State, id: Id, ttl: nat, now: int)
    requires Placed(s) && forall i: nat | i < |s.slots| :: s.slots[i].n != id
    ensures Placed(Insert(s, id, ttl, now))
  {
    var t := State(s.slots + [Entry(ttl + now, id)], s.hnode[id := |s.slots|], s.ttl[id := ttl]);
    forall i: nat | i < |t.slots|
      ensures KnowsSlot(t, i)
    {
      assert i < |s.slots| ==> KnowsSlot(s, i);
    }
    SiftUpKeeps(t, |s.slots|);
  }

  // ----- A neighbour heard again --------------------------------------------

  /** No entry is further away than its neighbour's holding time. */
  ghost predicate Held(s: State, now: int) {
    forall i: nat | i < |s.slots| :: HeldAt(s, i, now)
  }

  predicate HeldAt(s: State, i: nat, now: int)
    requires i < |s.slots|
  {
    s.slots[i].n in s.ttl && s.slots[i].tstamp <= s.ttl[s.slots[i].n] + now
  }

  /** The key grows, so only the slot's own children can end up out of order. */
  lemma TouchedIsHeapBelow(s: State, id: Id, now: int)
    requires IsHeap(s.slots) && Placed(s) && Held(s, now)
    requires id in s.hnode && id in s.ttl && s.hnode[id] < |s.slots| && s.slots[s.hnode[id]].n == id
    ensures IsHeapBelow(Touch(s, id, now).slots, s.hnode[id])
    ensures Placed(Touch(s, id, now))
  {
    var k := s.hnode[id];
    var t := Touch(s, id, now);
    assert HeldAt(s, k, now);
    forall i: nat | i < |t.slots|
      ensures i != k ==> InOrder(t.slots, i)
      ensures KnowsSlot(t, i)
    {
      assert InOrder(s.slots, i) && KnowsSlot(s, i);
    }
    if k > 0 {
      assert InOrder(s.slots, k) && InOrder(s.slots, Parent(k));
    }
  }

  /** Sifting down from the slot itself, which is what the entry count would need, always works. */
  lemma RefreshFromOwnSlot(s: State, id: Id, now: int)
    requires IsHeap(s.slots) && Placed(s) && Held(s, now)
    requires id in s.hnode && id in s.ttl && s.hnode[id] < |s.slots| && s.slots[s.hnode[id]].n == id
    ensures IsHeap(Refresh(s, id, now, 1).slots) && Placed(Refresh(s, id, now, 1))
  {
    var k := s.hnode[id];
    TouchedIsHeapBelow(s, id, now);
    assert k / 1 == k;
    SiftDownRestoresHeap(Touch(s, id, now), k);
    SiftDownPlaces(Touch(s, id, now), k);
  }

  /** What must hold for time t in slot k to leave a heap: the root is sifted down properly and what
      lies beyond the end is not looked at; anything else stays where it is, except that a child of
      the root may rise. */
  predicate StaysHeap(s: seq<Entry>, k: nat, t: int) {
    k == 0 || k >= |s| || (NoChildBefore(s, k, t) && (k <= 2 || s[Parent(k)].tstamp <= t))
  }

  /** Sifting from the root after a child of it, and from before the parent after anything else, keeps
      the heap exactly under this condition. */
  lemma RefreshFromKeepsHeapIff(s: State, id: Id, now: int, j: nat)
    requires IsHeap(s.slots) && id in s.hnode && id in s.ttl
    requires var k := s.hnode[id]; j <= k && (k <= 2 ==> j == 0) && (k > 2 ==> j < Parent(k))
    ensures IsHeap(RefreshFrom(s, id, now, j).slots) <==> StaysHeap(s.slots, s.hnode[id], s.ttl[id] + now)
  {
    var k, n := s.hnode[id], |s.slots|;
    if k >= n {
      if j < n {
        SiftsNothing(s, j);
      }
    } else if k == 0 {
      RootTouched(s, Touch(s, id, now));
      SiftDownRestoresHeap(Touch(s, id, now), 0);
    } else if k <= 2 {
      ChildTouched(s, id, now);
    } else {
      assert InOrder(s.slots, j) && k != 2 * j + 1 && k != 2 * j + 2;
      SiftsNothing(Touch(s, id, now), j);
      TouchedInPlace(s, id, now);
    }
  }

  /** With the size of an entry, a time and a pointer, the sifting starts in the wrong slot. Whatever
      neighbour refreshes through whatever back pointer, the heap survives exactly under this
      condition. */
  lemma RefreshKeepsHeapIff(s: State, id: Id, now: int, size: nat)
    requires IsHeap(s.slots) && id in s.hnode && id in s.ttl && size > 4
    ensures IsHeap(Refresh(s, id, now, size).slots) <==> StaysHeap(s.slots, s.hnode[id], s.ttl[id] + now)
  {
    Quotient(s.hnode[id], size);
    RefreshFromKeepsHeapIff(s, id, now, s.hnode[id] / size);
  }

  lemma SiftsNothing(s: State, j: nat)
    requires j < |s.slots| && InOrder(s.slots, j)
    ensures SiftDown(s, j) == s
  {
  }

  lemma RootTouched(s: State, t: State)
    requires IsHeap(s.slots) && |t.slots| == |s.slots| > 0
    requires forall i | 0 < i < |s.slots| :: t.slots[i] == s.slots[i]
    ensures IsHeapBelow(t.slots, 0)
  {
    forall i: nat | 0 < i < |t.slots|
      ensures InOrder(t.slots, i)
    {
      assert InOrder(s.slots, i);
    }
  }

  /** A slot that stays where it is is in order with its children and its parent, or not. */
  lemma TouchedInPlace(s: State, id: Id, now: int)
    requires IsHeap(s.slots) && id in s.hnode && id in s.ttl && 0 < s.hnode[id] < |s.slots|
    ensures var k := s.hnode[id];
            IsHeap(Touch(s, id, now).slots)
            <==> NoChildBefore(s.slots, k, s.ttl[id] + now) && s.slots[Parent(k)].tstamp <= s.ttl[id] + now
  {
    var k, t := s.hnode[id], Touch(s, id, now);
    if IsHeap(t.slots) {
      assert InOrder(t.slots, k) && InOrder(t.slots, Parent(k));
    }
    if NoChildBefore(s.slots, k, s.ttl[id] + now) && s.slots[Parent(k)].tstamp <= s.ttl[id] + now {
      forall i: nat | i < |t.slots|
        ensures InOrder(t.slots, i)
      {
        assert InOrder(s.slots, i);
      }
    }
  }

  /** A child of the root rises if it has to, for there the sifting starts in the right place. */
  lemma ChildTouched(s: State, id: Id, now: int)
    requires IsHeap(s.slots) && id in s.hnode && id in s.ttl && 0 < s.hnode[id] <= 2 && s.hnode[id] < |s.slots|
    ensures IsHeap(SiftDown(Touch(s, id, now), 0).slots) <==> NoChildBefore(s.slots, s.hnode[id], s.ttl[id] + now)
  {
    var k, t := s.hnode[id], Touch(s, id, now);
    assert InOrder(s.slots, 0) && InOrder(s.slots, k);
    if s.slots[0].tstamp <= s.ttl[id] + now {
      SiftsNothing(t, 0);
      TouchedInPlace(s, id, now);
    } else {
      forall i: nat | 0 < i < |t.slots|
        ensures InOrder(t.slots, i)
      {
        assert InOrder(s.slots, i);
      }
      SiftDownRestoresHeap(t, 0);
    }
  }

  /** Back pointers that are right stay right. */
  lemma RefreshPlaces(s: State, id: Id, now: int, size: nat)
    requires Placed(s) && id in s.hnode && id in s.ttl && size > 0
    ensures Placed(Refresh(s, id, now, size))
  {
    var t, j := Touch(s, id, now), s.hnode[id] / size;
    forall i: nat | i < |t.slots|
      ensures KnowsSlot(t, i)
    {
      assert KnowsSlot(s, i);
    }
    if j < |t.slots| {
      SiftDownPlaces(t, j);
    }
  }

  /** From the fourth slot on, a fifth of the index and less is before the parent. */
  lemma Quotient(k: nat, size: nat)
    requires size > 4
    ensures k / size <= k && (k <= 2 ==> k / size == 0) && (k > 2 ==> k / size < Parent(k))
  {
    var q := k / size;
    assert k == size * q + k % size;
    FiveTimes(size, q);
  }

  lemma {:induction false} FiveTimes(size: nat, q: nat)
    requires size > 4
    ensures size * q >= 5 * q
  {
    if q > 0 {
      FiveTimes(size, q - 1);
      assert size * q == size * (q - 1) + size;
    }
  }

  /** A heap of four that loses its order when its second entry is refreshed. */
  lemma RefreshBreaksHeap()
    ensures exists s: State, id: Id, now: int ::
              && IsHeap(s.slots) && Placed(s) && Held(s, now) && id in s.hnode && id in s.ttl
              && !IsHeap(Refresh(s, id, now, 16).slots)
  {
    var s := State([Entry(1, 0), Entry(2, 1), Entry(5, 2), Entry(3, 3)],
                   map[0 := 0, 1 := 1, 2 := 2, 3 := 3], map[0 := 9, 1 := 9, 2 := 9, 3 := 9]);
    assert Held(s, 0) && Placed(s);
    assert IsHeap(s.slots) by {
      forall i: nat | i < 4 ensures InOrder(s.slots, i) {}
    }
    RefreshKeepsHeapIff(s, 1, 0, 16);
    assert !NoChildBefore(s.slots, 1, 9) by {
      assert s.slots[3].tstamp == 3;
    }
    assert !IsHeap(Refresh(s, 1, 0, 16).slots);
  }

  // ----- The neighbour that expires first -----------------------------------

  lemma {:induction false} RootExpiresFirst(s: seq<Entry>, i: nat)
    requires IsHeap(s) && i < |s|
    ensures s[0].tstamp <= s[i].tstamp
  {
    if i > 0 {
      RootExpiresFirst(s, Parent(i));
      assert InOrder(s, Parent(i));
    }
  }

  lemma PopKeepsHeap(s: State)
    requires IsHeap(s.slots) && |s.slots| > 0
    ensures IsHeap(Pop(s).slots)
    ensures multiset(Pop(s).slots) + multiset{s.slots[0]} == multiset(s.slots)
  {
    var n := |s.slots| - 1;
    var t := Moved(s);
    MovedIsRest(s);
    if n > 0 {
      forall i: nat | i < n && i != 0
        ensures InOrder(t.slots, i)
      {
        assert InOrder(s.slots, i);
      }
      SiftDownRestoresHeap(t, 0);
      SiftDownIsPermutation(t, 0);
    }
  }

  lemma Cancel<T>(x: multiset<T>, y: multiset<T>, e: T)
    requires x + multiset{e} == y + multiset{e}
    ensures x == y
  {
    forall k: T | k in x + y
      ensures x[k] == y[k]
    {
      assert (x + multiset{e})[k] == (y + multiset{e})[k];
    }
  }

  /** Overwriting the first element with the last and dropping the last removes just the first. */
  lemma LastToFront<T>(a: seq<T>)
    requires |a| > 0
    ensures multiset(a[0 := a[|a| - 1]][..|a| - 1]) == multiset(a) - multiset{a[0]}
    ensures multiset(a[0 := a[|a| - 1]][..|a| - 1]) + multiset{a[0]} == multiset(a)
  {
    var n := |a| - 1;
    var b := a[0 := a[n]];
    assert b == b[..n] + [b[n]];
    assert multiset(b) == multiset(a) - multiset{a[0]} + multiset{a[n]};
    Cancel(multiset(b[..n]), multiset(a) - multiset{a[0]}, a[n]);
    assert a[0] in multiset(a);
  }

  lemma MovedIsRest(s: State)
    requires |s.slots| > 0
    ensures multiset(Moved(s).slots) + multiset{s.slots[0]} == multiset(s.slots)
  {
    LastToFront(s.slots);
  }

  /** The entry moved to the root does not tell its neighbour. The neighbour learns its slot only
      if it is then exchanged with a child, so the back pointers are right afterwards exactly when
      the heap is empty or some child of the root expires before the moved entry. */
  lemma PopPlacesIff(s: State)
    requires Placed(s) && |s.slots| > 0
    ensures Placed(Pop(s)) <==> |s.slots| == 1
                                || !NoChildBefore(Moved(s).slots, 0, s.slots[|s.slots| - 1].tstamp)
  {
    var n := |s.slots| - 1;
    var t := Moved(s);
    if n > 0 {
      assert KnowsSlot(s, n) && KnowsSlot(s, 0);
      forall k: nat | k < n && k != 0
        ensures KnowsSlot(t, k) && t.slots[k].n != t.slots[0].n
      {
        assert KnowsSlot(s, k);
      }
      if NoChildBefore(t.slots, 0, t.slots[0].tstamp) {
        assert Pop(s) == t;
        assert !KnowsSlot(t, 0);
      } else {
        var c := FirstChild(t.slots, 0);
        ExchangePlaces(t, c, 0);
        SiftDownPlaces(Exchange(t, c, 0), c);
      }
    }
  }

  // ----- A round of the cleaner ---------------------------------------------

  predicate InTimeOrder(s: seq<Entry>) {
    forall i, j | 0 <= i < j < |s| :: s[i].tstamp <= s[j].tstamp
  }

  predicate AllExpired(s: seq<Entry>, now: int) {
    forall i | 0 <= i < |s| :: s[i].tstamp <= now
  }

  predicate NoneExpired(s: seq<Entry>, now: int) {
    forall i | 0 <= i < |s| :: s[i].tstamp > now
  }

  /** A round frees exactly the neighbours that are due, the longest overdue first, and the rest is
      a heap. */
  lemma {:induction false} ExpireIsExact(s: State, now: int)
    requires IsHeap(s.slots)
    ensures var (freed, rest) := Expire(s, now);
            && multiset(freed) + multiset(rest.slots) == multiset(s.slots)
            && AllExpired(freed, now) && NoneExpired(rest.slots, now)
            && InTimeOrder(freed) && IsHeap(rest.slots)
    decreases |s.slots|
  {
    if |s.slots| == 0 {
    } else if s.slots[0].tstamp > now {
      forall i: nat | i < |s.slots|
        ensures s.slots[i].tstamp > now
      {
        RootExpiresFirst(s.slots, i);
      }
    } else {
      PopKeepsHeap(s);
      ExpireIsExact(Pop(s), now);
      var (freed, rest) := Expire(Pop(s), now);
      FreedAfterRoot(s, freed, rest, now);
    }
  }

  lemma FreedAfterRoot(s: State, freed: seq<Entry>, rest: State, now: int)
    requires IsHeap(s.slots) && |s.slots| > 0 && s.slots[0].tstamp <= now
    requires multiset(Pop(s).slots) + multiset{s.slots[0]} == multiset(s.slots)
    requires multiset(freed) + multiset(rest.slots) == multiset(Pop(s).slots)
    requires AllExpired(freed, now) && InTimeOrder(freed)
    ensures multiset([s.slots[0]] + freed) + multiset(rest.slots) == multiset(s.slots)
    ensures AllExpired([s.slots[0]] + freed, now) && InTimeOrder([s.slots[0]] + freed)
  {
    assert multiset([s.slots[0]] + freed) == multiset{s.slots[0]} + multiset(freed);
    if |freed| > 0 {
      assert freed[0] in multiset(freed);
      InHeapAfterRoot(s, freed[0]);
      assert forall j | 0 <= j < |freed| :: freed[0].tstamp <= freed[j].tstamp;
    }
  }

  lemma InHeapAfterRoot(s: State, e: Entry)
    requires IsHeap(s.slots) && |s.slots| > 0
    requires multiset(Pop(s).slots) + multiset{s.slots[0]} == multiset(s.slots)
    requires e in multiset(Pop(s).slots)
    ensures s.slots[0].tstamp <= e.tstamp
  {
    assert e in multiset(s.slots);
    assert e in s.slots;
    var i :| 0 <= i < |s.slots| && s.slots[i] == e;
    RootExpiresFirst(s.slots, i);
  }

  // ----- Whole runs ---------------------------------------------------------

  function Names(s: seq<Entry>): (r: seq<Id>)
    ensures |r| == |s| && forall i: nat | i < |s| :: r[i] == s[i].n
  {
    seq(|s|, i requires 0 <= i < |s| => s[i].n)
  }

  /** The heap holds every neighbour that is known exactly once. */
  ghost predicate Registered(s: State) {
    multiset(Names(s.slots)) == multiset(s.hnode.Keys) && s.hnode.Keys == s.ttl.Keys
  }

  /** Same neighbours, whatever their times and places. */
  ghost predicate SameNeighbours(s: State, t: State) {
    && multiset(Names(s.slots)) == multiset(Names(t.slots))
    && s.hnode.Keys == t.hnode.Keys && s.ttl == t.ttl
  }

  lemma NameIsKey(s: State, i: nat)
    requires Registered(s) && i < |s.slots|
    ensures s.slots[i].n in s.hnode
  {
    assert Names(s.slots)[i] in multiset(Names(s.slots));
    assert s.slots[i].n in multiset(s.hnode.Keys);
  }

  lemma ExchangeSame(s: State, i: nat, j: nat)
    requires Registered(s) && i < |s.slots| && j < |s.slots|
    ensures SameNeighbours(s, Exchange(s, i, j))
  {
    NameIsKey(s, i);
    NameIsKey(s, j);
    var a := Names(s.slots);
    var b := a[i := a[j]];
    assert Names(Exchange(s, i, j).slots) == b[j := a[i]];
    assert multiset(b) == multiset(a) - multiset{a[i]} + multiset{a[j]};
    assert multiset(b[j := a[i]]) == multiset(b) - multiset{b[j]} + multiset{a[i]};
  }

  lemma {:induction false} SiftUpSame(s: State, pos: nat)
    requires Registered(s) && pos < |s.slots|
    ensures SameNeighbours(s, SiftUp(s, pos))
    decreases pos
  {
    if pos > 0 && s.slots[pos].tstamp < s.slots[Parent(pos)].tstamp {
      ExchangeSame(s, pos, Parent(pos));
      SiftUpSame(Exchange(s, pos, Parent(pos)), Parent(pos));
    }
  }

  lemma {:induction false} SiftDownSame(s: State, pos: nat)
    requires Registered(s) && pos < |s.slots|
    ensures SameNeighbours(s, SiftDown(s, pos))
    decreases |s.slots| - pos
  {
    if 2 * pos + 1 < |s.slots| && s.slots[FirstChild(s.slots, pos)].tstamp < s.slots[pos].tstamp {
      var c := FirstChild(s.slots, pos);
      ExchangeSame(s, c, pos);
      SiftDownSame(Exchange(s, c, pos), c);
    }
  }

  lemma TouchSame(s: State, id: Id, now: int)
    requires Registered(s) && id in s.hnode
    ensures Registered(Touch(s, id, now)) && SameNeighbours(s, Touch(s, id, now))
  {
    assert Names(Touch(s, id, now).slots) == Names(s.slots);
  }

  /** Holds with stale back pointers, too: the time may go to the wrong entry, but nobody is lost. */
  lemma RefreshSame(s: State, id: Id, now: int, size: nat)
    requires Registered(s) && id in s.hnode && size > 0
    ensures SameNeighbours(s, Refresh(s, id, now, size))
  {
    TouchSame(s, id, now);
    var t, j := Touch(s, id, now), s.hnode[id] / size;
    if j < |t.slots| {
      SiftDownSame(t, j);
    }
  }

  lemma InsertSame(s: State, id: Id, ttl: nat, now: int)
    requires Registered(s) && id !in s.hnode
    ensures Registered(Insert(s, id, ttl, now))
    ensures multiset(Names(Insert(s, id, ttl, now).slots)) == multiset(Names(s.slots)) + multiset{id}
  {
    var t := State(s.slots + [Entry(ttl + now, id)], s.hnode[id := |s.slots|], s.ttl[id := ttl]);
    assert Names(t.slots) == Names(s.slots) + [id];
    assert t.hnode.Keys == s.hnode.Keys + {id};
    assert t.ttl.Keys == s.ttl.Keys + {id};
    SiftUpSame(t, |s.slots|);
  }

  lemma MovedSame(s: State)
    requires Registered(s) && |s.slots| > 0
    ensures Registered(Moved(s))
    ensures multiset(Names(Moved(s).slots)) + multiset{s.slots[0].n} == multiset(Names(s.slots))
  {
    var n := |s.slots| - 1;
    NameIsKey(s, 0);
    var a := Names(s.slots);
    LastToFront(a);
    assert Names(Moved(s).slots) == a[0 := a[n]][..n];
    assert Moved(s).hnode.Keys == s.hnode.Keys - {a[0]};
    assert Moved(s).ttl.Keys == s.ttl.Keys - {a[0]};
    assert multiset(s.hnode.Keys) - multiset{a[0]} == multiset(s.hnode.Keys - {a[0]});
  }

  lemma PopSame(s: State)
    requires Registered(s) && |s.slots| > 0
    ensures Registered(Pop(s))
    ensures multiset(Names(Pop(s).slots)) + multiset{s.slots[0].n} == multiset(Names(s.slots))
  {
    MovedSame(s);
    if |s.slots| > 1 {
      SiftDownSame(Moved(s), 0);
    }
  }

  lemma {:induction false} ExpireSame(s: State, now: int)
    requires Registered(s)
    ensures var (freed, rest) := Expire(s, now);
            Registered(rest) && multiset(Names(freed)) + multiset(Names(rest.slots)) == multiset(Names(s.slots))
    decreases |s.slots|
  {
    if |s.slots| > 0 && s.slots[0].tstamp <= now {
      PopSame(s);
      ExpireSame(Pop(s), now);
      var (freed, rest) := Expire(Pop(s), now);
      NamesAfterRoot(s.slots[0], freed);
    } else {
      assert Names([]) == [];
    }
  }

  lemma NamesAfterRoot(e: Entry, freed: seq<Entry>)
    ensures multiset(Names([e] + freed)) == multiset{e.n} + multiset(Names(freed))
  {
    assert Names([e] + freed) == [e.n] + Names(freed);
  }

  // ----- A refresh never lowers a key: `Held` is kept ------------------------

  lemma HeldPermuted(s: State, t: State, now: int)
    requires Held(s, now) && multiset(s.slots) == multiset(t.slots)
    requires s.ttl == t.ttl
    ensures Held(t, now)
  {
    forall i: nat | i < |t.slots|
      ensures HeldAt(t, i, now)
    {
      assert t.slots[i] in multiset(s.slots);
      var j: nat :| j < |s.slots| && s.slots[j] == t.slots[i];
      assert HeldAt(s, j, now);
    }
  }

  lemma SiftUpTtl(s: State, pos: nat)
    requires pos < |s.slots|
    ensures SiftUp(s, pos).ttl == s.ttl
    decreases pos
  {
  }

  lemma InsertKeepsHeld(s: State, id: Id, ttl: nat, now: int)
    requires Held(s, now) && Registered(s) && id !in s.hnode
    ensures Held(Insert(s, id, ttl, now), now)
  {
    var t := State(s.slots + [Entry(ttl + now, id)], s.hnode[id := |s.slots|], s.ttl[id := ttl]);
    forall i: nat | i < |t.slots|
      ensures HeldAt(t, i, now)
    {
      if i < |s.slots| {
        NameIsKey(s, i);
        assert HeldAt(s, i, now);
      }
    }
    SiftUpKeeps(t, |s.slots|);
    SiftUpTtl(t, |s.slots|);
    HeldPermuted(t, Insert(s, id, ttl, now), now);
  }

  /** A refresh keeps this exactly when the slot that gets the time is that of a neighbour with at
      least the same holding time; its own, if the back pointer is right. */
  lemma RefreshKeepsHeldIff(s: State, id: Id, now: int, size: nat)
    requires Held(s, now) && id in s.hnode && id in s.ttl && size > 0
    ensures Held(Refresh(s, id, now, size), now)
            <==> s.hnode[id] < |s.slots| ==>
                   s.slots[s.hnode[id]].n in s.ttl && s.ttl[id] <= s.ttl[s.slots[s.hnode[id]].n]
  {
    var j := s.hnode[id] / size;
    if s.hnode[id] < |s.slots| {
      TouchedHeldIff(s, id, now);
    }
    if j < |s.slots| {
      SiftDownHeldIff(Touch(s, id, now), j, now);
    }
  }

  lemma TouchedHeldIff(s: State, id: Id, now: int)
    requires Held(s, now) && id in s.hnode && id in s.ttl && s.hnode[id] < |s.slots|
    ensures s.slots[s.hnode[id]].n in s.ttl
    ensures Held(Touch(s, id, now), now) <==> s.ttl[id] <= s.ttl[s.slots[s.hnode[id]].n]
  {
    var k, t := s.hnode[id], Touch(s, id, now);
    assert HeldAt(s, k, now);
    if s.ttl[id] <= s.ttl[s.slots[k].n] {
      forall i: nat | i < |t.slots|
        ensures HeldAt(t, i, now)
      {
        assert HeldAt(s, i, now);
      }
    } else {
      assert !HeldAt(t, k, now);
    }
  }

  lemma SiftDownHeldIff(s: State, pos: nat, now: int)
    requires pos < |s.slots|
    ensures Held(SiftDown(s, pos), now) <==> Held(s, now)
  {
    var t := SiftDown(s, pos);
    SiftDownIsPermutation(s, pos);
    if Held(s, now) {
      HeldPermuted(s, t, now);
    }
    if Held(t, now) {
      HeldPermuted(t, s, now);
    }
  }

  lemma PopKeepsHeld(s: State, now: int)
    requires Held(s, now) && Registered(s) && |s.slots| > 0
    ensures Held(Pop(s), now)
  {
    var t := Moved(s);
    MovedSame(s);
    forall i: nat | i < |t.slots|
      ensures HeldAt(t, i, now)
    {
      NameIsKey(t, i);
      assert t.slots[i] == if i == 0 then s.slots[|s.slots| - 1] else s.slots[i];
      assert HeldAt(s, i, now) && HeldAt(s, |s.slots| - 1, now);
    }
    if |s.slots| > 1 {
      SiftDownIsPermutation(t, 0);
      HeldPermuted(t, Pop(s), now);
    }
  }

  /** What happens to the heap. The number stands for the neighbour's record, so a new one is new. */
  datatype Event = New(id: Id, ttl: nat, now: int) | Again(id: Id, now: int) | Clean(now: int)

  predicate CanHappen(s: State, e: Event) {
    match e
    case New(id, _, _) => id !in s.hnode
    case Again(id, _) => id in s.hnode && id in s.ttl
    case Clean(_) => true
  }

  function Step(s: State, e: Event, size: nat): (r: (seq<Entry>, State))
    requires CanHappen(s, e) && size > 0
  {
    match e
    case New(id, ttl, now) => ([], Insert(s, id, ttl, now))
    case Again(id, now) => ([], Refresh(s, id, now, size))
    case Clean(now) => Expire(s, now)
  }

  /** The states of a run, and what each of its events frees. */
  ghost predicate IsRun(ss: seq<State>, es: seq<Event>, freed: seq<seq<Entry>>, size: nat) {
    && size > 0 && |ss| == |es| + 1 && |freed| == |es| && ss[0] == State([], map[], map[])
    && forall k: nat | k < |es| :: StepAt(ss, es, freed, size, k)
  }

  predicate StepAt(ss: seq<State>, es: seq<Event>, freed: seq<seq<Entry>>, size: nat, k: nat)
    requires size > 0 && |ss| == |es| + 1 && |freed| == |es| && k < |es|
  {
    CanHappen(ss[k], es[k]) && (freed[k], ss[k + 1]) == Step(ss[k], es[k], size)
  }

  function Appearing(e: Event): multiset<Id> { if e.New? then multiset{e.id} else multiset{} }

  /** The neighbours that appear in the first k events. */
  function Heard(es: seq<Event>, k: nat): multiset<Id>
    requires k <= |es|
  {
    if k == 0 then multiset{}
    else Heard(es, k - 1) + Appearing(es[k - 1])
  }

  /** The neighbours freed by the first k events. */
  function Freed(freed: seq<seq<Entry>>, k: nat): multiset<Id>
    requires k <= |freed|
  {
    if k == 0 then multiset{} else Freed(freed, k - 1) + multiset(Names(freed[k - 1]))
  }

  /** On every run, whatever became of heap order and back pointers, each neighbour ever heard is
      either freed, once, or still in the heap, once; and the heap holds exactly the known ones. */
  lemma {:induction false} RunsConserve(ss: seq<State>, es: seq<Event>, freed: seq<seq<Entry>>, size: nat, k: nat)
    requires IsRun(ss, es, freed, size) && k <= |es|
    ensures Registered(ss[k])
    ensures Freed(freed, k) + multiset(Names(ss[k].slots)) == Heard(es, k)
  {
    if k == 0 {
      assert Names(ss[0].slots) == [];
    } else {
      RunsConserve(ss, es, freed, size, k - 1);
      assert StepAt(ss, es, freed, size, k - 1);
      StepConserves(ss[k - 1], es[k - 1], size);
      Balance(Freed(freed, k - 1), multiset(Names(ss[k - 1].slots)), Heard(es, k - 1),
              multiset(Names(freed[k - 1])), multiset(Names(ss[k].slots)), Appearing(es[k - 1]));
    }
  }

  lemma Balance(freed: multiset<Id>, kept: multiset<Id>, heard: multiset<Id>,
                more: multiset<Id>, left: multiset<Id>, arrived: multiset<Id>)
    requires freed + kept == heard && more + left == kept + arrived
    ensures (freed + more) + left == heard + arrived
  {
    forall e: Id
      ensures ((freed + more) + left)[e] == (heard + arrived)[e]
    {
      assert (more + left)[e] == (kept + arrived)[e];
    }
  }

  lemma StepConserves(s: State, e: Event, size: nat)
    requires Registered(s) && CanHappen(s, e) && size > 0
    ensures var (freed, t) := Step(s, e, size);
            && Registered(t)
            && multiset(Names(freed)) + multiset(Names(t.slots))
               == multiset(Names(s.slots)) + Appearing(e)
  {
    match e
    case New(id, ttl, now) =>
      InsertSame(s, id, ttl, now);
      assert Names([]) == [];
    case Again(id, now) =>
      RefreshSame(s, id, now, size);
      assert Names([]) == [];
    case Clean(now) => ExpireSame(s, now);
  }

  // ----- Heap order on runs -------------------------------------------------

  ghost predicate HeapAt(ss: seq<State>, j: nat)
    requires j < |ss|
  {
    IsHeap(ss[j].slots)
  }

  /** Event j is no refresh, or one that the heap survives. */
  predicate SafeAt(ss: seq<State>, es: seq<Event>, j: nat)
    requires j < |ss| && j < |es|
  {
    es[j].Again? ==>
      var s, id := ss[j], es[j].id;
      id in s.hnode && id in s.ttl && StaysHeap(s.slots, s.hnode[id], s.ttl[id] + es[j].now)
  }

  lemma StepKeepsHeapIff(s: State, e: Event, size: nat)
    requires IsHeap(s.slots) && CanHappen(s, e) && size > 4
    ensures IsHeap(Step(s, e, size).1.slots)
            <==> (e.Again? ==> StaysHeap(s.slots, s.hnode[e.id], s.ttl[e.id] + e.now))
  {
    match e
    case New(id, ttl, now) => InsertKeepsHeap(s, id, ttl, now);
    case Again(id, now) => RefreshKeepsHeapIff(s, id, now, size);
    case Clean(now) => ExpireIsExact(s, now);
  }

  /** On every run, whatever became of the back pointers: the first k + 1 states are heaps exactly
      when each refresh among the first k events meets the condition. */
  lemma {:induction false} HeapsIffSafe(ss: seq<State>, es: seq<Event>, freed: seq<seq<Entry>>, size: nat, k: nat)
    requires IsRun(ss, es, freed, size) && size > 4 && k <= |es|
    ensures (forall j: nat | j <= k :: HeapAt(ss, j)) <==> (forall j: nat | j < k :: SafeAt(ss, es, j))
  {
    if k == 0 {
      assert HeapAt(ss, 0);
    } else {
      HeapsIffSafe(ss, es, freed, size, k - 1);
      assert StepAt(ss, es, freed, size, k - 1);
      if forall j: nat | j <= k - 1 :: HeapAt(ss, j) {
        assert HeapAt(ss, k - 1);
        StepKeepsHeapIff(ss[k - 1], es[k - 1], size);
        assert HeapAt(ss, k) <==> SafeAt(ss, es, k - 1);
        if HeapAt(ss, k) {
          assert forall j: nat | j <= k :: j == k || HeapAt(ss, j);
          assert forall j: nat | j < k :: j == k - 1 || SafeAt(ss, es, j);
        }
      } else {
        var j: nat :| j <= k - 1 && !HeapAt(ss, j);
        var i: nat :| i < k - 1 && !SafeAt(ss, es, i);
      }
    }
  }

  /** So on every such run a round of the cleaner frees exactly the neighbours that are due, in order
      of time, and leaves those that are not. */
  lemma CleanFreesTheDue(ss: seq<State>, es: seq<Event>, freed: seq<seq<Entry>>, size: nat, k: nat)
    requires IsRun(ss, es, freed, size) && size > 4 && k < |es| && es[k].Clean?
    requires forall j: nat | j < k :: SafeAt(ss, es, j)
    ensures multiset(freed[k]) + multiset(ss[k + 1].slots) == multiset(ss[k].slots)
    ensures AllExpired(freed[k], es[k].now) && InTimeOrder(freed[k]) && NoneExpired(ss[k + 1].slots, es[k].now)
  {
    HeapsIffSafe(ss, es, freed, size, k);
    assert HeapAt(ss, k);
    assert StepAt(ss, es, freed, size, k);
    ExpireIsExact(ss[k], es[k].now);
  }

  /** A run that loses heap order. Neighbour 1 moves to the root when 0 expires and is not told; its
      refresh gives 2 a time much too late; and when 2 is refreshed later its time falls below that
      of its parent. */
  function BreakingEvents(): seq<Event> {
    [New(0, 2, 5), New(1, 8, 7), Clean(12), New(2, 2, 13), New(3, 1, 15), Again(1, 17), New(4, 3, 19), Again(2, 19)]
  }

  function BreakingStates(): seq<State> {
    [State([], map[], map[]),
     State([Entry(7, 0)], map[0 := 0], map[0 := 2]),
     State([Entry(7, 0), Entry(15, 1)], map[0 := 0, 1 := 1], map[0 := 2, 1 := 8]),
     State([Entry(15, 1)], map[1 := 1], map[1 := 8]),
     State([Entry(15, 1), Entry(15, 2)], map[1 := 1, 2 := 1], map[1 := 8, 2 := 2]),
     State([Entry(15, 1), Entry(15, 2), Entry(16, 3)], map[1 := 1, 2 := 1, 3 := 2], map[1 := 8, 2 := 2, 3 := 1]),
     State([Entry(15, 1), Entry(25, 2), Entry(16, 3)], map[1 := 1, 2 := 1, 3 := 2], map[1 := 8, 2 := 2, 3 := 1]),
     State([Entry(15, 1), Entry(22, 4), Entry(16, 3), Entry(25, 2)],
           map[1 := 1, 2 := 3, 3 := 2, 4 := 1], map[1 := 8, 2 := 2, 3 := 1, 4 := 3]),
     State([Entry(15, 1), Entry(22, 4), Entry(16, 3), Entry(21, 2)],
           map[1 := 1, 2 := 3, 3 := 2, 4 := 1], map[1 := 8, 2 := 2, 3 := 1, 4 := 3])]
  }

  function BreakingFreed(): seq<seq<Entry>> { [[], [], [Entry(7, 0)], [], [], [], [], []] }

  predicate BreakingGoesOn(k: nat)
    requires k < 8
  {
    && CanHappen(BreakingStates()[k], BreakingEvents()[k])
    && Step(BreakingStates()[k], BreakingEvents()[k], 16) == (BreakingFreed()[k], BreakingStates()[k + 1])
  }

  lemma EarlySteps(k: nat)
    requires k < 4
    ensures BreakingGoesOn(k)
  {
    var ss := BreakingStates();
    match k
    case 0 => FirstNew(ss[0], 0, 2, 5);
    case 1 => NewComesNext(ss[1], 1, 8, 7, ss[2]);
    case 2 => BreakingClean();
    case _ => NewComesNext(ss[3], 2, 2, 13, ss[4]);
  }

  lemma LateSteps(k: nat)
    requires 4 <= k < 8
    ensures BreakingGoesOn(k)
  {
    var ss := BreakingStates();
    match k
    case 4 => NewComesNext(ss[4], 3, 1, 15, ss[5]);
    case 5 => BreakingRefresh();
    case 6 => BreakingNew();
    case _ => LastRefresh();
  }

  lemma FirstNew(s: State, id: Id, ttl: nat, now: int)
    requires s.slots == []
    ensures Insert(s, id, ttl, now) == State([Entry(ttl + now, id)], s.hnode[id := 0], s.ttl[id := ttl])
  {
  }

  /** A newcomer that expires no earlier than its parent stays at the end. */
  lemma NewStays(s: State, id: Id, ttl: nat, now: int)
    requires s.slots != [] && s.slots[Parent(|s.slots|)].tstamp <= ttl + now
    ensures Insert(s, id, ttl, now)
            == State(s.slots + [Entry(ttl + now, id)], s.hnode[id := |s.slots|], s.ttl[id := ttl])
  {
  }

  lemma NewComesNext(s: State, id: Id, ttl: nat, now: int, t: State)
    requires s.slots != [] && s.slots[Parent(|s.slots|)].tstamp <= ttl + now
    requires t.slots == s.slots + [Entry(ttl + now, id)]
    requires t.hnode == s.hnode[id := |s.slots|] && t.ttl == s.ttl[id := ttl]
    ensures Insert(s, id, ttl, now) == t
  {
    NewStays(s, id, ttl, now);
  }

  lemma BreakingClean()
    ensures Step(BreakingStates()[2], Clean(12), 16) == ([Entry(7, 0)], BreakingStates()[3])
  {
    var s, t := BreakingStates()[2], BreakingStates()[3];
    assert Moved(s).slots == t.slots;
    assert Moved(s).hnode == t.hnode;
    assert Moved(s).ttl == t.ttl;
    assert Pop(s) == t;
    assert Expire(t, 12) == ([], t);
    assert [s.slots[0]] + [] == [Entry(7, 0)];
  }

  lemma BreakingRefresh()
    ensures Step(BreakingStates()[5], Again(1, 17), 16) == ([], BreakingStates()[6])
  {
    var s, t := BreakingStates()[5], BreakingStates()[6];
    assert s.slots[1 := Entry(25, 2)] == t.slots;
    SiftsNothing(t, 0);
  }

  lemma BreakingNew()
    ensures Step(BreakingStates()[6], New(4, 3, 19), 16) == ([], BreakingStates()[7])
  {
    var s, t := BreakingStates()[6], BreakingStates()[7];
    var u := State(s.slots + [Entry(22, 4)], s.hnode[4 := 3], s.ttl[4 := 3]);
    assert Exchange(u, 3, 1).slots == t.slots;
    assert Exchange(u, 3, 1).hnode == t.hnode;
    assert u.ttl == t.ttl;
    assert SiftUp(t, 1) == t;
  }

  lemma LastRefresh()
    ensures Step(BreakingStates()[7], Again(2, 19), 16) == ([], BreakingStates()[8])
  {
    var s, t := BreakingStates()[7], BreakingStates()[8];
    assert s.slots[3 := Entry(21, 2)] == t.slots;
    SiftsNothing(t, 0);
  }

  lemma RunBreaksHeap()
    ensures IsRun(BreakingStates(), BreakingEvents(), BreakingFreed(), 16)
    ensures HeapAt(BreakingStates(), 7) && !HeapAt(BreakingStates(), 8)
  {
    var ss, es, freed := BreakingStates(), BreakingEvents(), BreakingFreed();
    forall k: nat | k < |es|
      ensures StepAt(ss, es, freed, 16, k)
    {
      if k < 4 {
        EarlySteps(k);
      } else {
        LateSteps(k);
      }
    }
    assert HeapAt(ss, 7) by {
      forall i: nat | i < 4 ensures InOrder(ss[7].slots, i) {}
    }
    assert !InOrder(ss[8].slots, 1);
  }

  /** What a stale pointer can do: after one of two neighbours expires and a third appears, hearing
      the survivor again moves the newcomer's time instead, and the survivor keeps its old one. */
  lemma StaleRefreshHitsAnother()
    ensures exists s: State, now: int ::
              && IsHeap(s.slots) && Placed(s) && Registered(s)
              && var (_, t) := Expire(s, now);
                 var u := Insert(t, 2, 180, now);
                 && 1 in u.hnode && 1 in u.ttl && u.slots == [Entry(3, 1), Entry(180 + now, 2)]
                 && Refresh(u, 1, now, 16).slots == [Entry(3, 1), Entry(u.ttl[1] + now, 2)]
  {
    var s := TwoNeighbours();
    TwoAreRegistered();
    var t := Moved(s);
    FirstExpires();
    assert t.slots == [Entry(3, 1)] && t.hnode[1] == 1 && t.ttl[1] == 100;
    SurvivorIsHeardAgain(t);
  }

  function TwoNeighbours(): State {
    State([Entry(1, 0), Entry(3, 1)], map[0 := 0, 1 := 1], map[0 := 100, 1 := 100])
  }

  lemma TwoAreRegistered()
    ensures var s := TwoNeighbours(); IsHeap(s.slots) && Placed(s) && Registered(s)
  {
    var s := TwoNeighbours();
    assert IsHeap(s.slots) by {
      forall i: nat | i < 2 ensures InOrder(s.slots, i) {}
    }
    assert Names(s.slots) == [0, 1];
    assert s.hnode.Keys == {0, 1};
    assert s.ttl.Keys == {0, 1};
  }

  lemma FirstExpires()
    ensures Expire(TwoNeighbours(), 1) == ([Entry(1, 0)], Moved(TwoNeighbours()))
  {
    var s := TwoNeighbours();
    var t := Moved(s);
    assert t.slots == [Entry(3, 1)];
    assert Pop(s) == t;
    assert Expire(t, 1) == ([], t);
    assert s.slots[0].tstamp == 1;
    assert [s.slots[0]] + [] == [Entry(1, 0)];
  }

  lemma SurvivorIsHeardAgain(t: State)
    requires t.slots == [Entry(3, 1)] && 1 in t.hnode && t.hnode[1] == 1 && 1 in t.ttl && t.ttl[1] == 100
    ensures var u := Insert(t, 2, 180, 1);
            && 1 in u.hnode && 1 in u.ttl && u.ttl[1] == 100 && u.slots == [Entry(3, 1), Entry(181, 2)]
            && Refresh(u, 1, 1, 16).slots == [Entry(3, 1), Entry(101, 2)]
  {
    var u := Insert(t, 2, 180, 1);
    assert u == State([Entry(3, 1), Entry(181, 2)], t.hnode[2 := 1], t.ttl[2 := 180]);
    var v := u.(slots := [Entry(3, 1), Entry(101, 2)]);
    assert u.hnode[1] == 1;
    assert SiftDown(v, 0) == v;
    assert Refresh(u, 1, 1, 16) == v;
  }
}
