/** The ageing heap in place: cdpd's array of slots and the hnode and ttl of its neighbours. */
module CdpAgeing {
  import opened CdpHeap

  class Ageing {
    const nheap: array<Entry>
    var hend: int
    var hnode: map<Id, nat>
    var ttl: map<Id, nat>

    ghost predicate Valid()
      reads this
    {
      -1 <= hend < nheap.Length
    }

    /** Slots 0 to hend are in use; what lies beyond is left over. */
    ghost function Contents(): State
      reads this, nheap
      requires Valid()
    {
      State(nheap[..hend + 1], hnode, ttl)
    }

    constructor (storage: array<Entry>)
      ensures Valid() && nheap == storage && Contents() == State([], map[], map[])
    {
      nheap := storage;
      hend := -1;
      hnode := map[];
      ttl := map[];
    }

    /** _XCHG. */
    method Xchg(i: nat, j: nat)
      requires Valid() && i <= hend && j <= hend
      modifies this`hnode, nheap
      ensures Valid() && Contents() == Exchange(old(Contents()), i, j)
      ensures nheap[hend + 1..] == old(nheap[hend + 1..])
    {
      var temp := nheap[i];
      nheap[i] := nheap[j];
      hnode := hnode[nheap[i].n := i];
      nheap[j] := temp;
      hnode := hnode[nheap[j].n := j];
    }

    /** sift_up. */
    method SiftUp(start: nat)
      requires Valid() && start <= hend
      modifies this`hnode, nheap
      ensures Valid() && Contents() == CdpHeap.SiftUp(old(Contents()), start)
    {
      var pos: nat := start;
      while pos > 0
        invariant Valid() && pos <= hend
        invariant CdpHeap.SiftUp(Contents(), pos) == CdpHeap.SiftUp(old(Contents()), start)
      {
        if nheap[pos].tstamp >= nheap[Parent(pos)].tstamp {
          return;
        }
        Xchg(pos, Parent(pos));
        pos := Parent(pos);
      }
    }

    /** sift_down: the heap as a whole ends at hend. */
    method SiftDown(start: nat)
      requires Valid()
      modifies this`hnode, nheap
      ensures Valid()
      ensures start > hend ==> Contents() == old(Contents())
      ensures start <= hend ==> Contents() == CdpHeap.SiftDown(old(Contents()), start)
    {
      var pos: nat := start;
      while pos < hend
        invariant Valid() && (start <= hend ==> pos <= hend)
        invariant start > hend ==> Contents() == old(Contents())
        invariant start <= hend ==> CdpHeap.SiftDown(Contents(), pos) == CdpHeap.SiftDown(old(Contents()), start)
        decreases hend - pos
      {
        if 2 * pos + 1 > hend {
          return;
        }
        var min := 2 * pos + 1;
        if 2 * pos + 2 <= hend && nheap[2 * pos + 2].tstamp < nheap[min].tstamp {
          min := 2 * pos + 2;
        }
        assert min == FirstChild(Contents().slots, pos);
        if nheap[pos].tstamp <= nheap[min].tstamp {
          return;
        }
        Xchg(min, pos);
        pos := min;
      }
    }

    /** decode_field for a device ID not seen before (cdpd.c:362-378). The array is written before it
        is grown; `fault` says that the write is beyond its end, and the model stops there. */
    method NewNeighbour(id: Id, holdtime: nat, now: int) returns (fault: bool)
      requires Valid()
      modifies this, nheap
      ensures Valid() && (fault <==> old(|Contents().slots|) == nheap.Length)
      ensures Contents() == if fault then old(Contents()) else Insert(old(Contents()), id, holdtime, now)
    {
      if hend + 1 >= nheap.Length {
        return true;
      }
      fault := false;
      ghost var was := nheap[..hend + 1];
      hend := hend + 1;
      nheap[hend] := Entry(holdtime + now, id);
      hnode := hnode[id := hend];
      ttl := ttl[id := holdtime];
      assert nheap[..hend + 1] == was + [Entry(holdtime + now, id)];
      SiftUp(hend);
    }

    /** decode_field for a known device ID (cdpd.c:346-361). */
    method RefreshNeighbour(id: Id, now: int, size: nat)
      requires Valid() && size > 0
      requires id in hnode && id in ttl && hnode[id] < nheap.Length
      modifies this`hnode, nheap
      ensures Valid() && Contents() == Refresh(old(Contents()), id, now, size)
    {
      var k := hnode[id];
      ghost var was := nheap[..hend + 1];
      nheap[k] := nheap[k].(tstamp := ttl[id] + now);
      assert nheap[..hend + 1] == if k <= hend then was[k := was[k].(tstamp := ttl[id] + now)] else was;
      assert Contents() == Touch(old(Contents()), id, now);
      var slot := k / size;
      SiftDown(slot);
    }

    /** The body of the expiry loop: free the root's neighbour and close the gap. */
    method FreeRoot()
      requires Valid() && hend >= 0
      modifies this, nheap
      ensures Valid() && hend == old(hend) - 1 && Contents() == Pop(old(Contents()))
    {
      ghost var was := nheap[..hend + 1];
      var n := nheap[0].n;
      hnode := hnode - {n};
      ttl := ttl - {n};
      nheap[0] := nheap[hend];
      hend := hend - 1;
      assert nheap[..hend + 1] == was[0 := was[|was| - 1]][..|was| - 1];
      if hend < 0 {
        return;
      }
      SiftDown(0);
    }

    /** One second's round of cdp_clean_loop, the clock standing at `now`. */
    method Clean(now: int) returns (freed: seq<Entry>)
      requires Valid()
      modifies this, nheap
      ensures Valid()
      ensures (freed, Contents()) == Expire(old(Contents()), now)
    {
      freed := [];
      if hend < 0 {
        return;
      }
      assert [] + Expire(Contents(), now).0 == Expire(Contents(), now).0;
      while nheap[0].tstamp <= now
        invariant Valid() && hend >= 0
        invariant Expire(old(Contents()), now)
                  == (freed + Expire(Contents(), now).0, Expire(Contents(), now).1)
        decreases hend
      {
        var root := nheap[0];
        ghost var before := Contents();
        FreeRoot();
        assert Expire(before, now) == ([root] + Expire(Contents(), now).0, Expire(Contents(), now).1);
        assert freed + ([root] + Expire(Contents(), now).0) == (freed + [root]) + Expire(Contents(), now).0;
        freed := freed + [root];
        if hend < 0 {
          break;
        }
      }
      assert freed + [] == freed;
    }
  }
}
