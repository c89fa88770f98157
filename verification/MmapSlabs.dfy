/**
  The fixed-capacity slab behind the shared memory slots.  A slot's metadata
  is its generation and its free-list link; a live slot and the last free slot
  both carry the end marker.
*/
module MmapSlabs {
  import opened Basics
  import opened HeapSlabs

  datatype Meta = Meta(generation: nat, nextFree: nat)

  ghost predicate MetaLinked(meta: seq<Meta>, free: seq<nat>, k: nat)
    requires k < |free|
  {
    free[k] < |meta| && meta[free[k]].nextFree == NextOf(free, k)
  }

  /** Following the links from `head` visits exactly `free`, then ends. */
  ghost predicate MetaChain(meta: seq<Meta>, head: nat, free: seq<nat>) {
    && NoDuplicates(free)
    && head == (if free == [] then FREE_END else free[0])
    && forall k :: 0 <= k < |free| ==> MetaLinked(meta, free, k)
  }

  /** Slots that are not free carry the end marker. */
  ghost predicate LiveMarked(meta: seq<Meta>, free: seq<nat>) {
    forall i :: 0 <= i < |meta| && i !in free ==> meta[i].nextFree == FREE_END
  }

  /** Putting a slot at the head of the free list. */
  function Freed(meta: seq<Meta>, head: nat, index: nat): seq<Meta>
    requires index < |meta|
  {
    meta[index := Meta(NextGeneration(meta[index].generation), head)]
  }

  predicate IsTail(free: seq<nat>, index: nat) {
    free != [] && free[|free| - 1] == index
  }

  lemma FreeLive(meta: seq<Meta>, head: nat, free: seq<nat>, index: nat)
    requires MetaChain(meta, head, free) && LiveMarked(meta, free) && index < |meta| && index !in free
    ensures MetaChain(Freed(meta, head, index), index, [index] + free)
    ensures LiveMarked(Freed(meta, head, index), [index] + free)
  {
    var meta', free' := Freed(meta, head, index), [index] + free;
    forall k | 0 <= k < |free'| ensures MetaLinked(meta', free', k) && (k > 0 ==> free'[k] != index) {
      assert k > 0 ==> MetaLinked(meta, free, k - 1) && free'[k] == free[k - 1] && free[k - 1] in free;
    }
    forall i | 0 <= i < |meta'| && i !in free' ensures meta'[i].nextFree == FREE_END {
      assert i != index && i !in free;
    }
  }

  lemma TakeHead(meta: seq<Meta>, head: nat, free: seq<nat>)
    requires MetaChain(meta, head, free) && LiveMarked(meta, free) && free != [] && head < |meta|
    ensures
      var meta' := meta[head := meta[head].(nextFree := FREE_END)];
      MetaChain(meta', meta[head].nextFree, free[1..]) && LiveMarked(meta', free[1..])
  {
    var meta' := meta[head := meta[head].(nextFree := FREE_END)];
    assert MetaLinked(meta, free, 0);
    forall k | 0 <= k < |free| - 1 ensures MetaLinked(meta', free[1..], k) {
      assert MetaLinked(meta, free, k + 1);
    }
  }

  /** The end marker is on live slots and on the tail of the free list. */
  lemma EndMarker(meta: seq<Meta>, head: nat, free: seq<nat>, index: nat)
    requires MetaChain(meta, head, free) && LiveMarked(meta, free) && index < |meta| <= FREE_END
    ensures meta[index].nextFree == FREE_END <==> index !in free || IsTail(free, index)
  {
    if index in free {
      var k :| 0 <= k < |free| && free[k] == index;
      assert MetaLinked(meta, free, k);
      if k + 1 < |free| {
        assert MetaLinked(meta, free, k + 1);
      }
    }
  }

  lemma {:induction false} FollowsOldList(meta: seq<Meta>, head: nat, free: seq<nat>, tail: nat, free': seq<nat>, k: nat)
    requires MetaChain(meta, head, free) && |meta| <= FREE_END && IsTail(free, tail) && tail < |meta|
    requires MetaChain(Freed(meta, head, tail), tail, free')
    requires k < |free|
    ensures k + 1 < |free'| && free'[k + 1] == free[k]
  {
    var meta' := Freed(meta, head, tail);
    assert MetaLinked(meta, free, k);
    if k == 0 {
      assert tail != FREE_END;
      assert MetaLinked(meta', free', 0);
    } else {
      FollowsOldList(meta, head, free, tail, free', k - 1);
      assert MetaLinked(meta, free, k - 1);
      assert MetaLinked(meta', free', k);
      assert free[k - 1] != tail;
    }
  }

  /** Freeing the tail of the free list a second time is not noticed, and
      leaves links that no finite free list explains: they form a cycle. */
  lemma FreeingTailMakesCycle(meta: seq<Meta>, head: nat, free: seq<nat>, tail: nat)
    requires MetaChain(meta, head, free) && |meta| <= FREE_END && IsTail(free, tail) && tail < |meta|
    ensures forall free' :: !MetaChain(Freed(meta, head, tail), tail, free')
  {
    forall free' | MetaChain(Freed(meta, head, tail), tail, free') ensures false {
      FollowsOldList(meta, head, free, tail, free', |free| - 1);
    }
  }

  class MmapSlab {
    var meta: seq<Meta>
    var freeHead: nat
    var len: nat
    var bump: nat
    const cap: nat
    ghost var free: seq<nat>

    ghost predicate Valid()
      reads this
    {
      && bump == |meta| <= cap <= FREE_END
      && MetaChain(meta, freeHead, free)
      && LiveMarked(meta, free)
      && len + |free| == bump
    }

    ghost predicate IsLive(i: nat)
      reads this
    {
      i < bump && i !in free
    }

    constructor (cap: nat)
      requires cap <= FREE_END
      ensures Valid() && this.cap == cap && bump == 0 && len == 0 && free == []
    {
      meta, freeHead, len, bump, free := [], FREE_END, 0, 0, [];
      this.cap := cap;
    }

    /** The most recently freed slot, else a new one, else nothing. */
    method Insert() returns (r: Option<nat>)
      requires Valid()
      modifies this
      ensures Valid()
      ensures r.None? <==> old(free) == [] && old(bump) == cap
      ensures r.None? ==> free == old(free) && bump == old(bump) && len == old(len)
      ensures r.Some? ==> len == old(len) + 1 && !old(IsLive(r.value))
      ensures forall i: nat :: IsLive(i) <==> old(IsLive(i)) || (r.Some? && i == r.value)
      ensures r.Some? && old(free) != [] ==> r.value == old(free)[0] && free == old(free)[1..] && bump == old(bump)
      ensures r.Some? && old(free) == [] ==> r.value == old(bump) && free == [] && bump == old(bump) + 1
      ensures r.Some? && old(free) == [] ==> meta == old(meta) + [Meta(0, FREE_END)]
      ensures r.Some? && old(free) != [] ==>
        r.value < |old(meta)| && meta == old(meta)[r.value := Meta(old(meta)[r.value].generation, FREE_END)]
    {
      if freeHead != FREE_END {
        var i := freeHead;
        assert free != [] && MetaLinked(meta, free, 0);
        TakeHead(meta, freeHead, free);
        freeHead := meta[i].nextFree;
        meta := meta[i := meta[i].(nextFree := FREE_END)];
        len := len + 1;
        free := free[1..];
        assert old(free) == [i] + free;
        return Some(i);
      }
      assert free == [] || MetaLinked(meta, free, 0);
      if bump < cap {
        var i := bump;
        bump := bump + 1;
        meta := meta + [Meta(0, FREE_END)];
        len := len + 1;
        return Some(i);
      }
      return None;
    }

    /** Succeeds for a live slot, and also - wrongly - for the tail of the free
        list; keeping the slab valid is up to the caller exactly there. */
    method Remove(index: nat) returns (ok: bool)
      requires Valid()
      modifies this
      ensures ok <==> index < bump && (index !in old(free) || IsTail(old(free), index))
      ensures bump == old(bump)
      ensures old(IsLive(index)) ==> Valid() && free == [index] + old(free) && len == old(len) - 1
      ensures old(IsLive(index)) ==> forall i: nat :: IsLive(i) <==> old(IsLive(i)) && i != index
      ensures !ok ==> Valid() && free == old(free) && meta == old(meta) && len == old(len)
      ensures ok ==> meta == Freed(old(meta), old(freeHead), index) && freeHead == index
      ensures ok ==> meta[index].generation == (old(meta)[index].generation + 1) % 0x1_0000_0000
    {
      if index >= |meta| {
        return false;
      }
      EndMarker(meta, freeHead, free, index);
      if meta[index].nextFree != FREE_END {
        return false;
      }
      if index !in free {
        FreeLive(meta, freeHead, free, index);
        free := [index] + free;
        forall k | 0 <= k < |free| ensures free[k] < bump {
          assert MetaLinked(Freed(meta, freeHead, index), free, k);
        }
        Pigeonhole(free, bump);
      }
      meta := Freed(meta, freeHead, index);
      freeHead := index;
      len := if len == 0 then FREE_END else len - 1;
      return true;
    }
  }
}
