/**
  The growable slab: occupied and vacant slots, with a free list threaded
  through vacant ones.  Slots made by growth, and reserved index zero, are
  vacant without being on the list.
*/
module HeapSlabs {
  import opened Basics

  const FREE_END: nat := 0xFFFF_FFFF

  datatype Slot<+T> =
    | Occupied(generation: nat, value: T)
    | Vacant(generation: nat, nextFree: nat)

  /** Distinct numbers below `n` are at most `n` many. */
  lemma {:induction false} Pigeonhole(s: seq<nat>, n: nat)
    requires NoDuplicates(s) && forall i :: 0 <= i < |s| ==> s[i] < n
    ensures |s| <= n
  {
    if s != [] {
      assert s[0] < n;
      if n - 1 in s {
        var k :| 0 <= k < |s| && s[k] == n - 1;
        Pigeonhole(s[..k] + s[k + 1..], n - 1);
      } else {
        forall i | 0 <= i < |s| ensures s[i] < n - 1 {
          assert s[i] in s;
        }
        Pigeonhole(s, n - 1);
      }
    }
  }

  function NextOf(free: seq<nat>, k: nat): nat
    requires k < |free|
  {
    if k + 1 < |free| then free[k + 1] else FREE_END
  }

  /** Member `k` of the list is a vacant slot that points to the next one. */
  ghost predicate Linked<T>(slots: seq<Slot<T>>, free: seq<nat>, k: nat)
    requires k < |free|
  {
    && free[k] < |slots| && free[k] < FREE_END
    && slots[free[k]].Vacant?
    && slots[free[k]].nextFree == NextOf(free, k)
  }

  /** Following `nextFree` from `head` visits exactly `free`, then ends. */
  ghost predicate Chain<T>(slots: seq<Slot<T>>, head: nat, free: seq<nat>) {
    && NoDuplicates(free)
    && head == (if free == [] then FREE_END else free[0])
    && forall k :: 0 <= k < |free| ==> Linked(slots, free, k)
  }

  function Live<T>(slots: seq<Slot<T>>): map<nat, T> {
    map i: nat | i < |slots| && slots[i].Occupied? :: slots[i].value
  }

  /** The list without one of its members. */
  ghost function Dropped(free: seq<nat>, k: nat): seq<nat>
    requires k < |free|
  {
    free[..k] + free[k + 1..]
  }

  lemma DroppedIsGone(free: seq<nat>, k: nat)
    requires NoDuplicates(free) && k < |free|
    ensures free[k] !in Dropped(free, k)
  {
  }

  /** Redirecting the predecessor takes member `k` off the list. */
  lemma UnlinkMember<T>(slots: seq<Slot<T>>, head: nat, free: seq<nat>, k: nat)
    requires Chain(slots, head, free) && 0 < k < |free|
    requires Linked(slots, free, k - 1) && Linked(slots, free, k)
    ensures
      var prev := free[k - 1];
      Chain(slots[prev := slots[prev].(nextFree := slots[free[k]].nextFree)], head, Dropped(free, k))
  {
    var prev := free[k - 1];
    var slots' := slots[prev := slots[prev].(nextFree := slots[free[k]].nextFree)];
    var free' := Dropped(free, k);
    forall j | 0 <= j < |free'| ensures Linked(slots', free', j) {
      var j' := if j < k then j else j + 1;
      assert Linked(slots, free, j') && free'[j] == free[j'];
    }
  }

  lemma UnlinkHead<T>(slots: seq<Slot<T>>, head: nat, free: seq<nat>)
    requires Chain(slots, head, free) && free != [] && Linked(slots, free, 0)
    ensures Chain(slots, slots[head].nextFree, free[1..])
  {
    forall j | 0 <= j < |free| - 1 ensures Linked(slots, free[1..], j) {
      assert Linked(slots, free, j + 1);
    }
  }

  lemma PushFront<T>(slots: seq<Slot<T>>, head: nat, free: seq<nat>, i: nat, g: nat)
    requires Chain(slots, head, free) && i < |slots| && i < FREE_END && slots[i].Occupied?
    ensures Chain(slots[i := Vacant(g, head)], i, [i] + free)
  {
    var slots', free' := slots[i := Vacant(g, head)], [i] + free;
    forall j | 0 <= j < |free'| ensures Linked(slots', free', j) && (j > 0 ==> free'[j] != i) {
      assert j > 0 ==> Linked(slots, free, j - 1) && free'[j] == free[j - 1];
    }
  }

  /** Storing outside the list leaves it alone. */
  lemma StoreOutside<T>(slots: seq<Slot<T>>, head: nat, free: seq<nat>, i: nat, slot: Slot<T>)
    requires Chain(slots, head, free) && i < |slots| && i !in free
    ensures Chain(slots[i := slot], head, free)
  {
    var slots' := slots[i := slot];
    forall k | 0 <= k < |free| ensures Linked(slots', free, k) {
      assert Linked(slots, free, k) && free[k] in free;
    }
  }

  lemma AppendOutside<T>(slots: seq<Slot<T>>, head: nat, free: seq<nat>, slot: Slot<T>)
    requires Chain(slots, head, free)
    ensures Chain(slots + [slot], head, free)
  {
    forall k | 0 <= k < |free| ensures Linked(slots + [slot], free, k) {
      assert Linked(slots, free, k);
    }
  }

  lemma LiveAfterAppend<T>(slots: seq<Slot<T>>, slot: Slot<T>)
    ensures Live(slots + [slot]) == if slot.Occupied? then Live(slots)[|slots| := slot.value] else Live(slots)
  {
  }

  lemma LiveAfterStore<T>(slots: seq<Slot<T>>, i: nat, slot: Slot<T>)
    requires i < |slots|
    ensures Live(slots[i := slot]) == if slot.Occupied? then Live(slots)[i := slot.value] else Live(slots) - {i}
  {
  }

  /** Removing a value steps its slot's generation, modulo 2^32. */
  function NextGeneration(g: nat): nat {
    (g + 1) % (FREE_END + 1)
  }

  /** The generation that the next value stored at an index will have. */
  function GenerationAt<T>(slots: seq<Slot<T>>, index: nat): nat {
    if index >= |slots| then 0
    else if slots[index].Occupied? then NextGeneration(slots[index].generation)
    else slots[index].generation
  }

  /** A value keeps its slot's generation, and the next one stored there has the one
      after it, in 32 bits; a slot that is made by growth starts at zero. */
  lemma GenerationsCount<T>(slots: seq<Slot<T>>, index: nat)
    ensures GenerationAt(slots, index) ==
      if index >= |slots| then 0
      else if slots[index].Vacant? then slots[index].generation
      else (slots[index].generation + 1) % 0x1_0000_0000
  {
  }

  class HeapSlab<T> {
    var slots: seq<Slot<T>>
    var freeHead: nat
    var len: nat
    var bump: nat
    ghost var free: seq<nat>

    ghost predicate Valid()
      reads this
    {
      && bump == |slots|
      && Chain(slots, freeHead, free)
      && len == |Live(slots)|
    }

    constructor ()
      ensures Valid() && slots == [] && free == []
    {
      slots, freeHead, len, bump, free := [], FREE_END, 0, 0, [];
      new;
      assert Live(slots) == map[];
    }

    method SkipIndexZero()
      requires Valid()
      modifies this
      ensures Valid() && free == old(free)
      ensures Live(slots) == Live(old(slots))
      ensures bump == if old(bump) == 0 then 1 else old(bump)
      ensures old(bump) > 0 ==> slots == old(slots)
    {
      if bump == 0 {
        AppendOutside(slots, freeHead, free, Vacant(0, FREE_END));
        LiveAfterAppend(slots, Vacant(0, FREE_END));
        slots := slots + [Vacant(0, FREE_END)];
        bump := 1;
      }
    }

    method InsertBump(value: T) returns (index: nat)
      requires Valid() && bump < FREE_END
      modifies this
      ensures Valid() && free == old(free)
      ensures index == old(bump) && bump == old(bump) + 1
      ensures slots == old(slots) + [Occupied(0, value)]
      ensures Live(slots) == Live(old(slots))[index := value]
    {
      index := bump;
      AppendOutside(slots, freeHead, free, Occupied(0, value));
      LiveAfterAppend(slots, Occupied(0, value));
      bump := bump + 1;
      slots := slots + [Occupied(0, value)];
      len := len + 1;
    }

    /** Remove whatever is at an index; a missing or vacant slot is left alone. */
    method RemoveUnchecked(index: nat) returns (r: Option<T>)
      requires Valid() && index < FREE_END
      modifies this
      ensures Valid() && bump == old(bump)
      ensures r == if index in Live(old(slots)) then Some(Live(old(slots))[index]) else None
      ensures Live(slots) == Live(old(slots)) - {index}
      ensures free == if r.Some? then [index] + old(free) else old(free)
      ensures slots == if r.Some? then old(slots)[index := Vacant(GenerationAt(old(slots), index), old(freeHead))] else old(slots)
    {
      if index >= |slots| || slots[index].Vacant? {
        assert Live(slots) - {index} == Live(slots);
        return None;
      }
      var taken := slots[index];
      PushFront(slots, freeHead, free, index, NextGeneration(taken.generation));
      LiveAfterStore(slots, index, Vacant(NextGeneration(taken.generation), freeHead));
      slots := slots[index := Vacant(NextGeneration(taken.generation), freeHead)];
      freeHead := index;
      len := len - 1;
      free := [index] + free;
      return Some(taken.value);
    }

    /** Make every index up to and including `index` a slot. */
    method Grow(index: nat)
      requires Valid()
      modifies this`slots, this`bump
      ensures Valid()
      ensures Live(slots) == Live(old(slots))
      ensures bump == if index < old(bump) then old(bump) else index + 1
      ensures slots[..old(bump)] == old(slots)
      ensures GenerationAt(slots, index) == GenerationAt(old(slots), index)
    {
      while |slots| <= index
        invariant Valid() && Live(slots) == Live(old(slots))
        invariant old(bump) <= bump <= (if index < old(bump) then old(bump) else index + 1)
        invariant slots[..old(bump)] == old(slots)
        invariant forall i :: old(bump) <= i < bump ==> slots[i] == Vacant(0, FREE_END)
      {
        AppendOutside(slots, freeHead, free, Vacant(0, FREE_END));
        LiveAfterAppend(slots, Vacant(0, FREE_END));
        var i := |slots|;
        slots := slots + [Vacant(0, FREE_END)];
        if i >= bump {
          bump := i + 1;
        }
      }
    }

    /** Walk the free list for the member that points to `index`. */
    method FindPredecessor(index: nat) returns (prev: nat, ghost k: nat)
      requires Valid() && index < FREE_END && freeHead != index
      ensures prev == FREE_END ==> index !in free
      ensures prev != FREE_END ==> k + 1 < |free| && free[k] == prev && free[k + 1] == index
    {
      prev, k := freeHead, 0;
      while prev != FREE_END
        invariant k <= |free| && prev == (if k < |free| then free[k] else FREE_END)
        invariant index !in free[..k] && prev != index
        decreases |free| - k
      {
        assert Linked(slots, free, k);
        if slots[prev].nextFree == index {
          return;
        }
        prev := slots[prev].nextFree;
        k := k + 1;
      }
      assert k < |free| ==> Linked(slots, free, k);
      assert free[..k] == free;
    }

    /** Take the head off the free list. */
    method UnlinkFirst()
      requires Valid() && free != [] && freeHead < |slots| && slots[freeHead].Vacant?
      modifies this`freeHead, this`free
      ensures Valid() && free == Dropped(old(free), 0)
    {
      assert Linked(slots, free, 0);
      UnlinkHead(slots, freeHead, free);
      assert free[1..] == Dropped(free, 0);
      freeHead := slots[freeHead].nextFree;
      free := free[1..];
    }

    /** Take the successor of member `k` off the free list. */
    method UnlinkNext(prev: nat, index: nat, ghost k: nat)
      requires Valid() && k + 1 < |free| && free[k] == prev < |slots| && free[k + 1] == index < |slots|
      requires slots[prev].Vacant? && slots[index].Vacant?
      modifies this`slots, this`free
      ensures Valid() && free == Dropped(old(free), k + 1)
      ensures slots == old(slots)[prev := old(slots)[prev].(nextFree := old(slots)[index].nextFree)]
      ensures Live(slots) == Live(old(slots))
    {
      assert Linked(slots, free, k) && Linked(slots, free, k + 1);
      UnlinkMember(slots, freeHead, free, k + 1);
      LiveAfterStore(slots, prev, slots[prev].(nextFree := slots[index].nextFree));
      assert Live(slots) - {prev} == Live(slots);
      slots := slots[prev := slots[prev].(nextFree := slots[index].nextFree)];
      free := Dropped(free, k + 1);
    }

    /** Take a vacant index off the free list; if it is not on the list nothing
        changes. */
    method Unlink(index: nat) returns (ghost at: nat)
      requires Valid() && index < |slots| && index < FREE_END && slots[index].Vacant?
      modifies this`slots, this`freeHead, this`free
      ensures Valid() && |slots| == |old(slots)| && slots[index] == old(slots)[index]
      ensures Live(slots) == Live(old(slots))
      ensures index !in free
      ensures if index in old(free)
              then at < |old(free)| && old(free)[at] == index && free == Dropped(old(free), at)
              else free == old(free) && slots == old(slots) && freeHead == old(freeHead)
    {
      if freeHead == index {
        DroppedIsGone(free, 0);
        UnlinkFirst();
        return 0;
      }
      var prev;
      prev, at := FindPredecessor(index);
      if prev != FREE_END {
        assert Linked(slots, free, at);
        DroppedIsGone(free, at + 1);
        UnlinkNext(prev, index, at);
        at := at + 1;
      }
    }

    /** Make `index` a vacant slot that is on no list. */
    method Vacate(index: nat)
      requires Valid() && index < FREE_END
      modifies this
      ensures Valid() && index < |slots| && slots[index].Vacant? && index !in free
      ensures Live(slots) == Live(old(slots)) - {index}
      ensures bump == if index < old(bump) then old(bump) else index + 1
      ensures slots[index].generation == GenerationAt(old(slots), index)
    {
      Grow(index);
      if slots[index].Occupied? {
        var _ := RemoveUnchecked(index);
      }
      ghost var _ := Unlink(index);
    }

    /** Put a value at a given index, growing, evicting and unlinking as needed. */
    method InsertAt(index: nat, value: T) returns (g: nat)
      requires Valid() && index < FREE_END
      modifies this
      ensures Valid()
      ensures Live(slots) == Live(old(slots))[index := value]
      ensures bump == if index < old(bump) then old(bump) else index + 1
      ensures g == GenerationAt(old(slots), index) && slots[index] == Occupied(g, value)
    {
      Vacate(index);
      g := slots[index].generation;
      var slot := Occupied(g, value);
      StoreOutside(slots, freeHead, free, index, slot);
      LiveAfterStore(slots, index, slot);
      slots := slots[index := slot];
      len := len + 1;
    }

    function Get(index: nat): (r: Option<T>)
      reads this
      ensures r == if index in Live(slots) then Some(Live(slots)[index]) else None
    {
      if index < |slots| && slots[index].Occupied? then Some(slots[index].value) else None
    }
  }
}
