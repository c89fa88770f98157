/**
  The handle table as the daemon runs it: a slab of entries and a map of
  descriptor counts, changed in place.  Every operation is proved to do what
  `HandleSpec` says of the table's meaning.
*/
module HandleTables {
  import opened Basics
  import opened HandleSpec
  import HeapSlabs

  class HandleTable {
    const slab: HeapSlabs.HeapSlab<Entry>
    var refcounts: map<Fd, Count>
    ghost var open: set<Fd>
    ghost var used: set<nat>

    ghost predicate Valid()
      reads this, slab
    {
      slab.Valid() && slab.bump >= 1
    }

    ghost function Meaning(): Table
      reads this, slab
    {
      Table(HeapSlabs.Live(slab.slots), slab.bump, refcounts, open, used)
    }

    constructor ()
      ensures Valid() && fresh(slab)
      ensures Meaning() == EMPTY
    {
      var s := new HeapSlabs.HeapSlab<Entry>();
      s.SkipIndexZero();
      slab := s;
      refcounts, open, used := map[], {}, {};
      new;
      assert HeapSlabs.Live(slab.slots) == map[];
    }

    function Get(h: Handle): (r: Option<Entry>)
      reads this, slab
      ensures r.Some? <==> ToIndex(h) in HeapSlabs.Live(slab.slots)
      ensures r.Some? ==> r.value == HeapSlabs.Live(slab.slots)[ToIndex(h)]
    {
      slab.Get(ToIndex(h))
    }

    /** One reference more, for an entry that has a descriptor. */
    method Count(fd: Option<Fd>)
      modifies this`refcounts
      ensures refcounts == Counted(old(refcounts), fd)
    {
      if fd.Some? {
        refcounts := refcounts[fd.value := (if fd.value in refcounts then refcounts[fd.value] else 0) + 1];
      }
    }

    method AllocateFull(e: Entry) returns (h: Handle)
      requires Valid() && slab.bump < HeapSlabs.FREE_END
      modifies this, slab
      ensures Valid()
      ensures Meaning() == HandleSpec.Allocate(old(Meaning()), e)
      ensures h == ToHandle(old(slab.bump))
      ensures old(slab.bump) < INDEX_LIMIT ==> Get(h) == Some(e)
    {
      Count(e.fd);
      var i := slab.InsertBump(e);
      used := used + {i};
      h := ToHandle(i);
    }

    /** Entries without a descriptor need no counting. */
    method Allocate(objectId: nat) returns (h: Handle)
      requires Valid() && slab.bump < HeapSlabs.FREE_END
      modifies this, slab
      ensures Valid()
      ensures Meaning() == HandleSpec.Allocate(old(Meaning()), Entry(objectId, None, 0, 0, 0))
      ensures h == ToHandle(old(slab.bump))
      ensures old(slab.bump) < INDEX_LIMIT ==> Get(h) == Some(Entry(objectId, None, 0, 0, 0))
    {
      var i := slab.InsertBump(Entry(objectId, None, 0, 0, 0));
      used := used + {i};
      h := ToHandle(i);
    }

    /** `slab.iter().any(|e| e.fd == Some(fd))`. */
    method AnyHolds(fd: Fd) returns (any: bool)
      requires Valid()
      ensures any <==> Holders(HeapSlabs.Live(slab.slots), fd) != {}
    {
      ghost var live := HeapSlabs.Live(slab.slots);
      any := false;
      var i := 0;
      while i < |slab.slots|
        invariant i <= |slab.slots| && !any
        invariant forall j :: j in Holders(live, fd) ==> j >= i
      {
        if slab.slots[i].Occupied? && slab.slots[i].value.fd == Some(fd) {
          assert i in Holders(live, fd);
          return true;
        }
        i := i + 1;
      }
    }

    /** Give up one reference, closing the descriptor if it was the last. */
    method Release(fd: Fd)
      requires Valid()
      modifies this`refcounts, this`open
      ensures Valid()
      ensures refcounts == Uncounted(old(refcounts), fd)
      ensures open == if LastReference(old(refcounts), HeapSlabs.Live(slab.slots), fd) then old(open) - {fd} else old(open)
    {
      if fd in refcounts {
        if refcounts[fd] == 1 {
          refcounts := refcounts - {fd};
          open := open - {fd};
        } else {
          refcounts := refcounts[fd := refcounts[fd] - 1];
        }
      } else {
        var any := AnyHolds(fd);
        if !any {
          open := open - {fd};
        }
      }
    }

    method Close(h: Handle) returns (entry: Option<Entry>)
      requires Valid()
      modifies this, slab
      ensures Valid()
      ensures Meaning() == HandleSpec.Close(old(Meaning()), h)
      ensures entry.Some? <==> ToIndex(h) in HeapSlabs.Live(old(slab.slots))
      ensures entry.Some? ==> entry.value == HeapSlabs.Live(old(slab.slots))[ToIndex(h)]
    {
      entry := slab.RemoveUnchecked(ToIndex(h));
      if entry.Some? && entry.value.fd.Some? {
        Release(entry.value.fd.value);
      }
      assert entry.None? ==> HeapSlabs.Live(slab.slots) == HeapSlabs.Live(old(slab.slots));
    }

    method InsertAt(h: Handle, e: Entry)
      requires Valid()
      modifies this, slab
      ensures Valid()
      ensures Meaning() == HandleSpec.InsertAt(old(Meaning()), h, e)
    {
      var i := ToIndex(h);
      var displaced := slab.Get(i);
      if displaced.Some? && displaced.value.fd.Some? {
        Release(displaced.value.fd.value);
      }
      Count(e.fd);
      var _ := slab.InsertAt(i, e);
      used := used + {i};
    }
  }
}
