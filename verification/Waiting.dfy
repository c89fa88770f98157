/**
  One pass of WaitForMultipleObjects over semaphores, mutexes and events that
  nobody else touches meanwhile.  The same object may be listed repeatedly.
*/
module Waiting {
  import opened Basics
  import opened Bytes
  import opened SyncObjects

  const EINVAL := -22
  const ETIMEDOUT := -110
  const MAX_WAIT := 64

  type ObjId = nat

  datatype SyncObject =
    | SemObject(count: int)
    | MutexObject(mutex: Mutex)
    | EventObject(signaled: bool, manualReset: bool)
    | OtherObject

  type Objects = map<ObjId, SyncObject>

  /** `try_acquire`: whether it succeeded, and the object afterwards. */
  function TryAcquire(o: SyncObject, tid: Tid): (bool, SyncObject) {
    match o
    case SemObject(n) => if n <= 0 then (false, o) else (true, SemObject(n - 1))
    case MutexObject(m) =>
      var (m', ok) := MutexAcquire(m, tid);
      (ok, MutexObject(m'))
    case EventObject(signaled, manual) =>
      if !signaled then (false, o)
      else (true, if manual then o else EventObject(false, manual))
    case OtherObject => (false, o)
  }

  /** The check phase of WaitAll. */
  predicate Ready(o: SyncObject, tid: Tid) {
    match o
    case SemObject(n) => n > 0
    case MutexObject(m) => m.owner == 0 || m.owner == tid
    case EventObject(signaled, _) => signaled
    case OtherObject => false
  }

  function Consumed(o: SyncObject, tid: Tid): SyncObject {
    TryAcquire(o, tid).1
  }

  /** The check agrees with the acquisition, and a failed attempt changes
      nothing. */
  lemma CheckAgreesWithAcquire(o: SyncObject, tid: Tid)
    ensures TryAcquire(o, tid).0 <==> Ready(o, tid)
    ensures !TryAcquire(o, tid).0 ==> Consumed(o, tid) == o
  {
  }

  predicate Resolved(objs: Objects, ids: seq<ObjId>) {
    forall i :: 0 <= i < |ids| ==> ids[i] in objs
  }

  predicate AllReady(objs: Objects, ids: seq<ObjId>, tid: Tid)
    requires Resolved(objs, ids)
  {
    forall i :: 0 <= i < |ids| ==> Ready(objs[ids[i]], tid)
  }

  /** How often an object can be acquired in a row by one thread; `None` is
      without limit. */
  function Supply(o: SyncObject): Option<nat> {
    match o
    case SemObject(n) => Some(if n > 0 then n else 0)
    case MutexObject(_) => None
    case EventObject(signaled, manual) => if manual then None else Some(if signaled then 1 else 0)
    case OtherObject => Some(0)
  }

  function ConsumedTimes(o: SyncObject, tid: Tid, n: nat): SyncObject {
    if n == 0 then o else Consumed(ConsumedTimes(o, tid, n - 1), tid)
  }

  /** Every listed object can give as many units as it is listed. */
  ghost predicate Enough(objs: Objects, ids: seq<ObjId>)
    requires Resolved(objs, ids)
  {
    forall id :: id in ids && Supply(objs[id]).Some? ==> multiset(ids)[id] <= Supply(objs[id]).value
  }

  lemma {:induction false} UnitsAfter(count: int, tid: Tid, n: nat)
    requires count > 0
    ensures ConsumedTimes(SemObject(count), tid, n) == SemObject(if n <= count then count - n else 0)
  {
    if n > 0 {
      UnitsAfter(count, tid, n - 1);
    }
  }

  lemma {:induction false} EventAfter(manual: bool, tid: Tid, n: nat)
    ensures ConsumedTimes(EventObject(true, manual), tid, n) == EventObject(n == 0 || manual, manual)
  {
    if n > 0 {
      EventAfter(manual, tid, n - 1);
    }
  }

  lemma NextCount(x: int)
    ensures ToU32(ToU32(x) as int + 1) == ToU32(x + 1)
  {
    assert x + 1 == (ToU32(x) as int + 1) + U32_LIMIT * (x / U32_LIMIT);
  }

  lemma {:induction false} HeldAfter(m: Mutex, tid: Tid, n: nat)
    requires m.owner == 0 || m.owner == tid
    ensures
      var o := ConsumedTimes(MutexObject(m), tid, n);
      o.MutexObject? && (o.mutex.owner == 0 || o.mutex.owner == tid) && (n > 0 ==> o.mutex.owner == tid)
  {
    if n > 0 {
      HeldAfter(m, tid, n - 1);
    }
  }

  lemma {:induction false} DepthAfter(m: Mutex, tid: Tid, n: nat)
    requires m.owner == 0 || m.owner == tid
    ensures ConsumedTimes(MutexObject(m), tid, n).MutexObject?
    ensures n > 0 && tid != 0 ==>
      ConsumedTimes(MutexObject(m), tid, n).mutex.count == ToU32((if m.owner == 0 then 0 else m.count as int) + n)
  {
    HeldAfter(m, tid, n);
    if n > 0 {
      DepthAfter(m, tid, n - 1);
      HeldAfter(m, tid, n - 1);
      NextCount((if m.owner == 0 then 0 else m.count as int) + n - 1);
    }
  }

  /** A ready object stays ready for exactly `Supply` acquisitions. */
  lemma ReadyAfter(o: SyncObject, tid: Tid, n: nat)
    requires Ready(o, tid)
    ensures Ready(ConsumedTimes(o, tid, n), tid) <==> Supply(o).None? || n < Supply(o).value
    ensures o.SemObject? ==> ConsumedTimes(o, tid, n) == SemObject(if n <= o.count then o.count - n else 0)
    ensures o.EventObject? ==> ConsumedTimes(o, tid, n) == if n == 0 then o else EventObject(o.manualReset, o.manualReset)
    ensures o.MutexObject? ==> ConsumedTimes(o, tid, n).MutexObject? && (n > 0 ==> ConsumedTimes(o, tid, n).mutex.owner == tid)
    ensures o.MutexObject? && n > 0 && tid != 0 ==>
      ConsumedTimes(o, tid, n).mutex.count == ToU32((if o.mutex.owner == 0 then 0 else o.mutex.count as int) + n)
  {
    match o
    case SemObject(count) => UnitsAfter(count, tid, n);
    case EventObject(_, manual) => EventAfter(manual, tid, n);
    case MutexObject(m) =>
      HeldAfter(m, tid, n);
      DepthAfter(m, tid, n);
    case OtherObject =>
  }

  lemma {:induction false} UnreadyStays(o: SyncObject, tid: Tid, n: nat)
    requires !Ready(o, tid)
    ensures ConsumedTimes(o, tid, n) == o
  {
    if n > 0 {
      UnreadyStays(o, tid, n - 1);
      CheckAgreesWithAcquire(o, tid);
    }
  }

  /** A limited supply is exactly how often the object can be acquired in a row,
      ready or not. */
  lemma SupplyIsExact(o: SyncObject, tid: Tid, n: nat)
    requires Supply(o).Some?
    ensures Ready(ConsumedTimes(o, tid, n), tid) <==> n < Supply(o).value
  {
    if Ready(o, tid) {
      ReadyAfter(o, tid, n);
    } else {
      UnreadyStays(o, tid, n);
    }
  }

  /** The objects after acquiring each of `ids` in turn, all succeeding. */
  function TakeAll(objs: Objects, ids: seq<ObjId>, tid: Tid): (r: Objects)
    requires Resolved(objs, ids)
    ensures r.Keys == objs.Keys
  {
    if ids == [] then objs
    else
      var last := |ids| - 1;
      var before := TakeAll(objs, ids[..last], tid);
      before[ids[last] := Consumed(before[ids[last]], tid)]
  }

  /** Each object is consumed once per listing and the rest is untouched. */
  lemma {:induction false} TakenByCount(objs: Objects, ids: seq<ObjId>, tid: Tid, id: ObjId)
    requires Resolved(objs, ids) && id in objs
    ensures TakeAll(objs, ids, tid)[id] == ConsumedTimes(objs[id], tid, multiset(ids)[id])
  {
    if ids != [] {
      var last := |ids| - 1;
      TakenByCount(objs, ids[..last], tid, id);
      assert ids == ids[..last] + [ids[last]];
    }
  }

  /** The acquire phase succeeds at position `k` of a list checked ready. */
  ghost predicate SucceedsAt(objs: Objects, ids: seq<ObjId>, tid: Tid, k: nat)
    requires Resolved(objs, ids) && k < |ids|
  {
    Ready(TakeAll(objs, ids[..k], tid)[ids[k]], tid)
  }

  lemma SucceedsByCount(objs: Objects, ids: seq<ObjId>, tid: Tid, k: nat)
    requires Resolved(objs, ids) && k < |ids| && AllReady(objs, ids, tid)
    ensures SucceedsAt(objs, ids, tid, k) <==>
      Supply(objs[ids[k]]).None? || multiset(ids[..k])[ids[k]] < Supply(objs[ids[k]]).value
  {
    TakenByCount(objs, ids[..k], tid, ids[k]);
    ReadyAfter(objs[ids[k]], tid, multiset(ids[..k])[ids[k]]);
  }

  /** The last listing of an object is preceded by all its others. */
  lemma {:induction false} LastListing(ids: seq<ObjId>, id: ObjId) returns (k: nat)
    requires id in ids
    ensures k < |ids| && ids[k] == id && multiset(ids[..k])[id] + 1 == multiset(ids)[id]
  {
    var last := |ids| - 1;
    assert ids == ids[..last] + [ids[last]];
    if ids[last] == id {
      k := last;
    } else {
      k := LastListing(ids[..last], id);
      assert ids[..last][..k] == ids[..k];
    }
  }

  lemma CountOfPrefix(ids: seq<ObjId>, k: nat)
    requires k < |ids|
    ensures multiset(ids[..k])[ids[k]] + 1 <= multiset(ids)[ids[k]]
  {
    assert ids == ids[..k] + [ids[k]] + ids[k + 1..];
  }

  /** After a successful check, acquiring in turn succeeds for the whole list
      if and only if no object is listed more often than it can give. */
  lemma AcquirePhaseExact(objs: Objects, ids: seq<ObjId>, tid: Tid)
    requires Resolved(objs, ids) && AllReady(objs, ids, tid)
    ensures (forall k :: 0 <= k < |ids| ==> SucceedsAt(objs, ids, tid, k)) <==> Enough(objs, ids)
  {
    if Enough(objs, ids) {
      forall k | 0 <= k < |ids| ensures SucceedsAt(objs, ids, tid, k) {
        SucceedsByCount(objs, ids, tid, k);
        CountOfPrefix(ids, k);
      }
    } else {
      var id :| id in ids && Supply(objs[id]).Some? && multiset(ids)[id] > Supply(objs[id]).value;
      var k := LastListing(ids, id);
      SucceedsByCount(objs, ids, tid, k);
    }
  }

  lemma {:induction false} DistinctCount(ids: seq<ObjId>, id: ObjId)
    requires NoDuplicates(ids)
    ensures multiset(ids)[id] == if id in ids then 1 else 0
  {
    if ids != [] {
      var last := |ids| - 1;
      DistinctCount(ids[..last], id);
      assert ids == ids[..last] + [ids[last]];
    }
  }

  /** A list without repetition never asks for too much. */
  lemma DistinctIsEnough(objs: Objects, ids: seq<ObjId>, tid: Tid)
    requires Resolved(objs, ids) && NoDuplicates(ids) && AllReady(objs, ids, tid)
    ensures Enough(objs, ids)
  {
    forall id | id in ids && Supply(objs[id]).Some? ensures multiset(ids)[id] <= Supply(objs[id]).value {
      DistinctCount(ids, id);
      var i :| 0 <= i < |ids| && ids[i] == id;
    }
  }

  /** Without repetition: each listed object is consumed exactly once. */
  lemma DistinctTakesOnce(objs: Objects, ids: seq<ObjId>, tid: Tid, id: ObjId)
    requires Resolved(objs, ids) && NoDuplicates(ids) && id in objs
    ensures TakeAll(objs, ids, tid)[id] == if id in ids then Consumed(objs[id], tid) else objs[id]
  {
  }

  /** A pass that fails after a successful check has lost at least one unit. */
  lemma FailureLosesUnits(objs: Objects, ids: seq<ObjId>, tid: Tid, k: nat)
    requires Resolved(objs, ids) && AllReady(objs, ids, tid) && k < |ids| && !SucceedsAt(objs, ids, tid, k)
    ensures TakeAll(objs, ids[..k], tid) != objs
  {
  }

  class SyncTable {
    var objs: Objects

    constructor (objs: Objects)
      ensures this.objs == objs
    {
      this.objs := objs;
    }

    /** Acquires the ready object listed first and touches nothing else. */
    method WaitAny(ids: seq<ObjId>, tid: Tid) returns (r: Option<nat>)
      requires Resolved(objs, ids)
      modifies this
      ensures r.None? ==> objs == old(objs) && forall i :: 0 <= i < |ids| ==> !Ready(old(objs)[ids[i]], tid)
      ensures r.Some? ==>
        && r.value < |ids| && Ready(old(objs)[ids[r.value]], tid)
        && (forall i :: 0 <= i < r.value ==> !Ready(old(objs)[ids[i]], tid))
        && objs == old(objs)[ids[r.value] := Consumed(old(objs)[ids[r.value]], tid)]
    {
      var i := 0;
      while i < |ids|
        invariant i <= |ids| && objs == old(objs)
        invariant forall j :: 0 <= j < i ==> !Ready(objs[ids[j]], tid)
      {
        CheckAgreesWithAcquire(objs[ids[i]], tid);
        var (ok, o) := TryAcquire(objs[ids[i]], tid);
        objs := objs[ids[i] := o];
        if ok {
          return Some(i);
        }
        i := i + 1;
      }
      return None;
    }

    /** The acquire phase: stops at the first object that is not ready. */
    method AcquireAll(ids: seq<ObjId>, tid: Tid) returns (ok: bool, ghost k: nat)
      requires Resolved(objs, ids)
      modifies this
      ensures k <= |ids| && objs == TakeAll(old(objs), ids[..k], tid)
      ensures forall i :: 0 <= i < k ==> SucceedsAt(old(objs), ids, tid, i)
      ensures ok ==> k == |ids|
      ensures !ok ==> k < |ids| && !SucceedsAt(old(objs), ids, tid, k)
    {
      var i := 0;
      while i < |ids|
        invariant i <= |ids| && objs == TakeAll(old(objs), ids[..i], tid)
        invariant forall k :: 0 <= k < i ==> SucceedsAt(old(objs), ids, tid, k)
      {
        CheckAgreesWithAcquire(objs[ids[i]], tid);
        var (acquired, o) := TryAcquire(objs[ids[i]], tid);
        if !acquired {
          return false, i;
        }
        objs := objs[ids[i] := o];
        assert ids[..i + 1][..i] == ids[..i];
        i := i + 1;
      }
      return true, i;
    }

    /** Check every object, then acquire them in turn; a failure in the second
        phase does not give back what was taken. */
    method WaitAll(ids: seq<ObjId>, tid: Tid) returns (ok: bool)
      requires Resolved(objs, ids)
      modifies this
      ensures ok <==> AllReady(old(objs), ids, tid) && Enough(old(objs), ids)
      ensures ok ==> objs == TakeAll(old(objs), ids, tid)
      ensures !ok ==> (objs == old(objs) <==> !AllReady(old(objs), ids, tid))
    {
      var i := 0;
      while i < |ids|
        invariant i <= |ids|
        invariant forall j :: 0 <= j < i ==> Ready(objs[ids[j]], tid)
      {
        if !Ready(objs[ids[i]], tid) {
          return false;
        }
        i := i + 1;
      }
      AcquirePhaseExact(objs, ids, tid);
      ghost var k;
      ok, k := AcquireAll(ids, tid);
      if ok {
        assert ids[..k] == ids;
      } else {
        FailureLosesUnits(old(objs), ids, tid, k);
      }
    }

    /** A whole call with a zero timeout: argument checks, one pass, result. */
    method Poll(ids: seq<ObjId>, waitAll: bool, tid: Tid) returns (ret: int, signaled: nat)
      modifies this
      ensures ret == EINVAL || ret == ETIMEDOUT || ret == 0
      ensures ret == EINVAL <==>
        |ids| == 0 || |ids| > MAX_WAIT || exists i :: 0 <= i < |ids| && (ids[i] in old(objs) ==> old(objs)[ids[i]].OtherObject?)
      ensures ret == EINVAL ==> objs == old(objs)
      ensures ret != EINVAL ==> Resolved(old(objs), ids)
      ensures ret != EINVAL && !waitAll ==>
        (ret == 0 <==> exists i :: 0 <= i < |ids| && Ready(old(objs)[ids[i]], tid))
      ensures ret == 0 && !waitAll ==>
        && signaled < |ids| && Ready(old(objs)[ids[signaled]], tid)
        && (forall i :: 0 <= i < signaled ==> !Ready(old(objs)[ids[i]], tid))
        && objs == old(objs)[ids[signaled] := Consumed(old(objs)[ids[signaled]], tid)]
      ensures ret != EINVAL && waitAll ==> (ret == 0 <==> AllReady(old(objs), ids, tid) && Enough(old(objs), ids))
      ensures ret == 0 && waitAll ==> signaled == 0 && objs == TakeAll(old(objs), ids, tid)
      ensures ret == ETIMEDOUT && !waitAll ==> objs == old(objs)
      ensures ret == ETIMEDOUT && waitAll ==> (objs == old(objs) <==> !AllReady(old(objs), ids, tid))
    {
      ret, signaled := EINVAL, 0;
      if |ids| == 0 || |ids| > MAX_WAIT {
        return;
      }
      var i := 0;
      while i < |ids|
        invariant i <= |ids| && objs == old(objs)
        invariant forall j :: 0 <= j < i ==> ids[j] in objs
      {
        if ids[i] !in objs {
          return;
        }
        i := i + 1;
      }
      i := 0;
      while i < |ids|
        invariant i <= |ids| && objs == old(objs)
        invariant forall j :: 0 <= j < i ==> !objs[ids[j]].OtherObject?
      {
        if objs[ids[i]].OtherObject? {
          return;
        }
        i := i + 1;
      }
      ret := ETIMEDOUT;
      if waitAll {
        var ok := WaitAll(ids, tid);
        if ok {
          ret := 0;
        }
      } else {
        var r := WaitAny(ids, tid);
        if r.Some? {
          ret, signaled := 0, r.value;
        }
      }
    }
  }
}
