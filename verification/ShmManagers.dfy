/**
  Shared memory slots for thread queues.  The manager's thread-to-slot map is
  what keeps the slab's free list sound, and what keeps the byte ranges of
  live threads apart.
*/
module ShmManagers {
  import opened Basics
  import opened Bytes
  import opened HeapSlabs
  import opened MmapSlabs

  const MAX_THREADS: nat := 8192
  const HEADER_SIZE: nat := 64
  const THREAD_QUEUE_SIZE: nat := 12480
  const THREAD_ID_OFFSET: nat := 12424
  const TOTAL_SIZE: nat := HEADER_SIZE + MAX_THREADS * THREAD_QUEUE_SIZE

  type Tid = U32

  function SlotOffset(slot: nat): nat {
    HEADER_SIZE + slot * THREAD_QUEUE_SIZE
  }

  /** A fresh queue: all zero but for the owning thread. */
  function InitialQueue(tid: Tid): (q: seq<Byte>)
    ensures |q| == THREAD_QUEUE_SIZE
  {
    Zeros(THREAD_ID_OFFSET) + U32Bytes(tid) + Zeros(THREAD_QUEUE_SIZE - THREAD_ID_OFFSET - 4)
  }

  function SlotBytes(mem: seq<Byte>, slot: nat): (q: seq<Byte>)
    requires |mem| == TOTAL_SIZE && slot < MAX_THREADS
    ensures |q| == THREAD_QUEUE_SIZE
  {
    mem[SlotOffset(slot)..SlotOffset(slot) + THREAD_QUEUE_SIZE]
  }

  /** Slots lie inside the region, clear of the header and of each other. */
  lemma SlotsAreApart(a: nat, b: nat)
    requires a < MAX_THREADS && b < MAX_THREADS
    ensures HEADER_SIZE <= SlotOffset(a) && SlotOffset(a) + THREAD_QUEUE_SIZE <= TOTAL_SIZE
    ensures a != b ==>
      SlotOffset(a) + THREAD_QUEUE_SIZE <= SlotOffset(b) || SlotOffset(b) + THREAD_QUEUE_SIZE <= SlotOffset(a)
  {
  }

  lemma StoredSlot(mem: seq<Byte>, slot: nat, q: seq<Byte>, other: nat)
    requires |mem| == TOTAL_SIZE && slot < MAX_THREADS && other < MAX_THREADS && |q| == THREAD_QUEUE_SIZE
    ensures
      var mem' := Stored(mem, SlotOffset(slot), q);
      && SlotBytes(mem', slot) == q
      && (other != slot ==> SlotBytes(mem', other) == SlotBytes(mem, other))
      && mem'[..HEADER_SIZE] == mem[..HEADER_SIZE]
  {
  }

  /** A new queue names its thread and holds no message. */
  lemma InitialQueueNamesThread(tid: Tid)
    ensures U32At(InitialQueue(tid), THREAD_ID_OFFSET) == tid
    ensures forall i :: 0 <= i < THREAD_QUEUE_SIZE && !(THREAD_ID_OFFSET <= i < THREAD_ID_OFFSET + 4) ==> InitialQueue(tid)[i] == 0
  {
    var q := InitialQueue(tid);
    assert q[THREAD_ID_OFFSET..THREAD_ID_OFFSET + 4] == U32Bytes(tid);
    U32AtBytes(q, THREAD_ID_OFFSET, tid);
  }

  class ShmManager {
    var slotMap: map<Tid, nat>
    const slab: MmapSlab
    var nextSlot: nat
    var mem: seq<Byte>
    ghost var owner: map<nat, Tid>

    /** Threads and live slots correspond one to one. */
    ghost predicate Valid()
      reads this, slab
    {
      && slab.Valid() && slab.cap == MAX_THREADS
      && |mem| == TOTAL_SIZE
      && nextSlot == slab.bump
      && |slotMap| == slab.len
      && (forall t :: t in slotMap ==> slab.IsLive(slotMap[t]) && slotMap[t] in owner && owner[slotMap[t]] == t)
      && (forall s: nat :: slab.IsLive(s) ==> s in owner && owner[s] in slotMap && slotMap[owner[s]] == s)
    }

    constructor (mem: seq<Byte>)
      requires |mem| == TOTAL_SIZE
      ensures Valid() && fresh(slab) && slotMap == map[]
    {
      slotMap, nextSlot, owner := map[], 0, map[];
      this.mem := mem;
      var s := new MmapSlab(MAX_THREADS);
      slab := s;
    }

    method InitSlot(slot: nat, tid: Tid)
      requires Valid() && slab.IsLive(slot)
      modifies this`mem
      ensures Valid()
      ensures SlotBytes(mem, slot) == InitialQueue(tid)
      ensures forall o: nat :: o < MAX_THREADS && o != slot ==> SlotBytes(mem, o) == SlotBytes(old(mem), o)
      ensures mem[..HEADER_SIZE] == old(mem)[..HEADER_SIZE]
    {
      forall o: nat | o < MAX_THREADS && o != slot
        ensures SlotBytes(Stored(mem, SlotOffset(slot), InitialQueue(tid)), o) == SlotBytes(mem, o)
      {
        StoredSlot(mem, slot, InitialQueue(tid), o);
      }
      StoredSlot(mem, slot, InitialQueue(tid), slot);
      mem := Stored(mem, SlotOffset(slot), InitialQueue(tid));
    }

    /** Give a thread without a slot one, if any is left. */
    method ClaimSlot(tid: Tid) returns (r: Option<nat>)
      requires Valid() && tid !in slotMap
      modifies this`slotMap, this`nextSlot, this`owner, slab
      ensures Valid()
      ensures r.None? <==> |old(slotMap)| == MAX_THREADS
      ensures slotMap == if r.Some? then old(slotMap)[tid := r.value] else old(slotMap)
      ensures r.Some? ==> slab.IsLive(r.value) && forall t :: t in old(slotMap) ==> old(slotMap)[t] != r.value
    {
      r := slab.Insert();
      if r.Some? {
        nextSlot := slab.bump;
        slotMap := slotMap[tid := r.value];
        owner := owner[r.value := tid];
      }
    }

    /** Fails if and only if the thread has no slot and all are taken. */
    method AllocSlot(tid: Tid) returns (r: Option<nat>)
      requires Valid()
      modifies this, slab
      ensures Valid()
      ensures r.None? <==> tid !in old(slotMap) && |old(slotMap)| == MAX_THREADS
      ensures r.None? ==> slotMap == old(slotMap) && mem == old(mem)
      ensures mem[..HEADER_SIZE] == old(mem)[..HEADER_SIZE]
      ensures r.Some? ==>
        && r.value < nextSlot <= MAX_THREADS
        && slotMap == old(slotMap)[tid := r.value]
        && (tid in old(slotMap) ==> r.value == old(slotMap)[tid])
        && SlotBytes(mem, r.value) == InitialQueue(tid)
        && (forall t :: t in old(slotMap) && t != tid ==>
              SlotBytes(mem, slotMap[t]) == SlotBytes(old(mem), slotMap[t]))
    {
      if tid in slotMap {
        InitSlot(slotMap[tid], tid);
        return Some(slotMap[tid]);
      }
      r := ClaimSlot(tid);
      if r.Some? {
        InitSlot(r.value, tid);
      }
    }

    method FreeSlot(tid: Tid)
      requires Valid()
      modifies this, slab
      ensures Valid()
      ensures slotMap == old(slotMap) - {tid}
      ensures tid in old(slotMap) ==> SlotBytes(mem, old(slotMap)[tid]) == Zeros(THREAD_QUEUE_SIZE)
      ensures forall t :: t in slotMap ==> SlotBytes(mem, slotMap[t]) == SlotBytes(old(mem), slotMap[t])
      ensures mem[..HEADER_SIZE] == old(mem)[..HEADER_SIZE]
    {
      if tid in slotMap {
        var slot := slotMap[tid];
        forall t | t in slotMap && t != tid
          ensures SlotBytes(Stored(mem, SlotOffset(slot), Zeros(THREAD_QUEUE_SIZE)), slotMap[t]) == SlotBytes(mem, slotMap[t])
        {
          StoredSlot(mem, slot, Zeros(THREAD_QUEUE_SIZE), slotMap[t]);
        }
        StoredSlot(mem, slot, Zeros(THREAD_QUEUE_SIZE), slot);
        mem := Stored(mem, SlotOffset(slot), Zeros(THREAD_QUEUE_SIZE));
        slotMap := slotMap - {tid};
        var ok := slab.Remove(slot);
        assert ok;
      }
    }

    /** The byte range of a thread's queue. */
    function QueueOffset(tid: Tid): (r: Option<nat>)
      reads this
    {
      if tid in slotMap then Some(SlotOffset(slotMap[tid])) else None
    }

    /** Live threads own disjoint ranges inside the region. */
    lemma QueuesAreDisjoint(a: Tid, b: Tid)
      requires Valid() && a in slotMap && b in slotMap && a != b
      ensures
        var x, y := QueueOffset(a).value, QueueOffset(b).value;
        && HEADER_SIZE <= x && x + THREAD_QUEUE_SIZE <= TOTAL_SIZE
        && (x + THREAD_QUEUE_SIZE <= y || y + THREAD_QUEUE_SIZE <= x)
    {
    }
  }
}
