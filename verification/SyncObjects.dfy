/**
  The in-kernel semaphore and mutex.  The semaphore is lock-free: any number
  of threads read its count and compare-and-exchange it, one step at a time.
  The mutex changes owner and recursion count together under a spinlock.
*/
module SyncObjects {
  import opened Basics
  import opened Bytes

  const INT_MAX := 0x7FFF_FFFF

  type Tid = U32

  /** 32-bit conversions: `(u32)n` and `(int)n`. */
  function ToU32(n: int): U32 {
    n % U32_LIMIT
  }

  function ToI32(n: U32): int {
    if n <= INT_MAX then n else n - U32_LIMIT
  }

  // ---- semaphore ----

  /** Where a thread stands in `try_acquire` or `triskelion_sem_release`.
      `at` is history: how many operations had succeeded when it read. */
  datatype Pc =
    | Acquiring
    | AcquireSeen(seen: int, at: nat)
    | Releasing(amount: U32)
    | ReleaseSeen(amount: U32, seen: int, at: nat)

  /** What a call returns; a release reports the count that it found. */
  datatype Outcome = Took | NothingThere | Released(previous: U32) | Overflow(previous: U32)

  /** The last five fields are history; `wraps` counts the successful releases
      that carried the 32-bit count past 2^32, and `results` holds what each
      thread's latest call returned. */
  datatype Semaphore = Semaphore(
    count: int,
    max: U32,
    initial: U32,
    threads: map<Tid, Pc>,
    acquired: nat,
    released: nat,
    successes: nat,
    wraps: nat,
    results: map<Tid, Outcome>)

  datatype SemAction =
    | StartAcquire(t: Tid)
    | StartRelease(t: Tid, amount: U32)
    | Read(t: Tid)
    | Cas(t: Tid)

  /** `triskelion_sem_create`. */
  function SemCreate(initial: U32, max: U32): (r: Option<Semaphore>)
    ensures r.Some? <==> 0 < max && initial <= max
  {
    if initial > max || max == 0 then None
    else Some(Semaphore(ToI32(initial), max, initial, map[], 0, 0, 0, 0, map[]))
  }

  predicate SemEnabled(s: Semaphore, a: SemAction) {
    match a
    case StartAcquire(t) => t !in s.threads
    case StartRelease(t, _) => t !in s.threads
    case Read(t) => t in s.threads && (s.threads[t].Acquiring? || s.threads[t].Releasing?)
    case Cas(t) => t in s.threads && (s.threads[t].AcquireSeen? || s.threads[t].ReleaseSeen?)
  }

  function At(s: Semaphore, t: Tid, pc: Pc): Semaphore {
    s.(threads := s.threads[t := pc])
  }

  function Returned(s: Semaphore, t: Tid, result: Outcome): Semaphore {
    s.(threads := s.threads - {t}, results := s.results[t := result])
  }

  /** `new = old + count` in 32 bits. */
  function Sum(seen: int, amount: U32): U32 {
    ToU32(seen as int + amount as int)
  }

  /** The unsigned count and the amount together exceed 32 bits. */
  predicate Wraps(seen: int, amount: U32) {
    ToU32(seen) + amount >= U32_LIMIT
  }

  function SemStep(s: Semaphore, a: SemAction): Semaphore
    requires SemEnabled(s, a)
  {
    match a
    case StartAcquire(t) => At(s, t, Acquiring)
    case StartRelease(t, n) => At(s, t, Releasing(n))
    case Read(t) =>
      (match s.threads[t]
       case Acquiring =>
         if s.count <= 0 then Returned(s, t, NothingThere) else At(s, t, AcquireSeen(s.count, s.successes))
       case Releasing(n) =>
         if Sum(s.count, n) > s.max then Returned(s, t, Overflow(ToU32(s.count)))
         else At(s, t, ReleaseSeen(n, s.count, s.successes))
       case _ => s)
    case Cas(t) =>
      (match s.threads[t]
       case AcquireSeen(o, _) =>
         if s.count == o then
           Returned(s, t, Took).(count := o - 1, acquired := s.acquired + 1, successes := s.successes + 1)
         else At(s, t, Acquiring)
       case ReleaseSeen(n, o, _) =>
         if s.count == o then
           Returned(s, t, Released(ToU32(o)))
             .(count := ToI32(Sum(o, n)), released := s.released + n, successes := s.successes + 1,
               wraps := s.wraps + if Wraps(o, n) then 1 else 0)
         else At(s, t, Releasing(n))
       case _ => s)
  }

  function SemAfter(initial: U32, max: U32, actions: seq<SemAction>): Option<Semaphore> {
    if actions == [] then SemCreate(initial, max)
    else
      var before := SemAfter(initial, max, actions[..|actions| - 1]);
      var last := actions[|actions| - 1];
      if before.Some? && SemEnabled(before.value, last) then Some(SemStep(before.value, last)) else None
  }

  predicate IsI32(n: int) {
    -INT_MAX - 1 <= n <= INT_MAX
  }

  lemma UnsignedView(n: int)
    requires IsI32(n)
    ensures ToU32(n) as int == if n < 0 then n + U32_LIMIT else n
  {
  }

  lemma SignedView(n: U32)
    ensures IsI32(ToI32(n)) && ToU32(ToI32(n)) == n
  {
    UnsignedView(ToI32(n));
  }

  lemma UnsignedSum(seen: int, amount: U32)
    requires IsI32(seen)
    ensures Sum(seen, amount) as int == ToU32(seen) as int + amount as int - if Wraps(seen, amount) then U32_LIMIT else 0
  {
    UnsignedView(seen);
  }

  /** The overflow test judges a release correctly - as it would with unbounded
      integers - if and only if the 32-bit sum does not wrap back to at most
      the maximum. */
  lemma OverflowTestIsExact(seen: int, amount: U32, max: U32)
    requires IsI32(seen) && ToU32(seen) <= max
    ensures (Sum(seen, amount) > max <==> ToU32(seen) as int + amount as int > max) <==>
            !(Wraps(seen, amount) && ToU32(seen) as int + amount as int <= U32_LIMIT + max)
  {
    UnsignedSum(seen, amount);
  }

  /** Such a sum: releasing 2^32 - 1 on a count of one succeeds and leaves
      zero. */
  lemma HugeReleaseSucceeds(t: Tid)
    ensures
      var r := SemAfter(1, 5, [StartRelease(t, 0xFFFF_FFFF), Read(t), Cas(t)]);
      r.Some? && r.value.count == 0 && r.value.released == 0xFFFF_FFFF
  {
    var actions := [StartRelease(t, 0xFFFF_FFFF), Read(t), Cas(t)];
    assert actions[..2] == [StartRelease(t, 0xFFFF_FFFF), Read(t)];
    assert actions[..2][..1] == [StartRelease(t, 0xFFFF_FFFF)];
    assert actions[..1][..0] == [];
    var s0 := SemAfter(1, 5, []);
    var s1 := SemAfter(1, 5, actions[..1]);
    assert s1 == Some(SemStep(s0.value, actions[0]));
    assert actions[..2][..|actions[..2]| - 1] == actions[..1];
    var s2 := SemAfter(1, 5, actions[..2]);
    assert s2 == Some(SemStep(s1.value, actions[1]));
  }

  ghost predicate PcInv(s: Semaphore, pc: Pc) {
    match pc
    case Acquiring => true
    case Releasing(_) => true
    case AcquireSeen(o, at) => 0 < o <= INT_MAX && at <= s.successes && (at == s.successes ==> s.count == o)
    case ReleaseSeen(n, o, at) =>
      IsI32(o) && Sum(o, n) <= s.max && at <= s.successes && (at == s.successes ==> s.count == o)
  }

  ghost predicate ThreadsInv(s: Semaphore) {
    forall t :: t in s.threads ==> PcInv(s, s.threads[t])
  }

  /** Read as an unsigned number, the count is at most the maximum, and every
      unit put in or taken out is in it, but for 2^32 lost per wrap. */
  ghost predicate Accounted(s: Semaphore) {
    && IsI32(s.count) && ToU32(s.count) <= s.max
    && ToU32(s.count) as int + U32_LIMIT * s.wraps == s.initial as int + s.released - s.acquired
  }

  ghost predicate SemInv(s: Semaphore) {
    Accounted(s) && ThreadsInv(s)
  }

  lemma CasKeepsAccount(s: Semaphore, t: Tid)
    requires SemInv(s) && SemEnabled(s, Cas(t))
    ensures Accounted(SemStep(s, Cas(t)))
  {
    assert PcInv(s, s.threads[t]);
    match s.threads[t]
    case AcquireSeen(o, _) =>
      UnsignedView(o);
      UnsignedView(o - 1);
    case ReleaseSeen(n, o, _) =>
      UnsignedSum(o, n);
      SignedView(Sum(o, n));
    case _ =>
  }

  lemma StepKeepsThreads(s: Semaphore, a: SemAction)
    requires SemInv(s) && SemEnabled(s, a)
    ensures ThreadsInv(SemStep(s, a))
  {
    var s' := SemStep(s, a);
    forall u | u in s'.threads ensures PcInv(s', s'.threads[u]) {
      assert u in s.threads ==> PcInv(s, s.threads[u]);
    }
  }

  lemma SemStepKeepsInv(s: Semaphore, a: SemAction)
    requires SemInv(s) && SemEnabled(s, a)
    ensures SemInv(SemStep(s, a))
  {
    StepKeepsThreads(s, a);
    if a.Cas? {
      CasKeepsAccount(s, a.t);
    }
  }

  /** Every interleaving of any number of threads, any maximum and any release
      amounts: the unsigned count stays at most the maximum, and it equals what
      was put in minus what was taken out if and only if no release has
      wrapped. */
  lemma {:induction false} SemaphoreCountsExactly(initial: U32, max: U32, actions: seq<SemAction>)
    ensures
      var r := SemAfter(initial, max, actions);
      r.Some? ==>
        && SemInv(r.value) && r.value.max == max && r.value.initial == initial
        && (ToU32(r.value.count) as int == initial as int + r.value.released - r.value.acquired <==> r.value.wraps == 0)
  {
    if actions == [] {
      SignedView(initial);
    } else {
      var prefix, last := actions[..|actions| - 1], actions[|actions| - 1];
      SemaphoreCountsExactly(initial, max, prefix);
      var before := SemAfter(initial, max, prefix);
      if before.Some? && SemEnabled(before.value, last) {
        SemStepKeepsInv(before.value, last);
      }
    }
  }

  /** The amounts with which no release can wrap. */
  ghost predicate Modest(actions: seq<SemAction>, max: U32) {
    forall i :: 0 <= i < |actions| && actions[i].StartRelease? ==> actions[i].amount as int + max as int < U32_LIMIT
  }

  ghost predicate ModestThreads(s: Semaphore) {
    forall t :: t in s.threads ==>
      match s.threads[t]
      case Releasing(n) => n as int + s.max as int < U32_LIMIT
      case ReleaseSeen(n, _, _) => n as int + s.max as int < U32_LIMIT
      case _ => true
  }

  lemma ModestStep(s: Semaphore, a: SemAction)
    requires SemInv(s) && SemEnabled(s, a) && ModestThreads(s)
    requires a.StartRelease? ==> a.amount as int + s.max as int < U32_LIMIT
    ensures ModestThreads(SemStep(s, a)) && SemStep(s, a).wraps == s.wraps
  {
    if a.Cas? {
      assert PcInv(s, s.threads[a.t]);
    }
  }

  /** If no amount exceeds 2^32 - 1 - max - in particular if maximum and amounts
      fit an int - the count is exact in every interleaving; and if the maximum
      fits an int it is never negative. */
  lemma {:induction false} ModestSemaphoreIsExact(initial: U32, max: U32, actions: seq<SemAction>)
    requires Modest(actions, max)
    ensures
      var r := SemAfter(initial, max, actions);
      r.Some? ==>
        && ModestThreads(r.value) && r.value.wraps == 0
        && ToU32(r.value.count) as int == initial as int + r.value.released - r.value.acquired
        && (max <= INT_MAX ==> 0 <= r.value.count <= max && ToU32(r.value.count) == r.value.count)
  {
    SemaphoreCountsExactly(initial, max, actions);
    if actions != [] {
      var prefix, last := actions[..|actions| - 1], actions[|actions| - 1];
      assert forall i :: 0 <= i < |prefix| ==> prefix[i] == actions[i];
      ModestSemaphoreIsExact(initial, max, prefix);
      SemaphoreCountsExactly(initial, max, prefix);
      var before := SemAfter(initial, max, prefix);
      if before.Some? && SemEnabled(before.value, last) {
        ModestStep(before.value, last);
      }
    }
    if SemAfter(initial, max, actions).Some? {
      UnsignedView(SemAfter(initial, max, actions).value.count);
    }
  }

  /** In every run an acquire gives up on reading the count if and only if no
      unit is there or more than INT_MAX are. */
  lemma AcquireGivesUpIff(initial: U32, max: U32, actions: seq<SemAction>, t: Tid)
    requires var r := SemAfter(initial, max, actions); r.Some? && t in r.value.threads && r.value.threads[t].Acquiring?
    ensures
      var s := SemAfter(initial, max, actions).value;
      t !in SemStep(s, Read(t)).threads <==> ToU32(s.count) == 0 || ToU32(s.count) > INT_MAX
  {
    SemaphoreCountsExactly(initial, max, actions);
    UnsignedView(SemAfter(initial, max, actions).value.count);
  }

  /** In every run a compare-and-exchange fails only if some other thread's has
      succeeded since the value was read. */
  lemma FailureMeansProgress(initial: U32, max: U32, actions: seq<SemAction>, t: Tid)
    requires
      var r := SemAfter(initial, max, actions);
      r.Some? && SemEnabled(r.value, Cas(t)) && SemStep(r.value, Cas(t)).successes == r.value.successes
    ensures SemAfter(initial, max, actions).value.threads[t].at < SemAfter(initial, max, actions).value.successes
  {
    SemaphoreCountsExactly(initial, max, actions);
    var s := SemAfter(initial, max, actions).value;
    assert PcInv(s, s.threads[t]);
  }

  lemma SumOfUnsigned(seen: int, amount: U32)
    requires IsI32(seen)
    ensures Sum(seen, amount) == (ToU32(seen) + amount) % U32_LIMIT
  {
    UnsignedView(seen);
  }

  /** On reading the count a release gives up, reporting the count, if and only if
      the sum in 32 bits exceeds the maximum - for a modest amount, if and only
      if the sum does; else it goes on with what it read. */
  ghost predicate GivesUpExactly(s: Semaphore, t: Tid)
    requires t in s.threads && s.threads[t].Releasing?
  {
    var n, s' := s.threads[t].amount, SemStep(s, Read(t));
    && (t !in s'.threads <==> (ToU32(s.count) + n) % U32_LIMIT > s.max)
    && (n + s.max < U32_LIMIT ==> (t !in s'.threads <==> ToU32(s.count) + n > s.max))
    && (t !in s'.threads ==> s' == s.(threads := s.threads - {t}, results := s.results[t := Overflow(ToU32(s.count))]))
    && (t in s'.threads ==> s' == s.(threads := s.threads[t := ReleaseSeen(n, s.count, s.successes)]))
  }

  lemma ReadDecides(s: Semaphore, t: Tid)
    requires SemInv(s) && t in s.threads && s.threads[t].Releasing?
    ensures GivesUpExactly(s, t)
  {
    SumOfUnsigned(s.count, s.threads[t].amount);
  }

  lemma ReleaseGivesUpIff(initial: U32, max: U32, actions: seq<SemAction>, t: Tid)
    requires var r := SemAfter(initial, max, actions); r.Some? && t in r.value.threads && r.value.threads[t].Releasing?
    ensures SemAfter(initial, max, actions).value.max == max && GivesUpExactly(SemAfter(initial, max, actions).value, t)
  {
    SemaphoreCountsExactly(initial, max, actions);
    ReadDecides(SemAfter(initial, max, actions).value, t);
  }

  /** A compare-and-exchange that has not been overtaken succeeds; one that
      succeeds ends the call; one that fails changes nothing and starts the same
      call over. */
  ghost predicate ExchangesExactly(s: Semaphore, t: Tid)
    requires SemEnabled(s, Cas(t))
  {
    var pc, s' := s.threads[t], SemStep(s, Cas(t));
    if s.count == pc.seen then
      && s'.threads == s.threads - {t} && s'.successes == s.successes + 1
      && (pc.AcquireSeen? ==> s'.results == s.results[t := Took] && ToU32(s'.count) == ToU32(s.count) - 1)
      && (pc.ReleaseSeen? ==>
            && s'.results == s.results[t := Released(ToU32(s.count))]
            && ToU32(s'.count) == (ToU32(s.count) + pc.amount) % U32_LIMIT)
    else
      && pc.at < s.successes
      && s' == s.(threads := s.threads[t := if pc.AcquireSeen? then Acquiring else Releasing(pc.amount)])
  }

  lemma AcquireExchange(s: Semaphore, t: Tid)
    requires SemInv(s) && SemEnabled(s, Cas(t)) && s.threads[t].AcquireSeen?
    ensures ExchangesExactly(s, t)
  {
    assert PcInv(s, s.threads[t]);
    UnsignedView(s.count);
    if s.count > 0 {
      UnsignedView(s.count - 1);
    }
  }

  lemma ReleaseExchange(s: Semaphore, t: Tid)
    requires SemInv(s) && SemEnabled(s, Cas(t)) && s.threads[t].ReleaseSeen?
    ensures ExchangesExactly(s, t)
  {
    assert PcInv(s, s.threads[t]);
    SumOfUnsigned(s.count, s.threads[t].amount);
    SignedView(Sum(s.count, s.threads[t].amount));
  }

  /** The same in every run. */
  lemma ExchangeOutcome(initial: U32, max: U32, actions: seq<SemAction>, t: Tid)
    requires var r := SemAfter(initial, max, actions); r.Some? && SemEnabled(r.value, Cas(t))
    ensures ExchangesExactly(SemAfter(initial, max, actions).value, t)
  {
    SemaphoreCountsExactly(initial, max, actions);
    var s := SemAfter(initial, max, actions).value;
    if s.threads[t].AcquireSeen? {
      AcquireExchange(s, t);
    } else {
      ReleaseExchange(s, t);
    }
  }

  /** A release that nobody interrupts, from any state with a sound count: it adds
      its amount and reports the count before, or refuses an amount that does
      not fit under the maximum. */
  lemma ReleaseAlone(s: Semaphore, t: Tid, n: U32)
    requires SemInv(s) && t !in s.threads && n + s.max < U32_LIMIT
    ensures
      var s1 := SemStep(s, StartRelease(t, n));
      var s2 := SemStep(s1, Read(t));
      if ToU32(s.count) + n > s.max then
        s2.threads == s.threads && s2.count == s.count && s2.results == s.results[t := Overflow(ToU32(s.count))]
      else
        && SemEnabled(s2, Cas(t))
        && var s3 := SemStep(s2, Cas(t));
           s3.threads == s.threads && ToU32(s3.count) == ToU32(s.count) + n
           && s3.results == s.results[t := Released(ToU32(s.count))]
  {
    UnsignedView(s.count);
    SumOfUnsigned(s.count, n);
    SignedView(Sum(s.count, n));
    assert s.threads[t := Releasing(n)] - {t} == s.threads;
    assert s.threads[t := Releasing(n)][t := ReleaseSeen(n, s.count, s.successes)] - {t} == s.threads;
  }

  /** The same for an acquire. */
  lemma AcquireAlone(s: Semaphore, t: Tid)
    requires SemInv(s) && t !in s.threads
    ensures
      var s1 := SemStep(s, StartAcquire(t));
      var s2 := SemStep(s1, Read(t));
      if s.count <= 0 then
        s2.threads == s.threads && s2.count == s.count && s2.results == s.results[t := NothingThere]
      else
        && SemEnabled(s2, Cas(t))
        && var s3 := SemStep(s2, Cas(t));
           s3.threads == s.threads && s3.count == s.count - 1 && s3.results == s.results[t := Took]
  {
    assert s.threads[t := Acquiring] - {t} == s.threads;
    assert s.threads[t := Acquiring][t := AcquireSeen(s.count, s.successes)] - {t} == s.threads;
  }

  // ---- mutex ----

  datatype Mutex = Mutex(owner: Tid, count: U32)

  function MutexCreate(owner: Tid): Mutex {
    Mutex(owner, if owner != 0 then 1 else 0)
  }

  function MutexAcquire(m: Mutex, t: Tid): (Mutex, bool) {
    if m.owner == 0 then (Mutex(t, 1), true)
    else if m.owner == t then (m.(count := ToU32(m.count as int + 1)), true)
    else (m, false)
  }

  /** `-EPERM` for a thread that is not the owner, else the previous count. */
  function MutexRelease(m: Mutex, t: Tid): (Mutex, Option<U32>) {
    if m.owner != t then (m, None)
    else
      var count := ToU32(m.count as int - 1);
      (Mutex(if count == 0 then 0 else m.owner, count), Some(m.count))
  }

  datatype MutexOp = Acquire(t: Tid) | Release(t: Tid)

  /** The mutex with every thread's successful acquires minus releases. */
  datatype Held = Held(mutex: Mutex, holds: map<Tid, int>)

  function HoldsOf(h: Held, t: Tid): int {
    if t in h.holds then h.holds[t] else 0
  }

  function MutexStep(h: Held, op: MutexOp): Held {
    match op
    case Acquire(t) =>
      var (m, ok) := MutexAcquire(h.mutex, t);
      if ok then Held(m, h.holds[t := HoldsOf(h, t) + 1]) else h
    case Release(t) =>
      var (m, prev) := MutexRelease(h.mutex, t);
      if prev.Some? then Held(m, h.holds[t := HoldsOf(h, t) - 1]) else h
  }

  function MutexRun(owner: Tid, ops: seq<MutexOp>): Held {
    if ops == [] then Held(MutexCreate(owner), if owner != 0 then map[owner := 1] else map[])
    else MutexStep(MutexRun(owner, ops[..|ops| - 1]), ops[|ops| - 1])
  }

  /** Free exactly when the count is zero; otherwise the owner, and nobody
      else, holds it, as often as the recursion count says. */
  ghost predicate Exclusive(h: Held) {
    && (h.mutex.owner == 0 <==> h.mutex.count == 0)
    && forall t :: HoldsOf(h, t) == if t == h.mutex.owner && t != 0 then h.mutex.count as int else 0
  }

  /** What a caller must avoid: thread id zero on a free mutex, and recursion
      past 2^32 - 1. */
  predicate Proper(m: Mutex, op: MutexOp) {
    && !(op.t == 0 && m.owner == 0)
    && !(op.Acquire? && m.owner == op.t && m.count == U32_LIMIT - 1)
  }

  /** An operation keeps the mutex exclusive if and only if it is proper. */
  lemma ExclusiveIffProper(h: Held, op: MutexOp)
    requires Exclusive(h)
    ensures Exclusive(MutexStep(h, op)) <==> Proper(h.mutex, op)
  {
    var h' := MutexStep(h, op);
    if Proper(h.mutex, op) {
      forall t ensures HoldsOf(h', t) == if t == h'.mutex.owner && t != 0 then h'.mutex.count as int else 0 {
        assert HoldsOf(h, t) == if t == h.mutex.owner && t != 0 then h.mutex.count as int else 0;
      }
    } else if op.t != 0 {
      assert HoldsOf(h, op.t) == h.mutex.count as int;
      assert HoldsOf(h', op.t) == h.mutex.count as int + 1;
    }
  }

  /** Every operation of the run was proper when it happened. */
  predicate ProperRun(owner: Tid, ops: seq<MutexOp>) {
    ops == [] ||
    (ProperRun(owner, ops[..|ops| - 1]) && Proper(MutexRun(owner, ops[..|ops| - 1]).mutex, ops[|ops| - 1]))
  }

  ghost predicate AlwaysExclusive(owner: Tid, ops: seq<MutexOp>) {
    forall n :: 0 <= n <= |ops| ==> Exclusive(MutexRun(owner, ops[..n]))
  }

  /** The mutex is exclusive throughout a run if and only if every operation was
      proper: the first improper one, and nothing else, breaks it. */
  lemma {:induction false} MutexExcludes(owner: Tid, ops: seq<MutexOp>)
    ensures ProperRun(owner, ops) <==> AlwaysExclusive(owner, ops)
    ensures ProperRun(owner, ops) ==> Exclusive(MutexRun(owner, ops))
  {
    assert ops[..|ops|] == ops;
    if ops == [] {
      assert forall n :: 0 <= n <= |ops| ==> ops[..n] == [];
    } else {
      var prefix := ops[..|ops| - 1];
      MutexExcludes(owner, prefix);
      assert forall n :: 0 <= n <= |prefix| ==> prefix[..n] == ops[..n];
      assert prefix == prefix[..|prefix|];
      if Exclusive(MutexRun(owner, prefix)) {
        ExclusiveIffProper(MutexRun(owner, prefix), ops[|ops| - 1]);
      }
    }
  }

  /** In every proper run a release reports how often the thread held the mutex,
      and a thread may release if and only if it holds it. */
  lemma ReleaseReportsHolds(owner: Tid, ops: seq<MutexOp>, t: Tid)
    requires ProperRun(owner, ops) && t != 0
    ensures
      var h := MutexRun(owner, ops);
      MutexRelease(h.mutex, t).1 == if HoldsOf(h, t) > 0 then Some(HoldsOf(h, t)) else None
  {
    MutexExcludes(owner, ops);
    var h := MutexRun(owner, ops);
    assert HoldsOf(h, t) == if t == h.mutex.owner && t != 0 then h.mutex.count as int else 0;
  }

  /** In every proper run a thread acquires the mutex if and only if no other thread
      holds it, and then holds it once more. */
  lemma AcquireSucceedsIff(owner: Tid, ops: seq<MutexOp>, t: Tid)
    requires ProperRun(owner, ops) && t != 0
    ensures
      var h := MutexRun(owner, ops);
      && (MutexAcquire(h.mutex, t).1 <==> forall u :: u != t ==> HoldsOf(h, u) == 0)
      && HoldsOf(MutexStep(h, Acquire(t)), t) == HoldsOf(h, t) + if MutexAcquire(h.mutex, t).1 then 1 else 0
  {
    MutexExcludes(owner, ops);
    var h := MutexRun(owner, ops);
    if h.mutex.owner != 0 && h.mutex.owner != t {
      assert HoldsOf(h, h.mutex.owner) == h.mutex.count as int;
    }
  }

  /** Threads with nonzero ids that never hold the mutex 2^32 - 1 times over
      only run properly. */
  lemma {:induction false} ShallowRunsAreProper(owner: Tid, ops: seq<MutexOp>)
    requires forall i :: 0 <= i < |ops| ==> ops[i].t != 0
    requires forall n :: 0 <= n < |ops| ==> HoldsOf(MutexRun(owner, ops[..n]), ops[n].t) < U32_LIMIT - 1
    ensures ProperRun(owner, ops)
  {
    if ops != [] {
      var last := |ops| - 1;
      var prefix := ops[..last];
      assert forall i :: 0 <= i < last ==> prefix[i] == ops[i] && prefix[..i] == ops[..i];
      ShallowRunsAreProper(owner, prefix);
      MutexExcludes(owner, prefix);
      var h := MutexRun(owner, prefix);
      assert HoldsOf(h, ops[last].t) < U32_LIMIT - 1;
      assert HoldsOf(h, ops[last].t) == if ops[last].t == h.mutex.owner then h.mutex.count as int else 0;
    }
  }
}
