/**
  The life of a relayed request: submitted by a Wine thread, read by the
  daemon, answered or aborted, and returned to the thread, which frees it.
  Everything that happens under the queue's lock in one go is one step; what
  the daemon side does to an entry outside the lock, or while the waiting
  thread need not take it, is a step of its own.  Entries are known by their
  request id.
*/
module Relay {
  import opened Basics

  const EIO := -5
  const EINTR := -4
  const ENOMEM := -12

  /** An abort holds the lock throughout; `waking` is the entry it has completed
      and is about to wake. */
  datatype Lock = Unlocked | Aborting(waking: Option<nat>)

  /** `reading` and `waking` mark entries that a daemon read is still copying, and
      that a daemon write has completed and is about to wake.  The last seven
      fields are history: the rank at which an entry joined the pending list,
      the entries handed to the daemon, the entries completed and with what
      status, and the entries that the current abort found queued and those it
      has completed. */
  datatype State = State(
    nextId: nat,
    prepared: set<nat>,
    pending: seq<nat>,
    inFlight: seq<nat>,
    replying: set<nat>,
    completed: map<nat, int>,
    returned: map<nat, int>,
    dropped: set<nat>,
    reading: set<nat>,
    waking: set<nat>,
    lock: Lock,
    enqueuedAt: map<nat, nat>,
    enqueues: nat,
    readLog: seq<nat>,
    completions: seq<nat>,
    outcome: map<nat, int>,
    found: seq<nat>,
    aborted: seq<nat>)

  datatype Action =
    | AllocId
    | Abandon(id: nat)
    | Enqueue(id: nat)
    | ReadTake
    | ReadCopied(id: nat)
    | WriteTake(id: nat)
    | WriteFinish(id: nat, status: int)
    | WriteWake(id: nat)
    | AbortStart
    | AbortOne
    | AbortWake
    | AbortEnd
    | Return(id: nat, late: int)
    | Interrupt(id: nat)

  const INITIAL :=
    State(1, {}, [], [], {}, map[], map[], {}, {}, {}, Unlocked, map[], 0, [], [], map[], [], [])

  // ---- finding the entry a reply is for ----

  /** Where a list cursor points: an entry, the list head taken for an entry,
      or nowhere. */
  datatype Cursor = At(index: nat) | HeadNode | Null

  datatype Lookup = Found(index: nat) | NotFound | Fault

  function First(list: seq<nat>): Cursor {
    if list == [] then HeadNode else At(0)
  }

  /** Following a link; through no entry at all it faults. */
  function Next(list: seq<nat>, c: Cursor): Option<Cursor> {
    match c
    case At(k) => Some(if k + 1 < |list| then At(k + 1) else HeadNode)
    case HeadNode => Some(First(list))
    case Null => None
  }

  /** The list walk of the write path.  `entry` is the walk's saved next link;
      if it is `shared`, it is also the result: a mismatch clears it before the
      walk goes on to what is saved, and it decides at the end. */
  function Walk(list: seq<nat>, pos: Cursor, entry: Cursor, id: nat, shared: bool): Lookup
    requires pos.At? ==> pos.index < |list| && Some(entry) == Next(list, pos)
    decreases if pos.At? then |list| - pos.index else 0
  {
    if pos.HeadNode? then (if shared && !entry.Null? then Fault else NotFound)
    else if pos.Null? then Fault
    else if list[pos.index] == id then Found(pos.index)
    else
      var saved := if shared then Null else entry;
      match Next(list, saved)
      case None => Fault
      case Some(n) => Walk(list, saved, n, id, shared)
  }

  function FindReply(list: seq<nat>, id: nat): Lookup {
    Walk(list, First(list), Next(list, First(list)).value, id, true)
  }

  /** What the search is for: the first entry with the id, or none. */
  ghost predicate Finds(list: seq<nat>, id: nat, r: Lookup) {
    match r
    case Found(k) => k < |list| && list[k] == id && id !in list[..k]
    case NotFound => id !in list
    case Fault => false
  }

  lemma {:induction false} UnsharedWalkFinds(list: seq<nat>, pos: Cursor, entry: Cursor, id: nat)
    requires pos.At? ==> pos.index < |list| && Some(entry) == Next(list, pos) && id !in list[..pos.index]
    requires !pos.At? ==> pos.HeadNode? && id !in list
    ensures Finds(list, id, Walk(list, pos, entry, id, false))
    decreases if pos.At? then |list| - pos.index else 0
  {
    if pos.At? && list[pos.index] != id {
      var k := pos.index;
      assert list[..k + 1] == list[..k] + [list[k]];
      if k + 1 == |list| {
        assert list[..k + 1] == list;
      }
      UnsharedWalkFinds(list, entry, Next(list, entry).value, id);
    }
  }

  /** The walk finds what it should if and only if the reply is for the entry at
      the head of the in-flight list; with a saved link of its own it always
      would. */
  lemma LookupWorksForHeadOnly(list: seq<nat>, id: nat)
    ensures Finds(list, id, FindReply(list, id)) <==> list != [] && list[0] == id
    ensures Finds(list, id, Walk(list, First(list), Next(list, First(list)).value, id, false))
  {
    UnsharedWalkFinds(list, First(list), Next(list, First(list)).value, id);
  }

  // ---- the protocol ----

  /** The step takes the queue's lock. */
  predicate Locks(a: Action) {
    a.Enqueue? || a.ReadTake? || a.WriteTake? || a.AbortStart? || a.Interrupt?
  }

  predicate Enabled(s: State, a: Action) {
    && (Locks(a) ==> s.lock.Unlocked?)
    && match a
       case AllocId => true
       case Abandon(id) => id in s.prepared
       case Enqueue(id) => id in s.prepared
       case ReadTake => s.pending != []
       case ReadCopied(id) => id in s.reading
       case WriteTake(id) => FindReply(s.inFlight, id).Found?
       case WriteFinish(id, _) => id in s.replying
       case WriteWake(id) => id in s.waking
       case AbortStart => true
       case AbortOne => s.lock == Aborting(None) && s.pending + s.inFlight != []
       case AbortWake => s.lock.Aborting? && s.lock.waking.Some?
       case AbortEnd => s.lock == Aborting(None) && s.pending == [] && s.inFlight == []
       case Return(id, _) => id in s.completed
       case Interrupt(id) => id in s.pending || id in s.inFlight || id in s.replying
  }

  /** Completing an entry: its status is set and its thread may return. */
  function Complete(s: State, id: nat, status: int): State {
    s.(completed := s.completed[id := status], completions := s.completions + [id], outcome := s.outcome[id := status])
  }

  /** The thread frees the entry and returns. */
  function Freed(s: State, id: nat, ret: int): State {
    s.(completed := s.completed - {id}, returned := s.returned[id := ret])
  }

  function Step(s: State, a: Action): State
    requires Enabled(s, a)
  {
    match a
    case AllocId => s.(nextId := s.nextId + 1, prepared := s.prepared + {s.nextId + 1})
    case Abandon(id) =>
      Freed(s, id, ENOMEM).(prepared := s.prepared - {id}, dropped := s.dropped + {id})
    case Enqueue(id) =>
      s.(prepared := s.prepared - {id}, pending := s.pending + [id],
         enqueuedAt := s.enqueuedAt[id := s.enqueues], enqueues := s.enqueues + 1)
    case ReadTake =>
      var id := s.pending[0];
      s.(pending := s.pending[1..], inFlight := s.inFlight + [id], reading := s.reading + {id},
         readLog := s.readLog + [id])
    case ReadCopied(id) => s.(reading := s.reading - {id})
    case WriteTake(id) => s.(inFlight := s.inFlight[1..], replying := s.replying + {id})
    case WriteFinish(id, status) =>
      Complete(s, id, status).(replying := s.replying - {id}, waking := s.waking + {id})
    case WriteWake(id) => s.(waking := s.waking - {id})
    case AbortStart => s.(lock := Aborting(None), found := s.pending + s.inFlight, aborted := [])
    case AbortOne =>
      var id := (s.pending + s.inFlight)[0];
      Complete(s, id, EIO).(
        pending := if s.pending != [] then s.pending[1..] else [],
        inFlight := if s.pending != [] then s.inFlight else s.inFlight[1..],
        lock := Aborting(Some(id)), aborted := s.aborted + [id])
    case AbortWake => s.(lock := Aborting(None))
    case AbortEnd => s.(lock := Unlocked)
    case Return(id, late) => Freed(s, id, if s.completed[id] != 0 then s.completed[id] else late)
    case Interrupt(id) =>
      Freed(s, id, EINTR).(pending := Without(s.pending, id), inFlight := Without(s.inFlight, id),
                           dropped := s.dropped + {id})
  }

  function After(actions: seq<Action>): Option<State> {
    if actions == [] then Some(INITIAL)
    else
      var before := After(actions[..|actions| - 1]);
      var last := actions[|actions| - 1];
      if before.Some? && Enabled(before.value, last) then Some(Step(before.value, last)) else None
  }

  // ---- entries in use ----

  /** The daemon side will still touch the entry. */
  predicate InUse(s: State, id: nat) {
    id in s.reading || id in s.replying || id in s.waking || s.lock == Aborting(Some(id))
  }

  /** No entry is freed while it is in use. */
  ghost predicate Undisturbed(s: State) {
    forall id: nat :: id in s.returned ==> !InUse(s, id)
  }

  /** The step does not free an entry in use. */
  predicate SafeStep(s: State, a: Action) {
    a.Return? || a.Interrupt? ==> !InUse(s, a.id)
  }

  predicate SafeRun(actions: seq<Action>) {
    actions == [] ||
    (var prefix := actions[..|actions| - 1];
     SafeRun(prefix) && (After(prefix).Some? ==> SafeStep(After(prefix).value, actions[|actions| - 1])))
  }

  /** The step does not withdraw an entry that is being answered. */
  predicate Orderly(s: State, a: Action) {
    a.Interrupt? ==> a.id !in s.replying
  }

  predicate OrderlyRun(actions: seq<Action>) {
    actions == [] ||
    (var prefix := actions[..|actions| - 1];
     OrderlyRun(prefix) && (After(prefix).Some? ==> Orderly(After(prefix).value, actions[|actions| - 1])))
  }

  // ---- invariants ----

  function One(b: bool): nat {
    if b then 1 else 0
  }

  /** In how many stages of its life an entry is found. */
  function Places(s: State, id: nat): nat {
    One(id in s.prepared) + One(id in s.pending) + One(id in s.inFlight) +
    One(id in s.replying) + One(id in s.completed) + One(id in s.returned)
  }

  ghost predicate OneStage(s: State, id: nat) {
    Places(s, id) == One(2 <= id <= s.nextId)
  }

  /** When an entry joined the pending list, -1 if it never did. */
  function Rank(ranks: map<nat, nat>, id: nat): int {
    if id in ranks then ranks[id] else -1
  }

  /** Ranks increase along a list. */
  ghost predicate InOrder(ranks: map<nat, nat>, list: seq<nat>) {
    && (forall i :: 0 <= i < |list| ==> 0 <= Rank(ranks, list[i]))
    && (forall i, j :: 0 <= i < j < |list| ==> Rank(ranks, list[i]) < Rank(ranks, list[j]))
  }

  lemma SliceInOrder(ranks: map<nat, nat>, list: seq<nat>, lo: nat, hi: nat)
    requires InOrder(ranks, list) && lo <= hi <= |list|
    ensures InOrder(ranks, list[lo..hi])
  {
  }

  /** An entry has completed exactly if it awaits its thread or its thread has
      returned without withdrawing it, and then with the status on record. */
  ghost predicate CompletedOnce(s: State, id: nat) {
    && (id in s.completions <==> id in s.completed || (id in s.returned && id !in s.dropped))
    && (id in s.completions <==> id in s.outcome)
    && (id in s.completed ==> s.completed[id] == s.outcome[id])
    && (id in s.completions && id in s.returned && s.outcome[id] != 0 ==> s.returned[id] == s.outcome[id])
  }

  ghost predicate Stages(s: State) {
    (forall id: nat :: OneStage(s, id)) && s.nextId >= 1
  }

  ghost predicate Completions(s: State) {
    && NoDuplicates(s.completions)
    && (forall id: nat :: CompletedOnce(s, id))
    && (forall id :: id in s.dropped ==> id in s.returned)
  }

  ghost predicate Order(s: State) {
    && InOrder(s.enqueuedAt, s.readLog + s.pending)
    && InOrder(s.enqueuedAt, s.inFlight + s.pending)
    && forall id :: id in s.enqueuedAt ==> id <= s.nextId && id !in s.prepared && s.enqueuedAt[id] < s.enqueues
  }

  /** Entries in use have been read, and are complete if they are being woken. */
  ghost predicate UsersOf(s: State, id: nat) {
    && (id in s.reading ==> id in s.inFlight || id in s.replying || id in s.completed)
    && (id in s.waking || s.lock == Aborting(Some(id)) ==> id in s.completed)
  }

  ghost predicate Users(s: State) {
    forall id: nat :: UsersOf(s, id)
  }

  /** An abort under way has completed part of what it found, all with -EIO. */
  ghost predicate AbortUnderWay(s: State) {
    && (s.lock.Aborting? ==> s.found == s.aborted + s.pending + s.inFlight)
    && forall id :: id in s.aborted ==> id in s.outcome && s.outcome[id] == EIO
  }

  /** What holds as long as no entry is withdrawn while it is being answered. */
  ghost predicate Life(s: State) {
    Stages(s) && Completions(s) && Order(s) && AbortUnderWay(s)
  }

  ghost predicate Inv(s: State) {
    Life(s) && Users(s)
  }

  lemma OrderedLast(ranks: map<nat, nat>, list: seq<nat>, last: nat)
    requires InOrder(ranks, list + [last])
    ensures InOrder(ranks, list) && 0 <= Rank(ranks, last)
    ensures forall x :: x in list ==> Rank(ranks, x) < Rank(ranks, last)
  {
    var all := list + [last];
    assert all[|list|] == last && forall i :: 0 <= i < |list| ==> all[i] == list[i];
  }

  lemma OrderedAppend(ranks: map<nat, nat>, list: seq<nat>, last: nat)
    requires InOrder(ranks, list) && 0 <= Rank(ranks, last)
    requires forall x :: x in list ==> Rank(ranks, x) < Rank(ranks, last)
    ensures InOrder(ranks, list + [last])
  {
  }

  /** Dropping an entry keeps the ranks in order. */
  lemma {:induction false} DropKeepsOrder(ranks: map<nat, nat>, front: seq<nat>, list: seq<nat>, id: nat)
    requires InOrder(ranks, front + list)
    ensures InOrder(ranks, front + Without(list, id))
  {
    if list != [] {
      var rest, last := list[..|list| - 1], list[|list| - 1];
      assert front + list == (front + rest) + [last];
      OrderedLast(ranks, front + rest, last);
      DropKeepsOrder(ranks, front, rest, id);
      var kept := front + Without(rest, id);
      if last == id {
        assert front + Without(list, id) == kept;
      } else {
        assert forall x :: x in kept ==> x in front + rest;
        OrderedAppend(ranks, kept, last);
        assert front + Without(list, id) == kept + [last];
      }
    }
  }

  lemma {:induction false} WithoutConcat(a: seq<nat>, b: seq<nat>, id: nat)
    ensures Without(a + b, id) == Without(a, id) + Without(b, id)
    decreases |b|
  {
    if b == [] {
      assert a + b == a;
    } else {
      assert (a + b)[..|a + b| - 1] == a + b[..|b| - 1];
      WithoutConcat(a, b[..|b| - 1], id);
    }
  }

  /** Entries in rank order are distinct. */
  lemma DistinctHead(ranks: map<nat, nat>, front: seq<nat>, list: seq<nat>)
    requires InOrder(ranks, front + list) && list != []
    ensures list[0] !in list[1..]
  {
    forall i | 0 <= i < |list| - 1 ensures list[1..][i] != list[0] {
      assert (front + list)[|front|] == list[0] && (front + list)[|front| + 1 + i] == list[1..][i];
    }
  }

  lemma ReadKeepsStage(s: State, id: nat)
    requires Life(s) && Enabled(s, ReadTake)
    ensures OneStage(Step(s, ReadTake), id)
  {
    assert OneStage(s, id);
    DistinctHead(s.enqueuedAt, s.inFlight, s.pending);
    HeadGone(s.pending, id);
  }

  lemma TakeKeepsStage(s: State, a: Action, id: nat)
    requires Life(s) && Enabled(s, a) && a.WriteTake?
    ensures OneStage(Step(s, a), id)
  {
    assert OneStage(s, id);
    FlightIsOrdered(s);
    DistinctHead(s.enqueuedAt, [], s.inFlight);
    HeadGone(s.inFlight, id);
  }

  lemma FlightIsOrdered(s: State)
    requires Order(s)
    ensures InOrder(s.enqueuedAt, [] + s.inFlight)
  {
    var all := s.inFlight + s.pending;
    SliceInOrder(s.enqueuedAt, all, 0, |s.inFlight|);
    assert all[0..|s.inFlight|] == [] + s.inFlight;
  }

  /** Taking the first entry off a list of distinct ones. */
  lemma HeadGone(list: seq<nat>, id: nat)
    requires list != [] && list[0] !in list[1..]
    ensures id in list[1..] <==> id in list && id != list[0]
  {
    assert list == [list[0]] + list[1..];
  }

  lemma AbortKeepsStage(s: State, id: nat)
    requires Life(s) && Enabled(s, AbortOne)
    ensures OneStage(Step(s, AbortOne), id)
  {
    assert OneStage(s, id);
    if s.pending != [] {
      DistinctHead(s.enqueuedAt, s.inFlight, s.pending);
      HeadGone(s.pending, id);
    } else {
      FlightIsOrdered(s);
      DistinctHead(s.enqueuedAt, [], s.inFlight);
      HeadGone(s.inFlight, id);
    }
  }

  lemma OtherKeepsStage(s: State, a: Action, id: nat)
    requires Life(s) && Enabled(s, a) && Orderly(s, a) && !a.ReadTake? && !a.WriteTake? && !a.AbortOne?
    ensures OneStage(Step(s, a), id)
  {
    assert OneStage(s, id);
  }

  lemma StagesStep(s: State, a: Action)
    requires Life(s) && Enabled(s, a) && Orderly(s, a)
    ensures Stages(Step(s, a))
  {
    forall id: nat ensures OneStage(Step(s, a), id) {
      if a.ReadTake? {
        ReadKeepsStage(s, id);
      } else if a.WriteTake? {
        TakeKeepsStage(s, a, id);
      } else if a.AbortOne? {
        AbortKeepsStage(s, id);
      } else {
        OtherKeepsStage(s, a, id);
      }
    }
  }

  lemma QueuedIsNotDone(s: State, id: nat)
    requires Life(s) && (id in s.pending || id in s.inFlight || id in s.replying || id in s.prepared)
    ensures id !in s.completions && id !in s.outcome && id !in s.completed && id !in s.returned
  {
    assert OneStage(s, id) && CompletedOnce(s, id);
  }

  lemma CompletingKeeps(s: State, id: nat, status: int)
    requires Completions(s) && id !in s.completions && id !in s.returned
    ensures Completions(Complete(s, id, status))
  {
    var t := Complete(s, id, status);
    forall x: nat ensures CompletedOnce(t, x) {
      assert CompletedOnce(s, x);
    }
  }

  lemma FreeingKeeps(s: State, a: Action)
    requires Life(s) && Enabled(s, a) && (a.Return? || a.Interrupt? || a.Abandon?)
    ensures Completions(Step(s, a))
  {
    var t := Step(s, a);
    if !a.Return? {
      QueuedIsNotDone(s, a.id);
    }
    forall x: nat ensures CompletedOnce(t, x) {
      assert CompletedOnce(s, x) && OneStage(s, x);
    }
  }

  lemma CompletionsStep(s: State, a: Action)
    requires Life(s) && Enabled(s, a)
    ensures Completions(Step(s, a))
  {
    if a.WriteFinish? {
      QueuedIsNotDone(s, a.id);
      CompletingKeeps(s, a.id, a.status);
      SameCompletions(Complete(s, a.id, a.status), Step(s, a));
    } else if a.AbortOne? {
      var id := (s.pending + s.inFlight)[0];
      assert id in s.pending + s.inFlight;
      QueuedIsNotDone(s, id);
      CompletingKeeps(s, id, EIO);
      SameCompletions(Complete(s, id, EIO), Step(s, a));
    } else if a.Return? || a.Interrupt? || a.Abandon? {
      FreeingKeeps(s, a);
    } else {
      SameCompletions(s, Step(s, a));
    }
  }

  lemma SameCompletions(s: State, t: State)
    requires Completions(s) && t.completions == s.completions && t.outcome == s.outcome
    requires t.completed == s.completed && t.returned == s.returned && t.dropped == s.dropped
    ensures Completions(t)
  {
    forall x: nat ensures CompletedOnce(t, x) {
      assert CompletedOnce(s, x);
    }
  }

  lemma NewestIsLast(ranks: map<nat, nat>, list: seq<nat>, id: nat, rank: nat)
    requires InOrder(ranks, list) && id !in ranks && forall x :: x in ranks ==> ranks[x] < rank
    ensures InOrder(ranks[id := rank], list + [id])
  {
  }

  lemma EnqueueKeepsOrder(s: State, a: Action)
    requires Order(s) && a.Enqueue? && Enabled(s, a) && OneStage(s, a.id)
    ensures Order(Step(s, a))
  {
    var t := Step(s, a);
    NewestIsLast(s.enqueuedAt, s.readLog + s.pending, a.id, s.enqueues);
    NewestIsLast(s.enqueuedAt, s.inFlight + s.pending, a.id, s.enqueues);
    assert t.readLog + t.pending == (s.readLog + s.pending) + [a.id];
    assert t.inFlight + t.pending == (s.inFlight + s.pending) + [a.id];
  }

  lemma NoFront(list: seq<nat>)
    ensures [] + list == list
  {
  }

  lemma FlightWithout(ranks: map<nat, nat>, inFlight: seq<nat>, pending: seq<nat>, id: nat)
    requires InOrder(ranks, inFlight + pending)
    ensures InOrder(ranks, Without(inFlight, id) + Without(pending, id))
  {
    var all := inFlight + pending;
    NoFront(all);
    DropKeepsOrder(ranks, [], all, id);
    NoFront(Without(all, id));
    WithoutConcat(inFlight, pending, id);
  }

  lemma InterruptKeepsOrder(s: State, a: Action)
    requires Order(s) && a.Interrupt? && Enabled(s, a)
    ensures Order(Step(s, a))
  {
    DropKeepsOrder(s.enqueuedAt, s.readLog, s.pending, a.id);
    FlightWithout(s.enqueuedAt, s.inFlight, s.pending, a.id);
  }

  lemma ReadKeepsOrder(s: State)
    requires Order(s) && Enabled(s, ReadTake)
    ensures Order(Step(s, ReadTake))
  {
    var t := Step(s, ReadTake);
    assert t.readLog + t.pending == s.readLog + s.pending && t.inFlight + t.pending == s.inFlight + s.pending;
  }

  /** Taking the first entry off a list behind another keeps the ranks in order. */
  lemma HeadOff(ranks: map<nat, nat>, front: seq<nat>, list: seq<nat>)
    requires InOrder(ranks, front + list) && list != []
    ensures InOrder(ranks, front + list[1..])
  {
    var before, after := front + list, front + list[1..];
    assert forall i :: 0 <= i < |after| ==> after[i] == before[if i < |front| then i else i + 1];
  }

  lemma FlightHeadOff(s: State)
    requires Order(s) && s.inFlight != []
    ensures InOrder(s.enqueuedAt, s.inFlight[1..] + s.pending)
  {
    var all := s.inFlight + s.pending;
    SliceInOrder(s.enqueuedAt, all, 1, |all|);
    assert s.inFlight[1..] + s.pending == all[1..|all|];
  }

  lemma AbortKeepsOrder(s: State)
    requires Order(s) && Enabled(s, AbortOne)
    ensures Order(Step(s, AbortOne))
  {
    if s.pending != [] {
      HeadOff(s.enqueuedAt, s.readLog, s.pending);
      HeadOff(s.enqueuedAt, s.inFlight, s.pending);
    } else {
      FlightHeadOff(s);
    }
  }

  lemma OrderStep(s: State, a: Action)
    requires Life(s) && Enabled(s, a)
    ensures Order(Step(s, a))
  {
    match a
    case Enqueue(id) =>
      assert OneStage(s, id);
      EnqueueKeepsOrder(s, a);
    case ReadTake => ReadKeepsOrder(s);
    case WriteTake(_) => FlightHeadOff(s);
    case AbortOne => AbortKeepsOrder(s);
    case Interrupt(_) => InterruptKeepsOrder(s, a);
    case _ =>
  }

  lemma QueueMoveKeepsUser(s: State, a: Action, id: nat)
    requires Enabled(s, a) && (a.ReadTake? || a.WriteTake? || a.AbortOne?) && UsersOf(s, id) && OneStage(s, id)
    ensures UsersOf(Step(s, a), id)
  {
    if a.ReadTake? || (a.AbortOne? && s.pending != []) {
      assert s.pending == [s.pending[0]] + s.pending[1..];
    } else {
      assert s.inFlight == [s.inFlight[0]] + s.inFlight[1..];
    }
  }

  lemma OneUserStep(s: State, a: Action, id: nat)
    requires Enabled(s, a) && SafeStep(s, a) && UsersOf(s, id) && OneStage(s, id)
    ensures UsersOf(Step(s, a), id)
  {
    if a.ReadTake? || a.WriteTake? || a.AbortOne? {
      QueueMoveKeepsUser(s, a, id);
    }
  }

  lemma UsersStep(s: State, a: Action)
    requires Inv(s) && Enabled(s, a) && SafeStep(s, a)
    ensures Users(Step(s, a))
  {
    forall id: nat ensures UsersOf(Step(s, a), id) {
      assert UsersOf(s, id) && OneStage(s, id);
      OneUserStep(s, a, id);
    }
  }

  lemma HeadMoves(done: seq<nat>, list: seq<nat>, tail: seq<nat>)
    requires list != []
    ensures done + list + tail == (done + [list[0]]) + list[1..] + tail
  {
    assert list == [list[0]] + list[1..];
  }

  lemma FlightHeadMoves(done: seq<nat>, list: seq<nat>)
    requires list != []
    ensures done + [] + list == (done + [list[0]]) + [] + list[1..]
  {
    assert list == [list[0]] + list[1..];
    assert done + [] == done && (done + [list[0]]) + [] == done + [list[0]];
  }

  lemma FirstQueued(pending: seq<nat>, inFlight: seq<nat>)
    requires pending + inFlight != []
    ensures (pending + inFlight)[0] == if pending != [] then pending[0] else inFlight[0]
  {
  }

  lemma OneAborted(s: State)
    requires Enabled(s, AbortOne) && s.found == s.aborted + s.pending + s.inFlight
    ensures var t := Step(s, AbortOne); t.found == t.aborted + t.pending + t.inFlight
  {
    FirstQueued(s.pending, s.inFlight);
    if s.pending != [] {
      HeadMoves(s.aborted, s.pending, s.inFlight);
    } else {
      FlightHeadMoves(s.aborted, s.inFlight);
    }
  }

  lemma AbortStep(s: State, a: Action)
    requires Life(s) && Enabled(s, a)
    ensures AbortUnderWay(Step(s, a))
  {
    if a.AbortOne? {
      OneAborted(s);
    } else if a.WriteFinish? {
      QueuedIsNotDone(s, a.id);
    }
  }

  lemma StepKeepsLife(s: State, a: Action)
    requires Life(s) && Enabled(s, a) && Orderly(s, a)
    ensures Life(Step(s, a))
  {
    StagesStep(s, a);
    CompletionsStep(s, a);
    OrderStep(s, a);
    AbortStep(s, a);
  }

  lemma StepKeepsInv(s: State, a: Action)
    requires Inv(s) && Enabled(s, a) && SafeStep(s, a)
    ensures Inv(Step(s, a))
  {
    StepKeepsLife(s, a);
    UsersStep(s, a);
  }

  lemma {:induction false} RunKeepsLife(actions: seq<Action>)
    requires OrderlyRun(actions)
    ensures var r := After(actions); r.Some? ==> Life(r.value)
  {
    if actions != [] {
      var before := After(actions[..|actions| - 1]);
      var last := actions[|actions| - 1];
      RunKeepsLife(actions[..|actions| - 1]);
      if before.Some? && Enabled(before.value, last) {
        StepKeepsLife(before.value, last);
      }
    }
  }

  lemma {:induction false} RunKeepsInv(actions: seq<Action>)
    requires SafeRun(actions)
    ensures var r := After(actions); r.Some? ==> Inv(r.value)
  {
    if actions != [] {
      var before := After(actions[..|actions| - 1]);
      var last := actions[|actions| - 1];
      RunKeepsInv(actions[..|actions| - 1]);
      if before.Some? && Enabled(before.value, last) {
        StepKeepsInv(before.value, last);
      }
    }
  }

  /** A step leaves every entry in one stage of its life if and only if it does
      not withdraw an entry that is being answered. */
  lemma StagesStepIff(s: State, a: Action)
    requires Life(s) && Enabled(s, a)
    ensures Stages(Step(s, a)) <==> Orderly(s, a)
  {
    if Orderly(s, a) {
      StagesStep(s, a);
    } else {
      assert OneStage(s, a.id);
      assert !OneStage(Step(s, a), a.id);
    }
  }

  /** Every entry is in one stage of its life after every step of the run. */
  ghost predicate AlwaysStaged(actions: seq<Action>) {
    && (After(actions).Some? ==> Stages(After(actions).value))
    && (actions == [] || AlwaysStaged(actions[..|actions| - 1]))
  }

  /** In every run, whatever threads return early: each id handed out is in
      exactly one stage of its life throughout, if and only if no entry is
      withdrawn while it is being answered. */
  lemma {:induction false} OneStageIff(actions: seq<Action>)
    requires After(actions).Some?
    ensures OrderlyRun(actions) <==> AlwaysStaged(actions)
  {
    if actions != [] {
      var prefix, last := actions[..|actions| - 1], actions[|actions| - 1];
      OneStageIff(prefix);
      if OrderlyRun(prefix) {
        RunKeepsLife(prefix);
        StagesStepIff(After(prefix).value, last);
      }
    }
  }

  /** In particular, runs without signals are orderly. */
  lemma {:induction false} SignalFreeIsOrderly(actions: seq<Action>)
    requires forall i :: 0 <= i < |actions| ==> !actions[i].Interrupt?
    ensures OrderlyRun(actions)
  {
    if actions != [] {
      SignalFreeIsOrderly(actions[..|actions| - 1]);
    }
  }

  // ---- when an entry may be freed ----

  lemma InvIsUndisturbed(s: State)
    requires Inv(s)
    ensures Undisturbed(s)
  {
    forall id: nat | id in s.returned ensures !InUse(s, id) {
      assert OneStage(s, id) && UsersOf(s, id);
    }
  }

  /** A step disturbs the daemon side if and only if it frees an entry that is
      being read, answered or woken. */
  lemma StepIsSafeIff(s: State, a: Action)
    requires Inv(s) && Enabled(s, a)
    ensures Undisturbed(Step(s, a)) <==> SafeStep(s, a)
  {
    if SafeStep(s, a) {
      StepKeepsInv(s, a);
      InvIsUndisturbed(Step(s, a));
    } else {
      assert a.id in Step(s, a).returned && InUse(Step(s, a), a.id);
    }
  }

  ghost predicate AlwaysUndisturbed(actions: seq<Action>) {
    forall n :: 0 <= n <= |actions| ==>
      (After(actions[..n]).Some? ==> Undisturbed(After(actions[..n]).value))
  }

  lemma {:induction false} PrefixRuns(actions: seq<Action>, n: nat)
    requires After(actions).Some? && n <= |actions|
    ensures After(actions[..n]).Some?
    decreases |actions|
  {
    if n < |actions| {
      PrefixRuns(actions[..|actions| - 1], n);
      assert actions[..|actions| - 1][..n] == actions[..n];
    } else {
      assert actions[..n] == actions;
    }
  }

  /** In every run: no entry is ever freed while the daemon side still uses it if
      and only if no thread returned or was interrupted while its entry was
      being read, answered or woken. */
  lemma {:induction false} RunIsSafeIff(actions: seq<Action>)
    requires After(actions).Some?
    ensures SafeRun(actions) <==> AlwaysUndisturbed(actions)
  {
    assert actions[..|actions|] == actions;
    if actions == [] {
      assert forall n :: 0 <= n <= |actions| ==> actions[..n] == [];
    } else {
      var prefix, last := actions[..|actions| - 1], actions[|actions| - 1];
      RunIsSafeIff(prefix);
      assert forall n :: 0 <= n <= |prefix| ==> prefix[..n] == actions[..n];
      if SafeRun(prefix) {
        RunKeepsInv(prefix);
        StepIsSafeIff(After(prefix).value, last);
      }
    }
  }

  /** A safe run after which the given step is possible and unsafe. */
  ghost predicate Hazard(actions: seq<Action>, a: Action) {
    && SafeRun(actions) && After(actions).Some?
    && Enabled(After(actions).value, a) && !SafeStep(After(actions).value, a)
  }

  /** Running one step more. */
  lemma Runs(prefix: seq<Action>, a: Action)
    requires SafeRun(prefix) && After(prefix).Some?
    requires Enabled(After(prefix).value, a) && SafeStep(After(prefix).value, a)
    ensures SafeRun(prefix + [a]) && After(prefix + [a]) == Some(Step(After(prefix).value, a))
  {
    assert (prefix + [a])[..|prefix|] == prefix;
  }

  const ENQUEUED := [AllocId, Enqueue(2)]
  const READ := ENQUEUED + [ReadTake]

  lemma RunToEnqueued()
    ensures SafeRun(ENQUEUED) && After(ENQUEUED).Some?
    ensures After(ENQUEUED).value == INITIAL.(nextId := 2, pending := [2], enqueuedAt := map[2 := 0], enqueues := 1)
  {
    Runs([], AllocId);
    assert [] + [AllocId] == [AllocId];
    Runs([AllocId], Enqueue(2));
    assert ENQUEUED == [AllocId] + [Enqueue(2)];
  }

  lemma RunToRead()
    ensures SafeRun(READ) && After(READ).Some?
    ensures
      var s := After(READ).value;
      s.pending == [] && s.inFlight == [2] && s.reading == {2} && s.replying == {} && s.waking == {} && s.lock.Unlocked?
  {
    RunToEnqueued();
    Runs(ENQUEUED, ReadTake);
  }

  /** The daemon has taken the request and is copying it; its thread is
      interrupted. */
  lemma ReadWindow()
    ensures Hazard(READ, Interrupt(2))
  {
    RunToRead();
  }

  /** The same, and the queue is aborted meanwhile; the thread returns. */
  lemma ReadAbortWindow()
    ensures Hazard(READ + [AbortStart] + [AbortOne] + [AbortWake], Return(2, 0))
  {
    RunToRead();
    Runs(READ, AbortStart);
    Runs(READ + [AbortStart], AbortOne);
    Runs(READ + [AbortStart] + [AbortOne], AbortWake);
  }

  /** The daemon is answering; the thread is interrupted. */
  lemma ReplyWindow()
    ensures Hazard(READ + [ReadCopied(2)] + [WriteTake(2)], Interrupt(2))
  {
    RunToRead();
    Runs(READ, ReadCopied(2));
    Runs(READ + [ReadCopied(2)], WriteTake(2));
  }

  lemma RunToAborting()
    ensures SafeRun(ENQUEUED + [AbortStart]) && After(ENQUEUED + [AbortStart]).Some?
    ensures
      var s := After(ENQUEUED + [AbortStart]).value;
      s.pending == [2] && s.inFlight == [] && s.lock == Aborting(None)
  {
    RunToEnqueued();
    Runs(ENQUEUED, AbortStart);
  }

  /** The entry is complete and about to be woken; the thread, which need not
      have slept, returns. */
  lemma WakeWindow()
    ensures Hazard(ENQUEUED + [AbortStart] + [AbortOne], Return(2, 0))
  {
    RunToAborting();
    Runs(ENQUEUED + [AbortStart], AbortOne);
  }

  // ---- what every orderly run guarantees ----

  /** Every orderly run: each id handed out is in exactly one stage of its life, and
      no entry completes twice. */
  lemma {:induction false} EveryEntryLivesOnce(actions: seq<Action>, id: nat)
    requires OrderlyRun(actions)
    ensures
      var r := After(actions);
      r.Some? ==>
        var s := r.value;
        && Places(s, id) == One(2 <= id <= s.nextId)
        && NoDuplicates(s.completions)
        && (id in s.completions <==> id in s.completed || (id in s.returned && id !in s.dropped))
  {
    RunKeepsLife(actions);
    var r := After(actions);
    if r.Some? {
      assert OneStage(r.value, id) && CompletedOnce(r.value, id);
    }
  }

  /** Every orderly run: the daemon reads entries in the order in which they were
      enqueued, and the entry it may answer is the oldest it holds. */
  lemma {:induction false} ReadsFollowEnqueueOrder(actions: seq<Action>)
    requires OrderlyRun(actions)
    ensures
      var r := After(actions);
      r.Some? ==>
        var s := r.value;
        && InOrder(s.enqueuedAt, s.readLog)
        && InOrder(s.enqueuedAt, s.inFlight + s.pending)
  {
    RunKeepsLife(actions);
    var r := After(actions);
    if r.Some? {
      var logged := r.value.readLog + r.value.pending;
      SliceInOrder(r.value.enqueuedAt, logged, 0, |r.value.readLog|);
      assert logged[0..|r.value.readLog|] == r.value.readLog;
    }
  }

  lemma {:induction false} StagesAfter(actions: seq<Action>)
    requires OrderlyRun(actions)
    ensures After(actions).Some? ==> Stages(After(actions).value)
  {
    RunKeepsLife(actions);
  }

  lemma NextIsNowhere(s: State)
    requires Stages(s)
    ensures Places(s, s.nextId + 1) == 0
  {
    assert OneStage(s, s.nextId + 1);
  }

  /** Ids are never reused: the next one has never been in any stage. */
  lemma {:induction false} NextIdIsNew(actions: seq<Action>)
    requires OrderlyRun(actions)
    ensures var r := After(actions); r.Some? ==> Places(r.value, r.value.nextId + 1) == 0
  {
    StagesAfter(actions);
    if After(actions).Some? {
      NextIsNowhere(After(actions).value);
    }
  }

  /** Every orderly run: a thread whose request completed with an error returns that
      very error, however long it took to notice. */
  lemma {:induction false} ThreadsReturnTheirOutcome(actions: seq<Action>, id: nat)
    requires OrderlyRun(actions)
    ensures
      var r := After(actions);
      r.Some? && id in r.value.returned && id !in r.value.dropped ==>
        id in r.value.outcome && (r.value.outcome[id] != 0 ==> r.value.returned[id] == r.value.outcome[id])
  {
    RunKeepsLife(actions);
    var r := After(actions);
    if r.Some? {
      assert CompletedOnce(r.value, id);
    }
  }

  /** Every orderly run: the status of a completed entry never changes. */
  lemma {:induction false} StatusIsFinal(actions: seq<Action>, a: Action, id: nat)
    requires OrderlyRun(actions)
    requires var r := After(actions); r.Some? && id in r.value.outcome && Enabled(r.value, a)
    ensures
      var s := After(actions).value;
      id in Step(s, a).outcome && Step(s, a).outcome[id] == s.outcome[id]
  {
    RunKeepsLife(actions);
    var s := After(actions).value;
    assert CompletedOnce(s, id);
    if a.WriteFinish? {
      QueuedIsNotDone(s, a.id);
    } else if a.AbortOne? {
      var head := (s.pending + s.inFlight)[0];
      assert head in s.pending + s.inFlight;
      QueuedIsNotDone(s, head);
    }
  }

  /** A read of the entry has begun and has not finished copying. */
  predicate BeingRead(actions: seq<Action>, id: nat) {
    actions != [] &&
    var prefix, last := actions[..|actions| - 1], actions[|actions| - 1];
    if last == ReadCopied(id) then false
    else
      || BeingRead(prefix, id)
      || (last.ReadTake? && After(prefix).Some? && After(prefix).value.pending != [] && After(prefix).value.pending[0] == id)
  }

  /** A write has completed the entry and has not woken its thread yet. */
  predicate BeingWoken(actions: seq<Action>, id: nat) {
    actions != [] &&
    var prefix, last := actions[..|actions| - 1], actions[|actions| - 1];
    if last == WriteWake(id) then false
    else BeingWoken(prefix, id) || (last.WriteFinish? && last.id == id)
  }

  lemma MarksStep(s: State, a: Action, id: nat)
    requires Enabled(s, a)
    ensures id in Step(s, a).reading <==>
      a != ReadCopied(id) && (id in s.reading || (a.ReadTake? && s.pending[0] == id))
    ensures id in Step(s, a).waking <==>
      a != WriteWake(id) && (id in s.waking || (a.WriteFinish? && a.id == id))
  {
  }

  /** In every run the entries that the daemon side is copying or waking are exactly
      those with which it has begun and not finished. */
  lemma {:induction false} MarksAreExact(actions: seq<Action>, id: nat)
    requires After(actions).Some?
    ensures id in After(actions).value.reading <==> BeingRead(actions, id)
    ensures id in After(actions).value.waking <==> BeingWoken(actions, id)
  {
    if actions != [] {
      var prefix := actions[..|actions| - 1];
      MarksAreExact(prefix, id);
      MarksStep(After(prefix).value, actions[|actions| - 1], id);
    }
  }

  predicate AbortOwn(a: Action) {
    a.AbortOne? || a.AbortWake? || a.AbortEnd?
  }

  /** How many steps of its own an abort still takes. */
  function AbortLeft(s: State): nat {
    match s.lock
    case Unlocked => 0
    case Aborting(waking) => 2 * |s.pending + s.inFlight| + (if waking.Some? then 1 else 0) + 1
  }

  /** An abort under way has exactly one next step, and without one there is none. */
  lemma AbortGoesOn(s: State)
    ensures s.lock.Aborting? <==> exists a :: AbortOwn(a) && Enabled(s, a)
    ensures forall a, b :: AbortOwn(a) && AbortOwn(b) && Enabled(s, a) && Enabled(s, b) ==> a == b
  {
    if s.lock.Aborting? {
      var a := if s.lock.waking.Some? then AbortWake else if s.pending + s.inFlight != [] then AbortOne else AbortEnd;
      assert AbortOwn(a) && Enabled(s, a);
    }
  }

  /** It ends, unlocking the queue, after two steps for each entry queued and one
      more, and nobody can lengthen or shorten it. */
  lemma AbortCountsDown(s: State, a: Action)
    requires Enabled(s, a) && s.lock.Aborting?
    ensures AbortLeft(Step(s, a)) == AbortLeft(s) - if AbortOwn(a) then 1 else 0
    ensures Step(s, a).lock.Unlocked? <==> a.AbortEnd?
  {
  }

  /** The step completes the entry with the status: a write with its own, an abort
      the first entry queued with -EIO. */
  predicate Completes(s: State, a: Action, id: nat, status: int) {
    || a == WriteFinish(id, status)
    || (a == AbortOne && status == EIO && s.pending + s.inFlight != [] && (s.pending + s.inFlight)[0] == id)
  }

  /** Every orderly run: an entry's outcome is the status with which a step of the
      run completed it. */
  lemma {:induction false} OutcomeIsGiven(actions: seq<Action>, k: nat, id: nat, status: int)
    requires OrderlyRun(actions) && After(actions).Some? && k < |actions|
    requires After(actions[..k]).Some? && Completes(After(actions[..k]).value, actions[k], id, status)
    ensures id in After(actions).value.outcome && After(actions).value.outcome[id] == status
  {
    var prefix := actions[..|actions| - 1];
    if k < |actions| - 1 {
      assert prefix[..k] == actions[..k];
      OutcomeIsGiven(prefix, k, id, status);
      StatusIsFinal(prefix, actions[|actions| - 1], id);
    }
  }

  /** The step ends the request's call, with the value returned: that of a completed
      request is its status, or if that is zero whatever the copying back gives. */
  predicate Ends(s: State, a: Action, id: nat, ret: int) {
    || (a == Abandon(id) && ret == -12)
    || (a == Interrupt(id) && ret == -4)
    || (a.Return? && a.id == id && id in s.completed && ret == if s.completed[id] != 0 then s.completed[id] else a.late)
  }

  lemma ReturnedIsOver(s: State, a: Action, id: nat)
    requires Life(s) && Enabled(s, a) && id in s.returned
    ensures id in Step(s, a).returned && Step(s, a).returned[id] == s.returned[id]
  {
    assert OneStage(s, id);
  }

  lemma {:induction false} ReturnIsFinal(actions: seq<Action>, a: Action, id: nat)
    requires OrderlyRun(actions)
    requires var r := After(actions); r.Some? && id in r.value.returned && Enabled(r.value, a)
    ensures
      var s := After(actions).value;
      id in Step(s, a).returned && Step(s, a).returned[id] == s.returned[id]
  {
    RunKeepsLife(actions);
    ReturnedIsOver(After(actions).value, a, id);
  }

  lemma EndingReturns(s: State, a: Action, id: nat, ret: int)
    requires Enabled(s, a) && Ends(s, a, id, ret)
    ensures id in Step(s, a).returned && Step(s, a).returned[id] == ret
  {
  }

  /** Every orderly run: what a call returned is what the step that ended it gave. */
  lemma {:induction false} ReturnIsGiven(actions: seq<Action>, k: nat, id: nat, ret: int)
    requires OrderlyRun(actions) && After(actions).Some? && k < |actions|
    requires After(actions[..k]).Some? && Ends(After(actions[..k]).value, actions[k], id, ret)
    ensures id in After(actions).value.returned && After(actions).value.returned[id] == ret
  {
    var prefix := actions[..|actions| - 1];
    if k < |actions| - 1 {
      assert prefix[..k] == actions[..k];
      ReturnIsGiven(prefix, k, id, ret);
      ReturnIsFinal(prefix, actions[|actions| - 1], id);
    } else {
      EndingReturns(After(prefix).value, actions[k], id, ret);
    }
  }

  lemma LastStep(prefix: seq<Action>, a: Action)
    requires After(prefix + [a]).Some?
    ensures After(prefix).Some? && Enabled(After(prefix).value, a)
    ensures After(prefix + [a]).value == Step(After(prefix).value, a)
  {
    assert (prefix + [a])[..|prefix|] == prefix;
  }

  lemma FoundStays(s: State, a: Action)
    requires s.lock.Aborting? && Enabled(s, a) && !a.AbortEnd?
    ensures Step(s, a).lock.Aborting? && Step(s, a).found == s.found
  {
  }

  /** What an abort found stays on record while it is under way. */
  lemma {:induction false} FoundIsKept(pre: seq<Action>, mid: seq<Action>)
    requires After(pre).Some? && After(pre).value.lock.Unlocked?
    requires forall i :: 0 <= i < |mid| ==> !mid[i].AbortEnd?
    requires After(pre + [AbortStart] + mid).Some?
    ensures
      var s, t := After(pre).value, After(pre + [AbortStart] + mid).value;
      t.lock.Aborting? && t.found == s.pending + s.inFlight
  {
    var start := pre + [AbortStart];
    if mid == [] {
      assert start + mid == start;
      LastStep(pre, AbortStart);
    } else {
      var rest, last := mid[..|mid| - 1], mid[|mid| - 1];
      assert start + mid == (start + rest) + [last];
      LastStep(start + rest, last);
      FoundIsKept(pre, rest);
      FoundStays(After(start + rest).value, last);
    }
  }

  /** Every orderly run: by the end of an abort, whatever else happened meanwhile,
      exactly the entries it found queued have been completed by it, in order
      and each with -EIO, and both lists are empty. */
  lemma {:induction false} AbortCompletesQueued(pre: seq<Action>, mid: seq<Action>)
    requires After(pre).Some? && After(pre).value.lock.Unlocked?
    requires forall i :: 0 <= i < |mid| ==> !mid[i].AbortEnd?
    requires OrderlyRun(pre + [AbortStart] + mid) && After(pre + [AbortStart] + mid).Some?
    requires Enabled(After(pre + [AbortStart] + mid).value, AbortEnd)
    ensures
      var s, t := After(pre).value, After(pre + [AbortStart] + mid).value;
      && t.aborted == s.pending + s.inFlight && t.pending == [] && t.inFlight == []
      && forall id :: id in t.aborted ==> id in t.outcome && t.outcome[id] == EIO
  {
    FoundIsKept(pre, mid);
    RunKeepsLife(pre + [AbortStart] + mid);
  }
}
