/**
  The single-producer single-consumer message ring, step by step.

  `push` and `pop` are broken into their individual atomic loads, stores and
  slot accesses, and the two sides interleave freely.  Positions are 64-bit
  counters that wrap; a message is six 64-bit words that are copied one at a
  time, in any order, so a torn read would be visible.
*/
module RingProtocol {
  import opened Basics

  const RING_CAPACITY := 256
  const POSITION_MODULUS := 0x1_0000_0000_0000_0000
  const MESSAGE_WORDS := 6

  type Position = p: int | 0 <= p < POSITION_MODULUS
  type Message = m: seq<int> | |m| == MESSAGE_WORDS witness [0, 0, 0, 0, 0, 0]

  const BLANK: Message := [0, 0, 0, 0, 0, 0]

  type Buffer = b: seq<Message> | |b| == RING_CAPACITY witness seq<Message>(RING_CAPACITY, i => BLANK)

  /** Where the producer stands inside `push`.  `occupancy` and `seenRead` are
      history: the number of stored messages, and of pops so far, at the
      instant `read_pos` was loaded. */
  datatype Producer =
    | PushIdle
    | PushHasWrite(msg: Message, wp: Position)
    | PushHasBoth(msg: Message, wp: Position, rp: Position, seenRead: nat, occupancy: int)
    | PushCopying(msg: Message, wp: Position, copied: set<nat>)

  /** Where the consumer stands inside `pop` or `is_empty`. */
  datatype Consumer =
    | PopIdle
    | AskHasRead(rp: Position)
    | PopHasRead(rp: Position)
    | PopHasBoth(rp: Position, wp: Position, seenWrite: nat, occupancy: int)
    | PopCopying(rp: Position, got: map<nat, int>)

  /** The shared ring, both program counters, and the history of the run:
      the published and the returned messages, and for every "full" or "empty"
      answer of a push or pop, and every answer of `is_empty`, how many messages
      the ring held when the other side's position was loaded. */
  datatype State = State(
    writePos: Position,
    readPos: Position,
    buf: Buffer,
    producer: Producer,
    consumer: Consumer,
    pushed: seq<Message>,
    popped: seq<Message>,
    fullAnswers: seq<int>,
    emptyAnswers: seq<int>,
    askAnswers: seq<(bool, int)>)

  datatype Action =
    | PushLoadWrite(msg: Message)
    | PushLoadRead
    | PushCheck
    | PushCopy(word: nat)
    | PushPublish
    | PopLoadRead
    | PopLoadWrite
    | PopCheck
    | PopCopy(word: nat)
    | PopPublish
    | AskLoadRead
    | AskLoadWrite

  function Wrap(n: int): (p: Position) {
    n % POSITION_MODULUS
  }

  function Slot(p: Position): (i: nat)
    ensures i < RING_CAPACITY
  {
    p % RING_CAPACITY
  }

  predicate Full(wp: Position, rp: Position) {
    Wrap(wp - rp) >= RING_CAPACITY
  }

  const ALL_WORDS: set<nat> := {0, 1, 2, 3, 4, 5}

  function Initial(buf: Buffer): State {
    State(0, 0, buf, PushIdle, PopIdle, [], [], [], [], [])
  }

  predicate Enabled(s: State, a: Action) {
    match a
    case PushLoadWrite(_) => s.producer.PushIdle?
    case PushLoadRead => s.producer.PushHasWrite?
    case PushCheck => s.producer.PushHasBoth?
    case PushCopy(k) => s.producer.PushCopying? && k in ALL_WORDS && k !in s.producer.copied
    case PushPublish => s.producer.PushCopying? && s.producer.copied == ALL_WORDS
    case PopLoadRead => s.consumer.PopIdle?
    case PopLoadWrite => s.consumer.PopHasRead?
    case PopCheck => s.consumer.PopHasBoth?
    case PopCopy(k) => s.consumer.PopCopying? && k in ALL_WORDS && k !in s.consumer.got
    case PopPublish => s.consumer.PopCopying? && s.consumer.got.Keys == ALL_WORDS
    case AskLoadRead => s.consumer.PopIdle?
    case AskLoadWrite => s.consumer.AskHasRead?
  }

  function Step(s: State, a: Action): State
    requires Enabled(s, a)
  {
    match a
    case PushLoadWrite(m) =>
      s.(producer := PushHasWrite(m, s.writePos))
    case PushLoadRead =>
      s.(producer := PushHasBoth(s.producer.msg, s.producer.wp, s.readPos, |s.popped|, |s.pushed| - |s.popped|))
    case PushCheck =>
      if Full(s.producer.wp, s.producer.rp) then
        s.(producer := PushIdle, fullAnswers := s.fullAnswers + [s.producer.occupancy])
      else
        s.(producer := PushCopying(s.producer.msg, s.producer.wp, {}))
    case PushCopy(k) =>
      var i := Slot(s.producer.wp);
      s.(buf := s.buf[i := s.buf[i][k := s.producer.msg[k]]],
         producer := s.producer.(copied := s.producer.copied + {k}))
    case PushPublish =>
      s.(writePos := Wrap(s.producer.wp + 1), producer := PushIdle, pushed := s.pushed + [s.producer.msg])
    case PopLoadRead =>
      s.(consumer := PopHasRead(s.readPos))
    case PopLoadWrite =>
      s.(consumer := PopHasBoth(s.consumer.rp, s.writePos, |s.pushed|, |s.pushed| - |s.popped|))
    case PopCheck =>
      if s.consumer.rp == s.consumer.wp then
        s.(consumer := PopIdle, emptyAnswers := s.emptyAnswers + [s.consumer.occupancy])
      else
        s.(consumer := PopCopying(s.consumer.rp, map[]))
    case PopCopy(k) =>
      s.(consumer := s.consumer.(got := s.consumer.got[k := s.buf[Slot(s.consumer.rp)][k]]))
    case PopPublish =>
      var g := s.consumer.got;
      s.(readPos := Wrap(s.consumer.rp + 1), consumer := PopIdle,
         popped := s.popped + [[g[0], g[1], g[2], g[3], g[4], g[5]]])
    case AskLoadRead =>
      s.(consumer := AskHasRead(s.readPos))
    case AskLoadWrite =>
      s.(consumer := PopIdle,
         askAnswers := s.askAnswers + [(s.consumer.rp == s.writePos, |s.pushed| - |s.popped|)])
  }

  /** The state after a sequence of steps by either side, `None` when some step
      is not the next one of its side. */
  function After(start: State, actions: seq<Action>): Option<State> {
    if actions == [] then Some(start)
    else
      var last := |actions| - 1;
      var before := After(start, actions[..last]);
      if before.Some? && Enabled(before.value, actions[last])
      then Some(Step(before.value, actions[last]))
      else None
  }

  /** The slot a side is currently reading or writing, if any. */
  function ProducerSlot(s: State): Option<nat> {
    if s.producer.PushCopying? then Some(Slot(s.producer.wp)) else None
  }

  function ConsumerSlot(s: State): Option<nat> {
    if s.consumer.PopCopying? then Some(Slot(s.consumer.rp)) else None
  }

  // ---- the invariant ----

  ghost predicate ProducerInv(s: State) {
    var w, r := |s.pushed|, |s.popped|;
    match s.producer
    case PushIdle => true
    case PushHasWrite(_, wp) => wp == Wrap(w)
    case PushHasBoth(_, wp, rp, seen, occ) =>
      wp == Wrap(w) && rp == Wrap(seen) && seen <= r && w <= seen + RING_CAPACITY && occ == w - seen
    case PushCopying(m, wp, copied) =>
      && wp == Wrap(w) && w < r + RING_CAPACITY && copied <= ALL_WORDS
      && forall k :: k in copied ==> s.buf[w % RING_CAPACITY][k] == m[k]
  }

  ghost predicate ConsumerInv(s: State) {
    var w, r := |s.pushed|, |s.popped|;
    match s.consumer
    case PopIdle => true
    case AskHasRead(rp) => rp == Wrap(r)
    case PopHasRead(rp) => rp == Wrap(r)
    case PopHasBoth(rp, wp, seen, occ) =>
      rp == Wrap(r) && wp == Wrap(seen) && r <= seen <= w && seen <= r + RING_CAPACITY && occ == seen - r
    case PopCopying(rp, got) =>
      && rp == Wrap(r) && r < w && got.Keys <= ALL_WORDS
      && forall k :: k in got ==> got[k] == s.pushed[r][k]
  }

  ghost predicate Inv(s: State) {
    var w, r := |s.pushed|, |s.popped|;
    && r <= w <= r + RING_CAPACITY
    && s.popped == s.pushed[..r]
    && s.writePos == Wrap(w) && s.readPos == Wrap(r)
    && (forall i :: r <= i < w ==> s.buf[i % RING_CAPACITY] == s.pushed[i])
    && ProducerInv(s) && ConsumerInv(s)
    && (forall i :: 0 <= i < |s.fullAnswers| ==> s.fullAnswers[i] == RING_CAPACITY)
    && (forall i :: 0 <= i < |s.emptyAnswers| ==> s.emptyAnswers[i] == 0)
    && (forall i :: 0 <= i < |s.askAnswers| ==> (s.askAnswers[i].0 <==> s.askAnswers[i].1 == 0))
  }

  /** 64-bit subtraction of wrapped positions recovers the true distance. */
  lemma WrappedDistance(w: nat, r: nat)
    requires r <= w < r + POSITION_MODULUS
    ensures Wrap(Wrap(w) - Wrap(r)) == w - r
    ensures Wrap(w) == Wrap(r) <==> w == r
    ensures Wrap(Wrap(w) + 1) == Wrap(w + 1)
  {
  }

  lemma WrapOnce(d: int)
    requires -POSITION_MODULUS <= d < 2 * POSITION_MODULUS
    ensures Wrap(d) == if d < 0 then d + POSITION_MODULUS else if d < POSITION_MODULUS then d else d - POSITION_MODULUS
  {
  }

  lemma WrapAdd(a: int, i: int)
    ensures Wrap(Wrap(a) + i) == Wrap(a + i)
  {
  }

  lemma WrappedSlot(w: nat)
    ensures Slot(Wrap(w)) == w % RING_CAPACITY
  {
  }

  lemma DistinctSlots(i: nat, j: nat)
    requires i < j < i + RING_CAPACITY
    ensures i % RING_CAPACITY != j % RING_CAPACITY
  {
  }

  lemma PushLoadsKeepInv(s: State, a: Action)
    requires Inv(s) && Enabled(s, a)
    requires a.PushLoadWrite? || a.PushLoadRead? || a.PushCheck?
    ensures Inv(Step(s, a))
  {
    if a.PushCheck? {
      WrappedDistance(|s.pushed|, s.producer.seenRead);
    }
  }

  lemma PushCopyKeepsInv(s: State, a: Action)
    requires Inv(s) && Enabled(s, a) && a.PushCopy?
    ensures Inv(Step(s, a))
  {
    var w, r := |s.pushed|, |s.popped|;
    var slot := w % RING_CAPACITY;
    WrappedSlot(w);
    var t := Step(s, a);
    assert forall i :: 0 <= i < RING_CAPACITY && i != slot ==> t.buf[i] == s.buf[i];
    forall i | r <= i < w ensures t.buf[i % RING_CAPACITY] == s.pushed[i] {
      DistinctSlots(i, w);
    }
  }

  lemma PushPublishKeepsInv(s: State, a: Action)
    requires Inv(s) && Enabled(s, a) && a.PushPublish?
    ensures Inv(Step(s, a))
  {
    var w := |s.pushed|;
    var slot, m := s.buf[w % RING_CAPACITY], s.producer.msg;
    WrappedDistance(w, w);
    assert forall k :: k in ALL_WORDS ==> slot[k] == m[k];
    assert slot == m;
  }

  lemma PopLoadsKeepInv(s: State, a: Action)
    requires Inv(s) && Enabled(s, a)
    requires a.PopLoadRead? || a.PopLoadWrite? || a.PopCheck? || a.AskLoadRead? || a.AskLoadWrite?
    ensures Inv(Step(s, a))
  {
    if a.AskLoadWrite? {
      WrappedDistance(|s.pushed|, |s.popped|);
    } else if a.PopCheck? {
      WrappedDistance(s.consumer.seenWrite, |s.popped|);
    }
  }

  lemma PopCopyKeepsInv(s: State, a: Action)
    requires Inv(s) && Enabled(s, a) && a.PopCopy?
    ensures Inv(Step(s, a))
  {
    WrappedSlot(|s.popped|);
  }

  lemma PopPublishKeepsInv(s: State, a: Action)
    requires Inv(s) && Enabled(s, a) && a.PopPublish?
    ensures Inv(Step(s, a))
  {
    var r := |s.popped|;
    WrappedDistance(r, r);
    var g := s.consumer.got;
    assert forall k :: k in ALL_WORDS ==> g[k] == s.pushed[r][k];
    assert [g[0], g[1], g[2], g[3], g[4], g[5]] == s.pushed[r];
  }

  lemma StepKeepsInv(s: State, a: Action)
    requires Inv(s) && Enabled(s, a)
    ensures Inv(Step(s, a))
  {
    match a
    case PushLoadWrite(_) => PushLoadsKeepInv(s, a);
    case PushLoadRead => PushLoadsKeepInv(s, a);
    case PushCheck => PushLoadsKeepInv(s, a);
    case PushCopy(_) => PushCopyKeepsInv(s, a);
    case PushPublish => PushPublishKeepsInv(s, a);
    case PopCopy(_) => PopCopyKeepsInv(s, a);
    case PopPublish => PopPublishKeepsInv(s, a);
    case _ => PopLoadsKeepInv(s, a);
  }

  lemma {:induction false} RunKeepsInv(buf: Buffer, actions: seq<Action>)
    ensures var r := After(Initial(buf), actions); r.Some? ==> Inv(r.value)
  {
    if actions != [] {
      var last := |actions| - 1;
      var before := After(Initial(buf), actions[..last]);
      RunKeepsInv(buf, actions[..last]);
      if before.Some? && Enabled(before.value, actions[last]) {
        StepKeepsInv(before.value, actions[last]);
      }
    }
  }

  // ---- what every run guarantees ----

  /** Whatever the interleaving: what was popped is a prefix of what was
      pushed, word for word; between zero and 256 messages are stored; and the
      two sides never access the same slot at the same time. */
  lemma EveryRunIsFifo(buf: Buffer, actions: seq<Action>)
    ensures
      var r := After(Initial(buf), actions);
      r.Some? ==>
        && r.value.popped <= r.value.pushed
        && 0 <= |r.value.pushed| - |r.value.popped| <= RING_CAPACITY
        && Wrap(r.value.writePos - r.value.readPos) == |r.value.pushed| - |r.value.popped|
        && (ProducerSlot(r.value).Some? ==> ProducerSlot(r.value) != ConsumerSlot(r.value))
  {
    RunKeepsInv(buf, actions);
    var r := After(Initial(buf), actions);
    if r.Some? {
      var s := r.value;
      var w, d := |s.pushed|, |s.popped|;
      WrappedDistance(w, d);
      WrappedSlot(w);
      WrappedSlot(d);
      if s.producer.PushCopying? && s.consumer.PopCopying? {
        DistinctSlots(d, w);
      }
    }
  }

  /** A "full" or "empty" answer, and either answer of `is_empty`, is always true
      of the instant at which the other side's position was loaded, however
      stale it is by the time it is given. */
  lemma EveryAnswerWasTrue(buf: Buffer, actions: seq<Action>)
    ensures
      var r := After(Initial(buf), actions);
      r.Some? ==>
        && (forall i :: 0 <= i < |r.value.fullAnswers| ==> r.value.fullAnswers[i] == RING_CAPACITY)
        && (forall i :: 0 <= i < |r.value.emptyAnswers| ==> r.value.emptyAnswers[i] == 0)
        && (forall i :: 0 <= i < |r.value.askAnswers| ==> (r.value.askAnswers[i].0 <==> r.value.askAnswers[i].1 == 0))
  {
    RunKeepsInv(buf, actions);
  }

  // ---- the history is that of the calls ----

  /** The message of the latest call of `push`. */
  function LastOffered(actions: seq<Action>): Option<Message> {
    if actions == [] then None
    else
      var last := actions[|actions| - 1];
      if last.PushLoadWrite? then Some(last.msg) else LastOffered(actions[..|actions| - 1])
  }

  /** For every push that stored its position, the message it was called with. */
  function Finished(actions: seq<Action>): seq<Option<Message>> {
    if actions == [] then []
    else
      var before := actions[..|actions| - 1];
      if actions[|actions| - 1].PushPublish? then Finished(before) + [LastOffered(before)] else Finished(before)
  }

  /** How many of the steps are of the kind. */
  function Tally(actions: seq<Action>, kind: Kind): nat {
    if actions == [] then 0
    else Tally(actions[..|actions| - 1], kind) + if KindOf(actions[|actions| - 1]) == kind then 1 else 0
  }

  datatype Kind = PushCall | PushDone | PopCall | PopDone | AskCall | AskDone | Other

  function KindOf(a: Action): Kind {
    match a
    case PushLoadWrite(_) => PushCall
    case PushPublish => PushDone
    case PopLoadRead => PopCall
    case PopPublish => PopDone
    case AskLoadRead => AskCall
    case AskLoadWrite => AskDone
    case _ => Other
  }

  /** What was pushed, and which message is under way. */
  ghost predicate PushesAre(s: State, actions: seq<Action>) {
    && |s.pushed| == |Finished(actions)|
    && (forall i :: 0 <= i < |s.pushed| ==> Finished(actions)[i] == Some(s.pushed[i]))
    && (!s.producer.PushIdle? ==> LastOffered(actions) == Some(s.producer.msg))
  }

  ghost predicate CallsAddUp(s: State, actions: seq<Action>) {
    && Tally(actions, PushCall) == |s.pushed| + |s.fullAnswers| + (if s.producer.PushIdle? then 0 else 1)
    && Tally(actions, PopCall) + Tally(actions, AskCall) ==
         |s.popped| + |s.emptyAnswers| + |s.askAnswers| + (if s.consumer.PopIdle? then 0 else 1)
    && Tally(actions, PushDone) == |s.pushed|
    && Tally(actions, PopDone) == |s.popped|
    && Tally(actions, AskDone) == |s.askAnswers|
    && Tally(actions, AskCall) == |s.askAnswers| + (if s.consumer.AskHasRead? then 1 else 0)
  }

  lemma StepKeepsHistory(s: State, before: seq<Action>, a: Action)
    requires PushesAre(s, before) && CallsAddUp(s, before) && Enabled(s, a)
    ensures PushesAre(Step(s, a), before + [a]) && CallsAddUp(Step(s, a), before + [a])
  {
    assert (before + [a])[..|before|] == before;
  }

  /** In every run: the messages pushed are, in order, those with which the
      finished pushes were called; every call of `push` is finished, was
      answered "full", or is the one under way; and every call of `pop` or
      `is_empty` likewise. */
  lemma {:induction false} HistoryIsOfTheCalls(buf: Buffer, actions: seq<Action>)
    ensures var r := After(Initial(buf), actions); r.Some? ==> PushesAre(r.value, actions) && CallsAddUp(r.value, actions)
  {
    if actions != [] {
      var last := |actions| - 1;
      var before := After(Initial(buf), actions[..last]);
      HistoryIsOfTheCalls(buf, actions[..last]);
      if before.Some? && Enabled(before.value, actions[last]) {
        StepKeepsHistory(before.value, actions[..last], actions[last]);
        assert actions == actions[..last] + [actions[last]];
      }
    }
  }

  // ---- nobody waits for anybody ----

  predicate ProducerStep(a: Action) {
    a.PushLoadWrite? || a.PushLoadRead? || a.PushCheck? || a.PushCopy? || a.PushPublish?
  }

  /** How many steps a call can still take. */
  function PushLeft(p: Producer): int {
    match p
    case PushIdle => 0
    case PushHasWrite(_, _) => 9
    case PushHasBoth(_, _, _, _, _) => 8
    case PushCopying(_, _, copied) => 7 - |copied|
  }

  function PopLeft(c: Consumer): int {
    match c
    case PopIdle => 0
    case AskHasRead(_) => 1
    case PopHasRead(_) => 9
    case PopHasBoth(_, _, _, _) => 8
    case PopCopying(_, got) => 7 - |got.Keys|
  }

  lemma WordMissing(done: set<nat>) returns (k: nat)
    requires done <= ALL_WORDS
    ensures 0 <= |done| <= 6
    ensures done != ALL_WORDS ==> k in ALL_WORDS && k !in done && |done| < 6
  {
    k := 0;
    assert ALL_WORDS == done + (ALL_WORDS - done);
    if done != ALL_WORDS {
      k :| k in ALL_WORDS - done;
      assert |ALL_WORDS - done| > 0;
    }
  }

  /** A producer inside a call always has a next step. */
  lemma ProducerGoesOn(s: State) returns (a: Action)
    requires Inv(s) && !s.producer.PushIdle?
    ensures ProducerStep(a) && Enabled(s, a)
  {
    match s.producer
    case PushHasWrite(_, _) => a := PushLoadRead;
    case PushHasBoth(_, _, _, _, _) => a := PushCheck;
    case PushCopying(_, _, copied) =>
      var k := WordMissing(copied);
      a := if copied == ALL_WORDS then PushPublish else PushCopy(k);
  }

  /** And so has a consumer. */
  lemma ConsumerGoesOn(s: State) returns (a: Action)
    requires Inv(s) && !s.consumer.PopIdle?
    ensures !ProducerStep(a) && Enabled(s, a)
  {
    match s.consumer
    case AskHasRead(_) => a := AskLoadWrite;
    case PopHasRead(_) => a := PopLoadWrite;
    case PopHasBoth(_, _, _, _) => a := PopCheck;
    case PopCopying(_, got) =>
      var k := WordMissing(got.Keys);
      a := if got.Keys == ALL_WORDS then PopPublish else PopCopy(k);
  }

  /** Both operations are wait-free: a call takes at most ten steps of its own,
      whatever the other side does meanwhile. */
  lemma CallsAreWaitFree(s: State, a: Action)
    requires Inv(s) && Enabled(s, a)
    ensures 0 <= PushLeft(s.producer) <= 9 && 0 <= PopLeft(s.consumer) <= 9
    ensures ProducerStep(a) && !a.PushLoadWrite? ==> PushLeft(Step(s, a).producer) < PushLeft(s.producer)
    ensures !ProducerStep(a) && !a.PopLoadRead? && !a.AskLoadRead? ==> PopLeft(Step(s, a).consumer) < PopLeft(s.consumer)
    ensures !ProducerStep(a) ==> Step(s, a).producer == s.producer
    ensures ProducerStep(a) ==> Step(s, a).consumer == s.consumer
  {
    if s.producer.PushCopying? {
      var _ := WordMissing(s.producer.copied);
    }
    if s.consumer.PopCopying? {
      var _ := WordMissing(s.consumer.got.Keys);
      if a.PopCopy? {
        assert Step(s, a).consumer.got.Keys == s.consumer.got.Keys + {a.word};
      }
    }
  }
}
