/**
  Cross-process SendMessage tracking with adaptive routing.  Pending envelopes
  are kept per receiver and released last in, first out; each message code has
  a profile of its replies that decides whether sends of that code are tracked
  at all.
*/
module SentMessages {
  import opened Basics
  import opened Bytes

  const MIN_OBSERVATIONS: nat := 8
  const PROMOTE_THRESHOLD: real := 0.90

  datatype Pending = Pending(senderTid: U32, receiverTid: U32, msgCode: U32, win: U32,
                             wparam: U64, lparam: U64, msgType: int)

  datatype Profile = Profile(fastVotes: nat, trackedVotes: nat, observations: nat, promoted: bool)

  const NEW_PROFILE := Profile(0, 0, 0, false)

  function Confidence(p: Profile): real {
    if p.observations < MIN_OBSERVATIONS then 0.0
    else p.fastVotes as real / p.observations as real
  }

  function CheckPromote(p: Profile): Profile {
    if !p.promoted && Confidence(p) >= PROMOTE_THRESHOLD then p.(promoted := true) else p
  }

  function Demote(p: Profile): Profile {
    if p.promoted then p.(promoted := false, fastVotes := 0) else p
  }

  /** One reply, zero or not, to a message of this code. */
  function Observed(p: Profile, zero: bool): Profile {
    var q := p.(observations := p.observations + 1);
    if zero then CheckPromote(q.(fastVotes := q.fastVotes + 1))
    else Demote(q.(trackedVotes := q.trackedVotes + 1))
  }

  function ObservedAll(p: Profile, zeros: seq<bool>): Profile {
    if zeros == [] then p else Observed(ObservedAll(p, zeros[..|zeros| - 1]), zeros[|zeros| - 1])
  }

  // ---- the promotion rule ----

  /** At least eight replies, at least nine in ten of them zero. */
  predicate Qualifies(p: Profile) {
    p.observations >= MIN_OBSERVATIONS && 10 * p.fastVotes >= 9 * p.observations
  }

  /** The quotient test of the code is the exact nine-in-ten rule. */
  lemma ConfidenceIsNineInTen(p: Profile)
    ensures Confidence(p) >= PROMOTE_THRESHOLD <==> Qualifies(p)
  {
    if p.observations >= MIN_OBSERVATIONS {
      QuotientAtLeast(p.fastVotes as real, p.observations as real);
    }
  }

  lemma QuotientAtLeast(f: real, o: real)
    requires o > 0.0
    ensures f / o >= PROMOTE_THRESHOLD <==> 10.0 * f >= 9.0 * o
  {
    var q := f / o;
    assert q * o == f;
    if q >= PROMOTE_THRESHOLD {
      assert (q - PROMOTE_THRESHOLD) * o >= 0.0;
    } else {
      assert (PROMOTE_THRESHOLD - q) * o > 0.0;
    }
  }

  /** A safe bound, 2^-53, on the rounding error of binary64 numbers up to one;
      below one half a unit in the last place is at most 2^-54. */
  const ROUNDING_ERROR: real := 1.0 / 9007199254740992.0

  /** What rounding to the nearest binary64 number does: it keeps the order,
      and between zero and one it is off by no more than the bound. */
  ghost predicate IsRounding(round: real -> real) {
    && (forall x, y :: x <= y ==> round(x) <= round(y))
    && (forall x :: 0.0 <= x <= 1.0 ==> x - ROUNDING_ERROR <= round(x) <= x + ROUNDING_ERROR)
  }

  lemma NonNegative(x: real, y: real)
    requires x >= 0.0 && y >= 0.0
    ensures x * y >= 0.0
  {
  }

  lemma SmallFactor(a: real, d: real, r: real, bound: real)
    requires a <= d && 0.0 < d && 0.0 < r < bound
    ensures a * r <= d * bound
  {
    NonNegative(d - a, r);
    NonNegative(d, bound - r);
    assert (d - a) * r == d * r - a * r;
    assert d * (bound - r) == d * bound - d * r;
  }

  /** Below the threshold, a quotient of 32-bit counts is too far below it for
      rounding to close the gap. */
  lemma GapBelowThreshold(f: nat, o: nat)
    requires 0 < o < U32_LIMIT && 10 * f < 9 * o
    ensures 0.0 <= f as real / o as real < PROMOTE_THRESHOLD - 2.0 * ROUNDING_ERROR
  {
    var q, r := f as real / o as real, o as real;
    var gap := PROMOTE_THRESHOLD - q;
    assert q * r == f as real;
    assert gap * r == PROMOTE_THRESHOLD * r - f as real;
    if gap <= 2.0 * ROUNDING_ERROR {
      SmallFactor(gap, 2.0 * ROUNDING_ERROR, r, U32_LIMIT as real);
      assert false;
    }
  }

  /** The code's test, in floating point with a rounded quotient and a rounded
      threshold, is still the exact rule for every pair of 32-bit counts. */
  lemma RoundingKeepsTheRule(p: Profile, round: real -> real)
    requires IsRounding(round) && p.observations < U32_LIMIT
    ensures p.observations >= MIN_OBSERVATIONS ==>
      (round(p.fastVotes as real / p.observations as real) >= round(PROMOTE_THRESHOLD) <==> Qualifies(p))
  {
    if p.observations >= MIN_OBSERVATIONS {
      QuotientAtLeast(p.fastVotes as real, p.observations as real);
      if !Qualifies(p) {
        GapBelowThreshold(p.fastVotes, p.observations);
        var q := p.fastVotes as real / p.observations as real;
        assert round(q) <= q + ROUNDING_ERROR && PROMOTE_THRESHOLD - ROUNDING_ERROR <= round(PROMOTE_THRESHOLD);
      }
    }
  }

  /** What every reachable profile satisfies: the flag is exactly the rule, and
      votes are lost only to a demotion. */
  ghost predicate Sound(p: Profile) {
    && (p.promoted <==> Qualifies(p))
    && p.fastVotes + p.trackedVotes <= p.observations
    && (p.trackedVotes == 0 ==> p.fastVotes == p.observations)
  }

  lemma ObservedStaysSound(p: Profile, zero: bool)
    requires Sound(p)
    ensures Sound(Observed(p, zero))
  {
    var q := p.(observations := p.observations + 1);
    if zero {
      ConfidenceIsNineInTen(q.(fastVotes := q.fastVotes + 1));
    }
  }

  /** Over every history of replies the flag is exactly the rule. */
  lemma {:induction false} PromotedIffQualifies(zeros: seq<bool>)
    ensures Sound(ObservedAll(NEW_PROFILE, zeros))
    ensures ObservedAll(NEW_PROFILE, zeros).observations == |zeros|
  {
    if zeros != [] {
      PromotedIffQualifies(zeros[..|zeros| - 1]);
      ObservedStaysSound(ObservedAll(NEW_PROFILE, zeros[..|zeros| - 1]), zeros[|zeros| - 1]);
    }
  }

  function Count(zeros: seq<bool>, b: bool): nat {
    if zeros == [] then 0
    else Count(zeros[..|zeros| - 1], b) + if zeros[|zeros| - 1] == b then 1 else 0
  }

  /** Nothing between start and the last reply promotes the profile. */
  ghost predicate NotYetPromoted(p: Profile, zeros: seq<bool>) {
    forall k :: 0 <= k < |zeros| ==> !ObservedAll(p, zeros[..k]).promoted
  }

  lemma {:induction false} VotesWhileUnpromoted(p: Profile, zeros: seq<bool>)
    requires NotYetPromoted(p, zeros)
    ensures
      var q := ObservedAll(p, zeros);
      && q.fastVotes == p.fastVotes + Count(zeros, true)
      && q.observations == p.observations + Count(zeros, true) + Count(zeros, false)
  {
    if zeros != [] {
      var before := zeros[..|zeros| - 1];
      assert forall k :: 0 <= k < |before| ==> before[..k] == zeros[..k];
      VotesWhileUnpromoted(p, before);
    }
  }

  /** One nonzero reply to a promoted code at `n` observations: the next promotion
      costs nine zero replies for each of those, for that reply and for every
      nonzero reply since. */
  lemma RepromotionCost(q: Profile, zeros: seq<bool>)
    requires Sound(q) && q.promoted
    requires
      var p := Observed(q, false);
      NotYetPromoted(p, zeros) && ObservedAll(p, zeros).promoted
    ensures Count(zeros, true) >= 9 * (q.observations + 1 + Count(zeros, false))
  {
    var p := Observed(q, false);
    ObservedStaysSound(q, false);
    VotesWhileUnpromoted(p, zeros);
    ObservedAllStaysSound(p, zeros);
  }

  lemma {:induction false} ObservedAllStaysSound(p: Profile, zeros: seq<bool>)
    requires Sound(p)
    ensures Sound(ObservedAll(p, zeros))
  {
    if zeros != [] {
      ObservedAllStaysSound(p, zeros[..|zeros| - 1]);
      ObservedStaysSound(ObservedAll(p, zeros[..|zeros| - 1]), zeros[|zeros| - 1]);
    }
  }

  lemma {:induction false} OnlyZeros(p: Profile, k: nat)
    ensures
      var q := ObservedAll(p, seq(k, i => true));
      q.fastVotes == p.fastVotes + k && q.observations == p.observations + k
  {
    if k > 0 {
      OnlyZeros(p, k - 1);
      assert seq(k, i => true)[..k - 1] == seq(k - 1, i => true);
    }
  }

  /** Without further nonzero replies, that many zero replies are enough, and
      fewer are not. */
  lemma RepromotionIsExact(q: Profile, k: nat)
    requires Sound(q) && q.promoted
    ensures ObservedAll(Observed(q, false), seq(k, i => true)).promoted <==> k >= 9 * (q.observations + 1)
  {
    var p := Observed(q, false);
    ObservedStaysSound(q, false);
    OnlyZeros(p, k);
    ObservedAllStaysSound(p, seq(k, i => true));
  }

  /** Reply `k` was nonzero and came to a promoted code. */
  predicate Demotion(zeros: seq<bool>, k: nat)
    requires k < |zeros|
  {
    !zeros[k] && ObservedAll(NEW_PROFILE, zeros[..k]).promoted
  }

  /** The history splits at its last demotion, if it has one. */
  predicate LastDemotion(zeros: seq<bool>, from: nat) {
    && from <= |zeros| && (from > 0 ==> Demotion(zeros, from - 1))
    && forall k :: from <= k < |zeros| ==> !Demotion(zeros, k)
  }

  lemma CountOneMore(zeros: seq<bool>, from: nat, b: bool)
    requires from < |zeros|
    ensures Count(zeros[from..], b) == Count(zeros[..|zeros| - 1][from..], b) + if zeros[|zeros| - 1] == b then 1 else 0
  {
    assert zeros[from..][..|zeros| - from - 1] == zeros[..|zeros| - 1][from..];
  }

  lemma SameDemotions(zeros: seq<bool>)
    requires zeros != []
    ensures
      var before := zeros[..|zeros| - 1];
      forall k :: 0 <= k < |before| ==> Demotion(before, k) == Demotion(zeros, k)
  {
    var before := zeros[..|zeros| - 1];
    forall k | 0 <= k < |before| ensures Demotion(before, k) == Demotion(zeros, k) {
      assert before[..k] == zeros[..k];
    }
  }

  lemma {:induction false} SomeLastDemotion(zeros: seq<bool>) returns (from: nat)
    ensures LastDemotion(zeros, from)
  {
    if zeros == [] {
      from := 0;
    } else {
      SameDemotions(zeros);
      if Demotion(zeros, |zeros| - 1) {
        from := |zeros|;
      } else {
        from := SomeLastDemotion(zeros[..|zeros| - 1]);
      }
    }
  }

  lemma {:induction false} VotesSinceDemotion(zeros: seq<bool>, from: nat)
    requires LastDemotion(zeros, from)
    ensures
      var p := ObservedAll(NEW_PROFILE, zeros);
      p.fastVotes == Count(zeros[from..], true) && p.trackedVotes == Count(zeros, false)
  {
    if zeros != [] {
      var before := zeros[..|zeros| - 1];
      SameDemotions(zeros);
      if from < |zeros| {
        VotesSinceDemotion(before, from);
        CountOneMore(zeros, from, true);
        assert !Demotion(zeros, |before|);
      } else {
        var earlier := SomeLastDemotion(before);
        VotesSinceDemotion(before, earlier);
        assert zeros[from..] == [];
      }
    }
  }

  /** Over every history of replies: the votes are the zero replies since the last
      demotion and all nonzero replies; and the code is promoted if and only if
      there were eight replies and nine in ten of all were zero and came since
      the last demotion. */
  lemma VotesAreReplies(zeros: seq<bool>, from: nat)
    requires LastDemotion(zeros, from)
    ensures
      var p := ObservedAll(NEW_PROFILE, zeros);
      && p.fastVotes == Count(zeros[from..], true)
      && p.trackedVotes == Count(zeros, false)
      && p.observations == |zeros|
      && (p.promoted <==> |zeros| >= 8 && 10 * Count(zeros[from..], true) >= 9 * |zeros|)
  {
    PromotedIffQualifies(zeros);
    VotesSinceDemotion(zeros, from);
  }

  // ---- the tracker ----

  datatype Tracker = Tracker(pending: map<U32, seq<Pending>>, profiles: map<U32, Profile>)

  function Stack(t: Tracker, receiver: U32): seq<Pending> {
    if receiver in t.pending then t.pending[receiver] else []
  }

  function ProfileOf(profiles: map<U32, Profile>, code: U32): Profile {
    if code in profiles then profiles[code] else NEW_PROFILE
  }

  function Track(t: Tracker, m: Pending): Tracker {
    t.(pending := t.pending[m.receiverTid := Stack(t, m.receiverTid) + [m]])
  }

  function Peek(t: Tracker, receiver: U32): Option<Pending> {
    var s := Stack(t, receiver);
    if s == [] then None else Some(s[|s| - 1])
  }

  function DrainOne(t: Tracker, receiver: U32): (Tracker, Option<Pending>) {
    var s := Stack(t, receiver);
    if s == [] then (t, None)
    else
      var rest := s[..|s| - 1];
      (t.(pending := if rest == [] then t.pending - {receiver} else t.pending[receiver := rest]),
       Some(s[|s| - 1]))
  }

  function ObserveReply(t: Tracker, code: U32, result: U64): Tracker {
    t.(profiles := t.profiles[code := Observed(ProfileOf(t.profiles, code), result == 0)])
  }

  /** A receiver that disconnects counts as a zero reply to each envelope. */
  function ObserveZeros(profiles: map<U32, Profile>, ms: seq<Pending>): map<U32, Profile> {
    if ms == [] then profiles
    else
      var before := ObserveZeros(profiles, ms[..|ms| - 1]);
      var code := ms[|ms| - 1].msgCode;
      before[code := Observed(ProfileOf(before, code), true)]
  }

  function DrainAll(t: Tracker, receiver: U32): (Tracker, seq<Pending>) {
    var s := Stack(t, receiver);
    (Tracker(t.pending - {receiver}, ObserveZeros(t.profiles, s)), s)
  }

  datatype Event =
    | Sent(msg: Pending)
    | Replied(receiver: U32, result: U64)
    | Disconnected(receiver: U32)
    | Loaded(profiles: map<U32, Profile>)

  /** The tracker with the full record of envelopes taken in and released. */
  datatype History = History(tracker: Tracker, tracked: seq<Pending>, released: seq<Pending>)

  function Happens(h: History, e: Event): History {
    match e
    case Sent(m) => History(Track(h.tracker, m), h.tracked + [m], h.released)
    case Replied(receiver, result) =>
      var (t, m) := DrainOne(h.tracker, receiver);
      if m.None? then h
      else History(ObserveReply(t, m.value.msgCode, result), h.tracked, h.released + [m.value])
    case Disconnected(receiver) =>
      var (t, ms) := DrainAll(h.tracker, receiver);
      History(t, h.tracked, h.released + ms)
    case Loaded(profiles) =>
      h.(tracker := h.tracker.(profiles := h.tracker.profiles + profiles))
  }

  function Run(events: seq<Event>): History {
    if events == [] then History(Tracker(map[], map[]), [], [])
    else Happens(Run(events[..|events| - 1]), events[|events| - 1])
  }

  /** Loaded profiles are snapshots of sound ones. */
  ghost predicate SoundLoads(events: seq<Event>) {
    forall i :: 0 <= i < |events| && events[i].Loaded? ==> SoundProfiles(events[i].profiles)
  }

  /** Profiles are sound, and exist only once something was observed. */
  ghost predicate SoundProfiles(profiles: map<U32, Profile>) {
    forall c :: c in profiles ==> Sound(profiles[c]) && profiles[c].observations >= 1
  }

  /** Stacks hold their own receiver's envelopes and are never empty. */
  ghost predicate WellStacked(t: Tracker) {
    forall r :: r in t.pending ==>
      t.pending[r] != [] && forall i :: 0 <= i < |t.pending[r]| ==> t.pending[r][i].receiverTid == r
  }

  /** An envelope is on the books as often as it is released or pending. */
  ghost predicate Balanced(h: History, m: Pending) {
    multiset(h.tracked)[m] == multiset(h.released)[m] + multiset(Stack(h.tracker, m.receiverTid))[m]
  }

  lemma {:induction false} ObserveZerosStaysSound(profiles: map<U32, Profile>, ms: seq<Pending>)
    requires SoundProfiles(profiles)
    ensures SoundProfiles(ObserveZeros(profiles, ms))
  {
    if ms != [] {
      var before := ObserveZeros(profiles, ms[..|ms| - 1]);
      ObserveZerosStaysSound(profiles, ms[..|ms| - 1]);
      ObservedStaysSound(ProfileOf(before, ms[|ms| - 1].msgCode), true);
    }
  }

  lemma HappensStaysSound(h: History, e: Event)
    requires WellStacked(h.tracker) && SoundProfiles(h.tracker.profiles)
    requires e.Loaded? ==> SoundProfiles(e.profiles)
    ensures WellStacked(Happens(h, e).tracker) && SoundProfiles(Happens(h, e).tracker.profiles)
  {
    match e
    case Sent(_) =>
    case Replied(receiver, result) =>
      var m := DrainOne(h.tracker, receiver).1;
      if m.Some? {
        ObservedStaysSound(ProfileOf(h.tracker.profiles, m.value.msgCode), result == 0);
      }
    case Disconnected(receiver) =>
      ObserveZerosStaysSound(h.tracker.profiles, Stack(h.tracker, receiver));
    case Loaded(_) =>
  }

  lemma ReplyStaysBalanced(h: History, receiver: U32, result: U64, m: Pending)
    requires WellStacked(h.tracker) && Balanced(h, m)
    ensures Balanced(Happens(h, Replied(receiver, result)), m)
  {
    var s := Stack(h.tracker, receiver);
    if s != [] {
      assert s == s[..|s| - 1] + [s[|s| - 1]];
    }
  }

  lemma DisconnectStaysBalanced(h: History, receiver: U32, m: Pending)
    requires WellStacked(h.tracker) && Balanced(h, m)
    ensures Balanced(Happens(h, Disconnected(receiver)), m)
  {
  }

  lemma HappensStaysBalanced(h: History, e: Event, m: Pending)
    requires WellStacked(h.tracker) && Balanced(h, m)
    ensures Balanced(Happens(h, e), m)
  {
    match e
    case Sent(_) =>
    case Replied(receiver, result) => ReplyStaysBalanced(h, receiver, result, m);
    case Disconnected(receiver) => DisconnectStaysBalanced(h, receiver, m);
    case Loaded(_) =>
  }

  /** Every run: the promotion flag is exactly the rule for every code; no
      empty stack is kept; and every envelope taken in is released exactly
      once or still pending on its receiver. */
  lemma {:induction false} EveryRunReleasesOnce(events: seq<Event>)
    requires SoundLoads(events)
    ensures WellStacked(Run(events).tracker) && SoundProfiles(Run(events).tracker.profiles)
    ensures forall m :: Balanced(Run(events), m)
  {
    if events != [] {
      var last := |events| - 1;
      assert forall i :: 0 <= i < last ==> events[..last][i] == events[i];
      EveryRunReleasesOnce(events[..last]);
      HappensStaysSound(Run(events[..last]), events[last]);
      forall m ensures Balanced(Run(events), m) {
        HappensStaysBalanced(Run(events[..last]), events[last], m);
      }
    }
  }

  /** After a receiver disconnects every envelope ever addressed to it has been
      released, and nothing is pending on it. */
  lemma DisconnectLeavesNothing(events: seq<Event>, receiver: U32, m: Pending)
    requires SoundLoads(events) && m.receiverTid == receiver
    ensures
      var h := Happens(Run(events), Disconnected(receiver));
      && receiver !in h.tracker.pending
      && multiset(h.released)[m] == multiset(h.tracked)[m]
  {
    EveryRunReleasesOnce(events);
    HappensStaysBalanced(Run(events), Disconnected(receiver), m);
  }

  /** Replies go to the latest unanswered send: what `peek` shows is what the
      next reply releases, and a send followed by its reply leaves the rest of
      the stack as it was. */
  lemma RepliesAreLifo(events: seq<Event>, m: Pending)
    requires SoundLoads(events)
    ensures
      var t := Run(events).tracker;
      && DrainOne(t, m.receiverTid).1 == Peek(t, m.receiverTid)
      && Peek(Track(t, m), m.receiverTid) == Some(m)
      && DrainOne(Track(t, m), m.receiverTid) == (t, Some(m))
  {
    EveryRunReleasesOnce(events);
    var t := Run(events).tracker;
    var s := Stack(t, m.receiverTid);
    assert (s + [m])[..|s|] == s;
    assert DrainOne(Track(t, m), m.receiverTid).0.pending == t.pending;
  }

  // ---- what the profiles have counted ----

  /** How many of the envelopes carry the code. */
  function OfCode(ms: seq<Pending>, code: U32): nat {
    if ms == [] then 0 else OfCode(ms[..|ms| - 1], code) + if ms[|ms| - 1].msgCode == code then 1 else 0
  }

  /** The replies to messages of one code, oldest first, since its profile was
      last loaded: a reply tells whether its result is zero, and a receiver that
      disconnects replies zero to each envelope. */
  function Replies(events: seq<Event>, code: U32): seq<bool> {
    if events == [] then []
    else
      var before, last := events[..|events| - 1], events[|events| - 1];
      var t := Run(before).tracker;
      match last
      case Sent(_) => Replies(before, code)
      case Replied(r, result) =>
        var answered := Peek(t, r);
        if answered.Some? && answered.value.msgCode == code then Replies(before, code) + [result == 0]
        else Replies(before, code)
      case Disconnected(r) => Replies(before, code) + seq(OfCode(Stack(t, r), code), i => true)
      case Loaded(profiles) => if code in profiles then [] else Replies(before, code)
  }

  /** The profile that was last loaded for the code. */
  function LoadedProfile(events: seq<Event>, code: U32): Profile {
    if events == [] then NEW_PROFILE
    else
      var last := events[|events| - 1];
      if last.Loaded? && code in last.profiles then last.profiles[code]
      else LoadedProfile(events[..|events| - 1], code)
  }

  lemma OneZeroMore(p: Profile, n: nat)
    ensures ObservedAll(p, seq(n + 1, i => true)) == Observed(ObservedAll(p, seq(n, i => true)), true)
  {
    assert seq(n + 1, i => true)[..n] == seq(n, i => true);
  }

  lemma {:induction false} ZerosForEachEnvelope(profiles: map<U32, Profile>, ms: seq<Pending>, code: U32)
    ensures ProfileOf(ObserveZeros(profiles, ms), code) ==
      ObservedAll(ProfileOf(profiles, code), seq(OfCode(ms, code), i => true))
  {
    if ms != [] {
      ZerosForEachEnvelope(profiles, ms[..|ms| - 1], code);
      OneZeroMore(ProfileOf(profiles, code), OfCode(ms[..|ms| - 1], code));
    }
  }

  lemma {:induction false} ObservedAllConcat(p: Profile, a: seq<bool>, b: seq<bool>)
    ensures ObservedAll(p, a + b) == ObservedAll(ObservedAll(p, a), b)
  {
    if b == [] {
      assert a + b == a;
    } else {
      assert (a + b)[..|a + b| - 1] == a + b[..|b| - 1];
      ObservedAllConcat(p, a, b[..|b| - 1]);
    }
  }

  /** Over every run, the profile of every code has observed exactly the replies
      to messages of that code, in order. */
  lemma {:induction false} ProfilesFollowReplies(events: seq<Event>, code: U32)
    ensures ProfileOf(Run(events).tracker.profiles, code) ==
      ObservedAll(LoadedProfile(events, code), Replies(events, code))
  {
    if events != [] {
      var before, last := events[..|events| - 1], events[|events| - 1];
      ProfilesFollowReplies(before, code);
      var t, base := Run(before).tracker, LoadedProfile(before, code);
      match last
      case Sent(_) =>
      case Replied(r, result) =>
        ObservedAllConcat(base, Replies(before, code), [result == 0]);
        assert ObservedAll(ObservedAll(base, Replies(before, code)), [result == 0]) ==
          Observed(ObservedAll(base, Replies(before, code)), result == 0);
      case Disconnected(r) =>
        ZerosForEachEnvelope(t.profiles, Stack(t, r), code);
        ObservedAllConcat(base, Replies(before, code), seq(OfCode(Stack(t, r), code), i => true));
      case Loaded(_) =>
    }
  }

  lemma ObserveOneMore(profiles: map<U32, Profile>, ms: seq<Pending>, i: nat)
    requires i < |ms|
    ensures
      var before := ObserveZeros(profiles, ms[..i]);
      ObserveZeros(profiles, ms[..i + 1]) ==
        before[ms[i].msgCode := Observed(ProfileOf(before, ms[i].msgCode), true)]
  {
    assert ms[..i + 1][..i] == ms[..i];
  }

  /** The tracker as the daemon holds it. */
  class SentMessageTable {
    var pending: map<U32, seq<Pending>>
    var profiles: map<U32, Profile>

    function Meaning(): Tracker
      reads this
    {
      Tracker(pending, profiles)
    }

    constructor ()
      ensures Meaning() == Tracker(map[], map[])
    {
      pending, profiles := map[], map[];
    }

    /** Cold codes are tracked; warm ones follow what was learned. */
    method ShouldFastPath(code: U32) returns (fast: bool)
      ensures fast <==> ProfileOf(profiles, code).promoted
      ensures SoundProfiles(profiles) ==> (fast <==> Qualifies(ProfileOf(profiles, code)))
    {
      fast := code in profiles && profiles[code].promoted;
    }

    method AddTracked(m: Pending)
      modifies this`pending
      ensures Meaning() == Track(old(Meaning()), m)
    {
      if m.receiverTid !in pending {
        pending := pending[m.receiverTid := []];
      }
      pending := pending[m.receiverTid := pending[m.receiverTid] + [m]];
      assert pending == Track(old(Meaning()), m).pending;
    }

    method DrainOneWithCode(receiver: U32) returns (r: Option<(U32, U32)>)
      modifies this`pending
      ensures
        var (t, m) := DrainOne(old(Meaning()), receiver);
        && Meaning() == t
        && r == if m.None? then None else Some((m.value.senderTid, m.value.msgCode))
    {
      if receiver !in pending || pending[receiver] == [] {
        return None;
      }
      var stack := pending[receiver];
      var msg := stack[|stack| - 1];
      pending := pending[receiver := stack[..|stack| - 1]];
      if pending[receiver] == [] {
        pending := pending - {receiver};
      }
      assert pending == DrainOne(old(Meaning()), receiver).0.pending;
      return Some((msg.senderTid, msg.msgCode));
    }

    method Observe(code: U32, result: U64)
      modifies this`profiles
      ensures Meaning() == ObserveReply(old(Meaning()), code, result)
    {
      var p := ProfileOf(profiles, code);
      p := p.(observations := p.observations + 1);
      if result == 0 {
        p := CheckPromote(p.(fastVotes := p.fastVotes + 1));
      } else {
        p := Demote(p.(trackedVotes := p.trackedVotes + 1));
      }
      profiles := profiles[code := p];
    }

    method ObserveZero(code: U32)
      modifies this`profiles
      ensures profiles == old(profiles)[code := Observed(ProfileOf(old(profiles), code), true)]
    {
      var p := ProfileOf(profiles, code);
      profiles := profiles[code :=
        CheckPromote(p.(observations := p.observations + 1, fastVotes := p.fastVotes + 1))];
    }

    /** Wakes every waiting sender, oldest first. */
    method DrainAllForReceiver(receiver: U32) returns (senders: seq<U32>)
      modifies this
      ensures Meaning() == DrainAll(old(Meaning()), receiver).0
      ensures
        var ms := DrainAll(old(Meaning()), receiver).1;
        |senders| == |ms| && forall i :: 0 <= i < |ms| ==> senders[i] == ms[i].senderTid
    {
      senders := [];
      var msgs := if receiver in pending then pending[receiver] else [];
      pending := pending - {receiver};
      var i := 0;
      while i < |msgs|
        invariant i <= |msgs| && |senders| == i
        invariant forall k :: 0 <= k < i ==> senders[k] == msgs[k].senderTid
        invariant pending == old(pending) - {receiver}
        invariant profiles == ObserveZeros(old(profiles), msgs[..i])
      {
        ObserveOneMore(old(profiles), msgs, i);
        ObserveZero(msgs[i].msgCode);
        senders := senders + [msgs[i].senderTid];
        i := i + 1;
      }
      assert msgs[..i] == msgs;
    }
  }
}
