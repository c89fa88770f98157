/**
  The learned-data cache file: what a shutdown writes, and what the next start
  reads back.
*/
module IntelCache {
  import opened Basics
  import opened Bytes
  import opened IntelLearning
  import opened SentMessages

  const CACHE_MAGIC: seq<Byte> := [0x41, 0x4D, 0x50, 0x43]
  const CACHE_VERSION: U32 := 3
  const CACHE_V2_SIZE: nat := 10496
  const CACHE_SIZE: nat := 14592
  const OPCODE_INTEL_OFF: nat := 0x00C0
  const LEARNED_OFF: nat := 0x13E0
  const LEARNED_END: nat := LEARNED_OFF + OPCODE_COUNT * 16
  const MSG_PROFILE_OFF: nat := 0x2900
  const MAX_MSG_PROFILES: nat := 256
  const FLAG_HAS_LEARNED: U32 := 0x04
  const FLAG_STABLE: U32 := 0x10
  const PROMOTED_BIT := 0x8000_0000

  datatype OpcodeEntry = OpcodeEntry(callCount: U32, stubCount: U32, stability: Byte)

  /** What the manager knows at shutdown.  `preserved` is the file it started
      from, if there was one. */
  datatype Manager = Manager(
    prior: seq<OpcodeEntry>,
    priorRunCount: U32,
    hints: seq<U32>,
    engineType: U32,
    cacheFlags: U32,
    preserved: Option<seq<Byte>>,
    runCalls: seq<U32>,
    runStubs: seq<U32>,
    postStubRequests: seq<nat>)

  /** Every table has one entry per opcode. */
  predicate Shaped(m: Manager) {
    |m.prior| == |m.hints| == |m.runCalls| == |m.runStubs| == |m.postStubRequests| == OPCODE_COUNT
  }

  /** What a start takes from the file. */
  datatype CacheContents = CacheContents(
    prior: seq<OpcodeEntry>,
    priorRunCount: U32,
    hints: seq<U32>,
    engineType: U32,
    cacheFlags: U32,
    preserved: seq<Byte>,
    profiles: seq<(U32, Profile)>)

  function SaturatingAdd(a: U32, b: U32): (r: U32)
    ensures r == a + b || (r == U32_LIMIT - 1 && a + b >= U32_LIMIT)
  {
    if a as int + b as int < U32_LIMIT then a + b else U32_LIMIT - 1
  }

  /** `flags | bit` for a single bit. */
  function WithFlag(flags: U32, bit: U32): (r: U32)
    requires bit == FLAG_HAS_LEARNED || bit == FLAG_STABLE
  {
    if flags / bit % 2 == 1 then flags else flags + bit
  }

  /** The entry that replaces `prior[i]`. */
  function Learned(m: Manager, i: nat): OpcodeEntry
    requires Shaped(m) && i < OPCODE_COUNT
  {
    var stability := Classify(m.prior[i].stability, m.runStubs[i], m.postStubRequests[i]);
    OpcodeEntry(SaturatingAdd(m.prior[i].callCount, m.runCalls[i]),
                SaturatingAdd(m.prior[i].stubCount, m.runStubs[i]),
                stability)
  }

  /** One run more, in 32 bits. */
  function RunCount(m: Manager): U32 {
    if m.priorRunCount == U32_LIMIT - 1 then 0 else m.priorRunCount + 1
  }

  function Flags(m: Manager): U32 {
    var flags := WithFlag(m.cacheFlags, FLAG_HAS_LEARNED);
    if RunCount(m) >= 5 then WithFlag(flags, FLAG_STABLE) else flags
  }

  /** Opcodes seen in this run or before, among the first `n`. */
  function Known(m: Manager, n: nat): (k: nat)
    requires Shaped(m) && n <= OPCODE_COUNT
    ensures k <= n
  {
    if n == 0 then 0
    else Known(m, n - 1) + if SaturatingAdd(m.prior[n - 1].callCount, m.runCalls[n - 1]) > 0 then 1 else 0
  }

  /** The buffer that a flush starts from: the old file cut or zero-extended. */
  function Base(m: Manager): (b: seq<Byte>)
    ensures |b| == CACHE_SIZE
  {
    match m.preserved
    case None => Zeros(CACHE_SIZE)
    case Some(data) =>
      if |data| >= CACHE_SIZE then data[..CACHE_SIZE] else data + Zeros(CACHE_SIZE - |data|)
  }

  // ---- message profiles ----

  predicate Fits(p: Profile) {
    p.fastVotes < U32_LIMIT && p.trackedVotes < U32_LIMIT && p.observations < U32_LIMIT
  }

  /** `observations | 0x80000000` when promoted. */
  function PackObservations(p: Profile): U32
    requires Fits(p)
  {
    if p.promoted && p.observations < PROMOTED_BIT then p.observations + PROMOTED_BIT else p.observations
  }

  function UnpackProfile(fast: U32, tracked: U32, flags: U32): Profile {
    Profile(fast, tracked, flags % PROMOTED_BIT, flags >= PROMOTED_BIT)
  }

  /** A profile survives packing if and only if its count leaves the flag bit
      free. */
  lemma PackRoundTrip(p: Profile)
    requires Fits(p)
    ensures UnpackProfile(p.fastVotes, p.trackedVotes, PackObservations(p)) == p <==> p.observations < PROMOTED_BIT
  {
  }

  function ProfileOffset(i: nat): nat {
    MSG_PROFILE_OFF + i * 16
  }

  function LearnedOffset(i: nat): nat {
    LEARNED_OFF + i * 16
  }

  // ---- reading ----

  function HintAt(data: seq<Byte>, i: nat): U32
    requires |data| >= CACHE_V2_SIZE && i < OPCODE_COUNT
  {
    U32At(data, OPCODE_INTEL_OFF + i * 16)
  }

  function EntryAt(data: seq<Byte>, i: nat): OpcodeEntry
    requires |data| >= CACHE_V2_SIZE && i < OPCODE_COUNT
  {
    var off := LearnedOffset(i);
    OpcodeEntry(U32At(data, off), U32At(data, off + 4), data[off + 8])
  }

  function ProfileAt(data: seq<Byte>, i: nat): (U32, Profile)
    requires |data| >= CACHE_SIZE && i < MAX_MSG_PROFILES
  {
    var off := ProfileOffset(i);
    (U32At(data, off), UnpackProfile(U32At(data, off + 4), U32At(data, off + 8), U32At(data, off + 12)))
  }

  /** Entries that are zero in code and votes are taken for unused ones. */
  predicate Unused(e: (U32, Profile)) {
    e.0 == 0 && e.1.fastVotes == 0 && e.1.trackedVotes == 0
  }

  function ProfilesUpTo(data: seq<Byte>, n: nat): seq<(U32, Profile)>
    requires |data| >= CACHE_SIZE && n <= MAX_MSG_PROFILES
  {
    if n == 0 then []
    else ProfilesUpTo(data, n - 1) + if Unused(ProfileAt(data, n - 1)) then [] else [ProfileAt(data, n - 1)]
  }

  function Hints(data: seq<Byte>): (h: seq<U32>)
    requires |data| >= CACHE_V2_SIZE
    ensures |h| == OPCODE_COUNT && forall i :: 0 <= i < OPCODE_COUNT ==> h[i] == HintAt(data, i)
  {
    seq(OPCODE_COUNT, i requires 0 <= i < OPCODE_COUNT => HintAt(data, i))
  }

  function Entries(data: seq<Byte>): (e: seq<OpcodeEntry>)
    requires |data| >= CACHE_V2_SIZE
    ensures |e| == OPCODE_COUNT && forall i :: 0 <= i < OPCODE_COUNT ==> e[i] == EntryAt(data, i)
  {
    seq(OPCODE_COUNT, i requires 0 <= i < OPCODE_COUNT => EntryAt(data, i))
  }

  function AllLearned(m: Manager): (e: seq<OpcodeEntry>)
    requires Shaped(m)
    ensures |e| == OPCODE_COUNT && forall i :: 0 <= i < OPCODE_COUNT ==> e[i] == Learned(m, i)
  {
    seq(OPCODE_COUNT, i requires 0 <= i < OPCODE_COUNT => Learned(m, i))
  }

  function Load(data: seq<Byte>): Option<CacheContents> {
    if |data| >= CACHE_V2_SIZE && data[..4] == CACHE_MAGIC && (U32At(data, 4) == 2 || U32At(data, 4) == 3) then
      Some(CacheContents(
        Entries(data),
        U32At(data, 20),
        Hints(data),
        U32At(data, 16),
        U32At(data, 12),
        data[..Min(|data|, CACHE_SIZE)],
        if |data| >= CACHE_SIZE then ProfilesUpTo(data, Min(U32At(data, 36), MAX_MSG_PROFILES)) else []))
    else None
  }

  method LoadOpcodes(data: seq<Byte>) returns (hints: seq<U32>, prior: seq<OpcodeEntry>)
    requires |data| >= CACHE_V2_SIZE
    ensures hints == Hints(data) && prior == Entries(data)
  {
    hints, prior := [], [];
    var i := 0;
    while i < OPCODE_COUNT
      invariant i <= OPCODE_COUNT && |hints| == i
      invariant forall j :: 0 <= j < i ==> hints[j] == HintAt(data, j)
    {
      hints := hints + [U32At(data, OPCODE_INTEL_OFF + i * 16)];
      i := i + 1;
    }
    i := 0;
    while i < OPCODE_COUNT
      invariant i <= OPCODE_COUNT && |prior| == i
      invariant forall j :: 0 <= j < i ==> prior[j] == EntryAt(data, j)
    {
      var off := LEARNED_OFF + i * 16;
      prior := prior + [OpcodeEntry(U32At(data, off), U32At(data, off + 4), data[off + 8])];
      i := i + 1;
    }
  }

  method ReadProfiles(data: seq<Byte>, count: nat) returns (profiles: seq<(U32, Profile)>)
    requires |data| >= CACHE_SIZE && count <= MAX_MSG_PROFILES
    ensures profiles == ProfilesUpTo(data, count)
  {
    profiles := [];
    var i := 0;
    while i < count
      invariant i <= count && profiles == ProfilesUpTo(data, i)
    {
      var e := ProfileAt(data, i);
      if !Unused(e) {
        profiles := profiles + [e];
      }
      i := i + 1;
    }
  }

  method LoadMsgProfiles(data: seq<Byte>) returns (profiles: seq<(U32, Profile)>)
    requires |data| >= CACHE_SIZE
    ensures profiles == ProfilesUpTo(data, Min(U32At(data, 36), MAX_MSG_PROFILES))
  {
    profiles := ReadProfiles(data, Min(U32At(data, 36), MAX_MSG_PROFILES));
  }

  // ---- writing ----

  ghost predicate LearnedIs(buf: seq<Byte>, i: nat, m: Manager)
    requires |buf| == CACHE_SIZE && i < OPCODE_COUNT && Shaped(m)
  {
    EntryAt(buf, i) == Learned(m, i) && U32At(buf, LearnedOffset(i) + 12) == m.runCalls[i]
  }

  ghost predicate ProfileIs(buf: seq<Byte>, i: nat, e: (U32, Profile))
    requires |buf| == CACHE_SIZE && i < MAX_MSG_PROFILES && Fits(e.1)
  {
    var off := ProfileOffset(i);
    && U32At(buf, off) == e.0 && U32At(buf, off + 4) == e.1.fastVotes
    && U32At(buf, off + 8) == e.1.trackedVotes && U32At(buf, off + 12) == PackObservations(e.1)
  }

  ghost predicate HeaderIs(buf: seq<Byte>, m: Manager, now: U32)
    requires |buf| == CACHE_SIZE && Shaped(m)
  {
    && buf[..4] == CACHE_MAGIC && U32At(buf, 4) == CACHE_VERSION
    && U32At(buf, 12) == Flags(m) && U32At(buf, 20) == RunCount(m) && U32At(buf, 24) == now
    && U32At(buf, 32) == Known(m, OPCODE_COUNT) * 100 / OPCODE_COUNT
  }

  /** The parts of the header that belong to the installer. */
  ghost predicate HeaderKept(buf: seq<Byte>, before: seq<Byte>) {
    SameRange(buf, before, 8, 12) && SameRange(buf, before, 16, 20) && SameRange(buf, before, 28, 32)
  }

  method WriteHeader(m: Manager, now: U32, before: seq<Byte>) returns (buf: seq<Byte>)
    requires |before| == CACHE_SIZE && Shaped(m)
    ensures |buf| == CACHE_SIZE && HeaderIs(buf, m, now) && HeaderKept(buf, before)
    ensures SameRange(buf, before, 36, CACHE_SIZE)
  {
    StoredRanges(before, 0, CACHE_MAGIC);
    buf := Stored(before, 0, CACHE_MAGIC);
    buf := PutU32(buf, 4, CACHE_VERSION);
    buf := PutU32(buf, 12, Flags(m));
    buf := PutU32(buf, 20, RunCount(m));
    buf := PutU32(buf, 24, now);
    var known, i := 0, 0;
    while i < OPCODE_COUNT
      invariant i <= OPCODE_COUNT && known == Known(m, i)
    {
      if SaturatingAdd(m.prior[i].callCount, m.runCalls[i]) > 0 {
        known := known + 1;
      }
      i := i + 1;
    }
    buf := PutU32(buf, 32, known * 100 / OPCODE_COUNT);
  }

  lemma LearnedStays(a: seq<Byte>, b: seq<Byte>, i: nat, m: Manager)
    requires i < OPCODE_COUNT && Shaped(m) && |a| == CACHE_SIZE
    requires SameRange(b, a, LearnedOffset(i), LearnedOffset(i) + 16) && LearnedIs(a, i, m)
    ensures LearnedIs(b, i, m)
  {
  }

  lemma ProfileStays(a: seq<Byte>, b: seq<Byte>, i: nat, e: (U32, Profile))
    requires i < MAX_MSG_PROFILES && Fits(e.1) && |a| == CACHE_SIZE
    requires SameRange(b, a, ProfileOffset(i), ProfileOffset(i) + 16) && ProfileIs(a, i, e)
    ensures ProfileIs(b, i, e)
  {
  }

  /** One 16-byte entry; bytes 9 to 11 are padding and stay as they are. */
  method PutEntry(before: seq<Byte>, off: nat, e: OpcodeEntry, lastRunCalls: U32) returns (buf: seq<Byte>)
    requires off + 16 <= |before|
    ensures |buf| == |before|
    ensures U32At(buf, off) == e.callCount && U32At(buf, off + 4) == e.stubCount && buf[off + 8] == e.stability
    ensures U32At(buf, off + 12) == lastRunCalls
    ensures SameRange(buf, before, 0, off) && SameRange(buf, before, off + 16, |before|)
  {
    buf := PutU32(before, off, e.callCount);
    buf := PutU32(buf, off + 4, e.stubCount);
    buf := buf[off + 8 := e.stability];
    buf := PutU32(buf, off + 12, lastRunCalls);
  }

  method WriteEntry(m: Manager, i: nat, before: seq<Byte>) returns (buf: seq<Byte>)
    requires |before| == CACHE_SIZE && Shaped(m) && i < OPCODE_COUNT
    ensures |buf| == CACHE_SIZE && LearnedIs(buf, i, m)
    ensures SameRange(buf, before, 0, LearnedOffset(i)) && SameRange(buf, before, LearnedOffset(i) + 16, CACHE_SIZE)
  {
    var stability := m.prior[i].stability;
    if m.runStubs[i] > 0 {
      if m.postStubRequests[i] >= STABLE_THRESHOLD {
        stability := STABILITY_STABLE;
      } else if m.postStubRequests[i] <= UNSTABLE_THRESHOLD && stability != STABILITY_STABLE {
        stability := STABILITY_UNSTABLE;
      }
    }
    var calls := SaturatingAdd(m.prior[i].callCount, m.runCalls[i]);
    var stubs := SaturatingAdd(m.prior[i].stubCount, m.runStubs[i]);
    buf := PutEntry(before, LearnedOffset(i), OpcodeEntry(calls, stubs, stability), m.runCalls[i]);
  }

  method WriteLearned(m: Manager, before: seq<Byte>) returns (buf: seq<Byte>)
    requires |before| == CACHE_SIZE && Shaped(m)
    ensures |buf| == CACHE_SIZE && forall i :: 0 <= i < OPCODE_COUNT ==> LearnedIs(buf, i, m)
    ensures SameRange(buf, before, 0, LEARNED_OFF) && SameRange(buf, before, LEARNED_END, CACHE_SIZE)
  {
    buf := before;
    var i := 0;
    while i < OPCODE_COUNT
      invariant i <= OPCODE_COUNT && |buf| == CACHE_SIZE
      invariant forall j :: 0 <= j < i ==> LearnedIs(buf, j, m)
      invariant SameRange(buf, before, 0, LEARNED_OFF)
      invariant SameRange(buf, before, LearnedOffset(i), CACHE_SIZE)
    {
      ghost var earlier := buf;
      buf := WriteEntry(m, i, buf);
      forall j | 0 <= j < i ensures LearnedIs(buf, j, m) {
        LearnedStays(earlier, buf, j, m);
      }
      i := i + 1;
    }
  }

  method WriteProfile(e: (U32, Profile), i: nat, before: seq<Byte>) returns (buf: seq<Byte>)
    requires |before| == CACHE_SIZE && i < MAX_MSG_PROFILES && Fits(e.1)
    ensures |buf| == CACHE_SIZE && ProfileIs(buf, i, e)
    ensures SameRange(buf, before, 0, ProfileOffset(i)) && SameRange(buf, before, ProfileOffset(i) + 16, CACHE_SIZE)
  {
    var off := ProfileOffset(i);
    buf := PutU32(before, off, e.0);
    buf := PutU32(buf, off + 4, e.1.fastVotes);
    buf := PutU32(buf, off + 8, e.1.trackedVotes);
    buf := PutU32(buf, off + 12, PackObservations(e.1));
  }

  ghost predicate AllFit(profiles: seq<(U32, Profile)>) {
    forall i :: 0 <= i < |profiles| ==> Fits(profiles[i].1)
  }

  method WriteProfiles(profiles: seq<(U32, Profile)>, before: seq<Byte>) returns (buf: seq<Byte>)
    requires |before| == CACHE_SIZE && AllFit(profiles)
    ensures |buf| == CACHE_SIZE
    ensures forall i :: 0 <= i < Min(|profiles|, MAX_MSG_PROFILES) ==> ProfileIs(buf, i, profiles[i])
    ensures SameRange(buf, before, 0, MSG_PROFILE_OFF)
    ensures SameRange(buf, before, ProfileOffset(Min(|profiles|, MAX_MSG_PROFILES)), CACHE_SIZE)
  {
    buf := before;
    var n, i := Min(|profiles|, MAX_MSG_PROFILES), 0;
    while i < n
      invariant i <= n && |buf| == CACHE_SIZE
      invariant forall j :: 0 <= j < i ==> ProfileIs(buf, j, profiles[j])
      invariant SameRange(buf, before, 0, MSG_PROFILE_OFF)
      invariant SameRange(buf, before, ProfileOffset(i), CACHE_SIZE)
    {
      ghost var earlier := buf;
      buf := WriteProfile(profiles[i], i, buf);
      forall j | 0 <= j < i ensures ProfileIs(buf, j, profiles[j]) {
        ProfileStays(earlier, buf, j, profiles[j]);
      }
      i := i + 1;
    }
  }

  /** Everything a shutdown writes, and everything it leaves alone. */
  ghost predicate Flushed(m: Manager, profiles: seq<(U32, Profile)>, now: U32, buf: seq<Byte>)
    requires Shaped(m) && AllFit(profiles)
  {
    var n := Min(|profiles|, MAX_MSG_PROFILES);
    && |buf| == CACHE_SIZE && HeaderIs(buf, m, now) && U32At(buf, 36) == n
    && (forall i :: 0 <= i < OPCODE_COUNT ==> LearnedIs(buf, i, m))
    && (forall i :: 0 <= i < n ==> ProfileIs(buf, i, profiles[i]))
    && HeaderKept(buf, Base(m))
    && SameRange(buf, Base(m), 40, LEARNED_OFF)
    && SameRange(buf, Base(m), LEARNED_END, MSG_PROFILE_OFF)
    && SameRange(buf, Base(m), ProfileOffset(n), CACHE_SIZE)
  }

  method Flush(m: Manager, profiles: seq<(U32, Profile)>, now: U32) returns (buf: seq<Byte>)
    requires Shaped(m) && AllFit(profiles)
    ensures Flushed(m, profiles, now, buf)
  {
    var header := WriteHeader(m, now, Base(m));
    var learned := WriteLearned(m, header);
    var written := WriteProfiles(profiles, learned);
    buf := PutU32(written, 36, Min(|profiles|, MAX_MSG_PROFILES));
    forall i | 0 <= i < OPCODE_COUNT ensures LearnedIs(buf, i, m) {
      LearnedStays(learned, written, i, m);
      LearnedStays(written, buf, i, m);
    }
    forall i | 0 <= i < Min(|profiles|, MAX_MSG_PROFILES) ensures ProfileIs(buf, i, profiles[i]) {
      ProfileStays(written, buf, i, profiles[i]);
    }
    assert buf[..4] == header[..4];
  }

  // ---- round trips ----

  /** The manager's hints and engine are those of the file it started from. */
  ghost predicate Consistent(m: Manager) {
    && Shaped(m)
    && m.engineType == U32At(Base(m), 16)
    && forall i :: 0 <= i < OPCODE_COUNT ==> m.hints[i] == HintAt(Base(m), i)
  }

  /** A profile that the tracker can have: observed at least once, with room
      for the flag bit. */
  ghost predicate Storable(p: Profile) {
    Sound(p) && 1 <= p.observations < PROMOTED_BIT
  }

  lemma {:induction false} ProfilesComeBack(buf: seq<Byte>, profiles: seq<(U32, Profile)>, n: nat)
    requires |buf| == CACHE_SIZE && n <= |profiles| && n <= MAX_MSG_PROFILES && AllFit(profiles)
    requires forall i :: 0 <= i < n ==> Storable(profiles[i].1) && ProfileIs(buf, i, profiles[i])
    ensures ProfilesUpTo(buf, n) == profiles[..n]
  {
    if n > 0 {
      ProfilesComeBack(buf, profiles, n - 1);
      PackRoundTrip(profiles[n - 1].1);
      assert ProfileAt(buf, n - 1) == profiles[n - 1];
      assert profiles[..n] == profiles[..n - 1] + [profiles[n - 1]];
    }
  }

  lemma EngineComesBack(m: Manager, buf: seq<Byte>)
    requires Consistent(m) && HeaderKept(buf, Base(m))
    ensures U32At(buf, 16) == m.engineType
  {
  }

  lemma LoadOfFullCache(buf: seq<Byte>)
    requires |buf| == CACHE_SIZE && buf[..4] == CACHE_MAGIC && U32At(buf, 4) == CACHE_VERSION
    ensures Load(buf) == Some(CacheContents(
      Entries(buf), U32At(buf, 20), Hints(buf), U32At(buf, 16), U32At(buf, 12), buf,
      ProfilesUpTo(buf, Min(U32At(buf, 36), MAX_MSG_PROFILES))))
  {
    assert buf[..Min(|buf|, CACHE_SIZE)] == buf;
  }

  lemma OpcodesComeBack(m: Manager, buf: seq<Byte>)
    requires Consistent(m) && |buf| == CACHE_SIZE && SameRange(buf, Base(m), 40, LEARNED_OFF)
    requires forall i :: 0 <= i < OPCODE_COUNT ==> LearnedIs(buf, i, m)
    ensures Hints(buf) == m.hints && Entries(buf) == AllLearned(m)
  {
    forall i | 0 <= i < OPCODE_COUNT ensures HintAt(buf, i) == m.hints[i] && EntryAt(buf, i) == Learned(m, i) {
      assert LearnedIs(buf, i, m);
    }
  }

  /** Loading what a shutdown wrote: one more run, saturating sums and the
      computed stabilities, the installer's data unchanged, and every storable
      profile among the first 256 exactly as it was. */
  lemma CacheRoundTrip(m: Manager, profiles: seq<(U32, Profile)>, now: U32, buf: seq<Byte>)
    requires Consistent(m) && AllFit(profiles)
    requires forall i :: 0 <= i < Min(|profiles|, MAX_MSG_PROFILES) ==> Storable(profiles[i].1)
    requires Flushed(m, profiles, now, buf)
    ensures Load(buf) == Some(CacheContents(
      AllLearned(m), RunCount(m), m.hints, m.engineType, Flags(m), buf,
      profiles[..Min(|profiles|, MAX_MSG_PROFILES)]))
  {
    LoadOfFullCache(buf);
    EngineComesBack(m, buf);
    OpcodesComeBack(m, buf);
    ProfilesComeBack(buf, profiles, Min(|profiles|, MAX_MSG_PROFILES));
  }

  /** Opcodes called in this run or before. */
  function EverCalled(m: Manager): set<nat>
    requires Shaped(m)
  {
    set i: nat | i < OPCODE_COUNT && (m.prior[i].callCount > 0 || m.runCalls[i] > 0)
  }

  function EverCalledBelow(m: Manager, n: nat): set<nat>
    requires Shaped(m) && n <= OPCODE_COUNT
  {
    set i: nat | i < n && (m.prior[i].callCount > 0 || m.runCalls[i] > 0)
  }

  lemma {:induction false} KnownCounts(m: Manager, n: nat)
    requires Shaped(m) && n <= OPCODE_COUNT
    ensures Known(m, n) == |EverCalledBelow(m, n)|
  {
    if n > 0 {
      KnownCounts(m, n - 1);
      var i, below := n - 1, EverCalledBelow(m, n - 1);
      assert i !in below;
      assert EverCalledBelow(m, n) ==
        if m.prior[i].callCount > 0 || m.runCalls[i] > 0 then below + {i} else below;
    } else {
      assert EverCalledBelow(m, 0) == {};
    }
  }

  lemma Halved(n: nat, half: nat, bit: nat)
    requires n == 2 * half + bit && bit < 2
    ensures n / 2 == half && n % 2 == bit
  {
  }

  lemma Quartered(n: nat, rest: nat, low: nat)
    requires n == 4 * rest + low && low < 4
    ensures n / 4 == rest && n % 4 == low
  {
  }

  /** Dividing by a power of two is halving so many times. */
  lemma DividedInSteps(n: nat)
    ensures n / 8 == n / 4 / 2 && n / 16 == n / 8 / 2 && n / 32 == n / 16 / 2
  {
  }

  /** A number is given by its low two bits, the next three, and the rest. */
  lemma FromBits(n: nat, rest: nat, four: nat, three: nat, two: nat, low: nat)
    requires n == 32 * rest + 16 * four + 8 * three + 4 * two + low
    requires four < 2 && three < 2 && two < 2 && low < 4
    ensures n % 4 == low && n / 4 % 2 == two && n / 8 % 2 == three && n / 16 % 2 == four && n / 32 == rest
  {
    DividedInSteps(n);
    Quartered(n, 8 * rest + 4 * four + 2 * three + two, low);
    Halved(n / 4, 4 * rest + 2 * four + three, two);
    Halved(n / 8, 2 * rest + four, three);
    Halved(n / 16, rest, four);
  }

  lemma ToBits(n: nat)
    ensures n == 32 * (n / 32) + 16 * (n / 16 % 2) + 8 * (n / 8 % 2) + 4 * (n / 4 % 2) + n % 4
  {
    var a, b, c := n / 4, n / 8, n / 16;
    assert n == 4 * a + n % 4 && b == a / 2 && c == b / 2 && n / 32 == c / 2;
    assert a == 2 * b + a % 2 && b == 2 * c + b % 2 && c == 2 * (n / 32) + c % 2;
  }

  /** Setting bit two, or bit four, leaves every other bit alone. */
  lemma OneBitSet(flags: U32, bit: U32)
    requires bit == FLAG_HAS_LEARNED || bit == FLAG_STABLE
    ensures
      var r := WithFlag(flags, bit);
      && r / 4 % 2 == (if bit == 4 then 1 else flags / 4 % 2)
      && r / 16 % 2 == (if bit == 16 then 1 else flags / 16 % 2)
      && r % 4 == flags % 4 && r / 8 % 2 == flags / 8 % 2 && r / 32 == flags / 32
  {
    ToBits(flags);
    var rest, four, three, two, low := flags / 32, flags / 16 % 2, flags / 8 % 2, flags / 4 % 2, flags % 4;
    if bit == FLAG_HAS_LEARNED {
      FromBits(WithFlag(flags, bit), rest, four, three, 1, low);
    } else {
      FromBits(WithFlag(flags, bit), rest, 1, three, two, low);
    }
  }

  /** The flags, bit by bit: bit two is set; bit four is set if it was or if this
      is at least the fifth run; the others are as they were. */
  predicate FlagsFollow(flags: U32, before: U32, runs: U32) {
    && flags / 4 % 2 == 1
    && (flags / 16 % 2 == 1 <==> before / 16 % 2 == 1 || runs >= 5)
    && flags % 4 == before % 4 && flags / 8 % 2 == before / 8 % 2 && flags / 32 == before / 32
  }

  lemma FlagsByBits(m: Manager)
    ensures FlagsFollow(Flags(m), m.cacheFlags, RunCount(m))
  {
    OneBitSet(m.cacheFlags, FLAG_HAS_LEARNED);
    OneBitSet(WithFlag(m.cacheFlags, FLAG_HAS_LEARNED), FLAG_STABLE);
  }

  lemma OneRunMore(m: Manager)
    ensures RunCount(m) == (m.priorRunCount + 1) % U32_LIMIT
  {
  }

  /** An entry of the next start, in numbers. */
  predicate AddedUp(e: OpcodeEntry, prior: OpcodeEntry, calls: U32, stubs: U32) {
    && e.callCount == Min(prior.callCount + calls, U32_LIMIT - 1)
    && e.stubCount == Min(prior.stubCount + stubs, U32_LIMIT - 1)
  }

  lemma CountsAddUp(m: Manager, buf: seq<Byte>, i: nat)
    requires Shaped(m) && |buf| == CACHE_SIZE && i < OPCODE_COUNT && LearnedIs(buf, i, m)
    ensures AddedUp(Entries(buf)[i], m.prior[i], m.runCalls[i], m.runStubs[i])
  {
  }

  lemma CoverageInNumbers(m: Manager, buf: seq<Byte>, now: U32)
    requires Shaped(m) && |buf| == CACHE_SIZE && HeaderIs(buf, m, now)
    ensures U32At(buf, 32) == 100 * |EverCalled(m)| / 306
  {
    KnownCounts(m, OPCODE_COUNT);
    assert EverCalled(m) == EverCalledBelow(m, OPCODE_COUNT);
  }

  /** The next start in numbers: one run more in 32 bits; flags bit by bit; the
      counts added up to 2^32 - 1 at most; and the percentage of the 306 opcodes
      that were ever called. */
  lemma NextStartInNumbers(m: Manager, profiles: seq<(U32, Profile)>, now: U32, buf: seq<Byte>)
    requires Shaped(m) && AllFit(profiles) && Flushed(m, profiles, now, buf)
    ensures Load(buf).Some?
    ensures
      var c := Load(buf).value;
      && c.priorRunCount == (m.priorRunCount + 1) % U32_LIMIT
      && FlagsFollow(c.cacheFlags, m.cacheFlags, c.priorRunCount)
      && |c.prior| == 306
      && (forall i :: 0 <= i < 306 ==> AddedUp(c.prior[i], m.prior[i], m.runCalls[i], m.runStubs[i]))
    ensures U32At(buf, 32) == 100 * |EverCalled(m)| / 306
  {
    LoadOfFullCache(buf);
    OneRunMore(m);
    FlagsByBits(m);
    CoverageInNumbers(m, buf, now);
    forall i | 0 <= i < OPCODE_COUNT ensures AddedUp(Entries(buf)[i], m.prior[i], m.runCalls[i], m.runStubs[i]) {
      CountsAddUp(m, buf, i);
    }
  }

  /** A list of a map's entries, each once, in whatever order. */
  ghost predicate Snapshot(profiles: map<U32, Profile>, list: seq<(U32, Profile)>) {
    && (forall i, j :: 0 <= i < j < |list| ==> list[i].0 != list[j].0)
    && (forall i :: 0 <= i < |list| ==> list[i].0 in profiles && profiles[list[i].0] == list[i].1)
    && (forall c :: c in profiles ==> exists i :: 0 <= i < |list| && list[i].0 == c)
  }

  /** `load_profiles` into an empty tracker. */
  function Seeded(list: seq<(U32, Profile)>): map<U32, Profile> {
    if list == [] then map[]
    else Seeded(list[..|list| - 1])[list[|list| - 1].0 := list[|list| - 1].1]
  }

  lemma {:induction false} SeededAgrees(profiles: map<U32, Profile>, list: seq<(U32, Profile)>)
    requires forall i :: 0 <= i < |list| ==> list[i].0 in profiles && profiles[list[i].0] == list[i].1
    ensures forall c :: c in Seeded(list) ==> c in profiles && Seeded(list)[c] == profiles[c]
    ensures forall i :: 0 <= i < |list| ==> list[i].0 in Seeded(list)
  {
    if list != [] {
      SeededAgrees(profiles, list[..|list| - 1]);
    }
  }

  lemma SeedingRestores(profiles: map<U32, Profile>, list: seq<(U32, Profile)>, n: nat)
    requires SoundProfiles(profiles) && Snapshot(profiles, list) && n <= |list|
    ensures SoundProfiles(Seeded(list[..n]))
    ensures n == |list| ==> Seeded(list[..n]) == profiles
  {
    SeededAgrees(profiles, list[..n]);
    if n == |list| {
      assert list[..n] == list;
    }
  }

  lemma SoundIsStorable(profiles: map<U32, Profile>, list: seq<(U32, Profile)>, i: nat)
    requires SoundProfiles(profiles) && forall c :: c in profiles ==> profiles[c].observations < PROMOTED_BIT
    requires Snapshot(profiles, list) && i < |list|
    ensures Storable(list[i].1)
  {
  }

  /** What was learned about message codes survives a restart: everything if
      there are at most 256 codes, otherwise nothing but the truth; and what is
      seeded is again sound. */
  lemma ProfilesSurviveRestart(m: Manager, profiles: map<U32, Profile>, list: seq<(U32, Profile)>, now: U32, buf: seq<Byte>)
    requires SoundProfiles(profiles) && forall c :: c in profiles ==> profiles[c].observations < PROMOTED_BIT
    requires Snapshot(profiles, list) && AllFit(list)
    requires Consistent(m) && Flushed(m, list, now, buf)
    ensures Load(buf).Some?
    ensures SoundProfiles(Seeded(Load(buf).value.profiles))
    ensures |list| <= MAX_MSG_PROFILES ==> Seeded(Load(buf).value.profiles) == profiles
  {
    var n := Min(|list|, MAX_MSG_PROFILES);
    SeedingRestores(profiles, list, n);
    assert Load(buf).Some? && Load(buf).value.profiles == list[..n] by {
      forall i | 0 <= i < n ensures Storable(list[i].1) {
        SoundIsStorable(profiles, list, i);
      }
      CacheRoundTrip(m, list, now, buf);
    }
  }

  /** A daemon run: start from a cache, count events, write the next cache. */
  ghost predicate Started(m: Manager, c: CacheContents, events: seq<RunEvent>) {
    && Shaped(m)
    && m.prior == c.prior && m.priorRunCount == c.priorRunCount && m.hints == c.hints
    && m.engineType == c.engineType && m.cacheFlags == c.cacheFlags && m.preserved == Some(c.preserved)
    && forall i :: 0 <= i < OPCODE_COUNT ==>
         Counts(events, i, m.runCalls[i], m.runStubs[i], m.postStubRequests[i])
  }

  ghost predicate Session(m: Manager, profiles: seq<(U32, Profile)>, now: U32,
                          before: seq<Byte>, events: seq<RunEvent>, after: seq<Byte>)
  {
    && Load(before).Some? && Started(m, Load(before).value, events)
    && AllFit(profiles) && Flushed(m, profiles, now, after)
  }

  ghost predicate SomeSession(before: seq<Byte>, events: seq<RunEvent>, after: seq<Byte>) {
    exists m, profiles, now :: Session(m, profiles, now, before, events, after)
  }

  /** A manager started from any readable cache is consistent with it. */
  lemma StartedIsConsistent(m: Manager, data: seq<Byte>, events: seq<RunEvent>)
    requires Load(data).Some? && Started(m, Load(data).value, events)
    ensures Consistent(m)
  {
  }

  /** The stability byte of an opcode over a chain of cache files. */
  lemma {:induction false} FilesFollowRuns(files: seq<seq<Byte>>, runs: seq<seq<RunEvent>>, i: nat)
    requires |files| == |runs| + 1 && i < OPCODE_COUNT
    requires Load(files[0]).Some?
    requires forall k :: 0 <= k < |runs| ==> SomeSession(files[k], runs[k], files[k + 1])
    ensures Load(files[|runs|]).Some?
    ensures RunsTo(EntryAt(files[0], i).stability, runs, i, EntryAt(files[|runs|], i).stability)
  {
    if runs != [] {
      var last := |runs| - 1;
      FilesFollowRuns(files[..last + 1], runs[..last], i);
      assert SomeSession(files[last], runs[last], files[last + 1]);
      var m, profiles, now :| Session(m, profiles, now, files[last], runs[last], files[last + 1]);
      assert LearnedIs(files[last + 1], i, m);
      assert m.prior[i] == EntryAt(files[last], i);
      assert Counts(runs[last], i, m.runCalls[i], m.runStubs[i], m.postStubRequests[i]);
      OneMoreRun(EntryAt(files[0], i).stability, runs, i, m.prior[i].stability,
                 m.runCalls[i], m.runStubs[i], m.postStubRequests[i]);
    }
  }

  /** Over any number of daemon runs, each starting from the file the one
      before wrote: an opcode is marked stable at the end if and only if it
      was at the start or ten requests outlived its last stub in some run. */
  lemma CacheNeverForgetsStable(files: seq<seq<Byte>>, runs: seq<seq<RunEvent>>, i: nat)
    requires |files| == |runs| + 1 && i < OPCODE_COUNT
    requires Load(files[0]).Some?
    requires forall k :: 0 <= k < |runs| ==> SomeSession(files[k], runs[k], files[k + 1])
    ensures Load(files[|runs|]).Some?
    ensures EntryAt(files[|runs|], i).stability == STABILITY_STABLE <==>
      EntryAt(files[0], i).stability == STABILITY_STABLE || exists k :: 0 <= k < |runs| && Proves(runs[k], i)
  {
    FilesFollowRuns(files, runs, i);
    StabilityAcrossRuns(EntryAt(files[0], i).stability, runs, i, EntryAt(files[|runs|], i).stability);
  }

  /** The run count that a start takes from a file. */
  function RunsSoFar(data: seq<Byte>): (n: U32) {
    if Load(data).Some? then Load(data).value.priorRunCount else 0
  }

  /** `n` more, in 32 bits. */
  predicate GrownBy(before: U32, n: nat, after: U32) {
    after == (before + n) % U32_LIMIT
  }

  lemma SessionIsCounted(m: Manager, profiles: seq<(U32, Profile)>, now: U32,
                         before: seq<Byte>, events: seq<RunEvent>, after: seq<Byte>)
    requires Session(m, profiles, now, before, events, after)
    ensures RunsSoFar(before) == m.priorRunCount && RunsSoFar(after) == RunCount(m)
  {
    LoadOfFullCache(after);
  }

  lemma OneRunIsCounted(before: seq<Byte>, events: seq<RunEvent>, after: seq<Byte>)
    requires SomeSession(before, events, after)
    ensures GrownBy(RunsSoFar(before), 1, RunsSoFar(after))
  {
    var m, profiles, now :| Session(m, profiles, now, before, events, after);
    SessionIsCounted(m, profiles, now, before, events, after);
    OneRunMore(m);
  }

  lemma WrappedSum(a: nat, k: nat)
    ensures ((a + k) % U32_LIMIT + 1) % U32_LIMIT == (a + k + 1) % U32_LIMIT
  {
  }

  lemma {:induction false} StepsAddUp(counts: seq<U32>)
    requires counts != []
    requires forall k :: 1 <= k < |counts| ==> GrownBy(counts[k - 1], 1, counts[k])
    ensures GrownBy(counts[0], |counts| - 1, counts[|counts| - 1])
  {
    if |counts| > 1 {
      StepsAddUp(counts[..|counts| - 1]);
      WrappedSum(counts[0], |counts| - 2);
    }
  }

  lemma EachRunIsCounted(files: seq<seq<Byte>>, runs: seq<seq<RunEvent>>, counts: seq<U32>)
    requires |files| == |runs| + 1 == |counts|
    requires forall k :: 0 <= k < |runs| ==> SomeSession(files[k], runs[k], files[k + 1])
    requires forall k :: 0 <= k < |files| ==> counts[k] == RunsSoFar(files[k])
    ensures forall k :: 1 <= k < |counts| ==> GrownBy(counts[k - 1], 1, counts[k])
  {
    forall k | 1 <= k < |counts| ensures GrownBy(counts[k - 1], 1, counts[k]) {
      assert SomeSession(files[k - 1], runs[k - 1], files[k - 1 + 1]);
      OneRunIsCounted(files[k - 1], runs[k - 1], files[k]);
    }
  }

  function RunCounts(files: seq<seq<Byte>>): (counts: seq<U32>)
    ensures |counts| == |files| && forall k :: 0 <= k < |files| ==> counts[k] == RunsSoFar(files[k])
  {
    seq(|files|, k requires 0 <= k < |files| => RunsSoFar(files[k]))
  }

  /** Over a chain of `k` daemon runs the run count grows by `k`, in 32 bits. */
  lemma {:induction false} RunsAreCounted(files: seq<seq<Byte>>, runs: seq<seq<RunEvent>>)
    requires |files| == |runs| + 1
    requires forall k :: 0 <= k < |runs| ==> SomeSession(files[k], runs[k], files[k + 1])
    ensures GrownBy(RunsSoFar(files[0]), |runs|, RunsSoFar(files[|runs|]))
  {
    EachRunIsCounted(files, runs, RunCounts(files));
    StepsAddUp(RunCounts(files));
  }

  lemma ZeroNumber(data: seq<Byte>, off: nat)
    requires off + 4 <= |data|
    ensures U32At(data, off) == 0 <==> data[off] == data[off + 1] == data[off + 2] == data[off + 3] == 0
  {
  }

  lemma SmallNumber(data: seq<Byte>, off: nat, n: Byte)
    requires off + 4 <= |data|
    ensures U32At(data, off) == n <==> data[off] == n && data[off + 1] == data[off + 2] == data[off + 3] == 0
  {
  }

  /** A start takes a file if and only if it is long enough and begins with AMPC and
      version two or three. */
  lemma LoadAcceptsIff(data: seq<Byte>)
    ensures Load(data).Some? <==>
      && |data| >= 10496
      && data[0] == 0x41 && data[1] == 0x4D && data[2] == 0x50 && data[3] == 0x43
      && (data[4] == 2 || data[4] == 3) && data[5] == data[6] == data[7] == 0
  {
    if |data| >= CACHE_V2_SIZE {
      assert data[..4] == [data[0], data[1], data[2], data[3]];
      SmallNumber(data, 4, 2);
      SmallNumber(data, 4, 3);
    }
  }

  /** A profile entry is taken for an unused one if and only if its code and both
      its votes are all zero bytes. */
  lemma UnusedIff(data: seq<Byte>, i: nat)
    requires |data| >= CACHE_SIZE && i < MAX_MSG_PROFILES
    ensures Unused(ProfileAt(data, i)) <==> forall k :: 0x2900 + i * 16 <= k < 0x2900 + i * 16 + 12 ==> data[k] == 0
  {
    var off := ProfileOffset(i);
    ZeroNumber(data, off);
    ZeroNumber(data, off + 4);
    ZeroNumber(data, off + 8);
  }
}
