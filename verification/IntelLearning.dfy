/**
  Learning which opcodes can be stubbed: counters of one run, and the
  stability that runs leave behind.
*/
module IntelLearning {
  import opened Basics

  const OPCODE_COUNT: nat := 306
  const STABLE_THRESHOLD: nat := 10
  const UNSTABLE_THRESHOLD: nat := 3

  const STABILITY_UNKNOWN := 0
  const STABILITY_STABLE := 1
  const STABILITY_UNSTABLE := 2

  const HINT_CRITICAL := 1
  const HINT_SAFE_TO_STUB := 3
  const HINT_NEVER_CALLED := 4

  datatype RunEvent = Call(opcode: nat) | Stub(opcode: nat)

  /** Calls of any known opcode since the last stub of `i`, or `None`. */
  datatype Since = Never | Calls(n: nat)

  function SinceStub(events: seq<RunEvent>, i: nat): Since {
    if events == [] then Never
    else
      var before := SinceStub(events[..|events| - 1], i);
      match events[|events| - 1]
      case Stub(op) => if op == i && i < OPCODE_COUNT then Calls(0) else before
      case Call(op) => if before.Calls? && op < OPCODE_COUNT then Calls(before.n + 1) else before
  }

  function Occurrences(events: seq<RunEvent>, e: RunEvent): nat {
    if events == [] then 0
    else Occurrences(events[..|events| - 1], e) + if events[|events| - 1] == e then 1 else 0
  }

  /** What the counters of opcode `i` hold after a history. */
  ghost predicate Counts(events: seq<RunEvent>, i: nat, calls: nat, stubs: nat, post: nat) {
    && calls == Occurrences(events, Call(i))
    && stubs == Occurrences(events, Stub(i))
    && (stubs > 0 <==> SinceStub(events, i).Calls?)
    && match SinceStub(events, i)
       case Never => post == 0
       case Calls(n) => post == if n <= STABLE_THRESHOLD then n else STABLE_THRESHOLD + 1
  }

  /** How one more call moves the counters of any opcode. */
  lemma CountsAfterCall(events: seq<RunEvent>, op: nat, i: nat, calls: nat, stubs: nat, post: nat)
    requires Counts(events, i, calls, stubs, post) && i < OPCODE_COUNT
    ensures
      Counts(events + [Call(op)], i, calls + (if op == i then 1 else 0), stubs,
             if op < OPCODE_COUNT && stubs > 0 && post < STABLE_THRESHOLD + 1 then post + 1 else post)
  {
  }

  class RunCounters {
    const runCalls: array<nat>
    const runStubs: array<nat>
    const postStubRequests: array<nat>
    var totalRequests: nat
    ghost var events: seq<RunEvent>

    ghost predicate Shaped()
      reads this
    {
      && runCalls.Length == runStubs.Length == postStubRequests.Length == OPCODE_COUNT
      && runCalls != runStubs && runCalls != postStubRequests && runStubs != postStubRequests
    }

    /** The counters say exactly what the history says. */
    ghost predicate Valid()
      reads this, runCalls, runStubs, postStubRequests
    {
      && Shaped()
      && forall i :: 0 <= i < OPCODE_COUNT ==> Counts(events, i, runCalls[i], runStubs[i], postStubRequests[i])
    }

    constructor ()
      ensures Valid() && events == [] && totalRequests == 0
      ensures fresh(runCalls) && fresh(runStubs) && fresh(postStubRequests)
    {
      runCalls := new nat[OPCODE_COUNT](i => 0);
      runStubs := new nat[OPCODE_COUNT](i => 0);
      postStubRequests := new nat[OPCODE_COUNT](i => 0);
      totalRequests, events := 0, [];
    }

    method RecordCall(opcode: nat)
      requires Valid()
      modifies this, runCalls, postStubRequests
      ensures Valid() && events == old(events) + [Call(opcode)]
      ensures totalRequests == old(totalRequests) + if opcode < OPCODE_COUNT then 1 else 0
    {
      events := events + [Call(opcode)];
      forall j | 0 <= j < OPCODE_COUNT ensures
        Counts(events, j, runCalls[j] + (if opcode == j then 1 else 0), runStubs[j],
               if opcode < OPCODE_COUNT && runStubs[j] > 0 && postStubRequests[j] < STABLE_THRESHOLD + 1
               then postStubRequests[j] + 1 else postStubRequests[j])
      {
        CountsAfterCall(old(events), opcode, j, runCalls[j], runStubs[j], postStubRequests[j]);
      }
      if opcode < OPCODE_COUNT {
        runCalls[opcode] := runCalls[opcode] + 1;
        totalRequests := totalRequests + 1;
        var i := 0;
        while i < OPCODE_COUNT
          modifies postStubRequests
          invariant i <= OPCODE_COUNT
          invariant forall j :: i <= j < OPCODE_COUNT ==> postStubRequests[j] == old(postStubRequests[j])
          invariant forall j :: 0 <= j < i ==>
            postStubRequests[j] == if runStubs[j] > 0 && old(postStubRequests[j]) < STABLE_THRESHOLD + 1
                                   then old(postStubRequests[j]) + 1 else old(postStubRequests[j])
        {
          if runStubs[i] > 0 && postStubRequests[i] < STABLE_THRESHOLD + 1 {
            postStubRequests[i] := postStubRequests[i] + 1;
          }
          i := i + 1;
        }
      }
    }

    method RecordStub(opcode: nat)
      requires Valid()
      modifies this, runStubs, postStubRequests
      ensures Valid() && events == old(events) + [Stub(opcode)] && totalRequests == old(totalRequests)
    {
      events := events + [Stub(opcode)];
      assert events[..|events| - 1] == old(events);
      if opcode < OPCODE_COUNT {
        runStubs[opcode] := runStubs[opcode] + 1;
        postStubRequests[opcode] := 0;
      }
      forall j | 0 <= j < OPCODE_COUNT ensures Counts(events, j, runCalls[j], runStubs[j], postStubRequests[j]) {
        assert Counts(old(events), j, runCalls[j], old(runStubs[j]), old(postStubRequests[j]));
      }
    }
  }

  /** The stability written at shutdown. */
  function Classify(prior: int, stubs: nat, post: nat): int {
    if stubs > 0 then
      if post >= STABLE_THRESHOLD then STABILITY_STABLE
      else if post <= UNSTABLE_THRESHOLD then
        if prior == STABILITY_STABLE then STABILITY_STABLE else STABILITY_UNSTABLE
      else prior
    else prior
  }

  /** A run proves an opcode when ten requests outlived its last stub. */
  predicate Proves(events: seq<RunEvent>, i: nat) {
    match SinceStub(events, i)
    case Never => false
    case Calls(n) => n >= STABLE_THRESHOLD
  }

  /** A run disgraces an opcode when at most three did. */
  predicate Disgraces(events: seq<RunEvent>, i: nat) {
    match SinceStub(events, i)
    case Never => false
    case Calls(n) => n <= UNSTABLE_THRESHOLD
  }

  /** The stability after a run, in terms of its history alone. */
  lemma ClassifyByHistory(prior: int, events: seq<RunEvent>, i: nat, calls: nat, stubs: nat, post: nat)
    requires Counts(events, i, calls, stubs, post)
    ensures Classify(prior, stubs, post) ==
      if prior == STABILITY_STABLE || Proves(events, i) then STABILITY_STABLE
      else if Disgraces(events, i) then STABILITY_UNSTABLE
      else prior
  {
  }

  /** Stability across runs, each given by the history of its counters. */
  ghost predicate RunsTo(prior: int, runs: seq<seq<RunEvent>>, i: nat, final: int) {
    if runs == [] then final == prior
    else
      var last := |runs| - 1;
      exists mid, calls, stubs, post ::
        && RunsTo(prior, runs[..last], i, mid)
        && Counts(runs[last], i, calls, stubs, post)
        && final == Classify(mid, stubs, post)
  }

  lemma OneMoreRun(prior: int, runs: seq<seq<RunEvent>>, i: nat, mid: int, calls: nat, stubs: nat, post: nat)
    requires runs != [] && RunsTo(prior, runs[..|runs| - 1], i, mid)
    requires Counts(runs[|runs| - 1], i, calls, stubs, post)
    ensures RunsTo(prior, runs, i, Classify(mid, stubs, post))
  {
  }

  /** Over any number of runs: an opcode ends up stable if and only if it
      started so or some run proved it - so stability is never lost - and
      otherwise unstable if some run disgraced it, else as it was at the start. */
  lemma {:induction false} StabilityAcrossRuns(prior: int, runs: seq<seq<RunEvent>>, i: nat, final: int)
    requires RunsTo(prior, runs, i, final)
    ensures final == STABILITY_STABLE <==>
      prior == STABILITY_STABLE || exists k :: 0 <= k < |runs| && Proves(runs[k], i)
    ensures final != STABILITY_STABLE ==>
      final == if exists k :: 0 <= k < |runs| && Disgraces(runs[k], i) then STABILITY_UNSTABLE else prior
  {
    if runs != [] {
      var last := |runs| - 1;
      var mid, calls, stubs, post :|
        && RunsTo(prior, runs[..last], i, mid)
        && Counts(runs[last], i, calls, stubs, post)
        && final == Classify(mid, stubs, post);
      StabilityAcrossRuns(prior, runs[..last], i, mid);
      ClassifyByHistory(mid, runs[last], i, calls, stubs, post);
      assert forall k :: 0 <= k < last ==> runs[..last][k] == runs[k];
    }
  }

  /** Whether NOT_IMPLEMENTED is turned into success. */
  predicate ShouldAutoStub(hint: int, stability: int, opcode: nat, hasVarargReply: bool) {
    if hasVarargReply || opcode >= OPCODE_COUNT then false
    else if hint == HINT_CRITICAL then false
    else if hint == HINT_SAFE_TO_STUB || hint == HINT_NEVER_CALLED then true
    else stability != STABILITY_UNSTABLE
  }

  /** The decision after any number of runs, from their histories alone.  Replies of
      variable size and unknown opcodes are never stubbed; hint 1 refuses, hints
      3 and 4 accept; any other hint leaves it to the runs: refused if and only
      if no run has proved the opcode, it was not stable before, and a run has
      disgraced it or it was unstable before. */
  lemma StubDecision(prior: int, runs: seq<seq<RunEvent>>, i: nat, final: int, hint: int, vararg: bool)
    requires RunsTo(prior, runs, i, final)
    ensures ShouldAutoStub(hint, final, i, vararg) <==>
      && !vararg && i < 306 && hint != 1
      && (hint == 3 || hint == 4
          || prior == 1 || (exists k :: 0 <= k < |runs| && Proves(runs[k], i))
          || (prior != 2 && forall k :: 0 <= k < |runs| ==> !Disgraces(runs[k], i)))
  {
    StabilityAcrossRuns(prior, runs, i, final);
  }

  /** Once some run has proved an opcode, no later run makes its stub refused
      unless a hint does. */
  lemma ProvenStaysStubbed(prior: int, runs: seq<seq<RunEvent>>, i: nat, final: int, hint: int, k: nat)
    requires RunsTo(prior, runs, i, final) && i < OPCODE_COUNT
    requires k < |runs| && Proves(runs[k], i)
    ensures ShouldAutoStub(hint, final, i, false) <==> hint != HINT_CRITICAL
  {
    StabilityAcrossRuns(prior, runs, i, final);
  }
}
