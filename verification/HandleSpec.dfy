/**
  The meaning of a process's handle table: which indices are occupied, how
  often each descriptor is counted, and which descriptors are open.
  Descriptors are unique identities: a closed one is never opened again.
*/
module HandleSpec {
  import opened Basics

  type Fd = int

  datatype Entry = Entry(objectId: nat, fd: Option<Fd>, objType: nat, access: nat, options: nat)

  /** A count is stored only while it is positive. */
  type Count = n: int | 0 < n witness 1

  /** `used` is history: every index that was ever occupied. */
  datatype Table = Table(live: map<nat, Entry>, bump: nat, refcounts: map<Fd, Count>, open: set<Fd>, used: set<nat>)

  const HANDLE_MODULUS := 0x1_0000_0000
  const INDEX_LIMIT := 0x4000_0000

  type Handle = h: int | 0 <= h < HANDLE_MODULUS

  /** `idx << 2` on 32 bits, and back. */
  function ToHandle(index: nat): (h: Handle) {
    index * 4 % HANDLE_MODULUS
  }

  function ToIndex(h: Handle): (index: nat)
    ensures index < INDEX_LIMIT
  {
    h / 4
  }

  function Holders(live: map<nat, Entry>, fd: Fd): set<nat> {
    set i | i in live && live[i].fd == Some(fd)
  }

  function Counted(refcounts: map<Fd, Count>, fd: Option<Fd>): map<Fd, Count> {
    match fd
    case None => refcounts
    case Some(f) => refcounts[f := (if f in refcounts then refcounts[f] else 0) + 1]
  }

  /** Whether giving up one counted or uncounted reference closes `fd`; `rest`
      is the table that the uncounted case scans. */
  predicate LastReference(refcounts: map<Fd, Count>, rest: map<nat, Entry>, fd: Fd) {
    if fd in refcounts then refcounts[fd] == 1 else Holders(rest, fd) == {}
  }

  function Uncounted(refcounts: map<Fd, Count>, fd: Fd): map<Fd, Count> {
    if fd !in refcounts then refcounts
    else if refcounts[fd] == 1 then refcounts - {fd}
    else refcounts[fd := refcounts[fd] - 1]
  }

  const EMPTY := Table(map[], 1, map[], {}, {})

  function Allocate(t: Table, e: Entry): Table {
    Table(t.live[t.bump := e], t.bump + 1, Counted(t.refcounts, e.fd), t.open, t.used + {t.bump})
  }

  function Close(t: Table, h: Handle): Table {
    var i := ToIndex(h);
    if i !in t.live then t
    else
      var rest := t.live - {i};
      match t.live[i].fd
      case None => t.(live := rest)
      case Some(fd) =>
        t.(live := rest,
           refcounts := Uncounted(t.refcounts, fd),
           open := if LastReference(t.refcounts, rest, fd) then t.open - {fd} else t.open)
  }

  /** The displaced entry gives up its descriptor first, while it still stands
      in the table; then the new descriptor is counted. */
  function InsertAt(t: Table, h: Handle, e: Entry): Table {
    var i := ToIndex(h);
    var displaced := if i in t.live then t.live[i].fd else None;
    var released :=
      match displaced
      case None => t
      case Some(fd) =>
        t.(refcounts := Uncounted(t.refcounts, fd),
           open := if LastReference(t.refcounts, t.live, fd) then t.open - {fd} else t.open);
    released.(live := t.live[i := e],
              bump := if i < t.bump then t.bump else i + 1,
              refcounts := Counted(released.refcounts, e.fd),
              used := t.used + {i})
  }

  /** A handler replaces an entry's descriptor through `get_mut`, closing the
      old one itself; the counts do not learn of it. */
  function SwapFd(t: Table, h: Handle, fd: Fd): Table {
    var i := ToIndex(h);
    if i !in t.live then t
    else
      var previous := t.live[i].fd;
      t.(live := t.live[i := t.live[i].(fd := Some(fd))],
         open := if previous.Some? then t.open - {previous.value} else t.open)
  }

  // ---- what every operation keeps ----

  ghost predicate NoDangling(t: Table) {
    forall i :: i in t.live && t.live[i].fd.Some? ==> t.live[i].fd.value in t.open
  }

  /** An open descriptor that is counted at all is counted exactly. */
  ghost predicate CountsExact(t: Table) {
    forall fd :: CountExact(t, fd)
  }

  ghost predicate CountExact(t: Table, fd: Fd) {
    fd in t.open && fd in t.refcounts ==> t.refcounts[fd] == |Holders(t.live, fd)|
  }

  ghost predicate IndicesBounded(t: Table) {
    && (forall i :: i in t.live ==> i in t.used)
    && (forall i :: i in t.used ==> i < t.bump)
    && t.bump >= 1
  }

  ghost predicate Inv(t: Table) {
    NoDangling(t) && CountsExact(t) && IndicesBounded(t)
  }

  /** All references are counted: no handler has replaced a descriptor. */
  ghost predicate AllCounted(t: Table) {
    forall fd :: AllCountedFor(t, fd)
  }

  ghost predicate AllCountedFor(t: Table, fd: Fd) {
    fd in t.refcounts <==> Holders(t.live, fd) != {}
  }

  /** What a caller owes for a descriptor it hands over: it is open, and either
      counted already or in no entry. */
  ghost predicate MayInstall(t: Table, e: Entry) {
    e.fd.Some? ==> e.fd.value in t.open && (e.fd.value in t.refcounts || Holders(t.live, e.fd.value) == {})
  }

  /** The same for overwriting `h`: the entry that goes does not matter. */
  ghost predicate MayInstallAt(t: Table, h: Handle, e: Entry) {
    e.fd.Some? ==>
      e.fd.value in t.open && (e.fd.value in t.refcounts || Holders(t.live, e.fd.value) - {ToIndex(h)} == {})
  }

  ghost predicate MaySwap(t: Table, h: Handle, fd: Fd) {
    && fd in t.open && fd !in t.refcounts && Holders(t.live, fd) == {}
    && (ToIndex(h) in t.live && t.live[ToIndex(h)].fd.Some? ==>
          Holders(t.live, t.live[ToIndex(h)].fd.value) == {ToIndex(h)})
  }

  lemma HoldersAfterSet(live: map<nat, Entry>, i: nat, e: Entry, fd: Fd)
    ensures
      Holders(live[i := e], fd) ==
        if e.fd == Some(fd) then Holders(live, fd) + {i} else Holders(live, fd) - {i}
  {
  }

  lemma HoldersAfterRemove(live: map<nat, Entry>, i: nat, fd: Fd)
    ensures Holders(live - {i}, fd) == Holders(live, fd) - {i}
  {
  }

  lemma AllocateOneFd(t: Table, e: Entry, fd: Fd)
    requires Inv(t) && MayInstall(t, e)
    ensures CountExact(Allocate(t, e), fd)
    ensures AllCountedFor(t, fd) ==> AllCountedFor(Allocate(t, e), fd)
  {
    assert CountExact(t, fd);
    HoldersAfterSet(t.live, t.bump, e, fd);
    assert t.bump !in Holders(t.live, fd);
  }

  /** Installing an open descriptor keeps the counts exact if and only if it is
      counted already or in no entry. */
  lemma AllocateKeepsInv(t: Table, e: Entry)
    requires Inv(t) && (e.fd.Some? ==> e.fd.value in t.open)
    ensures Inv(Allocate(t, e)) <==> MayInstall(t, e)
    ensures Allocate(t, e).live == t.live[t.bump := e] && Allocate(t, e).open == t.open
    ensures AllCounted(t) ==> MayInstall(t, e) && AllCounted(Allocate(t, e))
  {
    var t' := Allocate(t, e);
    if AllCounted(t) && e.fd.Some? {
      assert AllCountedFor(t, e.fd.value);
    }
    if MayInstall(t, e) {
      forall fd ensures CountExact(t', fd) && (AllCountedFor(t, fd) ==> AllCountedFor(t', fd)) {
        AllocateOneFd(t, e, fd);
      }
    } else {
      var fd := e.fd.value;
      HoldersAfterSet(t.live, t.bump, e, fd);
      assert t.bump !in Holders(t.live, fd);
      assert !CountExact(t', fd);
    }
  }

  /** Closing a handle closes a descriptor exactly when the handle was the only
      one left that refers to it. */
  ghost predicate ClosesExactly(t: Table, h: Handle, fd: Fd) {
    fd in t.open ==> (fd !in Close(t, h).open <==> Holders(t.live, fd) == {ToIndex(h)})
  }

  lemma CloseOneFd(t: Table, h: Handle, fd: Fd)
    requires Inv(t)
    ensures CountExact(Close(t, h), fd)
    ensures AllCountedFor(t, fd) ==> AllCountedFor(Close(t, h), fd)
    ensures ClosesExactly(t, h, fd)
  {
    var i, held := ToIndex(h), Holders(t.live, fd);
    assert CountExact(t, fd);
    HoldersAfterRemove(t.live, i, fd);
    if i in held {
      assert |held - {i}| == |held| - 1;
      assert held - {i} == {} <==> held == {i};
    } else {
      assert held - {i} == held;
    }
  }

  lemma CloseKeepsInv(t: Table, h: Handle)
    requires Inv(t)
    ensures Inv(Close(t, h))
    ensures AllCounted(t) ==> AllCounted(Close(t, h))
    ensures forall fd :: ClosesExactly(t, h, fd)
    ensures Close(t, h).live == t.live - {ToIndex(h)}
  {
    var t' := Close(t, h);
    forall fd ensures CountExact(t', fd) && (AllCountedFor(t, fd) ==> AllCountedFor(t', fd)) && ClosesExactly(t, h, fd) {
      CloseOneFd(t, h, fd);
    }
    forall i | i in t'.live && t'.live[i].fd.Some? ensures t'.live[i].fd.value in t'.open {
      var fd := t.live[i].fd.value;
      assert ClosesExactly(t, h, fd) && i in Holders(t.live, fd) && i != ToIndex(h);
    }
  }

  /** The new entry carries the very descriptor whose last reference it
      displaces. */
  predicate ReusesLast(t: Table, h: Handle, e: Entry) {
    var i := ToIndex(h);
    && i in t.live && e.fd.Some? && t.live[i].fd == e.fd
    && e.fd.value in t.refcounts && t.refcounts[e.fd.value] == 1
  }

  ghost predicate InsertClosesExactly(t: Table, h: Handle, e: Entry, fd: Fd) {
    fd in t.open ==>
      (fd !in InsertAt(t, h, e).open <==> fd in t.refcounts && Holders(t.live, fd) == {ToIndex(h)})
  }

  lemma InsertDisplacedFd(t: Table, h: Handle, e: Entry, fd: Fd)
    requires Inv(t) && MayInstallAt(t, h, e) && ToIndex(h) in Holders(t.live, fd)
    ensures CountExact(InsertAt(t, h, e), fd)
    ensures AllCountedFor(t, fd) ==> AllCountedFor(InsertAt(t, h, e), fd)
    ensures InsertClosesExactly(t, h, e, fd)
  {
    var i, held := ToIndex(h), Holders(t.live, fd);
    assert CountExact(t, fd);
    HoldersAfterSet(t.live, i, e, fd);
    assert |held - {i}| == |held| - 1;
    assert held - {i} == {} <==> held == {i};
    assert held + {i} == held;
  }

  lemma InsertOtherFd(t: Table, h: Handle, e: Entry, fd: Fd)
    requires Inv(t) && MayInstallAt(t, h, e) && ToIndex(h) !in Holders(t.live, fd)
    ensures CountExact(InsertAt(t, h, e), fd)
    ensures AllCountedFor(t, fd) ==> AllCountedFor(InsertAt(t, h, e), fd)
    ensures InsertClosesExactly(t, h, e, fd)
  {
    var i, held := ToIndex(h), Holders(t.live, fd);
    assert CountExact(t, fd);
    HoldersAfterSet(t.live, i, e, fd);
    assert held - {i} == held;
  }

  /** Overwriting a handle keeps the counts exact, and closes a counted
      descriptor exactly when its last reference is displaced.  A live entry
      is left with a closed descriptor if and only if the new entry reuses the
      descriptor that is closed on its behalf. */
  lemma InsertAtOutcome(t: Table, h: Handle, e: Entry)
    requires Inv(t) && MayInstallAt(t, h, e)
    ensures CountsExact(InsertAt(t, h, e)) && IndicesBounded(InsertAt(t, h, e))
    ensures AllCounted(t) ==> AllCounted(InsertAt(t, h, e))
    ensures forall fd :: InsertClosesExactly(t, h, e, fd)
    ensures NoDangling(InsertAt(t, h, e)) <==> !ReusesLast(t, h, e)
    ensures InsertAt(t, h, e).live == t.live[ToIndex(h) := e]
  {
    var i, t' := ToIndex(h), InsertAt(t, h, e);
    forall fd ensures
      CountExact(t', fd) && (AllCountedFor(t, fd) ==> AllCountedFor(t', fd)) && InsertClosesExactly(t, h, e, fd)
    {
      if i in Holders(t.live, fd) {
        InsertDisplacedFd(t, h, e, fd);
      } else {
        InsertOtherFd(t, h, e, fd);
      }
    }
    if ReusesLast(t, h, e) {
      assert t'.live[i].fd == e.fd && e.fd.value !in t'.open;
    } else {
      forall j | j in t'.live && t'.live[j].fd.Some? ensures t'.live[j].fd.value in t'.open {
        var fd := t'.live[j].fd.value;
        assert InsertClosesExactly(t, h, e, fd) && CountExact(t, fd);
        if j != i {
          assert j in Holders(t.live, fd);
        } else if fd !in t'.open {
          assert i in Holders(t.live, fd);
          assert ReusesLast(t, h, e);
        }
      }
    }
  }

  /** Overwriting with an open descriptor keeps the counts exact if and only if
      it is counted already or in no other entry. */
  lemma InsertAtCountsIff(t: Table, h: Handle, e: Entry)
    requires Inv(t) && (e.fd.Some? ==> e.fd.value in t.open) && !ReusesLast(t, h, e)
    ensures Inv(InsertAt(t, h, e)) <==> MayInstallAt(t, h, e)
  {
    if MayInstallAt(t, h, e) {
      InsertAtOutcome(t, h, e);
    } else {
      var fd, i, t' := e.fd.value, ToIndex(h), InsertAt(t, h, e);
      HoldersAfterSet(t.live, i, e, fd);
      var other :| other in Holders(t.live, fd) - {i};
      assert {other, i} <= Holders(t'.live, fd);
      TwoAreTwo(Holders(t'.live, fd), other, i);
      assert t'.refcounts[fd] == 1 && fd in t'.open;
      assert !CountExact(t', fd);
    }
  }

  lemma TwoAreTwo(s: set<nat>, a: nat, b: nat)
    requires a in s && b in s && a != b
    ensures |s| >= 2
  {
    assert |s - {a}| == |s| - 1;
    assert b in s - {a};
  }

  /** Replacing a descriptor behind the table's back, by one that is open and
      in no entry, leaves a live entry with a closed descriptor if and only if
      another entry still held the one replaced. */
  lemma SwapFdOutcome(t: Table, h: Handle, fd: Fd)
    requires Inv(t) && fd in t.open && fd !in t.refcounts && Holders(t.live, fd) == {}
    ensures CountsExact(SwapFd(t, h, fd)) && IndicesBounded(SwapFd(t, h, fd))
    ensures NoDangling(SwapFd(t, h, fd)) <==> MaySwap(t, h, fd)
    ensures forall i :: i in SwapFd(t, h, fd).live <==> i in t.live
    ensures forall i :: i in t.live ==>
      SwapFd(t, h, fd).live[i] == if i == ToIndex(h) then t.live[i].(fd := Some(fd)) else t.live[i]
  {
    var i, t' := ToIndex(h), SwapFd(t, h, fd);
    if i in t.live {
      var e := t.live[i].(fd := Some(fd));
      forall f ensures CountExact(t', f) {
        assert CountExact(t, f);
        HoldersAfterSet(t.live, i, e, f);
        assert f in t'.open && f != fd ==> i !in Holders(t.live, f);
      }
      if t.live[i].fd.Some? {
        var before := t.live[i].fd.value;
        assert i in Holders(t.live, before);
        if j :| j in Holders(t.live, before) && j != i {
          assert t'.live[j].fd == Some(before) && before !in t'.open;
        } else {
          assert Holders(t.live, before) == {i};
          forall j | j in t'.live && t'.live[j].fd.Some? ensures t'.live[j].fd.value in t'.open {
            assert j != i ==> j !in Holders(t.live, before);
            assert j == i ==> i !in Holders(t.live, fd);
          }
        }
      }
    }
  }

  // ---- runs ----

  datatype Op =
    | OpenFd(fd: Fd)
    | AllocateOp(entry: Entry)
    | CloseOp(handle: Handle)
    | InsertOp(handle: Handle, entry: Entry)
    | SwapOp(handle: Handle, fd: Fd)

  ghost predicate Legal(t: Table, op: Op) {
    match op
    case OpenFd(fd) => fd !in t.open && fd !in t.refcounts
    case AllocateOp(e) => MayInstall(t, e)
    case CloseOp(_) => true
    case InsertOp(h, e) => MayInstallAt(t, h, e) && !ReusesLast(t, h, e)
    case SwapOp(h, fd) => MaySwap(t, h, fd)
  }

  function Apply(t: Table, op: Op): Table {
    match op
    case OpenFd(fd) => t.(open := t.open + {fd})
    case AllocateOp(e) => Allocate(t, e)
    case CloseOp(h) => Close(t, h)
    case InsertOp(h, e) => InsertAt(t, h, e)
    case SwapOp(h, fd) => SwapFd(t, h, fd)
  }

  function Run(ops: seq<Op>): Table {
    if ops == [] then EMPTY else Apply(Run(ops[..|ops| - 1]), ops[|ops| - 1])
  }

  ghost predicate LegalRun(ops: seq<Op>) {
    ops == [] || (LegalRun(ops[..|ops| - 1]) && Legal(Run(ops[..|ops| - 1]), ops[|ops| - 1]))
  }

  lemma ApplyKeepsInv(t: Table, op: Op)
    requires Inv(t) && Legal(t, op)
    ensures Inv(Apply(t, op))
    ensures AllCounted(t) && !op.SwapOp? ==> AllCounted(Apply(t, op))
  {
    match op
    case OpenFd(fd) =>
      forall f ensures CountExact(Apply(t, op), f) && AllCountedFor(Apply(t, op), f) == AllCountedFor(t, f) {
        assert CountExact(t, f);
      }
    case AllocateOp(e) => AllocateKeepsInv(t, e);
    case CloseOp(h) => CloseKeepsInv(t, h);
    case InsertOp(h, e) => InsertAtOutcome(t, h, e);
    case SwapOp(h, fd) => SwapFdOutcome(t, h, fd);
  }

  /** Over any run no live handle refers to a closed descriptor, and every
      open, counted descriptor is counted once per live entry. */
  lemma {:induction false} EveryRunKeepsDescriptorsOpen(ops: seq<Op>)
    requires LegalRun(ops)
    ensures Inv(Run(ops))
    ensures (forall i :: 0 <= i < |ops| ==> !ops[i].SwapOp?) ==> AllCounted(Run(ops))
  {
    if ops != [] {
      var last := |ops| - 1;
      EveryRunKeepsDescriptorsOpen(ops[..last]);
      ApplyKeepsInv(Run(ops[..last]), ops[last]);
      assert forall i :: 0 <= i < last ==> ops[..last][i] == ops[i];
    }
  }

  /** What any caller can be expected to do: descriptors it opens are new, those
      it hands over are open, and one it swaps in is in no entry. */
  ghost predicate Possible(t: Table, op: Op) {
    match op
    case OpenFd(fd) => fd !in t.open && fd !in t.refcounts
    case AllocateOp(e) => e.fd.Some? ==> e.fd.value in t.open
    case CloseOp(_) => true
    case InsertOp(_, e) => e.fd.Some? ==> e.fd.value in t.open
    case SwapOp(_, fd) => fd in t.open && fd !in t.refcounts && Holders(t.live, fd) == {}
  }

  /** An operation keeps the counts exact and nothing dangling if and only if it
      is legal. */
  lemma KeepsInvIff(t: Table, op: Op)
    requires Inv(t) && Possible(t, op)
    ensures Inv(Apply(t, op)) <==> Legal(t, op)
  {
    match op
    case AllocateOp(e) => AllocateKeepsInv(t, e);
    case InsertOp(h, e) =>
      if ReusesLast(t, h, e) {
        InsertAtOutcome(t, h, e);
      } else {
        InsertAtCountsIff(t, h, e);
      }
    case SwapOp(h, fd) => SwapFdOutcome(t, h, fd);
    case _ => ApplyKeepsInv(t, op);
  }

  ghost predicate PossibleRun(ops: seq<Op>) {
    ops == [] || (PossibleRun(ops[..|ops| - 1]) && Possible(Run(ops[..|ops| - 1]), ops[|ops| - 1]))
  }

  ghost predicate AlwaysInv(ops: seq<Op>) {
    Inv(Run(ops)) && (ops == [] || AlwaysInv(ops[..|ops| - 1]))
  }

  /** Over every possible run: the counts stay exact and nothing dangles
      throughout, if and only if every operation was legal. */
  lemma {:induction false} RunsStaySoundIff(ops: seq<Op>)
    requires PossibleRun(ops)
    ensures LegalRun(ops) <==> AlwaysInv(ops)
  {
    if ops != [] {
      var prefix := ops[..|ops| - 1];
      RunsStaySoundIff(prefix);
      if AlwaysInv(prefix) {
        KeepsInvIff(Run(prefix), ops[|ops| - 1]);
      }
    }
  }

  /** As long as no handler replaces descriptors, the count of every descriptor
      is exactly the number of live entries that hold it. */
  lemma CountsAreReferences(ops: seq<Op>, fd: Fd)
    requires LegalRun(ops) && forall i :: 0 <= i < |ops| ==> !ops[i].SwapOp?
    ensures (if fd in Run(ops).refcounts then Run(ops).refcounts[fd] else 0) == |Holders(Run(ops).live, fd)|
  {
    EveryRunKeepsDescriptorsOpen(ops);
    var t := Run(ops);
    assert AllCountedFor(t, fd) && CountExact(t, fd);
    if fd in t.refcounts {
      var i :| i in Holders(t.live, fd);
      assert t.live[i].fd.value in t.open;
    }
  }

  // ---- what a handle reads back ----

  /** The operation stores into, changes or closes index `i`. */
  predicate Touches(t: Table, op: Op, i: nat) {
    match op
    case OpenFd(_) => false
    case AllocateOp(_) => i == t.bump
    case CloseOp(h) => i == ToIndex(h)
    case InsertOp(h, _) => i == ToIndex(h)
    case SwapOp(h, _) => i == ToIndex(h)
  }

  /** What an operation on `i` leaves there, given what was there before. */
  function Leaves(op: Op, before: Option<Entry>): Option<Entry> {
    match op
    case OpenFd(_) => before
    case AllocateOp(e) => Some(e)
    case CloseOp(_) => None
    case InsertOp(_, e) => Some(e)
    case SwapOp(_, fd) => if before.Some? then Some(before.value.(fd := Some(fd))) else None
  }

  function Look(t: Table, i: nat): Option<Entry> {
    if i in t.live then Some(t.live[i]) else None
  }

  lemma OneOpReadsBack(t: Table, op: Op, i: nat)
    ensures Look(Apply(t, op), i) == if Touches(t, op, i) then Leaves(op, Look(t, i)) else Look(t, i)
  {
  }

  /** Operation `k` is the last on `i`. */
  predicate LastOn(ops: seq<Op>, k: nat, i: nat) {
    && k < |ops| && Touches(Run(ops[..k]), ops[k], i)
    && forall j :: k < j < |ops| ==> !Touches(Run(ops[..j]), ops[j], i)
  }

  /** Over every run, legal or not: an index reads back what the last operation on
      it left there. */
  lemma {:induction false} HandlesReadBack(ops: seq<Op>, k: nat, i: nat)
    requires LastOn(ops, k, i)
    ensures Look(Run(ops), i) == Leaves(ops[k], Look(Run(ops[..k]), i))
  {
    var last := |ops| - 1;
    var before := ops[..last];
    OneOpReadsBack(Run(before), ops[last], i);
    if k < last {
      assert forall j :: 0 <= j < last ==> before[..j] == ops[..j];
      HandlesReadBack(before, k, i);
    }
  }

  /** And an index that no operation was about reads nothing. */
  lemma {:induction false} UntouchedReadsNothing(ops: seq<Op>, i: nat)
    requires forall j :: 0 <= j < |ops| ==> !Touches(Run(ops[..j]), ops[j], i)
    ensures Look(Run(ops), i) == None
  {
    if ops != [] {
      var last := |ops| - 1;
      var before := ops[..last];
      assert forall j :: 0 <= j < last ==> before[..j] == ops[..j];
      UntouchedReadsNothing(before, i);
      OneOpReadsBack(Run(before), ops[last], i);
    }
  }

  lemma ShiftedIndex(i: nat)
    ensures ToHandle(i) % 4 == 0
    ensures ToIndex(ToHandle(i)) == i <==> i < INDEX_LIMIT
    ensures 0 < i < INDEX_LIMIT ==> ToHandle(i) != 0
  {
  }

  /** The handle of the next allocation is a multiple of four.  It leads back
      to its own, never used index - and is nonzero - if and only if fewer
      than 2^30 indices have been handed out. */
  lemma NewHandleIsFresh(ops: seq<Op>)
    requires LegalRun(ops)
    ensures
      var t := Run(ops);
      var h := ToHandle(t.bump);
      && h % 4 == 0
      && (ToIndex(h) == t.bump <==> t.bump < INDEX_LIMIT)
      && (t.bump < INDEX_LIMIT ==> h != 0 && ToIndex(h) !in t.used)
  {
    EveryRunKeepsDescriptorsOpen(ops);
    ShiftedIndex(Run(ops).bump);
  }

  /** Overwriting a handle with its own last descriptor leaves it closed. */
  lemma InsertAtCanDangle(fd: Fd)
    ensures
      var e := Entry(1, Some(fd), 0, 0, 0);
      var t := Run([OpenFd(fd), AllocateOp(e)]);
      LegalRun([OpenFd(fd), AllocateOp(e)]) && !NoDangling(InsertAt(t, ToHandle(1), e))
  {
    var e := Entry(1, Some(fd), 0, 0, 0);
    var ops := [OpenFd(fd), AllocateOp(e)];
    assert ops[..1] == [OpenFd(fd)] && ops[..1][..0] == [];
    assert Run(ops[..1]) == EMPTY.(open := {fd});
    assert LegalRun(ops[..1]);
    EveryRunKeepsDescriptorsOpen(ops);
    InsertAtOutcome(Run(ops), ToHandle(1), e);
  }

  lemma OneOpMore(prefix: seq<Op>, op: Op)
    requires LegalRun(prefix) && Legal(Run(prefix), op)
    ensures LegalRun(prefix + [op]) && Run(prefix + [op]) == Apply(Run(prefix), op)
  {
    assert (prefix + [op])[..|prefix|] == prefix;
  }

  const FIRST := Entry(1, Some(10), 0, 0, 0)
  const SECOND := Entry(2, Some(20), 0, 0, 0)
  const OPENED := [OpenFd(10)] + [OpenFd(20)] + [AllocateOp(FIRST)]

  lemma RunToOpened()
    ensures LegalRun(OPENED)
    ensures Run(OPENED) == Table(map[1 := FIRST], 2, map[10 := 1], {10, 20}, {1})
  {
    OneOpMore([], OpenFd(10));
    assert [] + [OpenFd(10)] == [OpenFd(10)];
    OneOpMore([OpenFd(10)], OpenFd(20));
    OneOpMore([OpenFd(10)] + [OpenFd(20)], AllocateOp(FIRST));
    assert Run([OpenFd(10)] + [OpenFd(20)]) == Table(map[], 1, map[], {10, 20}, {});
  }

  lemma RunToSwapped()
    ensures LegalRun(OPENED + [SwapOp(4, 20)])
    ensures
      Run(OPENED + [SwapOp(4, 20)]) == Table(map[1 := FIRST.(fd := Some(20))], 2, map[10 := 1], {20}, {1})
  {
    RunToOpened();
    assert Holders(Run(OPENED).live, 10) == {1} && Holders(Run(OPENED).live, 20) == {};
    OneOpMore(OPENED, SwapOp(4, 20));
    assert {10, 20} - {10} == {20};
  }

  /** A second entry for a descriptor that was swapped in is counted as the only
      one; closing it leaves the first with a closed descriptor. */
  lemma SwappedInIsMiscounted()
    ensures
      var t := Run(OPENED + [SwapOp(4, 20)]);
      && LegalRun(OPENED + [SwapOp(4, 20)]) && Possible(t, AllocateOp(SECOND))
      && !CountsExact(Allocate(t, SECOND)) && !NoDangling(Close(Allocate(t, SECOND), 8))
  {
    RunToSwapped();
    var t := Run(OPENED + [SwapOp(4, 20)]);
    var t' := Allocate(t, SECOND);
    assert t'.live[1].fd == Some(20) && t'.live[2] == SECOND && t'.refcounts[20] == 1;
    TwoAreTwo(Holders(t'.live, 20), 1, 2);
    assert !CountExact(t', 20);
    var t'' := Close(t', 8);
    assert 1 in t''.live && 20 !in t''.open;
  }

  /** One overwrite at the last handle exhausts the indices: the next handle is
      zero. */
  lemma NextHandleIsZero()
    ensures
      var ops := [InsertOp(0xFFFF_FFFC, Entry(1, None, 0, 0, 0))];
      LegalRun(ops) && Run(ops).bump == INDEX_LIMIT && ToHandle(Run(ops).bump) == 0
  {
    OneOpMore([], InsertOp(0xFFFF_FFFC, Entry(1, None, 0, 0, 0)));
    assert [] + [InsertOp(0xFFFF_FFFC, Entry(1, None, 0, 0, 0))] == [InsertOp(0xFFFF_FFFC, Entry(1, None, 0, 0, 0))];
  }
}
