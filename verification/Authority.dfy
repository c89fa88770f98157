/**
  The authority's half of a request: registrations and disconnects update its
  client table; everything else is dispatched, and what the handler left behind
  becomes one reply with a list of effects.  A handler is an arbitrary function
  of the tables it sees, except that it only ever adds clients.
*/
module Authority {
  import opened Basics
  import opened Bytes
  import opened ClientTables
  import opened IoTables
  import opened CspLoop

  datatype Client = Client(
    msgFd: Fd, processId: nat, threadId: nat, isPhantom: bool, isMsgPrimary: bool, pendingFd: Option<(Fd, U32)>,
    replyFd: Option<Fd>, waitFd: Option<Fd>, queueFd: Option<Fd>, inflight: seq<Inflight>)

  /** What a dispatched handler leaves behind. */
  datatype Outcome = Outcome(
    clients: map<Fd, Client>,
    pools: map<nat, seq<Inflight>>,
    threads: map<nat, seq<nat>>,
    data: seq<Byte>,
    pipeWatches: seq<(Fd, Fd)>,
    queueWatches: seq<(Fd, int, Fd)>,
    rearms: seq<Fd>)

  type Handler = (map<Fd, Client>, map<nat, seq<Inflight>>, map<nat, seq<nat>>) -> Outcome

  datatype ReplyMsg = ReplyMsg(clientFd: Fd, data: seq<Byte>, replyFd: Option<Fd>, effects: seq<Effect>)

  function NewClient(msgFd: Fd): Client {
    Client(msgFd, 0, 0, false, true, None, None, None, None, [])
  }

  function Pool(pools: map<nat, seq<Inflight>>, pid: nat): seq<Inflight> {
    if pid in pools then pools[pid] else []
  }

  function ProcessOf(clients: map<Fd, Client>, fd: Fd): nat {
    if fd in clients then clients[fd].processId else 0
  }

  /** Clients that the I/O thread is to know about. */
  function Live(clients: map<Fd, Client>): set<Fd> {
    set f | f in clients && !clients[f].isPhantom
  }

  // ---- announcing new clients ----

  function Targets(effects: seq<Effect>): (fds: seq<Fd>)
    requires forall i :: 0 <= i < |effects| ==> effects[i].RegisterClient?
    ensures |fds| == |effects|
    ensures forall i :: 0 <= i < |fds| ==> fds[i] == effects[i].requestFd
  {
    seq(|effects|, i requires 0 <= i < |effects| => effects[i].requestFd)
  }

  /** One registration for each of `fds`, with the client's own socket. */
  ghost predicate Announces(effects: seq<Effect>, clients: map<Fd, Client>, fds: set<Fd>) {
    && (forall i :: 0 <= i < |effects| ==>
          && effects[i].RegisterClient? && effects[i].requestFd in clients
          && effects[i].msgFd == clients[effects[i].requestFd].msgFd
          && effects[i].isMsgPrimary == clients[effects[i].requestFd].isMsgPrimary)
    && NoDuplicates(Targets(effects))
    && (forall f :: f in fds <==> f in Targets(effects))
  }

  lemma OneMoreAnnounced(effects: seq<Effect>, clients: map<Fd, Client>, fds: set<Fd>, f: Fd)
    requires Announces(effects, clients, fds) && f in clients && f !in fds
    ensures
      var more := effects + [RegisterClient(f, clients[f].msgFd, clients[f].isMsgPrimary)];
      Announces(more, clients, fds + {f}) && Targets(more) == Targets(effects) + [f]
  {
    var more := effects + [RegisterClient(f, clients[f].msgFd, clients[f].isMsgPrimary)];
    assert Targets(more) == Targets(effects) + [f];
  }

  /** What handlers do to the client table: they keep every client and its kind,
      and add clients on pipes never used before. */
  ghost predicate Grows(before: map<Fd, Client>, after: map<Fd, Client>, met: set<Fd>) {
    && (forall f :: f in before ==> f in after && after[f].isPhantom == before[f].isPhantom)
    && (forall f :: f in after && f !in before ==> f !in met)
  }

  /** The size of the table betrays every newcomer: if a live client is missing
      from what the I/O thread knows, the table has grown.  Newcomers have never
      been met. */
  lemma NoNewcomerIsMissed(before: map<Fd, Client>, after: map<Fd, Client>, met: set<Fd>)
    requires Grows(before, after, met)
    ensures Live(before) <= Live(after)
    ensures forall f :: f in Live(after) && f !in Live(before) ==> f !in met
    ensures |after| <= |before| ==> Live(after) == Live(before)
  {
    forall f | f in before.Keys ensures f in after.Keys {
      assert f in before;
    }
    forall f | f in Live(before) ensures f in Live(after) {
      assert f in before;
    }
    forall f | f in Live(after) && f !in Live(before) ensures f !in met {
      assert f in after && f !in before;
    }
    assert |before| == |before.Keys| && |after| == |after.Keys|;
    if f :| f in after.Keys && f !in before.Keys {
      SmallerSet(before.Keys, after.Keys, f);
    } else {
      forall f | f in Live(after) ensures f in Live(before) {
        assert f in before.Keys;
      }
      assert Live(after) == Live(before);
    }
  }

  lemma AnnouncedIsMet(announced: seq<Fd>, news: seq<Effect>, clients: map<Fd, Client>, fds: set<Fd>, met: set<Fd>)
    requires Announces(news, clients, fds) && forall f :: f in announced ==> f in met
    ensures forall f :: f in announced + Targets(news) ==> f in met + clients.Keys
  {
    forall f | f in Targets(news) ensures f in clients {
      var i :| 0 <= i < |Targets(news)| && Targets(news)[i] == f;
    }
  }

  lemma SmallerSet(a: set<Fd>, b: set<Fd>, f: Fd)
    requires a <= b && f in b && f !in a
    ensures |a| < |b|
  {
    assert b == a + (b - a);
    assert f in b - a;
  }

  // ---- the authority of the two-thread machine ----

  /** The clients that a dispatch made, with their sockets. */
  function Made(before: map<Fd, Client>, after: map<Fd, Client>): map<Fd, Fd> {
    map f | f in after && !after[f].isPhantom && f !in Live(before) :: after[f].msgFd
  }

  /** The machine and the authority know the same clients. */
  predicate Mirrors(w: World, clients: map<Fd, Client>) {
    w.clients == Live(clients) && w.known == Live(clients)
  }

  /** The pipes are new to both threads, and sockets are not pipes. */
  predicate NewDescriptors(w: World, made: map<Fd, Fd>) {
    made.Keys !! w.pipes + w.socks && made.Values !! w.pipes + made.Keys
  }

  lemma {:induction false} RegistrationsOf(news: seq<Effect>)
    requires forall i :: 0 <= i < |news| ==> news[i].RegisterClient?
    ensures |Registrations(news)| == |news|
    ensures forall i :: 0 <= i < |news| ==> Registrations(news)[i] == (news[i].requestFd, news[i].msgFd)
  {
    if news != [] {
      RegistrationsOf(news[1..]);
    }
  }

  lemma {:induction false} NoRegistrations(effects: seq<Effect>)
    requires forall i :: 0 <= i < |effects| ==> !effects[i].RegisterClient?
    ensures Registrations(effects) == []
  {
    if effects != [] {
      NoRegistrations(effects[1..]);
    }
  }

  lemma MadeAreNewcomers(before: map<Fd, Client>, after: map<Fd, Client>)
    ensures Made(before, after).Keys == Live(after) - Live(before)
  {
    var made := Made(before, after);
    forall f ensures f in made.Keys <==> f in Live(after) - Live(before) {
      assert f in made.Keys <==> f in made;
    }
  }

  lemma MadeIsNew(before: map<Fd, Client>, after: map<Fd, Client>, met: set<Fd>)
    requires Grows(before, after, met)
    ensures Made(before, after).Keys == Live(after) - Live(before)
    ensures Live(before) + Made(before, after).Keys == Live(after)
  {
    NoNewcomerIsMissed(before, after, met);
    MadeAreNewcomers(before, after);
  }

  lemma MadeAreStrangers(w: World, made: map<Fd, Fd>)
    requires w.clients == w.known && made.Keys !! w.known
    ensures Strangers(w, made) == made.Keys
  {
  }

  /** The machine goes on mirroring the authority over a dispatch. */
  lemma DispatchIsNoted(w: World, before: map<Fd, Client>, after: map<Fd, Client>, met: set<Fd>, m: Msg)
    requires Grows(before, after, met) && IsCall(m)
    ensures Mirrors(w, before) ==> Mirrors(Noted(w, m, Made(before, after)), after)
  {
    if Mirrors(w, before) {
      MadeIsNew(before, after, met);
      MadeAreStrangers(w, Made(before, after));
    }
  }

  /** And over a registration or a disconnect of a client that is not a phantom. */
  lemma MessageIsNoted(w: World, m: Msg, sock: Fd, before: map<Fd, Client>, after: map<Fd, Client>)
    requires !IsCall(m)
    requires after ==
      if m.req == REQ_DISCONNECT then before - {m.client}
      else if m.client in before then before
      else before[m.client := NewClient(sock)]
    ensures Mirrors(w, before) && (m.client in before ==> !before[m.client].isPhantom) ==>
      Mirrors(Noted(w, m, Made(before, after)), after)
  {
  }

  /** What the announcing loop puts into a reply is what the machine takes a
      dispatch to announce. */
  lemma AnnouncedIsDispatched(w: World, before: map<Fd, Client>, after: map<Fd, Client>, met: set<Fd>,
                              news: seq<Effect>, rest: seq<Effect>)
    requires Grows(before, after, met) && Mirrors(w, before) && NewDescriptors(w, Made(before, after))
    requires Announces(news, after, Live(after) - Live(before))
    requires forall i :: 0 <= i < |rest| ==> !rest[i].RegisterClient?
    ensures Dispatches(w, Made(before, after), news + rest)
  {
    var made, regs := Made(before, after), Registrations(news + rest);
    MadeIsNew(before, after, met);
    MadeAreStrangers(w, made);
    RegistrationsConcat(news, rest);
    RegistrationsOf(news);
    NoRegistrations(rest);
    assert regs == Registrations(news);
    assert PipesOf(regs) == Targets(news);
  }

  // ---- effects of a reply ----

  function PipeEffects(watches: seq<(Fd, Fd)>): seq<Effect> {
    seq(|watches|, i requires 0 <= i < |watches| => WatchPipeFd(watches[i].0, watches[i].1))
  }

  function QueueEffects(watches: seq<(Fd, int, Fd)>): seq<Effect> {
    seq(|watches|, i requires 0 <= i < |watches| => WatchQueueFd(watches[i].0, watches[i].1, watches[i].2))
  }

  function RearmEffects(rearms: seq<Fd>): seq<Effect> {
    seq(|rearms|, i requires 0 <= i < |rearms| => RearmQueueFd(rearms[i]))
  }

  function WatchEffects(o: Outcome): seq<Effect> {
    PipeEffects(o.pipeWatches) + QueueEffects(o.queueWatches) + RearmEffects(o.rearms)
  }

  /** A descriptor waiting for the caller is sent on its message socket; without
      a socket it is closed. */
  function SendEffects(clients: map<Fd, Client>, fd: Fd): seq<Effect> {
    if fd in clients && clients[fd].pendingFd.Some? && clients[fd].msgFd >= 0
    then [SendFd(clients[fd].msgFd, clients[fd].pendingFd.value.0, clients[fd].pendingFd.value.1)]
    else []
  }

  function Unsendable(clients: map<Fd, Client>, fd: Fd): seq<Fd> {
    if fd in clients && clients[fd].pendingFd.Some? && clients[fd].msgFd < 0
    then [clients[fd].pendingFd.value.0] else []
  }

  lemma OthersRegisterNobody(o: Outcome, fd: Fd)
    ensures
      var rest := SendEffects(o.clients, fd) + WatchEffects(o);
      forall i :: 0 <= i < |rest| ==> !rest[i].RegisterClient?
  {
  }

  lemma ReplyIsDispatched(w: World, before: map<Fd, Client>, met: set<Fd>, o: Outcome, news: seq<Effect>, fd: Fd)
    requires Grows(before, o.clients, met) && Announces(news, o.clients, Live(o.clients) - Live(before))
    ensures Mirrors(w, before) && NewDescriptors(w, Made(before, o.clients)) ==>
      Dispatches(w, Made(before, o.clients), news + SendEffects(o.clients, fd) + WatchEffects(o))
  {
    if Mirrors(w, before) && NewDescriptors(w, Made(before, o.clients)) {
      var rest := SendEffects(o.clients, fd) + WatchEffects(o);
      OthersRegisterNobody(o, fd);
      AnnouncedIsDispatched(w, before, o.clients, met, news, rest);
      assert news + rest == news + SendEffects(o.clients, fd) + WatchEffects(o);
    }
  }

  /** The descriptor waiting for a caller leaves the table, and goes one way only:
      over the caller's own socket, or closed if it has none. */
  lemma WaitingFdGoesOnce(clients: map<Fd, Client>, fd: Fd)
    ensures
      var sent, closed := SendEffects(clients, fd), Unsendable(clients, fd);
      if fd in clients && clients[fd].pendingFd.Some? then
        var c := clients[fd];
        && |sent| + |closed| == 1
        && (sent != [] <==> c.msgFd >= 0)
        && (sent != [] ==> sent[0].SendFd? && sent[0].targetFd == c.msgFd)
        && (sent != [] ==> (sent[0].fdToSend, sent[0].protocolVersion) == c.pendingFd.value)
        && (closed != [] ==> closed[0] == c.pendingFd.value.0)
      else sent == [] && closed == []
    ensures forall f :: f in clients ==>
      Served(clients, fd)[f] == if f == fd then clients[f].(pendingFd := None) else clients[f]
  {
  }

  /** Every watch that the handlers asked for is started, once and in order: those
      on pipes, those on queues, then the queues to re-arm. */
  lemma WatchesAreStarted(o: Outcome)
    ensures
      var e, p, q := WatchEffects(o), |o.pipeWatches|, |o.queueWatches|;
      && |e| == p + q + |o.rearms|
      && (forall i :: 0 <= i < p ==>
            e[i].WatchPipeFd? && (e[i].pipeFd, e[i].ntsyncFd) == o.pipeWatches[i])
      && (forall i :: 0 <= i < q ==>
            e[p + i].WatchQueueFd? && (e[p + i].queueFd, e[p + i].shmPtr, e[p + i].ntsyncEventFd) == o.queueWatches[i])
      && (forall i :: 0 <= i < |o.rearms| ==> e[p + q + i].RearmQueueFd? && e[p + q + i].rearmFd == o.rearms[i])
  {
  }

  /** The table once the waiting descriptor has been taken from the caller. */
  function Served(clients: map<Fd, Client>, fd: Fd): map<Fd, Client> {
    if fd in clients then clients[fd := clients[fd].(pendingFd := None)] else clients
  }

  lemma ServingKeepsLive(clients: map<Fd, Client>, fd: Fd)
    ensures Live(Served(clients, fd)) == Live(clients) && Served(clients, fd).Keys == clients.Keys
  {
  }

  function ReplyFdOf(clients: map<Fd, Client>, fd: Fd): Option<Fd> {
    if fd in clients then clients[fd].replyFd else None
  }

  lemma ServingKeepsGrowth(before: map<Fd, Client>, after: map<Fd, Client>, met: set<Fd>, fd: Fd)
    requires Grows(before, after, met)
    ensures Grows(before, Served(after, fd), met)
  {
  }

  // ---- depositing descriptors ----

  /** The tables that a handler sees: the request's descriptors are in the pool
      of the caller's process, or with the caller if it has no process yet. */
  function Deposited(clients: map<Fd, Client>, pools: map<nat, seq<Inflight>>, fd: Fd, inflight: seq<Inflight>)
    : (r: (map<Fd, Client>, map<nat, seq<Inflight>>))
  {
    var pid := ProcessOf(clients, fd);
    if inflight == [] then (clients, pools)
    else if pid != 0 then (clients, pools[pid := Pool(pools, pid) + inflight])
    else if fd in clients then (clients[fd := clients[fd].(inflight := clients[fd].inflight + inflight)], pools)
    else (clients, pools)
  }

  /** The descriptors join the pool of the caller's process, at its end, or those
      of a caller without a process; a caller that is not in the table has none.
      Nothing else changes. */
  lemma DepositPlace(clients: map<Fd, Client>, pools: map<nat, seq<Inflight>>, fd: Fd, inflight: seq<Inflight>)
    ensures
      var (c, p) := Deposited(clients, pools, fd, inflight);
      var pid := ProcessOf(clients, fd);
      && c.Keys == clients.Keys
      && (forall q :: Pool(p, q) == Pool(pools, q) + if q == pid && q != 0 then inflight else [])
      && (forall f :: f in clients ==>
            c[f] == clients[f].(inflight := clients[f].inflight + if f == fd && pid == 0 then inflight else []))
  {
    assert inflight == [] ==> forall s: seq<Inflight> :: s + inflight == s;
  }

  /** How often `x` sits in the pool of process `pid` or with client `fd`. */
  ghost function Copies(clients: map<Fd, Client>, pools: map<nat, seq<Inflight>>, fd: Fd, pid: nat, x: Inflight): nat {
    multiset(Pool(pools, pid))[x] + if fd in clients then multiset(clients[fd].inflight)[x] else 0
  }

  lemma OneCopyMore(have: seq<Inflight>, more: seq<Inflight>, x: Inflight)
    ensures multiset(have + more)[x] == multiset(have)[x] + multiset(more)[x]
  {
    assert multiset(have + more) == multiset(have) + multiset(more);
  }

  /** Depositing adds each descriptor once if the caller is in the table, and
      nowhere if it is not. */
  lemma DepositConserves(clients: map<Fd, Client>, pools: map<nat, seq<Inflight>>, fd: Fd, inflight: seq<Inflight>, x: Inflight)
    ensures
      var (c, p) := Deposited(clients, pools, fd, inflight);
      var pid := ProcessOf(clients, fd);
      Copies(c, p, fd, pid, x) ==
        Copies(clients, pools, fd, pid, x) + (if fd in clients then multiset(inflight)[x] else 0)
  {
    DepositPlace(clients, pools, fd, inflight);
    var pid := ProcessOf(clients, fd);
    OneCopyMore(Pool(pools, pid), if pid != 0 then inflight else [], x);
    if fd in clients {
      OneCopyMore(clients[fd].inflight, if pid == 0 then inflight else [], x);
    }
  }

  function Handled(handler: Handler, clients: map<Fd, Client>, pools: map<nat, seq<Inflight>>,
                   threads: map<nat, seq<nat>>, fd: Fd, inflight: seq<Inflight>): Outcome
  {
    var (c, p) := Deposited(clients, pools, fd, inflight);
    handler(c, p, threads)
  }

  // ---- the last thread of a process ----

  /** Some client of the process runs the thread. */
  predicate Connects(clients: map<Fd, Client>, pid: nat, t: nat) {
    t != 0 && exists g :: g in clients && clients[g].processId == pid && clients[g].threadId == t
  }

  /** The threads of a process that are left when `gone` goes: listed, and
      connected through one of `clients`. */
  function Survivors(list: seq<nat>, clients: map<Fd, Client>, pid: nat, gone: nat): (left: seq<nat>)
    ensures forall t :: t in left <==> t in list && t != gone && Connects(clients, pid, t)
  {
    if list == [] then []
    else
      var rest := Survivors(list[1..], clients, pid, gone);
      var t := list[0];
      assert forall x :: x in list <==> x == t || x in list[1..];
      if t != gone && Connects(clients, pid, t) then [t] + rest else rest
  }

  function ThreadsLeft(clients: map<Fd, Client>, threads: map<nat, seq<nat>>, fd: Fd): seq<nat>
    requires fd in clients
  {
    var pid := clients[fd].processId;
    if pid in threads then Survivors(threads[pid], clients - {fd}, pid, clients[fd].threadId) else []
  }

  /** Whether the disconnect of `fd` ends its process. */
  predicate EndsProcess(clients: map<Fd, Client>, threads: map<nat, seq<nat>>, fd: Fd) {
    && fd in clients && clients[fd].processId != 0 && clients[fd].threadId != 0
    && ThreadsLeft(clients, threads, fd) == []
  }

  /** Another client of the same process is still connected. */
  predicate Sibling(clients: map<Fd, Client>, fd: Fd, g: Fd)
    requires fd in clients
  {
    g in clients && g != fd && clients[g].processId == clients[fd].processId
  }

  /** The process's thread list speaks for the client. */
  predicate Counts(clients: map<Fd, Client>, threads: map<nat, seq<nat>>, fd: Fd, g: Fd)
    requires fd in clients && g in clients
  {
    var pid := clients[fd].processId;
    && clients[g].threadId != 0 && clients[g].threadId != clients[fd].threadId
    && pid in threads && clients[g].threadId in threads[pid]
  }

  /** A process ends with its thread if and only if no other connected client of
      it has a listed thread of its own. */
  lemma EndsProcessIff(clients: map<Fd, Client>, threads: map<nat, seq<nat>>, fd: Fd)
    requires fd in clients && clients[fd].processId != 0 && clients[fd].threadId != 0
    ensures EndsProcess(clients, threads, fd) <==>
      forall g :: Sibling(clients, fd, g) ==> !Counts(clients, threads, fd, g)
  {
    var pid, left := clients[fd].processId, ThreadsLeft(clients, threads, fd);
    if left != [] {
      assert left[0] in left;
      var g :| g in clients - {fd} && clients[g].processId == pid && clients[g].threadId == left[0];
      assert Sibling(clients, fd, g) && Counts(clients, threads, fd, g);
    }
    forall g | Sibling(clients, fd, g) && Counts(clients, threads, fd, g) ensures left != [] {
      assert g in clients - {fd};
      assert clients[g].threadId in left;
    }
  }

  /** The descriptors that go with a client. */
  function OwnedFds(c: Client): seq<Fd> {
    IfAny(c.replyFd) + IfAny(c.waitFd) + IfAny(c.queueFd) + FdsOf(c.inflight)
  }

  /** How often a descriptor is among those that go with a client: once for each
      place that names it. */
  lemma OwnedOnce(c: Client, fd: Fd)
    ensures multiset(OwnedFds(c))[fd] ==
      (if c.replyFd == Some(fd) then 1 else 0) + (if c.waitFd == Some(fd) then 1 else 0) +
      (if c.queueFd == Some(fd) then 1 else 0) + Received(c.inflight, fd)
  {
    FdsAreReceived(c.inflight, fd);
    assert multiset(OwnedFds(c)) ==
      multiset(IfAny(c.replyFd)) + multiset(IfAny(c.waitFd)) + multiset(IfAny(c.queueFd)) + multiset(FdsOf(c.inflight));
  }

  /** How many of the entries carry the descriptor. */
  function Received(inflight: seq<Inflight>, fd: Fd): nat {
    if inflight == [] then 0
    else Received(inflight[..|inflight| - 1], fd) + if inflight[|inflight| - 1].fd == fd then 1 else 0
  }

  lemma {:induction false} FdsAreReceived(inflight: seq<Inflight>, fd: Fd)
    ensures multiset(FdsOf(inflight))[fd] == Received(inflight, fd)
  {
    if inflight != [] {
      var before := inflight[..|inflight| - 1];
      FdsAreReceived(before, fd);
      assert FdsOf(inflight) == FdsOf(before) + [inflight[|inflight| - 1].fd];
    }
  }

  function IfAny(fd: Option<Fd>): seq<Fd> {
    if fd.Some? then [fd.value] else []
  }

  function FdsOf(inflight: seq<Inflight>): seq<Fd> {
    seq(|inflight|, i requires 0 <= i < |inflight| => inflight[i].fd)
  }

  // ---- the authority ----

  ghost predicate Enumerates(order: seq<Fd>, clients: map<Fd, Client>) {
    NoDuplicates(order) && forall f :: f in order <==> f in clients
  }

  class Registry {
    var clients: map<Fd, Client>
    var known: set<Fd>
    var pools: map<nat, seq<Inflight>>
    var threads: map<nat, seq<nat>>
    ghost var announced: seq<Fd>
    ghost var met: set<Fd>
    ghost var closed: seq<Fd>

    /** The I/O thread knows, or is being told of, exactly the live clients; none
        was ever announced twice. */
    ghost predicate Valid()
      reads this
    {
      && known == Live(clients) && clients.Keys <= met
      && NoDuplicates(announced) && (forall f :: f in announced ==> f in met)
    }

    constructor ()
      ensures Valid() && clients == map[] && known == {} && announced == [] && met == {} && closed == []
    {
      clients, known, pools, threads, announced, met, closed := map[], {}, map[], map[], [], {}, [];
    }

    /** A registration message: ignored for a client already in the table. */
    method Register(fd: Fd, msgFd: Fd)
      requires Valid()
      modifies this`clients, this`known, this`met
      ensures Valid()
      ensures fd in old(clients) ==> clients == old(clients) && known == old(known)
      ensures fd !in old(clients) ==> clients == old(clients)[fd := NewClient(msgFd)] && known == old(known) + {fd}
      ensures fd !in old(clients) ==>
        var c := clients[fd];
        c.msgFd == msgFd && c.processId == 0 && c.threadId == 0 && c.isMsgPrimary && c.pendingFd.None? && OwnedFds(c) == []
    {
      if fd !in clients {
        clients, known := clients[fd := NewClient(msgFd)], known + {fd};
        met := met + {fd};
      }
    }

    /** A disconnect message: the client goes with its descriptors, and its
        process's pool goes with the last thread. */
    method Disconnect(fd: Fd)
      requires Valid()
      modifies this`clients, this`known, this`pools, this`threads, this`closed
      ensures Valid()
      ensures clients == old(clients) - {fd} && known == old(known) - {fd}
      ensures
        var pid := ProcessOf(old(clients), fd);
        && pools == (if EndsProcess(old(clients), old(threads), fd) then old(pools) - {pid} else old(pools))
        && threads == (if pid != 0 && pid in old(threads) && old(clients)[fd].threadId != 0
                       then old(threads)[pid := ThreadsLeft(old(clients), old(threads), fd)] else old(threads))
      ensures closed == old(closed)
        + (if fd in old(clients) then OwnedFds(old(clients)[fd]) else [])
        + (if EndsProcess(old(clients), old(threads), fd)
           then FdsOf(Pool(old(pools), ProcessOf(old(clients), fd))) else [])
    {
      if fd !in clients {
        known := known - {fd};
        assert clients - {fd} == clients;
        return;
      }
      var c := clients[fd];
      var pid, left := c.processId, ThreadsLeft(clients, threads, fd);
      closed := closed + OwnedFds(c);
      clients, known := clients - {fd}, known - {fd};
      if pid != 0 && c.threadId != 0 {
        if pid in threads {
          threads := threads[pid := left];
        }
        if left == [] {
          closed := closed + FdsOf(Pool(pools, pid));
          pools := pools - {pid};
        }
      }
    }

    /** Tell the I/O thread about every client it does not know; `order` is the
        order in which the hash map happens to list its keys. */
    method Announce(order: seq<Fd>) returns (effects: seq<Effect>)
      requires Enumerates(order, clients) && NoDuplicates(announced) && known <= Live(clients)
      requires forall f :: f in Live(clients) && f !in known ==> f !in announced
      modifies this`known, this`announced
      ensures Announces(effects, clients, Live(clients) - old(known)) && known == Live(clients)
      ensures announced == old(announced) + Targets(effects) && NoDuplicates(announced)
    {
      effects := [];
      ghost var strangers, done: set<Fd> := Live(clients) - known, {};
      for i := 0 to |order|
        invariant NoDuplicates(announced)
        invariant done == set f | f in order[..i] && f in strangers
        invariant known == old(known) + done && Announces(effects, clients, done)
        invariant announced == old(announced) + Targets(effects)
      {
        var f := order[i];
        assert f !in order[..i] && order[..i + 1] == order[..i] + [f];
        if !clients[f].isPhantom && f !in known {
          OneMoreAnnounced(effects, clients, done, f);
          effects := effects + [RegisterClient(f, clients[f].msgFd, clients[f].isMsgPrimary)];
          known, announced, done := known + {f}, announced + [f], done + {f};
        }
      }
      assert order[..|order|] == order;
      forall f | f in strangers ensures f in done {
        assert f in clients && f in order;
      }
      assert done == strangers;
    }

    /** After a handler: announce its new clients if the table has grown beyond
        `before`. */
    method AnnounceNew(ghost was: map<Fd, Client>, before: nat, order: seq<Fd>) returns (news: seq<Effect>)
      requires known == Live(was) && before == |was| && Grows(was, clients, met) && Enumerates(order, clients)
      requires NoDuplicates(announced) && forall f :: f in announced ==> f in met
      modifies this`known, this`announced, this`met
      ensures Valid()
      ensures Announces(news, clients, Live(clients) - Live(was))
      ensures announced == old(announced) + Targets(news)
    {
      NoNewcomerIsMissed(was, clients, met);
      news := [];
      if |clients| > before {
        news := Announce(order);
      } else {
        assert Live(clients) - Live(was) == {} && Announces([], clients, {}) && Targets([]) == [];
      }
      AnnouncedIsMet(old(announced), news, clients, Live(clients) - Live(was), met);
      met := met + clients.Keys;
    }

    /** Put the reply together, taking the waiting descriptor from the caller. */
    method Answer(fd: Fd, data: seq<Byte>, news: seq<Effect>, watches: seq<Effect>) returns (reply: ReplyMsg)
      requires Valid()
      modifies this`clients, this`closed
      ensures Valid() && clients == Served(old(clients), fd) && closed == old(closed) + Unsendable(old(clients), fd)
      ensures reply ==
        ReplyMsg(fd, data, ReplyFdOf(old(clients), fd), news + SendEffects(old(clients), fd) + watches)
    {
      closed := closed + Unsendable(clients, fd);
      reply := ReplyMsg(fd, data, ReplyFdOf(clients, fd), news + SendEffects(clients, fd) + watches);
      ServingKeepsLive(clients, fd);
      clients := Served(clients, fd);
    }

    /** A dispatched request, of which the handler left `o`: exactly one reply,
        which announces exactly the new live clients first, then sends the
        waiting descriptor, then starts and re-arms watches. */
    method Dispatch(fd: Fd, o: Outcome, order: seq<Fd>, ghost w: World) returns (reply: ReplyMsg, news: seq<Effect>)
      requires Valid() && Grows(clients, o.clients, met) && Enumerates(order, o.clients)
      modifies this
      ensures Valid() && pools == o.pools && threads == o.threads && clients == Served(o.clients, fd)
      ensures Announces(news, o.clients, Live(o.clients) - Live(old(clients)))
      ensures announced == old(announced) + Targets(news)
      ensures closed == old(closed) + Unsendable(o.clients, fd)
      ensures reply ==
        ReplyMsg(fd, o.data, ReplyFdOf(o.clients, fd), news + SendEffects(o.clients, fd) + WatchEffects(o))
      ensures Mirrors(w, old(clients)) && NewDescriptors(w, Made(old(clients), o.clients)) ==>
        Dispatches(w, Made(old(clients), o.clients), reply.effects)
    {
      var before := |clients|;
      clients, pools, threads := o.clients, o.pools, o.threads;
      news := AnnounceNew(old(clients), before, order);
      reply := Answer(fd, o.data, news, WatchEffects(o));
      ReplyIsDispatched(w, old(clients), old(met), o, news, fd);
    }

    /** One message from the I/O thread: a call gets exactly one reply, for its
        own sender, and the other two kinds get none. */
    method ProcessRequest(msg: RequestMsg, handler: Handler, order: seq<Fd>, ghost w: World)
      returns (reply: Option<ReplyMsg>)
      requires Valid()
      requires msg.req != REQ_REGISTER && msg.req != REQ_DISCONNECT ==>
        var o := Handled(handler, clients, pools, threads, msg.clientFd, msg.inflight);
        Grows(clients, o.clients, met) && Enumerates(order, o.clients)
      modifies this
      ensures Valid()
      ensures reply.Some? <==> msg.req != REQ_REGISTER && msg.req != REQ_DISCONNECT
      ensures reply.Some? ==>
        var o := Handled(handler, old(clients), old(pools), old(threads), msg.clientFd, msg.inflight);
        reply.value.clientFd == msg.clientFd && reply.value.data == o.data && clients == Served(o.clients, msg.clientFd)
      ensures msg.req == REQ_REGISTER ==> clients.Keys == old(clients).Keys + {msg.clientFd}
      ensures msg.req == REQ_DISCONNECT ==> clients == old(clients) - {msg.clientFd}
      ensures Mirrors(w, old(clients)) && (msg.clientFd in old(clients) ==> !old(clients)[msg.clientFd].isPhantom) ==>
        Mirrors(Noted(w, Msg(0, msg.clientFd, msg.req), Made(old(clients), clients)), clients)
    {
      reply := None;
      ghost var m := Msg(0, msg.clientFd, msg.req);
      if msg.req == REQ_REGISTER {
        Register(msg.clientFd, msg.msgFd);
        MessageIsNoted(w, m, msg.msgFd, old(clients), clients);
      } else if msg.req == REQ_DISCONNECT {
        Disconnect(msg.clientFd);
        MessageIsNoted(w, m, msg.msgFd, old(clients), clients);
      } else {
        var o := Handled(handler, clients, pools, threads, msg.clientFd, msg.inflight);
        var r, _ := Dispatch(msg.clientFd, o, order, w);
        ServingKeepsLive(o.clients, msg.clientFd);
        ServingKeepsGrowth(old(clients), o.clients, old(met), msg.clientFd);
        DispatchIsNoted(w, old(clients), clients, old(met), m);
        reply := Some(r);
      }
    }
  }
}
