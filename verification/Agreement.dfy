/**
  The two threads' ideas of who is connected.  They differ only by what is still
  on its way: registrations and disconnects in the request channel, and
  registrations among the effects of replies not yet executed.
*/
module Agreement {
  import opened Basics
  import opened Bytes
  import opened ClientTables
  import opened CspLoop
  import opened Blocking

  // ---- what is on its way ----

  /** Effects of the reply in hand that are still to be done. */
  function Undone(s: State): seq<Effect> {
    if s.io.Executing? && s.io.next <= |s.io.reply.effects| then s.io.reply.effects[s.io.next..] else []
  }

  function AllRegistrations(replies: seq<Reply>): seq<(Fd, Fd)> {
    if replies == [] then []
    else
      var last := |replies| - 1;
      AllRegistrations(replies[..last]) + Registrations(replies[last].effects)
  }

  /** Registrations announced to the I/O thread and not yet executed, in order. */
  ghost function Awaiting(s: State): seq<(Fd, Fd)> {
    Registrations(Undone(s)) + AllRegistrations(s.replies) + AllRegistrations(Held(s))
  }

  ghost function InChannel(s: State): seq<Msg> {
    s.requests + Unsent(s)
  }

  function ToldOnce(known: set<Fd>, m: Msg): set<Fd> {
    if m.req == REQ_REGISTER then known + {m.client}
    else if m.req == REQ_DISCONNECT then known - {m.client}
    else known
  }

  /** What the authority will know once it has taken these messages. */
  function Told(known: set<Fd>, ms: seq<Msg>): set<Fd> {
    if ms == [] then known else ToldOnce(Told(known, ms[..|ms| - 1]), ms[|ms| - 1])
  }

  ghost function FdSet(fds: seq<Fd>): set<Fd> {
    set f | f in fds
  }

  lemma {:induction false} AllRegistrationsConcat(a: seq<Reply>, b: seq<Reply>)
    ensures AllRegistrations(a + b) == AllRegistrations(a) + AllRegistrations(b)
    decreases |b|
  {
    if b == [] {
      assert a + b == a;
    } else {
      assert (a + b)[..|a + b| - 1] == a + b[..|b| - 1];
      AllRegistrationsConcat(a, b[..|b| - 1]);
    }
  }

  lemma OneReply(r: Reply)
    ensures AllRegistrations([r]) == Registrations(r.effects)
  {
    assert [r][..0] == [];
  }

  lemma {:induction false} ToldConcat(known: set<Fd>, a: seq<Msg>, b: seq<Msg>)
    ensures Told(known, a + b) == Told(Told(known, a), b)
    decreases |b|
  {
    if b == [] {
      assert a + b == a;
    } else {
      assert (a + b)[..|a + b| - 1] == a + b[..|b| - 1];
      ToldConcat(known, a, b[..|b| - 1]);
    }
  }

  lemma ToldFirst(known: set<Fd>, m: Msg, rest: seq<Msg>)
    ensures Told(known, [m] + rest) == Told(ToldOnce(known, m), rest)
  {
    ToldConcat(known, [m], rest);
    assert [m][..0] == [];
    assert Told(known, [m]) == ToldOnce(known, m);
  }

  /** Clients that no message mentions stay as they are. */
  lemma {:induction false} ToldOfOthers(known: set<Fd>, more: set<Fd>, ms: seq<Msg>)
    requires forall i :: 0 <= i < |ms| ==> ms[i].client !in more
    ensures Told(known + more, ms) == Told(known, ms) + more
  {
    if ms != [] {
      ToldOfOthers(known, more, ms[..|ms| - 1]);
    }
  }

  // ---- invariants of every run ----

  /** The authority has announced exactly the clients it has; pipes and sockets
      are different things, and all of them have been seen being made. */
  ghost predicate WorldInv(w: World) {
    && w.known == w.clients && w.clients <= w.pipes
    && TablesInv(w.tables) && w.tables.pipes <= w.pipes && w.tables.socks <= w.socks
    && w.pipes !! w.socks
  }

  /** Announced clients are new to the I/O thread, each announced once. */
  ghost predicate Announced(w: World, regs: seq<(Fd, Fd)>) {
    && NoDuplicates(PipesOf(regs))
    && forall i :: 0 <= i < |regs| ==> regs[i].0 in w.pipes && regs[i].0 !in w.tables.pipes && regs[i].1 in w.socks
  }

  ghost predicate FromMet(w: World, ms: seq<Msg>) {
    forall i :: 0 <= i < |ms| ==> ms[i].client in w.pipes
  }

  ghost predicate Inv(s: State) {
    && WorldInv(s.world) && Announced(s.world, Awaiting(s)) && FromMet(s.world, InChannel(s))
    && (s.io.Executing? ==> s.io.next <= |s.io.reply.effects|)
  }

  lemma EventKeepsWorld(w: World, source: Source, regs: seq<(Fd, Fd)>, ms: seq<Msg>)
    requires WorldInv(w) && Announced(w, regs) && FromMet(w, ms) && Occurs(w, source)
    ensures WorldInv(Happened(w, source)) && Announced(Happened(w, source), regs) && FromMet(Happened(w, source), ms)
    ensures forall i :: 0 <= i < |Emits(source)| ==> Emits(source)[i].0 in Happened(w, source).pipes
  {
    match source
    case NewConnection(p, m) => AddingKeepsTables(w.tables, p, m);
    case Hangup(fd) => DroppingKeepsTables(w.tables, fd);
    case Data(fd, _) => assert fd in w.tables.pipes;
    case Quiet(_) =>
  }

  lemma EventKeepsInv(s: State, a: Action)
    requires Inv(s) && Enabled(s, a) && a.Event?
    ensures Inv(Step(s, a))
  {
    var ms := Label(Emits(a.source), |s.emitted|);
    EventAwaits(s, a);
    EventKeepsWorld(s.world, a.source, Awaiting(s), InChannel(s));
    AllMet(Happened(s.world, a.source), InChannel(s), ms);
  }

  lemma AllMet(w: World, a: seq<Msg>, b: seq<Msg>)
    requires FromMet(w, a) && forall i :: 0 <= i < |b| ==> b[i].client in w.pipes
    ensures FromMet(w, a + b)
  {
  }

  lemma EventAwaits(s: State, a: Action)
    requires Enabled(s, a) && a.Event?
    ensures Awaiting(Step(s, a)) == Awaiting(s)
    ensures InChannel(Step(s, a)) == InChannel(s) + Label(Emits(a.source), |s.emitted|)
  {
    var t := Step(s, a);
    assert Undone(t) == Undone(s) == [] && t.replies == s.replies && Held(t) == Held(s);
    assert Unsent(s) == [] && s.requests + [] == s.requests;
  }

  function Registration(e: Effect): seq<(Fd, Fd)> {
    if e.RegisterClient? then [(e.requestFd, e.msgFd)] else []
  }

  lemma RegistrationsFrom(es: seq<Effect>, k: nat)
    requires k < |es|
    ensures Registrations(es[k..]) == Registration(es[k]) + Registrations(es[k + 1..])
  {
    assert es[k..][1..] == es[k + 1..];
  }

  lemma Regroup(a: seq<(Fd, Fd)>, b: seq<(Fd, Fd)>, c: seq<(Fd, Fd)>, d: seq<(Fd, Fd)>)
    ensures (a + b) + c + d == a + (b + c + d)
  {
  }

  /** Executing an effect takes it off what is awaited. */
  lemma EffectIsNext(s: State)
    requires s.io.Executing? && s.io.next < |s.io.reply.effects|
    ensures Awaiting(s) == Registration(s.io.reply.effects[s.io.next]) + Awaiting(Step(s, DoEffect))
  {
    var k, es, t := s.io.next, s.io.reply.effects, Step(s, DoEffect);
    RegistrationsFrom(es, k);
    assert Undone(s) == es[k..] && Undone(t) == es[k + 1..] && Held(t) == Held(s) && t.replies == s.replies;
    Regroup(Registration(es[k]), Registrations(Undone(t)), AllRegistrations(s.replies), AllRegistrations(Held(s)));
  }

  lemma EffectKeepsWorld(w: World, e: Effect, rest: seq<(Fd, Fd)>)
    requires WorldInv(w) && e.RegisterClient? && Announced(w, [(e.requestFd, e.msgFd)] + rest)
    ensures WorldInv(Effected(w, e)) && Announced(Effected(w, e), rest)
    ensures Effected(w, e).tables == Added(w.tables, e.requestFd, e.msgFd)
  {
    var regs := [(e.requestFd, e.msgFd)] + rest;
    assert regs[0] == (e.requestFd, e.msgFd);
    AddingKeepsTables(w.tables, e.requestFd, e.msgFd);
    forall i | 0 <= i < |rest| ensures rest[i].0 != e.requestFd && rest[i] == regs[i + 1] {
      assert PipesOf(regs)[0] == e.requestFd && PipesOf(regs)[i + 1] == rest[i].0;
    }
    forall i, j | 0 <= i < j < |rest| ensures PipesOf(rest)[i] != PipesOf(rest)[j] {
      assert PipesOf(regs)[i + 1] == rest[i].0 && PipesOf(regs)[j + 1] == rest[j].0;
    }
  }

  lemma EffectKeepsInv(s: State, a: Action)
    requires Inv(s) && Enabled(s, a) && a.DoEffect?
    ensures Inv(Step(s, a))
  {
    EffectIsNext(s);
    var e, t := s.io.reply.effects[s.io.next], Step(s, a);
    if e.RegisterClient? {
      EffectKeepsWorld(s.world, e, Awaiting(t));
    } else {
      assert [] + Awaiting(t) == Awaiting(t);
    }
    assert InChannel(t) == InChannel(s);
  }

  /** A dispatch announces exactly the clients that the handler made. */
  lemma StrangersAreCreated(w: World, created: map<Fd, Fd>)
    requires WorldInv(w) && created.Keys !! w.pipes
    ensures Strangers(w, created) == created.Keys
  {
  }

  lemma NewlyAnnounced(w: World, created: map<Fd, Fd>, effects: seq<Effect>)
    requires WorldInv(w) && Dispatches(w, created, effects)
    ensures FdSet(PipesOf(Registrations(effects))) == created.Keys
    ensures
      var more := Registrations(effects);
      forall i :: 0 <= i < |more| ==> more[i].0 in created && more[i].1 in created.Values && more[i].0 !in w.pipes
  {
    StrangersAreCreated(w, created);
    var more := Registrations(effects);
    forall i | 0 <= i < |more|
      ensures more[i].0 in created && more[i].1 in created.Values && more[i].0 !in w.pipes
    {
      assert PipesOf(more)[i] in PipesOf(more);
    }
    var announced := FdSet(PipesOf(more));
    forall f | f in announced ensures f in created.Keys {
      assert f in PipesOf(more);
    }
    forall f | f in created.Keys ensures f in announced {
      assert f in Strangers(w, created);
    }
    assert announced == created.Keys;
  }

  lemma StillDistinct(w: World, regs: seq<(Fd, Fd)>, more: seq<(Fd, Fd)>)
    requires NoDuplicates(PipesOf(regs)) && NoDuplicates(PipesOf(more))
    requires forall i :: 0 <= i < |regs| ==> regs[i].0 in w.pipes
    requires forall i :: 0 <= i < |more| ==> more[i].0 !in w.pipes
    ensures NoDuplicates(PipesOf(regs + more))
  {
    var all := regs + more;
    forall i, j | 0 <= i < j < |all| ensures PipesOf(all)[i] != PipesOf(all)[j] {
      if j < |regs| {
        assert PipesOf(regs)[i] != PipesOf(regs)[j];
      } else if i >= |regs| {
        assert PipesOf(more)[i - |regs|] != PipesOf(more)[j - |regs|];
      }
    }
  }

  lemma DispatchKeepsWorld(w: World, m: Msg, created: map<Fd, Fd>, effects: seq<Effect>, regs: seq<(Fd, Fd)>)
    requires WorldInv(w) && Announced(w, regs) && IsCall(m) && Dispatches(w, created, effects)
    ensures WorldInv(Noted(w, m, created))
    ensures Announced(Noted(w, m, created), regs + Registrations(effects))
  {
    StrangersAreCreated(w, created);
    NewlyAnnounced(w, created, effects);
    StillDistinct(w, regs, Registrations(effects));
  }

  /** What a dispatch leaves awaiting: as before, then what it announced. */
  lemma TakenAwaits(s: State, a: Action)
    requires Enabled(s, a) && a.TakeRequest?
    ensures Awaiting(Step(s, a)) == Awaiting(s) + if IsCall(s.requests[0]) then Registrations(a.effects) else []
    ensures InChannel(s) == [s.requests[0]] + InChannel(Step(s, a))
  {
    var t := Step(s, a);
    assert Undone(t) == Undone(s) && t.replies == s.replies && Held(s) == [] && Unsent(t) == Unsent(s);
    assert s.requests == [s.requests[0]] + t.requests;
    var before := Registrations(Undone(s)) + AllRegistrations(s.replies);
    assert Awaiting(s) == before + [] == before;
    if IsCall(s.requests[0]) {
      OneReply(t.authority.reply);
      assert AllRegistrations(Held(t)) == Registrations(a.effects);
    } else {
      assert Held(t) == [];
    }
  }

  lemma TakeKeepsInv(s: State, a: Action)
    requires Inv(s) && Enabled(s, a) && a.TakeRequest?
    ensures Inv(Step(s, a))
  {
    var m, t := s.requests[0], Step(s, a);
    TakenAwaits(s, a);
    assert InChannel(s)[0] == m && forall i :: 0 <= i < |InChannel(t)| ==> InChannel(t)[i] == InChannel(s)[i + 1];
    if IsCall(m) {
      DispatchKeepsWorld(s.world, m, a.created, a.effects, Awaiting(s));
    } else {
      assert Awaiting(t) == Awaiting(s);
    }
  }

  lemma SendReplyOnlyMoves(s: State)
    requires Enabled(s, SendReply) && Running(s)
    ensures Awaiting(Step(s, SendReply)) == Awaiting(s)
  {
    var t := Step(s, SendReply);
    AllRegistrationsConcat(s.replies, Held(s));
    assert t.replies == s.replies + Held(s) && Held(t) == [] && Undone(t) == Undone(s);
  }

  lemma TakeReplyOnlyMoves(s: State)
    requires Enabled(s, TakeReply)
    ensures Awaiting(Step(s, TakeReply)) == Awaiting(s)
  {
    var t, r := Step(s, TakeReply), s.replies[0];
    AllRegistrationsConcat([r], t.replies);
    OneReply(r);
    assert s.replies == [r] + t.replies && Held(t) == Held(s) && Undone(s) == [];
    assert Undone(t) == r.effects;
  }

  lemma SendRequestOnlyMoves(s: State)
    requires Enabled(s, SendRequest) && Running(s)
    ensures InChannel(Step(s, SendRequest)) == InChannel(s)
    ensures Awaiting(Step(s, SendRequest)) == Awaiting(s)
  {
    var t := Step(s, SendRequest);
    assert s.io.queue == [s.io.queue[0]] + s.io.queue[1..];
    assert Undone(t) == Undone(s) && t.replies == s.replies && Held(t) == Held(s);
  }

  /** The other steps move things along without changing what is on its way. */
  lemma OthersOnlyMove(s: State, a: Action)
    requires Enabled(s, a) && !a.Event? && !a.DoEffect? && !a.TakeRequest? && !a.StopIo? && !a.StopAuthority?
    requires Running(s)
    ensures Step(s, a).world == s.world
    ensures Awaiting(Step(s, a)) == Awaiting(s) && InChannel(Step(s, a)) == InChannel(s)
  {
    var t := Step(s, a);
    if a.SendRequest? {
      SendRequestOnlyMoves(s);
    } else if a.SendReply? {
      SendReplyOnlyMoves(s);
    } else if a.TakeReply? {
      TakeReplyOnlyMoves(s);
    } else {
      assert Undone(t) == Undone(s) && t.replies == s.replies && Held(t) == Held(s) && Unsent(t) == Unsent(s);
    }
  }

  lemma StepKeepsInv(s: State, a: Action)
    requires Inv(s) && Enabled(s, a) && Running(s) && !a.StopIo? && !a.StopAuthority?
    ensures Inv(Step(s, a))
  {
    if a.Event? {
      EventKeepsInv(s, a);
    } else if a.DoEffect? {
      EffectKeepsInv(s, a);
    } else if a.TakeRequest? {
      TakeKeepsInv(s, a);
    } else {
      OthersOnlyMove(s, a);
    }
  }

  predicate Running(s: State) {
    !s.io.IoStopped? && !s.authority.AuthorityStopped?
  }

  lemma StoppingIsFinal(s: State, a: Action)
    requires Enabled(s, a) && Running(Step(s, a))
    ensures Running(s) && !a.StopIo? && !a.StopAuthority?
  {
  }

  lemma {:induction false} RunKeepsInv(actions: seq<Action>)
    requires After(actions).Some? && Running(After(actions).value)
    ensures Inv(After(actions).value)
  {
    if actions != [] {
      var prefix, last := actions[..|actions| - 1], actions[|actions| - 1];
      StoppingIsFinal(After(prefix).value, last);
      RunKeepsInv(prefix);
      StepKeepsInv(After(prefix).value, last);
    }
  }

  /** Every run, while both threads run: the authority has told the I/O thread
      about each of its clients or learnt of it from there; and a registration,
      when it is executed, is the first of its pipe. */
  lemma {:induction false} EveryClientIsAnnouncedOnce(actions: seq<Action>)
    requires After(actions).Some? && Running(After(actions).value)
    ensures
      var s := After(actions).value;
      && s.world.known == s.world.clients
      && NoDuplicates(PipesOf(Awaiting(s)))
      && (forall i :: 0 <= i < |Awaiting(s)| ==> Awaiting(s)[i].0 !in s.world.tables.pipes)
      && (Enabled(s, DoEffect) && s.io.reply.effects[s.io.next].RegisterClient? ==>
            s.io.reply.effects[s.io.next].requestFd !in s.world.tables.clients)
  {
    RunKeepsInv(actions);
    var s := After(actions).value;
    if Enabled(s, DoEffect) && s.io.reply.effects[s.io.next].RegisterClient? {
      EffectIsNext(s);
      assert Awaiting(s)[0].0 == s.io.reply.effects[s.io.next].requestFd;
    }
  }

  // ---- agreement ----

  /** Once everything on its way has arrived, the two threads mean the same
      clients. */
  ghost predicate Agree(s: State) {
    Told(s.world.known, InChannel(s)) == s.world.tables.clients.Keys + FdSet(PipesOf(Awaiting(s)))
  }

  /** Whether a connected client still counts as connected after requests with
      these opcodes: not if one of them is taken for its disconnect and none
      later for its registration. */
  predicate Stays(reqs: seq<int>) {
    reqs == [] ||
    (var last := reqs[|reqs| - 1];
     last == REQ_REGISTER || (last != REQ_DISCONNECT && Stays(reqs[..|reqs| - 1])))
  }

  lemma {:induction false} ToldOfData(known: set<Fd>, fd: Fd, reqs: seq<int>, base: nat)
    requires fd in known
    ensures Told(known, Label(Emits(Data(fd, reqs)), base)) == if Stays(reqs) then known else known - {fd}
  {
    var ms := Label(Emits(Data(fd, reqs)), base);
    if reqs != [] {
      var last := |reqs| - 1;
      assert ms[..last] == Label(Emits(Data(fd, reqs[..last])), base);
      ToldOfData(known, fd, reqs[..last], base);
    }
  }

  predicate Disloyal(a: Action) {
    a.Event? && a.source.Data? && !Stays(a.source.reqs)
  }

  lemma AwaitedIsNew(s: State, f: Fd)
    requires Inv(s) && f in FdSet(PipesOf(Awaiting(s)))
    ensures f in s.world.pipes && f !in s.world.tables.pipes
  {
    var i :| 0 <= i < |Awaiting(s)| && PipesOf(Awaiting(s))[i] == f;
  }

  lemma ToldOfOne(known: set<Fd>, m: Msg)
    ensures Told(known, [m]) == ToldOnce(known, m)
  {
    assert [m][..0] == [];
  }

  /** After an event the authority will be told its messages on top. */
  lemma ToldOfEvent(s: State, a: Action)
    requires Enabled(s, a) && a.Event?
    ensures
      var t := Step(s, a);
      && FdSet(PipesOf(Awaiting(t))) == FdSet(PipesOf(Awaiting(s)))
      && t.world.known == s.world.known
      && Told(t.world.known, InChannel(t)) ==
           Told(Told(s.world.known, InChannel(s)), Label(Emits(a.source), |s.emitted|))
  {
    EventAwaits(s, a);
    ToldConcat(s.world.known, InChannel(s), Label(Emits(a.source), |s.emitted|));
  }

  lemma ConnectedAfter(w: World, source: Source)
    requires WorldInv(w) && Occurs(w, source)
    ensures
      var before, after := w.tables.clients.Keys, Happened(w, source).tables.clients.Keys;
      && (source.NewConnection? ==> after == before + {source.pipe})
      && (source.Hangup? ==> after == before - {source.fd})
  {
    if source.Hangup? {
      DroppingKeepsTables(w.tables, source.fd);
    }
  }

  lemma ConnectedIsNotAwaited(s: State, fd: Fd)
    requires Inv(s) && fd in s.world.tables.clients
    ensures fd !in FdSet(PipesOf(Awaiting(s)))
  {
    if fd in FdSet(PipesOf(Awaiting(s))) {
      AwaitedIsNew(s, fd);
      assert false;
    }
  }

  /** An event that sends one message about one client. */
  lemma ToldOfEventAbout(s: State, a: Action, fd: Fd, req: int)
    requires Enabled(s, a) && a.Event? && Emits(a.source) == [(fd, req)] && (req == REQ_REGISTER || req == REQ_DISCONNECT)
    ensures
      var told := Told(s.world.known, InChannel(s));
      Told(s.world.known, InChannel(Step(s, a))) == if req == REQ_REGISTER then told + {fd} else told - {fd}
  {
    ToldOfEvent(s, a);
    var ms := Label(Emits(a.source), |s.emitted|);
    ToldOfOne(Told(s.world.known, InChannel(s)), ms[0]);
    assert ms == [ms[0]];
  }

  lemma AddedToBoth(told: set<Fd>, connected: set<Fd>, awaited: set<Fd>, fd: Fd)
    requires told == connected + awaited
    ensures told + {fd} == (connected + {fd}) + awaited
  {
  }

  lemma RemovedFromBoth(told: set<Fd>, connected: set<Fd>, awaited: set<Fd>, fd: Fd)
    requires told == connected + awaited && fd !in awaited
    ensures told - {fd} == (connected - {fd}) + awaited
  {
  }

  lemma AcceptAgrees(s: State, a: Action)
    requires Inv(s) && Agree(s) && Enabled(s, a) && a.Event? && a.source.NewConnection?
    ensures Agree(Step(s, a))
  {
    var told, awaited := Told(s.world.known, InChannel(s)), FdSet(PipesOf(Awaiting(s)));
    ToldOfEvent(s, a);
    ToldOfEventAbout(s, a, a.source.pipe, REQ_REGISTER);
    ConnectedAfter(s.world, a.source);
    AddedToBoth(told, s.world.tables.clients.Keys, awaited, a.source.pipe);
  }

  lemma HangupAgrees(s: State, a: Action)
    requires Inv(s) && Agree(s) && Enabled(s, a) && a.Event? && a.source.Hangup?
    ensures Agree(Step(s, a))
  {
    var told, awaited := Told(s.world.known, InChannel(s)), FdSet(PipesOf(Awaiting(s)));
    ToldOfEvent(s, a);
    ToldOfEventAbout(s, a, a.source.fd, REQ_DISCONNECT);
    ConnectedAfter(s.world, a.source);
    ConnectedIsNotAwaited(s, a.source.fd);
    RemovedFromBoth(told, s.world.tables.clients.Keys, awaited, a.source.fd);
  }

  lemma DataAgrees(s: State, a: Action)
    requires Inv(s) && Agree(s) && Enabled(s, a) && a.Event? && a.source.Data?
    ensures Agree(Step(s, a)) <==> !Disloyal(a)
  {
    ToldOfEvent(s, a);
    ToldOfData(Told(s.world.known, InChannel(s)), a.source.fd, a.source.reqs, |s.emitted|);
  }

  lemma EventAgrees(s: State, a: Action)
    requires Inv(s) && Agree(s) && Enabled(s, a) && a.Event?
    ensures Agree(Step(s, a)) <==> !Disloyal(a)
  {
    if a.source.NewConnection? {
      AcceptAgrees(s, a);
    } else if a.source.Hangup? {
      HangupAgrees(s, a);
    } else if a.source.Data? {
      DataAgrees(s, a);
    } else {
      ToldOfEvent(s, a);
      assert Label(Emits(a.source), |s.emitted|) == [];
    }
  }

  lemma EffectAgrees(s: State, a: Action)
    requires Inv(s) && Agree(s) && Enabled(s, a) && a.DoEffect?
    ensures Agree(Step(s, a))
  {
    EffectIsNext(s);
    var e, t := s.io.reply.effects[s.io.next], Step(s, a);
    assert InChannel(t) == InChannel(s) && t.world == Effected(s.world, e);
    if e.RegisterClient? {
      EffectKeepsWorld(s.world, e, Awaiting(t));
      FirstMoves((e.requestFd, e.msgFd), Awaiting(t));
      assert t.world.tables.clients.Keys == s.world.tables.clients.Keys + {e.requestFd};
    } else {
      assert [] + Awaiting(t) == Awaiting(t);
    }
  }

  lemma BothSets(a: seq<(Fd, Fd)>, b: seq<(Fd, Fd)>)
    ensures FdSet(PipesOf(a + b)) == FdSet(PipesOf(a)) + FdSet(PipesOf(b))
  {
    assert PipesOf(a + b) == PipesOf(a) + PipesOf(b);
  }

  lemma FirstMoves(r: (Fd, Fd), rest: seq<(Fd, Fd)>)
    ensures FdSet(PipesOf([r] + rest)) == {r.0} + FdSet(PipesOf(rest))
  {
    BothSets([r], rest);
    assert PipesOf([r]) == [r.0];
  }

  lemma NotedIsTold(w: World, m: Msg, created: map<Fd, Fd>)
    requires WorldInv(w) && !IsCall(m)
    ensures Noted(w, m, created).known == ToldOnce(w.known, m) && Noted(w, m, created).tables == w.tables
  {
  }

  lemma ToldOfCreated(s: State, a: Action)
    requires Inv(s) && Enabled(s, a) && a.TakeRequest? && IsCall(s.requests[0])
    ensures
      var t := Step(s, a);
      Told(t.world.known, InChannel(t)) == Told(s.world.known, InChannel(s)) + a.created.Keys
  {
    var m, t, rest := s.requests[0], Step(s, a), InChannel(Step(s, a));
    TakenAwaits(s, a);
    ToldFirst(s.world.known, m, rest);
    StrangersAreCreated(s.world, a.created);
    NotYetMet(s.world, m, rest, a.created.Keys);
    ToldOfOthers(s.world.known, a.created.Keys, rest);
    assert t.world.known == s.world.known + a.created.Keys;
  }

  lemma NotYetMet(w: World, m: Msg, rest: seq<Msg>, fds: set<Fd>)
    requires FromMet(w, [m] + rest) && fds !! w.pipes
    ensures forall i :: 0 <= i < |rest| ==> rest[i].client !in fds
  {
    forall i | 0 <= i < |rest| ensures rest[i].client !in fds {
      assert rest[i] == ([m] + rest)[i + 1];
    }
  }

  lemma CallAgrees(s: State, a: Action)
    requires Inv(s) && Agree(s) && Enabled(s, a) && a.TakeRequest? && IsCall(s.requests[0])
    ensures Agree(Step(s, a))
  {
    var told, awaited := Told(s.world.known, InChannel(s)), FdSet(PipesOf(Awaiting(s)));
    TakenAwaits(s, a);
    ToldOfCreated(s, a);
    NewlyAnnounced(s.world, a.created, a.effects);
    BothSets(Awaiting(s), Registrations(a.effects));
    AddedToAwaited(told, s.world.tables.clients.Keys, awaited, a.created.Keys);
    assert Step(s, a).world.tables == s.world.tables;
  }

  lemma AddedToAwaited(told: set<Fd>, connected: set<Fd>, awaited: set<Fd>, more: set<Fd>)
    requires told == connected + awaited
    ensures told + more == connected + (awaited + more)
  {
  }

  lemma TakeAgrees(s: State, a: Action)
    requires Inv(s) && Agree(s) && Enabled(s, a) && a.TakeRequest?
    ensures Agree(Step(s, a))
  {
    if IsCall(s.requests[0]) {
      CallAgrees(s, a);
    } else {
      TakenAwaits(s, a);
      ToldFirst(s.world.known, s.requests[0], InChannel(Step(s, a)));
      NotedIsTold(s.world, s.requests[0], a.created);
      assert Awaiting(Step(s, a)) == Awaiting(s);
    }
  }

  /** A step keeps the two threads in agreement if and only if it does not bring
      in a request whose opcode passes for its sender's disconnect. */
  lemma AgreeStep(s: State, a: Action)
    requires Inv(s) && Agree(s) && Enabled(s, a) && Running(s) && !a.StopIo? && !a.StopAuthority?
    ensures Agree(Step(s, a)) <==> !Disloyal(a)
  {
    if a.Event? {
      EventAgrees(s, a);
    } else if a.DoEffect? {
      EffectAgrees(s, a);
    } else if a.TakeRequest? {
      TakeAgrees(s, a);
    } else {
      OthersOnlyMove(s, a);
    }
  }

  /** No read of the run, while both threads ran, was disloyal. */
  ghost predicate Loyal(actions: seq<Action>) {
    actions == [] ||
    (var prefix := actions[..|actions| - 1];
     && Loyal(prefix)
     && (After(prefix).Some? && Running(After(prefix).value) ==> !Disloyal(actions[|actions| - 1])))
  }

  /** Agreement after every step of the run, while both threads run. */
  ghost predicate AlwaysAgree(actions: seq<Action>) {
    && (After(actions).Some? && Running(After(actions).value) ==> Agree(After(actions).value))
    && (actions == [] || AlwaysAgree(actions[..|actions| - 1]))
  }

  lemma DisloyaltyShows(s: State, a: Action)
    requires Enabled(s, a) && Disloyal(a) && Running(s)
    ensures Running(Step(s, a))
  {
  }

  /** In every run of both threads, until one stops: the clients that the
      authority knows and the clients that the I/O thread has are the same, up
      to the registrations and disconnects still on their way, if and only if
      no client has sent an opcode that passes for its own disconnect without
      one that passes for its registration later in the same read. */
  lemma {:induction false} ThreadsAgreeIff(actions: seq<Action>)
    requires After(actions).Some?
    ensures AlwaysAgree(actions) <==> Loyal(actions)
  {
    if actions != [] {
      var prefix, last := actions[..|actions| - 1], actions[|actions| - 1];
      ThreadsAgreeIff(prefix);
      if AlwaysAgree(prefix) && Running(After(prefix).value) {
        RunKeepsInv(prefix);
        LastStepAgrees(After(prefix).value, last);
      } else if Running(After(actions).value) {
        StoppingIsFinal(After(prefix).value, last);
      }
    }
  }

  lemma LastStepAgrees(s: State, a: Action)
    requires Inv(s) && Agree(s) && Enabled(s, a) && Running(s)
    ensures (Running(Step(s, a)) ==> Agree(Step(s, a))) <==> !Disloyal(a)
  {
    if !a.StopIo? && !a.StopAuthority? {
      AgreeStep(s, a);
    }
    if Disloyal(a) {
      DisloyaltyShows(s, a);
    }
  }

  /** With nothing on its way, the tables are equal. */
  lemma {:induction false} AtRestTheyAreEqual(actions: seq<Action>)
    requires After(actions).Some? && Running(After(actions).value) && Loyal(actions)
    requires InChannel(After(actions).value) == [] && Awaiting(After(actions).value) == []
    ensures
      var w := After(actions).value.world;
      w.clients == w.known == w.tables.clients.Keys
  {
    ThreadsAgreeIff(actions);
    RunKeepsInv(actions);
    assert PipesOf([]) == [];
  }

  // ---- two runs in which the threads go wrong ----

  /** One client, on pipe 1 with socket 2, is connected and known. */
  lemma OneClient() returns (t: State)
    ensures Reached(t, 1) && AtRest(t) && t.world.tables == Added(NO_TABLES, 1, 2)
    ensures t.world.pipes == {1} && t.world.socks == {2} && t.world.clients == {1} == t.world.known
  {
    assert Polite([], 1) && After([]) == Some(INITIAL);
    t := Connects(INITIAL, 1, 2, 1);
    assert {} + {1} == {1};
  }

  /** The client on pipe 1 sends one request, which goes into the channel. */
  lemma Requests(s: State, req: int) returns (t: State)
    requires Reached(s, 1) && AtRest(s) && 1 in s.world.tables.clients
    ensures Reached(t, 1) && t.io == Polling && t.authority == Listening && t.replies == [] && t.world == s.world
    ensures |t.requests| == 1 && t.requests[0].client == 1 && t.requests[0].req == req
  {
    var poll, data := EpollReturn({Pipe(1)}), Event(Data(1, [req]));
    ReachedStep(s, poll, 1);
    t := Step(s, poll);
    ReachedStep(t, data, 1);
    t := Step(t, data);
    ReachedStep(t, SendRequest, 1);
    t := Step(t, SendRequest);
    ReachedStep(t, EndBatch, 1);
    t := Step(t, EndBatch);
    ReachedStep(t, NoMoreReplies, 1);
    t := Step(t, NoMoreReplies);
  }

  /** A client that sends opcode -2 is forgotten by the authority and stays
      connected to the I/O thread, even when nothing is on its way. */
  lemma ForgottenButConnected()
    ensures exists t :: Reached(t, 1) && AtRest(t) && t.world.known == {} && t.world.tables.clients.Keys == {1}
  {
    var t := OneClient();
    t := Requests(t, REQ_DISCONNECT);
    ReachedStep(t, NOTHING, 1);
    t := Step(t, NOTHING);
    assert Reached(t, 1) && AtRest(t) && t.world.known == {} && t.world.tables.clients.Keys == {1};
  }

  /** A client's hangup ends the matter: what it has sent before no longer
      counts. */
  lemma HangupHeals(s: State, fd: Fd)
    requires Inv(s) && Enabled(s, Event(Hangup(fd)))
    requires Told(s.world.known, InChannel(s)) - {fd} ==
      s.world.tables.clients.Keys + FdSet(PipesOf(Awaiting(s))) - {fd}
    ensures Agree(Step(s, Event(Hangup(fd))))
  {
    var a := Event(Hangup(fd));
    ToldOfEvent(s, a);
    ToldOfEventAbout(s, a, fd, REQ_DISCONNECT);
    ConnectedAfter(s.world, a.source);
    ConnectedIsNotAwaited(s, fd);
  }

  predicate ListedUnderClosed(t: Tables, pipe: Fd) {
    pipe in t.clients && t.clients[pipe].msgFd in t.closes
  }

  const NEW_THREAD := [RegisterClient(3, 2, false)]

  /** The client has asked for a new thread, whose pipe 3 shares its socket; the
      reply is on its way. */
  lemma ThreadOnItsWay() returns (t: State)
    ensures Reached(t, 1) && t.io == Polling && t.requests == [] && t.replies == []
    ensures t.authority.Holding? && t.authority.reply.effects == NEW_THREAD
    ensures t.world.tables == Added(NO_TABLES, 1, 2)
  {
    var s := OneClient();
    s := Requests(s, 0);
    var take := TakeRequest(map[3 := 2], NEW_THREAD, []);
    assert NEW_THREAD[1..] == [] && Registrations([]) == [];
    assert Registrations(NEW_THREAD) == [(3, 2)];
    assert PipesOf([(3, 2)]) == [3];
    ReachedStep(s, take, 1);
    t := Step(s, take);
  }

  /** Its process dies. */
  lemma Dies() returns (t: State)
    ensures Reached(t, 1) && t.io.InBatch? && t.io.queue == [] && t.replies == []
    ensures t.authority.Holding? && t.authority.reply.effects == NEW_THREAD
    ensures t.world.tables == Dropped(Added(NO_TABLES, 1, 2), 1)
  {
    t := ThreadOnItsWay();
    var poll, eof := EpollReturn({Pipe(1)}), Event(Hangup(1));
    ReachedStep(t, poll, 1);
    t := Step(t, poll);
    ReachedStep(t, eof, 1);
    t := Step(t, eof);
    ReachedStep(t, SendRequest, 1);
    t := Step(t, SendRequest);
  }

  /** Only then the I/O thread finds the reply. */
  lemma DiesFirst() returns (t: State)
    ensures Reached(t, 1) && t.io.Draining? && |t.replies| == 1 && t.replies[0].effects == NEW_THREAD
    ensures t.world.tables == Dropped(Added(NO_TABLES, 1, 2), 1)
  {
    t := Dies();
    ReachedStep(t, SendReply, 1);
    t := Step(t, SendReply);
    ReachedStep(t, EndBatch, 1);
    t := Step(t, EndBatch);
  }

  /** The new thread's pipe is then listed under a socket already closed. */
  lemma ClosedSocketIsListed()
    ensures exists t :: Reached(t, 1) && ListedUnderClosed(t.world.tables, 3) && !Sound(t.world.tables)
  {
    var t := DiesFirst();
    ReachedStep(t, TakeReply, 1);
    t := Step(t, TakeReply);
    ReachedStep(t, DoEffect, 1);
    assert [] + [1] == [1];
    OnlyOne(1);
    t := Step(t, DoEffect);
    assert 2 in t.world.tables.sockets;
    assert Reached(t, 1) && ListedUnderClosed(t.world.tables, 3);
  }
}
