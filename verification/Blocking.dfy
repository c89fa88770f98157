/**
  When the two threads of the event loop block each other on full channels, and
  when they do not.
*/
module Blocking {
  import opened Basics
  import opened Bytes
  import opened ClientTables
  import opened CspLoop

  ghost predicate IoBlocked(s: State) {
    s.io.InBatch? && s.io.queue != [] && !Enabled(s, SendRequest)
  }

  ghost predicate AuthorityBlocked(s: State) {
    s.authority.Holding? && !Enabled(s, SendReply)
  }

  /** A thread is blocked by a full channel to a thread that is still there, and by
      nothing else. */
  lemma OnlyFullChannelsBlock(s: State)
    requires RequestsInv(s) && RepliesInv(s)
    ensures IoBlocked(s) <==>
      s.io.InBatch? && s.io.queue != [] && |s.requests| == 256 && !s.authority.AuthorityStopped?
    ensures AuthorityBlocked(s) <==> s.authority.Holding? && |s.replies| == 256 && !s.io.IoStopped?
  {
  }

  predicate AuthorityStep(a: Action) {
    a.TakeRequest? || a.SendReply? || a.StopAuthority?
  }

  /** The I/O thread has a next step, unless it is blocked or has stopped. */
  lemma IoGoesOn(s: State) returns (a: Action)
    requires RepliesInv(s) && !s.io.IoStopped? && !IoBlocked(s)
    ensures !AuthorityStep(a) && Enabled(s, a)
  {
    match s.io
    case Polling => a := EpollReturn({});
    case InBatch(queue, _, _) => a := if queue != [] then SendRequest else EndBatch;
    case Draining => a := if s.replies != [] then TakeReply else NoMoreReplies;
    case Executing(r, k) => a := if k < |r.effects| then DoEffect else EffectsDone;
    case Writing(r, w) => a := if w < |r.data| then WriteBytes(|r.data| - w) else WriteOver;
  }

  /** How many steps the reply in hand can still take. */
  function ReplyLeft(io: Io): int {
    match io
    case Executing(r, k) => |r.effects| - k + |r.data| + 2
    case Writing(r, w) => |r.data| - w + 1
    case _ => 0
  }

  /** A reply in hand is done after at most one step per effect and byte and two
      more, and nothing else delays it. */
  lemma ReplyGetsDone(s: State, a: Action)
    requires RepliesInv(s) && Enabled(s, a) && (s.io.Executing? || s.io.Writing?)
    ensures ReplyLeft(s.io) > 0
    ensures AuthorityStep(a) ==> Step(s, a).io == s.io
    ensures !AuthorityStep(a) ==> 0 <= ReplyLeft(Step(s, a).io) < ReplyLeft(s.io)
    ensures ReplyLeft(Step(s, a).io) == 0 ==> s.io.Writing? && Step(s, a).done == s.done + [Done(s.io.reply, s.io.written)]
  {
  }

  /** So has the authority, when there is something to answer. */
  lemma AuthorityGoesOn(s: State) returns (a: Action)
    requires (s.authority.Listening? && s.requests != []) || (s.authority.Holding? && !AuthorityBlocked(s))
    ensures (a.TakeRequest? || a.SendReply?) && Enabled(s, a)
  {
    if s.authority.Holding? {
      a := SendReply;
    } else {
      a := TakeRequest(map[], [], []);
      assert Registrations([]) == [] && PipesOf([]) == [];
    }
  }

  /** Each readable descriptor yields at most `burst` messages. */
  ghost predicate Polite(actions: seq<Action>, burst: nat) {
    forall i :: 0 <= i < |actions| && actions[i].Event? ==> |Emits(actions[i].source)| <= burst
  }

  const SAFE_BURST: nat := 4

  ghost function Load(s: State): nat {
    |s.requests| + |Unsent(s)| + |Held(s)| + |s.replies|
  }

  /** Once the reply queue has been seen empty, a batch adds at most
      `SAFE_BURST` messages per handled descriptor. */
  ghost predicate LoadInv(s: State) {
    && |s.requests| <= CHANNEL_CAPACITY && |s.replies| <= CHANNEL_CAPACITY
    && (s.io.Polling? ==> Load(s) <= CHANNEL_CAPACITY + 1)
    && (s.io.InBatch? ==>
          && s.io.handled + |s.io.left| <= MAX_EVENTS
          && Load(s) <= CHANNEL_CAPACITY + 1 + SAFE_BURST * s.io.handled)
  }

  lemma LoadStep(s: State, a: Action)
    requires LoadInv(s) && Enabled(s, a)
    requires a.Event? ==> |Emits(a.source)| <= SAFE_BURST
    ensures LoadInv(Step(s, a))
  {
  }

  lemma {:induction false} LoadStaysBounded(actions: seq<Action>)
    requires Polite(actions, SAFE_BURST)
    ensures var r := After(actions); r.Some? ==> LoadInv(r.value)
  {
    if actions != [] {
      var last := |actions| - 1;
      var before := After(actions[..last]);
      assert forall i :: 0 <= i < last ==> actions[..last][i] == actions[i];
      LoadStaysBounded(actions[..last]);
      if before.Some? && Enabled(before.value, actions[last]) {
        LoadStep(before.value, actions[last]);
      }
    }
  }

  /** With at most four messages per readable descriptor - one, for clients
      that wait for each reply - the two threads never block each other,
      whatever the number of clients. */
  lemma {:induction false} NoMutualBlocking(actions: seq<Action>)
    requires Polite(actions, SAFE_BURST)
    ensures var r := After(actions); r.Some? ==> !(IoBlocked(r.value) && AuthorityBlocked(r.value))
  {
    LoadStaysBounded(actions);
  }

  /** Clients whose calls have been read and not yet fully answered. */
  ghost function Callers(s: State): seq<Fd> {
    var rs, cs := InHand(s) + s.replies + Held(s), Calls(s.requests + Unsent(s));
    seq(|rs|, i requires 0 <= i < |rs| => rs[i].client) + seq(|cs|, i requires 0 <= i < |cs| => cs[i].client)
  }

  /** Each client waits for its reply before it calls again, and at most 256
      clients wait at a time.  Registrations and disconnects are free. */
  ghost predicate Waiting256(s: State) {
    NoDuplicates(Callers(s)) && |set c | c in Callers(s)| <= CHANNEL_CAPACITY
  }

  ghost predicate Disciplined(actions: seq<Action>) {
    actions == [] ||
    (var last := |actions| - 1;
     && Disciplined(actions[..last])
     && (actions[last].Event? && After(actions).Some? ==> Waiting256(After(actions).value)))
  }

  lemma {:induction false} DistinctCount(fds: seq<Fd>)
    requires NoDuplicates(fds)
    ensures |set c | c in fds| == |fds|
  {
    if fds != [] {
      var last := |fds| - 1;
      DistinctCount(fds[..last]);
      assert (set c | c in fds) == (set c | c in fds[..last]) + {fds[last]};
      assert fds[last] !in fds[..last];
    }
  }

  lemma {:induction false} CallsConcat(a: seq<Msg>, b: seq<Msg>)
    ensures Calls(a + b) == Calls(a) + Calls(b)
    decreases |b|
  {
    if b == [] {
      assert a + b == a;
    } else {
      assert (a + b)[..|a + b| - 1] == a + b[..|b| - 1];
      CallsConcat(a, b[..|b| - 1]);
    }
  }

  lemma CallersCount(s: State)
    ensures |Callers(s)| == |InHand(s)| + |s.replies| + |Held(s)| + |Calls(s.requests + Unsent(s))|
  {
  }

  lemma DroppingShrinks(m: Msg, rest: seq<Msg>)
    ensures |Calls([m] + rest)| == |Calls(rest)| + if IsCall(m) then 1 else 0
  {
    CallsConcat([m], rest);
    assert [m][..0] == [];
  }

  lemma DroppedFromQueue(requests: seq<Msg>, queue: seq<Msg>)
    requires queue != []
    ensures |Calls(requests + queue[1..])| <= |Calls(requests + queue)|
  {
    CallsConcat(requests, queue);
    CallsConcat(requests, queue[1..]);
    DroppingShrinks(queue[0], queue[1..]);
    assert queue == [queue[0]] + queue[1..];
  }

  lemma MovedAlong(requests: seq<Msg>, queue: seq<Msg>)
    requires queue != []
    ensures (requests + [queue[0]]) + queue[1..] == requests + queue
  {
  }

  lemma SendShrinks(s: State)
    requires Enabled(s, SendRequest)
    ensures |Callers(Step(s, SendRequest))| <= |Callers(s)|
  {
    CallersCount(s);
    CallersCount(Step(s, SendRequest));
    if s.authority.AuthorityStopped? {
      DroppedFromQueue(s.requests, s.io.queue);
    } else {
      MovedAlong(s.requests, s.io.queue);
    }
  }

  lemma TakeShrinks(s: State, a: Action)
    requires Enabled(s, a) && a.TakeRequest?
    ensures |Callers(Step(s, a))| <= |Callers(s)|
  {
    var t := Step(s, a);
    CallersCount(s);
    CallersCount(t);
    assert s.requests + Unsent(s) == [s.requests[0]] + (t.requests + Unsent(t));
    DroppingShrinks(s.requests[0], t.requests + Unsent(t));
  }

  lemma CallersShrink(s: State, a: Action)
    requires Enabled(s, a) && !a.Event?
    ensures |Callers(Step(s, a))| <= |Callers(s)|
  {
    if a.SendRequest? {
      SendShrinks(s);
    } else if a.TakeRequest? {
      TakeShrinks(s, a);
    } else {
      CallersCount(s);
      CallersCount(Step(s, a));
      assert Step(s, a).requests + Unsent(Step(s, a)) == s.requests + Unsent(s);
    }
  }

  lemma {:induction false} CallersStayFew(actions: seq<Action>)
    requires Disciplined(actions)
    ensures var r := After(actions); r.Some? ==> |Callers(r.value)| <= CHANNEL_CAPACITY
  {
    if actions != [] {
      var last := |actions| - 1;
      var before := After(actions[..last]);
      CallersStayFew(actions[..last]);
      if before.Some? && Enabled(before.value, actions[last]) {
        if actions[last].Event? {
          DistinctCount(Callers(After(actions).value));
        } else {
          CallersShrink(before.value, actions[last]);
        }
      }
    }
  }

  /** With at most 256 clients waiting for a reply, the authority never blocks
      on the reply channel. */
  lemma {:induction false} AuthorityNeverBlocks(actions: seq<Action>)
    requires Disciplined(actions)
    ensures var r := After(actions); r.Some? ==> !AuthorityBlocked(r.value)
  {
    CallersStayFew(actions);
  }

  // ---- the bound on messages per descriptor is exact ----

  ghost predicate Reached(s: State, burst: nat) {
    exists actions :: Polite(actions, burst) && After(actions) == Some(s)
  }

  lemma ReachedStep(s: State, a: Action, burst: nat)
    requires Reached(s, burst) && Enabled(s, a) && (a.Event? ==> |Emits(a.source)| <= burst)
    ensures Reached(Step(s, a), burst)
  {
    var actions :| Polite(actions, burst) && After(actions) == Some(s);
    var more := actions + [a];
    assert more[..|more| - 1] == actions;
    assert Polite(more, burst) && After(more) == Some(Step(s, a));
  }

  /** Nothing is under way. */
  predicate AtRest(s: State) {
    s.io == Polling && s.authority == Listening && s.requests == [] && s.replies == []
  }

  const NOTHING := TakeRequest(map[], [], [])

  /** A connection comes in and its registration is sent. */
  lemma Accepts(s: State, p: Fd, m: Fd, burst: nat) returns (t: State)
    requires Reached(s, burst) && AtRest(s) && burst >= 1 && Occurs(s.world, NewConnection(p, m))
    ensures Reached(t, burst) && t.io.InBatch? && t.io.queue == [] && t.authority == Listening && t.replies == []
    ensures |t.requests| == 1 && t.requests[0].client == p && t.requests[0].req == REQ_REGISTER
    ensures t.world == Happened(s.world, NewConnection(p, m))
  {
    var poll := EpollReturn({Listener});
    ReachedStep(s, poll, burst);
    t := Step(s, poll);
    var accept := Event(NewConnection(p, m));
    ReachedStep(t, accept, burst);
    t := Step(t, accept);
    ReachedStep(t, SendRequest, burst);
    t := Step(t, SendRequest);
  }

  /** Connect a client and let the authority take note of it. */
  lemma Connects(s: State, p: Fd, m: Fd, burst: nat) returns (t: State)
    requires Reached(s, burst) && AtRest(s) && burst >= 1 && Occurs(s.world, NewConnection(p, m))
    ensures Reached(t, burst) && AtRest(t) && t.world.tables == Added(s.world.tables, p, m)
    ensures t.world.pipes == s.world.pipes + {p} && t.world.socks == s.world.socks + {m}
    ensures p !in s.world.clients ==>
      t.world.clients == s.world.clients + {p} && t.world.known == s.world.known + {p}
  {
    t := Accepts(s, p, m, burst);
    ReachedStep(t, NOTHING, burst);
    t := Step(t, NOTHING);
    ReachedStep(t, EndBatch, burst);
    t := Step(t, EndBatch);
    ReachedStep(t, NoMoreReplies, burst);
    t := Step(t, NoMoreReplies);
  }

  const FIRST_SOCKET: nat := 1000

  /** Clients on pipes 0 to `k - 1`, each with its own socket, are connected. */
  ghost predicate HasClients(w: World, k: nat) {
    && (forall i :: 0 <= i < k ==> i in w.tables.clients)
    && (forall f :: f in w.pipes ==> 0 <= f < k)
    && k <= FIRST_SOCKET && (forall f :: f in w.socks ==> FIRST_SOCKET <= f < FIRST_SOCKET + k)
  }

  lemma OneClientMore(w: World, w': World, k: nat)
    requires HasClients(w, k) && k < FIRST_SOCKET && w'.tables == Added(w.tables, k, FIRST_SOCKET + k)
    requires w'.pipes == w.pipes + {k} && w'.socks == w.socks + {FIRST_SOCKET + k}
    ensures HasClients(w', k + 1)
  {
  }

  lemma ConnectsNext(s: State, k: nat, burst: nat) returns (t: State)
    requires Reached(s, burst) && AtRest(s) && HasClients(s.world, k) && burst >= 1 && k < FIRST_SOCKET
    ensures Reached(t, burst) && AtRest(t) && HasClients(t.world, k + 1)
  {
    t := Connects(s, k, FIRST_SOCKET + k, burst);
    OneClientMore(s.world, t.world, k);
  }

  lemma {:induction false} ConnectsMany(k: nat, burst: nat) returns (t: State)
    requires burst >= 1 && k <= FIRST_SOCKET
    ensures Reached(t, burst) && AtRest(t) && HasClients(t.world, k)
  {
    if k == 0 {
      t := INITIAL;
      assert Polite([], burst) && After([]) == Some(t);
    } else {
      var s := ConnectsMany(k - 1, burst);
      t := ConnectsNext(s, k - 1, burst);
    }
  }

  function ClientPipes(k: nat): set<Descriptor> {
    if k == 0 then {} else ClientPipes(k - 1) + {Pipe(k - 1)}
  }

  lemma {:induction false} ManyPipes(k: nat)
    ensures |ClientPipes(k)| <= k
    ensures forall d :: d in ClientPipes(k) ==> d.Pipe? && 0 <= d.fd < k
    ensures forall i :: 0 <= i < k ==> Pipe(i) in ClientPipes(k)
  {
    if k > 0 {
      ManyPipes(k - 1);
    }
  }

  /** Epoll reports the pipes of all of the first `k` clients. */
  lemma PollsAll(s: State, k: nat, burst: nat) returns (t: State)
    requires Reached(s, burst) && s.io == Polling && k <= MAX_EVENTS && HasClients(s.world, k)
    ensures Reached(t, burst) && t == s.(io := InBatch([], ClientPipes(k), 0))
  {
    ManyPipes(k);
    ReachedStep(s, EpollReturn(ClientPipes(k)), burst);
    t := Step(s, EpollReturn(ClientPipes(k)));
  }

  ghost predicate OnlyCalls(ms: seq<Msg>) {
    forall i :: 0 <= i < |ms| ==> IsCall(ms[i])
  }

  /** Send the first `k` queued messages. */
  lemma {:induction false} Sends(s: State, k: nat, burst: nat) returns (t: State)
    requires Reached(s, burst) && s.io.InBatch? && k <= |s.io.queue| && !s.authority.AuthorityStopped?
    requires |s.requests| + k <= CHANNEL_CAPACITY && OnlyCalls(s.requests) && OnlyCalls(s.io.queue)
    ensures Reached(t, burst) && t.io == s.io.(queue := s.io.queue[k..])
    ensures |t.requests| == |s.requests| + k && OnlyCalls(t.requests)
    ensures t.authority == s.authority && t.replies == s.replies && t.world == s.world
    decreases k
  {
    t := s;
    if k > 0 {
      ReachedStep(s, SendRequest, burst);
      t := Sends(Step(s, SendRequest), k - 1, burst);
    }
  }

  /** Handle the pipe of client `c`, which yields `n` calls, and send `k` of them. */
  lemma Handles(s: State, c: nat, n: nat, k: nat, burst: nat) returns (t: State)
    requires Reached(s, burst) && s.io.InBatch? && s.io.queue == []
    requires Pipe(c) in s.io.left && c in s.world.tables.clients
    requires k <= n <= burst && |s.requests| + k <= CHANNEL_CAPACITY
    requires !s.authority.AuthorityStopped? && OnlyCalls(s.requests)
    ensures Reached(t, burst) && t.io.InBatch? && |t.io.queue| == n - k && OnlyCalls(t.io.queue)
    ensures t.io.left == s.io.left - {Pipe(c)} && |t.requests| == |s.requests| + k && OnlyCalls(t.requests)
    ensures t.authority == s.authority && t.replies == s.replies && t.world == s.world
  {
    var a := Event(Data(c, seq(n, i => 0)));
    ReachedStep(s, a, burst);
    t := Step(s, a);
    t := Sends(t, k, burst);
  }

  /** In a batch, with `n` calls sent and the pipes of clients `from` to `to` still
      to be handled. */
  ghost predicate Stocked(s: State, from: nat, to: nat, n: nat) {
    && s.io.InBatch? && s.io.queue == [] && !s.authority.AuthorityStopped?
    && |s.requests| == n && OnlyCalls(s.requests)
    && forall i :: from <= i <= to ==> Pipe(i) in s.io.left && i in s.world.tables.clients
  }

  predicate SameElsewhere(s: State, t: State) {
    t.authority == s.authority && t.replies == s.replies && t.world == s.world
  }

  lemma HandlesFive(s: State, from: nat, to: nat, n: nat, burst: nat) returns (t: State)
    requires burst >= 5 && Reached(s, burst) && Stocked(s, from, to, n) && from < to && n + 5 <= CHANNEL_CAPACITY
    ensures Reached(t, burst) && Stocked(t, from + 1, to, n + 5) && SameElsewhere(s, t)
  {
    t := Handles(s, from, 5, 5, burst);
  }

  /** Handle the pipes of `k` clients, five calls each. */
  lemma {:induction false} HandlesMany(s: State, from: nat, k: nat, n: nat, burst: nat) returns (t: State)
    requires burst >= 5 && Reached(s, burst) && Stocked(s, from, from + k, n) && n + 5 * k <= CHANNEL_CAPACITY
    ensures Reached(t, burst) && Stocked(t, from + k, from + k, n + 5 * k) && SameElsewhere(s, t)
    decreases k
  {
    if k == 0 {
      t := s;
    } else {
      var u := HandlesFive(s, from, from + k, n, burst);
      t := HandlesMany(u, from + 1, k - 1, n + 5, burst);
    }
  }

  lemma NothingCreated(w: World, m: Msg)
    requires IsCall(m)
    ensures Noted(w, m, map[]) == w
  {
  }

  /** The authority takes a call. */
  lemma Takes(s: State, burst: nat) returns (t: State)
    requires Reached(s, burst) && s.authority == Listening && s.requests != [] && OnlyCalls(s.requests)
    ensures Reached(t, burst) && t.authority.Holding? && t.io == s.io && t.world == s.world
    ensures t.requests == s.requests[1..] && t.replies == s.replies
  {
    NothingCreated(s.world, s.requests[0]);
    ReachedStep(s, NOTHING, burst);
    t := Step(s, NOTHING);
  }

  /** Take and answer `k` requests. */
  lemma {:induction false} Serves(s: State, k: nat, burst: nat) returns (t: State)
    requires Reached(s, burst) && s.authority == Listening && !s.io.IoStopped?
    requires k <= |s.requests| && |s.replies| + k <= CHANNEL_CAPACITY && OnlyCalls(s.requests)
    ensures Reached(t, burst) && t.authority == Listening && t.io == s.io && t.world == s.world
    ensures |t.requests| == |s.requests| - k && |t.replies| == |s.replies| + k && OnlyCalls(t.requests)
    decreases k
  {
    t := s;
    if k > 0 {
      t := Takes(s, burst);
      ReachedStep(t, SendReply, burst);
      t := Serves(Step(t, SendReply), k - 1, burst);
    }
  }

  /** In a batch 51 clients send five calls each and one sends two, of which the
      first is sent. */
  lemma Fills(s: State, n: nat, burst: nat) returns (t: State)
    requires n == 52 && burst >= 5 && Reached(s, burst) && s.io == InBatch([], ClientPipes(n), 0) && HasClients(s.world, n)
    requires s.requests == [] && !s.authority.AuthorityStopped?
    ensures Reached(t, burst) && t.io.InBatch? && |t.io.queue| == 1 && OnlyCalls(t.io.queue)
    ensures |t.requests| == CHANNEL_CAPACITY && OnlyCalls(t.requests)
    ensures t.authority == s.authority && t.replies == s.replies && t.world == s.world
  {
    ManyPipes(n);
    assert Stocked(s, 0, 51, 0);
    var u := HandlesMany(s, 0, 51, 0, burst);
    t := Handles(u, 51, 2, 1, burst);
  }

  /** A first batch can leave a full request channel and a reply in hand. */
  lemma FirstBatch(n: nat, burst: nat) returns (t: State)
    requires n == 52 && burst >= 5
    ensures Reached(t, burst) && t.io == Polling && t.authority.Holding? && t.replies == []
    ensures |t.requests| == CHANNEL_CAPACITY && OnlyCalls(t.requests) && HasClients(t.world, n)
  {
    t := ConnectsMany(n, burst);
    t := PollsAll(t, n, burst);
    t := Fills(t, n, burst);
    t := Takes(t, burst);
    t := Sends(t, 1, burst);
    ReachedStep(t, EndBatch, burst);
    t := Step(t, EndBatch);
    ReachedStep(t, NoMoreReplies, burst);
    t := Step(t, NoMoreReplies);
  }

  /** While the next batch begins, the authority fills the reply channel and is
      left with one reply more. */
  lemma RepliesPileUp(n: nat, burst: nat) returns (t: State)
    requires n == 52 && burst >= 5
    ensures Reached(t, burst) && t.io == InBatch([], ClientPipes(n), 0) && HasClients(t.world, n)
    ensures t.requests == [] && t.authority.Holding? && |t.replies| == CHANNEL_CAPACITY
  {
    t := FirstBatch(n, burst);
    t := PollsAll(t, n, burst);
    ReachedStep(t, SendReply, burst);
    t := Step(t, SendReply);
    t := Serves(t, 255, burst);
    t := Takes(t, burst);
  }

  lemma FullIsBlocked(s: State)
    requires s.io.InBatch? && s.io.queue != [] && |s.requests| == CHANNEL_CAPACITY
    requires s.authority.Holding? && |s.replies| == CHANNEL_CAPACITY
    ensures IoBlocked(s) && AuthorityBlocked(s)
  {
  }

  lemma BothBlock(n: nat, burst: nat) returns (t: State)
    requires n == 52 && burst >= 5
    ensures Reached(t, burst) && IoBlocked(t) && AuthorityBlocked(t)
  {
    var u := RepliesPileUp(n, burst);
    t := Fills(u, n, burst);
    FullIsBlocked(t);
  }

  /** Threads that block each other do so for good: neither can do anything. */
  lemma BlockedForGood(s: State, a: Action)
    requires IoBlocked(s) && AuthorityBlocked(s)
    ensures !Enabled(s, a)
  {
  }

  /** If a descriptor may yield five messages, both threads can end up waiting
      for each other; so `NoMutualBlocking` holds for a burst size if and only
      if it is at most four. */
  lemma MutualBlockingThreshold(burst: nat)
    ensures (exists s :: Reached(s, burst) && IoBlocked(s) && AuthorityBlocked(s)) <==> burst > SAFE_BURST
  {
    if burst > SAFE_BURST {
      var t := BothBlock(52, burst);
    } else {
      forall s | Reached(s, burst) ensures !(IoBlocked(s) && AuthorityBlocked(s)) {
        var actions :| Polite(actions, burst) && After(actions) == Some(s);
        NoMutualBlocking(actions);
      }
    }
  }
}
