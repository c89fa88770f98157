/**
  The two processes of the event loop and the two bounded channels between
  them.  The I/O thread handles a batch of ready descriptors, sending requests
  as it goes, then executes every queued reply; the authority takes requests
  one at a time and sends one reply for each that it dispatches.  The two
  interleave at every send, receive, effect and write.  Each has its own idea of
  who is connected: the I/O thread its tables, the authority its clients.
*/
module CspLoop {
  import opened Basics
  import opened Bytes
  import opened ClientTables

  const CHANNEL_CAPACITY := 256
  const MAX_EVENTS := 64

  datatype Effect =
    | RegisterClient(requestFd: Fd, msgFd: Fd, isMsgPrimary: bool)
    | SendFd(targetFd: Fd, fdToSend: Fd, protocolVersion: U32)
    | WatchPipeFd(pipeFd: Fd, ntsyncFd: Fd)
    | WatchQueueFd(queueFd: Fd, shmPtr: int, ntsyncEventFd: Fd)
    | RearmQueueFd(rearmFd: Fd)

  /** A message on the request channel; `id` numbers all of them in the order
      in which the I/O thread produced them. */
  datatype Msg = Msg(id: nat, client: Fd, req: int)

  datatype Reply = Reply(id: nat, client: Fd, effects: seq<Effect>, data: seq<Byte>)

  /** What the outside sees of a reply: an effect carried out, or one byte
      written to the client. */
  datatype Output = Did(id: nat, effect: Effect) | Put(id: nat, byte: Byte)

  /** A reply that the I/O thread is done with, and how much of it was written
      before the write finished or failed. */
  datatype Done = Done(reply: Reply, written: nat)

  /** What epoll can report: the listener, a client's request pipe, or anything
      else that sends no request. */
  datatype Descriptor = Listener | Pipe(fd: Fd) | Other(fd: Fd)

  /** What handling a ready descriptor turns out to be. */
  datatype Source =
    | NewConnection(pipe: Fd, sock: Fd)
    | Data(fd: Fd, reqs: seq<int>)
    | Hangup(fd: Fd)
    | Quiet(descriptor: Descriptor)

  datatype Io =
    | Polling
    | InBatch(queue: seq<Msg>, left: set<Descriptor>, handled: nat)
    | Draining
    | Executing(reply: Reply, next: nat)
    | Writing(reply: Reply, written: nat)
    | IoStopped

  datatype Authority = Listening | Holding(reply: Reply) | AuthorityStopped

  /** Who is connected: `tables` is the I/O thread's view; `clients` and `known`
      are the authority's.  The last two fields are history: every pipe and
      message socket that ever existed. */
  datatype World = World(tables: Tables, clients: set<Fd>, known: set<Fd>, pipes: set<Fd>, socks: set<Fd>)

  /** From `emitted` on everything is history: the messages produced, how many of
      them were taken, the replies made and done, and everything put out. */
  datatype State = State(
    io: Io,
    authority: Authority,
    requests: seq<Msg>,
    replies: seq<Reply>,
    world: World,
    emitted: seq<Msg>,
    taken: nat,
    made: seq<Reply>,
    done: seq<Done>,
    outputs: seq<Output>)

  datatype Action =
    | EpollReturn(ready: set<Descriptor>)
    | Event(source: Source)
    | SendRequest
    | EndBatch
    | TakeReply
    | DoEffect
    | EffectsDone
    | WriteBytes(n: nat)
    | WriteOver
    | NoMoreReplies
    | StopIo
    | TakeRequest(created: map<Fd, Fd>, effects: seq<Effect>, data: seq<Byte>)
    | SendReply
    | StopAuthority

  /** Registrations and disconnects share the channel; only the rest is
      dispatched and answered. */
  predicate IsCall(m: Msg) {
    m.req != REQ_REGISTER && m.req != REQ_DISCONNECT
  }

  function Calls(ms: seq<Msg>): seq<Msg> {
    if ms == [] then []
    else
      var last := ms[|ms| - 1];
      Calls(ms[..|ms| - 1]) + (if IsCall(last) then [last] else [])
  }

  function Label(msgs: seq<(Fd, int)>, base: nat): (ms: seq<Msg>)
    ensures |ms| == |msgs|
    ensures forall i :: 0 <= i < |ms| ==> ms[i] == Msg(base + i, msgs[i].0, msgs[i].1)
  {
    seq(|msgs|, i requires 0 <= i < |msgs| => Msg(base + i, msgs[i].0, msgs[i].1))
  }

  function DescriptorOf(source: Source): Descriptor {
    match source
    case NewConnection(_, _) => Listener
    case Data(fd, _) => Pipe(fd)
    case Hangup(fd) => Pipe(fd)
    case Quiet(d) => d
  }

  /** The messages that handling a descriptor sends. */
  function Emits(source: Source): (msgs: seq<(Fd, int)>)
    ensures source.Data? ==> |msgs| == |source.reqs|
  {
    match source
    case NewConnection(p, _) => [(p, REQ_REGISTER)]
    case Data(fd, reqs) => seq(|reqs|, i requires 0 <= i < |reqs| => (fd, reqs[i]))
    case Hangup(fd) => [(fd, REQ_DISCONNECT)]
    case Quiet(_) => []
  }

  /** The source is one that the descriptor can turn out to be: new descriptors
      are new, and data or its end come on connected pipes. */
  predicate Occurs(w: World, source: Source) {
    match source
    case NewConnection(p, m) => p !in w.pipes + w.socks && m !in w.pipes + w.socks && p != m
    case Data(fd, _) => fd in w.tables.clients
    case Hangup(fd) => fd in w.tables.clients && w.tables.clients[fd].msgFd in w.tables.sockets
    case Quiet(_) => true
  }

  function Happened(w: World, source: Source): World
    requires Occurs(w, source)
  {
    match source
    case NewConnection(p, m) =>
      w.(tables := Added(w.tables, p, m), pipes := w.pipes + {p}, socks := w.socks + {m})
    case Hangup(fd) => w.(tables := Dropped(w.tables, fd))
    case _ => w
  }

  /** The registrations among the effects, as pipes with their sockets. */
  function Registrations(effects: seq<Effect>): seq<(Fd, Fd)> {
    if effects == [] then []
    else
      var rest := Registrations(effects[1..]);
      if effects[0].RegisterClient? then [(effects[0].requestFd, effects[0].msgFd)] + rest else rest
  }

  lemma {:induction false} RegistrationsConcat(a: seq<Effect>, b: seq<Effect>)
    ensures Registrations(a + b) == Registrations(a) + Registrations(b)
  {
    if a == [] {
      assert a + b == b;
    } else {
      assert (a + b)[1..] == a[1..] + b;
      RegistrationsConcat(a[1..], b);
    }
  }

  function PipesOf(regs: seq<(Fd, Fd)>): (fds: seq<Fd>)
    ensures |fds| == |regs| && forall i :: 0 <= i < |fds| ==> fds[i] == regs[i].0
  {
    seq(|regs|, i requires 0 <= i < |regs| => regs[i].0)
  }

  /** Clients that the I/O thread must be told about after a dispatch that made
      `created`: the code looks for them only if the table grew. */
  function Strangers(w: World, created: map<Fd, Fd>): set<Fd> {
    if created == map[] then {} else w.clients + created.Keys - w.known
  }

  /** Handlers make clients on new pipes, and the reply announces every stranger
      once, new ones with their own socket. */
  ghost predicate Dispatches(w: World, created: map<Fd, Fd>, effects: seq<Effect>) {
    var regs := Registrations(effects);
    && created.Keys !! w.pipes + w.socks && created.Values !! w.pipes + created.Keys
    && NoDuplicates(PipesOf(regs))
    && (forall f :: f in PipesOf(regs) <==> f in Strangers(w, created))
    && (forall i :: 0 <= i < |regs| && regs[i].0 in created ==> regs[i].1 == created[regs[i].0])
  }

  const INITIAL := State(Polling, Listening, [], [], World(NO_TABLES, {}, {}, {}, {}), [], 0, [], [], [])

  ghost predicate Enabled(s: State, a: Action) {
    match a
    case EpollReturn(ready) =>
      && s.io.Polling? && |ready| <= MAX_EVENTS
      && forall d :: d in ready && d.Pipe? ==> d.fd in s.world.tables.clients
    case Event(source) =>
      && s.io.InBatch? && s.io.queue == []
      && DescriptorOf(source) in s.io.left && Occurs(s.world, source)
    case SendRequest =>
      && s.io.InBatch? && s.io.queue != []
      && (s.authority.AuthorityStopped? || |s.requests| < CHANNEL_CAPACITY)
    case EndBatch => s.io.InBatch? && s.io.queue == []
    case TakeReply => s.io.Draining? && s.replies != []
    case DoEffect => s.io.Executing? && s.io.next < |s.io.reply.effects|
    case EffectsDone => s.io.Executing? && s.io.next == |s.io.reply.effects|
    case WriteBytes(n) => s.io.Writing? && 0 < n <= |s.io.reply.data| - s.io.written
    case WriteOver => s.io.Writing?
    case NoMoreReplies => s.io.Draining? && s.replies == []
    case StopIo => s.io.Polling?
    case TakeRequest(created, effects, _) =>
      && s.authority.Listening? && s.requests != []
      && (IsCall(s.requests[0]) ==> Dispatches(s.world, created, effects))
    case SendReply =>
      s.authority.Holding? && (s.io.IoStopped? || |s.replies| < CHANNEL_CAPACITY)
    case StopAuthority => s.authority.Listening?
  }

  function PutBytes(id: nat, data: seq<Byte>): seq<Output> {
    seq(|data|, i requires 0 <= i < |data| => Put(id, data[i]))
  }

  function DidEffects(id: nat, effects: seq<Effect>): seq<Output> {
    seq(|effects|, i requires 0 <= i < |effects| => Did(id, effects[i]))
  }

  /** An effect, as far as it changes who is connected. */
  function Effected(w: World, e: Effect): World {
    if e.RegisterClient? then w.(tables := Registered(w.tables, e.requestFd, e.msgFd)) else w
  }

  /** A message, as far as it changes who the authority knows. */
  function Noted(w: World, m: Msg, created: map<Fd, Fd>): World {
    if m.req == REQ_REGISTER then
      if m.client in w.clients then w
      else w.(clients := w.clients + {m.client}, known := w.known + {m.client})
    else if m.req == REQ_DISCONNECT then
      w.(clients := w.clients - {m.client}, known := w.known - {m.client})
    else
      w.(clients := w.clients + created.Keys, known := w.known + Strangers(w, created),
         pipes := w.pipes + created.Keys, socks := w.socks + created.Values)
  }

  ghost function Step(s: State, a: Action): State
    requires Enabled(s, a)
  {
    match a
    case EpollReturn(ready) => s.(io := InBatch([], ready, 0))
    case Event(source) =>
      var ms := Label(Emits(source), |s.emitted|);
      s.(io := InBatch(ms, s.io.left - {DescriptorOf(source)}, s.io.handled + 1),
         world := Happened(s.world, source), emitted := s.emitted + ms)
    case SendRequest =>
      s.(io := s.io.(queue := s.io.queue[1..]),
         requests := if s.authority.AuthorityStopped? then s.requests else s.requests + [s.io.queue[0]])
    case EndBatch => s.(io := Draining)
    case TakeReply => s.(io := Executing(s.replies[0], 0), replies := s.replies[1..])
    case DoEffect =>
      s.(io := s.io.(next := s.io.next + 1),
         world := Effected(s.world, s.io.reply.effects[s.io.next]),
         outputs := s.outputs + [Did(s.io.reply.id, s.io.reply.effects[s.io.next])])
    case EffectsDone => s.(io := Writing(s.io.reply, 0))
    case WriteBytes(n) =>
      var w := s.io.written;
      s.(io := Writing(s.io.reply, w + n),
         outputs := s.outputs + PutBytes(s.io.reply.id, s.io.reply.data[w..w + n]))
    case WriteOver => s.(io := Draining, done := s.done + [Done(s.io.reply, s.io.written)])
    case NoMoreReplies => s.(io := Polling)
    case StopIo => s.(io := IoStopped)
    case TakeRequest(created, effects, data) =>
      var m := s.requests[0];
      var next := s.(requests := s.requests[1..], taken := s.taken + 1, world := Noted(s.world, m, created));
      if IsCall(m) then
        var r := Reply(m.id, m.client, effects, data);
        next.(authority := Holding(r), made := s.made + [r])
      else next
    case SendReply =>
      s.(authority := Listening,
         replies := if s.io.IoStopped? then s.replies else s.replies + [s.authority.reply])
    case StopAuthority => s.(authority := AuthorityStopped)
  }

  ghost function After(actions: seq<Action>): Option<State> {
    if actions == [] then Some(INITIAL)
    else
      var last := |actions| - 1;
      var before := After(actions[..last]);
      if before.Some? && Enabled(before.value, actions[last])
      then Some(Step(before.value, actions[last]))
      else None
  }

  // ---- order and completeness ----

  /** A reply in full: all its effects in order, then its first `written` bytes. */
  function ReplyOutputs(r: Reply, written: nat): seq<Output>
    requires written <= |r.data|
  {
    DidEffects(r.id, r.effects) + PutBytes(r.id, r.data[..written])
  }

  function AllOutputs(done: seq<Done>): seq<Output>
    requires forall i :: 0 <= i < |done| ==> done[i].written <= |done[i].reply.data|
  {
    if done == [] then []
    else
      var last := |done| - 1;
      AllOutputs(done[..last]) + ReplyOutputs(done[last].reply, done[last].written)
  }

  ghost function Unsent(s: State): seq<Msg> {
    if s.io.InBatch? then s.io.queue else []
  }

  ghost function InHand(s: State): seq<Reply> {
    if s.io.Executing? || s.io.Writing? then [s.io.reply] else []
  }

  ghost function Held(s: State): seq<Reply> {
    if s.authority.Holding? then [s.authority.reply] else []
  }

  /** What the reply being executed has put out so far. */
  ghost function Partial(s: State): seq<Output> {
    match s.io
    case Executing(r, k) => if k <= |r.effects| then DidEffects(r.id, r.effects[..k]) else []
    case Writing(r, w) => if w <= |r.data| then ReplyOutputs(r, w) else []
    case _ => []
  }

  ghost predicate Answers(made: seq<Reply>, calls: seq<Msg>) {
    && |made| == |calls|
    && forall i :: 0 <= i < |made| ==> made[i].id == calls[i].id && made[i].client == calls[i].client
  }

  ghost predicate RequestsInv(s: State) {
    && |s.requests| <= CHANNEL_CAPACITY
    && (forall i :: 0 <= i < |s.emitted| ==> s.emitted[i].id == i)
    && s.taken <= |s.emitted|
    && (s.authority.AuthorityStopped? || s.emitted[s.taken..] == s.requests + Unsent(s))
    && Answers(s.made, Calls(s.emitted[..s.taken]))
  }

  ghost predicate RepliesInv(s: State) {
    && |s.replies| <= CHANNEL_CAPACITY
    && |s.done| <= |s.made|
    && (forall i :: 0 <= i < |s.done| ==> s.done[i].reply == s.made[i] && s.done[i].written <= |s.made[i].data|)
    && (s.io.IoStopped? || s.made[|s.done|..] == InHand(s) + s.replies + Held(s))
    && (s.io.Executing? ==> s.io.next <= |s.io.reply.effects|)
    && (s.io.Writing? ==> s.io.written <= |s.io.reply.data|)
    && s.outputs == AllOutputs(s.done) + Partial(s)
  }

  lemma EventKeepsRequests(s: State, a: Action)
    requires RequestsInv(s) && Enabled(s, a) && a.Event?
    ensures RequestsInv(Step(s, a))
  {
    var t := Step(s, a);
    assert t.emitted[..t.taken] == s.emitted[..s.taken];
    assert t.emitted[t.taken..] == s.emitted[s.taken..] + Unsent(t);
  }

  lemma SendKeepsRequests(s: State, a: Action)
    requires RequestsInv(s) && Enabled(s, a) && a.SendRequest?
    ensures RequestsInv(Step(s, a))
  {
  }

  lemma TakeKeepsRequests(s: State, a: Action)
    requires RequestsInv(s) && Enabled(s, a) && a.TakeRequest?
    ensures RequestsInv(Step(s, a))
  {
    var t := Step(s, a);
    var rest := s.emitted[s.taken..];
    assert s.emitted[s.taken] == rest[0] == s.requests[0];
    assert s.emitted[..t.taken] == s.emitted[..s.taken] + [s.requests[0]];
    assert t.emitted[t.taken..] == rest[1..] == t.requests + Unsent(t);
  }

  lemma RequestsStep(s: State, a: Action)
    requires RequestsInv(s) && Enabled(s, a)
    ensures RequestsInv(Step(s, a))
  {
    match a
    case Event(_) => EventKeepsRequests(s, a);
    case SendRequest => SendKeepsRequests(s, a);
    case TakeRequest(_, _, _) => TakeKeepsRequests(s, a);
    case _ =>
      var t := Step(s, a);
      assert t.emitted == s.emitted && t.taken == s.taken && t.requests == s.requests && t.made == s.made;
      assert Unsent(t) == Unsent(s);
  }

  lemma EffectKeepsReplies(s: State, a: Action)
    requires RepliesInv(s) && Enabled(s, a) && (a.DoEffect? || a.EffectsDone?)
    ensures RepliesInv(Step(s, a))
  {
    var r, k, t := s.io.reply, s.io.next, Step(s, a);
    assert InHand(t) == InHand(s);
    if a.DoEffect? {
      assert DidEffects(r.id, r.effects[..k + 1]) == DidEffects(r.id, r.effects[..k]) + [Did(r.id, r.effects[k])];
    } else {
      assert r.effects[..k] == r.effects;
      assert ReplyOutputs(r, 0) == DidEffects(r.id, r.effects);
    }
  }

  lemma WrittenMore(r: Reply, w: nat, n: nat)
    requires w + n <= |r.data|
    ensures ReplyOutputs(r, w + n) == ReplyOutputs(r, w) + PutBytes(r.id, r.data[w..w + n])
  {
  }

  lemma OutputsGrow(a: seq<Output>, b: seq<Output>, c: seq<Output>)
    ensures (a + b) + c == a + (b + c)
  {
  }

  lemma WriteIsPartial(s: State, a: Action)
    requires Enabled(s, a) && a.WriteBytes?
    ensures
      var r, w := s.io.reply, s.io.written;
      Partial(Step(s, a)) == Partial(s) + PutBytes(r.id, r.data[w..w + a.n])
  {
    WrittenMore(s.io.reply, s.io.written, a.n);
  }

  lemma WriteKeepsReplies(s: State, a: Action)
    requires RepliesInv(s) && Enabled(s, a) && a.WriteBytes?
    ensures RepliesInv(Step(s, a))
  {
    var r, w, t := s.io.reply, s.io.written, Step(s, a);
    assert InHand(t) == InHand(s);
    WriteIsPartial(s, a);
    OutputsGrow(AllOutputs(s.done), Partial(s), PutBytes(r.id, r.data[w..w + a.n]));
    assert t.outputs == AllOutputs(t.done) + Partial(t);
  }

  lemma TakeReplyKeepsReplies(s: State, a: Action)
    requires RepliesInv(s) && Enabled(s, a) && a.TakeReply?
    ensures RepliesInv(Step(s, a))
  {
  }

  lemma OneDoneMore(done: seq<Done>, d: Done)
    requires d.written <= |d.reply.data| && forall i :: 0 <= i < |done| ==> done[i].written <= |done[i].reply.data|
    ensures AllOutputs(done + [d]) == AllOutputs(done) + ReplyOutputs(d.reply, d.written)
  {
    assert (done + [d])[..|done|] == done;
  }

  lemma WriteOverOutputs(s: State)
    requires RepliesInv(s) && s.io.Writing?
    ensures s.outputs == AllOutputs(s.done + [Done(s.io.reply, s.io.written)])
  {
    OneDoneMore(s.done, Done(s.io.reply, s.io.written));
  }

  lemma WriteOverIsNext(s: State)
    requires RepliesInv(s) && s.io.Writing?
    ensures |s.done| < |s.made| && s.made[|s.done|] == s.io.reply
    ensures s.made[|s.done| + 1..] == s.replies + Held(s)
  {
    var rest := s.made[|s.done|..];
    assert s.made[|s.done|] == rest[0] == s.io.reply;
    assert s.made[|s.done| + 1..] == rest[1..] == s.replies + Held(s);
  }

  lemma WriteOverKeepsReplies(s: State, a: Action)
    requires RepliesInv(s) && Enabled(s, a) && a.WriteOver?
    ensures RepliesInv(Step(s, a))
  {
    WriteOverIsNext(s);
    WriteOverOutputs(s);
    var t := Step(s, a);
    assert Partial(t) == [] && InHand(t) == [] && Held(t) == Held(s);
    assert t.outputs + [] == t.outputs;
  }

  lemma AuthorityKeepsReplies(s: State, a: Action)
    requires RepliesInv(s) && Enabled(s, a) && (a.TakeRequest? || a.SendReply?)
    ensures RepliesInv(Step(s, a))
  {
    var t := Step(s, a);
    assert InHand(t) == InHand(s) && Partial(t) == Partial(s);
    if a.TakeRequest? {
      assert t.made[|t.done|..] == s.made[|s.done|..] + Held(t);
    } else if !s.io.IoStopped? {
      assert t.replies + Held(t) == s.replies + Held(s);
    }
  }

  lemma RepliesStep(s: State, a: Action)
    requires RepliesInv(s) && Enabled(s, a)
    ensures RepliesInv(Step(s, a))
  {
    match a
    case DoEffect => EffectKeepsReplies(s, a);
    case EffectsDone => EffectKeepsReplies(s, a);
    case WriteBytes(_) => WriteKeepsReplies(s, a);
    case TakeReply => TakeReplyKeepsReplies(s, a);
    case WriteOver => WriteOverKeepsReplies(s, a);
    case TakeRequest(_, _, _) => AuthorityKeepsReplies(s, a);
    case SendReply => AuthorityKeepsReplies(s, a);
    case _ =>
      var t := Step(s, a);
      assert InHand(t) == InHand(s) && Partial(t) == Partial(s);
  }

  lemma {:induction false} RunKeepsOrder(actions: seq<Action>)
    ensures var r := After(actions); r.Some? ==> RequestsInv(r.value) && RepliesInv(r.value)
  {
    if actions != [] {
      var last := |actions| - 1;
      var before := After(actions[..last]);
      RunKeepsOrder(actions[..last]);
      if before.Some? && Enabled(before.value, actions[last]) {
        RequestsStep(before.value, actions[last]);
        RepliesStep(before.value, actions[last]);
      }
    }
  }

  // ---- what every run guarantees ----

  function CallKeys(calls: seq<Msg>): (keys: seq<(nat, Fd)>)
    ensures |keys| == |calls|
  {
    seq(|calls|, i requires 0 <= i < |calls| => (calls[i].id, calls[i].client))
  }

  function DoneKeys(done: seq<Done>): (keys: seq<(nat, Fd)>)
    ensures |keys| == |done|
  {
    seq(|done|, i requires 0 <= i < |done| => (done[i].reply.id, done[i].reply.client))
  }

  function OfClient(keys: seq<(nat, Fd)>, client: Fd): seq<(nat, Fd)> {
    if keys == [] then []
    else
      var last := keys[|keys| - 1];
      OfClient(keys[..|keys| - 1], client) + (if last.1 == client then [last] else [])
  }

  /** Replies come one after the other, and within a reply every effect comes
      before every byte. */
  ghost predicate Ordered(outputs: seq<Output>) {
    forall i, j :: 0 <= i < j < |outputs| ==>
      && outputs[i].id <= outputs[j].id
      && (outputs[i].id == outputs[j].id && outputs[i].Put? ==> outputs[j].Put?)
  }

  lemma {:induction false} CallsOfPrefix(ms: seq<Msg>, n: nat)
    requires n <= |ms|
    ensures Calls(ms[..n]) <= Calls(ms)
    decreases |ms|
  {
    if n < |ms| {
      CallsOfPrefix(ms[..|ms| - 1], n);
      assert ms[..|ms| - 1][..n] == ms[..n];
    } else {
      assert ms[..n] == ms;
    }
  }

  lemma {:induction false} OfClientPrefix(a: seq<(nat, Fd)>, b: seq<(nat, Fd)>, client: Fd)
    requires a <= b
    ensures OfClient(a, client) <= OfClient(b, client)
    decreases |b|
  {
    if |a| < |b| {
      OfClientPrefix(a, b[..|b| - 1], client);
    } else {
      assert a == b;
    }
  }

  /** Calls keep the strictly increasing numbering of the stream. */
  lemma {:induction false} CallsIncrease(ms: seq<Msg>)
    requires forall i :: 0 <= i < |ms| ==> ms[i].id == i
    ensures forall i :: 0 <= i < |Calls(ms)| ==> Calls(ms)[i].id < |ms|
    ensures forall i, j :: 0 <= i < j < |Calls(ms)| ==> Calls(ms)[i].id < Calls(ms)[j].id
  {
    if ms != [] {
      CallsIncrease(ms[..|ms| - 1]);
    }
  }

  /** Every run: the replies executed so far answer, one each and in the same
      order, the first calls the I/O thread produced; no call is answered
      twice; and per client the replies follow the client's own call order. */
  lemma {:induction false} EveryCallIsAnsweredOnceInOrder(actions: seq<Action>, client: Fd)
    ensures
      var r := After(actions);
      r.Some? ==>
        var s := r.value;
        && DoneKeys(s.done) <= CallKeys(Calls(s.emitted))
        && (forall i, j :: 0 <= i < j < |s.done| ==> s.done[i].reply.id < s.done[j].reply.id)
        && OfClient(DoneKeys(s.done), client) <= OfClient(CallKeys(Calls(s.emitted)), client)
  {
    RunKeepsOrder(actions);
    var r := After(actions);
    if r.Some? {
      var s := r.value;
      CallsOfPrefix(s.emitted, s.taken);
      CallsIncrease(s.emitted);
      OfClientPrefix(DoneKeys(s.done), CallKeys(Calls(s.emitted)), client);
    }
  }

  /** No dispatched call is lost: each is executed, being executed, queued or
      about to be queued, in this order, until the I/O thread stops. */
  lemma {:induction false} EveryDispatchedCallIsAccountedFor(actions: seq<Action>)
    ensures
      var r := After(actions);
      r.Some? && !r.value.io.IoStopped? ==>
        var s := r.value;
        && s.taken <= |s.emitted|
        && |s.made| == |Calls(s.emitted[..s.taken])|
        && |s.done| <= |s.made|
        && s.made[|s.done|..] == InHand(s) + s.replies + Held(s)
  {
    RunKeepsOrder(actions);
  }

  lemma ReplyOutputsOrdered(r: Reply, written: nat)
    requires written <= |r.data|
    ensures Ordered(ReplyOutputs(r, written))
    ensures forall o :: o in ReplyOutputs(r, written) ==> o.id == r.id
  {
  }

  lemma {:induction false} AllOutputsOrdered(done: seq<Done>)
    requires forall i :: 0 <= i < |done| ==> done[i].written <= |done[i].reply.data|
    requires forall i, j :: 0 <= i < j < |done| ==> done[i].reply.id < done[j].reply.id
    ensures Ordered(AllOutputs(done))
    ensures forall o :: o in AllOutputs(done) ==> exists i :: 0 <= i < |done| && o.id == done[i].reply.id
  {
    if done != [] {
      var last := |done| - 1;
      AllOutputsOrdered(done[..last]);
      ReplyOutputsOrdered(done[last].reply, done[last].written);
      var earlier, now := AllOutputs(done[..last]), ReplyOutputs(done[last].reply, done[last].written);
      forall o | o in earlier ensures o.id < done[last].reply.id {
        var i :| 0 <= i < last && o.id == done[..last][i].reply.id;
        assert done[i].reply.id < done[last].reply.id;
      }
    }
  }

  /** The replies begun so far: those done, then the one in hand, if any. */
  ghost function Begun(s: State): seq<Done> {
    match s.io
    case Executing(r, _) => s.done + [Done(r, 0)]
    case Writing(r, w) => s.done + [Done(r, w)]
    case _ => s.done
  }

  lemma BegunReplies(s: State)
    requires RepliesInv(s) && RequestsInv(s)
    ensures forall i :: 0 <= i < |Begun(s)| ==> Begun(s)[i].written <= |Begun(s)[i].reply.data|
    ensures forall i, j :: 0 <= i < j < |Begun(s)| ==> Begun(s)[i].reply.id < Begun(s)[j].reply.id
  {
    CallsOfPrefix(s.emitted, s.taken);
    CallsIncrease(s.emitted);
    if s.io.Executing? || s.io.Writing? {
      assert s.made[|s.done|..][0] == s.io.reply;
    }
    assert forall i :: 0 <= i < |Begun(s)| ==> Begun(s)[i].reply == s.made[i];
  }

  lemma OutputsAreBegun(s: State)
    requires RepliesInv(s)
    requires forall i :: 0 <= i < |Begun(s)| ==> Begun(s)[i].written <= |Begun(s)[i].reply.data|
    ensures s.outputs <= AllOutputs(Begun(s))
  {
  }

  /** Every run: what clients and the system see is the replies one after the
      other, each with all its effects, in order, before any of its bytes. */
  lemma {:induction false} EffectsPrecedeBytes(actions: seq<Action>)
    ensures
      var r := After(actions);
      r.Some? ==>
        var s := r.value;
        && Ordered(s.outputs)
        && (forall i :: 0 <= i < |s.done| ==> s.done[i].written <= |s.done[i].reply.data|)
        && AllOutputs(s.done) <= s.outputs
  {
    RunKeepsOrder(actions);
    var r := After(actions);
    if r.Some? {
      BegunReplies(r.value);
      AllOutputsOrdered(Begun(r.value));
      OutputsAreBegun(r.value);
    }
  }

  // ---- the history is that of the steps ----

  /** The messages that the events of a run bring, in order. */
  function Brought(actions: seq<Action>): seq<(Fd, int)> {
    if actions == [] then []
    else
      var last := actions[|actions| - 1];
      Brought(actions[..|actions| - 1]) + if last.Event? then Emits(last.source) else []
  }

  /** What the authority made of each call that it took, in order. */
  ghost function Composed(actions: seq<Action>): seq<(seq<Effect>, seq<Byte>)> {
    if actions == [] then []
    else
      var prefix, last := actions[..|actions| - 1], actions[|actions| - 1];
      var before := After(prefix);
      if last.TakeRequest? && before.Some? && before.value.requests != [] && IsCall(before.value.requests[0])
      then Composed(prefix) + [(last.effects, last.data)] else Composed(prefix)
  }

  ghost predicate EmittedIs(s: State, brought: seq<(Fd, int)>) {
    && |s.emitted| == |brought|
    && forall i :: 0 <= i < |brought| ==> s.emitted[i].client == brought[i].0 && s.emitted[i].req == brought[i].1
  }

  ghost predicate MadeIs(s: State, made: seq<(seq<Effect>, seq<Byte>)>) {
    && |s.made| == |made|
    && forall i :: 0 <= i < |made| ==> s.made[i].effects == made[i].0 && s.made[i].data == made[i].1
  }

  lemma OneStepOfHistory(s: State, a: Action, brought: seq<(Fd, int)>, made: seq<(seq<Effect>, seq<Byte>)>)
    requires Enabled(s, a) && EmittedIs(s, brought) && MadeIs(s, made)
    ensures EmittedIs(Step(s, a), brought + if a.Event? then Emits(a.source) else [])
    ensures MadeIs(Step(s, a), made + if a.TakeRequest? && IsCall(s.requests[0]) then [(a.effects, a.data)] else [])
  {
  }

  /** In every run: the I/O thread has produced exactly the messages that its
      events brought; and the replies carry, call by call, the effects and the
      data that the authority made of the call. */
  lemma {:induction false} HistoryIsOfTheSteps(actions: seq<Action>)
    ensures
      var r := After(actions);
      r.Some? ==> EmittedIs(r.value, Brought(actions)) && MadeIs(r.value, Composed(actions))
  {
    if actions != [] {
      var prefix, last := actions[..|actions| - 1], actions[|actions| - 1];
      HistoryIsOfTheSteps(prefix);
      if After(prefix).Some? && Enabled(After(prefix).value, last) {
        OneStepOfHistory(After(prefix).value, last, Brought(prefix), Composed(prefix));
      }
    }
  }

  /** The outputs of one reply. */
  function OutputsOf(outputs: seq<Output>, id: nat): seq<Output> {
    if outputs == [] then []
    else
      var last := outputs[|outputs| - 1];
      OutputsOf(outputs[..|outputs| - 1], id) + if last.id == id then [last] else []
  }

  lemma {:induction false} OutputsOfConcat(a: seq<Output>, b: seq<Output>, id: nat)
    ensures OutputsOf(a + b, id) == OutputsOf(a, id) + OutputsOf(b, id)
  {
    if b == [] {
      assert a + b == a;
    } else {
      assert (a + b)[..|a + b| - 1] == a + b[..|b| - 1];
      OutputsOfConcat(a, b[..|b| - 1], id);
    }
  }

  lemma {:induction false} OutputsOfOne(outputs: seq<Output>, own: nat, id: nat)
    requires forall o :: o in outputs ==> o.id == own
    ensures OutputsOf(outputs, id) == if own == id then outputs else []
  {
    if outputs != [] {
      assert outputs[|outputs| - 1] in outputs;
      OutputsOfOne(outputs[..|outputs| - 1], own, id);
    }
  }

  lemma OutputsOfLast(done: seq<Done>, id: nat)
    requires done != [] && forall j :: 0 <= j < |done| ==> done[j].written <= |done[j].reply.data|
    ensures
      var d := done[|done| - 1];
      OutputsOf(AllOutputs(done), id) ==
        OutputsOf(AllOutputs(done[..|done| - 1]), id) +
        if d.reply.id == id then ReplyOutputs(d.reply, d.written) else []
  {
    var d := done[|done| - 1];
    ReplyOutputsOrdered(d.reply, d.written);
    OutputsOfOne(ReplyOutputs(d.reply, d.written), d.reply.id, id);
    OutputsOfConcat(AllOutputs(done[..|done| - 1]), ReplyOutputs(d.reply, d.written), id);
  }

  lemma {:induction false} NoneOfLater(done: seq<Done>, id: nat)
    requires forall j :: 0 <= j < |done| ==> done[j].written <= |done[j].reply.data| && done[j].reply.id < id
    ensures OutputsOf(AllOutputs(done), id) == []
  {
    if done != [] {
      NoneOfLater(done[..|done| - 1], id);
      OutputsOfLast(done, id);
    }
  }

  lemma {:induction false} OutputsOfDone(done: seq<Done>, i: nat)
    requires forall j :: 0 <= j < |done| ==> done[j].written <= |done[j].reply.data|
    requires forall j, k :: 0 <= j < k < |done| ==> done[j].reply.id < done[k].reply.id
    requires i < |done|
    ensures OutputsOf(AllOutputs(done), done[i].reply.id) == ReplyOutputs(done[i].reply, done[i].written)
  {
    var last := |done| - 1;
    OutputsOfLast(done, done[i].reply.id);
    if i < last {
      OutputsOfDone(done[..last], i);
    } else {
      NoneOfLater(done[..last], done[i].reply.id);
    }
  }

  /** What is seen of a reply: its effects in order, then `written` of its bytes. */
  ghost predicate SeenAs(seen: seq<Output>, id: nat, effects: seq<Effect>, data: seq<Byte>, written: nat) {
    && written <= |data| && |seen| == |effects| + written
    && (forall k :: 0 <= k < |effects| ==> seen[k] == Did(id, effects[k]))
    && (forall k :: 0 <= k < written ==> seen[|effects| + k] == Put(id, data[k]))
  }

  lemma PartialIsNew(s: State, i: nat)
    requires RepliesInv(s) && RequestsInv(s) && i < |s.done|
    ensures forall o :: o in Partial(s) ==> o.id > s.done[i].reply.id
  {
    BegunReplies(s);
    if s.io.Executing? || s.io.Writing? {
      assert Begun(s)[i] == s.done[i] && Begun(s)[|s.done|].reply == s.io.reply;
    }
  }

  lemma {:induction false} NoneOf(outputs: seq<Output>, id: nat)
    requires forall o :: o in outputs ==> o.id != id
    ensures OutputsOf(outputs, id) == []
  {
    if outputs != [] {
      assert outputs[|outputs| - 1] in outputs;
      NoneOf(outputs[..|outputs| - 1], id);
    }
  }

  lemma DoneIsSeen(s: State, i: nat)
    requires RepliesInv(s) && RequestsInv(s) && i < |s.done|
    ensures OutputsOf(s.outputs, s.done[i].reply.id) == ReplyOutputs(s.done[i].reply, s.done[i].written)
  {
    BegunReplies(s);
    assert forall j :: 0 <= j < |s.done| ==> Begun(s)[j] == s.done[j];
    OutputsOfDone(s.done, i);
    PartialIsNew(s, i);
    NoneOf(Partial(s), s.done[i].reply.id);
    OutputsOfConcat(AllOutputs(s.done), Partial(s), s.done[i].reply.id);
  }

  /** In every run, what is seen of the reply to the i-th call is what the authority
      made of that call: all its effects in order, then its bytes in order, as
      many as were written. */
  lemma {:induction false} RepliesAreSeenAsMade(actions: seq<Action>, i: nat)
    requires After(actions).Some? && i < |After(actions).value.done|
    ensures
      var s := After(actions).value;
      && i < |Composed(actions)| && i < |Calls(s.emitted)|
      && SeenAs(OutputsOf(s.outputs, Calls(s.emitted)[i].id), Calls(s.emitted)[i].id,
                Composed(actions)[i].0, Composed(actions)[i].1, s.done[i].written)
  {
    RunKeepsOrder(actions);
    HistoryIsOfTheSteps(actions);
    var s := After(actions).value;
    CallsOfPrefix(s.emitted, s.taken);
    DoneIsSeen(s, i);
  }
}
