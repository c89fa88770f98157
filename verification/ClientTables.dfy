/**
  The I/O thread's client tables as values: which request pipes are connected,
  which of them share a message socket, and what has been closed.  Descriptors
  are unique identities.
*/
module ClientTables {
  import opened Basics
  import opened Bytes

  type Fd = int

  /** Registrations and disconnects travel with the requests, as opcodes that no
      request has. */
  const REQ_REGISTER := -1
  const REQ_DISCONNECT := -2

  datatype IoClient = IoClient(msgFd: Fd, recvBuf: seq<Byte>)

  function Lookup<T>(m: map<Fd, seq<T>>, k: Fd): seq<T> {
    if k in m then m[k] else []
  }

  /** Every client is listed under its socket, once, and nothing else is. */
  ghost predicate Inverse(clients: map<Fd, IoClient>, sockets: map<Fd, seq<Fd>>) {
    && (forall f :: f in clients ==> clients[f].msgFd in sockets && f in sockets[clients[f].msgFd])
    && (forall m :: m in sockets ==> sockets[m] != [] && NoDuplicates(sockets[m]))
    && (forall m, f :: m in sockets && f in sockets[m] ==> f in clients && clients[f].msgFd == m)
  }

  lemma AddingKeepsInverse(clients: map<Fd, IoClient>, sockets: map<Fd, seq<Fd>>, fd: Fd, m: Fd)
    requires Inverse(clients, sockets) && fd !in clients
    ensures Inverse(clients[fd := IoClient(m, [])], sockets[m := Lookup(sockets, m) + [fd]])
  {
  }

  lemma BufferKeepsInverse(clients: map<Fd, IoClient>, sockets: map<Fd, seq<Fd>>, fd: Fd, buf: seq<Byte>)
    requires Inverse(clients, sockets) && fd in clients
    ensures Inverse(clients[fd := IoClient(clients[fd].msgFd, buf)], sockets)
  {
  }

  /** Another connected pipe uses the same message socket. */
  ghost predicate Shared(clients: map<Fd, IoClient>, fd: Fd)
    requires fd in clients
  {
    exists f :: f in clients && f != fd && clients[f].msgFd == clients[fd].msgFd
  }

  lemma LeftoverMembers(list: seq<Fd>, fd: Fd)
    ensures Without(list, fd) != [] <==> exists f :: f in list && f != fd
  {
    var left := Without(list, fd);
    if left != [] {
      var f := left[0];
      assert f in left;
      assert f in list && f != fd;
    }
    if f :| f in list && f != fd {
      assert f in left;
    }
  }

  lemma ListedIff(clients: map<Fd, IoClient>, sockets: map<Fd, seq<Fd>>, m: Fd, f: Fd)
    requires Inverse(clients, sockets) && m in sockets
    ensures f in sockets[m] <==> f in clients && clients[f].msgFd == m
  {
  }

  lemma LeftoverIsShared(clients: map<Fd, IoClient>, sockets: map<Fd, seq<Fd>>, fd: Fd)
    requires Inverse(clients, sockets) && fd in clients
    ensures Without(sockets[clients[fd].msgFd], fd) != [] <==> Shared(clients, fd)
  {
    var m := clients[fd].msgFd;
    LeftoverMembers(sockets[m], fd);
    forall f ensures f in sockets[m] <==> f in clients && clients[f].msgFd == m {
      ListedIff(clients, sockets, m, f);
    }
  }

  lemma RemovingKeepsInverse(clients: map<Fd, IoClient>, sockets: map<Fd, seq<Fd>>, fd: Fd)
    requires Inverse(clients, sockets) && fd in clients
    ensures
      var m := clients[fd].msgFd;
      Inverse(clients - {fd}, if Shared(clients, fd) then sockets[m := Without(sockets[m], fd)] else sockets - {m})
  {
  }

  // ---- the tables and what is closed ----

  /** The two client maps and the descriptors closed so far, in order.  `pipes`
      and `socks` are history: every pipe and every message socket ever seen. */
  datatype Tables = Tables(
    clients: map<Fd, IoClient>,
    sockets: map<Fd, seq<Fd>>,
    closes: seq<Fd>,
    pipes: set<Fd>,
    socks: set<Fd>)

  const NO_TABLES := Tables(map[], map[], [], {}, {})

  datatype TableOp = Accept(pipe: Fd, sock: Fd) | Register(pipe: Fd, sock: Fd) | Eof(pipe: Fd)

  function Added(t: Tables, pipe: Fd, sock: Fd): Tables {
    t.(clients := t.clients[pipe := IoClient(sock, [])],
       sockets := t.sockets[sock := Lookup(t.sockets, sock) + [pipe]],
       pipes := t.pipes + {pipe}, socks := t.socks + {sock})
  }

  /** The effect by which the authority adds a client that a handler made. */
  function Registered(t: Tables, pipe: Fd, sock: Fd): Tables {
    if pipe in t.clients then t else Added(t, pipe, sock)
  }

  /** End of file on a pipe: its socket goes with the last pipe that uses it. */
  function Dropped(t: Tables, pipe: Fd): Tables
    requires pipe in t.clients && t.clients[pipe].msgFd in t.sockets
  {
    var m := t.clients[pipe].msgFd;
    var left := Without(t.sockets[m], pipe);
    if left == []
    then t.(clients := t.clients - {pipe}, sockets := t.sockets - {m}, closes := t.closes + [m, pipe])
    else t.(clients := t.clients - {pipe}, sockets := t.sockets[m := left], closes := t.closes + [pipe])
  }

  ghost predicate TablesInv(t: Tables) {
    && Inverse(t.clients, t.sockets)
    && t.clients.Keys <= t.pipes && t.sockets.Keys <= t.socks && t.pipes !! t.socks
    && forall f :: f in t.closes ==> f in t.pipes || f in t.socks
  }

  /** Nothing in the tables is closed, and nothing was closed twice. */
  ghost predicate Sound(t: Tables) {
    && NoDuplicates(t.closes)
    && (forall f :: f in t.clients ==> f !in t.closes)
    && (forall m :: m in t.sockets ==> m !in t.closes)
  }

  /** New descriptors are new; a registration may name any socket. */
  predicate Possible(t: Tables, op: TableOp) {
    match op
    case Accept(p, m) => p !in t.pipes + t.socks && m !in t.pipes + t.socks && p != m
    case Register(p, m) => p !in t.pipes + t.socks && m !in t.pipes && p != m
    case Eof(p) => p in t.clients
  }

  function Applied(t: Tables, op: TableOp): Tables
    requires op.Eof? ==> op.pipe in t.clients && t.clients[op.pipe].msgFd in t.sockets
  {
    match op
    case Accept(p, m) => Added(t, p, m)
    case Register(p, m) => Registered(t, p, m)
    case Eof(p) => Dropped(t, p)
  }

  lemma AddingKeepsTables(t: Tables, pipe: Fd, sock: Fd)
    requires TablesInv(t) && pipe !in t.pipes + t.socks && sock !in t.pipes && pipe != sock
    ensures TablesInv(Added(t, pipe, sock))
    ensures Sound(t) ==> (Sound(Added(t, pipe, sock)) <==> sock !in t.closes)
    ensures
      var t' := Added(t, pipe, sock);
      && t'.clients.Keys == t.clients.Keys + {pipe} && t'.clients[pipe].msgFd == sock && t'.clients[pipe].recvBuf == []
      && (forall f :: f in t.clients ==> t'.clients[f] == t.clients[f])
      && (forall m :: m != sock ==> Lookup(t'.sockets, m) == Lookup(t.sockets, m))
      && t'.closes == t.closes
  {
    AddingKeepsInverse(t.clients, t.sockets, pipe, sock);
    var t' := Added(t, pipe, sock);
    assert sock in t'.sockets;
    assert pipe !in t.closes;
  }

  /** The message socket is closed exactly when no other connected pipe shares
      it, and what is closed was open. */
  lemma DroppingKeepsTables(t: Tables, pipe: Fd)
    requires TablesInv(t) && pipe in t.clients
    ensures TablesInv(Dropped(t, pipe))
    ensures Sound(t) ==> Sound(Dropped(t, pipe))
    ensures
      var m := t.clients[pipe].msgFd;
      && Dropped(t, pipe).clients == t.clients - {pipe}
      && Dropped(t, pipe).closes == t.closes + (if Shared(t.clients, pipe) then [pipe] else [m, pipe])
      && (m in Dropped(t, pipe).sockets <==> Shared(t.clients, pipe))
      && (forall s :: s != m ==> Lookup(Dropped(t, pipe).sockets, s) == Lookup(t.sockets, s))
  {
    LeftoverIsShared(t.clients, t.sockets, pipe);
    RemovingKeepsInverse(t.clients, t.sockets, pipe);
    var m := t.clients[pipe].msgFd;
    assert m in t.socks && pipe in t.pipes;
  }

  /** One operation keeps everything tracked open, and closes nothing twice, if
      and only if it is not a registration under a socket that has been
      closed. */
  lemma SoundIffSocketOpen(t: Tables, op: TableOp)
    requires TablesInv(t) && Possible(t, op)
    ensures TablesInv(Applied(t, op))
    ensures Sound(t) ==> (Sound(Applied(t, op)) <==> !(op.Register? && op.sock in t.closes))
  {
    match op
    case Accept(p, m) => AddingKeepsTables(t, p, m);
    case Register(p, m) => AddingKeepsTables(t, p, m);
    case Eof(p) => DroppingKeepsTables(t, p);
  }

  ghost function TablesAfter(ops: seq<TableOp>): Option<Tables> {
    if ops == [] then Some(NO_TABLES)
    else
      var before, op := TablesAfter(ops[..|ops| - 1]), ops[|ops| - 1];
      if before.Some? && TablesInv(before.value) && Possible(before.value, op)
      then Some(Applied(before.value, op)) else None
  }

  /** No registration of the run named a socket closed by then. */
  ghost predicate SocketsOpen(ops: seq<TableOp>) {
    ops == [] ||
    (var prefix, op := ops[..|ops| - 1], ops[|ops| - 1];
     SocketsOpen(prefix) && (TablesAfter(prefix).Some? && op.Register? ==> op.sock !in TablesAfter(prefix).value.closes))
  }

  /** Sound after every operation of the run. */
  ghost predicate AlwaysSound(ops: seq<TableOp>) {
    && (TablesAfter(ops).Some? ==> Sound(TablesAfter(ops).value))
    && (ops == [] || AlwaysSound(ops[..|ops| - 1]))
  }

  lemma {:induction false} TablesStayInverse(ops: seq<TableOp>)
    ensures TablesAfter(ops).Some? ==> TablesInv(TablesAfter(ops).value)
  {
    if ops != [] {
      var before, op := TablesAfter(ops[..|ops| - 1]), ops[|ops| - 1];
      if before.Some? && TablesInv(before.value) && Possible(before.value, op) {
        SoundIffSocketOpen(before.value, op);
      }
    }
  }

  /** Over every run of accepts, registrations and disconnects: nothing tracked is
      ever closed, and nothing closed twice, if and only if no registration
      names a socket that was closed before it is executed. */
  lemma {:induction false} TablesStaySoundIff(ops: seq<TableOp>)
    requires TablesAfter(ops).Some?
    ensures SocketsOpen(ops) <==> AlwaysSound(ops)
  {
    if ops != [] {
      var prefix, op := ops[..|ops| - 1], ops[|ops| - 1];
      TablesStaySoundIff(prefix);
      SoundIffSocketOpen(TablesAfter(prefix).value, op);
    }
  }

  lemma OneOpMore(prefix: seq<TableOp>, op: TableOp)
    requires TablesAfter(prefix).Some? && Possible(TablesAfter(prefix).value, op)
    ensures TablesInv(TablesAfter(prefix).value)
    ensures TablesAfter(prefix + [op]) == Some(Applied(TablesAfter(prefix).value, op))
  {
    TablesStayInverse(prefix);
    assert (prefix + [op])[..|prefix|] == prefix;
  }

  lemma OnlyOne(pipe: Fd)
    ensures Without([pipe], pipe) == []
  {
    assert [pipe][..0] == [];
  }

  /** The only client goes, and its socket with it. */
  lemma DropsAlone(t: Tables, pipe: Fd, sock: Fd)
    requires t.clients == map[pipe := IoClient(sock, [])] && t.sockets == map[sock := [pipe]]
    ensures Dropped(t, pipe) == t.(clients := map[], sockets := map[], closes := t.closes + [sock, pipe])
  {
    OnlyOne(pipe);
    assert t.clients - {pipe} == map[] && t.sockets - {sock} == map[];
  }

  const DIED := [Accept(1, 2)] + [Eof(1)]

  lemma RunToDied()
    ensures TablesAfter(DIED) == Some(Tables(map[], map[], [2, 1], {1}, {2}))
  {
    OneOpMore([], Accept(1, 2));
    assert [] + [Accept(1, 2)] == [Accept(1, 2)];
    var t := Tables(map[1 := IoClient(2, [])], map[2 := [1]], [], {1}, {2});
    assert Lookup(NO_TABLES.sockets, 2) + [1] == [1] && {} + {1} == {1} && {} + {2} == {2};
    assert TablesAfter([Accept(1, 2)]) == Some(t);
    OneOpMore([Accept(1, 2)], Eof(1));
    DropsAlone(t, 1, 2);
    assert [] + [2, 1] == [2, 1];
  }

  lemma ThreadIsListed()
    ensures Applied(Tables(map[], map[], [2, 1], {1}, {2}), Register(3, 2)) ==
      Tables(map[3 := IoClient(2, [])], map[2 := [3]], [2, 1], {1, 3}, {2})
  {
    assert [] + [3] == [3] && {1} + {3} == {1, 3} && {2} + {2} == {2};
  }

  lemma RunToListed()
    ensures TablesAfter(DIED + [Register(3, 2)]) ==
      Some(Tables(map[3 := IoClient(2, [])], map[2 := [3]], [2, 1], {1, 3}, {2}))
  {
    RunToDied();
    OneOpMore(DIED, Register(3, 2));
    ThreadIsListed();
  }

  /** The failing run: a process dies while the registration of its new thread is
      on the way.  The thread's pipe is listed under a closed socket, and its own
      end of file closes that socket again. */
  lemma ClosedTwice()
    ensures
      var r := TablesAfter(DIED + [Register(3, 2)] + [Eof(3)]);
      r.Some? && r.value.closes == [2, 1, 2, 3]
  {
    RunToListed();
    OneOpMore(DIED + [Register(3, 2)], Eof(3));
    DropsAlone(TablesAfter(DIED + [Register(3, 2)]).value, 3, 2);
    assert [2, 1] + [2, 3] == [2, 1, 2, 3];
  }
}
