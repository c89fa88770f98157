/**
  The I/O thread's client tables: which request pipes are connected, which of
  them share a message socket, and which received descriptors still wait to be
  attached to a request.  Descriptors are unique identities.
*/
module IoTables {
  import opened Basics
  import opened Bytes
  import opened Framing
  import opened ClientTables
  import CspLoop

  /** A descriptor received over SCM_RIGHTS, with its thread id and number. */
  datatype Inflight = Inflight(tid: U32, number: int, fd: Fd)

  datatype RequestMsg = RequestMsg(clientFd: Fd, req: int, buf: seq<Byte>, inflight: seq<Inflight>, msgFd: Fd)

  /** What one read of `chunk` sends: each complete request in stream order,
      the first with all descriptors pending so far, each with those that
      arrive just before it is forwarded. */
  ghost predicate Forwards(sent: seq<RequestMsg>, fd: Fd, frames: seq<seq<Byte>>,
                           pending: seq<Inflight>, arrivals: nat -> seq<Inflight>)
  {
    && |sent| == |frames|
    && forall k :: 0 <= k < |sent| ==>
         && |frames[k]| >= HEADER_SIZE
         && sent[k] == RequestMsg(fd, Opcode(frames[k]), frames[k],
                                  (if k == 0 then pending else []) + arrivals(k), -1)
  }

  /** Sender and opcode, all that the loop's machine knows of a message. */
  function Labels(sent: seq<RequestMsg>): seq<(Fd, int)> {
    seq(|sent|, i requires 0 <= i < |sent| => (sent[i].clientFd, sent[i].req))
  }

  function Opcodes(frames: seq<seq<Byte>>): seq<int>
    requires forall k :: 0 <= k < |frames| ==> |frames[k]| >= HEADER_SIZE
  {
    seq(|frames|, i requires 0 <= i < |frames| => Opcode(frames[i]))
  }

  /** One read is one `Data` event of the loop's machine, with the opcodes of the
      requests that it completes. */
  lemma ReadIsData(sent: seq<RequestMsg>, fd: Fd, frames: seq<seq<Byte>>,
                   pending: seq<Inflight>, arrivals: nat -> seq<Inflight>)
    requires Forwards(sent, fd, frames, pending, arrivals)
    ensures forall k :: 0 <= k < |frames| ==> |frames[k]| >= HEADER_SIZE
    ensures Labels(sent) == CspLoop.Emits(CspLoop.Data(fd, Opcodes(frames)))
  {
    forall k | 0 <= k < |frames| ensures |frames[k]| >= HEADER_SIZE {
      assert sent[k].clientFd == fd;
    }
  }

  /** A stream of requests, up to a part of the next one, becomes one message per
      request: from the client, with its opcode and all its bytes, the pending
      descriptors on the first. */
  lemma RequestsBecomeMessages(sent: seq<RequestMsg>, fd: Fd, stream: seq<Byte>, pending: seq<Inflight>,
                               arrivals: nat -> seq<Inflight>, rs: seq<Request>, next: Request, part: seq<Byte>)
    requires Forwards(sent, fd, Frames(stream), pending, arrivals)
    requires (forall i :: 0 <= i < |rs| ==> Proper(rs[i])) && Proper(next) && part < Encode(next)
    requires stream == Concat(EncodeEach(rs)) + part
    ensures |sent| == |rs| && Rest(stream) == part
    ensures forall i :: 0 <= i < |rs| ==>
      sent[i].clientFd == fd && sent[i].req == rs[i].req && sent[i].buf == Encode(rs[i])
    ensures forall i :: 0 <= i < |rs| ==> sent[i].inflight == (if i == 0 then pending else []) + arrivals(i)
  {
    StreamOfRequests(rs, next, part);
  }

  ghost predicate Conserved(sockets: set<Fd>, arrived: map<Fd, seq<Inflight>>,
                            forwarded: map<Fd, seq<Inflight>>, pending: map<Fd, seq<Inflight>>)
  {
    forall m :: m in sockets ==> Lookup(arrived, m) == Lookup(forwarded, m) + Lookup(pending, m)
  }

  /** Nothing is kept for sockets that are not listed, and nothing is lost for
      those that are. */
  ghost predicate Flow(sockets: set<Fd>, arrived: map<Fd, seq<Inflight>>,
                       forwarded: map<Fd, seq<Inflight>>, pending: map<Fd, seq<Inflight>>)
  {
    && pending.Keys <= sockets && arrived.Keys <= sockets && forwarded.Keys <= sockets
    && Conserved(sockets, arrived, forwarded, pending)
  }

  /** Entries appear only when there is something to add. */
  function Extended(m: map<Fd, seq<Inflight>>, k: Fd, more: seq<Inflight>): (r: map<Fd, seq<Inflight>>)
    ensures Lookup(r, k) == Lookup(m, k) + more
    ensures forall j :: j != k ==> Lookup(r, j) == Lookup(m, j)
  {
    if more == [] then m else m[k := Lookup(m, k) + more]
  }

  function Emptied(m: map<Fd, seq<Inflight>>, k: Fd): (r: map<Fd, seq<Inflight>>)
    ensures Lookup(r, k) == []
    ensures forall j :: j != k ==> Lookup(r, j) == Lookup(m, j)
  {
    if k in m then m[k := []] else m
  }

  lemma ArrivingConserves(sockets: set<Fd>, arrived: map<Fd, seq<Inflight>>, forwarded: map<Fd, seq<Inflight>>,
                          pending: map<Fd, seq<Inflight>>, k: Fd, more: seq<Inflight>)
    requires Conserved(sockets, arrived, forwarded, pending)
    ensures Conserved(sockets, Extended(arrived, k, more), forwarded, Extended(pending, k, more))
  {
  }

  lemma TakingConserves(sockets: set<Fd>, arrived: map<Fd, seq<Inflight>>, forwarded: map<Fd, seq<Inflight>>,
                        pending: map<Fd, seq<Inflight>>, k: Fd)
    requires Conserved(sockets, arrived, forwarded, pending)
    ensures Conserved(sockets, arrived, Extended(forwarded, k, Lookup(pending, k)), Emptied(pending, k))
  {
  }

  lemma ForgettingKeepsFlow(sockets: map<Fd, seq<Fd>>, arrived: map<Fd, seq<Inflight>>,
                            forwarded: map<Fd, seq<Inflight>>, pending: map<Fd, seq<Inflight>>, m: Fd)
    requires Flow(sockets.Keys, arrived, forwarded, pending)
    ensures Flow((sockets - {m}).Keys, arrived - {m}, forwarded - {m}, pending - {m})
  {
    assert (sockets - {m}).Keys == sockets.Keys - {m};
  }

  lemma ForwardsOneMore(sent: seq<RequestMsg>, fd: Fd, frames: seq<seq<Byte>>, pending: seq<Inflight>,
                        arrivals: nat -> seq<Inflight>, buf: seq<Byte>, inflight: seq<Inflight>)
    requires Forwards(sent, fd, frames, pending, arrivals) && Ready(buf)
    requires inflight == (if sent == [] then pending else []) + arrivals(|sent|)
    ensures
      var frame := buf[..TotalSize(buf)];
      Forwards(sent + [RequestMsg(fd, Opcode(buf), frame, inflight, -1)], fd, frames + [frame], pending, arrivals)
  {
  }

  lemma DroppingKeepsInv(t: Tables, fd: Fd)
    requires TablesInv(t) && fd in t.clients
    ensures TablesInv(Dropped(t, fd))
    ensures Without(t.sockets[t.clients[fd].msgFd], fd) == [] <==> !Shared(t.clients, fd)
  {
    DroppingKeepsTables(t, fd);
    LeftoverIsShared(t.clients, t.sockets, fd);
  }

  class IoThread {
    var ioClients: map<Fd, IoClient>
    var msgFdClients: map<Fd, seq<Fd>>
    var pendingFds: map<Fd, seq<Inflight>>
    var clientReplyFds: map<Fd, Fd>
    ghost var closes: seq<Fd>
    ghost var pipes: set<Fd>
    ghost var socks: set<Fd>
    ghost var arrived: map<Fd, seq<Inflight>>
    ghost var forwarded: map<Fd, seq<Inflight>>

    ghost function Meaning(): Tables
      reads this
    {
      Tables(ioClients, msgFdClients, closes, pipes, socks)
    }

    /** The two client maps are inverse to each other; no complete request sits
        unnoticed in a buffer; and every descriptor that arrived on a listed
        socket was either forwarded, in order, or is still pending. */
    ghost predicate Valid()
      reads this
    {
      && TablesInv(Meaning())
      && (forall f :: f in ioClients ==> !Ready(ioClients[f].recvBuf))
      && Flow(msgFdClients.Keys, arrived, forwarded, pendingFds)
    }

    constructor ()
      ensures Valid() && Meaning() == NO_TABLES && pendingFds == map[]
    {
      ioClients, msgFdClients, pendingFds, clientReplyFds := map[], map[], map[], map[];
      closes, pipes, socks, arrived, forwarded := [], {}, {}, map[], map[];
    }

    /** A connection: `msgFd` is the accepted socket, `requestFd` the pipe end. */
    method HandleAccept(requestFd: Fd, msgFd: Fd) returns (sent: RequestMsg)
      requires Valid() && Possible(Meaning(), Accept(requestFd, msgFd))
      modifies this`ioClients, this`msgFdClients, this`pipes, this`socks
      ensures Valid()
      ensures Meaning() == Applied(old(Meaning()), Accept(requestFd, msgFd))
      ensures sent == RequestMsg(requestFd, REQ_REGISTER, [], [], msgFd)
      ensures [(sent.clientFd, sent.req)] == CspLoop.Emits(CspLoop.NewConnection(requestFd, msgFd))
    {
      AddingKeepsTables(Meaning(), requestFd, msgFd);
      ioClients := ioClients[requestFd := IoClient(msgFd, [])];
      msgFdClients := msgFdClients[msgFd := Lookup(msgFdClients, msgFd) + [requestFd]];
      pipes, socks := pipes + {requestFd}, socks + {msgFd};
      sent := RequestMsg(requestFd, REQ_REGISTER, [], [], msgFd);
    }

    /** Everything readable on a message socket joins its queue. */
    method DrainMsgFd(msgFd: Fd, arrivals: seq<Inflight>)
      requires Valid() && msgFd in msgFdClients
      modifies this`pendingFds, this`arrived
      ensures Valid()
      ensures pendingFds == Extended(old(pendingFds), msgFd, arrivals)
      ensures arrived == Extended(old(arrived), msgFd, arrivals)
    {
      ArrivingConserves(msgFdClients.Keys, arrived, forwarded, pendingFds, msgFd, arrivals);
      pendingFds := Extended(pendingFds, msgFd, arrivals);
      arrived := Extended(arrived, msgFd, arrivals);
    }

    /** Take everything pending on a socket, for the next request. */
    method TakePending(msgFd: Fd) returns (inflight: seq<Inflight>)
      requires Valid() && msgFd in msgFdClients
      modifies this`pendingFds, this`forwarded
      ensures Valid()
      ensures inflight == Lookup(old(pendingFds), msgFd)
      ensures pendingFds == Emptied(old(pendingFds), msgFd)
      ensures forwarded == Extended(old(forwarded), msgFd, inflight)
    {
      TakingConserves(msgFdClients.Keys, arrived, forwarded, pendingFds, msgFd);
      inflight := Lookup(pendingFds, msgFd);
      pendingFds := Emptied(pendingFds, msgFd);
      forwarded := Extended(forwarded, msgFd, inflight);
    }

    /** One round of the read loop's descriptor handling: drain the socket,
        then take everything that is pending on it. */
    method TakeInflight(msgFd: Fd, arrivals: seq<Inflight>) returns (inflight: seq<Inflight>)
      requires Valid() && msgFd in msgFdClients
      modifies this`pendingFds, this`arrived, this`forwarded
      ensures Valid()
      ensures inflight == Lookup(old(pendingFds), msgFd) + arrivals
      ensures pendingFds == Emptied(Extended(old(pendingFds), msgFd, arrivals), msgFd)
    {
      DrainMsgFd(msgFd, arrivals);
      inflight := TakePending(msgFd);
    }

    /** The read loop: forward request after request until the buffer holds
        no complete one. */
    method ForwardFrames(fd: Fd, msgFd: Fd, stream: seq<Byte>, arrivals: nat -> seq<Inflight>)
      returns (sent: seq<RequestMsg>, rest: seq<Byte>)
      requires Valid() && msgFd in msgFdClients
      modifies this`pendingFds, this`arrived, this`forwarded
      ensures Valid()
      ensures Forwards(sent, fd, Frames(stream), Lookup(old(pendingFds), msgFd), arrivals)
      ensures rest == Rest(stream) && !Ready(rest)
    {
      var buf := stream;
      ghost var frames := [];
      ghost var pending := Lookup(pendingFds, msgFd);
      sent := [];
      while Ready(buf)
        invariant Valid()
        invariant Frames(stream) == frames + Frames(buf) && Rest(stream) == Rest(buf)
        invariant Forwards(sent, fd, frames, pending, arrivals)
        invariant Lookup(pendingFds, msgFd) == if sent == [] then pending else []
        decreases |buf|
      {
        var frame := buf[..TotalSize(buf)];
        var inflight := TakeInflight(msgFd, arrivals(|sent|));
        ForwardsOneMore(sent, fd, frames, pending, arrivals, buf, inflight);
        TakeFrame(frames, buf);
        sent := sent + [RequestMsg(fd, Opcode(buf), frame, inflight, -1)];
        frames := frames + [frame];
        buf := buf[TotalSize(buf)..];
      }
      assert frames == Frames(stream);
      rest := buf;
    }

    /** A successful read of `chunk`. */
    method HandleClientData(fd: Fd, chunk: seq<Byte>, arrivals: nat -> seq<Inflight>)
      returns (sent: seq<RequestMsg>)
      requires Valid() && fd in ioClients
      modifies this`ioClients, this`pendingFds, this`arrived, this`forwarded
      ensures Valid()
      ensures
        var c := old(ioClients)[fd];
        var stream := c.recvBuf + chunk;
        && Forwards(sent, fd, Frames(stream), Lookup(old(pendingFds), c.msgFd), arrivals)
        && ioClients == old(ioClients)[fd := IoClient(c.msgFd, Rest(stream))]
        && (forall k :: 0 <= k < |Frames(stream)| ==> |Frames(stream)[k]| >= HEADER_SIZE)
        && Labels(sent) == CspLoop.Emits(CspLoop.Data(fd, Opcodes(Frames(stream))))
    {
      var c := ioClients[fd];
      var rest;
      sent, rest := ForwardFrames(fd, c.msgFd, c.recvBuf + chunk, arrivals);
      ReadIsData(sent, fd, Frames(c.recvBuf + chunk), Lookup(old(pendingFds), c.msgFd), arrivals);
      BufferKeepsInverse(ioClients, msgFdClients, fd, rest);
      ioClients := ioClients[fd := IoClient(c.msgFd, rest)];
    }

    /** End of file on a request pipe. */
    method Disconnect(fd: Fd) returns (sent: RequestMsg)
      requires Valid() && fd in ioClients
      modifies this`ioClients, this`msgFdClients, this`pendingFds, this`clientReplyFds,
               this`closes, this`arrived, this`forwarded
      ensures Valid()
      ensures Meaning() == Dropped(old(Meaning()), fd)
      ensures pendingFds == if Shared(old(ioClients), fd) then old(pendingFds) else old(pendingFds) - {old(ioClients)[fd].msgFd}
      ensures clientReplyFds == old(clientReplyFds) - {fd}
      ensures sent == RequestMsg(fd, REQ_DISCONNECT, [], [], -1)
      ensures [(sent.clientFd, sent.req)] == CspLoop.Emits(CspLoop.Hangup(fd))
    {
      var m := ioClients[fd].msgFd;
      ghost var after := Dropped(Meaning(), fd);
      DroppingKeepsInv(Meaning(), fd);
      var clients := Without(msgFdClients[m], fd);
      ioClients, clientReplyFds := ioClients - {fd}, clientReplyFds - {fd};
      if clients == [] {
        ForgettingKeepsFlow(msgFdClients, arrived, forwarded, pendingFds, m);
        msgFdClients, pendingFds := msgFdClients - {m}, pendingFds - {m};
        closes, arrived, forwarded := closes + [m, fd], arrived - {m}, forwarded - {m};
      } else {
        assert msgFdClients[m := clients].Keys == msgFdClients.Keys;
        msgFdClients := msgFdClients[m := clients];
        closes := closes + [fd];
      }
      assert Meaning() == after;
      sent := RequestMsg(fd, REQ_DISCONNECT, [], [], -1);
    }

    /** The effect by which the authority adds a client that a handler made, under
        whatever socket it names. */
    method RegisterClient(requestFd: Fd, msgFd: Fd)
      requires Valid() && (requestFd in ioClients || Possible(Meaning(), Register(requestFd, msgFd)))
      modifies this`ioClients, this`msgFdClients, this`pipes, this`socks
      ensures Valid()
      ensures Meaning() == Registered(old(Meaning()), requestFd, msgFd)
      ensures requestFd !in old(ioClients) && Sound(old(Meaning())) ==> (Sound(Meaning()) <==> msgFd !in closes)
    {
      if requestFd in ioClients {
        return;
      }
      AddingKeepsTables(Meaning(), requestFd, msgFd);
      ioClients := ioClients[requestFd := IoClient(msgFd, [])];
      msgFdClients := msgFdClients[msgFd := Lookup(msgFdClients, msgFd) + [requestFd]];
      pipes, socks := pipes + {requestFd}, socks + {msgFd};
    }
  }
}
