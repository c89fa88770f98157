/**
  Cutting a client's byte stream into requests.  A request is a 64-byte fixed
  part whose header announces how many variable bytes follow it.
*/
module Framing {
  import opened Bytes

  const HEADER_SIZE := 12
  const FIXED_SIZE := 64

  /** `sizeof(generic_request)` plus the header's `request_size`. */
  function TotalSize(b: seq<Byte>): (n: nat)
    requires |b| >= HEADER_SIZE
    ensures n >= FIXED_SIZE
  {
    FIXED_SIZE + U32At(b, 4)
  }

  /** The header's opcode, a signed 32-bit integer. */
  function Opcode(frame: seq<Byte>): (req: int)
    requires |frame| >= HEADER_SIZE
    ensures -0x8000_0000 <= req < 0x8000_0000
  {
    var n := U32At(frame, 0) as int;
    if n < 0x8000_0000 then n else n - U32_LIMIT
  }

  /** At least one whole request is buffered. */
  predicate Ready(b: seq<Byte>) {
    |b| >= HEADER_SIZE && |b| >= TotalSize(b)
  }

  /** The requests that a buffer holds, and the bytes left over. */
  function Frames(b: seq<Byte>): seq<seq<Byte>> {
    if !Ready(b) then [] else [b[..TotalSize(b)]] + Frames(b[TotalSize(b)..])
  }

  function Rest(b: seq<Byte>): seq<Byte> {
    if !Ready(b) then b else Rest(b[TotalSize(b)..])
  }

  function Concat(parts: seq<seq<Byte>>): seq<Byte> {
    if parts == [] then [] else parts[0] + Concat(parts[1..])
  }

  /** Exactly one request, nothing missing and nothing extra. */
  predicate WellFormed(frame: seq<Byte>) {
    |frame| >= HEADER_SIZE && |frame| == TotalSize(frame)
  }

  /** What the read loop keeps and emits over successive reads. */
  function FeedAll(buffered: seq<Byte>, chunks: seq<seq<Byte>>): (r: (seq<seq<Byte>>, seq<Byte>))
    decreases chunks
  {
    if chunks == [] then ([], buffered)
    else
      var b := buffered + chunks[0];
      var tail := FeedAll(Rest(b), chunks[1..]);
      (Frames(b) + tail.0, tail.1)
  }

  /** Moving one request out of the buffer. */
  lemma TakeFrame(done: seq<seq<Byte>>, b: seq<Byte>)
    requires Ready(b)
    ensures done + Frames(b) == (done + [b[..TotalSize(b)]]) + Frames(b[TotalSize(b)..])
    ensures Rest(b) == Rest(b[TotalSize(b)..])
  {
  }

  lemma SameSize(a: seq<Byte>, b: seq<Byte>)
    requires |a| >= HEADER_SIZE && a <= b
    ensures TotalSize(a) == TotalSize(b)
  {
  }

  /** Bytes that arrive later do not disturb the requests already complete. */
  lemma {:induction false} AppendBytes(a: seq<Byte>, b: seq<Byte>)
    ensures Frames(a + b) == Frames(a) + Frames(Rest(a) + b)
    ensures Rest(a + b) == Rest(Rest(a) + b)
    decreases |a|
  {
    if Ready(a) {
      SameSize(a, a + b);
      var n := TotalSize(a);
      assert (a + b)[..n] == a[..n] && (a + b)[n..] == a[n..] + b;
      AppendBytes(a[n..], b);
    }
  }

  lemma {:induction false} RestIsIncomplete(b: seq<Byte>)
    ensures !Ready(Rest(b)) && Frames(Rest(b)) == []
  {
    if Ready(b) {
      RestIsIncomplete(b[TotalSize(b)..]);
    }
  }

  /** Every way of splitting the stream into reads emits the requests of the
      whole stream and leaves the same bytes behind. */
  lemma {:induction false} ChunkingDoesNotMatter(buffered: seq<Byte>, chunks: seq<seq<Byte>>)
    requires !Ready(buffered)
    ensures FeedAll(buffered, chunks) == (Frames(buffered + Concat(chunks)), Rest(buffered + Concat(chunks)))
    decreases chunks
  {
    if chunks == [] {
      assert buffered + Concat(chunks) == buffered;
    } else {
      var b := buffered + chunks[0];
      RestIsIncomplete(b);
      ChunkingDoesNotMatter(Rest(b), chunks[1..]);
      AppendBytes(b, Concat(chunks[1..]));
      assert buffered + Concat(chunks) == b + Concat(chunks[1..]);
    }
  }

  lemma FirstFrame(b: seq<Byte>)
    requires Ready(b)
    ensures
      var n := TotalSize(b);
      && b == b[..n] + b[n..] && Rest(b) == Rest(b[n..])
      && Concat(Frames(b)) == b[..n] + Concat(Frames(b[n..]))
  {
    assert Frames(b)[1..] == Frames(b[TotalSize(b)..]);
  }

  lemma Regroup(a: seq<Byte>, b: seq<Byte>, c: seq<Byte>)
    ensures (a + b) + c == a + (b + c)
  {
  }

  /** Emitted bytes plus the leftover are the bytes received, in order. */
  lemma {:induction false} NoByteIsLost(b: seq<Byte>)
    ensures Concat(Frames(b)) + Rest(b) == b
  {
    if Ready(b) {
      var head, tail := b[..TotalSize(b)], b[TotalSize(b)..];
      NoByteIsLost(tail);
      FirstFrame(b);
      Regroup(head, Concat(Frames(tail)), Rest(tail));
    }
  }

  /** Every emitted request is whole. */
  lemma {:induction false} FramesAreWhole(b: seq<Byte>)
    ensures forall i :: 0 <= i < |Frames(b)| ==> WellFormed(Frames(b)[i])
  {
    if Ready(b) {
      var n := TotalSize(b);
      FramesAreWhole(b[n..]);
      SameSize(b[..n], b);
      assert Frames(b) == [b[..n]] + Frames(b[n..]);
    }
  }

  /** There is only one way to read a stream as whole requests followed by an
      incomplete one: the way the loop reads it. */
  lemma {:induction false} ParseIsUnique(frames: seq<seq<Byte>>, rest: seq<Byte>)
    requires forall i :: 0 <= i < |frames| ==> WellFormed(frames[i])
    requires !Ready(rest)
    ensures Frames(Concat(frames) + rest) == frames && Rest(Concat(frames) + rest) == rest
  {
    if frames == [] {
      assert Concat(frames) + rest == rest;
    } else {
      var b := Concat(frames) + rest;
      assert b == frames[0] + (Concat(frames[1..]) + rest);
      SameSize(frames[0], b);
      assert b[..|frames[0]|] == frames[0] && b[|frames[0]|..] == Concat(frames[1..]) + rest;
      ParseIsUnique(frames[1..], rest);
    }
  }

  // ---- the requests themselves ----

  /** A request as a client makes it: the three numbers of its header, the size
      being that of its variable part, and the rest of its fixed part. */
  datatype Request = Request(req: int, replySize: U32, fixed: seq<Byte>, variable: seq<Byte>)

  predicate Proper(r: Request) {
    -0x8000_0000 <= r.req < 0x8000_0000 && |r.fixed| == 52 && |r.variable| < U32_LIMIT
  }

  /** The client's side: opcode, size of the variable part, room for the reply. */
  function Encode(r: Request): seq<Byte>
    requires Proper(r)
  {
    U32Bytes(if r.req < 0 then r.req + U32_LIMIT else r.req) + U32Bytes(|r.variable|) + U32Bytes(r.replySize)
    + r.fixed + r.variable
  }

  function EncodeEach(rs: seq<Request>): seq<seq<Byte>>
    requires forall i :: 0 <= i < |rs| ==> Proper(rs[i])
  {
    seq(|rs|, i requires 0 <= i < |rs| => Encode(rs[i]))
  }

  lemma EncodedHeader(r: Request)
    requires Proper(r)
    ensures
      var b := Encode(r);
      |b| == 64 + |r.variable| && U32At(b, 4) == |r.variable| && Opcode(b) == r.req
  {
    var b := Encode(r);
    var req: U32 := if r.req < 0 then r.req + U32_LIMIT else r.req;
    assert b[0..4] == U32Bytes(req);
    assert b[4..8] == U32Bytes(|r.variable|);
    U32AtBytes(b, 0, req);
    U32AtBytes(b, 4, |r.variable|);
  }

  /** Less than all of a request is none. */
  lemma PartIsNotReady(r: Request, part: seq<Byte>)
    requires Proper(r) && part < Encode(r)
    ensures !Ready(part)
  {
    EncodedHeader(r);
    if |part| >= HEADER_SIZE {
      SameSize(part, Encode(r));
    }
  }

  /** A stream of requests, followed by a part of one more, is read as just
      that. */
  lemma StreamOfRequests(rs: seq<Request>, next: Request, part: seq<Byte>)
    requires (forall i :: 0 <= i < |rs| ==> Proper(rs[i])) && Proper(next) && part < Encode(next)
    ensures
      var stream := Concat(EncodeEach(rs)) + part;
      Frames(stream) == EncodeEach(rs) && Rest(stream) == part
    ensures forall i :: 0 <= i < |rs| ==> |Encode(rs[i])| >= HEADER_SIZE && Opcode(Encode(rs[i])) == rs[i].req
  {
    forall i | 0 <= i < |rs| ensures WellFormed(Encode(rs[i])) && Opcode(Encode(rs[i])) == rs[i].req {
      EncodedHeader(rs[i]);
    }
    PartIsNotReady(next, part);
    ParseIsUnique(EncodeEach(rs), part);
  }

  /** What clients send is what the loop emits: any requests, followed by a part
      of one more, cut into reads in any way, are emitted one by one as they
      were, with their opcodes, and the part is kept. */
  lemma RequestsComeThrough(rs: seq<Request>, next: Request, part: seq<Byte>, chunks: seq<seq<Byte>>)
    requires (forall i :: 0 <= i < |rs| ==> Proper(rs[i])) && Proper(next) && part < Encode(next)
    requires Concat(chunks) == Concat(EncodeEach(rs)) + part
    ensures FeedAll([], chunks) == (EncodeEach(rs), part)
    ensures forall i :: 0 <= i < |rs| ==> |Encode(rs[i])| >= HEADER_SIZE && Opcode(Encode(rs[i])) == rs[i].req
  {
    StreamOfRequests(rs, next, part);
    ChunkingDoesNotMatter([], chunks);
    assert [] + Concat(chunks) == Concat(chunks);
  }
}
