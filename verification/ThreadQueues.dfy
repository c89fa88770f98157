/**
  The message ring and the per-thread queue as mutable objects, for calls that
  do not overlap.  The ring is specified by the queue of messages it holds.
*/
module ThreadQueues {
  import opened Basics
  import opened RingProtocol

  /** Wake bits are the set of bit numbers that are on; QS_POSTMESSAGE is 0x0008. */
  const QS_POSTMESSAGE: nat := 3

  /** The `n` messages that start at position `rp`, oldest first. */
  function Window(b: Buffer, rp: Position, n: nat): (w: seq<Message>)
    ensures |w| == n
  {
    seq(n, i requires 0 <= i < n => b[Slot(Wrap(rp + i))])
  }

  lemma OffsetsDiffer(rp: Position, i: nat, n: nat)
    requires i < n < RING_CAPACITY
    ensures Slot(Wrap(rp + i)) != Slot(Wrap(rp + n))
  {
    WrappedSlot(rp + i);
    WrappedSlot(rp + n);
    DistinctSlots(rp + i, rp + n);
  }

  /** Storing at the write position appends, also across both wrap-arounds. */
  lemma StoreAppends(b: Buffer, rp: Position, n: nat, m: Message)
    requires n < RING_CAPACITY
    ensures Window(b[Slot(Wrap(rp + n)) := m], rp, n + 1) == Window(b, rp, n) + [m]
  {
    var stored := Window(b[Slot(Wrap(rp + n)) := m], rp, n + 1);
    forall i | 0 <= i < n ensures stored[i] == Window(b, rp, n)[i] {
      OffsetsDiffer(rp, i, n);
    }
  }

  /** Advancing the read position drops the oldest message. */
  lemma AdvanceDrops(b: Buffer, rp: Position, n: nat)
    requires n > 0
    ensures Window(b, rp, n) == [b[Slot(rp)]] + Window(b, Wrap(rp + 1), n - 1)
  {
    var all, rest := Window(b, rp, n), Window(b, Wrap(rp + 1), n - 1);
    forall i | 0 <= i < n - 1 ensures rest[i] == all[i + 1] {
      WrapAdd(rp + 1, i);
    }
    WrapOnce(rp);
    assert all[0] == b[Slot(Wrap(rp))];
    assert all == [b[Slot(rp)]] + rest;
  }

  /** Storing lengthens the window by one. */
  lemma LengthAfterPush(wp: Position, rp: Position)
    ensures Wrap(rp + Wrap(wp - rp)) == wp
    ensures Wrap(wp - rp) < RING_CAPACITY ==> Wrap(Wrap(wp + 1) - rp) == Wrap(wp - rp) + 1
  {
    WrapOnce(wp - rp);
    WrapOnce(wp + 1);
    WrapOnce(rp + Wrap(wp - rp));
    WrapOnce(Wrap(wp + 1) - rp);
  }

  /** Reading shortens it by one. */
  lemma LengthAfterPop(wp: Position, rp: Position)
    requires wp != rp
    ensures Wrap(wp - Wrap(rp + 1)) == Wrap(wp - rp) - 1
  {
  }

  class MessageRing {
    var writePos: Position
    var readPos: Position
    const buf: array<Message>

    function Len(): nat
      reads this
    {
      Wrap(writePos - readPos)
    }

    ghost predicate Valid()
      reads this, buf
    {
      buf.Length == RING_CAPACITY && Len() <= RING_CAPACITY
    }

    ghost function Contents(): (q: seq<Message>)
      requires Valid()
      reads this, buf
      ensures |q| <= RING_CAPACITY
    {
      Window(buf[..], readPos, Len())
    }

    constructor ()
      ensures Valid() && fresh(buf) && Contents() == []
    {
      writePos, readPos := 0, 0;
      buf := new Message[RING_CAPACITY](i => BLANK);
    }

    method Push(msg: Message) returns (ok: bool)
      requires Valid()
      modifies this, buf
      ensures Valid()
      ensures ok <==> |old(Contents())| < RING_CAPACITY
      ensures Contents() == if ok then old(Contents()) + [msg] else old(Contents())
    {
      var wp: int, rp: int := writePos, readPos;
      if Full(wp, rp) {
        return false;
      }
      ghost var n, before: Buffer := Len(), buf[..];
      LengthAfterPush(wp, rp);
      buf[Slot(wp)] := msg;
      writePos := Wrap(wp + 1);
      StoreAppends(before, rp, n, msg);
      assert buf[..] == before[Slot(wp) := msg];
      return true;
    }

    method Pop() returns (msg: Option<Message>)
      requires Valid()
      modifies this
      ensures Valid()
      ensures old(Contents()) == [] <==> msg.None?
      ensures msg.None? ==> Contents() == []
      ensures msg.Some? ==> old(Contents()) == [msg.value] + Contents()
    {
      var rp: int, wp: int := readPos, writePos;
      if rp == wp {
        return None;
      }
      LengthAfterPop(wp, rp);
      AdvanceDrops(buf[..], rp, Len());
      var m := buf[Slot(rp)];
      readPos := Wrap(rp + 1);
      return Some(m);
    }

    method IsEmpty() returns (empty: bool)
      requires Valid()
      ensures empty <==> Contents() == []
    {
      var rp, wp := readPos, writePos;
      return rp == wp;
    }
  }

  class ThreadQueue {
    const posted: MessageRing
    var wakeBits: set<nat>

    /** The post-message wake bit is set exactly while a message is stored. */
    ghost predicate Valid()
      reads this, posted, posted.buf
    {
      && posted.Valid()
      && (QS_POSTMESSAGE in wakeBits <==> posted.Contents() != [])
    }

    constructor ()
      ensures Valid() && fresh(posted) && fresh(posted.buf)
      ensures posted.Contents() == [] && wakeBits == {}
    {
      var ring := new MessageRing();
      posted := ring;
      wakeBits := {};
    }

    method Post(msg: Message) returns (ok: bool)
      requires Valid()
      modifies this, posted, posted.buf
      ensures Valid()
      ensures ok <==> |old(posted.Contents())| < RING_CAPACITY
      ensures posted.Contents() == if ok then old(posted.Contents()) + [msg] else old(posted.Contents())
      ensures wakeBits - {QS_POSTMESSAGE} == old(wakeBits) - {QS_POSTMESSAGE}
    {
      ok := posted.Push(msg);
      if ok {
        wakeBits := wakeBits + {QS_POSTMESSAGE};
      }
    }

    method Get() returns (msg: Option<Message>)
      requires Valid()
      modifies this, posted
      ensures Valid()
      ensures old(posted.Contents()) == [] <==> msg.None?
      ensures msg.None? ==> posted.Contents() == []
      ensures msg.Some? ==> old(posted.Contents()) == [msg.value] + posted.Contents()
      ensures wakeBits - {QS_POSTMESSAGE} == old(wakeBits) - {QS_POSTMESSAGE}
    {
      msg := posted.Pop();
      if msg.None? {
        return;
      }
      var empty := posted.IsEmpty();
      if empty {
        wakeBits := wakeBits - {QS_POSTMESSAGE};
      }
    }
  }
}
