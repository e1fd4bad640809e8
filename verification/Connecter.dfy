/** `chaos::Connecter` itself: an event with a read and a write buffer, updated in place,
    proved against the values of `Links` and `Dispatch`. */
module Connecters {
  import opened Rotation
  import opened Parts
  import opened Ring
  import opened RingWrite
  import opened RingQueue
  import opened RingRuns
  import opened Buffers
  import opened Links
  import opened OutputRuns
  import D = Dispatch
  import opened Centre

  /** What the socket answers: a number of bytes or the bytes, none of which means the end of the
      stream; "try again"; or another error. */
  datatype SendResult = Sent(n: nat) | SendLater | SendFailed
  datatype RecvResult = Got(bytes: seq<byte>) | RecvLater | RecvFailed

  class Connecter {
    const event: D.Event  // the `Event` part of the object
    const readBuffer: Buffer
    const writeBuffer: Buffer

    ghost var fresh': bool  // never registered
    ghost var taken: nat
    ghost var sent: nat

    ghost function Abs(): Link
      reads this, event, writeBuffer
    {
      Link(writeBuffer.Abs(), event.ev, event.attached, fresh', taken, sent)
    }

    /** Together with the loop of its centre. */
    ghost function Both(centre: EventCentre): Joint
      requires centre.done <= |centre.activeEvs|
      reads this, event, writeBuffer, centre, centre.known
    {
      Joint(centre.Abs(), Abs())
    }

    /** The buffers are good and share nothing with each other or with the centre. */
    ghost predicate Valid(centre: EventCentre)
      reads this, event, centre, centre.known, readBuffer, readBuffer.Repr, writeBuffer, writeBuffer.Repr
    {
      && readBuffer.Valid() && writeBuffer.Valid()
      && centre.Shaped() && event in centre.known
      && readBuffer.Repr !! writeBuffer.Repr && Apart(centre, readBuffer) && Apart(centre, writeBuffer)
    }

    ghost predicate Apart(centre: EventCentre, buffer: Buffer)
      reads centre, buffer
    {
      && this !in buffer.Repr && centre !in buffer.Repr
      && forall e | e in centre.known :: e !in buffer.Repr
    }

    constructor (fd: int)
      ensures fresh(event) && event.fd == fd && event.curEv == []
      ensures readBuffer.Valid() && writeBuffer.Valid()
      ensures fresh(readBuffer.Repr) && fresh(writeBuffer.Repr) && readBuffer.Abs() == EMPTY
      ensures Abs() == Links.Start()
    {
      event := new D.Event(fd, {D.Read, D.Write});
      readBuffer := new Buffer();
      writeBuffer := new Buffer();
      fresh', taken, sent := true, 0, 0;
    }

    /** `EventCentre::RegisterEvent` of this event. */
    method Register(centre: EventCentre, ctlOk: bool) returns (ret: int)
      requires Valid(centre)
      modifies this`fresh', centre`events, centre`kernel, centre`eventsNum, event`attached
      ensures Valid(centre) && Both(centre) == Perform(old(Both(centre)), event, Own(Attach, ctlOk))
      ensures ret == 0 <==> old(D.Registers(centre.Abs(), event, ctlOk))
    {
      hide D.DoRegister, D.Registers, D.OwnersKnown, AllFit, Used, Perform;
      OwnDoes(Both(centre), event, Attach, ctlOk);
      ret := centre.RegisterEvent(event, ctlOk);
      RegisteredIs(old(centre.Abs()), event, ctlOk);
      if ret == 0 { fresh' := false; }
    }

    method CancelEvent(centre: EventCentre)
      requires Valid(centre)
      modifies centre`waittingEvs, event`curEv, event`attached
      ensures Valid(centre) && Both(centre) == Perform(old(Both(centre)), event, Own(Detach, true))
    {
      hide D.DoCancel, D.OwnersKnown, AllFit, Used, Perform;
      OwnDoes(Both(centre), event, Detach, true);
      centre.CancelEvent(event);
      CancelledIs(old(centre.Abs()), event);
    }

    method EnableEvent(centre: EventCentre, m: D.Mask)
      requires Valid(centre)
      modifies centre`kernel, event`ev
      ensures Valid(centre) && Both(centre) == Perform(old(Both(centre)), event, Own(Enable(m), true))
      ensures Abs() == Add(old(Abs()), m * D.IO) && centre.Abs() == D.DoEnable(old(centre.Abs()), event, m)
    {
      hide D.DoEnable, D.OwnersKnown, AllFit, Used, Perform;
      OwnDoes(Both(centre), event, Enable(m), true);
      centre.UpdateEvent(event, true, m);
      EnabledIs(old(centre.Abs()), event, m);
    }

    method DisableEvent(centre: EventCentre, m: D.Mask)
      requires Valid(centre)
      modifies centre`kernel, event`ev
      ensures Valid(centre) && Both(centre) == Perform(old(Both(centre)), event, Own(Disable(m), true))
      ensures Abs() == Remove(old(Abs()), m * D.IO) && centre.Abs() == D.DoDisable(old(centre.Abs()), event, m)
    {
      hide D.DoDisable, D.OwnersKnown, AllFit, Used, Perform;
      OwnDoes(Both(centre), event, Disable(m), true);
      centre.UpdateEvent(event, false, m);
      DisabledIs(old(centre.Abs()), event, m);
    }

    method Store(centre: EventCentre, data: seq<byte>) returns (written: nat)
      requires Valid(centre)
      modifies this`taken, writeBuffer, writeBuffer.Repr
      ensures Valid(centre) && centre.Abs() == old(centre.Abs())
      ensures written == old(Written(Abs().out, data))
      ensures Abs() == old(Abs()).(out := Write(old(Abs().out), data), taken := old(taken) + written)
    {
      hide Write, Written, AllFit, Used, D.OwnersKnown;
      written := writeBuffer.WriteBuffer(data);
      taken := taken + written;
      assert centre.Abs() == old(centre.Abs());
    }

    /** Stores `data` and asks to be told when the socket can take it. */
    method WriteBuffer(centre: EventCentre, data: seq<byte>) returns (ret: int)
      requires Valid(centre)
      modifies this`taken, writeBuffer, writeBuffer.Repr, centre`kernel, event`ev
      ensures Valid(centre) && Both(centre) == Perform(old(Both(centre)), event, Own(Accept(data), true))
      ensures ret == if old(Refuses(Abs(), data)) then -1 else old(Written(Abs().out, data))
    {
      hide Write, Written, AllFit, Used, D.DoEnable, D.OwnersKnown, Perform;
      OwnDoes(Both(centre), event, Accept(data), true);
      var written := Store(centre, data);
      if written == 0 { return -1; }
      if !event.attached {
        Unattached(centre.Abs(), event, {D.Write});
        return -1;
      }
      assert {D.Write} * D.IO == {D.Write};
      EnableEvent(centre, {D.Write});
      ret := written;
    }

    /** What follows a send: the interest in writing goes when nothing is left. */
    method Settle(centre: EventCentre)
      requires Valid(centre)
      modifies centre`kernel, event`ev
      ensures Valid(centre) && writeBuffer.Abs() == old(writeBuffer.Abs())
      ensures Abs() == if writeBuffer.useSize == 0 then Remove(old(Abs()), {D.Write}) else Add(old(Abs()), {D.Write})
      ensures centre.Abs() ==
        if writeBuffer.useSize == 0 then D.DoDisable(old(centre.Abs()), event, {D.Write})
        else D.DoEnable(old(centre.Abs()), event, {D.Write})
    {
      hide D.DoEnable, D.DoDisable, AllFit, Used, D.OwnersKnown, Perform;
      assert {D.Write} * D.IO == {D.Write};
      if writeBuffer.GetReadSize() == 0 {
        DisableEvent(centre, {D.Write});
      } else {
        EnableEvent(centre, {D.Write});
      }
    }

    /** The bytes that `MoveReadPos` is told of leave the buffer; `really` of them were sent. */
    method Commit(centre: EventCentre, moved: nat, ghost really: nat)
      requires Valid(centre)
      modifies this`sent, writeBuffer.Repr
      ensures Valid(centre) && centre.Abs() == old(centre.Abs())
      ensures Abs() == old(Abs()).(out := MoveRead(old(Abs().out), moved), sent := old(sent) + really)
    {
      hide MoveRead, AllFit, Used, D.OwnersKnown;
      writeBuffer.MoveReadPos(moved);
      sent := sent + really;
      assert centre.Abs() == old(centre.Abs());
    }

    /** Offers the socket what is stored. A failed send cancels the event, unless a callback is
        set; -1 for "try again" is handed on as a size. */
    method HandleWrite(centre: EventCentre, result: SendResult)
      requires Valid(centre)
      requires writeBuffer.useSize != 0 && result.Sent? ==> result.n <= Total(Offered(Abs()))
      modifies this`sent, writeBuffer.Repr, centre`kernel, centre`waittingEvs, event
      ensures Valid(centre)
      ensures Both(centre) == Perform(old(Both(centre)), event, Own(Answer(old(Abs()), result), true))
    {
      hide AllFit, Used, Peek, Total, D.DoCancel, D.OwnersKnown, Perform, Flushes, SettledLoop, Answer, MoveRead,
        Tidy, Within, Contents, Gather, ReadOut, OnList, U32;
      AnswerDoes(Both(centre), event, result);
      if writeBuffer.GetReadSize() == 0 { return; }
      var iov := Offer(centre);
      if result.SendFailed? {
        CancelEvent(centre);
        return;
      }
      Send(centre, if result.Sent? then result.n else WORD - 1, if result.Sent? then result.n else 0);
    }

    /** The segments that the socket is offered. */
    method Offer(centre: EventCentre) returns (iov: seq<IoVec>)
      requires Valid(centre)
      ensures writeBuffer.Points(iov, Offered(Abs()))
    {
      hide Peek, AllFit, Used, Gather, ReadOut, OnList, Tidy, Within, U32;
      iov := writeBuffer.PeekBuffer(MAX_IOVEC, writeBuffer.GetReadSize());
    }

    /** What follows a send that has not failed. */
    method Send(centre: EventCentre, moved: nat, ghost really: nat)
      requires Valid(centre) && writeBuffer.useSize != 0
      modifies this`sent, writeBuffer.Repr, centre`kernel, event`ev
      ensures Valid(centre)
      ensures Abs() == Flushes(old(Abs()), moved).(sent := old(sent) + really)
      ensures centre.Abs() == SettledLoop(old(Both(centre)), event, Abs())
    {
      hide MoveRead, AllFit, Used, D.DoEnable, D.DoDisable, D.OwnersKnown;
      Commit(centre, moved, really);
      Settle(centre);
    }

    /** `HandleRead` up to its callback: the socket fills what it is lent, in order; less than
        expected, or "try again", enables reading; the end of the stream, or an error, cancels
        the event, unless a callback is set. */
    method HandleRead(centre: EventCentre, unread: nat, result: RecvResult)
      requires Valid(centre)
      requires result.Got? ==> CanTake(readBuffer.Abs(), MAX_IOVEC, unread, |result.bytes|)
      modifies readBuffer, readBuffer.Repr, centre`kernel, centre`waittingEvs, event
      ensures Valid(centre)
      ensures readBuffer.Abs() == Fill(old(readBuffer.Abs()), MAX_IOVEC, unread, if result.Got? then result.bytes else [])
      ensures Both(centre) ==
        if result == Got([]) || result.RecvFailed? then Perform(old(Both(centre)), event, Own(Detach, true))
        else if result.RecvLater? || |result.bytes| < unread then Perform(old(Both(centre)), event, Own(Enable({D.Read}), true))
        else old(Both(centre))
    {
      hide Fill, CanTake, AllFit, Used, D.DoEnable, D.DoCancel, D.OwnersKnown, Perform;
      Lend(centre, unread, if result.Got? then result.bytes else []);
      if result == Got([]) || result.RecvFailed? {
        CancelEvent(centre);
      } else if result.RecvLater? || |result.bytes| < unread {
        EnableEvent(centre, {D.Read});
      }
    }

    /** The read buffer's part. */
    method Lend(centre: EventCentre, unread: nat, got: seq<byte>)
      requires Valid(centre) && (got != [] ==> CanTake(readBuffer.Abs(), MAX_IOVEC, unread, |got|))
      modifies readBuffer, readBuffer.Repr
      ensures Valid(centre) && Both(centre) == old(Both(centre))
      ensures readBuffer.Abs() == Fill(old(readBuffer.Abs()), MAX_IOVEC, unread, got)
    {
      hide Fill, CanTake, AllFit, Used, D.OwnersKnown;
      if got == [] { TakesNothing(readBuffer.Abs(), MAX_IOVEC, unread); }
      readBuffer.Receive(MAX_IOVEC, unread, got);
      assert centre.Abs() == old(centre.Abs());
    }
  }

  /** The move that `HandleWrite` makes. */
  function Answer(l: Link, result: SendResult): Move {
    if l.out.used == 0 then Flush(0)
    else match result
      case Sent(n) => Flush(n)
      case SendLater => Again
      case SendFailed => Detach
  }

  lemma AnswerDoes(j: Joint, e: D.Event, result: SendResult)
    requires Known(j, e)
    ensures var k, l := Perform(j, e, Own(Answer(j.link, result), true)), j.link;
      if l.out.used == 0 then k == j
      else match result {
        case Sent(n) => k.link == Flushes(l, n).(sent := l.sent + n) && k.loop == SettledLoop(j, e, k.link)
        case SendLater => k.link == Flushes(l, WORD - 1).(sent := l.sent) && k.loop == SettledLoop(j, e, k.link)
        case SendFailed => k == Perform(j, e, Own(Detach, true))
      }
  {
    hide Perform, MoveRead;
    OwnDoes(j, e, Answer(j.link, result), true);
  }

  lemma TakesNothing(s: State, cnt: nat, want: nat)
    requires Indexed(s)
    ensures CanTake(s, cnt, want, 0)
  {
  }

  lemma Unattached(st: D.Loop, e: D.Event, m: D.Mask)
    requires D.OwnersKnown(st) && e in st.info && !st.info[e].attached
    ensures D.DoEnable(st, e, m) == st
  {
  }

  lemma RegisteredIs(st: D.Loop, e: D.Event, ctlOk: bool)
    requires D.OwnersKnown(st) && e in st.info
    ensures var t := D.DoRegister(st, e, ctlOk);
      && t.info[e] == (if D.Registers(st, e, ctlOk) then st.info[e].(attached := true) else st.info[e])
  {
  }

  lemma CancelledIs(st: D.Loop, e: D.Event)
    requires D.OwnersKnown(st) && e in st.info
    ensures var t := D.DoCancel(st, e); t.info[e].mask == st.info[e].mask && !t.info[e].attached
  {
  }

  lemma EnabledIs(st: D.Loop, e: D.Event, m: D.Mask)
    requires D.OwnersKnown(st) && e in st.info
    ensures var i := st.info[e];
      D.DoEnable(st, e, m).info[e] == if i.attached then i.(mask := i.mask + m * D.IO) else i
  {
  }

  lemma DisabledIs(st: D.Loop, e: D.Event, m: D.Mask)
    requires D.OwnersKnown(st) && e in st.info
    ensures var i := st.info[e];
      D.DoDisable(st, e, m).info[e] == if i.attached then i.(mask := i.mask - m * D.IO) else i
  {
  }
}
