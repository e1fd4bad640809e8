/** Output of `chaos::Connecter`: a write buffer, the interest in writing, and the event's
    registration, over whole runs. */
module Links {
  import opened Rotation
  import opened Parts
  import opened Ring
  import opened RingWrite
  import opened RingQueue
  import opened RingRuns
  import RingStreams
  import D = Dispatch

  /** `taken` and `sent` count the bytes that `WriteBuffer` stored and that the socket took;
      `fresh'` says that the event has never been registered. */
  datatype Link = Link(out: State, mask: D.Mask, attached: bool, fresh': bool, taken: nat, sent: nat)

  datatype Move =
    | Accept(data: seq<byte>)  // WriteBuffer
    | Flush(n: nat)            // HandleWrite, the socket taking `n` bytes
    | Again                    // HandleWrite, the socket answering "try again"
    | Attach                   // the centre registers the event
    | Detach                   // CancelEvent, also the default of a failed send
    | Enable(m: D.Mask)
    | Disable(m: D.Mask)

  /** `Event::UpdateEvent`: nothing happens without a centre. */
  function Add(l: Link, m: D.Mask): Link { if l.attached then l.(mask := l.mask + m) else l }

  function Remove(l: Link, m: D.Mask): Link { if l.attached then l.(mask := l.mask - m) else l }

  function Accepts(l: Link, data: seq<byte>): (k: Link)
    requires Indexed(l.out)
    ensures Indexed(k.out)
  {
    var n := Written(l.out, data);
    var stored := l.(out := Write(l.out, data), taken := l.taken + n);
    if n == 0 then stored else Add(stored, {D.Write})
  }

  /** `WriteBuffer` returns -1, although the bytes may have been stored. */
  predicate Refuses(l: Link, data: seq<byte>)
    requires Indexed(l.out)
  {
    Written(l.out, data) == 0 || !l.attached
  }

  /** What `HandleWrite` offers the socket. */
  function Offered(l: Link): seq<Seg>
    requires Indexed(l.out)
  {
    Peek(l.out.cells, l.out.r, MAX_IOVEC, l.out.used)
  }

  function Flushes(l: Link, n: nat): (k: Link)
    requires Indexed(l.out)
    ensures Indexed(k.out)
  {
    if l.out.used == 0 then l else
    var moved := l.(out := MoveRead(l.out, n), sent := l.sent + n);
    if moved.out.used == 0 then Remove(moved, {D.Write}) else Add(moved, {D.Write})
  }

  /** A "try again" is -1, which `HandleWrite` hands on to `MoveReadPos` as 2^32 - 1. */
  function Retries(l: Link): (k: Link)
    requires Indexed(l.out)
    ensures Indexed(k.out)
  {
    Flushes(l, WORD - 1).(sent := l.sent)
  }

  function Step(l: Link, move: Move): (k: Link)
    requires Indexed(l.out)
    ensures Indexed(k.out)
  {
    match move
    case Accept(data) => Accepts(l, data)
    case Flush(n) => Flushes(l, n)
    case Again => Retries(l)
    case Attach => l.(attached := true, fresh' := false)
    case Detach => l.(attached := false)
    case Enable(m) => Add(l, m * D.IO)
    case Disable(m) => Remove(l, m * D.IO)
  }

  /** The socket takes no more than it is offered. */
  predicate Possible(l: Link, move: Move)
    requires Indexed(l.out)
  {
    move.Flush? ==> l.out.used == 0 || move.n <= Total(Offered(l))
  }

  /** No retry is asked for while there is output, and an event with output is neither
      registered without the wish to write nor loses it. */
  predicate Allowed(l: Link, move: Move)
    requires Indexed(l.out)
  {
    && Possible(l, move)
    && match move {
         case Again => l.out.used == 0
         case Attach => l.out.used == 0 || D.Write in l.mask
         case Disable(m) => !l.attached || l.out.used == 0 || D.Write !in m
         case _ => true
       }
  }

  function Backlog(l: Link): int { l.taken - l.sent }

  /** The buffer's counter counts the backlog, up to the 2^32 bytes that it cannot tell from
      none; and while the counter shows output, a registered event waits to write. */
  predicate Tracks(l: Link) {
    && Accounted(l.out)
    && 0 <= Backlog(l) <= WORD && l.out.used == U32(Backlog(l))
    && (Backlog(l) == WORD ==> |l.out.cells| == MAX_NODES)
    && (l.fresh' ==> D.Write in l.mask && !l.attached)
    && (l.attached && 0 < l.out.used ==> D.Write in l.mask)
  }

  lemma WriteFits(s: State, data: seq<byte>)
    requires Accounted(s)
    ensures s.used + Written(s, data) <= WORD
    ensures Written(s, data) == |data| || Written(s, data) == 0
  {
    hide Used, Room, AllFit, U32, LeftSize;
    var g := Grow(s, |data|);
    GrowKeeps(s, |data|);
    LeftMeans(g.state);
  }

  /** A ring that fills up to 2^32 bytes has all its nodes. */
  lemma FullHasAll(s: State, data: seq<byte>)
    requires Accounted(s) && data != [] && Grow(s, |data|).ok && s.used + |data| == WORD
    ensures |Write(s, data).cells| == MAX_NODES
  {
    hide Rot, Used, Room, AllFit, U32, Write, LeftSize, Spread, Stutter;
    var g := Grow(s, |data|).state;
    GrowKeeps(s, |data|);
    WriteLands(s, data);
    assert WORD <= NODE_SIZE * |g.cells| by { SumBounds(g); }
  }

  /** A backlog of 2^32 bytes reads as an empty buffer, and nothing more can be stored. */
  lemma FullRefuses(s: State, data: seq<byte>)
    requires Accounted(s) && s.used == 0 && |s.cells| == MAX_NODES
    ensures Written(s, data) == 0 && Write(s, data).cells == s.cells
  {
    hide Used, AllFit, Put;
    ReservesIff(s, |data|);
    WriteNothing(s, data);
    assert AtCap(s);
  }

  lemma AcceptTracks(l: Link, data: seq<byte>)
    requires Tracks(l)
    ensures Tracks(Accepts(l, data))
  {
    hide Write, Grow, Used, AllFit;
    WriteCounts(l.out, data);
    WriteFits(l.out, data);
    if Backlog(l) == WORD {
      FullRefuses(l.out, data);
    } else if l.out.used + Written(l.out, data) == WORD {
      FullHasAll(l.out, data);
    }
  }

  lemma FlushTracks(l: Link, n: nat)
    requires Tracks(l) && Allowed(l, Flush(n))
    ensures Tracks(Flushes(l, n))
  {
    hide Used, AllFit, Peek, Drain, Total;
    if 0 < l.out.used {
      OffersStored(l);
      MoveReadCounts(l.out, n);
    }
  }

  /** After a send the event waits to write just as long as something is left. */
  lemma FlushSettles(l: Link, n: nat)
    requires Tracks(l) && Allowed(l, Flush(n)) && l.attached && 0 < l.out.used
    ensures var k := Flushes(l, n); D.Write in k.mask <==> Backlog(k) > 0
  {
    hide Used, AllFit, Peek, Drain, Total;
    OffersStored(l);
    MoveReadCounts(l.out, n);
  }

  /** In every state, also where the wish to write was lost, a send that leaves output makes a
      registered event wait to write again, and one that leaves none ends the waiting. */
  lemma FlushRestores(l: Link, n: nat)
    requires Accounted(l.out) && l.attached && 0 < l.out.used
    ensures D.Write in Flushes(l, n).mask <==> n < l.out.used
  {
    hide Used, AllFit, Drain;
    MoveReadCounts(l.out, n);
  }

  lemma OffersStored(l: Link)
    requires Accounted(l.out)
    ensures Total(Offered(l)) <= l.out.used
  {
    PeekTotal(l.out.cells, l.out.r, MAX_IOVEC, l.out.used);
  }

  lemma {:induction false} PeekTotal(cells: seq<Cell>, i: nat, cnt: nat, size: nat)
    requires cells == [] || i < |cells|
    ensures Total(Peek(cells, i, cnt, size)) <= size
    decreases cnt
  {
    if cnt != 0 && size != 0 && cells != [] {
      var len := Min(cells[i].used, size);
      PeekTotal(cells, Next(i, |cells|), cnt - 1, size - len);
      var rest := Peek(cells, Next(i, |cells|), cnt - 1, size - len);
      assert ([Seg(i, cells[i].cursor, len)] + rest)[1..] == rest;
    }
  }

  /** The socket is offered what the first eight nodes from the read node on hold. */
  lemma OffersEight(l: Link)
    requires Accounted(l.out) && l.out.cells != [] && 0 < l.out.used
    ensures var ring := Rot(l.out.cells, l.out.r); Total(Offered(l)) == Used(ring[..Min(8, |ring|)])
  {
    hide Rot, Peek, Total, AllFit, U32;
    var cells, r := l.out.cells, l.out.r;
    var ring := Rot(cells, r);
    SumBounds(l.out);
    RotSums(cells, r);
    assert ring[..|cells|] == ring;
    RingStreams.PeeksUsed(cells, r, MAX_IOVEC, l.out.used, |cells|);
    SumConcat(ring[..Min(8, |ring|)], ring[Min(8, |ring|)..]);
    assert ring == ring[..Min(8, |ring|)] + ring[Min(8, |ring|)..];
  }

  lemma MoveReadCounts(s: State, n: nat)
    requires Accounted(s)
    ensures var t := MoveRead(s, n); Accounted(t) && |t.cells| == |s.cells| && t.used == s.used - Min(n, s.used)
  {
    MoveReadTakes(s, n);
  }

  lemma RetriesIdle(l: Link)
    requires Indexed(l.out) && l.out.used == 0
    ensures Retries(l) == l
  {
  }

  lemma StepTracks(l: Link, move: Move)
    requires Tracks(l) && Allowed(l, move)
    ensures Tracks(Step(l, move))
  {
    hide AllFit, Used, U32, Written, Write, MoveRead, Offered, Accepts, Flushes;
    match move {
      case Accept(data) => AcceptTracks(l, data);
      case Flush(n) => FlushTracks(l, n);
      case Again => RetriesIdle(l);
      case _ =>
    }
  }

  /** A retry throws away all the output there is: it keeps the books if and only if there
      was none. */
  lemma AgainDiscards(l: Link)
    requires Tracks(l)
    ensures Step(l, Again).out.used == 0 && Step(l, Again).sent == l.sent
    ensures Tracks(Step(l, Again)) <==> l.out.used == 0
  {
    hide Used, AllFit, Drain;
    MoveReadCounts(l.out, WORD - 1);
  }

  /** A registration, the first or a later one, keeps the books if and only if nothing is
      stored or the event still wishes to write. */
  lemma AttachKeepsIff(l: Link)
    requires Tracks(l)
    ensures Tracks(Step(l, Attach)) <==> l.out.used == 0 || D.Write in l.mask
  {
    hide Accounted;
  }

  /** So the first one always does. */
  lemma FirstAttachKeeps(l: Link)
    requires Tracks(l) && l.fresh'
    ensures Tracks(Step(l, Attach))
  {
    hide Accounted;
  }

  /** Withdrawing interest keeps the books if and only if it does not take the wish to write
      from a registered event with output. */
  lemma DisableKeepsIff(l: Link, m: D.Mask)
    requires Tracks(l)
    ensures Tracks(Step(l, Disable(m))) <==> !l.attached || l.out.used == 0 || D.Write !in m
  {
    hide Accounted;
  }

  /** All together: of the moves that are possible, those that are allowed are exactly the ones
      that keep the books and the wish to write. */
  lemma StepTracksIff(l: Link, move: Move)
    requires Tracks(l) && Possible(l, move)
    ensures Tracks(Step(l, move)) <==> Allowed(l, move)
  {
    hide Step, Possible, AllFit, Used, U32, Backlog;
    if Allowed(l, move) {
      StepTracks(l, move);
    } else {
      match move {
        case Again => AgainDiscards(l);
        case Attach => AttachKeepsIff(l);
        case Disable(m) => DisableKeepsIff(l, m);
        case _ =>
      }
    }
  }

  /** Storing asks to be told when the socket can take it if and only if something was stored and
      the event is registered. */
  lemma AcceptAsksIff(l: Link, data: seq<byte>)
    requires Indexed(l.out) && D.Write !in l.mask
    ensures D.Write in Accepts(l, data).mask <==> l.attached && 0 < Written(l.out, data)
  {
    hide Write, Written;
  }

  // ---------------------------------------------------------------- runs

  predicate AllAllowed(l: Link, moves: seq<Move>)
    requires Indexed(l.out)
    decreases |moves|
  {
    moves == [] || (Allowed(l, moves[0]) && AllAllowed(Step(l, moves[0]), moves[1..]))
  }

  function Steps(l: Link, moves: seq<Move>): (k: Link)
    requires Indexed(l.out)
    ensures Indexed(k.out)
    decreases |moves|
  {
    if moves == [] then l else Steps(Step(l, moves[0]), moves[1..])
  }

  /** A `Connecter` as constructed. */
  function Start(): Link { Link(EMPTY, {D.Read, D.Write, D.Cancel}, false, true, 0, 0) }

  lemma {:induction false} StepsTrack(l: Link, moves: seq<Move>)
    requires Tracks(l) && AllAllowed(l, moves)
    ensures Tracks(Steps(l, moves))
    decreases |moves|
  {
    hide Step, Allowed, AllFit, Used, U32, Backlog;
    if moves != [] {
      StepTracks(l, moves[0]);
      StepsTrack(Step(l, moves[0]), moves[1..]);
    }
  }

  /** No output is lost: in every run from construction, what was taken is what was sent and
      what the buffer still counts, if and only if not exactly 2^32 bytes are stored; and a
      registered event whose buffer counts output waits to write. */
  lemma OutputKept(moves: seq<Move>)
    requires AllAllowed(Start(), moves)
    ensures var l := Steps(Start(), moves);
      && l.sent <= l.taken
      && (l.taken == l.sent + l.out.used <==> Backlog(l) != WORD)
      && (l.attached && 0 < Backlog(l) != WORD ==> D.Write in l.mask)
  {
    hide Steps, AllAllowed, AllFit, Used, Start;
    StartTracks();
    StepsTrack(Start(), moves);
    TracksMeans(Steps(Start(), moves));
  }

  lemma TracksMeans(l: Link)
    requires Tracks(l)
    ensures l.sent <= l.taken && (l.taken == l.sent + l.out.used <==> Backlog(l) != WORD)
    ensures l.attached && 0 < Backlog(l) != WORD ==> D.Write in l.mask
  {
  }

  lemma StartTracks()
    ensures Tracks(Start())
  {
    NothingUsed([]);
  }

  lemma NothingUsed(cs: seq<Cell>)
    requires cs == []
    ensures Used(cs) == 0 && AllFit(cs)
  {
  }

  /** At 2^32 bytes the counter reads 0: the handler sends nothing and nothing is accepted,
      so the backlog stays for ever. */
  lemma {:induction false} FullForEver(l: Link, moves: seq<Move>)
    requires Tracks(l) && Backlog(l) == WORD && AllAllowed(l, moves)
    ensures Steps(l, moves).sent == l.sent && Steps(l, moves).taken == l.taken
    decreases |moves|
  {
    hide Write, Written, MoveRead, AllFit, Used, Offered, Grow;
    if moves != [] {
      if moves[0].Accept? { FullRefuses(l.out, moves[0].data); }
      StepTracks(l, moves[0]);
      FullForEver(Step(l, moves[0]), moves[1..]);
    }
  }

  predicate Idles(moves: seq<Move>) { forall k | 0 <= k < |moves| :: moves[k].Flush? || moves[k].Again? }

  /** With nothing counted the write handler changes nothing, however often it is called: an event
      that wishes to write then, as each one does when it is constructed, goes on wishing so. */
  lemma {:induction false} IdleStays(l: Link, moves: seq<Move>)
    requires Indexed(l.out) && l.out.used == 0 && Idles(moves)
    ensures Steps(l, moves) == l && Wire(l, moves) == []
    decreases |moves|
  {
    if moves != [] {
      assert moves[0].Flush? || moves[0].Again?;
      assert forall k | 0 <= k < |moves[1..]| :: moves[1..][k] == moves[k + 1];
      assert Step(l, moves[0]) == l && OnWire(l, moves[0]) == [];
      IdleStays(l, moves[1..]);
    }
  }

  /** No move changes what the event cares for apart from I/O. */
  lemma {:induction false} CareElsewhere(l: Link, moves: seq<Move>)
    requires Indexed(l.out)
    ensures Steps(l, moves).mask - D.IO == l.mask - D.IO
    decreases |moves|
  {
    hide Write, Written, MoveRead;
    if moves != [] {
      assert (l.mask + {D.Write}) - D.IO == l.mask - D.IO && (l.mask - {D.Write}) - D.IO == l.mask - D.IO;
      CareElsewhere(Step(l, moves[0]), moves[1..]);
    }
  }

  /** How a state arises in which registering is not allowed: output accepted after a
      cancellation is stored, although it is refused. */
  lemma SecondRegistration(l: Link, data: seq<byte>)
    requires Tracks(l) && !l.attached && D.Write !in l.mask && 0 < Written(l.out, data)
    requires l.out.used + |data| < WORD
    ensures Refuses(l, data) && !Allowed(Accepts(l, data), Attach)
    ensures var k := Step(Accepts(l, data), Attach);
      k.attached && 0 < k.out.used && D.Write !in k.mask
  {
    hide Write, Grow, Used, AllFit;
    WriteCounts(l.out, data);
  }

  // ---------------------------------------------------------------- the bytes themselves

  /** Bytes a move stores, and bytes it puts on the wire. */
  function Stored(l: Link, move: Move): seq<byte>
    requires Indexed(l.out)
  {
    if move.Accept? then In(l.out, Send(move.data)) else []
  }

  function OnWire(l: Link, move: Move): seq<byte>
    requires Indexed(l.out)
  {
    if move.Flush? && l.out.used != 0 then
      PeekOnListHere(l);
      var all := Gather(l.out.cells, Offered(l));
      all[..Min(move.n, |all|)]
    else []
  }

  lemma PeekOnListHere(l: Link)
    requires Indexed(l.out)
    ensures OnList(l.out.cells, Offered(l))
  {
    PeekOnList(l.out.cells, l.out.r, MAX_IOVEC, l.out.used);
  }

  function AllStored(l: Link, moves: seq<Move>): seq<byte>
    requires Indexed(l.out)
    decreases |moves|
  {
    if moves == [] then [] else Stored(l, moves[0]) + AllStored(Step(l, moves[0]), moves[1..])
  }

  function Wire(l: Link, moves: seq<Move>): seq<byte>
    requires Indexed(l.out)
    decreases |moves|
  {
    if moves == [] then [] else OnWire(l, moves[0]) + Wire(Step(l, moves[0]), moves[1..])
  }

  /** Each write meets the condition under which the buffer appends it. */
  predicate Ordered(l: Link, moves: seq<Move>)
    requires Indexed(l.out)
    decreases |moves|
  {
    moves == [] || (
      && (moves[0].Accept? ==> Orderly(l.out, Send(moves[0].data)))
      && Ordered(Step(l, moves[0]), moves[1..]))
  }

  lemma FlushSends(l: Link, n: nat)
    requires Sound(l.out) && Allowed(l, Flush(n))
    ensures Sound(Flushes(l, n).out)
    ensures OnWire(l, Flush(n)) + Contents(Flushes(l, n).out) == Contents(l.out)
  {
    hide Contents, Peek, Gather, CopyOut, MoveRead, Total, Tidy, Within, AllFit, Used, ReadOut;
    if l.out.used != 0 {
      PeekThenMove(l.out, MAX_IOVEC, l.out.used);
      var t := Total(Offered(l));
      ReadsPrefix(l.out, t);
      ReadsPrefix(l.out, n);
      var c := Contents(l.out);
      assert c[..t][..n] == c[..n];
      assert c[..n] + c[n..] == c;
    }
  }

  lemma StepSends(l: Link, move: Move)
    requires Sound(l.out) && Allowed(l, move) && (move.Accept? ==> Orderly(l.out, Send(move.data)))
    ensures Sound(Step(l, move).out)
    ensures OnWire(l, move) + Contents(Step(l, move).out) == Contents(l.out) + Stored(l, move)
  {
    hide Contents, Tidy, Within, AllFit, Used, U32, Orderly, Write, Written, Flushes, Offered, In;
    match move {
      case Accept(data) =>
        SendQueues(l.out, data);
        assert [] + Contents(Write(l.out, data)) == Contents(Write(l.out, data));
      case Flush(n) =>
        FlushSends(l, n);
        assert Contents(l.out) + [] == Contents(l.out);
      case Again =>
        RetriesIdle(l);
        assert [] + Contents(l.out) == Contents(l.out) + [];
      case _ =>
        assert [] + Contents(l.out) == Contents(l.out) + [];
    }
  }

  /** What has gone out on the wire, followed by what is stored, is what was stored at the
      start followed by what was accepted: the peer gets a prefix, in order. */
  lemma {:induction false} WireInOrder(l: Link, moves: seq<Move>)
    requires Sound(l.out) && AllAllowed(l, moves) && Ordered(l, moves)
    ensures Sound(Steps(l, moves).out)
    ensures Wire(l, moves) + Contents(Steps(l, moves).out) == Contents(l.out) + AllStored(l, moves)
    decreases |moves|
  {
    hide Contents, Step, Allowed, OnWire, Stored, Orderly, Tidy, Within, AllFit, U32, Used;
    if moves != [] {
      var k := Step(l, moves[0]);
      StepSends(l, moves[0]);
      WireInOrder(k, moves[1..]);
      Chain(OnWire(l, moves[0]), Wire(k, moves[1..]), Contents(Steps(k, moves[1..]).out), Contents(k.out),
            AllStored(k, moves[1..]), Contents(l.out), Stored(l, moves[0]));
    }
  }
}
