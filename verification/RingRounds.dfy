/** Rounds of one fill followed by reads until nothing is left, as a connection with a
    draining read callback performs them; and inputs for which writes are not appended. */
module RingRounds {
  import opened Rotation
  import opened Parts
  import opened Ring
  import opened RingWrite
  import opened RingAppend
  import opened RingQueue
  import opened RingRuns

  /** Nothing stored, and the ring below its cap. */
  predicate Resting(s: State) { Sound(s) && Used(s.cells) == 0 && |s.cells| < MAX_NODES }

  datatype Round = Round(cnt: nat, want: nat, got: seq<byte>, takes: seq<nat>)

  function Sum(ns: seq<nat>): nat {
    if ns == [] then 0 else ns[0] + Sum(ns[1..])
  }

  /** The kernel fills at most what was asked for, and the reads ask for at least that. */
  predicate Drained(r: Round) {
    r.cnt < MAX_NODES && |r.got| <= Asked(r.cnt, r.want) && |r.got| <= Sum(r.takes)
  }

  function Takes(ns: seq<nat>): seq<Op> {
    if ns == [] then [] else [Take(ns[0])] + Takes(ns[1..])
  }

  function RoundOps(r: Round): seq<Op> { [Recv(r.cnt, r.want, r.got)] + Takes(r.takes) }

  function RoundsOps(rs: seq<Round>): seq<Op> {
    if rs == [] then [] else RoundOps(rs[0]) + RoundsOps(rs[1..])
  }

  function Received(rs: seq<Round>): seq<byte> {
    if rs == [] then [] else rs[0].got + Received(rs[1..])
  }

  lemma {:induction false} RoomOfEmpty(cs: seq<Cell>)
    requires AllFit(cs) && AllEmpty(cs)
    ensures Room(cs) == NODE_SIZE * |cs|
  {
    if cs != [] { RoomOfEmpty(cs[1..]); }
  }

  lemma RestingContents(s: State)
    requires Resting(s)
    ensures Contents(s) == [] && s.used == 0
  {
    hide Contents;
    ContentsLength(s);
  }

  lemma RestingRing(s: State)
    requires Resting(s) && s.cells != []
    ensures s.r == s.w && AllEmpty(s.cells) && AllFit(Rot(s.cells, s.w)) && AllEmpty(Rot(s.cells, s.w))
    ensures Back(s) == Rot(s.cells, s.w)
  {
    EmptyIffUnused(s.cells);
  }

  /** In a resting ring every write that fits it is appended. */
  lemma RestingAppends(s: State, n: nat)
    requires Resting(s) && 0 < n <= Room(s.cells)
    ensures s.cells != [] && Appends(s, n)
  {
    hide Rot, Back;
    RestingRing(s);
    RotSums(s.cells, s.w);
    UsedAndRoom(s.cells);
    var ring := Rot(s.cells, s.w);
    RotHere(s.cells, s.w);
    assert Ready(ring);
  }

  /** A resting ring grown for a request lends exactly what was asked for. */
  lemma RestingLends(s: State, cnt: nat, want: nat)
    requires Resting(s) && cnt < MAX_NODES
    ensures var g := Grow(s, Asked(cnt, want));
      && g.ok && Resting(g.state) && Total(Segments(s, cnt, want)) == Asked(cnt, want)
  {
    hide Grow, Rot, Contents, Lend, Total, U32, Asked, Tidy, Within, Room;
    var size := Asked(cnt, want);
    AskedFits(cnt, want);
    RestingContents(s);
    ReservesIff(s, size);
    GrowKeeps(s, size);
    GrowBelowCap(s, size);
    var g := Grow(s, size).state;
    if size == 0 {
      SegmentsFit(s, cnt, want);
    } else {
      RestingLap(g, cnt, size);
    }
  }

  lemma AskedFits(cnt: nat, want: nat)
    requires cnt < MAX_NODES
    ensures Asked(cnt, want) <= cnt * NODE_SIZE <= WORD - NODE_SIZE
  {
  }

  lemma RestingLap(g: State, cnt: nat, size: nat)
    requires Resting(g) && g.cells != [] && 0 < size <= Room(g.cells) && size <= cnt * NODE_SIZE
    ensures Total(Lend(g.cells, g.w, cnt, size)) == size
  {
    hide Rot, Lend, Total, Tidy, Within;
    var laps := (size + NODE_SIZE - 1) / NODE_SIZE;
    RestingRing(g);
    UsedAndRoom(g.cells);
    var ring := Rot(g.cells, g.w);
    assert AllEmpty(ring[..laps]) && AllFit(ring[..laps]);
    RoomOfEmpty(ring[..laps]);
    LendsOnce(g.cells, g.w, cnt, size, laps);
  }

  lemma {:induction false} RunConcat(s: State, a: seq<Op>, b: seq<Op>)
    requires Indexed(s)
    ensures Run(s, a + b) == Run(Run(s, a), b)
    ensures Outs(s, a + b) == Outs(s, a) + Outs(Run(s, a), b)
    ensures AllPossible(s, a + b) <==> AllPossible(s, a) && AllPossible(Run(s, a), b)
    ensures AllOrderly(s, a + b) <==> AllOrderly(s, a) && AllOrderly(Run(s, a), b)
    decreases |a|
  {
    hide Do, Out, Possible, Orderly;
    if a == [] {
      assert a + b == b;
    } else {
      assert (a + b)[0] == a[0] && (a + b)[1..] == a[1..] + b;
      RunConcat(Do(s, a[0]), a[1..], b);
    }
  }

  /** Reads that ask for all that is stored leave the ring at rest. */
  lemma {:induction false} TakesDrain(s: State, ns: seq<nat>)
    requires Sound(s) && |s.cells| < MAX_NODES && |Contents(s)| <= Sum(ns)
    ensures AllPossible(s, Takes(ns)) && AllOrderly(s, Takes(ns))
    ensures Resting(Run(s, Takes(ns))) && Outs(s, Takes(ns)) == Contents(s)
    decreases |ns|
  {
    hide Contents, MoveRead, ReadOut, Tidy, Within, AllFit;
    ContentsLength(s);
    SumBounds(s);
    if ns != [] {
      var ops := Takes(ns);
      assert ops[0] == Take(ns[0]) && ops[1..] == Takes(ns[1..]);
      ReadsPrefix(s, ns[0]);
      MoveReadSize(s, ns[0]);
      var t := Do(s, ops[0]);
      TakesDrain(t, ns[1..]);
      var m := Min(ns[0], s.used);
      assert Contents(s)[..m] + Contents(s)[m..] == Contents(s);
    }
  }

  lemma MoveReadSize(s: State, n: nat)
    requires Indexed(s)
    ensures |MoveRead(s, n).cells| == |s.cells|
  {
  }

  /** One round, from rest to rest, hands out exactly the bytes that came in. */
  lemma RoundReturns(s: State, r: Round)
    requires Resting(s) && Drained(r)
    ensures AllPossible(s, RoundOps(r)) && AllOrderly(s, RoundOps(r))
    ensures Resting(Run(s, RoundOps(r))) && Outs(s, RoundOps(r)) == r.got
  {
    hide Contents, Grow, Fill, Tidy, Within, AllFit, Appends, Used, Room, CanTake, Asked, Total, Segments;
    var op := Recv(r.cnt, r.want, r.got);
    var ops := RoundOps(r);
    assert ops[0] == op && ops[1..] == Takes(r.takes);
    RestingLends(s, r.cnt, r.want);
    RestingContents(s);
    RoundFills(s, r);
    StepQueues(s, op);
    assert Out(s, op) == [] && In(s, op) == r.got;
    assert Contents(Do(s, op)) == [] + Contents(Do(s, op)) == [] + r.got == r.got;
    TakesDrain(Do(s, op), r.takes);
    assert [] + Outs(Do(s, op), Takes(r.takes)) == r.got;
  }

  lemma RoundFills(s: State, r: Round)
    requires Resting(s) && Drained(r)
    ensures var op := Recv(r.cnt, r.want, r.got);
      Possible(s, op) && Orderly(s, op) && |Do(s, op).cells| < MAX_NODES
  {
    hide Grow, Rot, Contents, Appends, Readv, Tidy, Within, Segments, Lend;
    RestingLends(s, r.cnt, r.want);
    var g := Grow(s, Asked(r.cnt, r.want)).state;
    if r.got != [] {
      GrowKeeps(s, Asked(r.cnt, r.want));
      RestingAppends(g, |r.got|);
    }
  }

  /** Any number of rounds, each one fill of any size and then reads of any sizes until
      nothing is left, hand out exactly the bytes that came in, in order. The condition
      under which fills append holds by itself. */
  lemma {:induction false} RoundsReturn(s: State, rs: seq<Round>)
    requires Resting(s) && forall i | 0 <= i < |rs| :: Drained(rs[i])
    ensures AllPossible(s, RoundsOps(rs)) && AllOrderly(s, RoundsOps(rs))
    ensures Resting(Run(s, RoundsOps(rs))) && Outs(s, RoundsOps(rs)) == Received(rs)
    decreases |rs|
  {
    hide Resting, Drained, RoundOps, Run, Outs, AllPossible, AllOrderly;
    if rs == [] {
      NoOps(s);
    } else {
      RestingIndexed(s);
      RoundReturns(s, rs[0]);
      var t := Run(s, RoundOps(rs[0]));
      RoundsReturn(t, rs[1..]);
      RunConcat(s, RoundOps(rs[0]), RoundsOps(rs[1..]));
    }
  }

  lemma NoOps(s: State)
    requires Resting(s)
    ensures AllPossible(s, []) && AllOrderly(s, []) && Run(s, []) == s && Outs(s, []) == []
  {
  }

  lemma RestingIndexed(s: State)
    requires Resting(s)
    ensures Indexed(s)
  {
  }

  // ------------------------------------------------- writes that are not appended

  /** A first 100 bytes. */
  function Hundred(): (p: seq<byte>)
    ensures |p| == 100
  {
    seq(100, _ => 1)
  }

  /** A node that holds them. */
  function Holding(): (c: Cell)
    ensures Fits(c) && c.cursor == 0 && c.used == 100
  {
    Store(Blank(), Hundred())
  }

  lemma GrowFirst(s: State, size: nat)
    requires s == EMPTY && 0 < size <= NODE_SIZE
    ensures Grow(s, size) == Reserved(true, State([Blank()], 0, 0, 0))
  {
    hide Blank;
    assert Expand(s) == State([Blank()], 0, 0, 0);
  }

  lemma WritesFirst()
    ensures Write(EMPTY, Hundred()) == State([Holding()], 0, 0, 100)
  {
    hide Blank, Hundred, Poke;
    var g := State([Blank()], 0, 0, 0);
    GrowFirst(EMPTY, 100);
    assert Hundred()[..100] == Hundred();
    var t := PutOne(g, Hundred(), 100);
    assert t.cells == [Holding()];
    assert Put(t, Hundred(), 0, 1) == t;
  }

  /** One node, 100 bytes written and 50 of them read. */
  function HalfRead(): State { State([Holding().(cursor := 50, used := 50)], 0, 0, 50) }

  lemma HalfReadReached()
    ensures Run(EMPTY, [Send(Hundred()), Take(50)]) == HalfRead()
  {
    hide Write, Hundred, Holding;
    WritesFirst();
    var s := State([Holding()], 0, 0, 100);
    var t := DrainOne(s, 50);
    assert t == HalfRead();
    assert Drain(t, 0, 0) == t;
    assert MoveRead(s, 50) == t;
    var ops := [Send(Hundred()), Take(50)];
    assert ops[1..] == [Take(50)] && [Take(50)][1..] == [];
    assert Run(t, []) == t;
    assert Run(s, [Take(50)]) == t;
  }

  /** Writing ten bytes then, which fit, goes over unread ones. */
  lemma OverwritesUnread()
    ensures Sound(HalfRead()) && Grow(HalfRead(), 10) == Reserved(true, HalfRead())
    ensures exists data :: |data| == 10 && !Appended(HalfRead(), Write(HalfRead(), data), data)
  {
    hide Appended, Write, Rot, FirstRoom;
    var s := HalfRead();
    UsedCons(s.cells[0], []);
    assert s.cells == [s.cells[0]] + [];
    assert Back(s) == s.cells by { RotOne(s.cells); }
    WriteAppendsIff(s, 10);
    assert !Ready(Back(s));
  }

  lemma RotOne<T>(s: seq<T>)
    requires |s| == 1
    ensures Rot(s, 0) == s
  {
  }

  lemma RotFromStart<T>(s: seq<T>)
    requires s != []
    ensures Rot(s, 0) == s
  {
  }

  /** Two nodes, the first partly filled and the write iterator past it. */
  function PartFilled(): State { State([Holding(), Blank()], 0, 1, 100) }

  lemma GrowTwo()
    ensures Grow(EMPTY, 2 * NODE_SIZE) == Reserved(true, State([Blank(), Blank()], 0, 0, 0))
  {
    hide Blank;
    var one := State([Blank()], 0, 0, 0);
    assert Expand(EMPTY) == one;
    EmptyCell();
    assert Expand(one) == State([Blank(), Blank()], 0, 0, 0);
  }

  lemma EmptyCell()
    ensures Blank().used == 0
  {
  }

  lemma FillsFirst()
    ensures Fill(State([Blank(), Blank()], 0, 0, 0), MAX_IOVEC, 100, Hundred()) == PartFilled()
  {
    hide Blank, Hundred, Poke;
    var s, p := State([Blank(), Blank()], 0, 0, 0), Hundred();
    EmptyCell();
    assert Asked(MAX_IOVEC, 100) == 100 && Grow(s, 100) == Reserved(true, s);
    var segs := Lend(s.cells, 0, MAX_IOVEC, 100);
    assert segs == [Seg(0, 0, 100)] + Lend(s.cells, 1, 7, 0) && Lend(s.cells, 1, 7, 0) == [];
    assert p[..100] == p && segs[1..] == [];
    var laid := Readv(s.cells, segs, p);
    assert laid == [Poke(Blank(), 0, p), Blank()] by {
      assert Readv(s.cells[0 := Poke(Blank(), 0, p)], [], p[100..]) == s.cells[0 := Poke(Blank(), 0, p)];
    }
    var t := s.(cells := laid);
    var u := CommitOne(t, 100);
    assert u == PartFilled();
    assert Commit(u, 0, 1) == u;
    assert Commit(t, 100, 2) == u;
  }

  lemma PartFilledReached()
    ensures Run(EMPTY, [Reserve(2 * NODE_SIZE), Recv(MAX_IOVEC, 100, Hundred())]) == PartFilled()
  {
    hide Fill, Hundred, Holding, Blank, Grow;
    GrowTwo();
    FillsFirst();
    var s, op := State([Blank(), Blank()], 0, 0, 0), Recv(MAX_IOVEC, 100, Hundred());
    assert [Reserve(2 * NODE_SIZE), op][1..] == [op] && [op][1..] == [];
    assert Run(PartFilled(), []) == PartFilled();
    assert Run(s, [op]) == PartFilled();
  }

  /** A fill of 5000 bytes then, which the ring has room for, is seen out of order. */
  lemma FillsOutOfOrder()
    ensures Sound(PartFilled()) && Grow(PartFilled(), 5000) == Reserved(true, PartFilled())
    ensures CanTake(PartFilled(), MAX_IOVEC, 5000, 5000)
    ensures exists got :: |got| == 5000 && !Appended(PartFilled(), Fill(PartFilled(), MAX_IOVEC, 5000, got), got)
  {
    hide Appended, Fill, Rot;
    var s := PartFilled();
    UsedCons(s.cells[0], [Blank()]);
    UsedCons(Blank(), []);
    assert s.cells == [s.cells[0]] + [Blank()] && [Blank()] == [Blank()] + [];
    RotFromStart(s.cells);
    assert Back(s) == [Blank()];
    var two := Lend(s.cells, 0, 7, 904);
    assert two == [Seg(0, 100, 904)] + Lend(s.cells, 1, 6, 0);
    assert Lend(s.cells, 1, 8, 5000) == [Seg(1, 0, NODE_SIZE)] + two;
    assert Total(two) == 904 + Total(two[1..]) && Total([Seg(1, 0, NODE_SIZE)] + two) == NODE_SIZE + Total(two) by {
      assert ([Seg(1, 0, NODE_SIZE)] + two)[1..] == two;
    }
    FillAppendsIff(s, MAX_IOVEC, 5000, 5000);
  }

  lemma EmptySound()
    ensures Sound(EMPTY) && Used(EMPTY.cells) == 0
  {
  }

  /** A first write of more than one node's worth repeats its beginning. */
  lemma RepeatsPrefix(n: nat)
    requires NODE_SIZE < n <= WORD - NODE_SIZE
    ensures exists data :: |data| == n && !Appended(EMPTY, Write(EMPTY, data), data)
  {
    hide Appended, Write, Rot, Grow, Contents, Tidy, Within;
    EmptySound();
    ReservesIff(EMPTY, n);
    WriteAppendsIff(EMPTY, n);
    var g := Grow(EMPTY, n).state;
    GrowKeeps(EMPTY, n);
    RestingRing(State(g.cells, g.r, g.w, g.used)) by { GrowBelowCap(EMPTY, n); }
    RotHere(g.cells, g.w);
  }
}
