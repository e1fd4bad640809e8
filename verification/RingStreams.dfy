/** Runs of copying writes and reads: the one thing to look at before a write is the node that it
    goes to. */
module RingStreams {
  import opened Rotation
  import opened Parts
  import opened Ring
  import opened RingWrite
  import opened RingAppend
  import opened RingQueue
  import opened RingRuns
  import opened RingArcs
  import opened RingTrail

  /** Nothing lies behind the write node. */
  predicate Trailing(s: State)
    requires Indexed(s)
  {
    s.cells != [] ==> AllEmpty(Back(s)[1..])
  }

  /** The write node is full, or nothing of it has been read. */
  predicate Clear(s: State)
    requires Indexed(s)
  {
    s.cells != [] ==> Tail(s.cells[s.w]) == 0 || s.cells[s.w].cursor == 0
  }

  lemma BackHere(s: State)
    requires Indexed(s) && s.cells != []
    ensures Back(s)[0] == s.cells[s.w] && Back(s) == [s.cells[s.w]] + Back(s)[1..]
    ensures s.r == s.w ==> Front(s) == [] && Back(s)[1..] == Rest(s.cells, s.w)
  {
    hide Rot, Rest;
    Arcs(s);
    RotHere(s.cells, s.w);
    assert ([s.cells[s.w]] + Rest(s.cells, s.w))[0] == (Back(s) + Front(s))[0];
    if s.r == s.w {
      assert Front(s) == [] && Back(s) + [] == Back(s);
    }
  }

  lemma OpenIs(s: State)
    requires Indexed(s) && s.cells != []
    ensures Open(Back(s)) <==> Trailing(s) && Clear(s)
  {
    hide Back;
    BackHere(s);
  }

  // ------------------------------------------------- growing and reading

  /** Making room keeps it so that nothing lies behind the write node. */
  lemma GrowTrailing(s: State, size: nat)
    requires Sound(s) && Trailing(s)
    ensures Trailing(Grow(s, size).state)
  {
    hide Rot, Rest, Front, Back, Grow, Unwrapped, MovedOut, Blank, Tail, AllFit, U32;
    var g := Grow(s, size).state;
    GrowArcs(s, size);
    var k := |g.cells| - |s.cells|;
    if k > 0 {
      BlanksEmpty(k);
      if s.cells == [] {
        assert Blanks(k)[1..] == Blanks(k - 1);
        BlanksEmpty(k - 1);
      } else if Splits(s) {
        assert Back(g)[1..] == Blanks(k - 1);
        BlanksEmpty(k - 1);
      } else {
        assert Back(g)[1..] == Blanks(k) + Back(s)[1..];
        AllEmptyConcat(Blanks(k), Back(s)[1..]);
      }
    }
  }

  /** The arcs when the read node has given up bytes: it loses them, or it is left behind, empty,
      and if that was the last node of its arc the whole ring lies behind the write node. */
  lemma DrainOneArcs(s: State, v: nat)
    requires Sound(s) && s.cells != [] && v <= s.used && v <= s.cells[s.r].used
    ensures var t := DrainOne(s, v); var c, c' := s.cells[s.r], t.cells[s.r];
      && (v < c.used && s.r != s.w ==> Back(t) == Back(s))
      && (v < c.used && s.r == s.w ==> Back(t) == [c'] + Back(s)[1..])
      && (v == c.used && v < s.used && s.r != s.w ==> c'.used == 0 && (Back(t) == Back(s) || Back(t) == Back(s) + [c']))
  {
    hide AllFit, U32, Tidy, Within, Rot, Rest;
    var t := DrainOne(s, v);
    var n := |s.cells|;
    if v < s.cells[s.r].used {
      RestSame(s.cells, s.r, t.cells[s.r]);
      RotHere(s.cells, s.r);
      RotHere(t.cells, t.r);
    } else if v < s.used && s.r != s.w {
      RotHere(s.cells, s.r);
      RotSet(s.cells, s.r, t.cells[s.r]);
      StepsNext(s.r, s.w, n);
    }
  }

  lemma StepsNext(r: nat, w: nat, n: nat)
    requires r < n && w < n && r != w
    ensures Steps(Next(r, n), w, n) + 1 == Steps(r, w, n)
  {
  }

  lemma DrainOneTrailing(s: State, v: nat)
    requires Sound(s) && s.cells != [] && 0 < s.used && v <= s.used && v <= s.cells[s.r].used && Trailing(s)
    ensures Trailing(DrainOne(s, v))
  {
    hide AllFit, U32, Tidy, Within, Rot, Rest, Front, Back;
    var t := DrainOne(s, v);
    DrainOneArcs(s, v);
    if v == s.used {
      DrainedTrailing(s, v);
    } else if v == s.cells[s.r].used && s.r == s.w {
      OneHolds(s);
      SumBounds(s);
    } else {
      AllEmptyConcat(Back(s)[1..], [t.cells[s.r]]);
      assert ([t.cells[s.r]] + Back(s)[1..])[1..] == Back(s)[1..];
      BackHere(s);
      assert (Back(s) + [t.cells[s.r]])[1..] == Back(s)[1..] + [t.cells[s.r]];
    }
  }

  /** With the read node written, and nothing behind it, that node holds all there is. */
  lemma OneHolds(s: State)
    requires Indexed(s) && s.cells != [] && s.r == s.w && Trailing(s)
    ensures Used(s.cells) == s.cells[s.w].used
  {
    hide Rot, Rest, Back;
    BackHere(s);
    RotHere(s.cells, s.w);
    RotSums(s.cells, s.w);
    UsedCons(s.cells[s.w], Rest(s.cells, s.w));
    EmptyIffUnused(Rest(s.cells, s.w));
  }

  lemma DrainedTrailing(s: State, v: nat)
    requires Accounted(s) && s.cells != [] && 0 < s.used == v <= s.cells[s.r].used
    ensures Trailing(DrainOne(s, v))
  {
    hide AllFit, U32, Rot;
    var t := DrainOne(s, v);
    DrainOneKeeps(s, v);
    SumBounds(s);
    EmptyIffUnused(t.cells);
    EmptyRot(t.cells, t.r);
    assert forall i | 0 <= i < |Back(t)[1..]| :: Back(t)[1..][i] == Rot(t.cells, t.r)[i + 1 + Steps(t.r, t.w, |t.cells|)];
  }

  lemma EmptyRot(cs: seq<Cell>, i: nat)
    requires i < |cs| && AllEmpty(cs)
    ensures AllEmpty(Rot(cs, i))
  {
  }

  lemma {:induction false} DrainTrailing(s: State, n: nat, laps: nat)
    requires Sound(s) && n <= s.used && Trailing(s)
    ensures Trailing(Drain(s, n, laps))
    decreases laps
  {
    hide Rot, Back, Contents, DrainOne, AllFit, Within, U32, Tidy, Used, Trailing;
    if n != 0 && laps != 0 && s.cells != [] {
      var v := Min(s.cells[s.r].used, n);
      DrainOneKeeps(s, v);
      DrainOneTakes(s, v);
      DrainOneTrailing(s, v);
      DrainTrailing(DrainOne(s, v), n - v, laps - 1);
    }
  }

  // ------------------------------------------------- runs

  /** `WriteBuffer` is given what fits the node it goes to, and that node is clear; or it refuses. */
  predicate Chunk(s: State, n: nat)
    requires Indexed(s)
  {
    var g := Grow(s, n);
    n == 0 || !g.ok || (g.state.cells != [] && Clear(g.state) && n <= FirstRoom(Back(g.state)) && s.used + n < WORD)
  }

  lemma {:induction false} FirstRoomFits(b: seq<Cell>)
    ensures FirstRoom(b) <= Room(b) && (FirstRoom(b) == 0 <==> Room(b) == 0)
  {
    if b != [] { FirstRoomFits(b[1..]); }
  }

  lemma {:induction false} FirstRoomConcat(a: seq<Cell>, b: seq<Cell>)
    ensures FirstRoom(a + b) == if 0 < Room(a) then FirstRoom(a) else FirstRoom(b)
  {
    if a == [] {
      assert a + b == b;
    } else {
      assert (a + b)[0] == a[0] && (a + b)[1..] == a[1..] + b;
      FirstRoomConcat(a[1..], b);
    }
  }

  lemma ReadyIsClear(s: State)
    requires Sound(s) && s.cells != [] && Trailing(s)
    ensures Ready(Back(s)) <==> Clear(s)
  {
    hide Rot, Back, Rest;
    BackHere(s);
    OpenIs(s);
    ContentsArcs(s);
    if Clear(s) { OpenReady(Back(s)); }
  }

  /** With nothing behind the write node a write is appended if and only if it is such a chunk. */
  lemma OrderlyIff(s: State, data: seq<byte>)
    requires Sound(s) && Trailing(s)
    ensures Orderly(s, Send(data)) <==> Chunk(s, |data|)
  {
    hide Rot, Grow, Back, Front, Trailing, Clear, Ready, AllFit, U32, Tidy, Within;
    var n := |data|;
    var g := Grow(s, n);
    if 0 < n && g.ok {
      GrowKeeps(s, n);
      GrowTrailing(s, n);
      ReadyIsClear(g.state);
      Arcs(g.state);
      FirstRoomConcat(Back(g.state), Front(g.state));
      FirstRoomFits(Back(g.state));
    }
  }

  predicate AllChunks(s: State, ops: seq<Op>)
    requires Indexed(s)
    decreases |ops|
  {
    ops == [] || ((ops[0].Send? ==> Chunk(s, |ops[0].data|)) && AllChunks(Do(s, ops[0]), ops[1..]))
  }

  predicate NoFills(ops: seq<Op>) { forall k | 0 <= k < |ops| :: !ops[k].Recv? }

  /** Writes, reads and reservations keep it so that nothing lies behind the write node. */
  lemma StepTrailing(s: State, op: Op)
    requires Sound(s) && Trailing(s) && Orderly(s, op) && !op.Recv?
    ensures Trailing(Do(s, op))
  {
    hide Rot, Grow, Back, Trailing, Contents, Tidy, Within, U32, AllFit, Used, Room, Appends, FirstRoom, Drain, Open;
    match op {
      case Send(data) =>
        if data == [] || !Grow(s, |data|).ok {
          WriteNothing(s, data);
          GrowTrailing(s, |data|);
        } else {
          WriteTrails(s, data);
          OpenIs(Write(s, data));
        }
      case Take(n) => DrainTrailing(s, Min(n, s.used), |s.cells|);
      case Reserve(size) => GrowTrailing(s, size);
    }
  }

  /** A run of writes, reads and reservations that starts with nothing behind the write node, as the
      empty buffer does, is a byte queue by `RunQueues` if and only if each write fits the node
      that it goes to and nothing of that node has been read, or it is full. */
  lemma {:induction false} StreamOrderlyIff(s: State, ops: seq<Op>)
    requires Sound(s) && Trailing(s) && NoFills(ops)
    ensures AllOrderly(s, ops) <==> AllChunks(s, ops)
    ensures AllOrderly(s, ops) ==> Sound(Run(s, ops)) && Trailing(Run(s, ops))
    decreases |ops|
  {
    hide Accounted, Tidy, InBounds, Trailing, Orderly, Chunk, Do, Contents, In, Out;
    SoundIndexed(s);
    if ops != [] {
      assert !ops[0].Recv? && forall k | 0 <= k < |ops[1..]| :: ops[1..][k] == ops[k + 1];
      OrderlyHere(s, ops[0]);
      if Orderly(s, ops[0]) {
        StepQueues(s, ops[0]);
        StepTrailing(s, ops[0]);
        StreamOrderlyIff(Do(s, ops[0]), ops[1..]);
      }
    }
  }

  lemma SoundIndexed(s: State)
    requires Sound(s)
    ensures Indexed(s)
  {
  }

  lemma OrderlyHere(s: State, op: Op)
    requires Sound(s) && Trailing(s) && !op.Recv?
    ensures Possible(s, op) && (Orderly(s, op) <==> (op.Send? ==> Chunk(s, |op.data|)))
  {
    hide Chunk, Grow, Trailing, Appends, FirstRoom;
    if op.Send? { OrderlyIff(s, op.data); }
  }

  // ------------------------------------------------- a list of writes

  function Sends(datas: seq<seq<byte>>): (ops: seq<Op>) {
    if datas == [] then [] else [Send(datas[0])] + Sends(datas[1..])
  }

  function Amount(datas: seq<seq<byte>>): nat {
    if datas == [] then 0 else |datas[0]| + Amount(datas[1..])
  }

  /** Each write fits the first node with room. */
  predicate AllFirst(s: State, datas: seq<seq<byte>>)
    requires Indexed(s)
    decreases |datas|
  {
    datas == [] || (
      && (s.cells != [] ==> |datas[0]| <= FirstRoom(Rot(s.cells, s.w)))
      && AllFirst(Write(s, datas[0]), datas[1..]))
  }

  lemma NoGrowth(s: State, n: nat)
    requires Accounted(s) && n <= Room(s.cells)
    ensures Grow(s, n).state == s
  {
    SumBounds(s);
  }

  /** Any list of writes that a ready arc has room for, each within the first node with room, is
      appended: each write leaves the ring ready for the next. */
  lemma {:induction false} WritesTogether(s: State, datas: seq<seq<byte>>)
    requires Sound(s) && s.cells != [] && Ready(Back(s)) && Amount(datas) <= Room(Back(s)) && s.used + Amount(datas) < WORD
    requires AllFirst(s, datas)
    ensures AllOrderly(s, Sends(datas))
    decreases |datas|
  {
    hide Rot, Grow, Back, Ready, Contents, Tidy, Within, U32, AllFit, Used, Room, FirstRoom, Write, Open;
    if datas != [] {
      var data := datas[0];
      assert Sends(datas)[0] == Send(data) && Sends(datas)[1..] == Sends(datas[1..]);
      BackRoom(s);
      NoGrowth(s, |data|);
      if data == [] || !Grow(s, |data|).ok {
        WriteNothing(s, data);
      } else {
        WriteTrails(s, data);
      }
      WritesTogether(Write(s, data), datas[1..]);
    }
  }

  lemma BackRoom(s: State)
    requires Sound(s) && s.cells != []
    ensures Room(Back(s)) <= Room(s.cells)
  {
    ContentsArcs(s);
  }

  // ------------------------------------------------- what a peek covers

  /** A peek covers in turn all that the nodes it reaches hold, up to the request. */
  lemma {:induction false} PeeksUsed(cells: seq<Cell>, i: nat, cnt: nat, size: nat, laps: nat)
    requires i < |cells| && laps <= |cells| && size <= Used(Rot(cells, i)[..laps])
    ensures Total(Peek(cells, i, cnt, size)) == Min(size, Used(Rot(cells, i)[..Min(cnt, laps)]))
    decreases cnt
  {
    hide Rot, Rest;
    if laps == 0 || cnt == 0 || size == 0 {
      assert Rot(cells, i)[..0] == [];
    } else {
      var next, len := Next(i, |cells|), Min(cells[i].used, size);
      assert cells[i := cells[i]] == cells;
      LapPrefix(cells, i, cells[i], laps);
      LapPrefix(cells, i, cells[i], Min(cnt, laps));
      UsedCons(cells[i], Rest(cells, i)[..laps - 1]);
      UsedCons(cells[i], Rest(cells, i)[..Min(cnt, laps) - 1]);
      PeeksUsed(cells, next, cnt - 1, size - len, laps - 1);
      var rest := Peek(cells, next, cnt - 1, size - len);
      assert ([Seg(i, cells[i].cursor, len)] + rest)[1..] == rest;
    }
  }
}
