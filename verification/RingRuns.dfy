/** Whole runs of `chaos::Buffer`: what readers get is what writers put, in order. */
module RingRuns {
  import opened Rotation
  import opened Parts
  import opened Ring
  import opened RingWrite
  import opened RingAppend
  import opened RingQueue

  // ------------------------------------------------- the bytes a reader gets

  /** The bytes one iteration of the copying `ReadBuffer` takes from a node. */
  function Bytes(c: Cell, v: nat): seq<byte> {
    if c.cursor + v <= |c.mem| then c.mem[c.cursor..c.cursor + v] else []
  }

  /** The bytes the copying `ReadBuffer` hands out for a request of `n`. */
  function CopyOut(s: State, n: nat, laps: nat): seq<byte>
    requires Indexed(s) && n <= s.used
    decreases laps
  {
    if n == 0 || laps == 0 || s.cells == [] then [] else
    var v := Min(s.cells[s.r].used, n);
    Bytes(s.cells[s.r], v) + CopyOut(DrainOne(s, v), n - v, laps - 1)
  }

  lemma BytesFirst(s: State, v: nat)
    requires Sound(s) && s.cells != [] && v <= s.cells[s.r].used
    ensures v <= |Contents(s)| && Bytes(s.cells[s.r], v) == Contents(s)[..v]
  {
    hide Flat, Rest, Contents, AllFit, U32, Used;
    var c := s.cells[s.r];
    ContentsOf(s);
    assert c.cursor + c.used <= |c.mem| by { assert Within(s.cells); }
    DataPrefix(c, v);
    assert (Data(c) + Flat(Rest(s.cells, s.r)))[..v] == Data(c)[..v];
  }

  lemma DataPrefix(c: Cell, v: nat)
    requires c.cursor + c.used <= |c.mem| && v <= c.used
    ensures |Data(c)| == c.used && Bytes(c, v) == Data(c)[..v]
  {
    SliceSlice(c.mem, c.cursor, c.cursor + c.used, v);
  }

  lemma SliceSlice<T>(a: seq<T>, i: nat, j: nat, v: nat)
    requires i + v <= j <= |a|
    ensures a[i..j][..v] == a[i..i + v]
  {
    forall k | 0 <= k < v ensures a[i..j][..v][k] == a[i..i + v][k] {
      assert a[i..j][k] == a[i + k];
    }
  }

  /** A copying read hands out the first `n` bytes stored. */
  lemma {:induction false} CopiesPrefix(s: State, n: nat, laps: nat)
    requires Sound(s) && n <= s.used && laps <= |s.cells|
    requires n <= Used(Rot(s.cells, s.r)[..laps])
    ensures n <= |Contents(s)| && CopyOut(s, n, laps) == Contents(s)[..n]
    decreases laps
  {
    hide Rot, Contents, DrainOne, AllFit, Within, U32, Tidy, Used, Bytes;
    if n == 0 || laps == 0 || s.cells == [] {
      DrainNothing(s, n, laps);
    } else {
      var v := Min(s.cells[s.r].used, n);
      DrainOneKeeps(s, v);
      DrainOneTakes(s, v);
      BytesFirst(s, v);
      if v < n {
        LapShrinks(s, laps);
        CopiesPrefix(DrainOne(s, v), n - v, laps - 1);
        TakeTwice(Contents(s), v, n);
      } else {
        assert Contents(s)[..v] + [] == Contents(s)[..v];
      }
    }
  }

  lemma TakeTwice<T>(a: seq<T>, m: nat, n: nat)
    requires m <= n <= |a|
    ensures a[..m] + a[m..][..n - m] == a[..n]
  {
  }

  /** A whole copying read. */
  function ReadOut(s: State, n: nat): seq<byte>
    requires Indexed(s)
  {
    CopyOut(s, Min(n, s.used), |s.cells|)
  }

  lemma ReadsPrefix(s: State, n: nat)
    requires Sound(s)
    ensures var m := Min(n, s.used);
      && m <= |Contents(s)| && ReadOut(s, n) == Contents(s)[..m]
      && Sound(MoveRead(s, n)) && Contents(MoveRead(s, n)) == Contents(s)[m..]
  {
    hide Rot, Contents, Drain, CopyOut, AllFit, Within, U32, Tidy;
    SumBounds(s);
    if s.cells != [] {
      RotSums(s.cells, s.r);
      assert Rot(s.cells, s.r)[..|s.cells|] == Rot(s.cells, s.r);
    }
    CopiesPrefix(s, Min(n, s.used), |s.cells|);
    MoveReadTakes(s, n);
  }

  // ------------------------------------------------- peeking

  /** The segments that `ReadBuffer(iov, cnt, size)` fills in. */
  function Peek(cells: seq<Cell>, i: nat, cnt: nat, size: nat): seq<Seg>
    requires cells == [] || i < |cells|
    decreases cnt
  {
    if cnt == 0 || size == 0 || cells == [] then [] else
    var len := Min(cells[i].used, size);
    [Seg(i, cells[i].cursor, len)] + Peek(cells, Next(i, |cells|), cnt - 1, size - len)
  }

  /** The bytes the segments point at. */
  function Gather(cells: seq<Cell>, segs: seq<Seg>): seq<byte>
    requires OnList(cells, segs)
  {
    if segs == [] then [] else
    Bytes(Cell(cells[segs[0].cell].mem, segs[0].off, 0), segs[0].len) + Gather(cells, segs[1..])
  }

  lemma {:induction false} PeekOnList(cells: seq<Cell>, i: nat, cnt: nat, size: nat)
    requires cells == [] || i < |cells|
    ensures OnList(cells, Peek(cells, i, cnt, size))
    decreases cnt
  {
    if cnt != 0 && size != 0 && cells != [] {
      PeekOnList(cells, Next(i, |cells|), cnt - 1, size - Min(cells[i].used, size));
    }
  }

  /** Segments of a peek, one per node in ring order, hold the front of what is stored: all
      of the request when there are enough of them, and never a node twice. */
  lemma {:induction false} PeekGathers(cells: seq<Cell>, i: nat, cnt: nat, size: nat, laps: nat)
    requires Within(cells) && i < |cells| && laps <= |cells|
    requires size <= Used(Rot(cells, i)[..laps])
    ensures var segs := Peek(cells, i, cnt, size); var flat := Flat(Rot(cells, i)[..laps]);
      && OnList(cells, segs)
      && |segs| <= laps && Total(segs) <= size && (laps <= cnt ==> Total(segs) == size)
      && Total(segs) <= |flat| && Gather(cells, segs) == flat[..Total(segs)]
      && (forall j | 0 <= j < |segs| :: segs[j].cell == Ahead(i, j, |cells|))
    decreases cnt
  {
    hide Rot, Rest, Flat, Bytes;
    PeekOnList(cells, i, cnt, size);
    if laps == 0 {
      assert Rot(cells, i)[..laps] == [];
      assert size == 0;
    } else if cnt != 0 && size != 0 {
      var c, next := cells[i], Next(i, |cells|);
      var len := Min(c.used, size);
      LapPrefix(cells, i, c, laps);
      assert cells[i := c] == cells;
      UsedCons(c, Rest(cells, i)[..laps - 1]);
      FlatCons(c, Rest(cells, i)[..laps - 1]);
      PeekGathers(cells, next, cnt - 1, size - len, laps - 1);
      var rest := Peek(cells, next, cnt - 1, size - len);
      PeekFirst(cells, i, len, rest);
      PeekBytes(c, len, Flat(Rest(cells, i)[..laps - 1]), Total(rest));
      PeekPlaces(cells, i, rest, len);
      assert len < c.used ==> rest == [];
    }
  }

  lemma PeekFirst(cells: seq<Cell>, i: nat, len: nat, rest: seq<Seg>)
    requires i < |cells| && OnList(cells, rest)
    ensures var segs := [Seg(i, cells[i].cursor, len)] + rest;
      && OnList(cells, segs) && Total(segs) == len + Total(rest)
      && Gather(cells, segs) == Bytes(cells[i], len) + Gather(cells, rest)
  {
    assert ([Seg(i, cells[i].cursor, len)] + rest)[1..] == rest;
  }

  lemma PeekPlaces(cells: seq<Cell>, i: nat, rest: seq<Seg>, len: nat)
    requires i < |cells| && |rest| < |cells|
    requires forall j | 0 <= j < |rest| :: rest[j].cell == Ahead(Next(i, |cells|), j, |cells|)
    ensures var segs := [Seg(i, cells[i].cursor, len)] + rest;
      forall j | 0 <= j < |segs| :: segs[j].cell == Ahead(i, j, |cells|)
  {
  }

  lemma PeekBytes(c: Cell, len: nat, flat: seq<byte>, more: nat)
    requires c.cursor + c.used <= |c.mem| && len <= c.used && more <= |flat|
    requires len < c.used ==> more == 0
    ensures |Data(c)| == c.used
    ensures Bytes(c, len) + flat[..more] == (Data(c) + flat)[..len + more]
  {
    if len < c.used {
      assert flat[..0] == [];
      assert c.mem[c.cursor..c.cursor + c.used][..len] == c.mem[c.cursor..c.cursor + len];
      assert (Data(c) + flat)[..len] == Data(c)[..len] == Bytes(c, len);
      assert Bytes(c, len) + [] == Bytes(c, len);
    } else {
      assert Bytes(c, len) == Data(c);
    }
  }

  /** Peeking and then committing is reading: the segments hold what the copying read would
      hand out, and what remains after `MoveReadPos` of their size is the rest. */
  lemma PeekThenMove(s: State, cnt: nat, size: nat)
    requires Sound(s)
    ensures var segs := Peek(s.cells, s.r, cnt, Min(size, s.used));
      && OnList(s.cells, segs) && Total(segs) <= s.used
      && Gather(s.cells, segs) == ReadOut(s, Total(segs))
      && (|s.cells| <= cnt ==> Total(segs) == Min(size, s.used))
      && Sound(MoveRead(s, Total(segs)))
      && Gather(s.cells, segs) + Contents(MoveRead(s, Total(segs))) == Contents(s)
  {
    hide Rot, CopyOut, Peek, Gather, MoveRead;
    PeekOnList(s.cells, s.r, cnt, Min(size, s.used));
    SumBounds(s);
    ReadsPrefix(s, Total(Peek(s.cells, s.r, cnt, Min(size, s.used))));
    if s.cells == [] {
      PeekNone(cnt, Min(size, s.used), s.r);
    } else {
      RotSums(s.cells, s.r);
      assert Rot(s.cells, s.r)[..|s.cells|] == Rot(s.cells, s.r);
      PeekGathers(s.cells, s.r, cnt, Min(size, s.used), |s.cells|);
      assert Head(s.cells[s.r]) == [];
    }
  }

  lemma PeekNone(cnt: nat, size: nat, i: nat)
    ensures Peek([], i, cnt, size) == [] && Total([]) == 0 && Gather([], []) == []
  {
  }

  // ------------------------------------------------- runs

  datatype Op =
    | Recv(cnt: nat, want: nat, got: seq<byte>)
    | Send(data: seq<byte>)
    | Take(n: nat)
    | Reserve(size: nat)

  function Do(s: State, op: Op): (t: State)
    requires Indexed(s)
    ensures Indexed(t)
  {
    match op
    case Recv(cnt, want, got) => Fill(s, cnt, want, got)
    case Send(data) => Write(s, data)
    case Take(n) => MoveRead(s, n)
    case Reserve(size) => Grow(s, size).state
  }

  /** Bytes an operation takes in, and bytes it hands out. */
  function In(s: State, op: Op): seq<byte>
    requires Indexed(s)
  {
    match op
    case Recv(_, _, got) => got
    case Send(data) => if Grow(s, |data|).ok then data else []
    case Take(_) => []
    case Reserve(_) => []
  }

  function Out(s: State, op: Op): seq<byte>
    requires Indexed(s)
  {
    if op.Take? then ReadOut(s, op.n) else []
  }

  /** The kernel fills no more than it was lent. */
  predicate Possible(s: State, op: Op)
    requires Indexed(s)
  {
    op.Recv? ==> CanTake(s, op.cnt, op.want, |op.got|)
  }

  /** Each write meets the condition under which it appends. */
  predicate Orderly(s: State, op: Op)
    requires Indexed(s)
  {
    match op
    case Recv(cnt, want, got) =>
      var g := Grow(s, Asked(cnt, want)).state;
      got == [] || (g.cells != [] && Appends(g, |got|))
    case Send(data) =>
      var g := Grow(s, |data|);
      data == [] || !g.ok || (g.state.cells != [] && Appends(g.state, |data|)
                              && |data| <= FirstRoom(Rot(g.state.cells, g.state.w)))
    case Take(_) => true
    case Reserve(_) => true
  }

  function Run(s: State, ops: seq<Op>): (t: State)
    requires Indexed(s)
    ensures Indexed(t)
    decreases |ops|
  {
    if ops == [] then s else Run(Do(s, ops[0]), ops[1..])
  }

  function Ins(s: State, ops: seq<Op>): seq<byte>
    requires Indexed(s)
    decreases |ops|
  {
    if ops == [] then [] else In(s, ops[0]) + Ins(Do(s, ops[0]), ops[1..])
  }

  function Outs(s: State, ops: seq<Op>): seq<byte>
    requires Indexed(s)
    decreases |ops|
  {
    if ops == [] then [] else Out(s, ops[0]) + Outs(Do(s, ops[0]), ops[1..])
  }

  predicate AllPossible(s: State, ops: seq<Op>)
    requires Indexed(s)
    decreases |ops|
  {
    ops == [] || (Possible(s, ops[0]) && AllPossible(Do(s, ops[0]), ops[1..]))
  }

  predicate AllOrderly(s: State, ops: seq<Op>)
    requires Indexed(s)
    decreases |ops|
  {
    ops == [] || (Orderly(s, ops[0]) && AllOrderly(Do(s, ops[0]), ops[1..]))
  }

  /** A fill that takes in nothing only grows the ring. */
  lemma FillNothing(s: State, cnt: nat, want: nat)
    requires Accounted(s)
    ensures Fill(s, cnt, want, []) == Grow(s, Asked(cnt, want)).state
  {
    ReadvNothing(Grow(s, Asked(cnt, want)).state.cells, Segments(s, cnt, want));
  }

  lemma {:induction false} ReadvNothing(cells: seq<Cell>, segs: seq<Seg>)
    requires OnList(cells, segs)
    ensures Readv(cells, segs, []) == cells
    decreases |segs|
  {
    if segs != [] {
      var c := cells[segs[0].cell];
      if segs[0].off <= |c.mem| {
        assert c.mem[..segs[0].off] + [] + c.mem[segs[0].off..] == c.mem;
      }
      assert cells[segs[0].cell := c] == cells;
      ReadvNothing(cells, segs[1..]);
    }
  }

  /** One orderly operation is one operation of a byte queue. */
  lemma StepQueues(s: State, op: Op)
    requires Sound(s) && Possible(s, op) && Orderly(s, op)
    ensures Sound(Do(s, op))
    ensures Out(s, op) + Contents(Do(s, op)) == Contents(s) + In(s, op)
  {
    hide Rot, Contents, Grow, Fill, Write, MoveRead, ReadOut, Tidy, Within, U32, AllFit, Used, Appends, FirstRoom, Stutter, CanTake, Asked;
    match op {
      case Recv(cnt, want, got) =>
        if got == [] {
          FillNothing(s, cnt, want);
          GrowKeeps(s, Asked(cnt, want));
        } else {
          var g := Grow(s, Asked(cnt, want)).state;
          FillReady(s, cnt, want, |got|);
          assert s.used + |got| < WORD by { AppendsBound(g, |got|); }
          FillLands(s, cnt, want, got);
          AppendsInOrder(g, Fill(s, cnt, want, got), got);
        }
      case Send(data) =>
        SendQueues(s, data);
      case Take(n) =>
        ReadsPrefix(s, n);
        assert Contents(s)[..Min(n, s.used)] + Contents(s)[Min(n, s.used)..] == Contents(s);
      case Reserve(size) =>
        GrowKeeps(s, size);
    }
  }

  lemma AppendsBound(s: State, n: nat)
    requires Indexed(s) && s.cells != [] && Appends(s, n)
    ensures s.used + n < WORD
  {
  }

  lemma SendQueues(s: State, data: seq<byte>)
    requires Sound(s) && Orderly(s, Send(data))
    ensures Sound(Write(s, data))
    ensures Contents(Write(s, data)) == Contents(s) + In(s, Send(data))
  {
    hide Rot, Contents, Grow, Tidy, Within, U32, AllFit, Used, Appends, FirstRoom, Stutter, Write;
    var g := Grow(s, |data|);
    GrowKeeps(s, |data|);
    if data == [] || !g.ok {
      WriteNothing(s, data);
    } else {
      WriteLands(s, data);
      OneChunk(Rot(g.state.cells, g.state.w), data);
      AppendsInOrder(g.state, Write(s, data), data);
    }
  }

  lemma WriteNothing(s: State, data: seq<byte>)
    requires Accounted(s) && (data == [] || !Grow(s, |data|).ok)
    ensures Write(s, data) == Grow(s, |data|).state
  {
    GrowKeeps(s, |data|);
  }

  /** Every orderly run is a byte queue: what was handed out, followed by what is stored,
      is what was stored at the start followed by what was taken in. */
  lemma {:induction false} RunQueues(s: State, ops: seq<Op>)
    requires Sound(s) && AllPossible(s, ops) && AllOrderly(s, ops)
    ensures Sound(Run(s, ops))
    ensures Outs(s, ops) + Contents(Run(s, ops)) == Contents(s) + Ins(s, ops)
    decreases |ops|
  {
    hide Contents, Do, In, Out, Possible, Orderly, Tidy, Within, AllFit, U32, Used;
    if ops != [] {
      var t := Do(s, ops[0]);
      StepQueues(s, ops[0]);
      RunQueues(t, ops[1..]);
      Chain(Out(s, ops[0]), Outs(t, ops[1..]), Contents(Run(t, ops[1..])), Contents(t), Ins(t, ops[1..]),
            Contents(s), In(s, ops[0]));
    }
  }

  lemma Chain<T>(o: seq<T>, os: seq<T>, end: seq<T>, mid: seq<T>, ins: seq<T>, start: seq<T>, i: seq<T>)
    requires o + mid == start + i && os + end == mid + ins
    ensures (o + os) + end == start + (i + ins)
  {
    Associate(o, os, end);
    Associate(o, mid, ins);
    Associate(start, i, ins);
  }
}
