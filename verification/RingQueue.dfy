/** `chaos::Buffer` as a byte queue: growth, capacity, and whole runs of operations. */
module RingQueue {
  import opened Rotation
  import opened Parts
  import opened Ring
  import opened RingWrite
  import opened RingAppend

  // ------------------------------------------------- growing the ring

  function Insert<T>(cs: seq<T>, i: nat, x: T): (ds: seq<T>)
    requires i <= |cs|
    ensures |ds| == |cs| + 1
  {
    cs[..i] + [x] + cs[i..]
  }

  /** How much of a node's data lies before the end of its memory, in uint32. */
  function Kept(c: Cell): nat { U32(|c.mem| - c.cursor) }

  /** Whether the node's data is taken to have wrapped to the start of its memory. */
  predicate Wrapped(c: Cell) { Kept(c) < c.used }

  /** What an expansion leaves in a wrapped node, and the node it moves the rest to. */
  function Unwrapped(c: Cell): Cell { if Wrapped(c) then Cell(c.mem, c.cursor, Kept(c)) else c }

  function MovedOut(c: Cell): Cell {
    if Wrapped(c) then Store(Blank(), c.mem[..Min(c.used - Kept(c), |c.mem|)]) else Blank()
  }

  /** `Expand` below the cap: where the new node goes, and the two iterators after it.
      A read node that is also the write node and holds data gets the new node before it,
      and bytes wrapped to its start move there. */
  function Expand(s: State): (t: State)
    requires Indexed(s)
    ensures Indexed(t) && |t.cells| == |s.cells| + 1 && t.used == s.used
  {
    if s.cells == [] then State([Blank()], 0, 0, s.used)
    else if s.w == s.r && s.cells[s.w].used > 0 then
      State(Insert(s.cells[s.w := Unwrapped(s.cells[s.w])], s.w, MovedOut(s.cells[s.w])), s.r + 1, s.w, s.used)
    else
      State(Insert(s.cells, s.w + 1, Blank()), if s.w < s.r then s.r + 1 else s.r, s.w, s.used)
  }

  predicate AtCap(s: State) { NODE_SIZE * |s.cells| >= WORD - 1 }

  datatype Reserved = Reserved(ok: bool, state: State)

  /** The loop that makes room for `size` bytes. */
  function Grow(s: State, size: nat): (g: Reserved)
    requires Indexed(s)
    ensures Indexed(g.state) && g.state.used == s.used
    ensures g.ok ==> LeftSize(g.state) >= size
    decreases MAX_NODES - |s.cells|
  {
    if LeftSize(s) >= size then Reserved(true, s)
    else if AtCap(s) then Reserved(false, s)
    else Grow(Expand(s), size)
  }

  /** Inserting a node, seen from the ring's first node. */
  lemma RotInsertAt<T>(cs: seq<T>, i: nat, x: T)
    requires i < |cs|
    ensures Rot(Insert(cs, i, x), i + 1) == [cs[i]] + Rest(cs, i) + [x]
  {
  }

  lemma RotInsertAfter<T>(cs: seq<T>, r: nat, w: nat, x: T)
    requires r < |cs| && w < |cs|
    ensures var k := Steps(r, w, |cs|) + 1;
      Rot(Insert(cs, w + 1, x), if w < r then r + 1 else r) == Rot(cs, r)[..k] + [x] + Rot(cs, r)[k..]
  {
  }

  lemma InsertSums(cs: seq<Cell>, i: nat, c: Cell)
    requires i <= |cs|
    ensures Used(Insert(cs, i, c)) == Used(cs) + c.used
  {
    SumConcat(cs[..i] + [c], cs[i..]);
    SumConcat(cs[..i], [c]);
    SumConcat(cs[..i], cs[i..]);
    UsedCons(c, []);
    assert cs == cs[..i] + cs[i..];
    assert [c] + [] == [c];
  }

  lemma InsertFit(cs: seq<Cell>, i: nat, c: Cell)
    requires i <= |cs| && AllFit(cs) && Fits(c)
    ensures AllFit(Insert(cs, i, c))
  {
  }

  lemma UnwrapsFit(c: Cell)
    requires Fits(c)
    ensures Fits(Unwrapped(c)) && Fits(MovedOut(c)) && MovedOut(c).cursor == 0
    ensures Unwrapped(c).used + MovedOut(c).used == c.used
    ensures c.cursor + c.used <= |c.mem| ==> Unwrapped(c) == c && MovedOut(c) == Blank()
  {
  }

  /** The bytes that an expansion moves out of a node are the wrapped ones. */
  lemma Unwraps(c: Cell)
    requires Fits(c) && c.cursor <= |c.mem|
    ensures Data(Unwrapped(c)) == Data(c) && Data(MovedOut(c)) == Head(c) && Head(Unwrapped(c)) == []
  {
    DataEmpty(Blank());
    if Wrapped(c) {
      var moved := c.mem[..c.used - Kept(c)];
      DataStore(Blank(), moved);
      assert [] + moved == moved;
    }
  }

  lemma ExpandCounts(s: State)
    requires Accounted(s) && |s.cells| < MAX_NODES
    ensures Accounted(Expand(s)) && Used(Expand(s).cells) == Used(s.cells)
  {
    hide Unwrapped, MovedOut, Insert;
    var t := Expand(s);
    if s.cells == [] {
      UsedCons(Blank(), []);
      assert [Blank()] + [] == [Blank()];
    } else if s.w == s.r && s.cells[s.w].used > 0 {
      var c := s.cells[s.w];
      UnwrapsFit(c);
      UsedSet(s.cells, s.w, Unwrapped(c));
      InsertSums(s.cells[s.w := Unwrapped(c)], s.w, MovedOut(c));
      InsertFit(s.cells[s.w := Unwrapped(c)], s.w, MovedOut(c));
    } else {
      InsertSums(s.cells, s.w + 1, Blank());
      InsertFit(s.cells, s.w + 1, Blank());
    }
  }

  /** The list after an expansion, seen from the read node. */
  lemma ExpandRing(s: State)
    requires Indexed(s) && s.cells != []
    ensures var t := Expand(s);
      if s.w == s.r && s.cells[s.w].used > 0 then
        && Rot(t.cells, t.r) == [Unwrapped(s.cells[s.r])] + Rest(s.cells, s.r) + [MovedOut(s.cells[s.r])]
        && t.cells[t.r] == Unwrapped(s.cells[s.r])
      else
        exists k | 0 <= k <= |s.cells| ::
          && Rot(t.cells, t.r) == Rot(s.cells, s.r)[..k] + [Blank()] + Rot(s.cells, s.r)[k..]
          && t.cells[t.r] == s.cells[s.r]
  {
    hide Rot, Rest, Unwrapped, MovedOut;
    if s.w == s.r && s.cells[s.w].used > 0 {
      var c := s.cells[s.w];
      RotInsertAt(s.cells[s.w := Unwrapped(c)], s.w, MovedOut(c));
      RestSame(s.cells, s.w, Unwrapped(c));
    } else {
      RotInsertAfter(s.cells, s.r, s.w, Blank());
    }
  }

  /** An expansion changes nothing that the reader sees, in any of its branches, as long as
      the read offset has not left the node; wrapped data included. */
  lemma ExpandKeepsContents(s: State)
    requires Accounted(s) && (s.cells != [] ==> s.cells[s.r].cursor <= NODE_SIZE)
    ensures Contents(Expand(s)) == Contents(s)
  {
    hide Rot, Rest, Flat, Data, Head, Unwrapped, MovedOut, Expand;
    DataEmpty(Blank());
    FlatOne(Blank());
    if s.cells == [] {
      ExpandEmpty(s);
    } else {
      ExpandRing(s);
      var t := Expand(s);
      var ring := Rot(s.cells, s.r);
      if s.w == s.r && s.cells[s.w].used > 0 {
        var c := s.cells[s.r];
        Unwraps(c);
        RotHere(s.cells, s.r);
        FlatCons(c, Rest(s.cells, s.r));
        FlatConcat([Unwrapped(c)] + Rest(s.cells, s.r), [MovedOut(c)]);
        FlatCons(Unwrapped(c), Rest(s.cells, s.r));
        FlatOne(MovedOut(c));
      } else {
        var k :| 0 <= k <= |s.cells| && Rot(t.cells, t.r) == ring[..k] + [Blank()] + ring[k..];
        FlatThree(ring[..k], Blank(), ring[k..]);
        FlatConcat(ring[..k], ring[k..]);
        assert ring == ring[..k] + ring[k..];
      }
    }
  }

  lemma ExpandEmpty(s: State)
    requires Indexed(s) && s.cells == []
    ensures Contents(Expand(s)) == []
  {
    assert Rot(Expand(s).cells, 0) == [Blank()];
    DataEmpty(Blank());
    FlatOne(Blank());
  }

  lemma ExpandKeeps(s: State)
    requires Sound(s) && |s.cells| < MAX_NODES
    ensures Sound(Expand(s)) && Contents(Expand(s)) == Contents(s)
  {
    hide Rot, Flat, Data, Head, Unwrapped, MovedOut, Contents, Used;
    ExpandCounts(s);
    EmptyIffUnused(s.cells);
    if s.cells != [] { UnwrapsFit(s.cells[s.w]); }
    ExpandKeepsContents(s);
  }

  // ------------------------------------------------- capacity

  /** Whether room for `size` more bytes can be made: nothing asked for; or bytes are
      stored and the sum stays within 2^32; or nothing is stored, the ring has not reached
      its 2^20 nodes, and the request fits one node less than that. */
  predicate CanHold(s: State, size: nat) {
    || size == 0
    || (s.used > 0 && s.used + size <= WORD)
    || (s.used == 0 && |s.cells| < MAX_NODES && size <= WORD - NODE_SIZE)
  }

  /** `Reserver` succeeds exactly then. In particular a ring that has grown to 2^20 nodes
      and been emptied accepts nothing more. */
  lemma {:induction false} ReservesIff(s: State, size: nat)
    requires Accounted(s)
    ensures Grow(s, size).ok <==> CanHold(s, size)
    decreases MAX_NODES - |s.cells|
  {
    SumBounds(s);
    if LeftSize(s) < size && !AtCap(s) {
      ExpandCounts(s);
      SumBounds(Expand(s));
      ReservesIff(Expand(s), size);
    }
  }

  lemma {:induction false} GrowKeeps(s: State, size: nat)
    requires Accounted(s)
    ensures var g := Grow(s, size);
      && Accounted(g.state) && Used(g.state.cells) == Used(s.cells)
      && (Sound(s) ==> Sound(g.state) && Contents(g.state) == Contents(s))
      && (g.ok && 0 < size ==> g.state.cells != [] && size <= Room(g.state.cells))
    decreases MAX_NODES - |s.cells|
  {
    hide Contents, Tidy, Within, Expand, Used, Room, AllFit, U32;
    if LeftSize(s) >= size {
      LeftMeans(s);
    } else if !AtCap(s) {
      ExpandCounts(s);
      if Sound(s) { ExpandKeeps(s); }
      GrowKeeps(Expand(s), size);
    }
  }

  lemma LeftMeans(s: State)
    requires Accounted(s)
    ensures LeftSize(s) <= Room(s.cells) && (0 < LeftSize(s) ==> s.cells != [])
    ensures s.used + LeftSize(s) <= WORD
  {
    SumBounds(s);
  }

  /** Growing an empty ring for a request that fits leaves it below the cap. */
  lemma {:induction false} GrowBelowCap(s: State, size: nat)
    requires Accounted(s) && Used(s.cells) == 0 && |s.cells| < MAX_NODES && size <= WORD - NODE_SIZE
    ensures |Grow(s, size).state.cells| < MAX_NODES
    decreases MAX_NODES - |s.cells|
  {
    SumBounds(s);
    if LeftSize(s) < size {
      ExpandCounts(s);
      GrowBelowCap(Expand(s), size);
    }
  }

  // ------------------------------------------------- a fill: lend, readv, commit

  function MoveWrite(s: State, n: nat): (t: State)
    requires Indexed(s)
    ensures Indexed(t)
  {
    Commit(s, Min(n, LeftSize(s)), |s.cells|)
  }

  /** The bytes `GetWriteBuffer(iov, cnt, want)` goes for. */
  function Asked(cnt: nat, want: nat): nat { Min(U32(cnt * NODE_SIZE), want) }

  function Segments(s: State, cnt: nat, want: nat): (segs: seq<Seg>)
    requires Indexed(s)
    ensures OnList(Grow(s, Asked(cnt, want)).state.cells, segs)
  {
    var g := Grow(s, Asked(cnt, want));
    LendOnList(g.state.cells, g.state.w, cnt, Asked(cnt, want));
    if g.ok then Lend(g.state.cells, g.state.w, cnt, Asked(cnt, want)) else []
  }

  /** `GetWriteBuffer`, then a `readv` of `got` into its segments, then `MoveWritePos(|got|)`. */
  function Fill(s: State, cnt: nat, want: nat, got: seq<byte>): (t: State)
    requires Indexed(s)
    ensures Indexed(t)
  {
    var g := Grow(s, Asked(cnt, want)).state;
    MoveWrite(g.(cells := Readv(g.cells, Segments(s, cnt, want), got)), |got|)
  }

  lemma {:induction false} AlikeSums(cs: seq<Cell>, ds: seq<Cell>)
    requires |cs| == |ds| && forall j | 0 <= j < |cs| :: Alike(ds[j], cs[j])
    ensures Used(ds) == Used(cs) && Room(ds) == Room(cs)
  {
    if cs != [] {
      assert Alike(ds[0], cs[0]);
      AlikeSums(cs[1..], ds[1..]);
    }
  }

  /** What `readv` keeps: everything but the nodes' memory. */
  lemma ReadvKeeps(s: State, segs: seq<Seg>, p: seq<byte>)
    requires Accounted(s) && OnList(s.cells, segs)
    ensures var t := s.(cells := Readv(s.cells, segs, p));
      Accounted(t) && Used(t.cells) == Used(s.cells) && Room(t.cells) == Room(s.cells) && LeftSize(t) == LeftSize(s)
  {
    AlikeSums(s.cells, Readv(s.cells, segs, p));
    assert forall j | 0 <= j < |s.cells| :: Alike(Readv(s.cells, segs, p)[j], s.cells[j]);
  }

  lemma WholeLap(s: State)
    requires Accounted(s) && s.cells != []
    ensures LeftSize(s) <= Room(Rot(s.cells, s.w)[..|s.cells|])
  {
    hide Rot;
    LeftMeans(s);
    RotSums(s.cells, s.w);
    assert Rot(s.cells, s.w)[..|s.cells|] == Rot(s.cells, s.w);
  }

  /** A commit counts every byte, in every accounted state. */
  lemma MoveWriteCounts(s: State, n: nat)
    requires Accounted(s)
    ensures var t := MoveWrite(s, n); Accounted(t) && t.used == U32(s.used + Min(n, LeftSize(s)))
  {
    if s.cells != [] {
      WholeLap(s);
      CommitCounts(s, Min(n, LeftSize(s)), |s.cells|);
    } else {
      LeftMeans(s);
    }
  }

  /** The bytes a kernel can put into the lent segments. */
  predicate CanTake(s: State, cnt: nat, want: nat, n: nat)
    requires Indexed(s)
  {
    n <= Total(Segments(s, cnt, want))
  }

  /** Lent segments fit the ring, and their number of bytes the request. */
  lemma SegmentsFit(s: State, cnt: nat, want: nat)
    requires Accounted(s)
    ensures var g := Grow(s, Asked(cnt, want)).state; var n := Total(Segments(s, cnt, want));
      Accounted(g) && n <= Asked(cnt, want) && n <= LeftSize(g)
  {
    hide Rot, Lend, U32;
    var size := Asked(cnt, want);
    var g := Grow(s, size);
    GrowKeeps(s, size);
    if g.ok && g.state.cells != [] {
      WholeLap(g.state);
      LendsOnce(g.state.cells, g.state.w, cnt, size, |g.state.cells|);
    } else if g.ok {
      LeftMeans(g.state);
      assert size == 0;
      LendNone(cnt);
    }
  }

  lemma LendNone(cnt: nat)
    ensures Lend([], 0, cnt, 0) == []
  {
  }

  /** Every fill counts its bytes, in every accounted state. */
  lemma FillCounts(s: State, cnt: nat, want: nat, got: seq<byte>)
    requires Accounted(s) && CanTake(s, cnt, want, |got|)
    ensures var t := Fill(s, cnt, want, got); Accounted(t) && t.used == U32(s.used + |got|)
  {
    hide Lend, Grow, Readv, Total, Segments;
    SegmentsFit(s, cnt, want);
    var g := Grow(s, Asked(cnt, want)).state;
    ReadvKeeps(g, Segments(s, cnt, want), got);
    MoveWriteCounts(g.(cells := Readv(g.cells, Segments(s, cnt, want), got)), |got|);
  }

  /** A fill lands its bytes: `MoveWritePos` commits to each node exactly what `readv`
      laid there. */
  lemma FillLands(s: State, cnt: nat, want: nat, got: seq<byte>)
    requires Accounted(s) && CanTake(s, cnt, want, |got|) && got != []
    requires s.used + |got| < WORD
    ensures var g := Grow(s, Asked(cnt, want));
      && g.ok && Accounted(g.state) && g.state.cells != []
      && Landed(g.state, Fill(s, cnt, want, got), got)
  {
    hide Rot, Lend, Grow, Laid, Grown, Spread, Readv, Total, U32, Room, Used;
    var size := Asked(cnt, want);
    var g := Grow(s, size);
    GrowKeeps(s, size);
    assert g.ok && 0 < size by {
      SegmentsFit(s, cnt, want);
      TotalOfNone();
    }
    SegmentsFit(s, cnt, want);
    FillCounts(s, cnt, want, got);
    var segs := Segments(s, cnt, want);
    var cells := g.state.cells;
    WholeLap(g.state);
    ReadvLays(cells, g.state.w, cnt, size, got, |cells|);
    ReadvKeeps(g.state, segs, got);
    var t := g.state.(cells := Readv(cells, segs, got));
    WholeLap(t);
    NotWrapped(t, |got|);
    CommitGrows(t, |got|, |cells|);
    GrownLaid(Rot(cells, g.state.w), got);
  }

  lemma NotWrapped(s: State, n: nat)
    requires Accounted(s) && s.used + n < WORD && 0 < n <= LeftSize(s)
    ensures Used(s.cells) + n < WORD
  {
    SumBounds(s);
  }

  lemma TotalOfNone()
    ensures Total([]) == 0
  {
  }

  // ------------------------------------------------- the copying write

  /** The iterations a copying write may take: a lap, and one more to finish a start node
      that has room. */
  function PutLaps(s: State): nat
    requires Indexed(s) && s.cells != []
  {
    if Tail(s.cells[s.w]) == 0 then |s.cells| else |s.cells| + 1
  }

  /** `WriteBuffer(data)`. */
  function Write(s: State, data: seq<byte>): (t: State)
    requires Indexed(s)
    ensures Indexed(t)
  {
    var g := Grow(s, |data|);
    if !g.ok || g.state.cells == [] then g.state
    else Put(g.state, data, |data|, PutLaps(g.state)).(used := U32(s.used + |data|))
  }

  /** What `WriteBuffer` returns. */
  function Written(s: State, data: seq<byte>): nat
    requires Indexed(s)
  {
    if Grow(s, |data|).ok then |data| else 0
  }

  lemma PutReachesAll(s: State, n: nat)
    requires Accounted(s) && s.cells != [] && n <= Room(s.cells)
    ensures PutReaches(s.cells, s.w, n, PutLaps(s))
  {
    hide Rot;
    RotSums(s.cells, s.w);
    assert Rot(s.cells, s.w)[..|s.cells|] == Rot(s.cells, s.w);
  }

  /** A copying write lands the stream that its fixed source pointer yields. */
  lemma WriteLands(s: State, data: seq<byte>)
    requires Accounted(s) && data != [] && Grow(s, |data|).ok
    ensures var g := Grow(s, |data|).state; var p := Stutter(Rot(g.cells, g.w), data, |data|);
      && Accounted(g) && g.cells != [] && |p| == |data| <= Room(g.cells)
      && Landed(g, Write(s, data), p)
  {
    hide Rot, Grow, Put, PutReaches, Spread, Stutter, U32, Room, Used, AllFit;
    GrowKeeps(s, |data|);
    var g := Grow(s, |data|).state;
    PutReachesAll(g, |data|);
    PutCopies(g, data, |data|, PutLaps(g));
    RotSums(g.cells, g.w);
  }

  /** Every copying write counts its bytes, in every accounted state. */
  lemma WriteCounts(s: State, data: seq<byte>)
    requires Accounted(s)
    ensures var t := Write(s, data); Accounted(t) && t.used == U32(s.used + Written(s, data))
  {
    hide Rot, Grow, Spread, Stutter, Room, Used, AllFit;
    GrowKeeps(s, |data|);
    if data != [] && Grow(s, |data|).ok {
      var g := Grow(s, |data|).state;
      WriteLands(s, data);
      LandedKeeps(g, Write(s, data), Stutter(Rot(g.cells, g.w), data, |data|));
    }
  }

  /** The room of the first node that has any. */
  function FirstRoom(cs: seq<Cell>): nat {
    if cs == [] then 0 else if Tail(cs[0]) > 0 then Tail(cs[0]) else FirstRoom(cs[1..])
  }

  /** A write that fits the first node with room is one chunk, and its stream is the data. */
  lemma {:induction false} OneChunk(cs: seq<Cell>, data: seq<byte>)
    requires |data| <= FirstRoom(cs)
    ensures Stutter(cs, data, |data|) == data
  {
    if cs != [] {
      if Tail(cs[0]) == 0 {
        OneChunk(cs[1..], data);
        assert data[..0] + data == data;
      } else {
        StutterNothing(cs[1..], data);
        assert data[..|data|] + [] == data;
      }
    }
  }

  /** A longer one repeats the beginning of the data and never reaches its last byte. */
  lemma {:induction false} ManyChunks(cs: seq<Cell>, n: nat, left: nat)
    requires left <= n && (left < n || FirstRoom(cs) < n)
    ensures Stutter(cs, Probe(n, false), left) == Stutter(cs, Probe(n, true), left)
  {
    if cs != [] && left > 0 {
      var a := Min(Tail(cs[0]), left);
      ProbesAgree(n, 0, a);
      ManyChunks(cs[1..], n, left - a);
    }
  }

  // ------------------------------------------------- when writes append

  /** A fill of `n` bytes is appended, whatever the bytes, if and only if the ring, once
      grown for the request, is ready for them. */
  lemma FillAppendsIff(s: State, cnt: nat, want: nat, n: nat)
    requires Sound(s) && 0 < n && CanTake(s, cnt, want, n)
    ensures var g := Grow(s, Asked(cnt, want)).state;
      && g.cells != []
      && ((forall got | |got| == n :: Appended(s, Fill(s, cnt, want, got), got)) <==> Appends(g, n))
  {
    hide Rot, Spread, Contents, Back, Ready, Grow, Lend, Readv, Total, After, Room, Used, AllFit, Segments;
    var size := Asked(cnt, want);
    var g := Grow(s, size).state;
    FillReady(s, cnt, want, n);
    if WORD <= s.used + n {
      FillCounts(s, cnt, want, Probe(n, false));
      assert !Appended(s, Fill(s, cnt, want, Probe(n, false)), Probe(n, false));
    } else {
      forall got | |got| == n ensures Landed(g, Fill(s, cnt, want, got), got) {
        FillLands(s, cnt, want, got);
      }
      FillsThrough(s, g, cnt, want, n);
    }
  }

  lemma FillReady(s: State, cnt: nat, want: nat, n: nat)
    requires Sound(s) && 0 < n && CanTake(s, cnt, want, n)
    ensures var g := Grow(s, Asked(cnt, want)).state;
      Sound(g) && Contents(g) == Contents(s) && g.used == s.used && g.cells != [] && n <= Room(g.cells)
  {
    GrowKeeps(s, Asked(cnt, want));
    SegmentsFit(s, cnt, want);
    LeftMeans(Grow(s, Asked(cnt, want)).state);
  }

  lemma FillsThrough(s: State, g: State, cnt: nat, want: nat, n: nat)
    requires Sound(s) && Sound(g) && Contents(g) == Contents(s) && g.used == s.used
    requires g.cells != [] && 0 < n <= Room(g.cells)
    requires forall got | |got| == n :: Landed(g, Fill(s, cnt, want, got), got)
    ensures (forall got | |got| == n :: Appended(s, Fill(s, cnt, want, got), got)) <==> Appends(g, n)
  {
    hide Rot, Spread, Contents, Back, Ready, Fill, After, Room, Used, AllFit;
    if Appends(g, n) {
      forall got | |got| == n ensures Appended(s, Fill(s, cnt, want, got), got) {
        AppendsInOrder(g, Fill(s, cnt, want, got), got);
      }
    } else {
      Blocked(g, n);
      var p :| |p| == n && !Appended(g, After(g, p), p);
      LandedContents(g, Fill(s, cnt, want, p), p);
      assert !Appended(s, Fill(s, cnt, want, p), p);
    }
  }

  /** A copying write of `n` bytes is appended, whatever the bytes, if and only if the ring,
      once grown, is ready for them and they fit the first node with room. */
  lemma WriteAppendsIff(s: State, n: nat)
    requires Sound(s) && 0 < n && Grow(s, n).ok
    ensures var g := Grow(s, n).state;
      && g.cells != []
      && ((forall data | |data| == n :: Appended(s, Write(s, data), data))
          <==> Appends(g, n) && n <= FirstRoom(Rot(g.cells, g.w)))
  {
    hide Rot, Spread, Contents, Back, Ready, Grow, Write, After, Room, Used, AllFit, Stutter, FirstRoom;
    var g := Grow(s, n).state;
    var ring := Rot(g.cells, g.w);
    GrowKeeps(s, n);
    forall data | |data| == n ensures Landed(g, Write(s, data), Stutter(ring, data, n)) {
      WriteLands(s, data);
    }
    if FirstRoom(ring) < n {
      ManyChunks(ring, n, n);
      SameStream(s, g, n);
    } else {
      forall data | |data| == n ensures Landed(g, Write(s, data), data) {
        OneChunk(ring, data);
      }
      WritesThrough(s, g, n);
    }
  }

  /** Two data that land as one stream cannot both have been appended. */
  lemma SameStream(s: State, g: State, n: nat)
    requires Sound(s) && Sound(g) && g.cells != [] && 0 < n
    requires forall data | |data| == n :: Landed(g, Write(s, data), Stutter(Rot(g.cells, g.w), data, n))
    requires Stutter(Rot(g.cells, g.w), Probe(n, false), n) == Stutter(Rot(g.cells, g.w), Probe(n, true), n)
    ensures exists data :: |data| == n && !Appended(s, Write(s, data), data)
  {
    hide Rot, Spread, Contents, Write, After, Stutter;
    var x, y := Probe(n, false), Probe(n, true);
    LandedContents(g, Write(s, x), Stutter(Rot(g.cells, g.w), x, n));
    LandedContents(g, Write(s, y), Stutter(Rot(g.cells, g.w), y, n));
    assert (Contents(s) + x)[|Contents(s)| + n - 1] == 0 && (Contents(s) + y)[|Contents(s)| + n - 1] == 1;
    if Appended(s, Write(s, x), x) {
      assert !Appended(s, Write(s, y), y);
    }
  }

  lemma WritesThrough(s: State, g: State, n: nat)
    requires Sound(s) && Sound(g) && Contents(g) == Contents(s) && g.used == s.used
    requires g.cells != [] && 0 < n <= Room(g.cells)
    requires forall data | |data| == n :: Landed(g, Write(s, data), data)
    ensures (forall data | |data| == n :: Appended(s, Write(s, data), data)) <==> Appends(g, n)
  {
    hide Rot, Spread, Contents, Back, Ready, Write, After, Room, Used, AllFit;
    if Appends(g, n) {
      forall data | |data| == n ensures Appended(s, Write(s, data), data) {
        AppendsInOrder(g, Write(s, data), data);
      }
    } else {
      Blocked(g, n);
      var p :| |p| == n && !Appended(g, After(g, p), p);
      LandedContents(g, Write(s, p), p);
      assert !Appended(s, Write(s, p), p);
    }
  }
}
