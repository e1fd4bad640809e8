/** Where a write leaves the write iterator, and what that means for the writes after it. */
module RingTrail {
  import opened Rotation
  import opened Parts
  import opened Ring
  import opened RingWrite
  import opened RingAppend
  import opened RingQueue
  import opened RingRuns
  import opened RingArcs

  /** The node that gets the last of `n` bytes. */
  function LastNode(cs: seq<Cell>, n: nat): (j: nat)
    requires 0 < n <= Room(cs)
    ensures j < |cs|
  {
    if n <= Tail(cs[0]) then 0 else 1 + LastNode(cs[1..], n - Tail(cs[0]))
  }

  lemma {:induction false} LastNodeFits(a: seq<Cell>, b: seq<Cell>, n: nat)
    requires 0 < n <= Room(a)
    ensures n <= Room(a + b) && LastNode(a + b, n) == LastNode(a, n)
  {
    SumConcat(a, b);
    assert (a + b)[0] == a[0] && (a + b)[1..] == a[1..] + b;
    if Tail(a[0]) < n {
      LastNodeFits(a[1..], b, n - Tail(a[0]));
    }
  }

  lemma LastNodeCons(c: Cell, cs: seq<Cell>, n: nat)
    requires 0 < n <= Tail(c) + Room(cs)
    ensures Room([c] + cs) == Tail(c) + Room(cs)
    ensures LastNode([c] + cs, n) == if n <= Tail(c) then 0 else 1 + LastNode(cs, n - Tail(c))
  {
    UsedCons(c, cs);
    assert ([c] + cs)[1..] == cs;
  }

  /** The last node from the next one on, when the first of them is full. */
  lemma LastNodeNext(cs: seq<Cell>, i: nat, n: nat, laps: nat)
    requires i < |cs| && 0 < laps <= |cs| && Tail(cs[i]) < n <= Room(Rot(cs, i)[..laps])
    ensures var next := Next(i, |cs|); var m := n - Tail(cs[i]);
      && n <= Room(Rot(cs, i)) && m <= Room(Rot(cs, next))
      && LastNode(Rot(cs, next), m) + 1 == LastNode(Rot(cs, i), n) < |cs|
      && Ahead(next, LastNode(Rot(cs, next), m), |cs|) == Ahead(i, LastNode(Rot(cs, i), n), |cs|)
  {
    hide Rot, Rest, Tail;
    var c, rest := cs[i], Rest(cs, i);
    LapPrefix(cs, i, c, laps);
    UsedCons(c, rest[..laps - 1]);
    RoomPrefix(rest, laps - 1);
    RotHere(cs, i);
    LastNodeCons(c, rest, n);
    LastNodeFits(rest, [c], n - Tail(c));
  }

  // ------------------------------------------------- the copying write

  lemma PutFitsRing(s: State, left: nat, laps: nat)
    requires Indexed(s) && s.cells != [] && PutReaches(s.cells, s.w, left, laps)
    ensures left <= Room(Rot(s.cells, s.w))
    ensures Tail(s.cells[s.w]) == 0 ==> laps <= |s.cells| && left <= Room(Rot(s.cells, s.w)[..laps])
  {
    hide Rot;
    RoomPrefix(Rot(s.cells, s.w), if Tail(s.cells[s.w]) == 0 then laps else laps - 1);
  }

  /** The copying write ends on the node that got its last byte. */
  lemma {:induction false} PutStands(s: State, data: seq<byte>, left: nat, laps: nat)
    requires Indexed(s) && s.cells != [] && 0 < left <= |data| && PutReaches(s.cells, s.w, left, laps)
    ensures left <= Room(Rot(s.cells, s.w))
    ensures Put(s, data, left, laps).w == Ahead(s.w, LastNode(Rot(s.cells, s.w), left), |s.cells|)
    decreases laps, Tail(s.cells[s.w]) == 0
  {
    hide Rot, Rest, Tail, Store, Room, Put, PutReaches, LastNode;
    var c := s.cells[s.w];
    PutFitsRing(s, left, laps);
    if Tail(c) == 0 {
      PutPasses(s, data, left, laps);
      var t := s.(w := Next(s.w, |s.cells|));
      var laps' := if Tail(t.cells[t.w]) == 0 then laps - 1 else laps;
      PutStands(t, data, left, laps');
      LastNodeNext(s.cells, s.w, left, laps);
    } else {
      PutFills(s, data, left, laps);
      var a := Min(Tail(c), left);
      var c' := Store(c, data[..a]);
      var t := s.(cells := s.cells[s.w := c']);
      RotHere(s.cells, s.w);
      LastNodeFirst(c, Rest(s.cells, s.w), left);
      if a == left {
        PutNothing(t, data, laps - 1);
      } else {
        PutStands(t, data, left - a, laps - 1);
        RotSet(s.cells, s.w, c');
        RotHere(t.cells, s.w);
        LastNodeFull(c, c', Rest(s.cells, s.w), left);
        assert Rot(t.cells, s.w) == [c'] + Rest(s.cells, s.w);
      }
    }
  }

  lemma LastNodeFirst(c: Cell, cs: seq<Cell>, n: nat)
    requires 0 < n <= Room([c] + cs)
    ensures n <= Tail(c) ==> LastNode([c] + cs, n) == 0
  {
  }

  /** Filling up the first node first makes no difference. */
  lemma LastNodeFull(c: Cell, c': Cell, cs: seq<Cell>, n: nat)
    requires Tail(c) < n <= Room([c] + cs) && Tail(c') == 0
    ensures n - Tail(c) <= Room([c'] + cs)
    ensures LastNode([c'] + cs, n - Tail(c)) == LastNode([c] + cs, n)
  {
    UsedCons(c, cs);
    UsedCons(c', cs);
    LastNodeCons(c, cs, n);
    LastNodeCons(c', cs, n - Tail(c));
  }

  /** `WriteBuffer` leaves the write iterator on the node that got its last byte. */
  lemma WriteStands(s: State, data: seq<byte>)
    requires Accounted(s) && data != [] && Grow(s, |data|).ok
    ensures var g := Grow(s, |data|).state;
      && g.cells != [] && |data| <= Room(Rot(g.cells, g.w))
      && Write(s, data).w == Ahead(g.w, LastNode(Rot(g.cells, g.w), |data|), |g.cells|)
  {
    hide Rot, Grow, Put, PutReaches, LastNode, Room, U32;
    GrowKeeps(s, |data|);
    var g := Grow(s, |data|).state;
    PutReachesAll(g, |data|);
    PutStands(g, data, |data|, PutLaps(g));
  }

  // ------------------------------------------------- a commit

  /** `MoveWritePos` ends behind the node that got the last byte, full or not. */
  lemma {:induction false} CommitStands(s: State, n: nat, laps: nat)
    requires Accounted(s) && s.cells != [] && laps <= |s.cells|
    requires 0 < n <= Room(Rot(s.cells, s.w)[..laps])
    requires Used(s.cells) + n < WORD
    ensures n <= Room(Rot(s.cells, s.w))
    ensures Commit(s, n, laps).w == Ahead(s.w, LastNode(Rot(s.cells, s.w), n) + 1, |s.cells|)
    decreases laps
  {
    hide Rot, Rest, CommitOne, Commit, AllFit, Room, Used, U32, Tail, LastNode;
    RoomPrefix(Rot(s.cells, s.w), laps);
    assert laps > 0 by { NoRoom(Rot(s.cells, s.w)); }
    CommitStep(s, n, laps);
    RotHere(s.cells, s.w);
    var c := s.cells[s.w];
    var a := Min(Tail(c), n);
    var t := CommitOne(s, a);
    LastNodeFirst(c, Rest(s.cells, s.w), n);
    if n <= Tail(c) {
      CommitNothing(t, 0, laps - 1);
    } else {
      CommitStands(t, n - a, laps - 1);
      LastNodeNext(s.cells, s.w, n, laps);
      LastNodeOver(s.cells, s.w, t.cells[s.w], n - a, laps);
    }
  }

  lemma NoRoom(cs: seq<Cell>)
    ensures Room(cs[..0]) == 0
  {
  }

  /** What happens to the node left behind makes no difference. */
  lemma LastNodeOver(cs: seq<Cell>, i: nat, c: Cell, n: nat, laps: nat)
    requires i < |cs| && 0 < laps <= |cs| && 0 < n <= Room(Rot(cs[i := c], Next(i, |cs|))[..laps - 1])
    ensures var next := Next(i, |cs|);
      && n <= Room(Rot(cs, next)) && n <= Room(Rot(cs[i := c], next))
      && LastNode(Rot(cs[i := c], next), n) == LastNode(Rot(cs, next), n) < |cs| - 1
  {
    hide Rot, Rest, Tail;
    var rest := Rest(cs, i);
    LapPrefix(cs, i, c, laps);
    RoomPrefix(rest, laps - 1);
    RotHere(cs, i);
    RotSet(cs, i, c);
    LastNodeFits(rest, [cs[i]], n);
    LastNodeFits(rest, [c], n);
  }

  lemma MoveWriteStands(g: State, t: State, n: nat)
    requires Accounted(t) && t.cells != [] && |t.cells| == |g.cells| && t.w == g.w
    requires forall j | 0 <= j < |g.cells| :: Alike(t.cells[j], g.cells[j])
    requires 0 < n <= LeftSize(t) && t.used + n < WORD
    ensures n <= Room(Rot(g.cells, g.w))
    ensures MoveWrite(t, n).w == Ahead(g.w, LastNode(Rot(g.cells, g.w), n) + 1, |g.cells|)
  {
    hide Rot, U32, Room, Used, LastNode, AllFit, Commit, Alike;
    WholeLap(t);
    NotWrapped(t, n);
    CommitStands(t, n, |t.cells|);
    assert forall j | 0 <= j < |g.cells| :: Alike(g.cells[j], t.cells[j]) by { AlikeBack(t.cells, g.cells); }
    LastNodeAlike(t.cells, g.cells, g.w, n);
  }

  lemma AlikeBack(cs: seq<Cell>, ds: seq<Cell>)
    requires |cs| == |ds| && forall j | 0 <= j < |cs| :: Alike(cs[j], ds[j])
    ensures forall j | 0 <= j < |cs| :: Alike(ds[j], cs[j])
  {
    forall j | 0 <= j < |cs| ensures Alike(ds[j], cs[j]) {
      assert Alike(cs[j], ds[j]);
    }
  }

  /** A fill leaves the write iterator behind that node. */
  lemma FillStands(s: State, cnt: nat, want: nat, got: seq<byte>)
    requires Accounted(s) && CanTake(s, cnt, want, |got|) && got != []
    requires s.used + |got| < WORD
    ensures var g := Grow(s, Asked(cnt, want)).state;
      && g.cells != [] && |got| <= Room(Rot(g.cells, g.w))
      && Fill(s, cnt, want, got).w == Ahead(g.w, LastNode(Rot(g.cells, g.w), |got|) + 1, |g.cells|)
  {
    hide Rot, Lend, Grow, Readv, Total, U32, Room, Used, Segments, LastNode, AllFit, Landed, Asked, Commit;
    var g := Grow(s, Asked(cnt, want)).state;
    FillLands(s, cnt, want, got);
    SegmentsFit(s, cnt, want);
    var segs := Segments(s, cnt, want);
    ReadvKeeps(g, segs, got);
    MoveWriteStands(g, g.(cells := Readv(g.cells, segs, got)), |got|);
  }

  lemma {:induction false} LastNodeSame(cs: seq<Cell>, ds: seq<Cell>, n: nat)
    requires |cs| == |ds| && (forall j | 0 <= j < |cs| :: Alike(cs[j], ds[j])) && 0 < n <= Room(cs)
    ensures n <= Room(ds) && LastNode(ds, n) == LastNode(cs, n)
  {
    assert Alike(cs[0], ds[0]);
    AlikeSums(ds, cs);
    if Tail(cs[0]) < n {
      LastNodeSame(cs[1..], ds[1..], n - Tail(cs[0]));
    }
  }

  lemma LastNodeAlike(cs: seq<Cell>, ds: seq<Cell>, i: nat, n: nat)
    requires |cs| == |ds| && i < |cs| && (forall j | 0 <= j < |cs| :: Alike(ds[j], cs[j])) && 0 < n <= Room(Rot(cs, i))
    ensures n <= Room(Rot(ds, i)) && LastNode(Rot(ds, i), n) == LastNode(Rot(cs, i), n)
  {
    forall j | 0 <= j < |cs| ensures Alike(Rot(cs, i)[j], Rot(ds, i)[j]) {
      assert Alike(ds[Ahead(i, j, |cs|)], cs[Ahead(i, j, |cs|)]);
    }
    LastNodeSame(Rot(cs, i), Rot(ds, i), n);
  }

  // ------------------------------------------------- the arcs after a write

  lemma StepsAhead(r: nat, w: nat, j: nat, n: nat)
    requires r < n && w < n && j <= n - Steps(r, w, n)
    ensures j < n - Steps(r, w, n) ==> Steps(r, Ahead(w, j, n), n) == Steps(r, w, n) + j
    ensures j == n - Steps(r, w, n) ==> Ahead(w, j, n) == r
  {
  }

  /** The arcs when `p` has landed and the write iterator has gone `j` nodes on; when it has come
      round to the read node, the whole ring lies behind it. */
  lemma LandedArcs(s: State, t: State, p: seq<byte>, j: nat)
    requires Indexed(s) && s.cells != [] && Landed(s, t, p) && |p| <= Room(Back(s))
    requires j <= |Back(s)| && t.w == Ahead(s.w, j, |s.cells|)
    ensures var sp := Spread(Back(s), p);
      if j < |Back(s)| then Front(t) == Front(s) + sp[..j] && Back(t) == sp[j..]
      else t.w == t.r && Front(t) == [] && Back(t) == Front(s) + sp
  {
    hide Rot, Spread, Room, Front, Back;
    var sp := Spread(Back(s), p);
    LandedAhead(s, t, p);
    hide Landed;
    StepsAhead(s.r, s.w, j, |s.cells|);
    Arcs(t);
    SplitAgain(Front(s), sp, Front(t), Back(t), j);
  }

  lemma SplitAgain<T>(f: seq<T>, b: seq<T>, f': seq<T>, b': seq<T>, j: nat)
    requires f' + b' == f + b && j <= |b|
    ensures |f'| == |f| + j ==> f' == f + b[..j] && b' == b[j..]
    ensures |f'| == 0 ==> f' == [] && b' == f + b
  {
    var k := |f'|;
    assert f' == (f' + b')[..k] == (f + b)[..k] && b' == (f' + b')[k..] == (f + b)[k..];
  }

  /** The nodes of `sp` before `j` are full, that one has its cursor at the start, and those behind
      it are as empty as they are in `b`. */
  predicate Trails(sp: seq<Cell>, b: seq<Cell>, j: nat, room: nat)
    requires j < |sp| == |b|
  {
    && sp[j].cursor == 0 && AllEmpty(sp[j + 1..]) && sp[j + 1..] == b[j + 1..]
    && Room(sp[..j]) == 0 && Room(sp[j..]) == room
  }

  lemma TrailsHere(c: Cell, rest: seq<Cell>, b: seq<Cell>)
    requires c.cursor == 0 && AllEmpty(rest) && b != [] && rest == b[1..]
    ensures Trails([c] + rest, b, 0, Tail(c) + Room(rest))
  {
    UsedCons(c, rest);
    var sp := [c] + rest;
    assert sp[..0] == [] && sp[0..] == sp && sp[1..] == rest;
  }

  lemma TrailsOn(c: Cell, more: seq<Cell>, b: seq<Cell>, j: nat, room: nat)
    requires Tail(c) == 0 && b != [] && j < |more| == |b| - 1 && Trails(more, b[1..], j, room)
    ensures Trails([c] + more, b, j + 1, room)
  {
    var sp := [c] + more;
    UsedCons(c, more[..j]);
    assert sp[j + 1..] == more[j..] && sp[..j + 1] == [c] + more[..j] && sp[j + 2..] == more[j + 1..];
    assert b[j + 2..] == b[1..][j + 1..];
  }

  /** Bytes spread over a ready arc. */
  lemma {:induction false} SpreadTrails(b: seq<Cell>, p: seq<byte>)
    requires Ready(b) && Reset(b) && 0 < |p| <= Room(b)
    ensures Trails(Spread(b, p), b, LastNode(b, |p|), Room(b) - |p|)
  {
    hide Spread, Store, Tail, Trails;
    var c, rest := b[0], b[1..];
    var a := Min(Tail(c), |p|);
    assert b == [c] + rest;
    UsedCons(c, rest);
    EmptyCons(c, rest);
    LastNodeCons(c, rest, |p|);
    SpreadCons(c, rest, p);
    StoreTail(c, p[..a]);
    if |p| <= Tail(c) {
      SpreadNothing(rest, p[a..]);
      TrailsHere(Store(c, p[..a]), rest, b);
    } else {
      if Tail(c) != 0 { EmptyReady(rest); }
      SpreadTrails(rest, p[a..]);
      TrailsOn(Store(c, p[..a]), Spread(rest, p[a..]), b, LastNode(rest, |p| - Tail(c)), Room(b) - |p|);
    }
  }

  lemma StoreTail(c: Cell, p: seq<byte>)
    requires |p| <= Tail(c)
    ensures Tail(Store(c, p)) == Tail(c) - |p| && Store(c, p).cursor == c.cursor
  {
  }

  lemma BackFirst(s: State, n: nat)
    requires Indexed(s) && s.cells != [] && 0 < n <= Room(Back(s))
    ensures n <= Room(Rot(s.cells, s.w)) && LastNode(Rot(s.cells, s.w), n) == LastNode(Back(s), n)
  {
    hide Rot, Front, Back;
    Arcs(s);
    LastNodeFits(Back(s), Front(s), n);
  }

  /** A write that is appended leaves the ring ready for the next one: open, and with just so much
      less room behind the write iterator and as much as before in front of it. */
  lemma WriteTrails(s: State, data: seq<byte>)
    requires Sound(s) && data != [] && Grow(s, |data|).ok
    requires var g := Grow(s, |data|).state; g.cells != [] && Appends(g, |data|)
    ensures var g, t := Grow(s, |data|).state, Write(s, data);
      && Sound(t) && t.cells != [] && Open(Back(t)) && Ready(Back(t)) && t.used == s.used + |data|
      && Room(Back(t)) == Room(Back(g)) - |data| && Room(Front(t)) == Room(Front(g))
  {
    hide Rot, Spread, Grow, Write, Stutter, Front, Back, LastNode, Ready, AllFit, U32, Used, Room, Open;
    var n := |data|;
    var g, t := Grow(s, n).state, Write(s, data);
    GrowKeeps(s, n);
    WriteLands(s, data);
    var p := Stutter(Rot(g.cells, g.w), data, n);
    AppendsInOrder(g, t, p);
    WriteStands(s, data);
    LandedFits(g, n);
    BackFirst(g, n);
    LandedAt(g, t, p);
  }

  lemma LandedAt(g: State, t: State, p: seq<byte>)
    requires Sound(g) && g.cells != [] && Landed(g, t, p) && p != [] && Appends(g, |p|)
    requires t.w == Ahead(g.w, LastNode(Back(g), |p|), |g.cells|)
    ensures Open(Back(t)) && Ready(Back(t))
    ensures Room(Back(t)) == Room(Back(g)) - |p| && Room(Front(t)) == Room(Front(g))
  {
    hide Rot, Spread, Front, Back, LastNode, Ready, AllFit, U32, Used, Room, Landed, Appended, Contents, Tidy, Within,
      Trails, Open;
    var j := LastNode(Back(g), |p|);
    AppendsInOrder(g, t, p);
    LandedFits(g, |p|);
    LandedArcs(g, t, p, j);
    ContentsArcs(g);
    SpreadTrails(Back(g), p);
    TrailsOpen(Spread(Back(g), p), Back(g), j, Room(Back(g)) - |p|);
    LandedReset(t);
    OpenReady(Back(t));
    SumConcat(Front(g), Spread(Back(g), p)[..j]);
  }

  lemma TrailsOpen(sp: seq<Cell>, b: seq<Cell>, j: nat, room: nat)
    requires j < |sp| == |b| && Trails(sp, b, j, room)
    ensures Open(sp[j..]) && Room(sp[j..]) == room && Room(sp[..j]) == 0
  {
    OpenAt(sp, j);
  }

  lemma OpenAt(b: seq<Cell>, j: nat)
    requires j < |b| && b[j].cursor == 0 && AllEmpty(b[j + 1..])
    ensures Open(b[j..])
  {
    assert b[j..][1..] == b[j + 1..];
  }

  lemma LandedBehind(g: State, t: State, p: seq<byte>)
    requires Sound(g) && g.cells != [] && Landed(g, t, p) && p != [] && Appends(g, |p|)
    requires t.w == Ahead(g.w, LastNode(Back(g), |p|) + 1, |g.cells|)
    ensures var j := LastNode(Back(g), |p|) + 1;
      if j < |Back(g)| then Back(t) == Back(g)[j..] && AllEmpty(Back(t)) && Ready(Back(t))
      else t.w == t.r && Front(t) == []
  {
    hide Rot, Spread, Front, Back, LastNode, Ready, AllFit, U32, Used, Room, Landed, Appended, Contents, Tidy, Within,
      Trails;
    var j := LastNode(Back(g), |p|) + 1;
    AppendsInOrder(g, t, p);
    LandedFits(g, |p|);
    LandedArcs(g, t, p, j);
    ContentsArcs(g);
    SpreadTrails(Back(g), p);
    TrailsBehind(Spread(Back(g), p), Back(g), j, Room(Back(g)) - |p|);
    if j < |Back(g)| {
      LandedReset(t);
      EmptyReady(Back(t));
    }
  }

  lemma LandedFits(s: State, n: nat)
    requires Indexed(s) && s.cells != [] && Appends(s, n)
    ensures n <= Room(Back(s)) && Ready(Back(s))
  {
  }

  lemma LandedReset(s: State)
    requires Sound(s) && s.cells != []
    ensures Reset(Back(s))
  {
    ContentsArcs(s);
  }

  lemma TrailsBehind(sp: seq<Cell>, b: seq<Cell>, j: nat, room: nat)
    requires 0 < j <= |sp| == |b| && Trails(sp, b, j - 1, room)
    ensures sp[j..] == b[j..] && AllEmpty(sp[j..])
  {
  }

  /** A fill that is appended leaves the write iterator behind the last node it reached: in front
      of the empty nodes that are left of the arc, or on the read node, with the whole ring
      behind it. */
  lemma FillTrails(s: State, cnt: nat, want: nat, got: seq<byte>)
    requires Sound(s) && got != [] && CanTake(s, cnt, want, |got|)
    requires var g := Grow(s, Asked(cnt, want)).state; g.cells != [] && Appends(g, |got|)
    ensures var g, t := Grow(s, Asked(cnt, want)).state, Fill(s, cnt, want, got);
      && Sound(t) && t.cells != [] && t.used == s.used + |got|
      && var j := LastNode(Back(g), |got|) + 1;
      if j < |Back(g)| then Back(t) == Back(g)[j..] && AllEmpty(Back(t)) && Ready(Back(t))
      else t.w == t.r && Front(t) == []
  {
    hide Rot, Spread, Grow, Fill, Front, Back, LastNode, Ready, AllFit, U32, Used, Room, CanTake, Asked, Contents, Landed,
      Tidy, Within;
    var n := |got|;
    var g, t := Grow(s, Asked(cnt, want)).state, Fill(s, cnt, want, got);
    FillReady(s, cnt, want, n);
    AppendsBound(g, n);
    FillLands(s, cnt, want, got);
    AppendsInOrder(g, t, got);
    FillStands(s, cnt, want, got);
    BackFirst(g, n);
    LandedBehind(g, t, got);
  }
}
