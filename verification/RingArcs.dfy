/** Where growing and writing leave the two arcs of the ring: the nodes from the read node up to
    the write node, and those from the write node on. With that, what grown rings and lists of
    writes append. */
module RingArcs {
  import opened Rotation
  import opened Parts
  import opened Ring
  import opened RingWrite
  import opened RingAppend
  import opened RingQueue

  // ------------------------------------------------- growing

  function Blanks(k: nat): (cs: seq<Cell>)
    ensures |cs| == k
  {
    if k == 0 then [] else [Blank()] + Blanks(k - 1)
  }

  /** The read node is the write node and holds data: the new node goes before it. */
  predicate Splits(s: State)
    requires Indexed(s)
  {
    s.cells != [] && s.w == s.r && s.cells[s.w].used > 0
  }

  /** An expansion puts an empty node right behind the write node and moves neither iterator to
      another node; or, where the read node is the write node and holds data, the new node
      becomes the write node, and everything else lies before it. */
  lemma ExpandArcs(s: State)
    requires Indexed(s) && s.cells != []
    ensures var t := Expand(s);
      if Splits(s) then
        && Front(t) == [Unwrapped(s.cells[s.w])] + Rest(s.cells, s.w)
        && Back(t) == [MovedOut(s.cells[s.w])]
      else
        && Front(t) == Front(s)
        && Back(t) == [Back(s)[0], Blank()] + Back(s)[1..]
  {
    hide Rot, Rest, Unwrapped, MovedOut, Blank;
    if Splits(s) {
      SplitArcs(s);
    } else {
      BehindArcs(s);
    }
  }

  lemma SplitArcs(s: State)
    requires Indexed(s) && Splits(s)
    ensures var t := Expand(s);
      Front(t) == [Unwrapped(s.cells[s.w])] + Rest(s.cells, s.w) && Back(t) == [MovedOut(s.cells[s.w])]
  {
    hide Rot, Rest, Unwrapped, MovedOut, Blank;
    var t, n := Expand(s), |s.cells|;
    ExpandRing(s);
    assert Steps(t.r, t.w, n + 1) == n;
    CutAt([Unwrapped(s.cells[s.w])] + Rest(s.cells, s.w), [MovedOut(s.cells[s.w])]);
  }

  lemma CutAt<T>(a: seq<T>, b: seq<T>)
    ensures (a + b)[..|a|] == a && (a + b)[|a|..] == b
  {
  }

  lemma BehindArcs(s: State)
    requires Indexed(s) && s.cells != [] && !Splits(s)
    ensures var t := Expand(s); Front(t) == Front(s) && Back(t) == [Back(s)[0], Blank()] + Back(s)[1..]
  {
    hide Rot, Rest, Blank;
    var t, n := Expand(s), |s.cells|;
    var d := Steps(s.r, s.w, n);
    var ring := Rot(s.cells, s.r);
    RotInsertAfter(s.cells, s.r, s.w, Blank());
    assert Steps(t.r, t.w, n + 1) == d && t.r == (if s.w < s.r then s.r + 1 else s.r);
    InsertedCut(ring, d, Blank());
  }

  lemma InsertedCut<T>(ring: seq<T>, d: nat, x: T)
    requires d < |ring|
    ensures var all := ring[..d + 1] + [x] + ring[d + 1..];
      all[..d] == ring[..d] && all[d..] == [ring[d..][0], x] + ring[d..][1..]
  {
    assert ring[..d + 1] == ring[..d] + [ring[d]];
    assert ring[d..][1..] == ring[d + 1..];
  }

  lemma {:induction false} BlanksNext(k: nat, b: seq<Cell>)
    ensures Blanks(k) + ([Blank()] + b) == Blanks(k + 1) + b
  {
    hide Blank;
    if k == 0 {
      assert [] + ([Blank()] + b) == [Blank()] + b && [Blank()] + [] == [Blank()];
    } else {
      BlanksNext(k - 1, b);
      Associate([Blank()], Blanks(k - 1), [Blank()] + b);
      Associate([Blank()], Blanks(k), b);
    }
  }

  lemma ExpandFirst(s: State)
    requires Indexed(s) && s.cells == []
    ensures var t := Expand(s); t.cells != [] && Front(t) == [] && Back(t) == [Blank()] && !Splits(t)
  {
    hide Blank;
    var t := Expand(s);
    BlankEmpty();
    RotHere(t.cells, 0);
    assert Rest(t.cells, 0) == [];
  }

  lemma BlankEmpty()
    ensures Blank().used == 0
  {
  }

  /** Making room adds some empty nodes, all of them right behind the write node, in whose place
      the first of them is put where the read node is the write node and holds data. */
  lemma {:induction false} GrowArcs(s: State, size: nat)
    requires Indexed(s)
    ensures var g := Grow(s, size).state; var k := |g.cells| - |s.cells|;
      && 0 <= k && (k == 0 ==> g == s)
      && (0 < k ==>
            if s.cells == [] then Front(g) == [] && Back(g) == Blanks(k)
            else if Splits(s) then
              && Front(g) == [Unwrapped(s.cells[s.w])] + Rest(s.cells, s.w)
              && Back(g) == [MovedOut(s.cells[s.w])] + Blanks(k - 1)
            else Front(g) == Front(s) && Back(g) == [Back(s)[0]] + (Blanks(k) + Back(s)[1..]))
    decreases MAX_NODES - |s.cells|
  {
    hide Rot, Rest, Front, Back, Expand, Unwrapped, MovedOut, Blank, LeftSize;
    if LeftSize(s) < size && !AtCap(s) {
      var t := Expand(s);
      GrowArcs(t, size);
      var k := |Grow(s, size).state.cells| - |t.cells|;
      assert Blanks(0) == [] && Blanks(k + 1) == [Blank()] + Blanks(k);
      if s.cells == [] {
        ExpandFirst(s);
        assert Blanks(k) + [] == Blanks(k);
        assert [Blank()][1..] == [];
      } else {
        ExpandArcs(s);
        if Splits(s) {
          NoSplit(s);
          assert [MovedOut(s.cells[s.w])][1..] == [];
          assert Blanks(k) + [] == Blanks(k);
        } else {
          NoSplit(s);
          var b := Back(s);
          assert Back(t)[1..] == [Blank()] + b[1..];
          BlanksNext(k, b[1..]);
        }
      }
    }
  }

  /** An expanded ring is not split again. */
  lemma NoSplit(s: State)
    requires Indexed(s) && s.cells != []
    ensures !Splits(Expand(s))
  {
    hide Unwrapped, MovedOut, Blank;
  }

  /** It adds just as many as the request needs, or fails with all 2^20 of them. */
  lemma {:induction false} GrowAdds(s: State, size: nat)
    requires Accounted(s)
    ensures var g := Grow(s, size); var k := |g.state.cells| - |s.cells|;
      && 0 <= k && Accounted(g.state) && Room(g.state.cells) == Room(s.cells) + NODE_SIZE * k
      && (0 < k ==> Room(s.cells) + NODE_SIZE * (k - 1) < size)
      && (g.ok ==> size <= Room(s.cells) + NODE_SIZE * k)
      && (!g.ok ==> |g.state.cells| == MAX_NODES)
    decreases MAX_NODES - |s.cells|
  {
    hide Used, Expand, AllFit, U32;
    SumBounds(s);
    if LeftSize(s) < size && !AtCap(s) {
      ExpandCounts(s);
      SumBounds(Expand(s));
      GrowAdds(Expand(s), size);
    }
  }

  // ------------------------------------------------- when a grown ring appends

  /** The node that is written first is full or has its cursor at the start, and nothing lies
      behind it. */
  predicate Open(b: seq<Cell>) {
    b != [] ==> (Tail(b[0]) == 0 || b[0].cursor == 0) && AllEmpty(b[1..])
  }

  lemma {:induction false} BlanksEmpty(k: nat)
    ensures AllEmpty(Blanks(k)) && Reset(Blanks(k)) && Room(Blanks(k)) == NODE_SIZE * k
  {
    if k > 0 {
      BlanksEmpty(k - 1);
      EmptyCons(Blank(), Blanks(k - 1));
      UsedCons(Blank(), Blanks(k - 1));
    }
  }

  lemma EmptyCons(c: Cell, cs: seq<Cell>)
    ensures AllEmpty([c] + cs) <==> c.used == 0 && AllEmpty(cs)
    ensures Reset([c] + cs) <==> (c.used == 0 ==> c.cursor == 0) && Reset(cs)
  {
    var d := [c] + cs;
    assert d[0] == c && forall i | 0 < i < |d| :: d[i] == cs[i - 1];
    assert forall i | 0 <= i < |cs| :: cs[i] == d[i + 1];
  }

  lemma {:induction false} EmptyReady(b: seq<Cell>)
    requires AllEmpty(b) && Reset(b)
    ensures Ready(b)
  {
    if b != [] {
      assert b == [b[0]] + b[1..];
      EmptyCons(b[0], b[1..]);
      EmptyReady(b[1..]);
    }
  }

  lemma OpenReady(b: seq<Cell>)
    requires Open(b) && Reset(b)
    ensures Ready(b)
  {
    if b != [] {
      assert b == [b[0]] + b[1..];
      EmptyCons(b[0], b[1..]);
      EmptyReady(b[1..]);
    }
  }

  lemma AllEmptyConcat(a: seq<Cell>, b: seq<Cell>)
    ensures AllEmpty(a + b) <==> AllEmpty(a) && AllEmpty(b)
  {
    assert forall i | 0 <= i < |a| :: a[i] == (a + b)[i];
    assert forall i | 0 <= i < |b| :: b[i] == (a + b)[|a| + i];
  }

  /** With new nodes behind the first one, an arc is ready if and only if it was open. */
  lemma BlanksReadyIff(c: Cell, k: nat, b: seq<Cell>)
    requires 0 < k
    ensures Ready([c] + (Blanks(k) + b)) <==> Open([c] + b)
    ensures Open([c] + (Blanks(k) + b)) <==> Open([c] + b)
    ensures Room([c] + (Blanks(k) + b)) == Room([c] + b) + NODE_SIZE * k
  {
    hide Blank, Tail;
    var d := Blanks(k) + b;
    BlanksEmpty(k);
    BlankEmpty();
    AllEmptyConcat(Blanks(k), b);
    SumConcat(Blanks(k), b);
    UsedCons(c, d);
    UsedCons(c, b);
    assert ([c] + d)[1..] == d && ([c] + b)[1..] == b;
    if Tail(c) == 0 {
      assert d[0] == Blank() && d[1..] == Blanks(k - 1) + b;
      BlanksEmpty(k - 1);
      AllEmptyConcat(Blanks(k - 1), b);
      assert 0 < Tail(d[0]) && d[0].cursor == 0;
    }
  }

  /** When room has been made for `size` bytes, `n` bytes are appended if and only if: no node
      was needed and the ring was ready for them; or it was open and they fit the room that
      the arc had and the new nodes; or it was split and they fit the new nodes alone. */
  lemma GrownAppendsIff(s: State, size: nat, n: nat)
    requires Sound(s) && s.cells != []
    ensures var g := Grow(s, size).state; var k := |g.cells| - |s.cells|;
      && 0 <= k && g.cells != []
      && (Appends(g, n) <==>
            if k == 0 then Appends(s, n)
            else s.used + n < WORD
                 && (if Splits(s) then n <= NODE_SIZE * k else Open(Back(s)) && n <= Room(Back(s)) + NODE_SIZE * k))
  {
    hide Rot, Rest, Front, Back, Grow, Unwrapped, MovedOut, Blank, Tail, Ready, Open, AllFit, U32;
    var g := Grow(s, size).state;
    GrowArcs(s, size);
    var k := |g.cells| - |s.cells|;
    if k > 0 {
      if Splits(s) {
        SplitBlank(s);
        assert Back(g) == Blanks(k);
        BlanksEmpty(k);
        EmptyReady(Blanks(k));
      } else {
        var b := Back(s);
        assert b == [b[0]] + b[1..];
        BlanksReadyIff(b[0], k, b[1..]);
      }
    }
  }

  lemma SplitBlank(s: State)
    requires Sound(s) && Splits(s)
    ensures MovedOut(s.cells[s.w]) == Blank() && Unwrapped(s.cells[s.w]) == s.cells[s.w]
  {
    UnwrapsFit(s.cells[s.w]);
  }

  /** So growing for a request leaves an open ring, whose nodes up to the write node have no
      room, ready to append the whole of it. */
  lemma GrowthAppends(s: State, size: nat, n: nat)
    requires Sound(s) && s.cells != [] && Open(Back(s)) && Room(Front(s)) == 0
    requires Grow(s, size).ok && n <= size && s.used + n < WORD
    requires Splits(s) ==> Room(s.cells) == 0 || size <= Room(s.cells)
    ensures Grow(s, size).state.cells != [] && Appends(Grow(s, size).state, n)
  {
    hide Rot, Rest, Grow, Unwrapped, MovedOut, Blank, Tail, Ready, Open, AllFit, U32, Front, Back, Within;
    GrownAppendsIff(s, size, n);
    GrowAdds(s, size);
    ContentsArcs(s);
    OpenReady(Back(s));
  }

  // ------------------------------------------------- what a fill is lent

  /** Lending takes in turn all the room of the nodes it reaches, up to the request. */
  lemma {:induction false} LendsRoom(cells: seq<Cell>, i: nat, cnt: nat, size: nat, laps: nat)
    requires i < |cells| && laps <= |cells| && size <= Room(Rot(cells, i)[..laps])
    ensures Total(Lend(cells, i, cnt, size)) == Min(size, Room(Rot(cells, i)[..Min(cnt, laps)]))
    decreases cnt
  {
    hide Rot, Tail;
    if laps == 0 || cnt == 0 || size == 0 {
      assert Rot(cells, i)[..0] == [];
    } else {
      var next, len := Next(i, |cells|), Min(Tail(cells[i]), size);
      assert cells[i := cells[i]] == cells;
      RoomShrinks(cells, i, laps, cells[i]);
      RoomShrinks(cells, i, Min(cnt, laps), cells[i]);
      LendsRoom(cells, next, cnt - 1, size - len, laps - 1);
      var rest := Lend(cells, next, cnt - 1, size - len);
      assert ([Seg(i, cells[i].used, len)] + rest)[1..] == rest;
    }
  }

  /** `GetWriteBuffer` adds just the nodes that the lesser of the request and `cnt` nodes' worth
      needs, and lends of it what the first `cnt` nodes from the write node on have room for. */
  lemma FillLends(s: State, cnt: nat, want: nat)
    requires Accounted(s) && cnt < MAX_NODES && 0 < Min(cnt * NODE_SIZE, want)
    ensures var size := Min(cnt * NODE_SIZE, want); var g := Grow(s, size); var k := |g.state.cells| - |s.cells|;
      && (0 < k ==> Room(s.cells) + NODE_SIZE * (k - 1) < size)
      && (g.ok <==> CanHold(s, size))
      && (if !g.ok then Segments(s, cnt, want) == []
          else g.state.cells != []
               && Total(Segments(s, cnt, want)) ==
                  Min(size, Room(Rot(g.state.cells, g.state.w)[..Min(cnt, |g.state.cells|)])))
  {
    hide Rot, Lend, Grow, U32, AllFit, Used;
    var size := Min(cnt * NODE_SIZE, want);
    AskedIs(cnt, want);
    var g := Grow(s, size);
    GrowAdds(s, size);
    ReservesIff(s, size);
    GrowKeeps(s, size);
    if g.ok {
      WholeLap(g.state);
      LendsRoom(g.state.cells, g.state.w, cnt, size, |g.state.cells|);
    }
  }

  lemma AskedIs(cnt: nat, want: nat)
    requires cnt < MAX_NODES
    ensures Asked(cnt, want) == Min(cnt * NODE_SIZE, want)
  {
  }

  /** A write that is refused has grown the ring to all its 2^20 nodes, and changes nothing that a
      reader sees. */
  lemma RefusedGrows(s: State, data: seq<byte>)
    requires Accounted(s) && !Grow(s, |data|).ok
    ensures var t := Write(s, data);
      && |t.cells| == MAX_NODES && t.used == s.used && Used(t.cells) == Used(s.cells)
      && (Sound(s) ==> Sound(t) && Contents(t) == Contents(s))
  {
    hide Contents, Tidy, Within, Used, Room, AllFit, U32, Put;
    GrowAdds(s, |data|);
    GrowKeeps(s, |data|);
  }
}
