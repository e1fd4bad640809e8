/** The write side of `chaos::Buffer`: lending free tails, committing what landed in
    them, and the copying write. */
module RingWrite {
  import opened Rotation
  import opened Parts
  import opened Ring

  // ------------------------------------------------- bytes laid into free tails

  /** `p` placed at offset `at` of a node's memory. */
  function Poke(c: Cell, at: nat, p: seq<byte>): (d: Cell)
    ensures Alike(c, d)
  {
    if at + |p| <= |c.mem| then c.(mem := c.mem[..at] + p + c.mem[at + |p|..]) else c
  }

  /** The same node up to the bytes in its memory. */
  predicate Alike(c: Cell, d: Cell) { |c.mem| == |d.mem| && c.cursor == d.cursor && c.used == d.used }

  /** `p` placed behind the node's fill count, which grows by its length. */
  function Store(c: Cell, p: seq<byte>): (d: Cell)
    ensures |d.mem| == |c.mem| && d.cursor == c.cursor && d.used == c.used + |p|
  {
    Poke(c, c.used, p).(used := c.used + |p|)
  }

  /** `p` laid into the tails of `cs` in order, without moving any fill count. */
  function Laid(cs: seq<Cell>, p: seq<byte>): (ds: seq<Cell>)
    ensures |ds| == |cs|
  {
    if cs == [] then [] else
    var a := Min(Tail(cs[0]), |p|);
    [Poke(cs[0], cs[0].used, p[..a])] + Laid(cs[1..], p[a..])
  }

  /** `n` bytes behind the fill counts of `cs` declared filled, in order. */
  function Grown(cs: seq<Cell>, n: nat): (ds: seq<Cell>)
    ensures |ds| == |cs|
  {
    if cs == [] then [] else
    var a := Min(Tail(cs[0]), n);
    [cs[0].(used := cs[0].used + a)] + Grown(cs[1..], n - a)
  }

  /** Both at once: `p` appended to the nodes `cs`, each filled before the next. */
  function Spread(cs: seq<Cell>, p: seq<byte>): (ds: seq<Cell>)
    ensures |ds| == |cs|
  {
    if cs == [] then [] else
    var a := Min(Tail(cs[0]), |p|);
    [Store(cs[0], p[..a])] + Spread(cs[1..], p[a..])
  }

  /** Committing exactly the bytes that were laid gives the spread. */
  lemma {:induction false} GrownLaid(cs: seq<Cell>, p: seq<byte>)
    ensures Grown(Laid(cs, p), |p|) == Spread(cs, p)
  {
    hide Poke, Store, Tail;
    if cs != [] {
      var a := Min(Tail(cs[0]), |p|);
      LaidThenGrown(cs[0], p[..a]);
      GrownLaid(cs[1..], p[a..]);
      var laid := Laid(cs, p);
      assert laid[0] == Poke(cs[0], cs[0].used, p[..a]) && laid[1..] == Laid(cs[1..], p[a..]);
    }
  }

  lemma LaidThenGrown(c: Cell, p: seq<byte>)
    ensures var d := Poke(c, c.used, p); Tail(d) == Tail(c) && d.(used := d.used + |p|) == Store(c, p)
  {
  }

  lemma StoreNothing(c: Cell)
    ensures Store(c, []) == c == Poke(c, c.used, [])
  {
    if c.used <= |c.mem| { assert c.mem[..c.used] + [] + c.mem[c.used..] == c.mem; }
  }

  /** Full nodes take nothing. */
  lemma {:induction false} SpreadNothing(cs: seq<Cell>, p: seq<byte>)
    requires p == [] || Room(cs) == 0
    ensures Spread(cs, p) == cs
  {
    if cs != [] {
      assert p[..0] == [] && p[0..] == p;
      StoreNothing(cs[0]);
      SpreadNothing(cs[1..], p);
    }
  }

  lemma SpreadCons(c: Cell, cs: seq<Cell>, p: seq<byte>)
    ensures var a := Min(Tail(c), |p|); Spread([c] + cs, p) == [Store(c, p[..a])] + Spread(cs, p[a..])
  {
    assert ([c] + cs)[1..] == cs;
  }

  /** Bytes that fit the first arc leave the second as it was. */
  lemma {:induction false} SpreadFits(a: seq<Cell>, b: seq<Cell>, p: seq<byte>)
    requires |p| <= Room(a)
    ensures Spread(a + b, p) == Spread(a, p) + b
  {
    if a == [] {
      assert a + b == b;
      SpreadNothing(b, p);
    } else {
      assert (a + b)[0] == a[0] && (a + b)[1..] == a[1..] + b;
      SpreadFits(a[1..], b, p[Min(Tail(a[0]), |p|)..]);
    }
  }

  /** Bytes that overfill the first arc go on to the second. */
  lemma {:induction false} SpreadOver(a: seq<Cell>, b: seq<Cell>, p: seq<byte>)
    requires Room(a) <= |p|
    ensures Spread(a + b, p) == Spread(a, p[..Room(a)]) + Spread(b, p[Room(a)..])
  {
    hide Store, Spread;
    var k := Room(a);
    if a == [] {
      assert a + b == b && p[..0] == [] && p[0..] == p;
      SpreadNothing(a, []);
    } else {
      var m := Tail(a[0]);
      assert a == [a[0]] + a[1..] && a + b == [a[0]] + (a[1..] + b);
      SpreadOver(a[1..], b, p[m..]);
      SpreadCons(a[0], a[1..] + b, p);
      SpreadCons(a[0], a[1..], p[..k]);
      SplitTwice(p, m, k);
    }
  }

  lemma SplitTwice<T>(p: seq<T>, m: nat, k: nat)
    requires m <= k <= |p|
    ensures p[..k][..m] == p[..m] && p[..k][m..] == p[m..][..k - m] && p[m..][k - m..] == p[k..]
  {
  }

  lemma {:induction false} SpreadSums(cs: seq<Cell>, p: seq<byte>)
    requires |p| <= Room(cs)
    ensures Used(Spread(cs, p)) == Used(cs) + |p|
  {
    if cs != [] {
      var a := Min(Tail(cs[0]), |p|);
      SpreadSums(cs[1..], p[a..]);
      UsedCons(Store(cs[0], p[..a]), Spread(cs[1..], p[a..]));
    }
  }

  lemma {:induction false} GrownNothing(cs: seq<Cell>)
    ensures Grown(cs, 0) == cs
  {
    if cs != [] { GrownNothing(cs[1..]); }
  }

  lemma GrownCons(c: Cell, cs: seq<Cell>, n: nat)
    ensures var a := Min(Tail(c), n); Grown([c] + cs, n) == [c.(used := c.used + a)] + Grown(cs, n - a)
  {
    assert ([c] + cs)[1..] == cs;
  }

  lemma {:induction false} GrownFits(a: seq<Cell>, b: seq<Cell>, n: nat)
    requires n <= Room(a)
    ensures Grown(a + b, n) == Grown(a, n) + b
  {
    if a == [] {
      assert a + b == b;
      GrownNothing(b);
    } else {
      assert (a + b)[0] == a[0] && (a + b)[1..] == a[1..] + b;
      GrownFits(a[1..], b, n - Min(Tail(a[0]), n));
    }
  }

  lemma {:induction false} LaidNothing(cs: seq<Cell>)
    ensures Laid(cs, []) == cs
  {
    if cs != [] {
      StoreNothing(cs[0]);
      LaidNothing(cs[1..]);
    }
  }

  lemma LaidCons(c: Cell, cs: seq<Cell>, p: seq<byte>)
    ensures var a := Min(Tail(c), |p|); Laid([c] + cs, p) == [Poke(c, c.used, p[..a])] + Laid(cs, p[a..])
  {
    assert ([c] + cs)[1..] == cs;
  }

  lemma {:induction false} LaidFits(a: seq<Cell>, b: seq<Cell>, p: seq<byte>)
    requires |p| <= Room(a)
    ensures Laid(a + b, p) == Laid(a, p) + b
  {
    if a == [] {
      assert a + b == b;
      LaidNothing(b);
    } else {
      assert (a + b)[0] == a[0] && (a + b)[1..] == a[1..] + b;
      LaidFits(a[1..], b, p[Min(Tail(a[0]), |p|)..]);
    }
  }

  /** The room ahead in a lap, and the room left of it one node on. */
  lemma RoomShrinks(cs: seq<Cell>, i: nat, laps: nat, c: Cell)
    requires i < |cs| && 0 < laps <= |cs|
    ensures Room(Rot(cs, i)[..laps]) == Tail(cs[i]) + Room(Rot(cs[i := c], Next(i, |cs|))[..laps - 1])
  {
    hide Rot, Rest;
    LapPrefix(cs, i, c, laps);
    UsedCons(cs[i], Rest(cs, i)[..laps - 1]);
  }

  lemma RoomPrefix(cs: seq<Cell>, k: nat)
    requires k <= |cs|
    ensures Room(cs[..k]) <= Room(cs)
  {
    SumConcat(cs[..k], cs[k..]);
    assert cs == cs[..k] + cs[k..];
  }

  // ------------------------------------------------- committing: MoveWritePos

  /** How far one iteration of `MoveWritePos` moves the fill count of node `c`. */
  function CommitSize(c: Cell, n: nat): (a: nat) {
    if U32(c.used + n) > |c.mem| then Tail(c) else n
  }

  /** One iteration. The write iterator moves on even from a node that is not full.
      Every sum is a uint32 sum. */
  function CommitOne(s: State, a: nat): (t: State)
    requires Indexed(s) && s.cells != []
    ensures Indexed(t) && |t.cells| == |s.cells| && t.r == s.r
  {
    var c := s.cells[s.w];
    State(s.cells[s.w := c.(used := U32(c.used + a))], s.r, Next(s.w, |s.cells|), U32(s.used + a))
  }

  /** `MoveWritePos(n)` on a request already cut to `LeftSize`, visiting at most `laps` nodes. */
  function Commit(s: State, n: nat, laps: nat): (t: State)
    requires Indexed(s)
    ensures Indexed(t) && |t.cells| == |s.cells| && t.r == s.r
    decreases laps
  {
    if n == 0 || laps == 0 || s.cells == [] then s else
    var a := CommitSize(s.cells[s.w], n);
    Commit(CommitOne(s, a), U32(n - a), laps - 1)
  }

  lemma U32Plus(x: nat, a: nat)
    ensures U32(U32(x) + a) == U32(x + a)
  {
  }

  /** The uint32 arithmetic of one iteration: `u` is the node's fill count, `x` the counter. */
  lemma CommitSums(u: nat, x: nat, sum: nat, n: nat, a: nat)
    requires u <= NODE_SIZE && n < WORD && u <= sum && x == U32(sum)
    requires a == if U32(u + n) > NODE_SIZE then NODE_SIZE - u else n
    ensures a <= n && U32(n - a) == n - a && U32(u + a) <= NODE_SIZE
    ensures U32(x + a) == U32(sum - u + U32(u + a))
    ensures U32(U32(x + a) + (n - a)) == U32(x + n)
    ensures n <= NODE_SIZE - u ==> a == n
    ensures n > NODE_SIZE - u ==> a >= NODE_SIZE - u
  {
    assert a <= n && U32(n - a) == n - a && U32(u + a) <= NODE_SIZE;
    hide U32;
    U32Plus(sum, a);
    U32Plus(x + a, n - a);
    U32Plus(u + a, sum - u);
    assert sum - u + U32(u + a) == U32(u + a) + (sum - u);
  }

  lemma CommitOneKeeps(s: State, n: nat)
    requires Accounted(s) && s.cells != [] && n < WORD
    ensures var a := CommitSize(s.cells[s.w], n); var t := CommitOne(s, a);
      && a <= n && Accounted(t) && U32(n - a) == n - a
      && U32(t.used + (n - a)) == U32(s.used + n)
      && (n <= Tail(s.cells[s.w]) ==> a == n)
      && (n > Tail(s.cells[s.w]) ==> a >= Tail(s.cells[s.w]))
      && t.w == Next(s.w, |s.cells|) && t.cells == s.cells[s.w := t.cells[s.w]]
  {
    hide U32;
    var c := s.cells[s.w];
    var a := CommitSize(c, n);
    UsedSet(s.cells, s.w, Blank());
    CommitSums(c.used, s.used, Used(s.cells), n, a);
    UsedSet(s.cells, s.w, c.(used := U32(c.used + a)));
  }

  lemma CommitNothing(s: State, n: nat, laps: nat)
    requires Indexed(s) && (n == 0 || laps == 0)
    requires laps <= |s.cells| && n <= Room(Rot(s.cells, s.w)[..laps])
    ensures n == 0 && Commit(s, n, laps) == s && (s.cells != [] ==> Grown(Rot(s.cells, s.w), n) == Rot(s.cells, s.w))
  {
    assert laps == 0 ==> Rot(s.cells, s.w)[..laps] == [];
    if s.cells != [] { GrownNothing(Rot(s.cells, s.w)); }
  }

  /** In every accounted state, at the cap of 2^20 nodes too, one lap commits `n` bytes. */
  lemma {:induction false} CommitCounts(s: State, n: nat, laps: nat)
    requires Accounted(s) && s.cells != [] && laps <= |s.cells| && n < WORD
    requires n <= Room(Rot(s.cells, s.w)[..laps])
    ensures var t := Commit(s, n, laps); Accounted(t) && t.used == U32(s.used + n)
    decreases laps
  {
    hide Rot, Rest, CommitOne, CommitSize, AllFit, Room, Used, Tail;
    if n == 0 || laps == 0 {
      CommitNothing(s, n, laps);
    } else {
      var a := CommitSize(s.cells[s.w], n);
      var t := CommitOne(s, a);
      CommitOneKeeps(s, n);
      CommitFits(s, n, laps);
      CommitCounts(t, n - a, laps - 1);
    }
  }

  /** The rest of the request after one iteration still fits the lap. */
  lemma CommitFits(s: State, n: nat, laps: nat)
    requires Accounted(s) && s.cells != [] && 0 < laps <= |s.cells| && n < WORD
    requires n <= Room(Rot(s.cells, s.w)[..laps])
    ensures var a := CommitSize(s.cells[s.w], n); var t := CommitOne(s, a);
      a <= n && n - a <= Room(Rot(t.cells, t.w)[..laps - 1])
  {
    hide Rot, Rest, CommitSize, Used, U32;
    CommitOneKeeps(s, n);
    RoomShrinks(s.cells, s.w, laps, CommitOne(s, CommitSize(s.cells[s.w], n)).cells[s.w]);
  }

  /** Growing a ring whose first node has been dealt with: that node is not reached again. */
  lemma GrownNext(cs: seq<Cell>, i: nat, n: nat, c: Cell, laps: nat)
    requires i < |cs| && 0 < laps <= |cs|
    requires n <= Room(Rot(cs[i := c], Next(i, |cs|))[..laps - 1])
    ensures Grown(Rot(cs[i := c], Next(i, |cs|)), n) == Grown(Rest(cs, i), n) + [c]
  {
    hide Rot, Rest, Grown;
    LapPrefix(cs, i, c, laps);
    RoomPrefix(Rest(cs, i), laps - 1);
    RotSet(cs, i, c);
    GrownFits(Rest(cs, i), [c], n);
  }

  /** A ring grown from its first node on, put together from its pieces. */
  lemma GrowGlue(c: Cell, rest: seq<Cell>, n: nat, after: seq<Cell>, w: nat)
    requires w < |after|
    requires var a := Min(Tail(c), n);
      Rot(after, Next(w, |after|)) == Grown(rest, n - a) + [c.(used := c.used + a)]
    ensures Rot(after, w) == Grown([c] + rest, n)
  {
    hide Rot, Grown;
    var a := Min(Tail(c), n);
    RotBack(after, w, Grown(rest, n - a), c.(used := c.used + a));
    GrownCons(c, rest, n);
  }

  /** When no uint32 sum wraps, each node's fill count grows by what fits it, in ring order. */
  lemma {:induction false} CommitGrows(s: State, n: nat, laps: nat)
    requires Accounted(s) && s.cells != [] && laps <= |s.cells|
    requires n <= Room(Rot(s.cells, s.w)[..laps])
    requires Used(s.cells) + n < WORD
    ensures Rot(Commit(s, n, laps).cells, s.w) == Grown(Rot(s.cells, s.w), n)
    decreases laps
  {
    hide Rot, Rest, Grown, CommitOne, Commit, AllFit, Room, Used, U32, Tail, Min;
    if n == 0 || laps == 0 {
      CommitNothing(s, n, laps);
    } else {
      var a := Min(Tail(s.cells[s.w]), n);
      var t := CommitOne(s, a);
      CommitStep(s, n, laps);
      CommitGrows(t, n - a, laps - 1);
      GrownNext(s.cells, s.w, n - a, t.cells[s.w], laps);
      RotHere(s.cells, s.w);
      GrowGlue(s.cells[s.w], Rest(s.cells, s.w), n, Commit(t, n - a, laps - 1).cells, s.w);
    }
  }

  lemma CommitStep(s: State, n: nat, laps: nat)
    requires Accounted(s) && 0 < laps <= |s.cells| && 0 < n
    requires n <= Room(Rot(s.cells, s.w)[..laps])
    requires Used(s.cells) + n < WORD
    ensures var c := s.cells[s.w]; var a := Min(Tail(c), n); var t := CommitOne(s, a);
      && a <= n && Commit(s, n, laps) == Commit(t, n - a, laps - 1)
      && t.w == Next(s.w, |s.cells|) && t.cells == s.cells[s.w := c.(used := c.used + a)]
      && Accounted(t) && Used(t.cells) == Used(s.cells) + a
      && n - a <= Room(Rot(t.cells, t.w)[..laps - 1])
  {
    hide Rot, Rest, Used, Room;
    var c := s.cells[s.w];
    var a := Min(Tail(c), n);
    UsedSet(s.cells, s.w, Blank());
    UsedSet(s.cells, s.w, c.(used := c.used + a));
    assert CommitSize(c, n) == a;
    CommitOneKeeps(s, n);
    RoomShrinks(s.cells, s.w, laps, c.(used := c.used + a));
  }

  // ------------------------------------------------- lending: GetWriteBuffer, readv

  /** A segment handed to the kernel: a node (by list index), an offset, a length. */
  datatype Seg = Seg(cell: nat, off: nat, len: nat)

  function Total(segs: seq<Seg>): nat {
    if segs == [] then 0 else segs[0].len + Total(segs[1..])
  }

  /** The segments `GetWriteBuffer` fills in, starting at node `i`. */
  function Lend(cells: seq<Cell>, i: nat, cnt: nat, size: nat): seq<Seg>
    requires cells == [] || i < |cells|
    decreases cnt
  {
    if cnt == 0 || size == 0 || cells == [] then [] else
    var len := Min(Tail(cells[i]), size);
    [Seg(i, cells[i].used, len)] + Lend(cells, Next(i, |cells|), cnt - 1, size - len)
  }

  /** The segment starts at node `k`'s fill count and stays inside the node. */
  predicate FreeTail(cells: seq<Cell>, seg: Seg, k: nat) {
    seg.cell == k < |cells| && seg.off == cells[k].used && seg.off + seg.len <= |cells[k].mem|
  }

  /** Lending goes round the ring and never comes back to a node, every segment is a
      free tail, and with enough segments the whole request is covered. */
  lemma {:induction false} LendsOnce(cells: seq<Cell>, i: nat, cnt: nat, size: nat, laps: nat)
    requires AllFit(cells) && i < |cells| && laps <= |cells|
    requires size <= Room(Rot(cells, i)[..laps])
    ensures var segs := Lend(cells, i, cnt, size);
      && |segs| <= laps && |segs| <= cnt
      && Total(segs) <= size
      && (cnt >= laps ==> Total(segs) == size)
      && forall j | 0 <= j < |segs| :: FreeTail(cells, segs[j], Ahead(i, j, |cells|))
    decreases cnt
  {
    hide Rot, AllFit, FreeTail;
    if laps == 0 {
      assert Rot(cells, i)[..laps] == [];
    } else if cnt != 0 && size != 0 {
      var next, len := Next(i, |cells|), Min(Tail(cells[i]), size);
      RoomShrinks(cells, i, laps, cells[i]);
      assert cells[i := cells[i]] == cells;
      LendsOnce(cells, next, cnt - 1, size - len, laps - 1);
      var rest := Lend(cells, next, cnt - 1, size - len);
      assert ([Seg(i, cells[i].used, len)] + rest)[1..] == rest;
      LendPlaces(cells, i, len, rest);
    }
  }

  lemma LendPlaces(cells: seq<Cell>, i: nat, len: nat, rest: seq<Seg>)
    requires i < |cells| && len <= Tail(cells[i]) && |rest| < |cells|
    requires AllFit(cells) && forall j | 0 <= j < |rest| :: FreeTail(cells, rest[j], Ahead(Next(i, |cells|), j, |cells|))
    ensures var segs := [Seg(i, cells[i].used, len)] + rest;
      forall j | 0 <= j < |segs| :: FreeTail(cells, segs[j], Ahead(i, j, |cells|))
  {
    var segs, next := [Seg(i, cells[i].used, len)] + rest, Next(i, |cells|);
    forall j | 0 <= j < |segs| ensures FreeTail(cells, segs[j], Ahead(i, j, |cells|)) {
      if j > 0 {
        assert segs[j] == rest[j - 1] && Ahead(i, j, |cells|) == Ahead(next, j - 1, |cells|);
        assert FreeTail(cells, rest[j - 1], Ahead(next, j - 1, |cells|));
      }
    }
  }

  predicate OnList(cells: seq<Cell>, segs: seq<Seg>) {
    forall j | 0 <= j < |segs| :: segs[j].cell < |cells|
  }

  /** `readv`: `p` laid into the segments in order, each filled before the next. */
  function Readv(cells: seq<Cell>, segs: seq<Seg>, p: seq<byte>): (ds: seq<Cell>)
    requires OnList(cells, segs)
    ensures |ds| == |cells|
    ensures forall j | 0 <= j < |cells| :: Alike(ds[j], cells[j])
    decreases |segs|
  {
    if segs == [] then cells else
    var a := Min(segs[0].len, |p|);
    var i := segs[0].cell;
    Readv(cells[i := Poke(cells[i], segs[0].off, p[..a])], segs[1..], p[a..])
  }

  lemma {:induction false} LendByCounts(cells: seq<Cell>, ds: seq<Cell>, i: nat, cnt: nat, size: nat)
    requires |cells| == |ds| && (cells == [] || i < |cells|)
    requires forall j | 0 <= j < |cells| :: Alike(ds[j], cells[j])
    ensures Lend(cells, i, cnt, size) == Lend(ds, i, cnt, size)
    decreases cnt
  {
    if cnt != 0 && size != 0 && cells != [] {
      LendByCounts(cells, ds, Next(i, |cells|), cnt - 1, size - Min(Tail(cells[i]), size));
    }
  }

  lemma {:induction false} LendOnList(cells: seq<Cell>, i: nat, cnt: nat, size: nat)
    requires cells == [] || i < |cells|
    ensures OnList(cells, Lend(cells, i, cnt, size))
    decreases cnt
  {
    if cnt != 0 && size != 0 && cells != [] {
      LendOnList(cells, Next(i, |cells|), cnt - 1, size - Min(Tail(cells[i]), size));
    }
  }

  /** Laying bytes into a ring whose first node has been dealt with. */
  lemma LaidNext(cs: seq<Cell>, i: nat, p: seq<byte>, c: Cell, laps: nat)
    requires i < |cs| && 0 < laps <= |cs|
    requires |p| <= Room(Rot(cs[i := c], Next(i, |cs|))[..laps - 1])
    ensures Laid(Rot(cs[i := c], Next(i, |cs|)), p) == Laid(Rest(cs, i), p) + [c]
  {
    hide Rot, Rest, Laid;
    LapPrefix(cs, i, c, laps);
    RoomPrefix(Rest(cs, i), laps - 1);
    RotSet(cs, i, c);
    LaidFits(Rest(cs, i), [c], p);
  }

  lemma LaidGlue(c: Cell, rest: seq<Cell>, p: seq<byte>, after: seq<Cell>, w: nat)
    requires w < |after|
    requires var a := Min(Tail(c), |p|);
      Rot(after, Next(w, |after|)) == Laid(rest, p[a..]) + [Poke(c, c.used, p[..a])]
    ensures Rot(after, w) == Laid([c] + rest, p)
  {
    hide Rot, Laid, Poke;
    var a := Min(Tail(c), |p|);
    RotBack(after, w, Laid(rest, p[a..]), Poke(c, c.used, p[..a]));
    LaidCons(c, rest, p);
  }

  /** What `readv` puts into lent segments lands in the free tails, in ring order. */
  lemma {:induction false} ReadvLays(cells: seq<Cell>, w: nat, cnt: nat, size: nat, p: seq<byte>, laps: nat)
    requires AllFit(cells) && w < |cells| && laps <= |cells|
    requires size <= Room(Rot(cells, w)[..laps])
    requires |p| <= Total(Lend(cells, w, cnt, size))
    ensures OnList(cells, Lend(cells, w, cnt, size)) && |p| <= size
    ensures Rot(Readv(cells, Lend(cells, w, cnt, size), p), w) == Laid(Rot(cells, w), p)
    decreases cnt
  {
    hide Rot, Rest, Laid, Poke, Lend, Readv, Total, Room, AllFit, OnList, Tail;
    LendOnList(cells, w, cnt, size);
    LendsOnce(cells, w, cnt, size, laps);
    if cnt == 0 || size == 0 {
      LendNothing(cells, w, cnt, size, p);
    } else {
      var c := cells[w];
      var a := Min(Tail(c), |p|);
      var ds := cells[w := Poke(c, c.used, p[..a])];
      var next, left := Next(w, |cells|), size - Min(Tail(c), size);
      LendStep(cells, w, cnt, size, p, laps);
      LendRest(cells, w, cnt, size, p, laps);
      ReadvLays(ds, next, cnt - 1, left, p[a..], laps - 1);
      LaidNext(cells, w, p[a..], ds[w], laps);
      RotHere(cells, w);
      LaidGlue(c, Rest(cells, w), p, Readv(ds, Lend(ds, next, cnt - 1, left), p[a..]), w);
    }
  }

  lemma LendNothing(cells: seq<Cell>, w: nat, cnt: nat, size: nat, p: seq<byte>)
    requires w < |cells| && (cnt == 0 || size == 0) && |p| <= Total(Lend(cells, w, cnt, size))
    ensures Readv(cells, Lend(cells, w, cnt, size), p) == cells && Laid(Rot(cells, w), p) == Rot(cells, w)
  {
    LaidNothing(Rot(cells, w));
  }

  /** The rest of the request after the first segment still fits the lap. */
  lemma LendRest(cells: seq<Cell>, w: nat, cnt: nat, size: nat, p: seq<byte>, laps: nat)
    requires AllFit(cells) && w < |cells| && laps <= |cells| && 0 < cnt && 0 < size
    requires size <= Room(Rot(cells, w)[..laps])
    requires |p| <= Total(Lend(cells, w, cnt, size))
    ensures 0 < laps
    ensures var c := cells[w]; var a := Min(Tail(c), |p|); var left := size - Min(Tail(c), size);
      var ds := cells[w := Poke(c, c.used, p[..a])]; var next := Next(w, |cells|);
      && AllFit(ds)
      && left <= Room(Rot(ds, next)[..laps - 1])
      && |p[a..]| <= left
      && ds[w] == Poke(c, c.used, p[..a])
  {
    hide Rot, Poke, Lend, Total;
    var c := cells[w];
    LendsOnce(cells, w, cnt, size, laps);
    RoomShrinks(cells, w, laps, Poke(c, c.used, p[..Min(Tail(c), |p|)]));
  }

  /** What lending and `readv` do after the first segment. */
  lemma LendStep(cells: seq<Cell>, w: nat, cnt: nat, size: nat, p: seq<byte>, laps: nat)
    requires w < |cells| && 0 < cnt && 0 < size
    requires |p| <= Total(Lend(cells, w, cnt, size)) && |p| <= size
    requires OnList(cells, Lend(cells, w, cnt, size))
    ensures var c := cells[w]; var a := Min(Tail(c), |p|); var left := size - Min(Tail(c), size);
      var ds := cells[w := Poke(c, c.used, p[..a])]; var next := Next(w, |cells|);
      && a <= |p| && 0 <= left
      && |p[a..]| <= Total(Lend(ds, next, cnt - 1, left))
      && OnList(ds, Lend(ds, next, cnt - 1, left))
      && Readv(cells, Lend(cells, w, cnt, size), p) == Readv(ds, Lend(ds, next, cnt - 1, left), p[a..])
  {
    hide Poke;
    var c := cells[w];
    var a := Min(Tail(c), |p|);
    var ds := cells[w := Poke(c, c.used, p[..a])];
    var next, left := Next(w, |cells|), size - Min(Tail(c), size);
    var segs := Lend(cells, w, cnt, size);
    LendByCounts(cells, ds, next, cnt - 1, left);
    LendOnList(ds, next, cnt - 1, left);
    assert segs[0] == Seg(w, c.used, size - left) && segs[1..] == Lend(ds, next, cnt - 1, left);
  }

  // ------------------------------------------------- the copying write

  /** The node one iteration of the copying write fills: the next one when the write node is full. */
  function PutAt(s: State): (w: nat)
    requires Indexed(s) && s.cells != []
    ensures w < |s.cells|
  {
    if Tail(s.cells[s.w]) == 0 then Next(s.w, |s.cells|) else s.w
  }

  /** One iteration: a prefix of `data` goes to that node. */
  function PutOne(s: State, data: seq<byte>, a: nat): (t: State)
    requires Indexed(s) && s.cells != [] && a <= |data|
    ensures Indexed(t) && |t.cells| == |s.cells| && t.r == s.r && t.used == s.used
  {
    s.(w := PutAt(s), cells := s.cells[PutAt(s) := Store(s.cells[PutAt(s)], data[..a])])
  }

  /** `left` bytes copied from `data`, node by node, visiting at most `laps` nodes. The
      source pointer does not advance, so every node is given a prefix of `data`. */
  function Put(s: State, data: seq<byte>, left: nat, laps: nat): (t: State)
    requires Indexed(s) && left <= |data|
    ensures Indexed(t) && |t.cells| == |s.cells| && t.r == s.r && t.used == s.used
    decreases laps
  {
    if left == 0 || laps == 0 || s.cells == [] then s else
    var a := Min(Tail(s.cells[PutAt(s)]), left);
    Put(PutOne(s, data, a), data, left - a, laps - 1)
  }

  /** What such a write amounts to, had it been one stream: a prefix of `data` per node. */
  function Stutter(cs: seq<Cell>, data: seq<byte>, left: nat): (p: seq<byte>)
    requires left <= |data|
    ensures |p| == Min(left, Room(cs))
  {
    if cs == [] then [] else
    var a := Min(Tail(cs[0]), left);
    data[..a] + Stutter(cs[1..], data, left - a)
  }

  /** How far a lap of the copying write reaches: a full start node costs one step. */
  predicate PutReaches(cells: seq<Cell>, w: nat, left: nat, laps: nat)
    requires w < |cells|
  {
    if Tail(cells[w]) == 0 then laps <= |cells| && left <= Room(Rot(cells, w)[..laps])
    else 0 < laps <= |cells| + 1 && left <= Room(Rot(cells, w)[..laps - 1])
  }

  lemma {:induction false} StutterNothing(cs: seq<Cell>, data: seq<byte>)
    ensures Stutter(cs, data, 0) == []
  {
  }

  lemma StutterCons(c: Cell, cs: seq<Cell>, data: seq<byte>, left: nat)
    requires left <= |data|
    ensures var a := Min(Tail(c), left); Stutter([c] + cs, data, left) == data[..a] + Stutter(cs, data, left - a)
  {
    var ds := [c] + cs;
    assert ds != [] && ds[0] == c && ds[1..] == cs;
  }

  lemma {:induction false} StutterFits(a: seq<Cell>, b: seq<Cell>, data: seq<byte>, left: nat)
    requires left <= |data| && left <= Room(a)
    ensures Stutter(a + b, data, left) == Stutter(a, data, left)
  {
    if a == [] {
      assert a + b == b;
    } else {
      assert a == [a[0]] + a[1..] && a + b == [a[0]] + (a[1..] + b);
      StutterCons(a[0], a[1..] + b, data, left);
      StutterFits(a[1..], b, data, left - Min(Tail(a[0]), left));
    }
  }

  /** The nodes `cs` after a copying write that starts in the first of them. */
  function Copied(cs: seq<Cell>, data: seq<byte>, left: nat): (ds: seq<Cell>)
    requires left <= |data|
    ensures |ds| == |cs|
  {
    Spread(cs, Stutter(cs, data, left))
  }

  lemma CopiedFull(c: Cell, cs: seq<Cell>, data: seq<byte>, left: nat)
    requires left <= |data| && Tail(c) == 0
    ensures Copied([c] + cs, data, left) == [c] + Copied(cs, data, left)
  {
    hide Spread, Stutter;
    StutterCons(c, cs, data, left);
    var q := Stutter(cs, data, left);
    assert data[..0] + q == q && q[..0] == [] && q[0..] == q;
    SpreadCons(c, cs, q);
    StoreNothing(c);
  }

  lemma CopiedFirst(c: Cell, cs: seq<Cell>, data: seq<byte>, left: nat)
    requires left <= |data| && 0 < Tail(c)
    ensures var a := Min(Tail(c), left);
      Copied([c] + cs, data, left) == [Store(c, data[..a])] + Copied(cs, data, left - a)
  {
    hide Spread, Store;
    StutterCons(c, cs, data, left);
    var a := Min(Tail(c), left);
    var q := Stutter(cs, data, left - a);
    SpreadCons(c, cs, data[..a] + q);
    assert Min(Tail(c), a + |q|) == a && (data[..a] + q)[..a] == data[..a] && (data[..a] + q)[a..] == q;
  }

  lemma CopiedFits(a: seq<Cell>, b: seq<Cell>, data: seq<byte>, left: nat)
    requires left <= |data| && left <= Room(a)
    ensures Copied(a + b, data, left) == Copied(a, data, left) + b
  {
    hide Spread, Stutter;
    StutterFits(a, b, data, left);
    SpreadFits(a, b, Stutter(a, data, left));
  }

  lemma CopiedNothing(cs: seq<Cell>, data: seq<byte>)
    ensures Copied(cs, data, 0) == cs
  {
    StutterNothing(cs, data);
    SpreadNothing(cs, []);
  }

  /** The copying write, in one lap: it fills the nodes of the ring from the write node
      on, each before the next, with the stream that its fixed source pointer yields. */
  lemma {:induction false} PutCopies(s: State, data: seq<byte>, left: nat, laps: nat)
    requires Indexed(s) && s.cells != [] && left <= |data| && PutReaches(s.cells, s.w, left, laps)
    ensures Rot(Put(s, data, left, laps).cells, s.w) == Copied(Rot(s.cells, s.w), data, left)
    decreases laps, Tail(s.cells[s.w]) == 0
  {
    hide Rot, Rest, Copied, Tail, Store, Room, Put, PutReaches;
    var c := s.cells[s.w];
    if left == 0 {
      PutNothing(s, data, laps);
      CopiedNothing(Rot(s.cells, s.w), data);
    } else if Tail(c) == 0 {
      PutPasses(s, data, left, laps);
      var t := s.(w := Next(s.w, |s.cells|));
      var laps' := if Tail(t.cells[t.w]) == 0 then laps - 1 else laps;
      PutCopies(t, data, left, laps');
      PutGlue(s, data, left, Put(t, data, left, laps').cells, laps);
    } else {
      PutFills(s, data, left, laps);
      var a := Min(Tail(c), left);
      var c' := Store(c, data[..a]);
      var t := s.(cells := s.cells[s.w := c']);
      RotHere(s.cells, s.w);
      RotSet(s.cells, s.w, c');
      CopiedFirst(c, Rest(s.cells, s.w), data, left);
      if left == a {
        PutNothing(t, data, laps - 1);
        CopiedNothing(Rest(s.cells, s.w), data);
      } else {
        PutCopies(t, data, left - a, laps - 1);
        CopiedFull(c', Rest(s.cells, s.w), data, left - a);
      }
    }
  }

  lemma PutNothing(s: State, data: seq<byte>, laps: nat)
    requires Indexed(s)
    ensures Put(s, data, 0, laps) == s
  {
  }

  /** A full write node is passed, and the next one is written in the same iteration. */
  lemma PutPasses(s: State, data: seq<byte>, left: nat, laps: nat)
    requires Indexed(s) && s.cells != [] && 0 < left <= |data| && PutReaches(s.cells, s.w, left, laps)
    requires Tail(s.cells[s.w]) == 0
    ensures 0 < laps
    ensures var t := s.(w := Next(s.w, |s.cells|));
      var laps' := if Tail(t.cells[t.w]) == 0 then laps - 1 else laps;
      && Put(s, data, left, laps) == Put(t, data, left, laps')
      && PutReaches(t.cells, t.w, left, laps')
  {
    hide Rot;
    var t := s.(w := Next(s.w, |s.cells|));
    RoomShrinks(s.cells, s.w, laps, s.cells[s.w]);
    assert s.cells[s.w := s.cells[s.w]] == s.cells;
    if Tail(t.cells[t.w]) == 0 {
      StoreNothing(t.cells[t.w]);
      assert data[..0] == [];
      assert s.cells[t.w := t.cells[t.w]] == s.cells;
    }
  }

  lemma PutFills(s: State, data: seq<byte>, left: nat, laps: nat)
    requires Indexed(s) && s.cells != [] && 0 < left <= |data| && PutReaches(s.cells, s.w, left, laps)
    requires 0 < Tail(s.cells[s.w])
    ensures 0 < laps
    ensures var c := s.cells[s.w]; var a := Min(Tail(c), left);
      var c' := Store(c, data[..a]); var t := s.(cells := s.cells[s.w := c']);
      && Put(s, data, left, laps) == Put(t, data, left - a, laps - 1)
      && (a < left ==> Tail(c') == 0 && PutReaches(t.cells, t.w, left - a, laps - 1))
  {
    hide Rot, Rest;
    var c := s.cells[s.w];
    var a := Min(Tail(c), left);
    var c' := Store(c, data[..a]);
    if a < left {
      RoomShrinks(s.cells, s.w, laps - 1, c);
      RoomShrinks(s.cells[s.w := c'], s.w, laps - 1, c);
      assert s.cells[s.w := c'][s.w := c] == s.cells[s.w := c];
    }
  }

  lemma PutGlue(s: State, data: seq<byte>, left: nat, after: seq<Cell>, laps: nat)
    requires Indexed(s) && s.cells != [] && left <= |data| && PutReaches(s.cells, s.w, left, laps)
    requires 0 < laps && Tail(s.cells[s.w]) == 0 && |after| == |s.cells|
    requires var next := Next(s.w, |s.cells|);
      Rot(after, next) == Copied(Rot(s.cells, next), data, left)
    ensures Rot(after, s.w) == Copied(Rot(s.cells, s.w), data, left)
  {
    hide Rot, Rest, Copied;
    var c, rest := s.cells[s.w], Rest(s.cells, s.w);
    RotHere(s.cells, s.w);
    LapPrefix(s.cells, s.w, c, laps);
    UsedCons(c, rest[..laps - 1]);
    RoomPrefix(rest, laps - 1);
    CopiedFits(rest, [c], data, left);
    RotBack(after, s.w, Copied(rest, data, left), c);
    CopiedFull(c, rest, data, left);
  }

  /** One iteration of the copying write: there is an iteration left in the lap, and what
      is still to be written fits the rest of it. */
  lemma PutGoesOn(s: State, data: seq<byte>, left: nat, laps: nat)
    requires Indexed(s) && s.cells != [] && 0 < left <= |data| && PutReaches(s.cells, s.w, left, laps)
    ensures 0 < laps
    ensures var a := Min(Tail(s.cells[PutAt(s)]), left); var t := PutOne(s, data, a);
      && Put(s, data, left, laps) == Put(t, data, left - a, laps - 1)
      && (a < left ==> PutReaches(t.cells, t.w, left - a, laps - 1))
  {
    hide Rot, Store, PutReaches;
    if Tail(s.cells[s.w]) == 0 {
      PutPasses(s, data, left, laps);
      var t := s.(w := Next(s.w, |s.cells|));
      if Tail(t.cells[t.w]) == 0 {
        StoreNothing(t.cells[t.w]);
        assert data[..0] == [] && t.cells[t.w := t.cells[t.w]] == t.cells;
      } else {
        PutFills(t, data, left, laps);
      }
    } else {
      PutFills(s, data, left, laps);
    }
  }
}
