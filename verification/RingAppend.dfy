/** When bytes written into the ring are appended to what a reader will see: exactly
    when the ring from the write node on is ready for them. */
module RingAppend {
  import opened Rotation
  import opened Parts
  import opened Ring
  import opened RingWrite

  /** The arc of the ring before the write node, read node first. */
  function Front(s: State): (f: seq<Cell>)
    requires Indexed(s) && s.cells != []
    ensures |f| == Steps(s.r, s.w, |s.cells|)
  {
    Rot(s.cells, s.r)[..Steps(s.r, s.w, |s.cells|)]
  }

  /** The arc of the ring from the write node up to, not including, the read node; the
      whole ring when they are the same node. */
  function Back(s: State): (b: seq<Cell>)
    requires Indexed(s) && s.cells != []
    ensures |b| == |s.cells| - Steps(s.r, s.w, |s.cells|)
  {
    Rot(s.cells, s.r)[Steps(s.r, s.w, |s.cells|)..]
  }

  lemma Arcs(s: State)
    requires Indexed(s) && s.cells != []
    ensures Rot(s.cells, s.r) == Front(s) + Back(s)
    ensures Rot(s.cells, s.w) == Back(s) + Front(s)
  {
    hide Rot;
    RotArcs(s.cells, s.r, s.w);
  }

  /** After some full nodes comes a node whose read offset is at its start, and after
      that node only empty ones. */
  predicate Ready(cs: seq<Cell>) {
    cs == [] ||
    if Tail(cs[0]) == 0 then Ready(cs[1..]) else cs[0].cursor == 0 && AllEmpty(cs[1..])
  }

  /** The condition under which `n` bytes written next are appended. */
  predicate Appends(s: State, n: nat)
    requires Indexed(s) && s.cells != []
  {
    n <= Room(Back(s)) && Ready(Back(s)) && s.used + n < WORD
  }

  /** `t` is `s` with `p` landed in the free tails from the write node on. */
  predicate Landed(s: State, t: State, p: seq<byte>)
    requires Indexed(s) && s.cells != []
  {
    && Indexed(t) && |t.cells| == |s.cells| && t.r == s.r
    && t.used == U32(s.used + |p|)
    && Rot(t.cells, s.w) == Spread(Rot(s.cells, s.w), p)
  }

  /** The reader of `t` sees what the reader of `s` saw, then `p`. */
  predicate Appended(s: State, t: State, p: seq<byte>)
    requires Indexed(s) && Indexed(t)
  {
    Contents(t) == Contents(s) + p && t.used == s.used + |p|
  }

  // ------------------------------------------------- the condition suffices

  predicate Reset(cs: seq<Cell>) {
    forall i | 0 <= i < |cs| :: cs[i].used == 0 ==> cs[i].cursor == 0
  }

  lemma DataStore(c: Cell, p: seq<byte>)
    requires c.cursor == 0 && |p| <= Tail(c) && c.used <= |c.mem|
    ensures Data(Store(c, p)) == Data(c) + p
    ensures Store(c, p).cursor + Store(c, p).used <= |Store(c, p).mem|
  {
    var m := c.mem[..c.used] + p + c.mem[c.used + |p|..];
    assert m[..c.used + |p|] == c.mem[..c.used] + p;
  }

  lemma {:induction false} SpreadEmpty(cs: seq<Cell>, p: seq<byte>)
    requires AllEmpty(cs) && Reset(cs) && |p| <= Room(cs)
    ensures Flat(Spread(cs, p)) == p && Within(Spread(cs, p))
  {
    hide Flat, Data, Store;
    if cs == [] {
      EmptyIsFlat(cs);
    } else {
      var a := Min(Tail(cs[0]), |p|);
      SpreadEmpty(cs[1..], p[a..]);
      DataStore(cs[0], p[..a]);
      DataEmpty(cs[0]);
      FlatCons(Store(cs[0], p[..a]), Spread(cs[1..], p[a..]));
      assert [] + p[..a] == p[..a] && p[..a] + p[a..] == p;
    }
  }

  lemma DataEmpty(c: Cell)
    requires c.used == 0
    ensures Data(c) == []
  {
  }

  lemma {:induction false} SpreadReady(cs: seq<Cell>, p: seq<byte>)
    requires Within(cs) && Ready(cs) && Reset(cs) && |p| <= Room(cs)
    ensures Flat(Spread(cs, p)) == Flat(cs) + p && Within(Spread(cs, p))
  {
    hide Flat, Data, Store;
    if cs == [] {
      EmptyIsFlat(cs);
    } else {
      var c, rest := cs[0], cs[1..];
      assert cs == [c] + rest;
      FlatCons(c, rest);
      var a := Min(Tail(c), |p|);
      FlatCons(Store(c, p[..a]), Spread(rest, p[a..]));
      if Tail(c) == 0 {
        assert p[..a] == [] && p[a..] == p;
        StoreNothing(c);
        SpreadReady(rest, p);
        Associate(Data(c), Flat(rest), p);
      } else {
        DataStore(c, p[..a]);
        SpreadEmpty(rest, p[a..]);
        EmptyIsFlat(rest);
        Associate(Data(c), p[..a], p[a..]);
        assert p[..a] + p[a..] == p && Data(c) + [] == Data(c);
      }
    }
  }

  /** The ring of `t` from the read node, when `p` fits the arc up to the read node. */
  lemma LandedAhead(s: State, t: State, p: seq<byte>)
    requires Indexed(s) && s.cells != [] && Landed(s, t, p) && |p| <= Room(Back(s))
    ensures Rot(t.cells, t.r) == Front(s) + Spread(Back(s), p)
  {
    hide Rot, Front, Back;
    Arcs(s);
    SpreadFits(Back(s), Front(s), p);
    ArcsBack(t.cells, s.r, s.w, Spread(Back(s), p), Front(s));
  }

  lemma ArcsBack(cs: seq<Cell>, r: nat, w: nat, b: seq<Cell>, f: seq<Cell>)
    requires r < |cs| && w < |cs| && Rot(cs, w) == b + f && |f| == Steps(r, w, |cs|)
    ensures Rot(cs, r) == f + b
  {
    hide Rot;
    var d := Steps(r, w, |cs|);
    RotArcs(cs, r, w);
    var ring := Rot(cs, r);
    assert b == (b + f)[..|b|] == (ring[d..] + ring[..d])[..|b|] == ring[d..];
    assert f == (b + f)[|b|..] == (ring[d..] + ring[..d])[|b|..] == ring[..d];
  }

  // ------------------------------------------------- what landing keeps

  /** A node with more bytes in it: same memory size, same read offset, and still no
      fuller than its memory. */
  predicate Fuller(c: Cell, d: Cell) {
    && |d.mem| == |c.mem| && d.cursor == c.cursor && c.used <= d.used
    && (c.used <= |c.mem| ==> d.used <= |d.mem|)
  }

  lemma {:induction false} SpreadFuller(cs: seq<Cell>, p: seq<byte>)
    ensures forall i | 0 <= i < |cs| :: Fuller(cs[i], Spread(cs, p)[i])
  {
    if cs != [] {
      SpreadFuller(cs[1..], p[Min(Tail(cs[0]), |p|)..]);
    }
  }

  lemma RotAt<T>(s: seq<T>, i: nat, j: nat)
    requires i < |s| && j < |s|
    ensures Rot(s, i)[Steps(i, j, |s|)] == s[j]
  {
  }

  lemma LandedFuller(s: State, t: State, p: seq<byte>)
    requires Indexed(s) && s.cells != [] && Landed(s, t, p)
    ensures forall j | 0 <= j < |s.cells| :: Fuller(s.cells[j], t.cells[j])
  {
    hide Rot, Spread, Fuller;
    SpreadFuller(Rot(s.cells, s.w), p);
    forall j | 0 <= j < |s.cells| ensures Fuller(s.cells[j], t.cells[j]) {
      RotAt(s.cells, s.w, j);
      RotAt(t.cells, s.w, j);
      assert Fuller(Rot(s.cells, s.w)[Steps(s.w, j, |s.cells|)], Rot(t.cells, s.w)[Steps(s.w, j, |s.cells|)]);
    }
  }

  lemma LandedSums(s: State, t: State, p: seq<byte>)
    requires Indexed(s) && s.cells != [] && Landed(s, t, p) && |p| <= Room(s.cells)
    ensures Used(t.cells) == Used(s.cells) + |p|
  {
    hide Rot, Spread;
    RotSums(s.cells, s.w);
    RotSums(t.cells, s.w);
    SpreadSums(Rot(s.cells, s.w), p);
  }

  lemma LandedKeeps(s: State, t: State, p: seq<byte>)
    requires Accounted(s) && s.cells != [] && Landed(s, t, p) && |p| <= Room(s.cells)
    ensures Accounted(t)
    ensures Tidy(s) && p != [] ==> Tidy(t)
  {
    hide Rot, Spread, U32;
    LandedSums(s, t, p);
    LandedFuller(s, t, p);
    U32Plus(Used(s.cells), |p|);
  }

  lemma WithinRot(cs: seq<Cell>, i: nat)
    requires i < |cs|
    ensures Within(Rot(cs, i)) <==> Within(cs)
    ensures Reset(cs) ==> Reset(Rot(cs, i))
  {
    forall j | 0 <= j < |cs| && Within(Rot(cs, i)) ensures cs[j].cursor + cs[j].used <= |cs[j].mem| {
      RotAt(cs, i, j);
    }
  }

  lemma ContentsArcs(s: State)
    requires Sound(s) && s.cells != []
    ensures Contents(s) == Flat(Front(s)) + Flat(Back(s))
    ensures Within(Front(s)) && Within(Back(s)) && Reset(Front(s)) && Reset(Back(s))
    ensures Room(Front(s)) + Room(Back(s)) == Room(s.cells)
  {
    hide Rot, Flat;
    Arcs(s);
    FlatConcat(Front(s), Back(s));
    WithinRot(s.cells, s.r);
    RotSums(s.cells, s.r);
    SumConcat(Front(s), Back(s));
    assert Head(s.cells[s.r]) == [];
    assert forall i | 0 <= i < |Front(s)| :: Front(s)[i] == Rot(s.cells, s.r)[i];
    assert forall i | 0 <= i < |Back(s)| :: Back(s)[i] == Rot(s.cells, s.r)[i + |Front(s)|];
  }

  /** Bytes landing on a ready arc are appended, and the ring stays sound. */
  lemma AppendsInOrder(s: State, t: State, p: seq<byte>)
    requires Sound(s) && s.cells != [] && Landed(s, t, p) && p != [] && Appends(s, |p|)
    ensures Sound(t) && Appended(s, t, p)
  {
    hide Rot, Flat, Front, Back, Spread, Ready;
    var f, b := Front(s), Back(s);
    ContentsArcs(s);
    LandedKeeps(s, t, p);
    LandedAhead(s, t, p);
    SpreadReady(b, p);
    FlatConcat(f, Spread(b, p));
    assert Within(f + Spread(b, p));
    WithinRot(t.cells, t.r);
    assert Head(t.cells[t.r]) == [];
    Associate(Flat(f), Flat(b), p);
  }

  // ------------------------------------------------- the condition is necessary

  /** The list whose ring from index `w` is `ring`. */
  function Unrot<T>(ring: seq<T>, w: nat): (cs: seq<T>)
    requires w < |ring|
    ensures |cs| == |ring| && Rot(cs, w) == ring
  {
    seq(|ring|, j requires 0 <= j < |ring| => ring[Steps(w, j, |ring|)])
  }

  /** The state after `p` has landed (its write iterator aside). */
  function After(s: State, p: seq<byte>): (t: State)
    requires Indexed(s) && s.cells != []
    ensures Landed(s, t, p)
  {
    State(Unrot(Spread(Rot(s.cells, s.w), p), s.w), s.r, s.w, U32(s.used + |p|))
  }

  /** What the reader sees does not depend on where the write iterator ends up. */
  lemma LandedContents(s: State, t: State, p: seq<byte>)
    requires Indexed(s) && s.cells != [] && Landed(s, t, p)
    ensures Contents(t) == Contents(After(s, p)) && t.used == After(s, p).used
  {
    hide Rot, Spread;
    RotInjective(t.cells, After(s, p).cells, s.w);
  }

  lemma LandedAround(s: State, t: State, p: seq<byte>)
    requires Indexed(s) && s.cells != [] && Landed(s, t, p) && Room(Back(s)) <= |p|
    ensures var k := Room(Back(s));
      Rot(t.cells, t.r) == Spread(Front(s), p[k..]) + Spread(Back(s), p[..k])
  {
    hide Rot, Front, Back;
    var k := Room(Back(s));
    Arcs(s);
    SpreadOver(Back(s), Front(s), p);
    ArcsBack(t.cells, s.r, s.w, Spread(Back(s), p[..k]), Spread(Front(s), p[k..]));
  }

  /** `n` zeros, or `n - 1` zeros and a one. */
  function Probe(n: nat, last: bool): (p: seq<byte>)
    ensures |p| == n
  {
    seq(n, i => if last && i == n - 1 then 1 else 0)
  }

  /** Two parts of the two probes agree when they stop short of the last byte. */
  lemma ProbesAgree(n: nat, i: nat, j: nat)
    requires i <= j < n
    ensures Probe(n, false)[i..j] == Probe(n, true)[i..j]
    ensures Probe(n, false)[..j] == Probe(n, true)[..j]
  {
  }

  /** If the reader sees the same last byte whichever probe has landed, one of the two
      was not appended. */
  lemma ProbesTell(s: State, n: nat)
    requires Indexed(s) && s.cells != [] && 0 < n
    requires var x, y := Contents(After(s, Probe(n, false))), Contents(After(s, Probe(n, true)));
      x != [] && y != [] && x[|x| - 1] == y[|y| - 1]
    ensures exists p :: |p| == n && !Appended(s, After(s, p), p)
  {
    hide Rot, Spread, Contents, After;
    var c := Contents(s);
    assert (c + Probe(n, false))[|c| + n - 1] == 0 && (c + Probe(n, true))[|c| + n - 1] == 1;
    if Appended(s, After(s, Probe(n, false)), Probe(n, false)) {
      assert !Appended(s, After(s, Probe(n, true)), Probe(n, true));
    }
  }

  /** The first node of an arc that can take a byte, when the arc is not ready. */
  lemma {:induction false} Obstacle(cs: seq<Cell>) returns (full: seq<Cell>, c: Cell, rest: seq<Cell>)
    requires !Ready(cs)
    ensures cs == full + [c] + rest && Room(full) == 0 && 0 < Tail(c)
    ensures c.cursor != 0 || !AllEmpty(rest)
  {
    if Tail(cs[0]) == 0 {
      full, c, rest := Obstacle(cs[1..]);
      UsedCons(cs[0], full);
      full := [cs[0]] + full;
    } else {
      full, c, rest := [], cs[0], cs[1..];
    }
  }

  lemma SpreadAtObstacle(full: seq<Cell>, c: Cell, rest: seq<Cell>, p: seq<byte>)
    requires Room(full) == 0
    ensures var a := Min(Tail(c), |p|);
      Spread(full + [c] + rest, p) == full + [Store(c, p[..a])] + Spread(rest, p[a..])
  {
    hide Spread, Store;
    var a := Min(Tail(c), |p|);
    assert full + [c] + rest == full + ([c] + rest);
    SpreadOver(full, [c] + rest, p);
    assert p[..0] == [] && p[0..] == p;
    SpreadNothing(full, []);
    SpreadCons(c, rest, p);
    Associate(full, [Store(c, p[..a])], Spread(rest, p[a..]));
  }

  /** What the reader sees before and after `p` lands on an arc with an obstacle. */
  lemma ObstacleSeen(s: State, p: seq<byte>, full: seq<Cell>, c: Cell, rest: seq<Cell>)
    requires Sound(s) && s.cells != [] && |p| <= Room(Back(s))
    requires Back(s) == full + [c] + rest && Room(full) == 0 && c.cursor == 0
    ensures var before := Flat(Front(s)) + Flat(full) + Data(c); var t := After(s, p);
      var a := Min(Tail(c), |p|);
      && Contents(s) == before + Flat(rest)
      && Contents(t) == before + p[..a] + Flat(Spread(rest, p[a..])) + Head(t.cells[t.r])
  {
    hide Rot, Flat, Front, Back, Spread, Store, After, Data, Head;
    var f := Front(s);
    ContentsArcs(s);
    assert c.used <= |c.mem| by { assert c == Back(s)[|full|]; }
    FlatThree(full, c, rest);
    var t := After(s, p);
    var a := Min(Tail(c), |p|);
    LandedAhead(s, t, p);
    SpreadAtObstacle(full, c, rest, p);
    DataStore(c, p[..a]);
    FlatThree(full, Store(c, p[..a]), Spread(rest, p[a..]));
    FlatConcat(f, full + [Store(c, p[..a])] + Spread(rest, p[a..]));
    Associate(Flat(f), Flat(full) + Data(c), Flat(rest));
    Associate(Flat(f), Flat(full), Data(c));
    ShiftParens(Flat(f), Flat(full), Data(c), p[..a], Flat(Spread(rest, p[a..])));
  }

  lemma ShiftParens<T>(f: seq<T>, g: seq<T>, d: seq<T>, p: seq<T>, r: seq<T>)
    ensures f + (g + (d + p) + r) == f + g + d + p + r
  {
  }

  /** Data behind the first node with room cannot be overtaken: a run of equal bytes that
      lands before it is seen in the wrong place. */
  lemma BlockedByData(s: State, n: nat, full: seq<Cell>, c: Cell, rest: seq<Cell>)
    requires Sound(s) && s.cells != [] && 0 < n <= Room(Back(s))
    requires Back(s) == full + [c] + rest && Room(full) == 0 && 0 < Tail(c)
    requires c.cursor == 0 && !AllEmpty(rest)
    ensures exists p :: |p| == n && !Appended(s, After(s, p), p)
  {
    hide Rot, Flat, Front, Back, Spread, After, Data, Head, Contents, Room;
    ContentsArcs(s);
    assert Within(rest) by { assert forall i | 0 <= i < |rest| :: rest[i] == Back(s)[|full| + 1 + i]; }
    FlatLength(rest);
    EmptyIffUnused(rest);
    var before := Flat(Front(s)) + Flat(full) + Data(c);
    var z: byte := if Flat(rest)[0] == 0 then 1 else 0;
    var p := seq(n, _ => z);
    ObstacleSeen(s, p, full, c, rest);
    var a := Min(Tail(c), n);
    var x := before + p[..a] + Flat(Spread(rest, p[a..])) + Head(After(s, p).cells[s.r]);
    assert x[|before|] == z && (before + Flat(rest) + p)[|before|] == Flat(rest)[0];
    assert !Appended(s, After(s, p), p);
  }

  lemma FlatThree(a: seq<Cell>, c: Cell, b: seq<Cell>)
    ensures Flat(a + [c] + b) == Flat(a) + Data(c) + Flat(b)
  {
    hide Flat;
    FlatConcat(a + [c], b);
    FlatConcat(a, [c]);
    FlatOne(c);
  }

  /** Only the read node can have moved its read offset. */
  lemma CursorAtRead(s: State, k: nat)
    requires Tidy(s) && k < |s.cells| && Rot(s.cells, s.r)[k].cursor != 0
    ensures k == 0
  {
  }

  lemma StoreByte(c: Cell, p: seq<byte>, j: nat)
    requires |p| <= Tail(c) && c.used <= |c.mem| && j < |c.mem|
    ensures Store(c, p).mem[j] ==
      if c.used <= j < c.used + |p| then p[j - c.used] else c.mem[j]
  {
  }

  /** The last byte a reader sees in a ring whose read node `c` has moved its read offset,
      after `n` bytes of which the first land in that node. */
  lemma LastByteAtRead(c: Cell, rest: seq<Cell>, n: nat)
    requires Fits(c) && 0 < c.cursor && 0 < c.used && c.cursor + c.used <= NODE_SIZE
    requires 0 < Tail(c) && 0 < n
    ensures var a := Min(Tail(c), n); var p, q := Probe(n, false), Probe(n, true);
      var c', d' := Store(c, p[..a]), Store(c, q[..a]);
      var x := Data(c') + Flat(Spread(rest, p[a..])) + Head(c');
      var y := Data(d') + Flat(Spread(rest, q[a..])) + Head(d');
      x != [] && y != [] && x[|x| - 1] == y[|y| - 1]
  {
    hide Flat, Spread, Store;
    var a := Min(Tail(c), n);
    var p, q := Probe(n, false), Probe(n, true);
    var c', d' := Store(c, p[..a]), Store(c, q[..a]);
    var h := c.cursor + c.used + a;
    if NODE_SIZE < h {
      StoreByte(c, p[..a], h - NODE_SIZE - 1);
      StoreByte(c, q[..a], h - NODE_SIZE - 1);
    } else {
      assert p[a..] == [] == q[a..];
      StoreByte(c, p[..a], h - 1);
      StoreByte(c, q[..a], h - 1);
    }
  }

  /** A read node that has moved its read offset cannot take bytes at its fill count. */
  lemma BlockedAtRead(s: State, n: nat, full: seq<Cell>, c: Cell, rest: seq<Cell>)
    requires Sound(s) && s.cells != [] && 0 < n <= Room(Back(s))
    requires Back(s) == full + [c] + rest && Room(full) == 0 && 0 < Tail(c) && c.cursor != 0
    ensures exists p :: |p| == n && !Appended(s, After(s, p), p)
  {
    hide Rot, Rest, Flat, Spread, Data, Head, Store, After, Probe, Room;
    Arcs(s);
    assert Rot(s.cells, s.r)[|Front(s)| + |full|] == c;
    CursorAtRead(s, |Front(s)| + |full|);
    assert Front(s) == [] && full == [] && Back(s) == [c] + rest;
    RotHere(s.cells, s.r);
    assert s.cells[s.r] == ([s.cells[s.r]] + Rest(s.cells, s.r))[0] == ([] + ([c] + rest))[0] == c;
    LastByteAtRead(c, rest, n);
    SeenAtRead(s, Probe(n, false), c, rest);
    SeenAtRead(s, Probe(n, true), c, rest);
    ProbesTell(s, n);
  }

  lemma SeenAtRead(s: State, p: seq<byte>, c: Cell, rest: seq<Cell>)
    requires Sound(s) && s.cells != [] && |p| <= Room(Back(s))
    requires Front(s) == [] && Back(s) == [c] + rest
    ensures var a := Min(Tail(c), |p|);
      Contents(After(s, p)) == Data(Store(c, p[..a])) + Flat(Spread(rest, p[a..])) + Head(Store(c, p[..a]))
  {
    hide Rot, Rest, Flat, Spread, Data, Head, Store, After, Front, Back;
    var t := After(s, p);
    var a := Min(Tail(c), |p|);
    LandedAhead(s, t, p);
    SpreadCons(c, rest, p);
    assert Rot(t.cells, t.r) == [Store(c, p[..a])] + Spread(rest, p[a..]);
    RotHere(t.cells, t.r);
    assert t.cells[t.r] == ([t.cells[t.r]] + Rest(t.cells, t.r))[0] == Store(c, p[..a]);
    FlatCons(Store(c, p[..a]), Spread(rest, p[a..]));
  }

  /** Bytes that run on past the read node are seen before those that did not. */
  lemma BlockedByRead(s: State, n: nat)
    requires Sound(s) && s.cells != [] && Room(Back(s)) < n <= Room(s.cells)
    ensures exists p :: |p| == n && !Appended(s, After(s, p), p)
  {
    hide Rot, Rest, Flat, Spread, Data, Head, Store, After, Probe, Room, Front, Back;
    ContentsArcs(s);
    assert Front(s) != [] by { RoomOfNone(); }
    var g, rest := Front(s)[0], Front(s)[1..];
    assert Front(s) == [g] + rest;
    SeenAround(s, Probe(n, false), g, rest);
    SeenAround(s, Probe(n, true), g, rest);
    LastByteAround(s, n, g);
    ProbesTell(s, n);
  }

  lemma RoomOfNone()
    ensures Room([]) == 0
  {
  }

  lemma SeenAround(s: State, p: seq<byte>, g: Cell, rest: seq<Cell>)
    requires Sound(s) && s.cells != [] && Room(Back(s)) < |p| && Front(s) == [g] + rest
    ensures g == s.cells[s.r]
    ensures var k := Room(Back(s)); var a := Min(Tail(g), |p| - k);
      Contents(After(s, p)) == Data(Store(g, p[k..][..a])) + Flat(Spread(rest, p[k..][a..]))
        + Flat(Spread(Back(s), p[..k])) + Head(Store(g, p[k..][..a]))
  {
    hide Rot, Rest, Flat, Spread, Data, Head, Store, After, Front, Back;
    var t := After(s, p);
    var k := Room(Back(s));
    var a := Min(Tail(g), |p| - k);
    Arcs(s);
    RotHere(s.cells, s.r);
    assert s.cells[s.r] == ([s.cells[s.r]] + Rest(s.cells, s.r))[0] == ([g] + rest + Back(s))[0] == g;
    LandedAround(s, t, p);
    SpreadCons(g, rest, p[k..]);
    var g', rest' := Store(g, p[k..][..a]), Spread(rest, p[k..][a..]);
    RotHere(t.cells, t.r);
    assert t.cells[t.r] == ([t.cells[t.r]] + Rest(t.cells, t.r))[0] == ([g'] + rest' + Spread(Back(s), p[..k]))[0] == g';
    FlatConcat([g'] + rest', Spread(Back(s), p[..k]));
    FlatCons(g', rest');
  }

  /** That back arc is full afterwards, so the last byte comes from it, or from bytes
      wrapped in the read node; neither is the last byte written. */
  lemma LastByteAround(s: State, n: nat, g: Cell)
    requires Sound(s) && s.cells != [] && Room(Back(s)) < n && Front(s) != [] && g == s.cells[s.r]
    ensures var k := Room(Back(s)); var a := Min(Tail(g), n - k);
      var p, q := Probe(n, false), Probe(n, true);
      var g', h' := Store(g, p[k..][..a]), Store(g, q[k..][..a]);
      && Flat(Spread(Back(s), p[..k])) == Flat(Spread(Back(s), q[..k])) != []
      && |Head(g')| == |Head(h')|
      && (Head(g') != [] ==> Head(g')[|Head(g')| - 1] == Head(h')[|Head(h')| - 1])
  {
    hide Rot, Flat, Spread, Store, Front, Back;
    var k := Room(Back(s));
    var a := Min(Tail(g), n - k);
    var p, q := Probe(n, false), Probe(n, true);
    ProbesAgree(n, 0, k);
    BackFills(s, p[..k]);
    if NODE_SIZE < g.cursor + g.used + a {
      StoreByte(g, p[k..][..a], g.cursor + g.used + a - NODE_SIZE - 1);
      StoreByte(g, q[k..][..a], g.cursor + g.used + a - NODE_SIZE - 1);
    }
  }

  lemma BackFills(s: State, p: seq<byte>)
    requires Sound(s) && s.cells != [] && Front(s) != [] && |p| == Room(Back(s))
    ensures Flat(Spread(Back(s), p)) != []
  {
    hide Rot, Flat, Spread;
    var b := Back(s);
    assert forall i | 0 <= i < |b| :: b[i] == Rot(s.cells, s.r)[i + |Front(s)|];
    RotFit(s.cells, s.r);
    forall i | 0 <= i < |b| ensures b[i].cursor == 0 && Fits(b[i]) {
      if b[i].cursor != 0 { CursorAtRead(s, i + |Front(s)|); }
    }
    UsedAndRoom(b);
    SpreadSums(b, p);
    SpreadFuller(b, p);
    assert forall i | 0 <= i < |b| :: Fuller(b[i], Spread(b, p)[i]);
    FlatLength(Spread(b, p));
  }

  lemma RotFit(cs: seq<Cell>, i: nat)
    requires AllFit(cs) && i < |cs|
    ensures AllFit(Rot(cs, i))
  {
  }

  /** Every run of bytes of length `n` that lands next is appended if and only if the arc
      from the write node up to the read node is ready and has room for it. */
  lemma AppendsIff(s: State, n: nat)
    requires Sound(s) && s.cells != [] && 0 < n <= Room(s.cells)
    ensures (forall p, t | |p| == n && Landed(s, t, p) :: Appended(s, t, p)) <==> Appends(s, n)
  {
    hide Rot, Spread, Contents, Back, Ready, After;
    if Appends(s, n) {
      forall p, t | |p| == n && Landed(s, t, p) ensures Appended(s, t, p) {
        AppendsInOrder(s, t, p);
      }
    } else {
      Blocked(s, n);
      var p :| |p| == n && !Appended(s, After(s, p), p);
      assert Landed(s, After(s, p), p);
    }
  }

  lemma Blocked(s: State, n: nat)
    requires Sound(s) && s.cells != [] && 0 < n <= Room(s.cells) && !Appends(s, n)
    ensures exists p :: |p| == n && !Appended(s, After(s, p), p)
  {
    hide Rot, Spread, Back, Ready, After, Room;
    if WORD <= s.used + n {
      var p := Probe(n, false);
      assert !Appended(s, After(s, p), p);
    } else if Room(Back(s)) < n {
      BlockedByRead(s, n);
    } else {
      var full, c, rest := Obstacle(Back(s));
      if c.cursor != 0 {
        BlockedAtRead(s, n, full, c, rest);
      } else {
        BlockedByData(s, n, full, c, rest);
      }
    }
  }
}
