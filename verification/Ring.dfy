/** Sequences read as rings: rotation, and the step to the next index. */
module Rotation {

  /** The index after `i` in a ring of `n` slots. */
  function Next(i: nat, n: nat): (j: nat)
    requires i < n
    ensures j < n
  {
    if i + 1 == n then 0 else i + 1
  }

  /** The index `k` steps on. */
  function Ahead(i: nat, k: nat, n: nat): (j: nat)
    requires i < n && k <= n
    ensures j < n
  {
    if i + k < n then i + k else i + k - n
  }

  /** The ring `s` listed from index `i`. */
  function Rot<T>(s: seq<T>, i: nat): (t: seq<T>)
    requires s == [] || i < |s|
    ensures |t| == |s|
  {
    seq(|s|, k requires 0 <= k < |s| => s[Ahead(i, k, |s|)])
  }

  /** The ring from `i`, without slot `i` itself. */
  function Rest<T>(s: seq<T>, i: nat): (t: seq<T>)
    requires i < |s|
    ensures |t| == |s| - 1
  {
    seq(|s| - 1, k requires 0 <= k < |s| - 1 => s[Ahead(i, k + 1, |s|)])
  }

  lemma RotHere<T>(s: seq<T>, i: nat)
    requires i < |s|
    ensures Rot(s, i) == [s[i]] + Rest(s, i)
    ensures Rot(s, Next(i, |s|)) == Rest(s, i) + [s[i]]
  {
  }

  /** Replacing the slot at `i`, seen from it and from the slot after it. */
  lemma RotSet<T>(s: seq<T>, i: nat, x: T)
    requires i < |s|
    ensures Rot(s[i := x], i) == [x] + Rest(s, i)
    ensures Rot(s[i := x], Next(i, |s|)) == Rest(s, i) + [x]
  {
  }

  /** Reading a ring back from the slot before. */
  lemma RotBack<T>(s: seq<T>, i: nat, rest: seq<T>, x: T)
    requires i < |s| && Rot(s, Next(i, |s|)) == rest + [x]
    ensures Rot(s, i) == [x] + rest
  {
    RotHere(s, i);
    assert (Rest(s, i) + [s[i]])[|s| - 1] == s[i] && (rest + [x])[|s| - 1] == x;
    assert (Rest(s, i) + [s[i]])[..|s| - 1] == Rest(s, i) && (rest + [x])[..|s| - 1] == rest;
  }

  lemma RotInjective<T>(s: seq<T>, t: seq<T>, i: nat)
    requires i < |s| == |t| && Rot(s, i) == Rot(t, i)
    ensures s == t
  {
    forall j | 0 <= j < |s| ensures s[j] == t[j] {
      var k := if i <= j then j - i else j + |s| - i;
      assert Rot(s, i)[k] == s[j] && Rot(t, i)[k] == t[j];
    }
  }

  /** The list from `i` on, then what comes before `i`. */
  lemma RotSlices<T>(s: seq<T>, i: nat)
    requires i < |s|
    ensures Rot(s, i) == s[i..] + s[..i] && s == s[..i] + s[i..]
  {
  }

  /** How many steps lead from index `i` to index `j`. */
  function Steps(i: nat, j: nat, n: nat): (d: nat)
    requires i < n && j < n
    ensures d < n
  {
    if i <= j then j - i else j + n - i
  }

  /** The ring from `i` and the ring from `j` are the same two arcs, swapped. */
  lemma RotArcs<T>(s: seq<T>, i: nat, j: nat)
    requires i < |s| && j < |s|
    ensures var d := Steps(i, j, |s|); Rot(s, j) == Rot(s, i)[d..] + Rot(s, i)[..d]
  {
  }
}

/** Concatenation of a list of parts. */
module Parts {

  function Join<T>(parts: seq<seq<T>>): seq<T> {
    if parts == [] then [] else parts[0] + Join(parts[1..])
  }

  lemma Associate<T>(a: seq<T>, b: seq<T>, c: seq<T>)
    ensures a + (b + c) == (a + b) + c
  {
  }

  lemma {:induction false} JoinConcat<T>(a: seq<seq<T>>, b: seq<seq<T>>)
    ensures Join(a + b) == Join(a) + Join(b)
  {
    if a == [] {
      assert a + b == b;
    } else {
      JoinConcat(a[1..], b);
      assert (a + b)[1..] == a[1..] + b;
      Associate(a[0], Join(a[1..]), Join(b));
    }
  }

  lemma DropHead<T>(a: seq<T>, b: seq<T>, n: nat)
    requires n <= |a|
    ensures (a + b)[n..] == a[n..] + b
  {
  }

  lemma DropTwice<T>(a: seq<T>, m: nat, n: nat)
    requires m <= n <= |a|
    ensures a[m..][n - m..] == a[n..]
  {
  }

  lemma JoinOne<T>(part: seq<T>)
    ensures Join([part]) == part
  {
    assert [part][1..] == [];
    assert part + [] == part;
  }

  lemma {:induction false} JoinEmpty<T>(parts: seq<seq<T>>)
    requires forall i | 0 <= i < |parts| :: parts[i] == []
    ensures Join(parts) == []
  {
    if parts != [] { JoinEmpty(parts[1..]); }
  }
}

/** The byte ring of `chaos::Buffer`, as values: what each operation does to the
    list of nodes, the two iterators and the byte counter.
    Integers that the program keeps in a uint32 wrap through `U32`. */
module Ring {
  import opened Rotation
  import opened Parts

  const NODE_SIZE: nat := 4096
  const MAX_NODES: nat := 0x10_0000
  const WORD: nat := 0x1_0000_0000
  const MAX_IOVEC: nat := 8

  newtype byte = b: int | 0 <= b < 256

  function U32(x: int): (y: nat)
    ensures y < WORD
    ensures 0 <= x < WORD ==> y == x
  {
    x % WORD
  }

  function Min(a: nat, b: nat): nat { if a <= b then a else b }

  // ---------------------------------------------------------------- nodes

  /** A node of the list: its memory, its read offset and its fill count. */
  datatype Cell = Cell(mem: seq<byte>, cursor: nat, used: nat)

  /** A node as `Expand` creates it. */
  function Blank(): (c: Cell)
    ensures Fits(c) && c.cursor == 0 == c.used && Tail(c) == NODE_SIZE
  {
    Cell(seq(NODE_SIZE, _ => 0), 0, 0)
  }

  predicate Fits(c: Cell) { |c.mem| == NODE_SIZE && c.used <= NODE_SIZE }

  predicate AllFit(cs: seq<Cell>) { forall i | 0 <= i < |cs| :: Fits(cs[i]) }

  /** The bytes of a node behind its fill count. */
  function Tail(c: Cell): nat { if c.used <= |c.mem| then |c.mem| - c.used else 0 }

  /** The unread bytes between the read offset and the end of the node's memory. */
  function Data(c: Cell): seq<byte> {
    if c.cursor + c.used <= |c.mem| then c.mem[c.cursor..c.cursor + c.used]
    else if c.cursor <= |c.mem| then c.mem[c.cursor..]
    else []
  }

  /** The unread bytes that lie, wrapped, at the start of the node's memory. */
  function Head(c: Cell): seq<byte> {
    if c.cursor <= |c.mem| < c.cursor + c.used <= 2 * |c.mem| then c.mem[..c.cursor + c.used - |c.mem|] else []
  }

  function Datas(cs: seq<Cell>): seq<seq<byte>> {
    seq(|cs|, i requires 0 <= i < |cs| => Data(cs[i]))
  }

  function Flat(cs: seq<Cell>): seq<byte> { Join(Datas(cs)) }

  function Used(cs: seq<Cell>): nat {
    if cs == [] then 0 else cs[0].used + Used(cs[1..])
  }

  function Room(cs: seq<Cell>): nat {
    if cs == [] then 0 else Tail(cs[0]) + Room(cs[1..])
  }

  lemma FlatConcat(a: seq<Cell>, b: seq<Cell>)
    ensures Flat(a + b) == Flat(a) + Flat(b)
  {
    JoinConcat(Datas(a), Datas(b));
    assert Datas(a + b) == Datas(a) + Datas(b);
  }

  lemma FlatOne(c: Cell)
    ensures Flat([c]) == Data(c)
  {
    JoinOne(Data(c));
    assert Datas([c]) == [Data(c)];
  }

  lemma FlatCons(c: Cell, cs: seq<Cell>)
    ensures Flat([c] + cs) == Data(c) + Flat(cs)
  {
    FlatConcat([c], cs);
    FlatOne(c);
  }

  lemma {:induction false} SumConcat(a: seq<Cell>, b: seq<Cell>)
    ensures Used(a + b) == Used(a) + Used(b)
    ensures Room(a + b) == Room(a) + Room(b)
  {
    if a == [] {
      assert a + b == b;
    } else {
      SumConcat(a[1..], b);
      assert (a + b)[1..] == a[1..] + b;
    }
  }

  lemma {:induction false} UsedAndRoom(cs: seq<Cell>)
    requires AllFit(cs)
    ensures Used(cs) + Room(cs) == NODE_SIZE * |cs|
  {
    if cs != [] { UsedAndRoom(cs[1..]); }
  }

  lemma SwapSums(a: seq<Cell>, b: seq<Cell>)
    ensures Used(b + a) == Used(a + b) && Room(b + a) == Room(a + b)
  {
    SumConcat(a, b);
    SumConcat(b, a);
  }

  lemma RotSums(cs: seq<Cell>, i: nat)
    requires i < |cs|
    ensures Used(Rot(cs, i)) == Used(cs) && Room(Rot(cs, i)) == Room(cs)
  {
    RotSlices(cs, i);
    SwapSums(cs[..i], cs[i..]);
  }

  lemma UsedCons(c: Cell, cs: seq<Cell>)
    ensures Used([c] + cs) == c.used + Used(cs)
    ensures Room([c] + cs) == Tail(c) + Room(cs)
  {
    assert ([c] + cs)[1..] == cs;
  }

  lemma UsedSet(cs: seq<Cell>, i: nat, c: Cell)
    requires i < |cs|
    ensures Used(cs[i := c]) == Used(cs) - cs[i].used + c.used
  {
    RotSums(cs, i);
    RotSums(cs[i := c], i);
    RotHere(cs, i);
    RotSet(cs, i, c);
    UsedCons(cs[i], Rest(cs, i));
    UsedCons(c, Rest(cs, i));
  }

  predicate AllEmpty(cs: seq<Cell>) {
    forall i | 0 <= i < |cs| :: cs[i].used == 0
  }

  lemma {:induction false} EmptyIffUnused(cs: seq<Cell>)
    ensures AllEmpty(cs) <==> Used(cs) == 0
  {
    if cs != [] {
      EmptyIffUnused(cs[1..]);
      assert cs == [cs[0]] + cs[1..];
    }
  }

  lemma EmptyIsFlat(cs: seq<Cell>)
    requires AllEmpty(cs) && Within(cs)
    ensures Flat(cs) == []
  {
    JoinEmpty(Datas(cs));
  }

  // ---------------------------------------------------------------- states

  /** `cells` is the list in list order, `r` and `w` the read and write iterators
      (0 when the list is empty, where the program has `end()`), `used` the counter. */
  datatype State = State(cells: seq<Cell>, r: nat, w: nat, used: nat)

  const EMPTY: State := State([], 0, 0, 0)

  predicate Indexed(s: State) {
    if s.cells == [] then s.r == 0 == s.w else s.r < |s.cells| && s.w < |s.cells|
  }

  /** The counter is the sum of the nodes' fill counts, in uint32. */
  predicate Accounted(s: State) {
    Indexed(s) && AllFit(s.cells) && |s.cells| <= MAX_NODES && s.used == U32(Used(s.cells))
  }

  /** Only a partly read read node has moved its read offset, and when nothing is
      stored the two iterators coincide. */
  predicate Tidy(s: State) {
    && Indexed(s)
    && (forall i | 0 <= i < |s.cells| && i != s.r :: s.cells[i].cursor == 0)
    && (s.cells != [] && s.cells[s.r].used == 0 ==> s.cells[s.r].cursor == 0)
    && (Used(s.cells) == 0 ==> s.r == s.w)
  }

  /** No node's data runs past the end of its memory. */
  predicate InBounds(s: State) { Within(s.cells) }

  /** Every state in which a copying read stays inside the nodes' memory. */
  predicate Sound(s: State) { Accounted(s) && Tidy(s) && InBounds(s) }

  /** The stored bytes in ring order from the read node. The bytes wrapped to the
      start of the read node, if any, come last. */
  function Contents(s: State): seq<byte>
    requires Indexed(s)
  {
    if s.cells == [] then [] else Flat(Rot(s.cells, s.r)) + Head(s.cells[s.r])
  }

  function LeftSize(s: State): nat { U32(NODE_SIZE * |s.cells| - s.used) }

  lemma SumBounds(s: State)
    requires Accounted(s)
    ensures Used(s.cells) + Room(s.cells) == NODE_SIZE * |s.cells| <= WORD
    ensures s.used <= Used(s.cells)
    ensures Used(s.cells) != WORD ==> s.used == Used(s.cells)
    ensures LeftSize(s) <= Room(s.cells)
    ensures s.used > 0 || (|s.cells| < MAX_NODES) ==> LeftSize(s) == Room(s.cells)
  {
    UsedAndRoom(s.cells);
  }

  predicate Within(cs: seq<Cell>) {
    forall i | 0 <= i < |cs| :: cs[i].cursor + cs[i].used <= |cs[i].mem|
  }

  lemma {:induction false} FlatLength(cs: seq<Cell>)
    requires Within(cs)
    ensures |Flat(cs)| == Used(cs)
  {
    if cs != [] {
      FlatLength(cs[1..]);
      FlatCons(cs[0], cs[1..]);
      assert cs == [cs[0]] + cs[1..];
    }
  }

  lemma ContentsLength(s: State)
    requires Accounted(s) && InBounds(s)
    ensures |Contents(s)| == Used(s.cells)
  {
    if s.cells != [] {
      FlatLength(Rot(s.cells, s.r));
      RotSums(s.cells, s.r);
    }
  }

  // ---------------------------------------------------------------- reading

  /** One iteration: the node read from, and the bytes it gives up. */
  function DrainOne(s: State, v: nat): (t: State)
    requires Indexed(s) && s.cells != [] && v <= s.used && v <= s.cells[s.r].used
    ensures |t.cells| == |s.cells| && t.w == s.w && Indexed(t) && t.used == s.used - v
  {
    var c := s.cells[s.r];
    var used := s.used - v;
    if v < c.used then
      s.(cells := s.cells[s.r := c.(cursor := c.cursor + v, used := c.used - v)], used := used)
    else
      State(s.cells[s.r := c.(cursor := 0, used := 0)],
            if used > 0 then Next(s.r, |s.cells|) else s.w, s.w, used)
  }

  /** `MoveReadPos`, and the pointer moves of the copying `ReadBuffer`: take `n`
      bytes, visiting at most `laps` nodes. */
  function Drain(s: State, n: nat, laps: nat): (t: State)
    requires Indexed(s) && n <= s.used
    ensures |t.cells| == |s.cells| && t.w == s.w && Indexed(t)
    decreases laps
  {
    if n == 0 || laps == 0 || s.cells == [] then s else
    var v := Min(s.cells[s.r].used, n);
    Drain(DrainOne(s, v), n - v, laps - 1)
  }

  lemma DrainOneKeeps(s: State, v: nat)
    requires Accounted(s) && s.cells != [] && v <= s.used && v <= s.cells[s.r].used
    ensures var t := DrainOne(s, v);
      Accounted(t) && (Tidy(s) ==> Tidy(t)) && Used(t.cells) == Used(s.cells) - v
  {
    var t := DrainOne(s, v);
    SumBounds(s);
    UsedSet(s.cells, s.r, t.cells[s.r]);
    EmptyIffUnused(t.cells);
  }

  lemma DrainOneTakes(s: State, v: nat)
    requires Sound(s) && s.cells != [] && v <= s.used && v <= s.cells[s.r].used && 0 < s.used
    ensures var t := DrainOne(s, v);
      InBounds(t) && v <= |Contents(s)| && Contents(t) == Contents(s)[v..]
  {
    hide Rot, Rest, Flat, AllFit, Contents, Data, Used, U32;
    var t := DrainOne(s, v);
    DrainOneKeeps(s, v);
    DrainOneInside(s, v);
    if v < s.cells[s.r].used {
      DrainPart(s, v);
    } else if t.used > 0 {
      DrainWhole(s, v);
    } else {
      ContentsLength(s);
      ContentsLength(t);
      SumBounds(s);
      SumBounds(t);
    }
  }

  lemma DrainOneInside(s: State, v: nat)
    requires Sound(s) && s.cells != [] && v <= s.used && v <= s.cells[s.r].used
    ensures InBounds(DrainOne(s, v))
    ensures v <= |Data(s.cells[s.r])|
    ensures v < s.cells[s.r].used ==> Data(DrainOne(s, v).cells[s.r]) == Data(s.cells[s.r])[v..]
    ensures v == s.cells[s.r].used ==> Data(DrainOne(s, v).cells[s.r]) == []
  {
  }

  /** A read node left with data keeps its place at the front. */
  lemma DrainPart(s: State, v: nat)
    requires Sound(s) && s.cells != [] && v <= s.used && v < s.cells[s.r].used
    ensures v <= |Contents(s)| && Contents(DrainOne(s, v)) == Contents(s)[v..]
  {
    hide Rot, Rest, Flat, AllFit, Data, Contents, Used, U32;
    var t := DrainOne(s, v);
    DrainOneInside(s, v);
    ContentsOf(s);
    ContentsOf(t);
    RestSame(s.cells, s.r, t.cells[s.r]);
    DropHead(Data(s.cells[s.r]), Flat(Rest(s.cells, s.r)), v);
  }

  lemma RestSame<T>(cs: seq<T>, i: nat, c: T)
    requires i < |cs|
    ensures Rest(cs[i := c], i) == Rest(cs, i)
  {
  }

  /** A drained read node goes, empty, to the end of the ring. */
  lemma DrainWhole(s: State, v: nat)
    requires Sound(s) && s.cells != [] && v <= s.used && v == s.cells[s.r].used && v < s.used
    ensures v <= |Contents(s)| && Contents(DrainOne(s, v)) == Contents(s)[v..]
  {
    hide Rot, Rest, Flat, AllFit, Data, Used, U32;
    var t := DrainOne(s, v);
    DrainOneInside(s, v);
    ContentsOf(s);
    RotSet(s.cells, s.r, t.cells[s.r]);
    FlatConcat(Rest(s.cells, s.r), [t.cells[s.r]]);
    FlatOne(t.cells[s.r]);
    assert |Data(s.cells[s.r])| == v by { assert Within(s.cells); DataLength(s.cells[s.r]); }
    DropHead(Data(s.cells[s.r]), Flat(Rest(s.cells, s.r)), v);
    assert Head(t.cells[t.r]) == [];
  }

  lemma DataLength(c: Cell)
    requires c.cursor + c.used <= |c.mem|
    ensures |Data(c)| == c.used
  {
  }

  lemma ContentsOf(s: State)
    requires Indexed(s) && InBounds(s) && s.cells != []
    ensures Contents(s) == Data(s.cells[s.r]) + Flat(Rest(s.cells, s.r))
  {
    hide Rot, Rest, Flat;
    RotHere(s.cells, s.r);
    FlatCons(s.cells[s.r], Rest(s.cells, s.r));
    assert Head(s.cells[s.r]) == [];
  }

  /** Within one lap exactly `n` bytes leave. */
  lemma {:induction false} DrainCounts(s: State, n: nat, laps: nat)
    requires Accounted(s) && n <= s.used && laps <= |s.cells|
    requires n <= Used(Rot(s.cells, s.r)[..laps])
    ensures var t := Drain(s, n, laps); Accounted(t) && (Tidy(s) ==> Tidy(t)) && t.used == s.used - n
    decreases laps
  {
    hide Rot, DrainOne, AllFit, U32, Tidy, Used;
    if n == 0 || laps == 0 || s.cells == [] {
      DrainNothing(s, n, laps);
    } else {
      var v := Min(s.cells[s.r].used, n);
      DrainOneKeeps(s, v);
      if v < n {
        LapShrinks(s, laps);
        DrainCounts(DrainOne(s, v), n - v, laps - 1);
      }
    }
  }

  lemma DrainNothing(s: State, n: nat, laps: nat)
    requires Indexed(s) && laps <= |s.cells| && n <= s.used
    requires n <= Used(Rot(s.cells, s.r)[..laps])
    requires n == 0 || laps == 0 || s.cells == []
    ensures n == 0 && Drain(s, n, laps) == s
  {
    assert laps == 0 ==> Rot(s.cells, s.r)[..laps] == [];
  }

  /** What remains after them is what followed them. */
  lemma {:induction false} DrainTakes(s: State, n: nat, laps: nat)
    requires Sound(s) && n <= s.used && laps <= |s.cells|
    requires n <= Used(Rot(s.cells, s.r)[..laps])
    ensures var t := Drain(s, n, laps);
      InBounds(t) && n <= |Contents(s)| && Contents(t) == Contents(s)[n..]
    decreases laps
  {
    hide Rot, Contents, DrainOne, AllFit, Within, U32, Tidy, Used;
    if n == 0 || laps == 0 || s.cells == [] {
      DrainNothing(s, n, laps);
    } else {
      var v := Min(s.cells[s.r].used, n);
      DrainOneKeeps(s, v);
      DrainOneTakes(s, v);
      if v < n {
        LapShrinks(s, laps);
        DrainTakes(DrainOne(s, v), n - v, laps - 1);
        DropTwice(Contents(s), v, n);
      }
    }
  }

  /** The nodes still to be visited in this lap, once the read node is drained. */
  lemma LapShrinks(s: State, laps: nat)
    requires Indexed(s) && 0 < laps <= |s.cells| && s.used > s.cells[s.r].used
    ensures var c := s.cells[s.r]; var t := DrainOne(s, c.used);
      Used(Rot(s.cells, s.r)[..laps]) == c.used + Used(Rot(t.cells, t.r)[..laps - 1])
  {
    hide Rot, Rest;
    var c := s.cells[s.r];
    var c' := DrainOne(s, c.used).cells[s.r];
    LapPrefix(s.cells, s.r, c', laps);
    UsedCons(c, Rest(s.cells, s.r)[..laps - 1]);
  }

  /** The first `laps` slots of the ring, and the slots left of them one step on. */
  lemma LapPrefix(cs: seq<Cell>, i: nat, c: Cell, laps: nat)
    requires i < |cs| && 0 < laps <= |cs|
    ensures Rot(cs, i)[..laps] == [cs[i]] + Rest(cs, i)[..laps - 1]
    ensures Rot(cs[i := c], Next(i, |cs|))[..laps - 1] == Rest(cs, i)[..laps - 1]
  {
    hide Rot, Rest;
    RotHere(cs, i);
    RotSet(cs, i, c);
  }

  /** A whole `MoveReadPos(n)`: the request is cut to what is stored. */
  function MoveRead(s: State, n: nat): State
    requires Indexed(s)
  {
    Drain(s, Min(n, s.used), |s.cells|)
  }

  lemma MoveReadTakes(s: State, n: nat)
    requires Accounted(s)
    ensures var t := MoveRead(s, n); var m := Min(n, s.used);
      && Accounted(t) && (Tidy(s) ==> Tidy(t)) && t.used == s.used - m
      && (Tidy(s) && InBounds(s) ==> InBounds(t) && m <= |Contents(s)| && Contents(t) == Contents(s)[m..])
  {
    SumBounds(s);
    if s.cells != [] {
      RotSums(s.cells, s.r);
      assert Rot(s.cells, s.r)[..|s.cells|] == Rot(s.cells, s.r);
    }
    DrainCounts(s, Min(n, s.used), |s.cells|);
    if Tidy(s) && InBounds(s) { DrainTakes(s, Min(n, s.used), |s.cells|); }
  }
}
