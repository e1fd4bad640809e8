/** The bitmap allocator of timer ids. Id `n`, from 1 on, belongs to bit `(n - 1) % 8` of byte
    `(n - 1) / 8`; 0 means that there is none. */
module TimerIds {

  const BYTE2BIT := 8
  const INIT_ID_SIZE := 128

  function BitMask(bit: nat): (m: bv8)
    requires bit < BYTE2BIT
  {
    if bit == 0 then 1 else if bit == 1 then 2 else if bit == 2 then 4 else if bit == 3 then 8
    else if bit == 4 then 16 else if bit == 5 then 32 else if bit == 6 then 64 else 128
  }

  predicate GetBit(b: bv8, bit: nat)
    requires bit < BYTE2BIT
  {
    b & BitMask(bit) != 0
  }

  function SetBit(b: bv8, bit: nat): (c: bv8)
    requires bit < BYTE2BIT
    ensures forall k | 0 <= k < BYTE2BIT :: GetBit(c, k) <==> GetBit(b, k) || k == bit
  {
    b | BitMask(bit)
  }

  function ClrBit(b: bv8, bit: nat): (c: bv8)
    requires bit < BYTE2BIT
    ensures forall k | 0 <= k < BYTE2BIT :: GetBit(c, k) <==> GetBit(b, k) && k != bit
  {
    b & !BitMask(bit)
  }

  /** `ids` is the bitmap, `cur` the number of timers that are in some timer map. */
  datatype State = State(ids: seq<bv8>, cur: nat)

  /** Whether the bit of id `n` is set. */
  predicate Taken(ids: seq<bv8>, n: nat) {
    1 <= n <= BYTE2BIT * |ids| && GetBit(ids[(n - 1) / BYTE2BIT], (n - 1) % BYTE2BIT)
  }

  /** The least id from `n` on whose bit is clear, or 0. */
  function LeastFrom(ids: seq<bv8>, n: nat): (id: nat)
    requires 1 <= n
    ensures id == 0 || (n <= id <= BYTE2BIT * |ids| && !Taken(ids, id))
    ensures forall m | n <= m < id :: Taken(ids, m)
    ensures id == 0 ==> forall m | n <= m <= BYTE2BIT * |ids| :: Taken(ids, m)
    decreases BYTE2BIT * |ids| - n
  {
    if n > BYTE2BIT * |ids| then 0 else if !Taken(ids, n) then n else LeastFrom(ids, n + 1)
  }

  /** One more byte once as many timers are running as there are bits. */
  function Grown(st: State): State {
    if st.cur >= |st.ids| * BYTE2BIT then st.(ids := st.ids + [0]) else st
  }

  function Mark(ids: seq<bv8>, n: nat): (js: seq<bv8>)
    requires 1 <= n <= BYTE2BIT * |ids|
    ensures |js| == |ids|
  {
    ids[(n - 1) / BYTE2BIT := SetBit(ids[(n - 1) / BYTE2BIT], (n - 1) % BYTE2BIT)]
  }

  /** The id that `CreateTimerID` returns, and the state it leaves. */
  function NewId(st: State): nat { LeastFrom(Grown(st).ids, 1) }

  function Create(st: State): State {
    var g := Grown(st);
    if NewId(st) == 0 then g else g.(ids := Mark(g.ids, NewId(st)))
  }

  /** `ReleaseTimerID`. */
  function Release(st: State, id: nat): State {
    var pos, bit := id / BYTE2BIT, id % BYTE2BIT;
    if id == 0 || pos >= |st.ids| then st
    else st.(ids := st.ids[pos := ClrBit(st.ids[pos], if bit == 0 then BYTE2BIT - 1 else bit - 1)])
  }

  // ---------------------------------------------------------------- allocation

  lemma MarkTakes(ids: seq<bv8>, n: nat)
    requires 1 <= n <= BYTE2BIT * |ids|
    ensures forall m: nat :: Taken(Mark(ids, n), m) <==> Taken(ids, m) || m == n
  {
    hide GetBit, SetBit;
    forall m: nat | 1 <= m <= BYTE2BIT * |ids|
      ensures Taken(Mark(ids, n), m) <==> Taken(ids, m) || m == n
    {
      if (m - 1) / BYTE2BIT == (n - 1) / BYTE2BIT && (m - 1) % BYTE2BIT == (n - 1) % BYTE2BIT {
        assert m == n;
      }
    }
  }

  lemma GrownTakes(st: State)
    ensures forall m: nat :: Taken(Grown(st).ids, m) <==> Taken(st.ids, m)
  {
    forall m: nat | 1 <= m <= BYTE2BIT * |Grown(st).ids|
      ensures Taken(Grown(st).ids, m) <==> Taken(st.ids, m)
    {
      var g := Grown(st).ids;
      if m > BYTE2BIT * |st.ids| {
        assert g[(m - 1) / BYTE2BIT] == 0;
      } else {
        assert g[(m - 1) / BYTE2BIT] == st.ids[(m - 1) / BYTE2BIT];
      }
    }
  }

  /** `CreateTimerID` hands out the least id that is not taken, and takes it and no other; it
      fails just when all bits are set and fewer timers are running than there are bits. */
  lemma CreatesLeast(st: State)
    ensures var id, t := NewId(st), Create(st);
      && (id == 0 <==> st.cur < BYTE2BIT * |st.ids| && forall m | 1 <= m <= BYTE2BIT * |st.ids| :: Taken(st.ids, m))
      && (id != 0 ==> !Taken(st.ids, id) && forall m | 1 <= m < id :: Taken(st.ids, m))
      && (forall m: nat :: Taken(t.ids, m) <==> Taken(st.ids, m) || (m == id && id != 0))
  {
    hide GetBit, Mark;
    GrownTakes(st);
    var g := Grown(st).ids;
    if NewId(st) != 0 {
      MarkTakes(g, NewId(st));
    }
    if st.cur >= BYTE2BIT * |st.ids| {
      assert !Taken(g, BYTE2BIT * |st.ids| + 1);
    }
  }

  // ---------------------------------------------------------------- release

  /** What `ReleaseTimerID` clears: the bit of `id`, except that for a multiple of 8 it is the
      bit of `id + 8`. */
  lemma ReleaseClears(st: State, id: nat)
    requires 0 < id
    ensures forall m: nat :: Taken(Release(st, id).ids, m) <==>
      Taken(st.ids, m) && m != (if id % BYTE2BIT == 0 then id + BYTE2BIT else id)
  {
    hide GetBit, ClrBit;
    var t := Release(st, id);
    forall m: nat | 1 <= m <= BYTE2BIT * |st.ids|
      ensures Taken(t.ids, m) <==> Taken(st.ids, m) && m != (if id % BYTE2BIT == 0 then id + BYTE2BIT else id)
    {
      var pos, bit := id / BYTE2BIT, id % BYTE2BIT;
      if (m - 1) / BYTE2BIT == pos {
        assert m == BYTE2BIT * pos + (m - 1) % BYTE2BIT + 1;
        assert id == BYTE2BIT * pos + bit;
      }
    }
  }

  /** Releasing a taken id frees it if and only if it is not a multiple of 8. */
  lemma ReleaseFreesIff(st: State, id: nat)
    requires Taken(st.ids, id)
    ensures !Taken(Release(st, id).ids, id) <==> id % BYTE2BIT != 0
  {
    hide Taken, Release;
    TakenPositive(st.ids, id);
    ReleaseClears(st, id);
  }

  lemma TakenPositive(ids: seq<bv8>, n: nat)
    requires Taken(ids, n)
    ensures 0 < n
  {
  }

  /** Release undoes create if and only if the id is not a multiple of 8. */
  lemma ReleaseUndoesIff(st: State)
    requires NewId(st) != 0
    ensures (forall m: nat :: Taken(Release(Create(st), NewId(st)).ids, m) <==> Taken(st.ids, m))
            <==> NewId(st) % BYTE2BIT != 0
  {
    hide Taken, Release, Create, NewId;
    CreatesLeast(st);
    ReleaseClears(Create(st), NewId(st));
    if NewId(st) % BYTE2BIT == 0 {
      var id := NewId(st);
      assert Taken(Release(Create(st), id).ids, id) && !Taken(st.ids, id);
    }
  }

  // ---------------------------------------------------------------- runs

  /** The ids that timers hold; all of them are taken. */
  predicate Holds(st: State, live: set<nat>) { forall n | n in live :: Taken(st.ids, n) }

  /** The other live ids stay taken if and only if the id is not a multiple of 8 or its
      neighbour eight further on is not live. */
  lemma ReleaseKeepsIff(st: State, live: set<nat>, id: nat)
    requires Holds(st, live) && id in live
    ensures Holds(Release(st, id), live - {id}) <==> id % BYTE2BIT != 0 || id + BYTE2BIT !in live
  {
    hide Taken, Release;
    TakenPositive(st.ids, id);
    ReleaseClears(st, id);
    if id % BYTE2BIT == 0 && id + BYTE2BIT in live {
      assert id + BYTE2BIT in live - {id};
    }
  }

  datatype Op = New | Free(id: nat) | Count(cur: nat)

  datatype World = World(st: State, live: set<nat>)

  /** Only live ids are released, and none whose release would take a neighbour's bit. */
  predicate Takes(w: World, op: Op) {
    op.Free? ==> op.id in w.live && (op.id % BYTE2BIT != 0 || op.id + BYTE2BIT !in w.live)
  }

  function Next(w: World, op: Op): World {
    match op
    case New => World(Create(w.st), if NewId(w.st) == 0 then w.live else w.live + {NewId(w.st)})
    case Free(id) => World(Release(w.st, id), w.live - {id})
    case Count(cur) => w.(st := w.st.(cur := cur))
  }

  predicate Runs(w: World, ops: seq<Op>)
    decreases |ops|
  {
    ops == [] || (Takes(w, ops[0]) && Runs(Next(w, ops[0]), ops[1..]))
  }

  function After(w: World, ops: seq<Op>): World
    decreases |ops|
  {
    if ops == [] then w else After(Next(w, ops[0]), ops[1..])
  }

  lemma NextHolds(w: World, op: Op)
    requires Holds(w.st, w.live) && Takes(w, op)
    ensures Holds(Next(w, op).st, Next(w, op).live)
  {
    hide Taken, Create, NewId, Release;
    match op {
      case New => CreatesLeast(w.st);
      case Free(id) => ReleaseKeepsIff(w.st, w.live, id);
      case Count(_) =>
    }
  }

  /** Throughout such a run, whatever the counter does, a new id is never one that a timer
      holds. */
  lemma {:induction false} RunDistinct(w: World, ops: seq<Op>)
    requires Holds(w.st, w.live) && Runs(w, ops)
    ensures var v := After(w, ops);
      Holds(v.st, v.live) && NewId(v.st) !in v.live
    decreases |ops|
  {
    hide Holds, Taken, Next, Takes, Create, NewId;
    if ops != [] {
      NextHolds(w, ops[0]);
      RunDistinct(Next(w, ops[0]), ops[1..]);
    } else {
      NewIsFree(w);
    }
  }

  lemma NewIsFree(w: World)
    requires Holds(w.st, w.live)
    ensures NewId(w.st) !in w.live
  {
    hide Create, NewId, GetBit;
    CreatesLeast(w.st);
  }

  /** Why the condition: with 8 and 16 live, releasing 8 lets 16 be handed out again. */
  lemma ReleaseOfEight(st: State, live: set<nat>)
    requires Holds(st, live) && {8, 16} <= live && forall m | 1 <= m <= 16 :: Taken(st.ids, m)
    ensures NewId(Release(st, 8)) == 16 && 16 in live - {8}
  {
    hide Taken;
    var t := Release(st, 8);
    ReleaseClears(st, 8);
    hide Release, NewId, Create;
    CreatesLeast(t);
    assert !Taken(t.ids, 16);
  }

  lemma {:induction false} Pigeonhole(n: nat, live: set<nat>)
    requires forall m | 1 <= m <= n :: m in live
    ensures n <= |live|
  {
    if n != 0 {
      Pigeonhole(n - 1, live - {n});
    }
  }

  /** While every taken id is live and no more ids are live than timers are running, an id
      is always found. */
  lemma NeverFails(st: State, live: set<nat>)
    requires forall m: nat :: Taken(st.ids, m) <==> m in live
    requires |live| <= st.cur
    ensures NewId(st) != 0
  {
    hide Taken, Create, NewId;
    CreatesLeast(st);
    if NewId(st) == 0 {
      Pigeonhole(BYTE2BIT * |st.ids|, live);
    }
  }

  /** The taken ids are the live ones and no others. */
  ghost predicate Exact(w: World) { forall m: nat :: Taken(w.st.ids, m) <==> m in w.live }

  predicate NoMultiples(ops: seq<Op>) { forall k | 0 <= k < |ops| && ops[k].Free? :: ops[k].id % BYTE2BIT != 0 }

  lemma NextExact(w: World, op: Op)
    requires Exact(w) && Takes(w, op) && (op.Free? ==> op.id % BYTE2BIT != 0)
    ensures Exact(Next(w, op))
  {
    hide Taken, Create, NewId, Release;
    match op {
      case New => CreatesLeast(w.st);
      case Free(id) =>
        TakenPositive(w.st.ids, id);
        ReleaseClears(w.st, id);
      case Count(_) =>
    }
  }

  /** In a run that releases no multiple of 8, the taken ids stay exactly the live ones, and
      a new id is found whenever no more ids are live than timers are running. */
  lemma {:induction false} RunExact(w: World, ops: seq<Op>)
    requires Exact(w) && Runs(w, ops) && NoMultiples(ops)
    ensures var v := After(w, ops); Exact(v) && (|v.live| <= v.st.cur ==> NewId(v.st) != 0)
    decreases |ops|
  {
    hide Exact, Next, Takes, NewId;
    if ops != [] {
      NextExact(w, ops[0]);
      RunExact(Next(w, ops[0]), ops[1..]);
    } else {
      ExactFinds(w);
    }
  }

  lemma ExactFinds(w: World)
    requires Exact(w)
    ensures |w.live| <= w.st.cur ==> NewId(w.st) != 0
  {
    hide Taken, NewId;
    if |w.live| <= w.st.cur {
      NeverFails(w.st, w.live);
    }
  }

  /** Looking for the least clear bit, byte by byte. */
  lemma {:induction false} LeastInByte(ids: seq<bv8>, i: nat, bit: nat)
    requires i < |ids| && bit <= BYTE2BIT && (bit < BYTE2BIT ==> !GetBit(ids[i], bit))
    requires forall k | 0 <= k < bit :: GetBit(ids[i], k)
    ensures LeastFrom(ids, i * BYTE2BIT + 1) ==
      if bit == BYTE2BIT then LeastFrom(ids, (i + 1) * BYTE2BIT + 1) else i * BYTE2BIT + bit + 1
  {
    hide GetBit;
    var n := i * BYTE2BIT + 1;
    var k := 0;
    while k < bit
      invariant k <= bit && LeastFrom(ids, n) == LeastFrom(ids, n + k)
    {
      assert (n + k - 1) / BYTE2BIT == i && (n + k - 1) % BYTE2BIT == k;
      k := k + 1;
    }
    if bit < BYTE2BIT {
      assert (n + k - 1) / BYTE2BIT == i && (n + k - 1) % BYTE2BIT == k;
    }
  }

  // ---------------------------------------------------------------- the class members

  class TimerIdTable {
    var ids: seq<bv8>   // s_ids
    var curTimers: nat  // s_curTimers

    constructor ()
      ensures |ids| == INIT_ID_SIZE && curTimers == 0 && forall n: nat :: !Taken(ids, n)
    {
      ids, curTimers := seq(INIT_ID_SIZE, _ => 0), 0;
    }

    function Abs(): State reads this { State(ids, curTimers) }

    /** The least clear bit of a byte, 8 if there is none. */
    static method ClearBit(idBytes: bv8) returns (bit: nat)
      ensures bit <= BYTE2BIT && (bit < BYTE2BIT ==> !GetBit(idBytes, bit))
      ensures forall k | 0 <= k < bit :: GetBit(idBytes, k)
    {
      bit := 0;
      while bit < BYTE2BIT && GetBit(idBytes, bit)
        invariant bit <= BYTE2BIT && forall k | 0 <= k < bit :: GetBit(idBytes, k)
      {
        bit := bit + 1;
      }
    }

    method CreateTimerID() returns (id: nat)
      modifies this`ids
      ensures id == old(NewId(Abs())) && Abs() == Create(old(Abs()))
    {
      hide GetBit, SetBit, LeastFrom;
      if curTimers >= |ids| * BYTE2BIT { ids := ids + [0]; }
      var i := 0;
      while i < |ids|
        invariant i <= |ids| && ids == Grown(old(Abs())).ids
        invariant LeastFrom(ids, 1) == LeastFrom(ids, i * BYTE2BIT + 1)
      {
        var bit := ClearBit(ids[i]);
        LeastInByte(ids, i, bit);
        if bit < BYTE2BIT {
          ids := ids[i := SetBit(ids[i], bit)];
          return i * BYTE2BIT + bit + 1;
        }
        i := i + 1;
      }
      return 0;
    }

    method ReleaseTimerID(id: nat)
      modifies this`ids
      ensures Abs() == Release(old(Abs()), id)
    {
      if id == 0 { return; }
      var pos, bit := id / BYTE2BIT, id % BYTE2BIT;
      if pos >= |ids| { return; }
      if bit == 0 {
        ids := ids[pos := ClrBit(ids[pos], BYTE2BIT - 1)];
      } else {
        ids := ids[pos := ClrBit(ids[pos], bit - 1)];
      }
    }
  }
}
