/** Whole runs of `AOIManager`: which operations keep the index, and which keep a view. */
module AoiRuns {
  import opened Aoi
  import opened AoiViews

  datatype Op =
    | EnterOp(e: Entity, pos: Location)
    | LeaveOp(e: Entity)
    | MoveOp(e: Entity, target: Location, path: seq<Location>)

  /** The cells that the operation computes exist. */
  predicate Possible(s: Scene, w: World, op: Op)
    requires Sized(s)
  {
    && op.e in w.loc
    && match op {
         case EnterOp(_, pos) => Fits(s, pos)
         case LeaveOp(e) => Fits(s, w.loc[e])
         case MoveOp(e, _, path) =>
           && (forall k | 0 <= k < |path| :: Fits(s, path[k]))
           && (e !in w.present ==> CheckPos(s, w.loc[e]) && Fits(s, w.loc[e]))
       }
  }

  /** A present entity enters once more only into its cell, and one that is not present moves
      only within its cell. */
  predicate Legal(s: Scene, w: World, op: Op)
    requires Sized(s)
  {
    && Possible(s, w, op)
    && match op {
         case EnterOp(e, pos) => e in w.present && CheckPos(s, pos) ==> CellOf(s, pos) == CellOf(s, w.loc[e])
         case LeaveOp(_) => true
         case MoveOp(e, target, path) =>
           e !in w.present && CheckPos(s, target) ==> StaysPut(s, CellOf(s, w.loc[e]), path)
       }
  }

  function Next(s: Scene, w: World, op: Op): World
    requires Sized(s) && op.e in w.loc
  {
    match op
    case EnterOp(e, pos) => Enter(s, w, e, pos)
    case LeaveOp(e) => Leave(s, w, e)
    case MoveOp(e, target, path) => Move(s, w, e, target, path)
  }

  /** Of the operations that are possible, the legal ones are exactly those that keep the index. */
  lemma NextIndexedIff(s: Scene, w: World, op: Op)
    requires Sized(s) && Indexed(s, w) && Gridded(s, w) && Possible(s, w, op)
    ensures Gridded(s, Next(s, w, op))
    ensures Indexed(s, Next(s, w, op)) <==> Legal(s, w, op)
  {
    hide Indexed, Enter, Leave, Walk, CheckPos, Fits, CellOf, StaysPut, Inside, Dims;
    match op {
      case EnterOp(e, pos) =>
        if e !in w.present {
          EnterIndexed(s, w, e, pos);
        } else if CheckPos(s, pos) {
          EnterAgainIndexed(s, w, e, pos);
          EnterGridded(s, w, e, pos);
        } else {
          EnterNowhere(s, w, e, pos);
        }
      case LeaveOp(e) =>
        if e in w.present { LeaveIndexed(s, w, e); } else { LeaveAbsentIndexed(s, w, e); }
      case MoveOp(e, target, path) =>
        if e in w.present { WalkIndexed(s, w, e, path); } else { WalkAbsentIndexed(s, w, e, path); }
    }
  }

  lemma EnterNowhere(s: Scene, w: World, e: Entity, pos: Location)
    requires Sized(s) && !CheckPos(s, pos)
    ensures Enter(s, w, e, pos) == w
  {
  }

  lemma EnterGridded(s: Scene, w: World, e: Entity, pos: Location)
    requires Sized(s) && Gridded(s, w)
    ensures Gridded(s, Enter(s, w, e, pos))
  {
    hide CheckPos, CellOf, Inside, Dims, Near, Hears;
  }

  predicate Runs(s: Scene, w: World, ops: seq<Op>)
    requires Sized(s)
    decreases |ops|
  {
    ops == [] || (Legal(s, w, ops[0]) && Runs(s, Next(s, w, ops[0]), ops[1..]))
  }

  function After(s: Scene, w: World, ops: seq<Op>): World
    requires Sized(s) && Runs(s, w, ops)
    decreases |ops|
  {
    if ops == [] then w else After(s, Next(s, w, ops[0]), ops[1..])
  }

  /** In every run each present entity is in exactly one cell, its location's, also when a
      move stopped part of the way. */
  lemma {:induction false} RunIndexed(s: Scene, w: World, ops: seq<Op>)
    requires Sized(s) && Indexed(s, w) && Gridded(s, w) && Runs(s, w, ops)
    ensures Indexed(s, After(s, w, ops)) && Gridded(s, After(s, w, ops))
    decreases |ops|
  {
    hide Indexed, Gridded, Next, Fits, CheckPos, CellOf;
    if ops != [] {
      NextIndexedIff(s, w, ops[0]);
      RunIndexed(s, Next(s, w, ops[0]), ops[1..]);
    }
  }

  // ---------------------------------------------------------------- views

  /** Others may do anything legal, except that the observer does not hear a second Enter, or a
      Leave of an entity that is not present; itself it may move as long as its view survives. */
  predicate Quiet(s: Scene, w: World, op: Op, o: Entity)
    requires Sized(s) && Indexed(s, w) && Gridded(s, w) && o in w.present && Legal(s, w, op)
  {
    var here := CellOf(s, w.loc[o]);
    match op
    case EnterOp(e, pos) => e in w.present && CheckPos(s, pos) ==> here !in Near(s, CellOf(s, pos))
    case LeaveOp(e) => e != o && (e !in w.present && CheckPos(s, w.loc[e]) ==> here !in Near(s, CellOf(s, w.loc[e])))
    case MoveOp(e, target, path) => e == o && CheckPos(s, target) ==> WalkSteady(s, w, o, path)
  }

  /** What somebody else does keeps an observer's view if and only if it is quiet. */
  lemma NextViewedIff(s: Scene, w: World, op: Op, o: Entity)
    requires Sized(s) && Indexed(s, w) && Gridded(s, w) && Legal(s, w, op)
    requires o in w.present && op.e != o && ViewOk(s, w, o)
    ensures var v := Next(s, w, op);
      Indexed(s, v) && o in v.present && (ViewOk(s, v, o) <==> Quiet(s, w, op, o))
  {
    hide Gridded, Enter, Leave, Walk, CheckPos, Fits, ViewOk, CellOf, Inside, Dims, StaysPut, Near;
    match op {
      case EnterOp(e, pos) =>
        if e !in w.present {
          EnterViewed(s, w, e, pos, o);
        } else if CheckPos(s, pos) {
          EnterAgainIff(s, w, e, pos, o);
        } else {
          EnterNowhere(s, w, e, pos);
        }
      case LeaveOp(e) =>
        if e in w.present {
          LeaveViewed(s, w, e, o);
        } else if CheckPos(s, w.loc[e]) {
          LeaveAbsentIff(s, w, e, o);
        } else {
          LeaveNowhere(s, w, e);
        }
      case MoveOp(e, target, path) =>
        if CheckPos(s, target) {
          if e in w.present { WalkViewed(s, w, e, path, o); } else { WalkAbsentViewed(s, w, e, path, o); }
        }
    }
  }

  lemma LeaveNowhere(s: Scene, w: World, e: Entity)
    requires Sized(s) && e in w.loc && !CheckPos(s, w.loc[e])
    ensures Leave(s, w, e) == w
  {
  }

  lemma OwnQuiet(s: Scene, w: World, op: Op, o: Entity)
    requires Sized(s) && Indexed(s, w) && Gridded(s, w) && o in w.present && ViewOk(s, w, o)
    requires op.e == o && Legal(s, w, op) && Quiet(s, w, op, o)
    ensures var v := Next(s, w, op); Indexed(s, v) && o in v.present && ViewOk(s, v, o)
  {
    hide Gridded, Enter, Leave, Walk, CheckPos, Fits, ViewOk, CellOf, Inside, Dims, StaysPut, Near, WalkSteady;
    match op {
      case EnterOp(e, pos) =>
        if CheckPos(s, pos) { EnterAgainIff(s, w, e, pos, o); } else { EnterNowhere(s, w, e, pos); }
      case LeaveOp(_) =>
      case MoveOp(_, target, path) =>
        if CheckPos(s, target) { WalkSteadyViewed(s, w, o, path); }
    }
  }

  lemma NextQuiet(s: Scene, w: World, op: Op, o: Entity)
    requires Sized(s) && Indexed(s, w) && Gridded(s, w) && o in w.present && ViewOk(s, w, o)
    requires Legal(s, w, op) && Quiet(s, w, op, o)
    ensures var v := Next(s, w, op); Indexed(s, v) && Gridded(s, v) && o in v.present && ViewOk(s, v, o)
  {
    hide Gridded, Next, ViewOk, CellOf, Inside, Dims, CheckPos, Fits, Quiet;
    NextIndexedIff(s, w, op);
    if op.e == o { OwnQuiet(s, w, op, o); } else { NextViewedIff(s, w, op, o); }
  }

  predicate AllQuiet(s: Scene, w: World, ops: seq<Op>, o: Entity)
    requires Sized(s) && Indexed(s, w) && Gridded(s, w) && o in w.present && ViewOk(s, w, o) && Runs(s, w, ops)
    decreases |ops|
  {
    ops == [] || (
      && Quiet(s, w, ops[0], o)
      && (NextQuiet(s, w, ops[0], o); AllQuiet(s, Next(s, w, ops[0]), ops[1..], o)))
  }

  /** An observer whose view was right keeps a right view over every quiet run: it has been told
      of exactly the entities whose neighbourhood contains its cell, never twice of an arrival
      and never of a departure it did not expect. */
  lemma {:induction false} RunViewed(s: Scene, w: World, ops: seq<Op>, o: Entity)
    requires Sized(s) && Indexed(s, w) && Gridded(s, w) && o in w.present && ViewOk(s, w, o) && Runs(s, w, ops)
    requires AllQuiet(s, w, ops, o)
    ensures var v := After(s, w, ops); Indexed(s, v) && o in v.present && ViewOk(s, v, o)
    decreases |ops|
  {
    hide CellOf, Inside, Dims, CheckPos, ViewOk, Gridded, Fits, StaysPut, Next, Quiet;
    if ops != [] {
      NextQuiet(s, w, ops[0], o);
      RunViewed(s, Next(s, w, ops[0]), ops[1..], o);
    }
  }

  /** The ordinary discipline: who enters is not present, who leaves is. */
  predicate Ordinary(w: World, op: Op) {
    match op
    case EnterOp(e, _) => e !in w.present
    case LeaveOp(e) => e in w.present
    case MoveOp(_, _, _) => true
  }

  predicate AllOrdinary(s: Scene, w: World, ops: seq<Op>)
    requires Sized(s) && Runs(s, w, ops)
    decreases |ops|
  {
    ops == [] || (Ordinary(w, ops[0]) && AllOrdinary(s, Next(s, w, ops[0]), ops[1..]))
  }

  lemma OrdinaryQuiet(s: Scene, w: World, op: Op, o: Entity)
    requires Sized(s) && Indexed(s, w) && Gridded(s, w) && o in w.present && Legal(s, w, op)
    requires Ordinary(w, op) && op.e != o
    ensures Quiet(s, w, op, o)
  {
    hide Gridded, CheckPos, CellOf, Near;
  }

  /** So while it stays put, an observer keeps a right view whatever the others do, as long as
      they keep to the discipline. */
  lemma {:induction false} RunStationary(s: Scene, w: World, ops: seq<Op>, o: Entity)
    requires Sized(s) && Indexed(s, w) && Gridded(s, w) && o in w.present && ViewOk(s, w, o) && Runs(s, w, ops)
    requires AllOrdinary(s, w, ops) && forall k | 0 <= k < |ops| :: ops[k].e != o
    ensures var v := After(s, w, ops); Indexed(s, v) && o in v.present && ViewOk(s, v, o)
    decreases |ops|
  {
    hide CellOf, Inside, Dims, CheckPos, ViewOk, Gridded, Fits, StaysPut, Next, Quiet, Ordinary;
    if ops != [] {
      OrdinaryQuiet(s, w, ops[0], o);
      NextQuiet(s, w, ops[0], o);
      RunStationary(s, Next(s, w, ops[0]), ops[1..], o);
    }
  }
}
