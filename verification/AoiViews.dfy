/** Views of observers that move themselves, and what an entity does to the index and to views
    that enters twice, or leaves or moves while it is not present. */
module AoiViews {
  import opened Aoi

  /** What the entity that crosses hears of itself: an ENTER when its new cell is not near its
      old one, and always a MOVE. */
  lemma MoverTold(s: Scene, w: World, o: Entity, pos: Location)
    requires Sized(s) && Indexed(s, w) && Gridded(s, w) && o in w.present && CheckPos(s, pos) && Fits(s, pos)
    requires CellOf(s, w.loc[o]) != CellOf(s, pos)
    ensures var old', new' := CellOf(s, w.loc[o]), CellOf(s, pos);
      Cross(s, w, o, old', new', pos).inbox[o] ==
        w.inbox[o] + (if new' in Near(s, old') then [] else [Enters(o, pos)]) + [Moves(o, pos)]
  {
    hide CheckPos, Inside, Dims, Near, Hears, Notify, CellOf;
    var old', new' := CellOf(s, w.loc[o]), CellOf(s, pos);
    var a, b := Near(s, old'), Near(s, new');
    var moved := Insert(Erase(w, o, old'), o, new');
    var at := moved.(loc := w.loc[o := pos]);
    var left := Notify(moved, a - b, Leaves(o));
    var entered := Notify(left, b - a, Enters(o, pos));
    PresentKnown(s, w, o);
    MovedIndexed(s, w, o, pos);
    FitsSelf(s, pos);
    MoverHears(s, at, moved, a - b, o);
    NotifyInbox(moved, a - b, Leaves(o), o);
    NotifyCells(moved, a - b, Leaves(o));
    MoverHears(s, at, left, b - a, o);
    NotifyInbox(left, b - a, Enters(o, pos), o);
    NotifyCells(left, b - a, Enters(o, pos));
    MoverHears(s, at, entered, a + b, o);
    NotifyInbox(entered, a + b, Moves(o, pos), o);
    assert w.inbox[o] + [] == w.inbox[o];
  }

  lemma PresentKnown(s: Scene, w: World, o: Entity)
    requires Sized(s) && Indexed(s, w) && o in w.present
    ensures o in w.loc && o in w.inbox && CheckPos(s, w.loc[o]) && CellOf(s, w.loc[o]) in w.cells
    ensures Inside(Dims(s), CellOf(s, w.loc[o]))
  {
  }

  lemma FitsSelf(s: Scene, pos: Location)
    requires Sized(s) && CheckPos(s, pos) && Fits(s, pos)
    ensures CellOf(s, pos) in Near(s, CellOf(s, pos))
  {
    hide CheckPos, CellOf;
    NearSelf(s, CellOf(s, pos));
  }

  /** `at` has the cells of `v` and the entity at its new place. */
  lemma MoverHears(s: Scene, at: World, v: World, g: set<Cell>, o: Entity)
    requires Sized(s) && Indexed(s, at) && o in at.present && v.cells == at.cells
    ensures Hears(v, g, o) <==> CellOf(s, at.loc[o]) in g
  {
    hide CellOf, CheckPos, Dims, Inside;
    HearsIff(s, at, g, o);
    HearsSame(at, v, g, o);
  }

  /** The view of an entity that moves into another cell stays right. */
  predicate MoverSees(s: Scene, w: World, o: Entity, pos: Location)
    requires Sized(s) && Indexed(s, w) && o in w.present
  {
    var old', new' := CellOf(s, w.loc[o]), CellOf(s, pos);
    && new' in Near(s, old')
    && forall e | e in w.present && e != o :: old' in Near(s, CellOf(s, w.loc[e])) <==> new' in Near(s, CellOf(s, w.loc[e]))
  }

  lemma HearMover(inbox: seq<Note>, o: Entity, pos: Location, again: bool)
    requires Clean(inbox) && o in Seen(inbox)
    ensures var t := inbox + (if again then [Enters(o, pos)] else []) + [Moves(o, pos)];
      Seen(t) == Seen(inbox) && (Clean(t) <==> !again)
  {
    hide Clean, Seen;
    var t := inbox + (if again then [Enters(o, pos)] else []);
    Hear(inbox, Enters(o, pos));
    Hear(t, Moves(o, pos));
    assert inbox + [] == inbox;
  }

  /** An entity that moves into another cell is not told of what comes into its view or goes
      out of it, and may be told again of itself: its view stays right if and only if the new
      cell is near the old one and the others near the one are those near the other. */
  lemma MoverSeesIff(s: Scene, w: World, o: Entity, pos: Location)
    requires Sized(s) && Indexed(s, w) && Gridded(s, w) && o in w.present && CheckPos(s, pos) && Fits(s, pos)
    requires CellOf(s, w.loc[o]) != CellOf(s, pos) && ViewOk(s, w, o)
    ensures var v := StepTo(s, w, o, pos);
      Indexed(s, v) && o in v.present && (ViewOk(s, v, o) <==> MoverSees(s, w, o, pos))
  {
    hide CheckPos, CellOf, Inside, Dims, Near, Hears, Clean, Seen, Notify, Cross, Gridded;
    StepIndexed(s, w, o, pos);
    StepPresent(s, w, o, pos);
    MoverTold(s, w, o, pos);
    PresentKnown(s, w, o);
    FitsSelf(s, pos);
    NearSelf(s, CellOf(s, w.loc[o]));
    var v := StepTo(s, w, o, pos);
    var old', new' := CellOf(s, w.loc[o]), CellOf(s, pos);
    HearMover(w.inbox[o], o, pos, new' !in Near(s, old'));
    VisibleMoved(s, w, v, o, pos);
  }

  lemma VisibleMoved(s: Scene, w: World, v: World, o: Entity, pos: Location)
    requires Sized(s) && Indexed(s, w) && Indexed(s, v) && o in w.present && v.present == w.present
    requires v.loc == w.loc[o := pos] && CellOf(s, pos) in Near(s, CellOf(s, pos))
    requires CellOf(s, w.loc[o]) in Near(s, CellOf(s, w.loc[o]))
    ensures Visible(s, v, o) == Visible(s, w, o) <==>
      forall e | e in w.present && e != o ::
        CellOf(s, w.loc[o]) in Near(s, CellOf(s, w.loc[e])) <==> CellOf(s, pos) in Near(s, CellOf(s, w.loc[e]))
  {
    hide CheckPos, CellOf, Inside, Dims, Near;
    forall e | e in w.present
      ensures e in Visible(s, v, o) <==> e == o || CellOf(s, pos) in Near(s, CellOf(s, w.loc[e]))
      ensures e in Visible(s, w, o) <==> e == o || CellOf(s, w.loc[o]) in Near(s, CellOf(s, w.loc[e]))
    {
    }
  }

  // ---------------------------------------------------------------- ways of an observer

  /** Each step of the way stays in the cell or keeps the mover's view. */
  predicate WalkSteady(s: Scene, w: World, o: Entity, path: seq<Location>)
    requires Sized(s) && Indexed(s, w) && Gridded(s, w) && o in w.present
    requires forall k | 0 <= k < |path| :: Fits(s, path[k])
    decreases |path|
  {
    path == [] || !CheckPos(s, path[0]) || (
      && (CellOf(s, w.loc[o]) == CellOf(s, path[0]) || MoverSees(s, w, o, path[0]))
      && (StepIndexed(s, w, o, path[0]); StepPresent(s, w, o, path[0]);
          WalkSteady(s, StepTo(s, w, o, path[0]), o, path[1..])))
  }

  lemma StepSteadyViewed(s: Scene, w: World, o: Entity, pos: Location)
    requires Sized(s) && Indexed(s, w) && Gridded(s, w) && o in w.present && CheckPos(s, pos) && Fits(s, pos)
    requires ViewOk(s, w, o) && (CellOf(s, w.loc[o]) == CellOf(s, pos) || MoverSees(s, w, o, pos))
    ensures var v := StepTo(s, w, o, pos); Indexed(s, v) && Gridded(s, v) && o in v.present && ViewOk(s, v, o)
  {
    hide CheckPos, CellOf, Inside, Dims, Near, Hears, Clean, Seen, Notify, Cross, MoverSees, Gridded;
    StepIndexed(s, w, o, pos);
    StepPresent(s, w, o, pos);
    PresentKnown(s, w, o);
    if CellOf(s, w.loc[o]) == CellOf(s, pos) {
      NotifyInbox(w, Near(s, CellOf(s, w.loc[o])), Moves(o, pos), o);
      Hear(w.inbox[o], Moves(o, pos));
      assert w.inbox[o] + [] == w.inbox[o];
      assert Visible(s, StepTo(s, w, o, pos), o) == Visible(s, w, o);
    } else {
      MoverSeesIff(s, w, o, pos);
    }
  }

  lemma {:induction false} WalkSteadyViewed(s: Scene, w: World, o: Entity, path: seq<Location>)
    requires Sized(s) && Indexed(s, w) && Gridded(s, w) && o in w.present && ViewOk(s, w, o)
    requires (forall k | 0 <= k < |path| :: Fits(s, path[k])) && WalkSteady(s, w, o, path)
    ensures var v := Walk(s, w, o, path); Indexed(s, v) && o in v.present && ViewOk(s, v, o)
    decreases |path|
  {
    hide CheckPos, CellOf, Inside, Dims, StepTo, ViewOk, MoverSees, Gridded, Fits;
    if path != [] && CheckPos(s, path[0]) {
      StepSteadyViewed(s, w, o, path[0]);
      WalkSteadyViewed(s, StepTo(s, w, o, path[0]), o, path[1..]);
    }
  }

  // ---------------------------------------------------------------- entering twice

  /** Where an entity that is present enters once more. */
  lemma EnterAgainIndexed(s: Scene, w: World, e: Entity, pos: Location)
    requires Sized(s) && Indexed(s, w) && Gridded(s, w) && e in w.present && CheckPos(s, pos) && Fits(s, pos)
    ensures Indexed(s, Enter(s, w, e, pos)) <==> CellOf(s, pos) == CellOf(s, w.loc[e])
  {
    hide CheckPos, CellOf, Inside, Dims, Near, Notify;
    var c, d := CellOf(s, w.loc[e]), CellOf(s, pos);
    var v := Insert(w.(loc := w.loc[e := pos], present := w.present + {e}), e, d);
    NotifyKeeps(v, Near(s, d), Enters(e, pos));
    assert e in w.cells[c];
    if c != d {
      assert e in v.cells[c] && e in v.cells[d];
    }
  }

  lemma NotifyKeeps(w: World, g: set<Cell>, note: Note)
    ensures var v := Notify(w, g, note);
      v.cells == w.cells && v.loc == w.loc && v.present == w.present && v.inbox.Keys == w.inbox.Keys
  {
  }

  /** A second ENTER into the same cell keeps an observer's view right if and only if the
      observer does not hear it. */
  lemma EnterAgainIff(s: Scene, w: World, e: Entity, pos: Location, o: Entity)
    requires Sized(s) && Indexed(s, w) && Gridded(s, w) && e in w.present && CheckPos(s, pos) && Fits(s, pos)
    requires CellOf(s, pos) == CellOf(s, w.loc[e]) && o in w.present && ViewOk(s, w, o)
    ensures var v := Enter(s, w, e, pos);
      && Indexed(s, v) && o in v.present
      && (ViewOk(s, v, o) <==> CellOf(s, w.loc[o]) !in Near(s, CellOf(s, pos)))
  {
    hide CheckPos, CellOf, Inside, Dims, Near, Notify, Clean, Seen, Hears;
    EnterAgainIndexed(s, w, e, pos);
    PresentKnown(s, w, o);
    var d := CellOf(s, pos);
    var v := Insert(w.(loc := w.loc[e := pos], present := w.present + {e}), e, d);
    NotifyKeeps(v, Near(s, d), Enters(e, pos));
    NotifyInbox(v, Near(s, d), Enters(e, pos), o);
    assert Indexed(s, v);
    HearsIff(s, v, Near(s, d), o);
    Hear(w.inbox[o], Enters(e, pos));
    assert w.inbox[o] + [] == w.inbox[o];
    assert Visible(s, Enter(s, w, e, pos), o) == Visible(s, w, o);
  }

  // ---------------------------------------------------------------- absent entities

  lemma AbsentNowhere(s: Scene, w: World, e: Entity)
    requires Sized(s) && Indexed(s, w) && e !in w.present
    ensures forall c | c in w.cells :: e !in w.cells[c]
  {
  }

  lemma LeaveAbsentIndexed(s: Scene, w: World, e: Entity)
    requires Sized(s) && Indexed(s, w) && Gridded(s, w) && e in w.loc && e !in w.present
    ensures var v := Leave(s, w, e); Indexed(s, v) && Gridded(s, v) && v.present == w.present && v.loc == w.loc
    ensures CheckPos(s, w.loc[e]) ==>
      Leave(s, w, e) == Notify(w, Near(s, CellOf(s, w.loc[e])), Leaves(e))
  {
    hide CheckPos, CellOf, Inside, Dims, Near, Notify;
    AbsentNowhere(s, w, e);
    if CheckPos(s, w.loc[e]) {
      var c := CellOf(s, w.loc[e]);
      assert w.present - {e} == w.present;
      if c in w.cells { assert w.cells[c] - {e} == w.cells[c] && w.cells[c := w.cells[c]] == w.cells; }
      assert Erase(w.(present := w.present - {e}), e, c) == w;
      NotifyKeeps(w, Near(s, c), Leaves(e));
    }
  }

  /** A LEAVE of an entity that is not present keeps the index, and an observer's view if and only
      if the observer does not hear it. */
  lemma LeaveAbsentIff(s: Scene, w: World, e: Entity, o: Entity)
    requires Sized(s) && Indexed(s, w) && Gridded(s, w) && e in w.loc && e !in w.present
    requires CheckPos(s, w.loc[e]) && Fits(s, w.loc[e]) && o in w.present && ViewOk(s, w, o)
    ensures var v := Leave(s, w, e);
      && Indexed(s, v) && o in v.present
      && (ViewOk(s, v, o) <==> CellOf(s, w.loc[o]) !in Near(s, CellOf(s, w.loc[e])))
  {
    hide CheckPos, CellOf, Inside, Dims, Near, Notify, Clean, Seen, Hears;
    LeaveAbsentIndexed(s, w, e);
    PresentKnown(s, w, o);
    var g := Near(s, CellOf(s, w.loc[e]));
    NotifyInbox(w, g, Leaves(e), o);
    HearsIff(s, w, g, o);
    Hear(w.inbox[o], Leaves(e));
    assert w.inbox[o] + [] == w.inbox[o];
    assert Visible(s, Leave(s, w, e), o) == Visible(s, w, o);
  }

  /** The entity is in the cell of its location although it is not present. */
  ghost predicate Stray(s: Scene, w: World, e: Entity)
    requires Sized(s)
  {
    && Gridded(s, w) && e in w.loc && e !in w.present
    && CellOf(s, w.loc[e]) in w.cells && e in w.cells[CellOf(s, w.loc[e])]
  }

  lemma StrayNotIndexed(s: Scene, w: World, e: Entity)
    requires Sized(s) && Stray(s, w, e)
    ensures !Indexed(s, w)
  {
    if Indexed(s, w) { AbsentNowhere(s, w, e); }
  }

  /** A step of an entity that is not present: within its cell it changes no cell, and across
      cells it puts the entity into the new one. */
  lemma StepAbsent(s: Scene, w: World, e: Entity, pos: Location)
    requires Sized(s) && Gridded(s, w) && e in w.loc && e !in w.present && CheckPos(s, pos) && Fits(s, pos)
    requires Indexed(s, w) || Stray(s, w, e)
    ensures var v := StepTo(s, w, e, pos);
      && Gridded(s, v) && e !in v.present && v.loc[e] == pos
      && (Indexed(s, w) && CellOf(s, pos) == CellOf(s, w.loc[e]) ==> Indexed(s, v))
      && (CellOf(s, pos) != CellOf(s, w.loc[e]) || Stray(s, w, e) ==> Stray(s, v, e))
  {
    hide CheckPos, CellOf, Inside, Dims, Near, Hears, StepTo, Notify;
    StepCells(s, w, e, pos);
    StepPresent(s, w, e, pos);
  }

  /** So it keeps the index if and only if it stays in the cell. */
  lemma MoveAbsentIndexed(s: Scene, w: World, e: Entity, pos: Location)
    requires Sized(s) && Indexed(s, w) && Gridded(s, w) && e in w.loc && e !in w.present
    requires CheckPos(s, pos) && Fits(s, pos)
    ensures Indexed(s, StepTo(s, w, e, pos)) <==> CellOf(s, pos) == CellOf(s, w.loc[e])
  {
    hide CheckPos, CellOf, Indexed, Gridded, Fits, StepTo, Stray;
    StepAbsent(s, w, e, pos);
    if CellOf(s, pos) != CellOf(s, w.loc[e]) {
      StrayNotIndexed(s, StepTo(s, w, e, pos), e);
    }
  }

  /** The way stays in cell `c`, as far as it is walked. */
  predicate StaysPut(s: Scene, c: Cell, path: seq<Location>)
    requires Sized(s)
    decreases |path|
  {
    path == [] || !CheckPos(s, path[0]) || (CellOf(s, path[0]) == c && StaysPut(s, c, path[1..]))
  }

  lemma {:induction false} WalkStray(s: Scene, w: World, e: Entity, path: seq<Location>)
    requires Sized(s) && Stray(s, w, e) && forall k | 0 <= k < |path| :: Fits(s, path[k])
    ensures Stray(s, Walk(s, w, e, path), e)
    decreases |path|
  {
    hide CheckPos, CellOf, Inside, Dims, Indexed, StepTo;
    if path != [] && CheckPos(s, path[0]) {
      StepAbsent(s, w, e, path[0]);
      WalkStray(s, StepTo(s, w, e, path[0]), e, path[1..]);
    }
  }

  /** A whole way of an entity that is not present keeps the index if and only if it stays in
      the cell; once out of it the entity is in cells where it does not belong. */
  lemma {:induction false} WalkAbsentIndexed(s: Scene, w: World, e: Entity, path: seq<Location>)
    requires Sized(s) && Indexed(s, w) && Gridded(s, w) && e in w.loc && e !in w.present
    requires forall k | 0 <= k < |path| :: Fits(s, path[k])
    ensures Gridded(s, Walk(s, w, e, path))
    ensures Indexed(s, Walk(s, w, e, path)) <==> StaysPut(s, CellOf(s, w.loc[e]), path)
    decreases |path|
  {
    hide CheckPos, CellOf, Inside, Dims, Indexed, StepTo, Gridded, Stray, Fits;
    if path != [] && CheckPos(s, path[0]) {
      StepAbsent(s, w, e, path[0]);
      var v := StepTo(s, w, e, path[0]);
      if CellOf(s, path[0]) == CellOf(s, w.loc[e]) {
        WalkAbsentIndexed(s, v, e, path[1..]);
      } else {
        WalkStray(s, v, e, path[1..]);
        StrayGridded(s, Walk(s, v, e, path[1..]), e);
        StrayNotIndexed(s, Walk(s, v, e, path[1..]), e);
      }
    }
  }

  lemma StrayGridded(s: Scene, w: World, e: Entity)
    requires Sized(s) && Stray(s, w, e)
    ensures Gridded(s, w)
  {
  }

  lemma StepAbsentViewed(s: Scene, w: World, e: Entity, pos: Location, o: Entity)
    requires Sized(s) && Indexed(s, w) && Gridded(s, w) && e in w.loc && e !in w.present
    requires CheckPos(s, pos) && Fits(s, pos) && CellOf(s, pos) == CellOf(s, w.loc[e])
    requires o in w.present && ViewOk(s, w, o)
    ensures var v := StepTo(s, w, e, pos); Indexed(s, v) && o in v.present && ViewOk(s, v, o)
  {
    hide CheckPos, CellOf, Inside, Dims, Near, Hears, Clean, Seen, Notify, Gridded;
    MoveAbsentIndexed(s, w, e, pos);
    StepPresent(s, w, e, pos);
    PresentKnown(s, w, o);
    NotifyInbox(w, Near(s, CellOf(s, w.loc[e])), Moves(e, pos), o);
    Hear(w.inbox[o], Moves(e, pos));
    assert w.inbox[o] + [] == w.inbox[o];
    assert Visible(s, StepTo(s, w, e, pos), o) == Visible(s, w, o);
  }

  /** Then every view stays right as well: only MOVEs are heard. */
  lemma {:induction false} WalkAbsentViewed(s: Scene, w: World, e: Entity, path: seq<Location>, o: Entity)
    requires Sized(s) && Indexed(s, w) && Gridded(s, w) && e in w.loc && e !in w.present
    requires (forall k | 0 <= k < |path| :: Fits(s, path[k])) && StaysPut(s, CellOf(s, w.loc[e]), path)
    requires o in w.present && ViewOk(s, w, o)
    ensures var v := Walk(s, w, e, path); Indexed(s, v) && o in v.present && ViewOk(s, v, o)
    decreases |path|
  {
    hide CheckPos, CellOf, Inside, Dims, StepTo, ViewOk, Gridded, Fits, Stray;
    if path != [] && CheckPos(s, path[0]) {
      StepAbsent(s, w, e, path[0]);
      StepAbsentViewed(s, w, e, path[0], o);
      WalkAbsentViewed(s, StepTo(s, w, e, path[0]), e, path[1..], o);
    }
  }
}
