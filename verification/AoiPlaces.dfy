/** Views that hold positions: an observer knows where each entity in its view is. */
module AoiPlaces {
  import opened Aoi
  import opened AoiViews
  import opened AoiRuns
  import opened AoiTold

  /** Where the observer was last told that entities are. */
  function At(inbox: seq<Note>): map<Entity, Location> {
    if inbox == [] then map[] else
    var at, note := At(inbox[..|inbox| - 1]), inbox[|inbox| - 1];
    if note.Leaves? then at else at[note.e := note.at]
  }

  /** It was last told so of each entity in its view. */
  predicate Placed(s: Scene, w: World, o: Entity)
    requires Sized(s) && Indexed(s, w) && o in w.present
  {
    forall e | e in Visible(s, w, o) :: e in At(w.inbox[o]) && At(w.inbox[o])[e] == w.loc[e]
  }

  predicate About(e: Entity, notes: seq<Note>) { forall k | 0 <= k < |notes| :: notes[k].e == e }

  lemma HearAt(inbox: seq<Note>, note: Note)
    ensures At(inbox + [note]) == if note.Leaves? then At(inbox) else At(inbox)[note.e := note.at]
  {
    assert (inbox + [note])[..|inbox|] == inbox;
  }

  /** Notices about one entity say nothing of another. */
  lemma {:induction false} AtOthers(inbox: seq<Note>, notes: seq<Note>, e: Entity, x: Entity)
    requires About(e, notes) && x != e
    ensures x in At(inbox + notes) <==> x in At(inbox)
    ensures x in At(inbox) ==> At(inbox + notes)[x] == At(inbox)[x]
    decreases |notes|
  {
    if notes == [] {
      assert inbox + notes == inbox;
    } else {
      var init, last := notes[..|notes| - 1], notes[|notes| - 1];
      AtOthers(inbox, init, e, x);
      HearAt(inbox + init, last);
      assert inbox + notes == (inbox + init) + [last];
    }
  }

  lemma StepNotesSay(s: Scene, here: Cell, e: Entity, from: Location, pos: Location, inbox: seq<Note>)
    requires Sized(s)
    ensures var notes := StepNotes(s, here, e, from, pos);
      && About(e, notes)
      && (here in Near(s, CellOf(s, pos)) ==> e in At(inbox + notes) && At(inbox + notes)[e] == pos)
  {
    hide CellOf, Near, At;
    var notes := StepNotes(s, here, e, from, pos);
    if here in Near(s, CellOf(s, pos)) {
      var init := notes[..|notes| - 1];
      assert notes == init + [Moves(e, pos)] && inbox + notes == (inbox + init) + [Moves(e, pos)];
      HearAt(inbox + init, Moves(e, pos));
    }
  }

  /** What the observer hears about `e` alone, and who else is in its view, decide. */
  lemma PlacedAfter(s: Scene, w: World, v: World, o: Entity, e: Entity, notes: seq<Note>)
    requires Sized(s) && Indexed(s, w) && Indexed(s, v) && o in w.present && o in v.present && Placed(s, w, o)
    requires About(e, notes) && v.inbox[o] == w.inbox[o] + notes
    requires forall x | x in Visible(s, v, o) && x != e :: x in Visible(s, w, o) && v.loc[x] == w.loc[x]
    requires e in Visible(s, v, o) ==> e in At(v.inbox[o]) && At(v.inbox[o])[e] == v.loc[e]
    ensures Placed(s, v, o)
  {
    hide CellOf, Near, At, CheckPos, Inside, Dims, Visible;
    InView(s, v, o);
    forall x | x in Visible(s, v, o) ensures x in At(v.inbox[o]) && At(v.inbox[o])[x] == v.loc[x] {
      if x != e { AtOthers(w.inbox[o], notes, e, x); }
    }
  }

  lemma InView(s: Scene, w: World, o: Entity)
    requires Sized(s) && Indexed(s, w) && o in w.present
    ensures Visible(s, w, o) <= w.present <= w.loc.Keys
  {
  }

  // ---------------------------------------------------------------- steps and moves

  lemma StepPlaced(s: Scene, w: World, e: Entity, pos: Location, o: Entity)
    requires Sized(s) && Indexed(s, w) && Gridded(s, w) && e in w.present && CheckPos(s, pos) && Fits(s, pos)
    requires o in w.present && Placed(s, w, o)
    requires o == e && CellOf(s, w.loc[e]) != CellOf(s, pos) ==> MoverSees(s, w, o, pos)
    ensures var v := StepTo(s, w, e, pos); Indexed(s, v) && Gridded(s, v) && o in v.present && Placed(s, v, o)
  {
    hide CheckPos, CellOf, Inside, Dims, Near, StepTo, StepNotes, Gridded, Fits, At, Placed;
    StepIndexed(s, w, e, pos);
    StepPresent(s, w, e, pos);
    var v := StepTo(s, w, e, pos);
    var here := if o == e then CellOf(s, pos) else CellOf(s, w.loc[o]);
    PresentKnown(s, w, o);
    PresentKnown(s, v, o);
    StepTold(s, w, e, pos, o);
    StepNotesSay(s, here, e, w.loc[e], pos, w.inbox[o]);
    assert CellOf(s, v.loc[o]) == here;
    PlacedAfter(s, w, v, o, e, StepNotes(s, here, e, w.loc[e], pos));
  }

  lemma {:induction false} WalkPlaced(s: Scene, w: World, e: Entity, path: seq<Location>, o: Entity)
    requires Sized(s) && Indexed(s, w) && Gridded(s, w) && e in w.present && o in w.present && Placed(s, w, o)
    requires forall k | 0 <= k < |path| :: Fits(s, path[k])
    requires o == e ==> WalkSteady(s, w, o, path)
    ensures var v := Walk(s, w, e, path); Indexed(s, v) && o in v.present && Placed(s, v, o)
    decreases |path|
  {
    hide CheckPos, CellOf, Inside, Dims, StepTo, Placed, MoverSees, Gridded, Fits;
    if path != [] && CheckPos(s, path[0]) {
      StepPresent(s, w, e, path[0]);
      StepPlaced(s, w, e, path[0], o);
      WalkPlaced(s, StepTo(s, w, e, path[0]), e, path[1..], o);
    }
  }

  lemma StepAbsentPlaced(s: Scene, w: World, e: Entity, pos: Location, o: Entity)
    requires Sized(s) && Indexed(s, w) && Gridded(s, w) && e in w.loc && e !in w.present
    requires CheckPos(s, pos) && Fits(s, pos) && CellOf(s, pos) == CellOf(s, w.loc[e])
    requires o in w.present && Placed(s, w, o)
    ensures var v := StepTo(s, w, e, pos); Indexed(s, v) && o in v.present && Placed(s, v, o)
  {
    hide CheckPos, CellOf, Inside, Dims, Near, StepTo, Gridded, Fits, At, Placed;
    MoveAbsentIndexed(s, w, e, pos);
    StepPresent(s, w, e, pos);
    PresentKnown(s, w, o);
    WithinTold(s, w, e, pos, o);
    var notes := if CellOf(s, w.loc[o]) in Near(s, CellOf(s, w.loc[e])) then [Moves(e, pos)] else [];
    PlacedAfter(s, w, StepTo(s, w, e, pos), o, e, notes);
  }

  lemma {:induction false} WalkAbsentPlaced(s: Scene, w: World, e: Entity, path: seq<Location>, o: Entity)
    requires Sized(s) && Indexed(s, w) && Gridded(s, w) && e in w.loc && e !in w.present
    requires (forall k | 0 <= k < |path| :: Fits(s, path[k])) && StaysPut(s, CellOf(s, w.loc[e]), path)
    requires o in w.present && Placed(s, w, o)
    ensures var v := Walk(s, w, e, path); Indexed(s, v) && o in v.present && Placed(s, v, o)
    decreases |path|
  {
    hide CheckPos, CellOf, Inside, Dims, StepTo, Placed, Gridded, Fits, Stray;
    if path != [] && CheckPos(s, path[0]) {
      StepAbsent(s, w, e, path[0]);
      StepAbsentPlaced(s, w, e, path[0], o);
      WalkAbsentPlaced(s, StepTo(s, w, e, path[0]), e, path[1..], o);
    }
  }

  lemma EnterPlaced(s: Scene, w: World, e: Entity, pos: Location, o: Entity)
    requires Sized(s) && Indexed(s, w) && Gridded(s, w) && e in w.loc && CheckPos(s, pos) && Fits(s, pos)
    requires e in w.present ==> CellOf(s, pos) == CellOf(s, w.loc[e])
    requires o in w.present && Placed(s, w, o)
    ensures var v := Enter(s, w, e, pos); Indexed(s, v) && o in v.present && Placed(s, v, o)
  {
    hide CheckPos, CellOf, Inside, Dims, Near, Gridded, Fits, At, Placed, Notify, Insert;
    EnterStays(s, w, e, pos);
    if e in w.present { EnterAgainIndexed(s, w, e, pos); } else { EnterIndexed(s, w, e, pos); }
    var v := Enter(s, w, e, pos);
    EnterTold(s, w, e, pos, o);
    HearAt(w.inbox[o], Enters(e, pos));
    PresentKnown(s, w, o);
    var here := if o == e then CellOf(s, pos) else CellOf(s, w.loc[o]);
    var notes := if here in Near(s, CellOf(s, pos)) then [Enters(e, pos)] else [];
    assert CellOf(s, v.loc[o]) == here;
    PlacedAfter(s, w, v, o, e, notes);
  }

  lemma EnterStays(s: Scene, w: World, e: Entity, pos: Location)
    requires Sized(s) && CheckPos(s, pos)
    ensures var v := Enter(s, w, e, pos); v.loc == w.loc[e := pos] && v.present == w.present + {e}
  {
  }

  lemma LeavePlaced(s: Scene, w: World, e: Entity, o: Entity)
    requires Sized(s) && Indexed(s, w) && Gridded(s, w) && e in w.present && o in w.present && o != e && Placed(s, w, o)
    ensures var v := Leave(s, w, e); Indexed(s, v) && o in v.present && Placed(s, v, o)
  {
    hide CheckPos, CellOf, Inside, Dims, Near, Gridded, Fits, At, Placed, Notify, Erase;
    LeaveStays(s, w, e);
    LeaveIndexed(s, w, e);
    LeaveTold(s, w, e, o);
    var notes := if CellOf(s, w.loc[o]) in Near(s, CellOf(s, w.loc[e])) then [Leaves(e)] else [];
    PlacedAfter(s, w, Leave(s, w, e), o, e, notes);
  }

  lemma LeaveStays(s: Scene, w: World, e: Entity)
    requires Sized(s) && Indexed(s, w) && e in w.present
    ensures var v := Leave(s, w, e); v.loc == w.loc && v.present == w.present - {e}
  {
  }

  lemma LeaveAbsentPlaced(s: Scene, w: World, e: Entity, o: Entity)
    requires Sized(s) && Indexed(s, w) && Gridded(s, w) && e in w.loc && e !in w.present && CheckPos(s, w.loc[e])
    requires o in w.present && Placed(s, w, o)
    ensures var v := Leave(s, w, e); Indexed(s, v) && o in v.present && Placed(s, v, o)
  {
    hide CheckPos, CellOf, Inside, Dims, Near, Gridded, Fits, At, Placed, Notify;
    LeaveAbsentIndexed(s, w, e);
    PresentKnown(s, w, o);
    var g := Near(s, CellOf(s, w.loc[e]));
    NotifyInbox(w, g, Leaves(e), o);
    PlacedAfter(s, w, Leave(s, w, e), o, e, if Hears(w, g, o) then [Leaves(e)] else []);
  }

  // ---------------------------------------------------------------- runs

  lemma NextPlaced(s: Scene, w: World, op: Op, o: Entity)
    requires Sized(s) && Indexed(s, w) && Gridded(s, w) && o in w.present && Placed(s, w, o)
    requires Legal(s, w, op) && Quiet(s, w, op, o)
    ensures var v := Next(s, w, op); Indexed(s, v) && o in v.present && Placed(s, v, o)
  {
    hide Gridded, Enter, Leave, Walk, CheckPos, Fits, Placed, CellOf, Inside, Dims, StaysPut, Near, WalkSteady;
    match op {
      case EnterOp(e, pos) =>
        if CheckPos(s, pos) { EnterPlaced(s, w, e, pos, o); } else { EnterNowhere(s, w, e, pos); }
      case LeaveOp(e) =>
        if e in w.present {
          LeavePlaced(s, w, e, o);
        } else if CheckPos(s, w.loc[e]) {
          LeaveAbsentPlaced(s, w, e, o);
        } else {
          LeaveNowhere(s, w, e);
        }
      case MoveOp(e, target, path) =>
        if CheckPos(s, target) {
          if e in w.present { WalkPlaced(s, w, e, path, o); } else { WalkAbsentPlaced(s, w, e, path, o); }
        }
    }
  }

  /** Over every quiet run an observer whose view is right, and who knows where each entity in it
      is, goes on knowing that: it was last told the place where the entity is now. */
  lemma {:induction false} RunPlaced(s: Scene, w: World, ops: seq<Op>, o: Entity)
    requires Sized(s) && Indexed(s, w) && Gridded(s, w) && o in w.present && ViewOk(s, w, o) && Runs(s, w, ops)
    requires AllQuiet(s, w, ops, o) && Placed(s, w, o)
    ensures var v := After(s, w, ops);
      && Indexed(s, v) && o in v.present && ViewOk(s, v, o)
      && forall e | e in Seen(v.inbox[o]) :: e in At(v.inbox[o]) && At(v.inbox[o])[e] == v.loc[e]
    decreases |ops|
  {
    hide CellOf, Inside, Dims, CheckPos, Gridded, Fits, StaysPut, Next, Quiet, Clean, Seen, Near, At;
    if ops != [] {
      NextQuiet(s, w, ops[0], o);
      NextPlaced(s, w, ops[0], o);
      RunPlaced(s, Next(s, w, ops[0]), ops[1..], o);
    }
  }

  /** So it does while it stays put, whatever the others do that keep to the discipline. */
  lemma {:induction false} RunStationaryPlaced(s: Scene, w: World, ops: seq<Op>, o: Entity)
    requires Sized(s) && Indexed(s, w) && Gridded(s, w) && o in w.present && ViewOk(s, w, o) && Runs(s, w, ops)
    requires AllOrdinary(s, w, ops) && (forall k | 0 <= k < |ops| :: ops[k].e != o) && Placed(s, w, o)
    ensures var v := After(s, w, ops);
      && Indexed(s, v) && o in v.present && ViewOk(s, v, o)
      && forall e | e in Seen(v.inbox[o]) :: e in At(v.inbox[o]) && At(v.inbox[o])[e] == v.loc[e]
    decreases |ops|
  {
    hide CellOf, Inside, Dims, CheckPos, Gridded, Fits, StaysPut, Next, Quiet, Clean, Seen, Near, At, Ordinary;
    if ops != [] {
      OrdinaryQuiet(s, w, ops[0], o);
      NextQuiet(s, w, ops[0], o);
      NextPlaced(s, w, ops[0], o);
      RunStationaryPlaced(s, Next(s, w, ops[0]), ops[1..], o);
    }
  }

  /** A newcomer that has a right view at once knows the places, too. */
  lemma NewcomerPlaced(s: Scene, w: World, o: Entity, pos: Location)
    requires Sized(s) && Indexed(s, w) && Gridded(s, w) && o in w.loc && o !in w.present
    requires w.inbox[o] == [] && CheckPos(s, pos) && Fits(s, pos)
    requires forall e | e in w.present :: CellOf(s, pos) !in Near(s, CellOf(s, w.loc[e]))
    ensures var v := Enter(s, w, o, pos); Indexed(s, v) && o in v.present && ViewOk(s, v, o) && Placed(s, v, o)
  {
    hide CheckPos, CellOf, Inside, Dims, Near, Gridded, Notify, Insert, Clean, Seen, At;
    EnterSeesIff(s, w, o, pos);
    EnterStays(s, w, o, pos);
    EnterTold(s, w, o, pos, o);
    FitsSelf(s, pos);
    HearAt([], Enters(o, pos));
    assert [] + [Enters(o, pos)] == w.inbox[o] + [Enters(o, pos)];
  }
}
