/** What entities are told, notice by notice, and that it lets an observer know where the entities
    in its view are. */
module AoiTold {
  import opened Aoi
  import opened AoiViews
  import opened AoiRuns

  // ---------------------------------------------------------------- one operation

  /** The notices of one step to somebody in cell `here`. */
  function StepNotes(s: Scene, here: Cell, e: Entity, from: Location, pos: Location): seq<Note>
    requires Sized(s)
  {
    var a, b := Near(s, CellOf(s, from)), Near(s, CellOf(s, pos));
    (if here in a - b then [Leaves(e)] else []) + (if here in b - a then [Enters(e, pos)] else [])
    + (if here in a + b then [Moves(e, pos)] else [])
  }

  /** Who is present hears an Enter exactly if its cell is near. */
  lemma EnterTold(s: Scene, w: World, e: Entity, pos: Location, o: Entity)
    requires Sized(s) && Indexed(s, w) && Gridded(s, w) && e in w.loc && CheckPos(s, pos) && Fits(s, pos)
    requires e in w.present ==> CellOf(s, pos) == CellOf(s, w.loc[e])
    requires o in w.present || o == e
    ensures var here := if o == e then CellOf(s, pos) else CellOf(s, w.loc[o]);
      Enter(s, w, e, pos).inbox[o] == w.inbox[o] + (if here in Near(s, CellOf(s, pos)) then [Enters(e, pos)] else [])
  {
    hide CheckPos, CellOf, Inside, Dims, Near, Hears, Notify;
    var c := CellOf(s, pos);
    var v := Insert(w.(loc := w.loc[e := pos], present := w.present + {e}), e, c);
    assert Indexed(s, v);
    HearsIff(s, v, Near(s, c), o);
    NotifyInbox(v, Near(s, c), Enters(e, pos), o);
  }

  /** Who stays hears a Leave exactly if its cell is near; who leaves hears nothing. */
  lemma LeaveTold(s: Scene, w: World, e: Entity, o: Entity)
    requires Sized(s) && Indexed(s, w) && Gridded(s, w) && e in w.present && o in w.present
    ensures Leave(s, w, e).inbox[o] ==
      w.inbox[o] + (if o != e && CellOf(s, w.loc[o]) in Near(s, CellOf(s, w.loc[e])) then [Leaves(e)] else [])
  {
    hide CheckPos, CellOf, Inside, Dims, Near, Hears, Notify;
    PresentKnown(s, w, e);
    var c := CellOf(s, w.loc[e]);
    var v := Erase(w.(present := w.present - {e}), e, c);
    assert Indexed(s, v);
    NotifyInbox(v, Near(s, c), Leaves(e), o);
    if o == e {
      AbsentDeaf(s, v, Near(s, c), e);
    } else {
      HearsIff(s, v, Near(s, c), o);
    }
  }

  lemma AbsentDeaf(s: Scene, w: World, g: set<Cell>, o: Entity)
    requires Sized(s) && Indexed(s, w) && o !in w.present
    ensures !Hears(w, g, o)
  {
    AbsentNowhere(s, w, o);
  }

  /** In a step within its cell an entity tells those near of the MOVE, itself included, and
      nobody else of anything. */
  lemma WithinTold(s: Scene, w: World, e: Entity, pos: Location, o: Entity)
    requires Sized(s) && Indexed(s, w) && e in w.loc && CellOf(s, pos) == CellOf(s, w.loc[e]) && o in w.present
    ensures StepTo(s, w, e, pos).inbox[o] ==
      w.inbox[o] + (if CellOf(s, w.loc[o]) in Near(s, CellOf(s, w.loc[e])) then [Moves(e, pos)] else [])
  {
    hide CheckPos, CellOf, Inside, Dims, Near, Hears, Notify;
    var g := Near(s, CellOf(s, w.loc[e]));
    HearsIff(s, w, g, o);
    NotifyInbox(w, g, Moves(e, pos), o);
  }

  /** A step, within the cell or not, tells everybody else present by the cells, and the mover as if
      it had already been where it goes. */
  lemma StepTold(s: Scene, w: World, e: Entity, pos: Location, o: Entity)
    requires Sized(s) && Indexed(s, w) && Gridded(s, w) && e in w.present && CheckPos(s, pos) && Fits(s, pos)
    requires o in w.present
    ensures var here := if o == e then CellOf(s, pos) else CellOf(s, w.loc[o]);
      StepTo(s, w, e, pos).inbox[o] == w.inbox[o] + StepNotes(s, here, e, w.loc[e], pos)
  {
    hide CheckPos, Inside, Dims, Near, Hears, Notify, CellOf, Cross, Gridded;
    PresentKnown(s, w, e);
    if CellOf(s, w.loc[e]) == CellOf(s, pos) {
      WithinTold(s, w, e, pos, o);
    } else if o == e {
      FitsSelf(s, pos);
      MoverTold(s, w, e, pos);
    } else {
      GriddedFits(s, w, pos);
      CrossTold(s, w, e, pos, o);
    }
  }

  lemma GriddedFits(s: Scene, w: World, pos: Location)
    requires Sized(s) && Gridded(s, w) && CheckPos(s, pos) && Fits(s, pos)
    ensures CellOf(s, pos) in w.cells
  {
  }

  // ---------------------------------------------------------------- whole moves

  /** How many positions of the way are walked. */
  function Reach(s: Scene, path: seq<Location>): (k: nat)
    ensures k <= |path| && (forall j | 0 <= j < k :: CheckPos(s, path[j])) && (k < |path| ==> !CheckPos(s, path[k]))
  {
    if path == [] || !CheckPos(s, path[0]) then 0 else 1 + Reach(s, path[1..])
  }

  /** A move ends at the last managed position before the first that is not, or changes nothing when
      the target is not managed; and arrives when there is no such position. */
  lemma MoveEnds(s: Scene, w: World, e: Entity, target: Location, path: seq<Location>)
    requires Sized(s) && e in w.loc
    ensures var k := Reach(s, path); var v := Move(s, w, e, target, path);
      && (Arrives(s, target, path) <==> CheckPos(s, target) && k == |path|)
      && v.loc == (if CheckPos(s, target) && 0 < k then w.loc[e := path[k - 1]] else w.loc)
      && (!CheckPos(s, target) ==> v == w)
  {
    hide CheckPos;
    WalkEnds(s, w, e, path);
  }

  lemma {:induction false} WalkEnds(s: Scene, w: World, e: Entity, path: seq<Location>)
    requires Sized(s) && e in w.loc
    ensures var k := Reach(s, path);
      Walk(s, w, e, path).loc == if 0 < k then w.loc[e := path[k - 1]] else w.loc
    decreases |path|
  {
    hide CheckPos, StepTo;
    if path != [] && CheckPos(s, path[0]) {
      WalkEnds(s, StepTo(s, w, e, path[0]), e, path[1..]);
    }
  }

  /** The notices of a way, position by position; the mover is always where it goes. */
  function WayNotes(s: Scene, here: Cell, mover: bool, e: Entity, from: Location, path: seq<Location>): seq<Note>
    requires Sized(s)
    decreases |path|
  {
    if path == [] then [] else
    StepNotes(s, if mover then CellOf(s, path[0]) else here, e, from, path[0])
    + WayNotes(s, here, mover, e, path[0], path[1..])
  }

  /** Everybody present is told of each position of a move that is walked, one by one. */
  lemma {:induction false} WalkTold(s: Scene, w: World, e: Entity, path: seq<Location>, o: Entity)
    requires Sized(s) && Indexed(s, w) && Gridded(s, w) && e in w.present && o in w.present
    requires forall k | 0 <= k < |path| :: Fits(s, path[k])
    ensures o in Walk(s, w, e, path).inbox && o in w.inbox
    ensures Walk(s, w, e, path).inbox[o] ==
      w.inbox[o] + WayNotes(s, CellOf(s, w.loc[o]), o == e, e, w.loc[e], path[..Reach(s, path)])
    decreases |path|
  {
    hide CheckPos, CellOf, Inside, Dims, Near, StepTo, StepNotes, Gridded, Fits;
    var k := Reach(s, path);
    PresentKnown(s, w, o);
    if k == 0 {
      assert w.inbox[o] + [] == w.inbox[o];
    } else {
      var v := StepTo(s, w, e, path[0]);
      StepTold(s, w, e, path[0], o);
      StepIndexed(s, w, e, path[0]);
      StepPresent(s, w, e, path[0]);
      WalkTold(s, v, e, path[1..], o);
      assert path[..k][0] == path[0] && path[..k][1..] == path[1..][..k - 1];
      MoverAnywhere(s, CellOf(s, w.loc[o]), CellOf(s, v.loc[o]), o == e, e, path[0], path[1..][..k - 1]);
    }
  }

  lemma {:induction false} MoverAnywhere(
      s: Scene, here: Cell, there: Cell, mover: bool, e: Entity, from: Location, path: seq<Location>)
    requires Sized(s) && (here == there || mover)
    ensures WayNotes(s, here, mover, e, from, path) == WayNotes(s, there, mover, e, from, path)
    decreases |path|
  {
    hide CellOf, StepNotes;
    if path != [] {
      MoverAnywhere(s, here, there, mover, e, path[0], path[1..]);
    }
  }

  // ---------------------------------------------------------------- who is not concerned

  /** What is refused changes nothing: to enter where the scene does not reach, to leave from
      there, to move to there. */
  predicate Refused(s: Scene, w: World, op: Op)
    requires op.e in w.loc
  {
    match op
    case EnterOp(_, pos) => !CheckPos(s, pos)
    case LeaveOp(e) => !CheckPos(s, w.loc[e])
    case MoveOp(_, target, path) => !CheckPos(s, target) || path == [] || !CheckPos(s, path[0])
  }

  lemma StepDeaf(s: Scene, w: World, e: Entity, pos: Location, o: Entity)
    requires Sized(s) && Indexed(s, w) && e in w.loc && o in w.inbox && o !in w.present && o != e
    ensures StepTo(s, w, e, pos).inbox[o] == w.inbox[o]
  {
    hide CheckPos, CellOf, Inside, Dims, Near, Hears, Notify;
    AbsentNowhere(s, w, o);
    var old', new' := CellOf(s, w.loc[e]), CellOf(s, pos);
    var a, b := Near(s, old'), Near(s, new');
    var moved := Insert(Erase(w, e, old'), e, new');
    var left := Notify(moved, a - b, Leaves(e));
    var entered := Notify(left, b - a, Enters(e, pos));
    NotifyInbox(w, a, Moves(e, pos), o);
    NotifyInbox(moved, a - b, Leaves(e), o);
    NotifyCells(moved, a - b, Leaves(e));
    NotifyInbox(left, b - a, Enters(e, pos), o);
    NotifyCells(left, b - a, Enters(e, pos));
    NotifyInbox(entered, a + b, Moves(e, pos), o);
    Nowhere(w, a, o);
    Nowhere(moved, a - b, o);
    Nowhere(left, b - a, o);
    Nowhere(entered, a + b, o);
  }

  lemma Nowhere(w: World, g: set<Cell>, o: Entity)
    requires forall c | c in w.cells :: o !in w.cells[c]
    ensures !Hears(w, g, o)
  {
  }

  lemma {:induction false} WalkDeaf(s: Scene, w: World, e: Entity, path: seq<Location>, o: Entity)
    requires Sized(s) && Indexed(s, w) && Gridded(s, w) && e in w.loc && o in w.inbox && o !in w.present && o != e
    requires forall k | 0 <= k < |path| :: Fits(s, path[k])
    requires e in w.present || StaysPut(s, CellOf(s, w.loc[e]), path)
    ensures o in Walk(s, w, e, path).inbox && Walk(s, w, e, path).inbox[o] == w.inbox[o]
    decreases |path|
  {
    hide CheckPos, CellOf, Inside, Dims, Near, StepTo, Gridded, Fits;
    if path != [] && CheckPos(s, path[0]) {
      StepDeaf(s, w, e, path[0], o);
      StepPresent(s, w, e, path[0]);
      if e in w.present { StepIndexed(s, w, e, path[0]); } else { StepAbsent(s, w, e, path[0]); }
      WalkDeaf(s, StepTo(s, w, e, path[0]), e, path[1..], o);
    }
  }

  /** Whoever is not present is told nothing of what others do, only who acts changes place and
      presence, and what is refused changes nothing at all. */
  lemma OthersStay(s: Scene, w: World, op: Op, o: Entity)
    requires Sized(s) && Indexed(s, w) && Gridded(s, w) && Legal(s, w, op) && o in w.loc && o != op.e
    ensures var v := Next(s, w, op);
      && o in v.loc && v.loc[o] == w.loc[o] && (o in v.present <==> o in w.present)
      && (o !in w.present ==> o in v.inbox && o in w.inbox && v.inbox[o] == w.inbox[o])
      && (Refused(s, w, op) ==> v == w)
  {
    hide CheckPos, CellOf, Inside, Dims, Near, StepTo, Gridded, Fits, Notify, StaysPut, Walk;
    match op {
      case EnterOp(e, pos) =>
        if CheckPos(s, pos) { EnterDeaf(s, w, e, pos, o); } else { EnterNowhere(s, w, e, pos); }
      case LeaveOp(e) =>
        if CheckPos(s, w.loc[e]) { LeaveDeaf(s, w, e, o); } else { LeaveNowhere(s, w, e); }
      case MoveOp(e, target, path) =>
        if CheckPos(s, target) {
          WalkEnds(s, w, e, path);
          WalkPresent(s, w, e, path);
          if o !in w.present { WalkDeaf(s, w, e, path, o); }
          if path == [] || !CheckPos(s, path[0]) { WalkNowhere(s, w, e, path); }
        }
    }
  }

  lemma WalkNowhere(s: Scene, w: World, e: Entity, path: seq<Location>)
    requires Sized(s) && e in w.loc && (path == [] || !CheckPos(s, path[0]))
    ensures Walk(s, w, e, path) == w
  {
  }

  lemma {:induction false} WalkPresent(s: Scene, w: World, e: Entity, path: seq<Location>)
    requires Sized(s) && e in w.loc
    ensures Walk(s, w, e, path).present == w.present
    decreases |path|
  {
    hide CheckPos, StepTo;
    if path != [] && CheckPos(s, path[0]) {
      StepPresent(s, w, e, path[0]);
      WalkPresent(s, StepTo(s, w, e, path[0]), e, path[1..]);
    }
  }

  lemma EnterDeaf(s: Scene, w: World, e: Entity, pos: Location, o: Entity)
    requires Sized(s) && Indexed(s, w) && CheckPos(s, pos) && e in w.loc && o in w.loc && o != e
    ensures var v := Enter(s, w, e, pos);
      && v.loc == w.loc[e := pos] && v.present == w.present + {e}
      && o in v.inbox && (o !in w.present ==> v.inbox[o] == w.inbox[o])
  {
    hide CheckPos, CellOf, Inside, Dims, Near, Hears, Notify;
    var c := CellOf(s, pos);
    var v := Insert(w.(loc := w.loc[e := pos], present := w.present + {e}), e, c);
    NotifyInbox(v, Near(s, c), Enters(e, pos), o);
    NotifyKeeps(v, Near(s, c), Enters(e, pos));
    if o !in w.present {
      AbsentNowhere(s, w, o);
      Nowhere(v, Near(s, c), o);
    }
  }

  lemma LeaveDeaf(s: Scene, w: World, e: Entity, o: Entity)
    requires Sized(s) && Indexed(s, w) && e in w.loc && CheckPos(s, w.loc[e]) && o in w.loc && o != e
    ensures var v := Leave(s, w, e);
      && v.loc == w.loc && v.present == w.present - {e}
      && o in v.inbox && (o !in w.present ==> v.inbox[o] == w.inbox[o])
  {
    hide CheckPos, CellOf, Inside, Dims, Near, Hears, Notify;
    var c := CellOf(s, w.loc[e]);
    var v := Erase(w.(present := w.present - {e}), e, c);
    NotifyInbox(v, Near(s, c), Leaves(e), o);
    NotifyKeeps(v, Near(s, c), Leaves(e));
    if o !in w.present {
      AbsentNowhere(s, w, o);
      Nowhere(v, Near(s, c), o);
    }
  }
}
