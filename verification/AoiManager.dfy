/** `AOIManager` itself: a three-dimensional array of entity sets, updated in place, proved
    against the values of `Aoi`. */
module AoiObjects {
  import opened Aoi
  import opened AoiViews
  import opened AoiRuns

  class AOIManager {
    const scene: Scene
    const grids: array3<set<Entity>>

    ghost var known: set<Entity>    // every entity of the program
    ghost var present: set<Entity>  // those that have entered and not left

    ghost predicate Valid()
      reads this, grids, known
    {
      && Sized(scene)
      && Cell(grids.Length0, grids.Length1, grids.Length2) == Dims(scene)
      && Indexed(scene, Abs())
    }

    ghost function Cells(): (m: map<Cell, set<Entity>>)
      reads grids
      ensures forall c :: c in m <==> Inside(Cell(grids.Length0, grids.Length1, grids.Length2), c)
    {
      map x, y, z | 0 <= x < grids.Length0 && 0 <= y < grids.Length1 && 0 <= z < grids.Length2
        :: Cell(x, y, z) := grids[x, y, z]
    }

    ghost function Locations(): (m: map<Entity, Location>)
      reads this`known, known`location
      ensures m.Keys == known
    {
      map e | e in known :: e.location
    }

    ghost function Inboxes(): (m: map<Entity, seq<Note>>)
      reads this`known, known`inbox
      ensures m.Keys == known
    {
      map e | e in known :: e.inbox
    }

    ghost function Abs(): World
      reads this, grids, known
    {
      World(Cells(), Locations(), Inboxes(), present)
    }

    constructor (scene: Scene, ghost known: set<Entity>)
      requires Sized(scene)
      ensures Valid() && fresh(grids) && this.scene == scene && this.known == known && present == {}
    {
      this.scene := scene;
      grids := new set<Entity>[Pieces(scene.xleft, scene.xright, scene.length),
                               Pieces(scene.ybottom, scene.ytop, scene.width),
                               Pieces(scene.zbottom, scene.ztop, scene.high)]((x, y, z) => {});
      this.known, present := known, {};
    }

    /** A new entity becomes known; it is nowhere yet. */
    ghost method Admit(e: Entity)
      requires Valid() && e !in known
      modifies this`known
      ensures Valid() && known == old(known) + {e} && e !in present
      ensures var w := old(Abs());
        Abs() == w.(loc := w.loc[e := e.location], inbox := w.inbox[e := e.inbox])
    {
      hide CellOf, Dims, CheckPos, Inside;
      known := known + {e};
      assert Locations() == old(Locations())[e := e.location];
      assert Inboxes() == old(Inboxes())[e := e.inbox];
    }

    /** `FindAroundGrids`. */
    method FindAroundGrids(pos: Location) returns (cells: set<Cell>)
      requires Sized(scene) && Cell(grids.Length0, grids.Length1, grids.Length2) == Dims(scene) && Fits(scene, pos)
      ensures cells == if CheckPos(scene, pos) then Near(scene, CellOf(scene, pos)) else {}
      ensures forall c | c in cells :: c in Cells()
    {
      cells := {};
      if !CheckPos(scene, pos) { return; }
      var c := CellOf(scene, pos);
      ghost var d := Dims(scene);
      for x := c.x - 1 to c.x + 1
        invariant cells == set i, j, k | c.x - 1 <= i < x && c.y - 1 <= j < c.y + 1 && c.z - 1 <= k < c.z + 1
                      && Inside(d, Cell(i, j, k)) :: Cell(i, j, k)
      {
        if x < 0 || x >= grids.Length0 { continue; }
        for y := c.y - 1 to c.y + 1
          invariant cells == set i, j, k | c.x - 1 <= i <= x && c.y - 1 <= j < c.y + 1 && c.z - 1 <= k < c.z + 1
                        && (i < x || j < y) && Inside(d, Cell(i, j, k)) :: Cell(i, j, k)
        {
          if y < 0 || y >= grids.Length1 { continue; }
          for z := c.z - 1 to c.z + 1
            invariant cells == set i, j, k | c.x - 1 <= i <= x && c.y - 1 <= j < c.y + 1 && c.z - 1 <= k < c.z + 1
                          && (i < x || j < y || (j == y && k < z)) && Inside(d, Cell(i, j, k)) :: Cell(i, j, k)
          {
            if z < 0 || z > grids.Length2 { continue; }
            cells := cells + {Cell(x, y, z)};
          }
        }
      }
    }
  
    /** Tells every entity of one cell. */
    method NotifyGrid(c: Cell, note: Note)
      requires Inside(Cell(grids.Length0, grids.Length1, grids.Length2), c) && grids[c.x, c.y, c.z] <= known
      modifies known`inbox
      ensures forall o | o in known ::
        o.inbox == old(o.inbox) + (if o in grids[c.x, c.y, c.z] then [note] else [])
    {
      var rest := grids[c.x, c.y, c.z];
      while rest != {}
        invariant rest <= grids[c.x, c.y, c.z]
        invariant forall o | o in known ::
          o.inbox == old(o.inbox) + (if o in grids[c.x, c.y, c.z] - rest then [note] else [])
      {
        var o :| o in rest;
        o.inbox := o.inbox + [note];
        rest := rest - {o};
      }
    }

    /** Tells every entity of the cells, cell by cell. */
    method NotifyEach(cells: set<Cell>, note: Note, ghost w: World)
      requires forall c | c in cells :: c in w.cells
      requires w == Abs() && Apart(w.cells, known)
      modifies known`inbox
      ensures forall o | o in known :: o.inbox == old(o.inbox) + (if Hears(w, cells, o) then [note] else [])
    {
      hide Hears, Apart, Cells, Locations, Inboxes;
      var rest := cells;
      NothingHeard(w);
      assert cells - cells == {};
      while rest != {}
        invariant rest <= cells
        invariant forall o | o in known ::
          o.inbox == old(o.inbox) + (if Hears(w, cells - rest, o) then [note] else [])
      {
        var c :| c in rest;
        CellFound(w, known, cells, rest, c);
        CellIs(c);
        NotifyGrid(c, note);
        rest := rest - {c};
      }
      assert cells - {} == cells;
    }

    lemma CellIs(c: Cell)
      requires c in Cells()
      ensures Inside(Cell(grids.Length0, grids.Length1, grids.Length2), c) && Cells()[c] == grids[c.x, c.y, c.z]
    {
    }

    method NotifyGrids(cells: set<Cell>, note: Note)
      requires forall c | c in cells :: c in Cells()
      requires Apart(Cells(), known)
      modifies known`inbox
      ensures Abs() == Notify(old(Abs()), cells, note)
    {
      hide Hears, Apart, Inside;
      NotifyEach(cells, note, Abs());
      assert Cells() == old(Cells());
    }

    method NotifyAroundGrids(e: Entity, note: Note)
      requires Sized(scene) && Cell(grids.Length0, grids.Length1, grids.Length2) == Dims(scene)
      requires CheckPos(scene, e.location) && Fits(scene, e.location) && Apart(Cells(), known)
      modifies known`inbox
      ensures Abs() == Notify(old(Abs()), Near(scene, CellOf(scene, e.location)), note)
    {
      hide CheckPos, CellOf, Dims, Apart, Near, Hears, Notify, Inside, Abs, Cells;
      var cells := FindAroundGrids(e.location);
      NotifyGrids(cells, note);
    }

    method Insert(e: Entity, c: Cell)
      requires c in Cells()
      modifies grids
      ensures Abs() == Aoi.Insert(old(Abs()), e, c)
    {
      CellIs(c);
      grids[c.x, c.y, c.z] := grids[c.x, c.y, c.z] + {e};
      assert Cells() == old(Cells())[c := old(Cells())[c] + {e}];
    }

    method Erase(e: Entity, c: Cell)
      requires c in Cells()
      modifies grids
      ensures Abs() == Aoi.Erase(old(Abs()), e, c)
    {
      CellIs(c);
      grids[c.x, c.y, c.z] := grids[c.x, c.y, c.z] - {e};
      assert Cells() == old(Cells())[c := old(Cells())[c] - {e}];
    }

    method SetLocation(e: Entity, pos: Location)
      requires e in known
      modifies e`location
      ensures Abs() == old(Abs()).(loc := old(Abs()).loc[e := pos])
    {
      e.location := pos;
      assert Abs() == old(Abs()).(loc := old(Abs()).loc[e := pos]);
    }

    lemma LocationIs(e: Entity)
      requires e in known
      ensures Locations()[e] == e.location
    {
    }

    /** Puts the entity at its place. */
    method Place(e: Entity, pos: Location)
      requires e in known && Sized(scene) && CellOf(scene, pos) in Cells()
      modifies this`present, grids, e`location
      ensures var w := old(Abs());
        Abs() == Aoi.Insert(w.(loc := w.loc[e := pos], present := w.present + {e}), e, CellOf(scene, pos))
    {
      hide Aoi.Insert, CellOf, Locations, Inboxes, Cells;
      SetLocation(e, pos);
      present := present + {e};
      Insert(e, CellOf(scene, pos));
    }

    method Enter(e: Entity, pos: Location)
      requires Valid() && e in known && Legal(scene, Abs(), EnterOp(e, pos))
      modifies this`present, grids, known
      ensures Valid() && Abs() == Aoi.Enter(scene, old(Abs()), e, pos)
    {
      hide Indexed, Aoi.Insert, CellOf, Dims, Notify, CheckPos, Near, Cells, Locations, Inboxes;
      ghost var w := Abs();
      NextIndexedIff(scene, w, EnterOp(e, pos));
      if !CheckPos(scene, pos) { return; }
      EnterApart(scene, w, e, pos, known);
      Place(e, pos);
      InsertLoc(w.(loc := w.loc[e := pos], present := w.present + {e}), e, CellOf(scene, pos));
      LocationIs(e);
      assert e.location == pos;
      NotifyAroundGrids(e, Enters(e, pos));
    }

    method Leave(e: Entity)
      requires Valid() && e in known && Possible(scene, Abs(), LeaveOp(e))
      modifies this`present, grids, known
      ensures Valid() && Abs() == Aoi.Leave(scene, old(Abs()), e)
    {
      hide Indexed, Aoi.Erase, CellOf, Dims, Notify, CheckPos, Near, Cells, Locations, Inboxes;
      NextIndexedIff(scene, Abs(), LeaveOp(e));
      LocationIs(e);
      if !CheckPos(scene, e.location) { return; }
      IndexedApart(scene, Abs(), known);
      EraseApart(Abs().(present := present - {e}), e, CellOf(scene, e.location), known);
      present := present - {e};
      Erase(e, CellOf(scene, e.location));
      NotifyAroundGrids(e, Leaves(e));
    }

    /** The entity changes cells. */
    method Cross(e: Entity, pos: Location)
      requires Valid() && e in present && CheckPos(scene, pos) && Fits(scene, pos)
      modifies grids, known`inbox
      ensures Abs() == Aoi.Cross(scene, old(Abs()), e, CellOf(scene, e.location), CellOf(scene, pos), pos)
    {
      hide Indexed, Aoi.Insert, Aoi.Erase, CellOf, Dims, Notify, CheckPos, Near, Cells, Locations, Inboxes, Inside;
      ghost var w := Abs();
      PresentIs(scene, w, e);
      LocationIs(e);
      var oldCell, newCell := CellOf(scene, e.location), CellOf(scene, pos);
      var oldSet := FindAroundGrids(e.location);
      var newSet := FindAroundGrids(pos);
      MovedApart(scene, w, e, pos, known);
      Erase(e, oldCell);
      Insert(e, newCell);
      NotifyGrids(oldSet - newSet, Leaves(e));
      NotifyGrids(newSet - oldSet, Enters(e, pos));
      NotifyGrids(oldSet + newSet, Moves(e, pos));
    }

    /** One position of a way. */
    method StepTo(e: Entity, pos: Location)
      requires Valid() && e in known && CheckPos(scene, pos) && Fits(scene, pos)
      requires e !in present ==>
        CheckPos(scene, e.location) && Fits(scene, e.location) && CellOf(scene, pos) == CellOf(scene, e.location)
      modifies grids, known
      ensures Valid() && Abs() == Aoi.StepTo(scene, old(Abs()), e, pos)
    {
      hide Indexed, Aoi.Cross, CellOf, Dims, Notify, CheckPos, Near, Cells, Locations, Inboxes, Inside;
      ghost var w := Abs();
      LocationIs(e);
      if e in present {
        PresentIs(scene, w, e);
        StepIndexed(scene, w, e, pos);
      } else {
        MoveAbsentIndexed(scene, w, e, pos);
      }
      IndexedApart(scene, w, known);
      if CellOf(scene, e.location) == CellOf(scene, pos) {
        NotifyAroundGrids(e, Moves(e, pos));
      } else {
        Cross(e, pos);
      }
      SetLocation(e, pos);
    }

    /** `path` is what the way-finder answers. */
    method Move(e: Entity, target: Location, path: seq<Location>) returns (ok: bool)
      requires Valid() && e in known && Legal(scene, Abs(), MoveOp(e, target, path))
      modifies grids, known
      ensures Valid() && Abs() == Aoi.Move(scene, old(Abs()), e, target, path)
      ensures ok == Arrives(scene, target, path)
    {
      hide Indexed, Aoi.StepTo, CellOf, Dims, CheckPos, Cells, Locations, Inboxes, Inside;
      if !CheckPos(scene, target) { return false; }
      var k := 0;
      PathFrom(path, 0);
      LocationIs(e);
      while k < |path|
        invariant k <= |path| && Valid() && e in known && present == old(present)
        invariant e !in present ==>
          && CheckPos(scene, e.location) && Fits(scene, e.location)
          && StaysPut(scene, CellOf(scene, e.location), path[k..])
        invariant forall j | 0 <= j < k :: CheckPos(scene, path[j])
        invariant e in old(known) && Walk(scene, Abs(), e, path[k..]) == Walk(scene, old(Abs()), e, path)
      {
        PathFrom(path, k);
        if !CheckPos(scene, path[k]) {
          return false;
        }
        StepTo(e, path[k]);
        LocationIs(e);
        assert e.location == path[k];
        k := k + 1;
      }
      PathFrom(path, k);
      return true;
    }
  }

  lemma PathFrom(path: seq<Location>, k: nat)
    requires k <= |path|
    ensures k == 0 ==> path[k..] == path
    ensures k < |path| ==> path[k..][0] == path[k] && path[k..][1..] == path[k + 1..]
    ensures k == |path| ==> path[k..] == []
  {
  }

  lemma MovedApart(s: Scene, w: World, e: Entity, pos: Location, known: set<Entity>)
    requires Sized(s) && Indexed(s, w) && Gridded(s, w) && e in w.present && w.loc.Keys == known
    requires CheckPos(s, pos) && Fits(s, pos)
    ensures var v := Aoi.Insert(Aoi.Erase(w, e, CellOf(s, w.loc[e])), e, CellOf(s, pos));
      Apart(v.cells, known) && v.cells.Keys == w.cells.Keys && CellOf(s, pos) in w.cells
  {
    hide CellOf, Inside, Dims, CheckPos;
  }

  lemma InsertLoc(w: World, e: Entity, c: Cell)
    ensures Aoi.Insert(w, e, c).loc == w.loc
  {
  }

  lemma PresentIs(s: Scene, w: World, e: Entity)
    requires Sized(s) && Indexed(s, w) && e in w.present
    ensures e in w.loc && CheckPos(s, w.loc[e]) && CellOf(s, w.loc[e]) in w.cells
  {
  }

  lemma EnterApart(s: Scene, w: World, e: Entity, pos: Location, known: set<Entity>)
    requires Sized(s) && Indexed(s, w) && Gridded(s, w) && e in known && w.loc.Keys == known
    requires CheckPos(s, pos) && Legal(s, w, EnterOp(e, pos))
    ensures Apart(Aoi.Insert(w.(loc := w.loc[e := pos], present := w.present + {e}), e, CellOf(s, pos)).cells, known)
  {
    hide CellOf, Inside, Dims;
  }

  lemma EraseApart(w: World, e: Entity, c: Cell, known: set<Entity>)
    requires Apart(w.cells, known)
    ensures Apart(Aoi.Erase(w, e, c).cells, known)
  {
  }

  /** No entity is in two cells, and all are known. */
  ghost predicate Apart(cells: map<Cell, set<Entity>>, known: set<Entity>) {
    && (forall c | c in cells :: cells[c] <= known)
    && (forall c, d | c in cells && d in cells && c != d :: cells[c] !! cells[d])
  }

  lemma IndexedApart(s: Scene, w: World, known: set<Entity>)
    requires Sized(s) && Indexed(s, w) && w.loc.Keys == known
    ensures Apart(w.cells, known)
  {
    hide CheckPos, CellOf, Inside, Dims;
  }

  lemma NothingHeard(w: World)
    ensures forall o :: !Hears(w, {}, o)
  {
  }

  /** Hearing from one more cell. */
  lemma CellFound(w: World, known: set<Entity>, cells: set<Cell>, rest: set<Cell>, c: Cell)
    requires Apart(w.cells, known) && c in rest && rest <= cells && c in w.cells
    ensures forall o :: Hears(w, cells - (rest - {c}), o) <==> Hears(w, cells - rest, o) || o in w.cells[c]
    ensures forall o :: !(Hears(w, cells - rest, o) && o in w.cells[c])
    ensures w.cells[c] <= known
  {
    forall o ensures Hears(w, cells - (rest - {c}), o) <==> Hears(w, cells - rest, o) || o in w.cells[c] {
      assert cells - (rest - {c}) == (cells - rest) + {c};
      if o in w.cells[c] { assert c in (cells - rest) + {c}; }
    }
  }
}
