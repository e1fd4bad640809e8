/** The areas of interest of `AOIManager`: a grid of cells, the entities in each, and the
    notices that entities get about each other, as values. */
module Aoi {

  class Entity {
    var location: Location
    var inbox: seq<Note>

    constructor (location: Location)
      ensures this.location == location && inbox == []
    {
      this.location, inbox := location, [];
    }
  }

  datatype Location = Location(x: real, y: real, z: real)

  datatype Note = Enters(e: Entity, at: Location) | Leaves(e: Entity) | Moves(e: Entity, at: Location)

  datatype Cell = Cell(x: int, y: int, z: int)

  /** The ranges that are managed and the size of a cell. */
  datatype Scene = Scene(
    xleft: real, xright: real, ybottom: real, ytop: real, zbottom: real, ztop: real,
    length: nat, width: nat, high: nat)

  // ---------------------------------------------------------------- the grid

  function Ceil(r: real): int { -((-r).Floor) }

  /** The cells along an axis. */
  function Pieces(low: real, top: real, size: nat): (n: int)
    requires 0 < size
    ensures 1 <= n
  {
    var len := Ceil(top - low);
    var n := if len <= 0 then 0 else len / size + (if len % size > 0 then 1 else 0);
    if n <= 0 then 1 else n
  }

  /** The cell index of a coordinate. */
  function Idx(low: real, v: real, size: nat): int
    requires 0 < size
  {
    Ceil((v - low) / size as real)
  }

  predicate Sized(s: Scene) { 0 < s.length && 0 < s.width && 0 < s.high }

  predicate CheckPos(s: Scene, p: Location) {
    && s.xleft <= p.x <= s.xright && s.ybottom <= p.y <= s.ytop && s.zbottom <= p.z <= s.ztop
  }

  function CellOf(s: Scene, p: Location): Cell
    requires Sized(s)
  {
    Cell(Idx(s.xleft, p.x, s.length), Idx(s.ybottom, p.y, s.width), Idx(s.zbottom, p.z, s.high))
  }

  function Dims(s: Scene): Cell
    requires Sized(s)
  {
    Cell(Pieces(s.xleft, s.xright, s.length), Pieces(s.ybottom, s.ytop, s.width), Pieces(s.zbottom, s.ztop, s.high))
  }

  predicate Inside(d: Cell, c: Cell) { 0 <= c.x < d.x && 0 <= c.y < d.y && 0 <= c.z < d.z }

  lemma CeilIs(r: real)
    ensures r <= Ceil(r) as real < r + 1.0
  {
  }

  lemma CeilAtMost(r: real, n: int)
    ensures Ceil(r) <= n <==> r <= n as real
  {
    CeilIs(r);
  }

  /** A managed coordinate has an index that exists if and only if it is not in the last
      piece: rounding up sends every coordinate of a piece past it, except its lower edge. */
  lemma IdxExistsIff(low: real, top: real, v: real, size: nat)
    requires 0 < size && low <= v <= top
    ensures 0 <= Idx(low, v, size) <= Pieces(low, top, size)
    ensures Idx(low, v, size) < Pieces(low, top, size) <==> v <= low + ((Pieces(low, top, size) - 1) * size) as real
  {
    var n, d := Pieces(low, top, size), (v - low) / size as real;
    hide Pieces, Ceil, Idx;
    assert Idx(low, v, size) == Ceil(d) by { IdxIs(low, v, size); }
    CeilAtMost(d, n - 1);
    CeilAtMost(d, n);
    CeilIs(d);
    Quotient(v - low, size, n - 1);
    Quotient(v - low, size, n);
    Quotient(v - low, size, 0);
    PiecesCover(low, top, size);
  }

  lemma IdxIs(low: real, v: real, size: nat)
    requires 0 < size
    ensures Idx(low, v, size) == Ceil((v - low) / size as real)
  {
  }

  lemma Quotient(d: real, size: nat, n: int)
    requires 0 < size
    ensures d / size as real <= n as real <==> d <= (n * size) as real
  {
    assert (n * size) as real == n as real * size as real;
  }

  lemma PiecesCover(low: real, top: real, size: nat)
    requires 0 < size && low <= top
    ensures top - low <= (Pieces(low, top, size) * size) as real
  {
    var len := Ceil(top - low);
    CeilIs(top - low);
  }

  /** The index `n` belongs to the coordinates past the lower edge of piece `n - 1`, up to its upper
      edge. */
  predicate Within(low: real, size: nat, n: int, v: real) {
    low + ((n - 1) * size) as real < v <= low + (n * size) as real
  }

  lemma IdxIff(low: real, v: real, size: nat, n: int)
    requires 0 < size
    ensures Idx(low, v, size) == n <==> Within(low, size, n, v)
  {
    hide Ceil, Idx;
    IdxIs(low, v, size);
    CeilAtMost((v - low) / size as real, n);
    CeilAtMost((v - low) / size as real, n - 1);
    Quotient(v - low, size, n);
    Quotient(v - low, size, n - 1);
  }

  /** A position has the cell whose pieces it is within on each axis, by the size of each axis. */
  lemma CellIff(s: Scene, p: Location, c: Cell)
    requires Sized(s)
    ensures CellOf(s, p) == c <==>
      && Within(s.xleft, s.length, c.x, p.x) && Within(s.ybottom, s.width, c.y, p.y) && Within(s.zbottom, s.high, c.z, p.z)
  {
    hide Idx, Within;
    IdxIff(s.xleft, p.x, s.length, c.x);
    IdxIff(s.ybottom, p.y, s.width, c.y);
    IdxIff(s.zbottom, p.z, s.high, c.z);
  }

  /** The lower edge of the last piece. */
  function LastEdge(low: real, top: real, size: nat): real
    requires 0 < size
  {
    low + ((Pieces(low, top, size) - 1) * size) as real
  }

  /** The cell of a managed position exists if and only if on no axis the position is past the lower
      edge of the last piece. */
  lemma FitsIff(s: Scene, p: Location)
    requires Sized(s) && CheckPos(s, p)
    ensures Fits(s, p) <==>
      && p.x <= LastEdge(s.xleft, s.xright, s.length)
      && p.y <= LastEdge(s.ybottom, s.ytop, s.width)
      && p.z <= LastEdge(s.zbottom, s.ztop, s.high)
  {
    hide Idx, Pieces;
    IdxExistsIff(s.xleft, s.xright, p.x, s.length);
    IdxExistsIff(s.ybottom, s.ytop, p.y, s.width);
    IdxExistsIff(s.zbottom, s.ztop, p.z, s.high);
  }

  /** There are as few pieces as cover the range, rounded up, and at least one. */
  lemma PiecesFewest(low: real, top: real, size: nat, k: nat)
    requires 0 < size && 0 < k
    ensures Pieces(low, top, size) <= k <==> top - low <= (k * size) as real
  {
    var len := Ceil(top - low);
    CeilAtMost(top - low, k * size);
    if 0 < len {
      DivideUp(len, size, k);
    }
  }

  lemma DivideUp(len: int, size: nat, k: nat)
    requires 0 < size && 0 < len
    ensures len / size + (if len % size > 0 then 1 else 0) <= k <==> len <= k * size
  {
    var q, r := len / size, len % size;
    assert len == size * q + r;
    Products(size, q, r, k);
  }

  lemma Products(size: nat, q: nat, r: nat, k: nat)
    requires r < size
    ensures q + (if r > 0 then 1 else 0) <= k <==> size * q + r <= k * size
  {
    var m := k - q;
    Distribute(size, q, m);
    if 1 <= m {
      AtLeast(size, m);
    } else if m < 0 {
      AtLeast(size, -m);
      Distribute(size, m, -m);
    }
  }

  lemma Distribute(a: int, b: int, c: int)
    ensures a * (b + c) == a * b + a * c
  {
  }

  lemma AtLeast(a: nat, b: int)
    requires 1 <= b
    ensures a <= a * b
  {
  }

  // ---------------------------------------------------------------- operations

  /** `cells` holds the entities of each grid cell, `loc` where each entity thinks it is,
      `inbox` the notices it has got; `present` are those that have entered and not left. */
  datatype World = World(
    cells: map<Cell, set<Entity>>, loc: map<Entity, Location>, inbox: map<Entity, seq<Note>>, present: set<Entity>)

  /** `FindAroundGrids`: per axis the cell itself and the one before it. */
  function Near(s: Scene, c: Cell): set<Cell>
    requires Sized(s)
  {
    set x, y, z | c.x - 1 <= x < c.x + 1 && c.y - 1 <= y < c.y + 1 && c.z - 1 <= z < c.z + 1
      && Inside(Dims(s), Cell(x, y, z)) :: Cell(x, y, z)
  }

  predicate Hears(w: World, g: set<Cell>, o: Entity) { exists c | c in g :: c in w.cells && o in w.cells[c] }

  /** `NotifyGrids`. */
  function Notify(w: World, g: set<Cell>, note: Note): World {
    w.(inbox := map o | o in w.inbox :: w.inbox[o] + (if Hears(w, g, o) then [note] else []))
  }

  function Insert(w: World, e: Entity, c: Cell): World {
    if c in w.cells then w.(cells := w.cells[c := w.cells[c] + {e}]) else w
  }

  function Erase(w: World, e: Entity, c: Cell): World {
    if c in w.cells then w.(cells := w.cells[c := w.cells[c] - {e}]) else w
  }

  function Enter(s: Scene, w: World, e: Entity, pos: Location): World
    requires Sized(s)
  {
    if !CheckPos(s, pos) then w else
    var c := CellOf(s, pos);
    Notify(Insert(w.(loc := w.loc[e := pos], present := w.present + {e}), e, c), Near(s, c), Enters(e, pos))
  }

  function Leave(s: Scene, w: World, e: Entity): World
    requires Sized(s) && e in w.loc
  {
    if !CheckPos(s, w.loc[e]) then w else
    var c := CellOf(s, w.loc[e]);
    Notify(Erase(w.(present := w.present - {e}), e, c), Near(s, c), Leaves(e))
  }

  /** The entity changes cells: those that lose it, those that gain it, and then both kinds
      and the rest are told. */
  function Cross(s: Scene, w: World, e: Entity, old': Cell, new': Cell, pos: Location): World
    requires Sized(s)
  {
    var moved := Insert(Erase(w, e, old'), e, new');
    var left := Notify(moved, Near(s, old') - Near(s, new'), Leaves(e));
    var entered := Notify(left, Near(s, new') - Near(s, old'), Enters(e, pos));
    Notify(entered, Near(s, old') + Near(s, new'), Moves(e, pos))
  }

  function StepTo(s: Scene, w: World, e: Entity, pos: Location): (v: World)
    requires Sized(s) && e in w.loc
    ensures v.loc == w.loc[e := pos]
  {
    var old', new' := CellOf(s, w.loc[e]), CellOf(s, pos);
    var told := if old' == new' then Notify(w, Near(s, old'), Moves(e, pos)) else Cross(s, w, e, old', new', pos);
    told.(loc := told.loc[e := pos])
  }

  /** The way ends at the first position that is not managed. */
  function Walk(s: Scene, w: World, e: Entity, path: seq<Location>): World
    requires Sized(s) && e in w.loc
    decreases |path|
  {
    if path == [] || !CheckPos(s, path[0]) then w else Walk(s, StepTo(s, w, e, path[0]), e, path[1..])
  }

  function Move(s: Scene, w: World, e: Entity, target: Location, path: seq<Location>): World
    requires Sized(s) && e in w.loc
  {
    if !CheckPos(s, target) then w else Walk(s, w, e, path)
  }

  /** `Move` returns true. */
  predicate Arrives(s: Scene, target: Location, path: seq<Location>) {
    CheckPos(s, target) && forall k | 0 <= k < |path| :: CheckPos(s, path[k])
  }

  // ---------------------------------------------------------------- the index

  /** Each entity that is present is in exactly one cell, the one that its location gives. */
  predicate Indexed(s: Scene, w: World)
    requires Sized(s)
  {
    && w.loc.Keys == w.inbox.Keys && w.present <= w.loc.Keys
    && (forall e | e in w.present :: CheckPos(s, w.loc[e]) && CellOf(s, w.loc[e]) in w.cells)
    && (forall c | c in w.cells :: Inside(Dims(s), c) && w.cells[c] == set e | e in w.present && CellOf(s, w.loc[e]) == c)
  }

  /** The cells that exist are those of the scene. */
  ghost predicate Gridded(s: Scene, w: World)
    requires Sized(s)
  {
    forall c :: c in w.cells <==> Inside(Dims(s), c)
  }

  /** An index computed for a managed position exists. */
  predicate Fits(s: Scene, p: Location)
    requires Sized(s)
  {
    CheckPos(s, p) ==> Inside(Dims(s), CellOf(s, p))
  }

  lemma NotifyIndexed(s: Scene, w: World, g: set<Cell>, note: Note)
    requires Sized(s) && Indexed(s, w)
    ensures Indexed(s, Notify(w, g, note))
  {
    hide CheckPos, CellOf, Inside, Dims;
  }

  lemma EnterIndexed(s: Scene, w: World, e: Entity, pos: Location)
    requires Sized(s) && Indexed(s, w) && Gridded(s, w) && e in w.loc && e !in w.present && Fits(s, pos)
    ensures Indexed(s, Enter(s, w, e, pos)) && Gridded(s, Enter(s, w, e, pos))
  {
    hide CellOf, Inside, Dims, Near;
    if CheckPos(s, pos) {
      var c := CellOf(s, pos);
      var v := Insert(w.(loc := w.loc[e := pos], present := w.present + {e}), e, c);
      assert Indexed(s, v);
      NotifyIndexed(s, v, Near(s, c), Enters(e, pos));
    }
  }

  lemma LeaveIndexed(s: Scene, w: World, e: Entity)
    requires Sized(s) && Indexed(s, w) && Gridded(s, w) && e in w.present
    ensures Indexed(s, Leave(s, w, e)) && Gridded(s, Leave(s, w, e))
  {
    hide CheckPos, CellOf, Inside, Dims, Near;
    var c := CellOf(s, w.loc[e]);
    var v := Erase(w.(present := w.present - {e}), e, c);
    assert Indexed(s, v);
    NotifyIndexed(s, v, Near(s, c), Leaves(e));
  }

  lemma MovedIndexed(s: Scene, w: World, e: Entity, pos: Location)
    requires Sized(s) && Indexed(s, w) && Gridded(s, w) && e in w.present && CheckPos(s, pos) && Fits(s, pos)
    ensures var old', new' := CellOf(s, w.loc[e]), CellOf(s, pos);
      Indexed(s, (if old' == new' then w else Insert(Erase(w, e, old'), e, new')).(loc := w.loc[e := pos]))
  {
    hide CheckPos, CellOf, Inside, Dims;
  }

  lemma StepCells(s: Scene, w: World, e: Entity, pos: Location)
    requires Sized(s) && e in w.loc
    ensures var v, old', new' := StepTo(s, w, e, pos), CellOf(s, w.loc[e]), CellOf(s, pos);
      && v.cells == (if old' == new' then w else Insert(Erase(w, e, old'), e, new')).cells
      && v.cells.Keys == w.cells.Keys && v.present == w.present && v.inbox.Keys == w.inbox.Keys
  {
    hide CheckPos, CellOf, Inside, Dims, Near, Hears;
  }

  lemma StepIndexed(s: Scene, w: World, e: Entity, pos: Location)
    requires Sized(s) && Indexed(s, w) && Gridded(s, w) && e in w.present && CheckPos(s, pos) && Fits(s, pos)
    ensures Indexed(s, StepTo(s, w, e, pos)) && Gridded(s, StepTo(s, w, e, pos))
  {
    hide CheckPos, CellOf, Inside, Dims, Near, Hears, StepTo;
    MovedIndexed(s, w, e, pos);
    StepCells(s, w, e, pos);
  }

  lemma {:induction false} WalkIndexed(s: Scene, w: World, e: Entity, path: seq<Location>)
    requires Sized(s) && Indexed(s, w) && Gridded(s, w) && e in w.present
    requires forall k | 0 <= k < |path| :: Fits(s, path[k])
    ensures Indexed(s, Walk(s, w, e, path)) && Gridded(s, Walk(s, w, e, path))
    decreases |path|
  {
    hide CheckPos, CellOf, Inside, Dims, Near, Hears, StepTo;
    if path != [] && CheckPos(s, path[0]) {
      StepIndexed(s, w, e, path[0]);
      StepPresent(s, w, e, path[0]);
      WalkIndexed(s, StepTo(s, w, e, path[0]), e, path[1..]);
    }
  }

  lemma StepPresent(s: Scene, w: World, e: Entity, pos: Location)
    requires Sized(s) && e in w.loc
    ensures StepTo(s, w, e, pos).present == w.present
  {
  }

  // ---------------------------------------------------------------- views

  /** What a notice changes in an observer's view, and whether it is a proper one: no ENTER
      of an entity already in view, no LEAVE of one that is not. */
  function See(seen: set<Entity>, note: Note): set<Entity> {
    match note
    case Enters(e, _) => seen + {e}
    case Leaves(e) => seen - {e}
    case Moves(_, _) => seen
  }

  predicate Proper(seen: set<Entity>, note: Note) {
    match note
    case Enters(e, _) => e !in seen
    case Leaves(e) => e in seen
    case Moves(_, _) => true
  }

  /** The entities that an observer has been told are there. */
  function Seen(inbox: seq<Note>): set<Entity> {
    if inbox == [] then {} else See(Seen(inbox[..|inbox| - 1]), inbox[|inbox| - 1])
  }

  /** No ENTER is repeated and no LEAVE is unmatched. */
  predicate Clean(inbox: seq<Note>) {
    inbox == [] || (Clean(inbox[..|inbox| - 1]) && Proper(Seen(inbox[..|inbox| - 1]), inbox[|inbox| - 1]))
  }

  /** The entities whose neighbourhood contains the observer's cell. */
  function Visible(s: Scene, w: World, o: Entity): set<Entity>
    requires Sized(s) && Indexed(s, w) && o in w.present
  {
    set e | e in w.present && CellOf(s, w.loc[o]) in Near(s, CellOf(s, w.loc[e]))
  }

  predicate ViewOk(s: Scene, w: World, o: Entity)
    requires Sized(s) && Indexed(s, w) && o in w.present
  {
    Clean(w.inbox[o]) && Seen(w.inbox[o]) == Visible(s, w, o)
  }

  lemma Hear(inbox: seq<Note>, note: Note)
    ensures Seen(inbox + [note]) == See(Seen(inbox), note)
    ensures Clean(inbox + [note]) <==> Clean(inbox) && Proper(Seen(inbox), note)
  {
    assert (inbox + [note])[..|inbox|] == inbox;
  }

  lemma HearsIff(s: Scene, w: World, g: set<Cell>, o: Entity)
    requires Sized(s) && Indexed(s, w) && o in w.present
    ensures Hears(w, g, o) <==> CellOf(s, w.loc[o]) in g
  {
    hide CheckPos, CellOf, Inside, Dims;
    var c := CellOf(s, w.loc[o]);
    assert o in w.cells[c];
  }

  lemma EnterViewed(s: Scene, w: World, e: Entity, pos: Location, o: Entity)
    requires Sized(s) && Indexed(s, w) && Gridded(s, w) && e in w.loc && e !in w.present && Fits(s, pos)
    requires o in w.present && ViewOk(s, w, o)
    ensures Indexed(s, Enter(s, w, e, pos)) && o in Enter(s, w, e, pos).present && ViewOk(s, Enter(s, w, e, pos), o)
  {
    hide CellOf, Inside, Dims, Near, Clean, Seen, Hears;
    EnterIndexed(s, w, e, pos);
    if CheckPos(s, pos) {
      var c := CellOf(s, pos);
      var v := Insert(w.(loc := w.loc[e := pos], present := w.present + {e}), e, c);
      assert Indexed(s, v);
      HearsIff(s, v, Near(s, c), o);
      Hear(w.inbox[o], Enters(e, pos));
      assert w.inbox[o] + [] == w.inbox[o];
    }
  }

  lemma LeaveViewed(s: Scene, w: World, e: Entity, o: Entity)
    requires Sized(s) && Indexed(s, w) && Gridded(s, w) && e in w.present
    requires o in w.present && o != e && ViewOk(s, w, o)
    ensures Indexed(s, Leave(s, w, e)) && o in Leave(s, w, e).present && ViewOk(s, Leave(s, w, e), o)
  {
    hide CheckPos, CellOf, Inside, Dims, Near, Clean, Seen, Hears;
    LeaveIndexed(s, w, e);
    var c := CellOf(s, w.loc[e]);
    var v := Erase(w.(present := w.present - {e}), e, c);
    assert Indexed(s, v);
    HearsIff(s, v, Near(s, c), o);
    Hear(w.inbox[o], Leaves(e));
    assert w.inbox[o] + [] == w.inbox[o];
  }

  lemma HearsSame(w: World, v: World, g: set<Cell>, o: Entity)
    requires v.cells.Keys == w.cells.Keys && forall c | c in w.cells :: o in v.cells[c] <==> o in w.cells[c]
    ensures Hears(v, g, o) <==> Hears(w, g, o)
  {
  }

  lemma NotifyInbox(w: World, g: set<Cell>, note: Note, o: Entity)
    requires o in w.inbox
    ensures var v := Notify(w, g, note);
      v.inbox.Keys == w.inbox.Keys && v.inbox[o] == w.inbox[o] + (if Hears(w, g, o) then [note] else [])
  {
  }

  lemma CrossTold(s: Scene, w: World, e: Entity, pos: Location, o: Entity)
    requires Sized(s) && Indexed(s, w) && Gridded(s, w) && e in w.present && o in w.present && o != e
    requires CellOf(s, pos) in w.cells
    ensures var here, a, b := CellOf(s, w.loc[o]), Near(s, CellOf(s, w.loc[e])), Near(s, CellOf(s, pos));
      Cross(s, w, e, CellOf(s, w.loc[e]), CellOf(s, pos), pos).inbox[o] ==
        w.inbox[o] + (if here in a - b then [Leaves(e)] else []) + (if here in b - a then [Enters(e, pos)] else [])
          + (if here in a + b then [Moves(e, pos)] else [])
  {
    hide CheckPos, Inside, Dims, Near, Hears, Notify, CellOf;
    var a, b := Near(s, CellOf(s, w.loc[e])), Near(s, CellOf(s, pos));
    var moved := Insert(Erase(w, e, CellOf(s, w.loc[e])), e, CellOf(s, pos));
    var left := Notify(moved, a - b, Leaves(e));
    var entered := Notify(left, b - a, Enters(e, pos));
    NotifyInbox(moved, a - b, Leaves(e), o);
    NotifyInbox(left, b - a, Enters(e, pos), o);
    NotifyInbox(entered, a + b, Moves(e, pos), o);
    NotifyCells(moved, a - b, Leaves(e));
    NotifyCells(left, b - a, Enters(e, pos));
    HearsSame(w, moved, a - b, o);
    HearsSame(w, left, b - a, o);
    HearsSame(w, entered, a + b, o);
    HearsIff(s, w, a - b, o);
    HearsIff(s, w, b - a, o);
    HearsIff(s, w, a + b, o);
  }

  lemma NotifyCells(w: World, g: set<Cell>, note: Note)
    ensures Notify(w, g, note).cells == w.cells
  {
  }

  lemma HearAll(inbox: seq<Note>, e: Entity, pos: Location, lost: bool, gained: bool, moved: bool)
    requires Clean(inbox) && !(lost && gained) && (lost ==> e in Seen(inbox)) && (gained ==> e !in Seen(inbox))
    ensures var t := inbox + (if lost then [Leaves(e)] else []) + (if gained then [Enters(e, pos)] else [])
                       + (if moved then [Moves(e, pos)] else []);
      && Clean(t)
      && Seen(t) == if lost then Seen(inbox) - {e} else if gained then Seen(inbox) + {e} else Seen(inbox)
  {
    hide Clean, Seen;
    Hear(inbox, Leaves(e));
    Hear(inbox, Enters(e, pos));
    var t := inbox + (if lost then [Leaves(e)] else []) + (if gained then [Enters(e, pos)] else []);
    assert t == if lost then inbox + [Leaves(e)] else if gained then inbox + [Enters(e, pos)] else inbox;
    Hear(t, Moves(e, pos));
    assert t + [] == t;
  }

  lemma StepViewed(s: Scene, w: World, e: Entity, pos: Location, o: Entity)
    requires Sized(s) && Indexed(s, w) && Gridded(s, w) && e in w.present && CheckPos(s, pos) && Fits(s, pos)
    requires o in w.present && o != e && ViewOk(s, w, o)
    ensures var v := StepTo(s, w, e, pos); Indexed(s, v) && o in v.present && ViewOk(s, v, o)
  {
    hide CheckPos, CellOf, Inside, Dims, Near, Hears, Clean, Seen, Notify, Cross;
    StepIndexed(s, w, e, pos);
    StepPresent(s, w, e, pos);
    var v := StepTo(s, w, e, pos);
    var here, a, b := CellOf(s, w.loc[o]), Near(s, CellOf(s, w.loc[e])), Near(s, CellOf(s, pos));
    if CellOf(s, w.loc[e]) == CellOf(s, pos) {
      NotifyInbox(w, a, Moves(e, pos), o);
      Hear(w.inbox[o], Moves(e, pos));
      assert w.inbox[o] + [] == w.inbox[o];
      assert Visible(s, v, o) == Visible(s, w, o);
    } else {
      CrossTold(s, w, e, pos, o);
      HearAll(w.inbox[o], e, pos, here in a - b, here in b - a, here in a + b);
      assert Visible(s, v, o) == if here in b then Visible(s, w, o) + {e} else Visible(s, w, o) - {e};
    }
  }

  lemma {:induction false} WalkViewed(s: Scene, w: World, e: Entity, path: seq<Location>, o: Entity)
    requires Sized(s) && Indexed(s, w) && Gridded(s, w) && e in w.present
    requires forall k | 0 <= k < |path| :: Fits(s, path[k])
    requires o in w.present && o != e && ViewOk(s, w, o)
    ensures var v := Walk(s, w, e, path); Indexed(s, v) && o in v.present && ViewOk(s, v, o)
    decreases |path|
  {
    hide CheckPos, CellOf, Inside, Dims, Near, Hears, StepTo, ViewOk;
    if path != [] && CheckPos(s, path[0]) {
      StepViewed(s, w, e, path[0], o);
      StepIndexed(s, w, e, path[0]);
      StepPresent(s, w, e, path[0]);
      WalkViewed(s, StepTo(s, w, e, path[0]), e, path[1..], o);
    }
  }

  /** The cells within one step on each axis. */
  function Around(s: Scene, c: Cell): set<Cell>
    requires Sized(s)
  {
    set x, y, z | c.x - 1 <= x <= c.x + 1 && c.y - 1 <= y <= c.y + 1 && c.z - 1 <= z <= c.z + 1
      && Inside(Dims(s), Cell(x, y, z)) :: Cell(x, y, z)
  }

  /** The neighbourhood is all the cells around if and only if the cell is the last one on every
      axis. */
  lemma NearAroundIff(s: Scene, c: Cell)
    requires Sized(s) && Inside(Dims(s), c)
    ensures Near(s, c) == Around(s, c) <==> c == Cell(Dims(s).x - 1, Dims(s).y - 1, Dims(s).z - 1)
  {
    hide Dims;
    var d := Dims(s);
    var a := Cell(if c.x + 1 < d.x then c.x + 1 else c.x, if c.y + 1 < d.y then c.y + 1 else c.y,
                  if c.z + 1 < d.z then c.z + 1 else c.z);
    assert a in Around(s, c) && (a in Near(s, c) <==> a == c);
    if a == c {
      forall e | e in Around(s, c) ensures e in Near(s, c) {
      }
    }
  }

  lemma NearSelf(s: Scene, c: Cell)
    requires Sized(s) && Inside(Dims(s), c)
    ensures c in Near(s, c)
  {
    hide Dims;
    assert Cell(c.x, c.y, c.z) == c;
  }

  /** Who enters is told of itself and of nobody that is already there: its view starts right
      if and only if no neighbourhood of another contains its cell. */
  lemma EnterSeesIff(s: Scene, w: World, o: Entity, pos: Location)
    requires Sized(s) && Indexed(s, w) && Gridded(s, w) && o in w.loc && o !in w.present
    requires w.inbox[o] == [] && CheckPos(s, pos) && Fits(s, pos)
    ensures var v := Enter(s, w, o, pos);
      && Indexed(s, v) && o in v.present
      && (ViewOk(s, v, o) <==> forall e | e in w.present :: CellOf(s, pos) !in Near(s, CellOf(s, w.loc[e])))
  {
    hide CheckPos, CellOf, Inside, Dims, Near, Clean, Seen, Hears;
    EnterIndexed(s, w, o, pos);
    var c := CellOf(s, pos);
    var v := Insert(w.(loc := w.loc[o := pos], present := w.present + {o}), o, c);
    assert Indexed(s, v);
    HearsIff(s, v, Near(s, c), o);
    NearSelf(s, c);
    Hear([], Enters(o, pos));
    NothingSeen();
    assert [] + [Enters(o, pos)] == [Enters(o, pos)];
    var t := Enter(s, w, o, pos);
    assert t.inbox[o] == [Enters(o, pos)];
    forall e | e in w.present ensures e in Visible(s, t, o) <==> c in Near(s, CellOf(s, w.loc[e])) {
    }
  }

  lemma NothingSeen()
    ensures Seen([]) == {} && Clean([])
  {
  }
}
