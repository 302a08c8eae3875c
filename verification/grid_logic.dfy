/**
  The grid topology and knight's-move engine.

  The building is a 10 x 10 grid: floor 8 is row 0 and floor -1 is row 9.
  The placement builder packs the rooms of each floor left to right into
  their row band and records, per room id, the cells the room covers, in an
  insertion-ordered map. A cell is resolved to the FIRST id of that map
  whose cells contain it, and the knight's moves of a room are the rooms
  reached from any of its cells by one of the eight chess-knight offsets.

  The builder does not look at rooms that hang down from the floors above
  (a room with rowSpan > 1), so two ids may claim the same cell and a cell
  may have no owner; the lookup then lets the earlier registration win.
*/
module GridLogic {
  import opened Wrappers
  import opened Layout

  const GRID_SIZE: int := 10

  /** The floors the builder walks, top to bottom: 8, 7, ..., 0, -1. The hidden
      floor is not among them. */
  const FLOORS: seq<int> := [8, 7, 6, 5, 4, 3, 2, 1, 0, -1]

  datatype Cell = Cell(row: int, col: int)

  /** Room id -> the cells it covers, in the order the ids were first registered. */
  type GridMap = seq<(string, seq<Cell>)>

  /** Pairwise distinct elements. */
  predicate Distinct<T(==)>(s: seq<T>) {
    forall i, j :: 0 <= i < j < |s| ==> s[i] != s[j]
  }

  predicate InGrid(row: int, col: int) {
    0 <= row < GRID_SIZE && 0 <= col < GRID_SIZE
  }

  /** Floor 8 is the top row and floor -1 the bottom one. */
  function FloorToRow(floor: int): int {
    8 - floor
  }

  /** The builder walks the rows 0, 1, ..., 9 in order, and exactly the floors
      it walks land inside the grid. */
  lemma FloorsCoverRows()
    ensures |FLOORS| == GRID_SIZE
    ensures forall i :: 0 <= i < |FLOORS| ==> FloorToRow(FLOORS[i]) == i
    ensures forall floor :: floor in FLOORS <==> 0 <= FloorToRow(floor) < GRID_SIZE
    ensures Distinct(FLOORS)
  {
    forall floor
      ensures floor in FLOORS <==> 0 <= FloorToRow(floor) < GRID_SIZE
    {
      if 0 <= FloorToRow(floor) < GRID_SIZE {
        assert FLOORS[FloorToRow(floor)] == floor;
      }
    }
  }

  // ---------------------------------------------------------------------------
  // The cells of one room

  /** The cells (row, col), ..., (row, col + n - 1), left to right. */
  function RowCells(row: int, col: int, n: int): seq<Cell> {
    if n <= 0 then [] else RowCells(row, col, n - 1) + [Cell(row, col + n - 1)]
  }

  /** The cells of a rowSpan x colSpan rectangle, row by row, as the builder's two loops push them. */
  function RoomCells(rowStart: int, rowSpan: int, colStart: int, colSpan: int): seq<Cell> {
    if rowSpan <= 0 then []
    else RoomCells(rowStart, rowSpan - 1, colStart, colSpan) + RowCells(rowStart + rowSpan - 1, colStart, colSpan)
  }

  lemma {:induction false} RowCellsContain(row: int, col: int, n: int, cell: Cell)
    ensures cell in RowCells(row, col, n) <==> cell.row == row && col <= cell.col < col + n
  {
    if n > 0 {
      var left := RowCells(row, col, n - 1);
      RowCellsContain(row, col, n - 1, cell);
      assert cell in left + [Cell(row, col + n - 1)] <==> cell in left || cell == Cell(row, col + n - 1);
    }
  }

  lemma {:induction false} RoomCellsContain(rowStart: int, rowSpan: int, colStart: int, colSpan: int, cell: Cell)
    ensures cell in RoomCells(rowStart, rowSpan, colStart, colSpan) <==>
      rowStart <= cell.row < rowStart + rowSpan && colStart <= cell.col < colStart + colSpan
  {
    if rowSpan > 0 {
      var upper := RoomCells(rowStart, rowSpan - 1, colStart, colSpan);
      var bottom := RowCells(rowStart + rowSpan - 1, colStart, colSpan);
      assert RoomCells(rowStart, rowSpan, colStart, colSpan) == upper + bottom;
      RoomCellsContain(rowStart, rowSpan - 1, colStart, colSpan, cell);
      RowCellsContain(rowStart + rowSpan - 1, colStart, colSpan, cell);
      var inCols := colStart <= cell.col < colStart + colSpan;
      assert cell in upper <==> rowStart <= cell.row < rowStart + rowSpan - 1 && inCols;
      assert cell in bottom <==> cell.row == rowStart + rowSpan - 1 && inCols;
      assert cell in upper + bottom <==> cell in upper || cell in bottom;
    }
  }

  /** A room covers exactly the rectangle [rowStart, rowStart + rowSpan) x [colStart, colStart + colSpan). */
  lemma RoomCellsExactly(rowStart: int, rowSpan: int, colStart: int, colSpan: int)
    ensures forall cell :: cell in RoomCells(rowStart, rowSpan, colStart, colSpan) <==>
      rowStart <= cell.row < rowStart + rowSpan && colStart <= cell.col < colStart + colSpan
  {
    forall cell: Cell
      ensures cell in RoomCells(rowStart, rowSpan, colStart, colSpan) <==>
        rowStart <= cell.row < rowStart + rowSpan && colStart <= cell.col < colStart + colSpan
    {
      RoomCellsContain(rowStart, rowSpan, colStart, colSpan, cell);
    }
  }

  // ---------------------------------------------------------------------------
  // The map and its registrations

  /** The ids of an insertion-ordered record, in order (`Object.keys`). */
  function Keys<V>(m: seq<(string, V)>): (keys: seq<string>)
    ensures |keys| == |m|
  {
    if m == [] then [] else [m[0].0] + Keys(m[1..])
  }

  lemma {:induction false} KeysIndex<V>(m: seq<(string, V)>)
    ensures forall i :: 0 <= i < |m| ==> Keys(m)[i] == m[i].0
  {
    if m != [] {
      KeysIndex(m[1..]);
      assert forall i :: 1 <= i < |m| ==> Keys(m)[i] == Keys(m[1..])[i - 1];
    }
  }

  /** `record[id]`: the value of the entry for `id`, if there is one. */
  function Lookup<V>(m: seq<(string, V)>, id: string): Option<V> {
    if m == [] then None
    else if m[0].0 == id then Some(m[0].1)
    else Lookup(m[1..], id)
  }

  /** `if (!map[id]) map[id] = []; map[id].push(...cells)`: appends to an existing
      entry in place, or adds a new entry at the end. */
  function Register(m: GridMap, id: string, cells: seq<Cell>): GridMap {
    if m == [] then [(id, cells)]
    else if m[0].0 == id then [(id, m[0].1 + cells)] + m[1..]
    else [m[0]] + Register(m[1..], id, cells)
  }

  /** Registering extends the entry of `id` (an absent entry counts as empty)
      and leaves every other entry as it was. */
  lemma {:induction false} RegisterLookup(m: GridMap, id: string, cells: seq<Cell>)
    ensures Lookup(Register(m, id, cells), id) == Some(Lookup(m, id).GetOr([]) + cells)
    ensures forall other :: other != id ==> Lookup(Register(m, id, cells), other) == Lookup(m, other)
  {
    if m == [] {
      assert Lookup(m, id).GetOr([]) + cells == cells;
    } else if m[0].0 != id {
      RegisterLookup(m[1..], id, cells);
      var r := Register(m, id, cells);
      assert r[1..] == Register(m[1..], id, cells);
    }
  }

  /** Registering keeps the order of the ids and adds a new id at the end. */
  lemma {:induction false} RegisterKeys(m: GridMap, id: string, cells: seq<Cell>)
    ensures Keys(Register(m, id, cells)) == if id in Keys(m) then Keys(m) else Keys(m) + [id]
  {
    if m != [] && m[0].0 != id {
      var rest := Register(m[1..], id, cells);
      RegisterKeys(m[1..], id, cells);
      assert ([m[0]] + rest)[1..] == rest;
    }
  }

  lemma {:induction false} RegisterFresh(m: GridMap, id: string, cells: seq<Cell>)
    requires id !in Keys(m)
    ensures Register(m, id, cells) == m + [(id, cells)]
  {
    if m != [] {
      assert Keys(m[1..]) == Keys(m)[1..];
      RegisterFresh(m[1..], id, cells);
      assert m == [m[0]] + m[1..];
    }
  }

  // ---------------------------------------------------------------------------
  // The placement builder

  /** Registers the rooms of one floor, left to right, from column `col` on. */
  function PlaceRooms(m: GridMap, rooms: seq<RoomData>, rowStart: int, col: int): GridMap
    decreases |rooms|
  {
    if rooms == [] then m
    else
      var room := rooms[0];
      PlaceRooms(Register(m, room.id, RoomCells(rowStart, RowSpanOf(room), col, ColSpanOf(room))),
                 rooms[1..], rowStart, col + ColSpanOf(room))
  }

  /** Places the given floors in order, each from column 0 of its own row band. */
  function PlaceFloors(m: GridMap, layout: seq<RoomData>, floors: seq<int>): GridMap
    decreases |floors|
  {
    if floors == [] then m
    else PlaceFloors(PlaceRooms(m, RoomsOnFloor(layout, floors[0]), FloorToRow(floors[0]), 0), layout, floors[1..])
  }

  /** The map `buildRoomGridMap` produces from a layout. */
  function Placement(layout: seq<RoomData>): GridMap {
    PlaceFloors([], layout, FLOORS)
  }

  /** The two nested `for` loops of `buildRoomGridMap` that push one room's cells, row by row. */
  method CollectRoomCells(rowStart: int, rowSpan: int, colStart: int, colSpan: int) returns (roomCells: seq<Cell>)
    ensures roomCells == RoomCells(rowStart, rowSpan, colStart, colSpan)
  {
    roomCells := [];
    var r := 0;
    while r < rowSpan
      invariant 0 <= r <= if rowSpan < 0 then 0 else rowSpan
      invariant roomCells == RoomCells(rowStart, r, colStart, colSpan)
    {
      var c := 0;
      while c < colSpan
        invariant 0 <= c <= if colSpan < 0 then 0 else colSpan
        invariant roomCells == RoomCells(rowStart, r, colStart, colSpan) + RowCells(rowStart + r, colStart, c)
      {
        roomCells := roomCells + [Cell(rowStart + r, colStart + c)];
        c := c + 1;
      }
      r := r + 1;
    }
  }

  /** The body of `floors.forEach` in `buildRoomGridMap`: a column cursor starts
      at 0 and each room of the floor is registered at the cursor, which then
      advances by the room's colSpan. */
  method PlaceFloor(gridMap0: GridMap, roomsOnFloor: seq<RoomData>, rowStart: int) returns (gridMap: GridMap)
    ensures gridMap == PlaceRooms(gridMap0, roomsOnFloor, rowStart, 0)
  {
    gridMap := gridMap0;
    var currentCol := 0;
    var j := 0;
    while j < |roomsOnFloor|
      invariant 0 <= j <= |roomsOnFloor|
      invariant PlaceRooms(gridMap, roomsOnFloor[j..], rowStart, currentCol)
             == PlaceRooms(gridMap0, roomsOnFloor, rowStart, 0)
    {
      var room := roomsOnFloor[j];
      var colSpan := ColSpanOf(room);
      var rowSpan := RowSpanOf(room);
      var roomCells := CollectRoomCells(rowStart, rowSpan, currentCol, colSpan);
      assert roomsOnFloor[j..][1..] == roomsOnFloor[j + 1..];
      gridMap := Register(gridMap, room.id, roomCells);
      currentCol := currentCol + colSpan;
      j := j + 1;
    }
  }

  /** `buildRoomGridMap`: places the floors 8 down to -1, each in its own row band. */
  method BuildRoomGridMap(layout: seq<RoomData>) returns (gridMap: GridMap)
    ensures gridMap == Placement(layout)
  {
    gridMap := [];
    var floors := FLOORS;
    ghost var placement := PlaceFloors(gridMap, layout, floors);
    assert floors[0..] == floors;
    var i := 0;
    while i < |floors|
      invariant 0 <= i <= |floors|
      invariant PlaceFloors(gridMap, layout, floors[i..]) == placement
    {
      var floor := floors[i];
      var roomsOnFloor := RoomsOnFloor(layout, floor);
      gridMap := PlaceFloor(gridMap, roomsOnFloor, FloorToRow(floor));
      assert floors[i..][1..] == floors[i + 1..];
      i := i + 1;
    }
  }

  /** The map the module builds once, when it loads, from the building's table. */
  const ROOM_GRID_MAP: GridMap := Placement(BUILDING_LAYOUT)

  // ---------------------------------------------------------------------------
  // What the placement contains

  lemma RegisterKeysDistinct(m: GridMap, id: string, cells: seq<Cell>)
    requires Distinct(Keys(m))
    ensures Distinct(Keys(Register(m, id, cells)))
  {
    RegisterKeys(m, id, cells);
    var keys := Keys(m);
    if id !in keys {
      forall i, j | 0 <= i < j < |keys + [id]|
        ensures (keys + [id])[i] != (keys + [id])[j]
      {
        if j == |keys| {
          assert (keys + [id])[i] == keys[i];
        }
      }
    }
  }

  lemma {:induction false} PlaceRoomsKeysDistinct(m: GridMap, rooms: seq<RoomData>, rowStart: int, col: int)
    requires Distinct(Keys(m))
    ensures Distinct(Keys(PlaceRooms(m, rooms, rowStart, col)))
    decreases |rooms|
  {
    if rooms != [] {
      var room := rooms[0];
      RegisterKeysDistinct(m, room.id, RoomCells(rowStart, RowSpanOf(room), col, ColSpanOf(room)));
      PlaceRoomsKeysDistinct(Register(m, room.id, RoomCells(rowStart, RowSpanOf(room), col, ColSpanOf(room))),
                             rooms[1..], rowStart, col + ColSpanOf(room));
    }
  }

  lemma {:induction false} PlaceFloorsKeysDistinct(m: GridMap, layout: seq<RoomData>, floors: seq<int>)
    requires Distinct(Keys(m))
    ensures Distinct(Keys(PlaceFloors(m, layout, floors)))
    decreases |floors|
  {
    if floors != [] {
      PlaceRoomsKeysDistinct(m, RoomsOnFloor(layout, floors[0]), FloorToRow(floors[0]), 0);
      PlaceFloorsKeysDistinct(PlaceRooms(m, RoomsOnFloor(layout, floors[0]), FloorToRow(floors[0]), 0), layout, floors[1..]);
    }
  }

  /** Each id has at most one entry: a repeated registration extends the entry in place. */
  lemma PlacementKeysDistinct(layout: seq<RoomData>)
    ensures Distinct(Keys(Placement(layout)))
  {
    PlaceFloorsKeysDistinct([], layout, FLOORS);
  }

  /** The cells registered for `id` by one floor's rooms, left to right from column `col`. */
  function FloorCells(rooms: seq<RoomData>, id: string, rowStart: int, col: int): seq<Cell>
    decreases |rooms|
  {
    if rooms == [] then []
    else
      var room := rooms[0];
      (if room.id == id then RoomCells(rowStart, RowSpanOf(room), col, ColSpanOf(room)) else [])
      + FloorCells(rooms[1..], id, rowStart, col + ColSpanOf(room))
  }

  /** The cells registered for `id` by the given floors, in the order the builder visits them. */
  function LayoutCells(layout: seq<RoomData>, floors: seq<int>, id: string): seq<Cell>
    decreases |floors|
  {
    if floors == [] then []
    else FloorCells(RoomsOnFloor(layout, floors[0]), id, FloorToRow(floors[0]), 0) + LayoutCells(layout, floors[1..], id)
  }

  /** Some room of the layout with this id sits on one of the given floors. */
  ghost predicate Registered(layout: seq<RoomData>, floors: seq<int>, id: string) {
    exists room :: room in layout && room.floor in floors && room.id == id
  }

  lemma {:induction false} PlaceRoomsLookup(m: GridMap, rooms: seq<RoomData>, rowStart: int, col: int, id: string)
    ensures Lookup(PlaceRooms(m, rooms, rowStart, col), id) ==
      if exists room :: room in rooms && room.id == id
      then Some(Lookup(m, id).GetOr([]) + FloorCells(rooms, id, rowStart, col))
      else Lookup(m, id)
    decreases |rooms|
  {
    if rooms != [] {
      var room := rooms[0];
      var cells := RoomCells(rowStart, RowSpanOf(room), col, ColSpanOf(room));
      var m' := Register(m, room.id, cells);
      var col' := col + ColSpanOf(room);
      RegisterLookup(m, room.id, cells);
      PlaceRoomsLookup(m', rooms[1..], rowStart, col', id);
      HasRoomSplit(rooms, id);
      var here := if room.id == id then cells else [];
      var later := FloorCells(rooms[1..], id, rowStart, col');
      if !exists r :: r in rooms[1..] && r.id == id {
        FloorCellsAbsent(rooms[1..], id, rowStart, col');
      }
      AccumulateStep(Lookup(m, id), Lookup(m', id), Lookup(PlaceRooms(m', rooms[1..], rowStart, col'), id),
                     room.id == id, exists r :: r in rooms[1..] && r.id == id, here, later);
    }
  }

  lemma {:induction false} PlaceFloorsLookup(m: GridMap, layout: seq<RoomData>, floors: seq<int>, id: string)
    ensures Lookup(PlaceFloors(m, layout, floors), id) ==
      if Registered(layout, floors, id)
      then Some(Lookup(m, id).GetOr([]) + LayoutCells(layout, floors, id))
      else Lookup(m, id)
    decreases |floors|
  {
    if floors != [] {
      var f := floors[0];
      var rooms := RoomsOnFloor(layout, f);
      var here := FloorCells(rooms, id, FloorToRow(f), 0);
      var m' := PlaceRooms(m, rooms, FloorToRow(f), 0);
      var later := LayoutCells(layout, floors[1..], id);
      PlaceRoomsLookup(m, rooms, FloorToRow(f), 0, id);
      PlaceFloorsLookup(m', layout, floors[1..], id);
      RegisteredSplit(layout, floors, id);
      if !(exists room :: room in rooms && room.id == id) {
        FloorCellsAbsent(rooms, id, FloorToRow(f), 0);
      }
      if !Registered(layout, floors[1..], id) {
        LayoutCellsAbsent(layout, floors[1..], id);
      }
      AccumulateStep(Lookup(m, id), Lookup(m', id), Lookup(PlaceFloors(m', layout, floors[1..]), id),
                     exists room :: room in rooms && room.id == id, Registered(layout, floors[1..], id), here, later);
    }
  }

  /** Two successive accumulation steps compose into one. */
  lemma AccumulateStep(l0: Option<seq<Cell>>, l1: Option<seq<Cell>>, l2: Option<seq<Cell>>,
                       p: bool, q: bool, here: seq<Cell>, later: seq<Cell>)
    requires l1 == if p then Some(l0.GetOr([]) + here) else l0
    requires l2 == if q then Some(l1.GetOr([]) + later) else l1
    requires !p ==> here == []
    requires !q ==> later == []
    ensures l2 == if p || q then Some(l0.GetOr([]) + (here + later)) else l0
  {
    assert l0.GetOr([]) + here + later == l0.GetOr([]) + (here + later);
    if !p {
      assert [] + later == later;
    }
    if !q {
      assert here + [] == here;
    }
  }

  lemma HasRoomSplit(rooms: seq<RoomData>, id: string)
    requires rooms != []
    ensures (exists room :: room in rooms && room.id == id) <==>
      rooms[0].id == id || exists room :: room in rooms[1..] && room.id == id
  {
    assert rooms == [rooms[0]] + rooms[1..];
  }

  lemma RegisteredSplit(layout: seq<RoomData>, floors: seq<int>, id: string)
    requires floors != []
    ensures Registered(layout, floors, id) <==>
      (exists room :: room in RoomsOnFloor(layout, floors[0]) && room.id == id) || Registered(layout, floors[1..], id)
  {
    RoomsOnFloorMembers(layout, floors[0]);
    assert floors == [floors[0]] + floors[1..];
  }

  lemma {:induction false} FloorCellsAbsent(rooms: seq<RoomData>, id: string, rowStart: int, col: int)
    requires forall room :: room in rooms ==> room.id != id
    ensures FloorCells(rooms, id, rowStart, col) == []
    decreases |rooms|
  {
    if rooms != [] {
      FloorCellsAbsent(rooms[1..], id, rowStart, col + ColSpanOf(rooms[0]));
    }
  }

  lemma {:induction false} LayoutCellsAbsent(layout: seq<RoomData>, floors: seq<int>, id: string)
    requires !Registered(layout, floors, id)
    ensures LayoutCells(layout, floors, id) == []
    decreases |floors|
  {
    if floors != [] {
      RoomsOnFloorMembers(layout, floors[0]);
      FloorCellsAbsent(RoomsOnFloor(layout, floors[0]), id, FloorToRow(floors[0]), 0);
      LayoutCellsAbsent(layout, floors[1..], id);
    }
  }

  /** The entry of an id collects, in builder order, the rectangles of every room
      of a walked floor that carries it; an id no such room carries (an unknown
      id, or a room of the hidden floor) gets no entry at all. */
  lemma PlacementLookup(layout: seq<RoomData>, id: string)
    ensures Lookup(Placement(layout), id) ==
      if Registered(layout, FLOORS, id) then Some(LayoutCells(layout, FLOORS, id)) else None
  {
    var empty: GridMap := [];
    PlaceFloorsLookup(empty, layout, FLOORS, id);
    var cells := LayoutCells(layout, FLOORS, id);
    assert Lookup(empty, id).GetOr([]) + cells == cells;
  }

  // ---------------------------------------------------------------------------
  // The placement of a table with unique ids

  /** One entry per room of a floor, left to right from column `col`. */
  function FloorEntries(rooms: seq<RoomData>, rowStart: int, col: int): (entries: GridMap)
    ensures |entries| == |rooms|
    decreases |rooms|
  {
    if rooms == [] then []
    else
      var room := rooms[0];
      [(room.id, RoomCells(rowStart, RowSpanOf(room), col, ColSpanOf(room)))]
      + FloorEntries(rooms[1..], rowStart, col + ColSpanOf(room))
  }

  /** One entry per room of the walked floors, in walk order. */
  function LayoutEntries(layout: seq<RoomData>, floors: seq<int>): GridMap
    decreases |floors|
  {
    if floors == [] then []
    else FloorEntries(RoomsOnFloor(layout, floors[0]), FloorToRow(floors[0]), 0) + LayoutEntries(layout, floors[1..])
  }

  lemma {:induction false} KeysConcat(a: GridMap, b: GridMap)
    ensures Keys(a + b) == Keys(a) + Keys(b)
    decreases |a|
  {
    if a == [] {
      assert a + b == b;
    } else {
      assert (a + b)[0] == a[0];
      assert (a + b)[1..] == a[1..] + b;
      KeysConcat(a[1..], b);
    }
  }

  /** The ids of a floor's entries are the ids of its rooms. */
  lemma {:induction false} FloorEntriesKeys(rooms: seq<RoomData>, rowStart: int, col: int, id: string)
    ensures id in Keys(FloorEntries(rooms, rowStart, col)) <==> exists room :: room in rooms && room.id == id
    decreases |rooms|
  {
    if rooms != [] {
      var room := rooms[0];
      var head: GridMap := [(room.id, RoomCells(rowStart, RowSpanOf(room), col, ColSpanOf(room)))];
      assert FloorEntries(rooms, rowStart, col) == head + FloorEntries(rooms[1..], rowStart, col + ColSpanOf(room));
      KeysConcat(head, FloorEntries(rooms[1..], rowStart, col + ColSpanOf(room)));
      assert Keys(head) == [room.id];
      FloorEntriesKeys(rooms[1..], rowStart, col + ColSpanOf(room), id);
      HasRoomSplit(rooms, id);
    }
  }

  /** One step of `PlaceRoomsFresh`: registering the first room appends it, and the rest stay fresh. */
  lemma FreshStep(m: GridMap, rooms: seq<RoomData>, cells: seq<Cell>)
    requires rooms != [] && UniqueIds(rooms)
    requires forall room :: room in rooms ==> room.id !in Keys(m)
    ensures Register(m, rooms[0].id, cells) == m + [(rooms[0].id, cells)]
    ensures UniqueIds(rooms[1..])
    ensures forall r :: r in rooms[1..] ==> r.id !in Keys(m + [(rooms[0].id, cells)])
  {
    assert rooms[0] in rooms;
    RegisterFresh(m, rooms[0].id, cells);
    UniqueIdsRest(rooms);
    KeysConcat(m, [(rooms[0].id, cells)]);
    assert forall r :: r in rooms[1..] ==> r in rooms;
  }

  /** With fresh, unique ids, placing a floor appends one entry per room. */
  lemma {:induction false} PlaceRoomsFresh(m: GridMap, rooms: seq<RoomData>, rowStart: int, col: int)
    requires UniqueIds(rooms)
    requires forall room :: room in rooms ==> room.id !in Keys(m)
    ensures PlaceRooms(m, rooms, rowStart, col) == m + FloorEntries(rooms, rowStart, col)
    decreases |rooms|
  {
    if rooms == [] {
      assert m + [] == m;
    } else {
      var room := rooms[0];
      var cells := RoomCells(rowStart, RowSpanOf(room), col, ColSpanOf(room));
      var head := [(room.id, cells)];
      var col' := col + ColSpanOf(room);
      var rest := FloorEntries(rooms[1..], rowStart, col');
      FreshStep(m, rooms, cells);
      calc {
        PlaceRooms(m, rooms, rowStart, col);
        PlaceRooms(Register(m, room.id, cells), rooms[1..], rowStart, col');
        PlaceRooms(m + head, rooms[1..], rowStart, col');
        { PlaceRoomsFresh(m + head, rooms[1..], rowStart, col'); }
        (m + head) + rest;
        { assert (m + head) + rest == m + (head + rest); }
        m + (head + rest);
        m + FloorEntries(rooms, rowStart, col);
      }
    }
  }

  /** One step of `PlaceFloorsFresh`: the rooms of the later floors are not among the first floor's entries. */
  lemma FloorsFreshStep(m: GridMap, layout: seq<RoomData>, floors: seq<int>)
    requires floors != [] && UniqueIds(layout) && Distinct(floors)
    requires forall room :: room in layout && room.floor in floors ==> room.id !in Keys(m)
    ensures Distinct(floors[1..])
    ensures forall room :: room in layout && room.floor in floors[1..] ==>
      room.id !in Keys(m + FloorEntries(RoomsOnFloor(layout, floors[0]), FloorToRow(floors[0]), 0))
  {
    var f := floors[0];
    var rooms := RoomsOnFloor(layout, f);
    var entries := FloorEntries(rooms, FloorToRow(f), 0);
    forall i, j | 0 <= i < j < |floors[1..]|
      ensures floors[1..][i] != floors[1..][j]
    {
      assert floors[1..][i] == floors[i + 1] && floors[1..][j] == floors[j + 1];
    }
    RoomsOnFloorMembers(layout, f);
    KeysConcat(m, entries);
    forall room | room in layout && room.floor in floors[1..]
      ensures room.id !in Keys(m + entries)
    {
      var p :| 0 <= p < |floors[1..]| && floors[1..][p] == room.floor;
      assert floors[p + 1] == room.floor;
      assert room.floor != f;
      assert room.floor in floors;
      FloorEntriesKeys(rooms, FloorToRow(f), 0, room.id);
      if r :| r in rooms && r.id == room.id {
        SameIdSameRoom(layout, r, room);
      }
    }
  }

  /** With unique ids and distinct floors, walking floors onto a map that holds none of their rooms appends
      exactly one entry per room, floor by floor. */
  lemma {:induction false} PlaceFloorsFresh(m: GridMap, layout: seq<RoomData>, floors: seq<int>)
    requires UniqueIds(layout) && Distinct(floors)
    requires forall room :: room in layout && room.floor in floors ==> room.id !in Keys(m)
    ensures PlaceFloors(m, layout, floors) == m + LayoutEntries(layout, floors)
    decreases |floors|
  {
    if floors == [] {
      assert m + [] == m;
    } else {
      var f := floors[0];
      var rooms := RoomsOnFloor(layout, f);
      var head := FloorEntries(rooms, FloorToRow(f), 0);
      var rest := LayoutEntries(layout, floors[1..]);
      assert LayoutEntries(layout, floors) == head + rest;
      assert (m + head) + rest == m + (head + rest);
      assert PlaceRooms(m, rooms, FloorToRow(f), 0) == m + head by {
        RoomsOnFloorUnique(layout, f);
        RoomsOnFloorMembers(layout, f);
        PlaceRoomsFresh(m, rooms, FloorToRow(f), 0);
      }
      FloorsFreshStep(m, layout, floors);
      PlaceFloorsFresh(m + head, layout, floors[1..]);
    }
  }

  /** With unique ids, `buildRoomGridMap` gives every room of a grid floor its own entry, in walk order. */
  lemma PlacementFresh(layout: seq<RoomData>)
    requires UniqueIds(layout)
    ensures Placement(layout) == LayoutEntries(layout, FLOORS)
  {
    FloorsCoverRows();
    PlaceFloorsFresh([], layout, FLOORS);
    assert [] + LayoutEntries(layout, FLOORS) == LayoutEntries(layout, FLOORS);
  }

  // ---------------------------------------------------------------------------
  // Where one room lands

  lemma {:induction false} FloorCellsConcat(a: seq<RoomData>, b: seq<RoomData>, id: string, rowStart: int, col: int)
    ensures FloorCells(a + b, id, rowStart, col)
         == FloorCells(a, id, rowStart, col) + FloorCells(b, id, rowStart, col + SpanSum(a))
    decreases |a|
  {
    if a == [] {
      assert a + b == b;
    } else {
      assert (a + b)[0] == a[0];
      assert (a + b)[1..] == a[1..] + b;
      FloorCellsConcat(a[1..], b, id, rowStart, col + ColSpanOf(a[0]));
      var head := if a[0].id == id then RoomCells(rowStart, RowSpanOf(a[0]), col, ColSpanOf(a[0])) else [];
      var x := FloorCells(a[1..], id, rowStart, col + ColSpanOf(a[0]));
      var y := FloorCells(b, id, rowStart, col + SpanSum(a));
      assert head + (x + y) == (head + x) + y;
    }
  }

  /** When every room carrying `id` sits on floor `f`, which the walk visits
      once, the entry of `id` is what floor `f` registers. */
  lemma {:induction false} LayoutCellsOneFloor(layout: seq<RoomData>, floors: seq<int>, id: string, f: int)
    requires forall room :: room in layout && room.id == id ==> room.floor == f
    requires f in floors && Distinct(floors)
    ensures LayoutCells(layout, floors, id) == FloorCells(RoomsOnFloor(layout, f), id, FloorToRow(f), 0)
    decreases |floors|
  {
    var here := FloorCells(RoomsOnFloor(layout, floors[0]), id, FloorToRow(floors[0]), 0);
    var rest := LayoutCells(layout, floors[1..], id);
    assert LayoutCells(layout, floors, id) == here + rest;
    if floors[0] == f {
      assert f !in floors[1..] by {
        forall k | 0 <= k < |floors[1..]|
          ensures floors[1..][k] != f
        {
          assert floors[1..][k] == floors[k + 1];
        }
      }
      LayoutCellsAbsent(layout, floors[1..], id);
      assert here + [] == here;
    } else {
      RoomsOnFloorMembers(layout, floors[0]);
      FloorCellsAbsent(RoomsOnFloor(layout, floors[0]), id, FloorToRow(floors[0]), 0);
      assert Distinct(floors[1..]) by {
        forall a, b | 0 <= a < b < |floors[1..]|
          ensures floors[1..][a] != floors[1..][b]
        {
          assert floors[1..][a] == floors[a + 1] && floors[1..][b] == floors[b + 1];
        }
      }
      assert f in floors[1..] by {
        assert floors == [floors[0]] + floors[1..];
      }
      LayoutCellsOneFloor(layout, floors[1..], id, f);
      assert [] + rest == rest;
    }
  }

  /** The column the builder's cursor holds when it reaches `layout[k]`: the
      widths of the rooms before it on its floor. */
  function ColumnStart(layout: seq<RoomData>, k: int): int
    requires 0 <= k < |layout|
  {
    SpanSum(RoomsOnFloor(layout[..k], layout[k].floor))
  }

  /** On a floor where only `room` carries its id, the id registers exactly
      the room's rectangle at the cursor left by the rooms before it. */
  lemma FloorCellsOfUnique(a: seq<RoomData>, room: RoomData, b: seq<RoomData>, row: int)
    requires forall r :: r in a ==> r.id != room.id
    requires forall r :: r in b ==> r.id != room.id
    ensures FloorCells(a + [room] + b, room.id, row, 0)
         == RoomCells(row, RowSpanOf(room), SpanSum(a), ColSpanOf(room))
  {
    var id := room.id;
    var cells := RoomCells(row, RowSpanOf(room), SpanSum(a), ColSpanOf(room));
    var head := FloorCells(a + [room], id, row, 0);
    assert head == cells by {
      FloorCellsConcat(a, [room], id, row, 0);
      FloorCellsAbsent(a, id, row, 0);
      assert FloorCells([room], id, row, 0 + SpanSum(a)) == cells + [];
      assert [] + (cells + []) == cells;
    }
    assert FloorCells(b, id, row, 0 + SpanSum(a + [room])) == [] by {
      FloorCellsAbsent(b, id, row, 0 + SpanSum(a + [room]));
    }
    FloorCellsConcat(a + [room], b, id, row, 0);
    assert head + [] == cells;
  }

  lemma OthersCarryOtherIds(layout: seq<RoomData>, k: int)
    requires 0 <= k < |layout|
    requires forall i :: 0 <= i < |layout| && i != k ==> layout[i].id != layout[k].id
    ensures forall r :: r in layout[..k] ==> r.id != layout[k].id
    ensures forall r :: r in layout[k + 1..] ==> r.id != layout[k].id
  {
    var after := layout[k + 1..];
    forall i | 0 <= i < |after|
      ensures after[i].id != layout[k].id
    {
      assert after[i] == layout[k + 1 + i];
    }
  }

  /** The cells registered for a room whose id no other room shares come from its own floor alone. */
  lemma OwnFloorCells(layout: seq<RoomData>, k: int)
    requires 0 <= k < |layout|
    requires forall i :: 0 <= i < |layout| && i != k ==> layout[i].id != layout[k].id
    requires layout[k].floor in FLOORS
    ensures LayoutCells(layout, FLOORS, layout[k].id)
         == FloorCells(RoomsOnFloor(layout, layout[k].floor), layout[k].id, FloorToRow(layout[k].floor), 0)
  {
    forall r | r in layout && r.id == layout[k].id
      ensures r.floor == layout[k].floor
    {
      var i :| 0 <= i < |layout| && layout[i] == r;
    }
    FloorsCoverRows();
    LayoutCellsOneFloor(layout, FLOORS, layout[k].id, layout[k].floor);
  }

  /** On its own floor, such a room registers its rectangle at the column cursor. */
  lemma OwnRectangle(layout: seq<RoomData>, k: int)
    requires 0 <= k < |layout|
    requires forall i :: 0 <= i < |layout| && i != k ==> layout[i].id != layout[k].id
    ensures FloorCells(RoomsOnFloor(layout, layout[k].floor), layout[k].id, FloorToRow(layout[k].floor), 0)
         == RoomCells(FloorToRow(layout[k].floor), RowSpanOf(layout[k]), ColumnStart(layout, k), ColSpanOf(layout[k]))
  {
    var f := layout[k].floor;
    FloorAround(layout, k);
    RoomsOnFloorMembers(layout[..k], f);
    RoomsOnFloorMembers(layout[k + 1..], f);
    OthersCarryOtherIds(layout, k);
    FloorCellsOfUnique(RoomsOnFloor(layout[..k], f), layout[k], RoomsOnFloor(layout[k + 1..], f), FloorToRow(f));
  }

  /** A room whose id no other room shares, on a floor the builder walks, covers
      exactly the rectangle that starts at its floor's row and at the column
      cursor, and is rowSpan x colSpan large (spans defaulting to 1). */
  lemma PlacedRoom(layout: seq<RoomData>, k: int)
    requires 0 <= k < |layout|
    requires forall i :: 0 <= i < |layout| && i != k ==> layout[i].id != layout[k].id
    requires layout[k].floor in FLOORS
    ensures Lookup(Placement(layout), layout[k].id)
         == Some(RoomCells(FloorToRow(layout[k].floor), RowSpanOf(layout[k]), ColumnStart(layout, k), ColSpanOf(layout[k])))
    ensures forall cell :: cell in Lookup(Placement(layout), layout[k].id).value <==>
      FloorToRow(layout[k].floor) <= cell.row < FloorToRow(layout[k].floor) + RowSpanOf(layout[k]) &&
      ColumnStart(layout, k) <= cell.col < ColumnStart(layout, k) + ColSpanOf(layout[k])
  {
    var room := layout[k];
    OwnFloorCells(layout, k);
    OwnRectangle(layout, k);
    PlacementLookup(layout, room.id);
    assert room in layout;
    RoomCellsExactly(FloorToRow(room.floor), RowSpanOf(room), ColumnStart(layout, k), ColSpanOf(room));
  }

  /** A room whose spans are both absent (or zero) registers the single cell at its
      floor's row and the column cursor. */
  lemma DefaultSpansOneCell(layout: seq<RoomData>, k: int)
    requires 0 <= k < |layout|
    requires forall i :: 0 <= i < |layout| && i != k ==> layout[i].id != layout[k].id
    requires layout[k].floor in FLOORS
    requires layout[k].colSpan == None || layout[k].colSpan == Some(0)
    requires layout[k].rowSpan == None || layout[k].rowSpan == Some(0)
    ensures Lookup(Placement(layout), layout[k].id) == Some([Cell(FloorToRow(layout[k].floor), ColumnStart(layout, k))])
  {
    PlacedRoom(layout, k);
    var row, col := FloorToRow(layout[k].floor), ColumnStart(layout, k);
    assert RowCells(row, col, 1) == [Cell(row, col)] by {
      assert RowCells(row, col, 0) == [];
    }
    assert RoomCells(row, 1, col, 1) == [Cell(row, col)] by {
      assert RoomCells(row, 0, col, 1) == [];
    }
  }

  /** The rooms of floor `f` strictly between positions i and j, split out of the prefix before j. */
  lemma PrefixAround(layout: seq<RoomData>, i: int, j: int)
    requires 0 <= i < j <= |layout|
    ensures RoomsOnFloor(layout[..j], layout[i].floor)
         == RoomsOnFloor(layout[..i], layout[i].floor) + [layout[i]] + RoomsOnFloor(layout[i + 1..j], layout[i].floor)
  {
    var prefix := layout[..j];
    FloorAround(prefix, i);
    assert prefix[..i] == layout[..i];
    assert prefix[i + 1..] == layout[i + 1..j];
  }

  /** The cursor starts at column 0: the first room of a floor is placed at column 0. */
  lemma ColumnStartFirst(layout: seq<RoomData>, k: int)
    requires 0 <= k < |layout|
    requires forall i :: 0 <= i < k ==> layout[i].floor != layout[k].floor
    ensures ColumnStart(layout, k) == 0
  {
    var f := layout[k].floor;
    var before := layout[..k];
    forall r | r in before
      ensures r.floor != f
    {
      var i :| 0 <= i < k && before[i] == r;
    }
    RoomsOnFloorAbsent(before, f);
  }

  /** The cursor advances by exactly the colSpan of the room just placed: the next
      room of the same floor starts where the previous one ends. */
  lemma ColumnStartNext(layout: seq<RoomData>, i: int, j: int)
    requires 0 <= i < j < |layout|
    requires layout[j].floor == layout[i].floor
    requires forall p :: i < p < j ==> layout[p].floor != layout[i].floor
    ensures ColumnStart(layout, j) == ColumnStart(layout, i) + ColSpanOf(layout[i])
  {
    var f := layout[i].floor;
    PrefixAround(layout, i, j);
    var between := layout[i + 1..j];
    forall r | r in between
      ensures r.floor != f
    {
      var p :| 0 <= p < |between| && between[p] == r;
      assert layout[i + 1 + p] == r;
    }
    RoomsOnFloorAbsent(between, f);
    SpanSumConcat(RoomsOnFloor(layout[..i], f) + [layout[i]], []);
    SpanSumConcat(RoomsOnFloor(layout[..i], f), [layout[i]]);
  }

  /** With non-negative widths, a later room of the same floor starts no earlier
      than an earlier one ends: the column ranges of a floor do not overlap. */
  lemma ColumnsOrdered(layout: seq<RoomData>, i: int, j: int)
    requires 0 <= i < j < |layout|
    requires layout[j].floor == layout[i].floor
    requires forall room :: room in layout ==> ColSpanOf(room) >= 0
    ensures ColumnStart(layout, i) + ColSpanOf(layout[i]) <= ColumnStart(layout, j)
  {
    var f := layout[i].floor;
    PrefixAround(layout, i, j);
    var a := RoomsOnFloor(layout[..i], f);
    var between := RoomsOnFloor(layout[i + 1..j], f);
    RoomsOnFloorMembers(layout[i + 1..j], f);
    forall room | room in between
      ensures ColSpanOf(room) >= 0
    {
      var p :| 0 <= p < |layout[i + 1..j]| && layout[i + 1..j][p] == room;
      assert layout[i + 1 + p] == room;
    }
    SpanSumNonNegative(between);
    SpanSumConcat(a + [layout[i]], between);
    SpanSumConcat(a, [layout[i]]);
  }

  /** Two distinctly named rooms of one walked floor never share a cell, as long
      as no width on the table is negative. */
  lemma PlacedRoomsDisjoint(layout: seq<RoomData>, i: int, j: int, cell: Cell)
    requires 0 <= i < j < |layout|
    requires layout[j].floor == layout[i].floor && layout[i].floor in FLOORS
    requires forall p :: 0 <= p < |layout| && p != i ==> layout[p].id != layout[i].id
    requires forall p :: 0 <= p < |layout| && p != j ==> layout[p].id != layout[j].id
    requires forall room :: room in layout ==> ColSpanOf(room) >= 0
    ensures Lookup(Placement(layout), layout[i].id).Some? && Lookup(Placement(layout), layout[j].id).Some?
    ensures cell !in Lookup(Placement(layout), layout[i].id).value || cell !in Lookup(Placement(layout), layout[j].id).value
  {
    PlacedRoom(layout, i);
    PlacedRoom(layout, j);
    ColumnsOrdered(layout, i, j);
  }

  // ---------------------------------------------------------------------------
  // Resolving a cell to a room

  /** `findRoomAt`: the first id, in map order, whose cells contain (row, col). */
  function RoomAt(m: GridMap, row: int, col: int): Option<string> {
    if m == [] then None
    else if Cell(row, col) in m[0].1 then Some(m[0].0)
    else RoomAt(m[1..], row, col)
  }

  /** `findRoomAt`, as the loop over the map's entries that returns at the first hit. */
  method FindRoomAt(m: GridMap, row: int, col: int) returns (owner: Option<string>)
    ensures owner == RoomAt(m, row, col)
  {
    var i := 0;
    while i < |m|
      invariant 0 <= i <= |m|
      invariant RoomAt(m[i..], row, col) == RoomAt(m, row, col)
    {
      var (id, cells) := m[i];
      if Cell(row, col) in cells {
        return Some(id);
      }
      assert m[i..][1..] == m[i + 1..];
      i := i + 1;
    }
    return None;
  }

  /** A cell resolves to the earliest entry that covers it, and to nothing
      when no entry covers it. */
  lemma {:induction false} RoomAtFirstOwner(m: GridMap, row: int, col: int)
    ensures RoomAt(m, row, col) == None <==> forall i :: 0 <= i < |m| ==> Cell(row, col) !in m[i].1
    ensures forall i ::
      0 <= i < |m| && Cell(row, col) in m[i].1 && (forall k :: 0 <= k < i ==> Cell(row, col) !in m[k].1) ==>
      RoomAt(m, row, col) == Some(m[i].0)
    ensures RoomAt(m, row, col).Some? ==>
      exists i :: 0 <= i < |m| && m[i].0 == RoomAt(m, row, col).value && Cell(row, col) in m[i].1 &&
        forall k :: 0 <= k < i ==> Cell(row, col) !in m[k].1
  {
    if m != [] {
      RoomAtFirstOwner(m[1..], row, col);
      if Cell(row, col) !in m[0].1 {
        assert forall i :: 1 <= i < |m| ==> m[i] == m[1..][i - 1];
        var r := RoomAt(m, row, col);
        if r.Some? {
          var i :| 0 <= i < |m[1..]| && m[1..][i].0 == r.value && Cell(row, col) in m[1..][i].1 &&
            forall k :: 0 <= k < i ==> Cell(row, col) !in m[1..][k].1;
          assert m[i + 1] == m[1..][i];
        }
      }
    }
  }

  /** The cell an id resolves to is one of that id's own cells: with one entry
      per id, the owner's entry covers the cell. */
  lemma RoomAtOwnsCell(m: GridMap, row: int, col: int)
    requires Distinct(Keys(m))
    requires RoomAt(m, row, col).Some?
    ensures Lookup(m, RoomAt(m, row, col).value).Some?
    ensures Cell(row, col) in Lookup(m, RoomAt(m, row, col).value).value
  {
    RoomAtFirstOwner(m, row, col);
    var i :| 0 <= i < |m| && m[i].0 == RoomAt(m, row, col).value && Cell(row, col) in m[i].1;
    LookupAt(m, i);
  }

  /** With one entry per id, looking an entry's id up finds that entry. */
  lemma {:induction false} LookupAt(m: GridMap, i: int)
    requires Distinct(Keys(m))
    requires 0 <= i < |m|
    ensures Lookup(m, m[i].0) == Some(m[i].1)
  {
    if i > 0 {
      KeysIndex(m);
      assert Keys(m)[0] != Keys(m)[i];
      assert Distinct(Keys(m[1..])) by {
        assert forall k :: 0 <= k < |m| - 1 ==> Keys(m[1..])[k] == Keys(m)[k + 1];
      }
      LookupAt(m[1..], i - 1);
    }
  }

  /** An entry registered later can be shadowed: when an earlier entry covers
      all of its cells, no cell ever resolves to it. */
  lemma RoomAtShadowed(m: GridMap, i: int, j: int, row: int, col: int)
    requires Distinct(Keys(m))
    requires 0 <= i < j < |m|
    requires forall cell :: cell in m[j].1 ==> cell in m[i].1
    ensures RoomAt(m, row, col) != Some(m[j].0)
  {
    RoomAtFirstOwner(m, row, col);
    if RoomAt(m, row, col).Some? {
      var f :| 0 <= f < |m| && m[f].0 == RoomAt(m, row, col).value && Cell(row, col) in m[f].1 &&
        forall k :: 0 <= k < f ==> Cell(row, col) !in m[k].1;
      if Cell(row, col) in m[j].1 {
        assert Cell(row, col) in m[i].1;
        assert f <= i;
      }
      assert f != j;
      KeysIndex(m);
      if f < j {
        assert Keys(m)[f] != Keys(m)[j];
      } else {
        assert Keys(m)[j] != Keys(m)[f];
      }
    }
  }

  /** The first room of a floor, packed from column `col` on rows from `rowStart`,
      whose rectangle covers the cell (row, c). */
  function CoverAt(rooms: seq<RoomData>, rowStart: int, col: int, row: int, c: int): Option<string>
    decreases |rooms|
  {
    if rooms == [] then None
    else
      var room := rooms[0];
      if rowStart <= row < rowStart + RowSpanOf(room) && col <= c < col + ColSpanOf(room) then Some(room.id)
      else CoverAt(rooms[1..], rowStart, col + ColSpanOf(room), row, c)
  }

  /** The first room, floor by floor in the given order and left to right on each
      floor, whose rectangle covers the cell (row, col). */
  function OwnerAt(layout: seq<RoomData>, floors: seq<int>, row: int, col: int): Option<string>
    decreases |floors|
  {
    if floors == [] then None
    else match CoverAt(RoomsOnFloor(layout, floors[0]), FloorToRow(floors[0]), 0, row, col)
      case Some(id) => Some(id)
      case None => OwnerAt(layout, floors[1..], row, col)
  }

  /** No room of a floor reaches the cell's row: none of them covers it. */
  lemma {:induction false} CoverAtRowMiss(rooms: seq<RoomData>, rowStart: int, col: int, row: int, c: int, height: int)
    requires forall i :: 0 <= i < |rooms| ==> RowSpanOf(rooms[i]) <= height
    requires row < rowStart || rowStart + height <= row
    ensures CoverAt(rooms, rowStart, col, row, c) == None
    decreases |rooms|
  {
    if rooms != [] {
      assert forall i :: 0 <= i < |rooms[1..]| ==> rooms[1..][i] == rooms[i + 1];
      CoverAtRowMiss(rooms[1..], rowStart, col + ColSpanOf(rooms[0]), row, c, height);
    }
  }

  /** A cell right of a floor's packed width is covered by none of its rooms. */
  lemma {:induction false} CoverAtPastEnd(rooms: seq<RoomData>, rowStart: int, col: int, row: int, c: int)
    requires forall i :: 0 <= i < |rooms| ==> ColSpanOf(rooms[i]) >= 0
    requires col + SpanSum(rooms) <= c
    ensures CoverAt(rooms, rowStart, col, row, c) == None
    decreases |rooms|
  {
    if rooms != [] {
      assert forall i :: 0 <= i < |rooms[1..]| ==> rooms[1..][i] == rooms[i + 1];
      assert SpanSum(rooms[1..]) >= 0 by {
        SpanSumNonNegative(rooms[1..]);
      }
      CoverAtPastEnd(rooms[1..], rowStart, col + ColSpanOf(rooms[0]), row, c);
    }
  }

  /** The first owner in a concatenation: the first owner in the front part, if any. */
  lemma {:induction false} RoomAtAppend(a: GridMap, b: GridMap, row: int, col: int)
    ensures RoomAt(a + b, row, col) == if RoomAt(a, row, col).Some? then RoomAt(a, row, col) else RoomAt(b, row, col)
    decreases |a|
  {
    if a == [] {
      assert a + b == b;
    } else {
      assert (a + b)[0] == a[0];
      assert (a + b)[1..] == a[1..] + b;
      RoomAtAppend(a[1..], b, row, col);
    }
  }

  lemma {:induction false} FloorEntriesRoomAt(rooms: seq<RoomData>, rowStart: int, col: int, row: int, c: int)
    ensures RoomAt(FloorEntries(rooms, rowStart, col), row, c) == CoverAt(rooms, rowStart, col, row, c)
    decreases |rooms|
  {
    if rooms != [] {
      var room := rooms[0];
      var cells := RoomCells(rowStart, RowSpanOf(room), col, ColSpanOf(room));
      var rest := FloorEntries(rooms[1..], rowStart, col + ColSpanOf(room));
      assert FloorEntries(rooms, rowStart, col) == [(room.id, cells)] + rest;
      RoomAtAppend([(room.id, cells)], rest, row, c);
      RoomCellsContain(rowStart, RowSpanOf(room), col, ColSpanOf(room), Cell(row, c));
      FloorEntriesRoomAt(rooms[1..], rowStart, col + ColSpanOf(room), row, c);
    }
  }

  lemma {:induction false} LayoutEntriesRoomAt(layout: seq<RoomData>, floors: seq<int>, row: int, col: int)
    ensures RoomAt(LayoutEntries(layout, floors), row, col) == OwnerAt(layout, floors, row, col)
    decreases |floors|
  {
    if floors != [] {
      var f := floors[0];
      var here := FloorEntries(RoomsOnFloor(layout, f), FloorToRow(f), 0);
      RoomAtAppend(here, LayoutEntries(layout, floors[1..]), row, col);
      FloorEntriesRoomAt(RoomsOnFloor(layout, f), FloorToRow(f), 0, row, col);
      LayoutEntriesRoomAt(layout, floors[1..], row, col);
    }
  }

  /** Floors none of whose rooms covers the cell can be passed over. */
  lemma {:induction false} OwnerAtSkip(layout: seq<RoomData>, floors: seq<int>, row: int, col: int, k: nat)
    requires k <= |floors|
    requires forall i :: 0 <= i < k ==>
      CoverAt(RoomsOnFloor(layout, floors[i]), FloorToRow(floors[i]), 0, row, col) == None
    ensures OwnerAt(layout, floors, row, col) == OwnerAt(layout, floors[k..], row, col)
    decreases k
  {
    if k > 0 {
      assert CoverAt(RoomsOnFloor(layout, floors[0]), FloorToRow(floors[0]), 0, row, col) == None;
      assert forall i :: 0 <= i < k - 1 ==> floors[1..][i] == floors[i + 1];
      OwnerAtSkip(layout, floors[1..], row, col, k - 1);
      assert floors[1..][k - 1..] == floors[k..];
    }
  }

  /** With unique ids, `findRoomAt` on the builder's map answers the first room, floors
      from the top and rooms left to right, whose packed rectangle covers the cell. */
  lemma PlacementRoomAt(layout: seq<RoomData>, row: int, col: int)
    requires UniqueIds(layout)
    ensures RoomAt(Placement(layout), row, col) == OwnerAt(layout, FLOORS, row, col)
  {
    PlacementFresh(layout);
    LayoutEntriesRoomAt(layout, FLOORS, row, col);
  }

  // ---------------------------------------------------------------------------
  // Cells stay inside the grid

  /** Every cell of every entry lies inside the 10 x 10 grid. */
  ghost predicate CellsInGrid(m: GridMap) {
    forall k, cell :: 0 <= k < |m| && cell in m[k].1 ==> InGrid(cell.row, cell.col)
  }

  /** A floor whose rooms fit: its row is in the grid, no room reaches below the last
      row, and the packed width is at most the grid's. */
  ghost predicate FloorFits(rooms: seq<RoomData>, rowStart: int) {
    0 <= rowStart && SpanSum(rooms) <= GRID_SIZE &&
    forall i :: 0 <= i < |rooms| ==> ColSpanOf(rooms[i]) >= 0 && rowStart + RowSpanOf(rooms[i]) <= GRID_SIZE
  }

  lemma {:induction false} FloorEntriesInGrid(rooms: seq<RoomData>, rowStart: int, col: int)
    requires 0 <= rowStart && 0 <= col && col + SpanSum(rooms) <= GRID_SIZE
    requires forall i :: 0 <= i < |rooms| ==> ColSpanOf(rooms[i]) >= 0 && rowStart + RowSpanOf(rooms[i]) <= GRID_SIZE
    ensures CellsInGrid(FloorEntries(rooms, rowStart, col))
    decreases |rooms|
  {
    if rooms != [] {
      var room := rooms[0];
      var cells := RoomCells(rowStart, RowSpanOf(room), col, ColSpanOf(room));
      var rest := FloorEntries(rooms[1..], rowStart, col + ColSpanOf(room));
      assert FloorEntries(rooms, rowStart, col) == [(room.id, cells)] + rest;
      assert forall r :: r in rooms[1..] ==> ColSpanOf(r) >= 0;
      SpanSumNonNegative(rooms[1..]);
      RoomCellsExactly(rowStart, RowSpanOf(room), col, ColSpanOf(room));
      FloorEntriesInGrid(rooms[1..], rowStart, col + ColSpanOf(room));
      assert forall k :: 0 < k <= |rest| ==> ([(room.id, cells)] + rest)[k] == rest[k - 1];
    }
  }

  lemma {:induction false} LayoutEntriesInGrid(layout: seq<RoomData>, floors: seq<int>)
    requires forall i :: 0 <= i < |floors| ==> FloorFits(RoomsOnFloor(layout, floors[i]), FloorToRow(floors[i]))
    ensures CellsInGrid(LayoutEntries(layout, floors))
    decreases |floors|
  {
    if floors != [] {
      var here := FloorEntries(RoomsOnFloor(layout, floors[0]), FloorToRow(floors[0]), 0);
      var rest := LayoutEntries(layout, floors[1..]);
      assert FloorFits(RoomsOnFloor(layout, floors[0]), FloorToRow(floors[0]));
      FloorEntriesInGrid(RoomsOnFloor(layout, floors[0]), FloorToRow(floors[0]), 0);
      assert forall i :: 0 <= i < |floors| - 1 ==> floors[1..][i] == floors[i + 1];
      LayoutEntriesInGrid(layout, floors[1..]);
      assert forall k :: |here| <= k < |here| + |rest| ==> (here + rest)[k] == rest[k - |here|];
    }
  }

  /** With unique ids, the builder's map keeps inside the grid when every walked floor fits. */
  lemma PlacementInGrid(layout: seq<RoomData>)
    requires UniqueIds(layout)
    requires forall i :: 0 <= i < |FLOORS| ==> FloorFits(RoomsOnFloor(layout, FLOORS[i]), FloorToRow(FLOORS[i]))
    ensures CellsInGrid(Placement(layout))
  {
    PlacementFresh(layout);
    LayoutEntriesInGrid(layout, FLOORS);
  }

  // ---------------------------------------------------------------------------
  // Knight's moves

  /** The eight knight offsets (row, column), in the order the engine tries them. */
  const KNIGHT_MOVES: seq<(int, int)> := [(-2, -1), (-2, 1), (-1, -2), (-1, 2), (1, -2), (1, 2), (2, -1), (2, 1)]

  /** The room one knight offset from `cell` leads to, if the landing cell is
      inside the grid, has an owner, and that owner is neither empty nor the source. */
  function Hop(m: GridMap, source: string, cell: Cell, move: (int, int)): (target: Option<string>)
    ensures target.Some? ==> target.value != source && target.value != ""
  {
    var row := cell.row + move.0;
    var col := cell.col + move.1;
    if !InGrid(row, col) then None
    else match RoomAt(m, row, col)
      case None => None
      case Some(t) => if t != "" && t != source then Some(t) else None
  }

  /** `validTargetIds.add(t)` on an insertion-ordered set. */
  function AddTarget(targets: seq<string>, hop: Option<string>): seq<string> {
    match hop
    case None => targets
    case Some(t) => if t in targets then targets else targets + [t]
  }

  /** The inner `moves.forEach`: tries every offset in order from one cell. */
  function AddHops(targets: seq<string>, m: GridMap, source: string, cell: Cell, moves: seq<(int, int)>): seq<string>
    decreases |moves|
  {
    if moves == [] then targets
    else AddHops(AddTarget(targets, Hop(m, source, cell, moves[0])), m, source, cell, moves[1..])
  }

  /** The outer `currentCells.forEach`: tries all offsets from every cell in order. */
  function AddCellHops(targets: seq<string>, m: GridMap, source: string, cells: seq<Cell>, moves: seq<(int, int)>): seq<string>
    decreases |cells|
  {
    if cells == [] then targets
    else AddCellHops(AddHops(targets, m, source, cells[0], moves), m, source, cells[1..], moves)
  }

  /** What `getValidKnightMoves` returns: the targets in the order they were first found. */
  function KnightMoves(m: GridMap, source: string): seq<string> {
    match Lookup(m, source)
    case None => []
    case Some(cells) => AddCellHops([], m, source, cells, KNIGHT_MOVES)
  }

  /** The reference meaning of a knight's move: some cell of the source, moved by
      one knight offset, lands inside the grid on a cell that resolves to the
      target, and the target is a non-empty id other than the source. */
  ghost predicate KnightReachable(m: GridMap, source: string, target: string) {
    Lookup(m, source).Some? &&
    target != "" && target != source &&
    exists cell, move :: cell in Lookup(m, source).value && move in KNIGHT_MOVES &&
      InGrid(cell.row + move.0, cell.col + move.1) &&
      RoomAt(m, cell.row + move.0, cell.col + move.1) == Some(target)
  }

  /** One step of `getValidKnightMoves`: the landing cell, its bounds check,
      `findRoomAt`, and the `targetRoomId && targetRoomId !== currentRoomId` test. */
  method TryMove(m: GridMap, currentRoomId: string, cell: Cell, move: (int, int)) returns (hop: Option<string>)
    ensures hop == Hop(m, currentRoomId, cell, move)
  {
    var newRow := cell.row + move.0;
    var newCol := cell.col + move.1;
    hop := None;
    if newRow >= 0 && newRow < GRID_SIZE && newCol >= 0 && newCol < GRID_SIZE {
      var targetRoomId := FindRoomAt(m, newRow, newCol);
      if targetRoomId.Some? && targetRoomId.value != "" && targetRoomId.value != currentRoomId {
        hop := targetRoomId;
      }
    }
  }

  /** The inner `moves.forEach` of `getValidKnightMoves`: tries each offset
      from one cell and adds each new target once. */
  method AddMovesFrom(targets0: seq<string>, m: GridMap, currentRoomId: string, cell: Cell, moves: seq<(int, int)>)
    returns (targets: seq<string>)
    ensures targets == AddHops(targets0, m, currentRoomId, cell, moves)
  {
    targets := targets0;
    var j := 0;
    while j < |moves|
      invariant 0 <= j <= |moves|
      invariant AddHops(targets, m, currentRoomId, cell, moves[j..]) == AddHops(targets0, m, currentRoomId, cell, moves)
    {
      var hop := TryMove(m, currentRoomId, cell, moves[j]);
      if hop.Some? && hop.value !in targets {
        targets := targets + [hop.value];
      }
      assert moves[j..][1..] == moves[j + 1..];
      j := j + 1;
    }
  }

  /** `getValidKnightMoves`: an unknown room has no moves; otherwise every
      offset is tried from every cell of the room, and the targets are returned
      in the order they were first found. */
  method GetValidKnightMoves(m: GridMap, currentRoomId: string) returns (moves: seq<string>)
    ensures moves == KnightMoves(m, currentRoomId)
  {
    var currentCells := Lookup(m, currentRoomId);
    if currentCells.None? {
      return [];
    }
    var cells := currentCells.value;
    var validTargetIds: seq<string> := [];
    var i := 0;
    while i < |cells|
      invariant 0 <= i <= |cells|
      invariant AddCellHops(validTargetIds, m, currentRoomId, cells[i..], KNIGHT_MOVES) == KnightMoves(m, currentRoomId)
    {
      validTargetIds := AddMovesFrom(validTargetIds, m, currentRoomId, cells[i], KNIGHT_MOVES);
      assert cells[i..][1..] == cells[i + 1..];
      i := i + 1;
    }
    moves := validTargetIds;
  }

  lemma {:induction false} AddHopsDistinct(targets: seq<string>, m: GridMap, source: string, cell: Cell, moves: seq<(int, int)>)
    requires Distinct(targets)
    ensures Distinct(AddHops(targets, m, source, cell, moves))
    decreases |moves|
  {
    if moves != [] {
      var next := AddTarget(targets, Hop(m, source, cell, moves[0]));
      assert Distinct(next);
      AddHopsDistinct(next, m, source, cell, moves[1..]);
    }
  }

  lemma {:induction false} AddCellHopsDistinct(targets: seq<string>, m: GridMap, source: string, cells: seq<Cell>, moves: seq<(int, int)>)
    requires Distinct(targets)
    ensures Distinct(AddCellHops(targets, m, source, cells, moves))
    decreases |cells|
  {
    if cells != [] {
      AddHopsDistinct(targets, m, source, cells[0], moves);
      AddCellHopsDistinct(AddHops(targets, m, source, cells[0], moves), m, source, cells[1..], moves);
    }
  }

  /** A target found from several cells or offsets is reported once (the `Set`). */
  lemma KnightMovesDistinct(m: GridMap, source: string)
    ensures Distinct(KnightMoves(m, source))
  {
    if Lookup(m, source).Some? {
      AddCellHopsDistinct([], m, source, Lookup(m, source).value, KNIGHT_MOVES);
    }
  }

  lemma {:induction false} AddHopsMembers(targets: seq<string>, m: GridMap, source: string, cell: Cell, moves: seq<(int, int)>, t: string)
    ensures t in AddHops(targets, m, source, cell, moves) <==>
      t in targets || exists move :: move in moves && Hop(m, source, cell, move) == Some(t)
    decreases |moves|
  {
    if moves != [] {
      var next := AddTarget(targets, Hop(m, source, cell, moves[0]));
      AddHopsMembers(next, m, source, cell, moves[1..], t);
      assert t in next <==> t in targets || Hop(m, source, cell, moves[0]) == Some(t);
      assert moves == [moves[0]] + moves[1..];
    }
  }

  lemma {:induction false} AddCellHopsMembers(targets: seq<string>, m: GridMap, source: string, cells: seq<Cell>, moves: seq<(int, int)>, t: string)
    ensures t in AddCellHops(targets, m, source, cells, moves) <==>
      t in targets || exists cell, move :: cell in cells && move in moves && Hop(m, source, cell, move) == Some(t)
    decreases |cells|
  {
    if cells != [] {
      var next := AddHops(targets, m, source, cells[0], moves);
      AddHopsMembers(targets, m, source, cells[0], moves, t);
      AddCellHopsMembers(next, m, source, cells[1..], moves, t);
      assert cells == [cells[0]] + cells[1..];
    }
  }

  /** One hop lands, inside the grid, on a cell resolving to a non-empty id other than the source. */
  lemma HopMeaning(m: GridMap, source: string, cell: Cell, move: (int, int), t: string)
    ensures Hop(m, source, cell, move) == Some(t) <==>
      t != "" && t != source &&
      InGrid(cell.row + move.0, cell.col + move.1) && RoomAt(m, cell.row + move.0, cell.col + move.1) == Some(t)
  {
  }

  /** The engine reports exactly the knight-reachable rooms. */
  lemma KnightMovesMeaning(m: GridMap, source: string, t: string)
    ensures t in KnightMoves(m, source) <==> KnightReachable(m, source, t)
  {
    if Lookup(m, source).Some? {
      var cells := Lookup(m, source).value;
      AddCellHopsMembers([], m, source, cells, KNIGHT_MOVES, t);
      if t in KnightMoves(m, source) {
        var cell, move :| cell in cells && move in KNIGHT_MOVES && Hop(m, source, cell, move) == Some(t);
        HopMeaning(m, source, cell, move, t);
      }
      if KnightReachable(m, source, t) {
        var cell, move :| cell in cells && move in KNIGHT_MOVES &&
          InGrid(cell.row + move.0, cell.col + move.1) && RoomAt(m, cell.row + move.0, cell.col + move.1) == Some(t);
        HopMeaning(m, source, cell, move, t);
      }
    }
  }

  /** The source itself and the empty id are never reported. */
  lemma KnightMovesExcludeSource(m: GridMap, source: string)
    ensures source !in KnightMoves(m, source)
    ensures "" !in KnightMoves(m, source)
  {
    KnightMovesMeaning(m, source, source);
    KnightMovesMeaning(m, source, "");
  }

  /** An id `findRoomAt` never answers is never a knight's move target. */
  lemma NeverFoundNeverReached(m: GridMap, t: string)
    requires forall row, col :: RoomAt(m, row, col) != Some(t)
    ensures forall source :: t !in KnightMoves(m, source)
  {
    forall source ensures t !in KnightMoves(m, source) {
      KnightMovesMeaning(m, source, t);
    }
  }

  /** An id without an entry (unknown, or only on a floor the builder skips) has no moves. */
  lemma KnightMovesOfUnplaced(layout: seq<RoomData>, id: string)
    requires !Registered(layout, FLOORS, id)
    ensures KnightMoves(Placement(layout), id) == []
  {
    PlacementLookup(layout, id);
  }
}
