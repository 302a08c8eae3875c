/**
  The static room table of the building: one record per room, in the order
  in which the placement builder packs them left to right on their floor.
  The order of the table is significant: no room stores its own column.
*/
module Layout {
  import opened Wrappers

  datatype RoomType = Apartment | Service | Stairwell | Elevator | Basement

  /** A room record. `colSpan` and `rowSpan` are optional in the source and
      read as `span || 1`, so an absent span and a zero span both mean 1. */
  datatype RoomData = RoomData(
    id: string,
    name: string,
    floor: int,
    colSpan: Option<int>,
    rowSpan: Option<int>,
    roomType: RoomType)

  /** `span || 1`: absent and 0 are falsy and become 1; any other number is kept. */
  function SpanOrOne(span: Option<int>): (r: int)
    ensures span == None || span == Some(0) ==> r == 1
    ensures span.Some? && span.value != 0 ==> r == span.value
    ensures r != 0
    ensures span.None? || span.value >= 0 ==> r >= 1
  {
    match span
    case None => 1
    case Some(n) => if n == 0 then 1 else n
  }

  function ColSpanOf(room: RoomData): int { SpanOrOne(room.colSpan) }

  function RowSpanOf(room: RoomData): int { SpanOrOne(room.rowSpan) }

  /** The rooms of a floor, in table order (`BUILDING_LAYOUT.filter(r => r.floor === floor)`). */
  function RoomsOnFloor(layout: seq<RoomData>, floor: int): seq<RoomData> {
    if layout == [] then []
    else (if layout[0].floor == floor then [layout[0]] else []) + RoomsOnFloor(layout[1..], floor)
  }

  /** The filter keeps exactly the rooms of the table that are on the floor. */
  lemma {:induction false} RoomsOnFloorMembers(layout: seq<RoomData>, floor: int)
    ensures |RoomsOnFloor(layout, floor)| <= |layout|
    ensures forall room :: room in RoomsOnFloor(layout, floor) <==> room in layout && room.floor == floor
  {
    if layout != [] {
      RoomsOnFloorMembers(layout[1..], floor);
      var head := if layout[0].floor == floor then [layout[0]] else [];
      var rest := RoomsOnFloor(layout[1..], floor);
      assert layout == [layout[0]] + layout[1..];
      assert forall room :: room in head + rest <==> room in head || room in rest;
    }
  }

  /** Total width of a run of rooms, each counted by its effective colSpan. */
  function SpanSum(rooms: seq<RoomData>): int {
    if rooms == [] then 0 else ColSpanOf(rooms[0]) + SpanSum(rooms[1..])
  }

  /** Filtering distributes over concatenation: a floor's rooms keep their table order. */
  lemma {:induction false} RoomsOnFloorConcat(a: seq<RoomData>, b: seq<RoomData>, floor: int)
    ensures RoomsOnFloor(a + b, floor) == RoomsOnFloor(a, floor) + RoomsOnFloor(b, floor)
    decreases |a|
  {
    if a != [] {
      assert (a + b)[0] == a[0];
      assert (a + b)[1..] == a[1..] + b;
      RoomsOnFloorConcat(a[1..], b, floor);
      var head := if a[0].floor == floor then [a[0]] else [];
      assert head + (RoomsOnFloor(a[1..], floor) + RoomsOnFloor(b, floor))
          == (head + RoomsOnFloor(a[1..], floor)) + RoomsOnFloor(b, floor);
    } else {
      assert a + b == b;
    }
  }

  lemma {:induction false} SpanSumConcat(a: seq<RoomData>, b: seq<RoomData>)
    ensures SpanSum(a + b) == SpanSum(a) + SpanSum(b)
    decreases |a|
  {
    if a != [] {
      assert (a + b)[0] == a[0];
      assert (a + b)[1..] == a[1..] + b;
      SpanSumConcat(a[1..], b);
    } else {
      assert a + b == b;
    }
  }

  /** The rooms of `layout[k]`'s floor are those before it, itself, and those after it. */
  lemma {:induction false} FloorAround(layout: seq<RoomData>, k: int)
    requires 0 <= k < |layout|
    ensures RoomsOnFloor(layout, layout[k].floor)
         == RoomsOnFloor(layout[..k], layout[k].floor) + [layout[k]] + RoomsOnFloor(layout[k + 1..], layout[k].floor)
  {
    var f := layout[k].floor;
    var before, rest := layout[..k], layout[k..];
    assert layout == before + rest;
    RoomsOnFloorConcat(before, rest, f);
    assert rest[0] == layout[k] && rest[1..] == layout[k + 1..];
    assert RoomsOnFloor(rest, f) == [layout[k]] + RoomsOnFloor(layout[k + 1..], f);
  }

  lemma {:induction false} RoomsOnFloorAbsent(layout: seq<RoomData>, floor: int)
    requires forall room :: room in layout ==> room.floor != floor
    ensures RoomsOnFloor(layout, floor) == []
    decreases |layout|
  {
    if layout != [] {
      assert layout[0] in layout;
      assert forall room :: room in layout[1..] ==> room in layout;
      RoomsOnFloorAbsent(layout[1..], floor);
    }
  }

  lemma {:induction false} SpanSumNonNegative(rooms: seq<RoomData>)
    requires forall room :: room in rooms ==> ColSpanOf(room) >= 0
    ensures SpanSum(rooms) >= 0
    decreases |rooms|
  {
    if rooms != [] {
      assert rooms[0] in rooms;
      assert forall room :: room in rooms[1..] ==> room in rooms;
      SpanSumNonNegative(rooms[1..]);
    }
  }

  /** Ids are pairwise distinct: a room is named by its id alone. */
  ghost predicate UniqueIds(rooms: seq<RoomData>) {
    forall i, j :: 0 <= i < j < |rooms| ==> rooms[i].id != rooms[j].id
  }

  /** With unique ids, two records of the table that share an id are the same record. */
  lemma SameIdSameRoom(rooms: seq<RoomData>, a: RoomData, b: RoomData)
    requires UniqueIds(rooms)
    requires a in rooms && b in rooms && a.id == b.id
    ensures a == b
  {
    var i :| 0 <= i < |rooms| && rooms[i] == a;
    var j :| 0 <= j < |rooms| && rooms[j] == b;
  }

  /** Dropping the first record keeps ids unique, and no later record shares its id. */
  lemma UniqueIdsRest(layout: seq<RoomData>)
    requires UniqueIds(layout) && layout != []
    ensures UniqueIds(layout[1..])
    ensures forall room :: room in layout[1..] ==> room.id != layout[0].id
  {
    forall i, j | 0 <= i < j < |layout[1..]|
      ensures layout[1..][i].id != layout[1..][j].id
    {
      assert layout[1..][i] == layout[i + 1] && layout[1..][j] == layout[j + 1];
    }
    forall room | room in layout[1..]
      ensures room.id != layout[0].id
    {
      var p :| 0 <= p < |layout[1..]| && layout[1..][p] == room;
      assert layout[p + 1] == room;
    }
  }

  /** Filtering a table with unique ids keeps them unique. */
  lemma {:induction false} RoomsOnFloorUnique(layout: seq<RoomData>, floor: int)
    requires UniqueIds(layout)
    ensures UniqueIds(RoomsOnFloor(layout, floor))
    decreases |layout|
  {
    if layout != [] {
      var rest := RoomsOnFloor(layout[1..], floor);
      UniqueIdsRest(layout);
      RoomsOnFloorUnique(layout[1..], floor);
      if layout[0].floor == floor {
        RoomsOnFloorMembers(layout[1..], floor);
        assert forall p :: 0 <= p < |rest| ==> rest[p] in rest;
        UniqueConcat([layout[0]], rest);
      } else {
        assert RoomsOnFloor(layout, floor) == [] + rest;
        assert [] + rest == rest;
      }
    }
  }

  // ---------------------------------------------------------------------------
  // A table written floor block by floor block

  /** Every room of the run is on floor `f`. */
  predicate OnFloor(rooms: seq<RoomData>, f: int) {
    forall i :: 0 <= i < |rooms| ==> rooms[i].floor == f
  }

  /** A run of rooms all on one floor is kept whole by that floor's filter and dropped by every other. */
  lemma {:induction false} RoomsOnFloorSame(rooms: seq<RoomData>, f: int, x: int)
    requires OnFloor(rooms, f)
    ensures RoomsOnFloor(rooms, x) == if x == f then rooms else []
    decreases |rooms|
  {
    if rooms != [] {
      assert OnFloor(rooms[1..], f) by {
        forall i | 0 <= i < |rooms[1..]| ensures rooms[1..][i].floor == f {
          assert rooms[1..][i] == rooms[i + 1];
        }
      }
      RoomsOnFloorSame(rooms[1..], f, x);
      if x == f {
        assert [rooms[0]] + rooms[1..] == rooms;
      }
    }
  }

  /** The blocks one after the other. */
  function Flatten(blocks: seq<seq<RoomData>>): seq<RoomData> {
    if blocks == [] then [] else blocks[0] + Flatten(blocks[1..])
  }

  /** Each block is a non-empty run of rooms of one floor, and no two blocks share a floor. */
  ghost predicate Stacked(blocks: seq<seq<RoomData>>) {
    (forall j :: 0 <= j < |blocks| ==> blocks[j] != [] && OnFloor(blocks[j], blocks[j][0].floor)) &&
    (forall j, k :: 0 <= j < k < |blocks| ==> blocks[j][0].floor != blocks[k][0].floor)
  }

  /** The first block on floor `x`, or no rooms. */
  function BlockOf(blocks: seq<seq<RoomData>>, x: int): seq<RoomData> {
    if blocks == [] then []
    else if blocks[0] != [] && blocks[0][0].floor == x then blocks[0]
    else BlockOf(blocks[1..], x)
  }

  /** A floor's rooms in a table stacked from blocks are that floor's block, or none. */
  lemma {:induction false} FlattenFloors(blocks: seq<seq<RoomData>>, x: int)
    requires Stacked(blocks)
    ensures RoomsOnFloor(Flatten(blocks), x) == BlockOf(blocks, x)
    decreases |blocks|
  {
    if blocks != [] {
      var first, rest := blocks[0], blocks[1..];
      assert Stacked(rest) by {
        assert forall j :: 0 <= j < |rest| ==> rest[j] == blocks[j + 1];
      }
      FlattenFloors(rest, x);
      RoomsOnFloorConcat(first, Flatten(rest), x);
      RoomsOnFloorSame(first, first[0].floor, x);
      if x == first[0].floor {
        assert BlockOf(rest, x) == [] by {
          assert forall j :: 0 <= j < |rest| ==> rest[j][0].floor != x by {
            assert forall j :: 0 <= j < |rest| ==> rest[j] == blocks[j + 1];
          }
          BlockOfAbsent(rest, x);
        }
        assert first + [] == first;
      } else {
        assert [] + RoomsOnFloor(Flatten(rest), x) == RoomsOnFloor(Flatten(rest), x);
      }
    }
  }

  /** In stacked blocks, the block of a block's own floor is that block. */
  lemma {:induction false} BlockOfAt(blocks: seq<seq<RoomData>>, j: int)
    requires Stacked(blocks) && 0 <= j < |blocks|
    ensures BlockOf(blocks, blocks[j][0].floor) == blocks[j]
    decreases j
  {
    if j > 0 {
      var rest := blocks[1..];
      assert Stacked(rest) && rest[j - 1] == blocks[j] by {
        assert forall i :: 0 <= i < |rest| ==> rest[i] == blocks[i + 1];
      }
      BlockOfAt(rest, j - 1);
    }
  }

  lemma {:induction false} BlockOfAbsent(blocks: seq<seq<RoomData>>, x: int)
    requires forall j :: 0 <= j < |blocks| && blocks[j] != [] ==> blocks[j][0].floor != x
    ensures BlockOf(blocks, x) == []
    decreases |blocks|
  {
    if blocks != [] {
      assert forall j :: 0 <= j < |blocks[1..]| ==> blocks[1..][j] == blocks[j + 1];
      BlockOfAbsent(blocks[1..], x);
    }
  }

  lemma {:induction false} FlattenMember(blocks: seq<seq<RoomData>>, room: RoomData)
    ensures room in Flatten(blocks) <==>
      exists j, i :: 0 <= j < |blocks| && 0 <= i < |blocks[j]| && blocks[j][i] == room
    decreases |blocks|
  {
    if blocks != [] {
      FlattenMember(blocks[1..], room);
      assert room in blocks[0] + Flatten(blocks[1..]) <==> room in blocks[0] || room in Flatten(blocks[1..]);
      if exists j, i :: 0 <= j < |blocks| && 0 <= i < |blocks[j]| && blocks[j][i] == room {
        var j, i :| 0 <= j < |blocks| && 0 <= i < |blocks[j]| && blocks[j][i] == room;
        if j > 0 {
          assert blocks[1..][j - 1][i] == room;
        }
      }
      if room in blocks[0] {
        var i :| 0 <= i < |blocks[0]| && blocks[0][i] == room;
        assert blocks[0][i] == room;
      }
      if room in Flatten(blocks[1..]) {
        var j, i :| 0 <= j < |blocks[1..]| && 0 <= i < |blocks[1..][j]| && blocks[1..][j][i] == room;
        assert blocks[j + 1][i] == room;
      }
    }
  }

  /** Two runs with unique ids and no id in common join into a run with unique ids. */
  lemma UniqueConcat(a: seq<RoomData>, b: seq<RoomData>)
    requires UniqueIds(a) && UniqueIds(b)
    requires forall i, p :: 0 <= i < |a| && 0 <= p < |b| ==> a[i].id != b[p].id
    ensures UniqueIds(a + b)
  {
    var ab := a + b;
    forall i, j | 0 <= i < j < |ab|
      ensures ab[i].id != ab[j].id
    {
      if j < |a| {
        assert ab[i] == a[i] && ab[j] == a[j];
      } else if i < |a| {
        assert ab[i] == a[i] && ab[j] == b[j - |a|];
      } else {
        assert ab[i] == b[i - |a|] && ab[j] == b[j - |a|];
      }
    }
  }

  /** Blocks with unique ids, no id shared between two blocks, stack into a table with unique ids. */
  lemma {:induction false} FlattenUnique(blocks: seq<seq<RoomData>>)
    requires forall j :: 0 <= j < |blocks| ==> UniqueIds(blocks[j])
    requires forall j, k, a, b :: 0 <= j < k < |blocks| && 0 <= a < |blocks[j]| && 0 <= b < |blocks[k]| ==>
      blocks[j][a].id != blocks[k][b].id
    ensures UniqueIds(Flatten(blocks))
    decreases |blocks|
  {
    if blocks != [] {
      var first, rest := blocks[0], blocks[1..];
      assert forall j :: 0 <= j < |rest| ==> rest[j] == blocks[j + 1];
      FlattenUnique(rest);
      var tail := Flatten(rest);
      forall i, p | 0 <= i < |first| && 0 <= p < |tail|
        ensures first[i].id != tail[p].id
      {
        FlattenMember(rest, tail[p]);
        var j, q :| 0 <= j < |rest| && 0 <= q < |rest[j]| && rest[j][q] == tail[p];
        assert blocks[j + 1][q] == tail[p];
      }
      UniqueConcat(first, tail);
    }
  }

  /** The table, in the order of the source's single array literal; it is
      written here as its floor blocks one after the other, top floor first,
      so that facts about it can be established block by block. */
  const BUILDING_LAYOUT: seq<RoomData> := Flatten(FLOOR_BLOCKS)

  const FLOOR_BLOCKS: seq<seq<RoomData>> := [
    FLOOR_8, FLOOR_7, FLOOR_6, FLOOR_5, FLOOR_4, FLOOR_3, FLOOR_2, FLOOR_1,
    FLOOR_0, FLOOR_MINUS_1, HIDDEN_FLOOR]

  // Floor 8 (attics and maids' rooms)
  const FLOOR_8: seq<RoomData> := [
    RoomData("8-1", "HUTTING", 8, Some(2), Some(2), Apartment),
    RoomData("8-2", "SMAUTF", 8, Some(1), None, Service),
    RoomData("8-3", "SUTTON", 8, Some(1), None, Service),
    RoomData("8-4", "ORLOWSKA", 8, Some(1), None, Service),
    RoomData("8-5", "ALBIN", 8, Some(1), None, Service),
    RoomData("8-6", "MORELLET", 8, Some(1), None, Service),
    RoomData("8-7", "PLASSAERT", 8, Some(3), None, Apartment)]

  const FLOOR_7: seq<RoomData> := [
    RoomData("7-1", "GRATIOLET", 7, Some(2), None, Apartment),
    RoomData("7-2", "CRESPI", 7, Some(1), None, Apartment),
    RoomData("7-3", "NIETO & ROGERS", 7, Some(1), None, Apartment),
    RoomData("7-4", "", 7, Some(1), None, Apartment),
    RoomData("7-5", "", 7, Some(1), None, Apartment),
    RoomData("7-6", "BREIDEL", 7, Some(1), None, Service),
    RoomData("7-7", "VALÈNE", 7, Some(1), None, Apartment)]

  const FLOOR_6: seq<RoomData> := [
    RoomData("6-1", "CINOC", 6, Some(2), None, Apartment),
    RoomData("6-2", "DINTEVILLE", 6, Some(3), None, Apartment),
    RoomData("ELEVATOR", "ELEVATOR", 6, Some(2), Some(6), Elevator),
    RoomData("6-3", "WINCKLER", 6, Some(3), None, Apartment)]

  const FLOOR_5: seq<RoomData> := [
    RoomData("5-1", "RÉOL", 5, Some(2), None, Apartment),
    RoomData("5-2", "RORSCHASH", 5, Some(3), None, Apartment),
    RoomData("5-3", "FOULEROT", 5, Some(3), None, Apartment)]

  const FLOOR_4: seq<RoomData> := [
    RoomData("4-1", "BERGER", 4, Some(2), None, Apartment),
    RoomData("4-2", "RORSCHASH (BAS)", 4, Some(3), None, Apartment),
    RoomData("4-3", "MARQUISEAUX", 4, Some(3), None, Apartment)]

  const FLOOR_3: seq<RoomData> := [
    RoomData("3-1", "BARTLEBOOTH", 3, Some(5), None, Apartment),
    RoomData("3-2", "FOUREAU", 3, Some(3), None, Apartment)]

  const FLOOR_2: seq<RoomData> := [
    RoomData("2-1", "ALTAMONT", 2, Some(5), None, Apartment),
    RoomData("2-2", "DE BEAUMONT", 2, Some(3), None, Apartment)]

  const FLOOR_1: seq<RoomData> := [
    RoomData("1-1", "MOREAU", 1, Some(5), None, Apartment),
    RoomData("1-2", "LOUVET", 1, Some(3), None, Apartment)]

  // Floor 0 (ground floor)
  const FLOOR_0: seq<RoomData> := [
    RoomData("0-1", "SERVICE", 0, Some(1), None, Service),
    RoomData("0-2", "MARCIA", 0, Some(1), None, Apartment),
    RoomData("0-3", "ANTIQUITÉS", 0, Some(2), None, Service),
    RoomData("0-4", "LOGE", 0, Some(1), None, Service),
    RoomData("0-5", "HALL", 0, Some(2), None, Stairwell),
    RoomData("0-6", "MARCIA (SALON)", 0, Some(3), None, Apartment)]

  // Floor -1 (cellars)
  const FLOOR_MINUS_1: seq<RoomData> := [
    RoomData("-1-1", "", -1, Some(1), None, Basement),
    RoomData("-1-2", "CAVE (B)", -1, Some(1), None, Basement),
    RoomData("-1-3", "CHAUFFERIE", -1, Some(2), None, Basement),
    RoomData("-1-4", "CAVE (R/D)", -1, Some(1), None, Basement),
    RoomData("-1-5", "MACHINERIE", -1, Some(2), None, Basement),
    RoomData("-1-6", "CAVE (A/G)", -1, Some(1), None, Basement),
    RoomData("-1-7", "CAVE (M/M)", -1, Some(1), None, Basement),
    RoomData("-1-8", "CAVE (De)", -1, Some(1), None, Basement)]

  // Hidden floor, unlocked at the end of the game
  const HIDDEN_FLOOR: seq<RoomData> := [
    RoomData("100-1", "THE 100TH KEY", 100, Some(10), None, Apartment)]
}
