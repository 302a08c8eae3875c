/**
  Facts about the building itself: the room table as written, the map the
  placement builder produces from it, and the answers `findRoomAt` and
  `getValidKnightMoves` give on that map.
*/
module Building {
  import opened Wrappers
  import opened Layout
  import opened GridLogic

  // ---------------------------------------------------------------------------
  // The shape of every room

  /** The spans and floor of a room of the table: every room is at least one
      column wide; only HUTTING (`8-1`, two storeys) and the ELEVATOR (six
      storeys) are taller than one storey; every room is on a floor from -1
      to 8 except the hidden `100-1`, which is on floor 100 and ten columns wide. */
  predicate Shaped(room: RoomData) {
    ColSpanOf(room) >= 1 &&
    RowSpanOf(room) == (if room.id == "8-1" then 2 else if room.id == "ELEVATOR" then 6 else 1) &&
    (if room.id == "100-1" then room.floor == 100 && ColSpanOf(room) == 10 else -1 <= room.floor <= 8)
  }

  predicate AllShaped(rooms: seq<RoomData>) {
    forall i :: 0 <= i < |rooms| ==> Shaped(rooms[i])
  }

  predicate SingleStorey(rooms: seq<RoomData>) {
    forall i :: 0 <= i < |rooms| ==> RowSpanOf(rooms[i]) == 1
  }

  lemma Shaped8() ensures AllShaped(FLOOR_8) && FLOOR_8 != [] && OnFloor(FLOOR_8, 8) {}
  lemma Shaped7() ensures AllShaped(FLOOR_7) && SingleStorey(FLOOR_7) && FLOOR_7 != [] && OnFloor(FLOOR_7, 7) {}
  lemma Shaped6() ensures AllShaped(FLOOR_6) && FLOOR_6 != [] && OnFloor(FLOOR_6, 6) {}
  lemma Shaped5() ensures AllShaped(FLOOR_5) && SingleStorey(FLOOR_5) && FLOOR_5 != [] && OnFloor(FLOOR_5, 5) {}
  lemma Shaped4() ensures AllShaped(FLOOR_4) && SingleStorey(FLOOR_4) && FLOOR_4 != [] && OnFloor(FLOOR_4, 4) {}
  lemma Shaped3() ensures AllShaped(FLOOR_3) && SingleStorey(FLOOR_3) && FLOOR_3 != [] && OnFloor(FLOOR_3, 3) {}
  lemma Shaped2() ensures AllShaped(FLOOR_2) && SingleStorey(FLOOR_2) && FLOOR_2 != [] && OnFloor(FLOOR_2, 2) {}
  lemma Shaped1() ensures AllShaped(FLOOR_1) && SingleStorey(FLOOR_1) && FLOOR_1 != [] && OnFloor(FLOOR_1, 1) {}
  lemma Shaped0() ensures AllShaped(FLOOR_0) && SingleStorey(FLOOR_0) && FLOOR_0 != [] && OnFloor(FLOOR_0, 0) {}
  lemma ShapedMinus1() ensures AllShaped(FLOOR_MINUS_1) && SingleStorey(FLOOR_MINUS_1) && FLOOR_MINUS_1 != [] && OnFloor(FLOOR_MINUS_1, -1) {}
  lemma ShapedHidden() ensures AllShaped(HIDDEN_FLOOR) && SingleStorey(HIDDEN_FLOOR) && HIDDEN_FLOOR != [] && OnFloor(HIDDEN_FLOOR, 100) {}

  lemma BlockShaped(j: int)
    requires 0 <= j < |FLOOR_BLOCKS|
    ensures AllShaped(FLOOR_BLOCKS[j]) && FLOOR_BLOCKS[j] != [] && OnFloor(FLOOR_BLOCKS[j], FLOOR_BLOCKS[j][0].floor)
  {
    if j == 0 { Shaped8(); }
    else if j == 1 { Shaped7(); }
    else if j == 2 { Shaped6(); }
    else if j == 3 { Shaped5(); }
    else if j == 4 { Shaped4(); }
    else if j == 5 { Shaped3(); }
    else if j == 6 { Shaped2(); }
    else if j == 7 { Shaped1(); }
    else if j == 8 { Shaped0(); }
    else if j == 9 { ShapedMinus1(); }
    else { ShapedHidden(); }
  }

  /** Below floor 6, and on floor 7, every room is one storey high. */
  lemma BlockSingleStorey(j: int)
    requires 0 <= j < |FLOOR_BLOCKS| && j != 0 && j != 2
    ensures SingleStorey(FLOOR_BLOCKS[j])
  {
    if j == 1 { Shaped7(); }
    else if j == 3 { Shaped5(); }
    else if j == 4 { Shaped4(); }
    else if j == 5 { Shaped3(); }
    else if j == 6 { Shaped2(); }
    else if j == 7 { Shaped1(); }
    else if j == 8 { Shaped0(); }
    else if j == 9 { ShapedMinus1(); }
    else { ShapedHidden(); }
  }

  /** Every room of the table has the shape `Shaped` describes. */
  lemma BuildingShapes()
    ensures forall room :: room in BUILDING_LAYOUT ==> Shaped(room)
  {
    forall room | room in BUILDING_LAYOUT
      ensures Shaped(room)
    {
      FlattenMember(FLOOR_BLOCKS, room);
      var j, i :| 0 <= j < |FLOOR_BLOCKS| && 0 <= i < |FLOOR_BLOCKS[j]| && FLOOR_BLOCKS[j][i] == room;
      BlockShaped(j);
    }
  }

  /** The floor blocks are runs of one floor each, and no two blocks share a floor. */
  lemma BlocksStacked()
    ensures Stacked(FLOOR_BLOCKS)
  {
    forall j | 0 <= j < |FLOOR_BLOCKS|
      ensures FLOOR_BLOCKS[j] != [] && OnFloor(FLOOR_BLOCKS[j], FLOOR_BLOCKS[j][0].floor)
    {
      BlockShaped(j);
    }
  }

  /** The rooms the builder filters for each floor are exactly that floor's block. */
  lemma BuildingFloors()
    ensures RoomsOnFloor(BUILDING_LAYOUT, 8) == FLOOR_8
    ensures RoomsOnFloor(BUILDING_LAYOUT, 7) == FLOOR_7
    ensures RoomsOnFloor(BUILDING_LAYOUT, 6) == FLOOR_6
    ensures RoomsOnFloor(BUILDING_LAYOUT, 5) == FLOOR_5
    ensures RoomsOnFloor(BUILDING_LAYOUT, 4) == FLOOR_4
    ensures RoomsOnFloor(BUILDING_LAYOUT, 3) == FLOOR_3
    ensures RoomsOnFloor(BUILDING_LAYOUT, 2) == FLOOR_2
    ensures RoomsOnFloor(BUILDING_LAYOUT, 1) == FLOOR_1
    ensures RoomsOnFloor(BUILDING_LAYOUT, 0) == FLOOR_0
    ensures RoomsOnFloor(BUILDING_LAYOUT, -1) == FLOOR_MINUS_1
    ensures RoomsOnFloor(BUILDING_LAYOUT, 100) == HIDDEN_FLOOR
  {
    BlocksStacked();
    forall j | 0 <= j < |FLOOR_BLOCKS|
      ensures RoomsOnFloor(BUILDING_LAYOUT, FLOOR_BLOCKS[j][0].floor) == FLOOR_BLOCKS[j]
    {
      FlattenFloors(FLOOR_BLOCKS, FLOOR_BLOCKS[j][0].floor);
      BlockOfAt(FLOOR_BLOCKS, j);
    }
    assert FLOOR_BLOCKS[0] == FLOOR_8 && FLOOR_8[0].floor == 8;
    assert FLOOR_BLOCKS[1] == FLOOR_7 && FLOOR_7[0].floor == 7;
    assert FLOOR_BLOCKS[2] == FLOOR_6 && FLOOR_6[0].floor == 6;
    assert FLOOR_BLOCKS[3] == FLOOR_5 && FLOOR_5[0].floor == 5;
    assert FLOOR_BLOCKS[4] == FLOOR_4 && FLOOR_4[0].floor == 4;
    assert FLOOR_BLOCKS[5] == FLOOR_3 && FLOOR_3[0].floor == 3;
    assert FLOOR_BLOCKS[6] == FLOOR_2 && FLOOR_2[0].floor == 2;
    assert FLOOR_BLOCKS[7] == FLOOR_1 && FLOOR_1[0].floor == 1;
    assert FLOOR_BLOCKS[8] == FLOOR_0 && FLOOR_0[0].floor == 0;
    assert FLOOR_BLOCKS[9] == FLOOR_MINUS_1 && FLOOR_MINUS_1[0].floor == -1;
    assert FLOOR_BLOCKS[10] == HIDDEN_FLOOR && HIDDEN_FLOOR[0].floor == 100;
  }

  // ---------------------------------------------------------------------------
  // Room ids are unique

  /** The first two characters of an id: the floor prefix of `8-1`, `-1-3`, `100-1`, ... */
  function Tag(id: string): (char, char) {
    if |id| < 2 then (' ', ' ') else (id[0], id[1])
  }

  /** The tags each floor block's ids carry. */
  const BLOCK_TAGS: seq<set<(char, char)>> := [
    {('8', '-')}, {('7', '-')}, {('6', '-'), ('E', 'L')}, {('5', '-')}, {('4', '-')}, {('3', '-')},
    {('2', '-')}, {('1', '-')}, {('0', '-')}, {('-', '1')}, {('1', '0')}]

  predicate Tagged(rooms: seq<RoomData>, tags: set<(char, char)>) {
    forall i :: 0 <= i < |rooms| ==> Tag(rooms[i].id) in tags
  }

  lemma Unique8() ensures UniqueIds(FLOOR_8) && Tagged(FLOOR_8, BLOCK_TAGS[0]) {}
  lemma Unique7() ensures UniqueIds(FLOOR_7) && Tagged(FLOOR_7, BLOCK_TAGS[1]) {}
  lemma Unique6() ensures UniqueIds(FLOOR_6) && Tagged(FLOOR_6, BLOCK_TAGS[2]) {}
  lemma Unique5() ensures UniqueIds(FLOOR_5) && Tagged(FLOOR_5, BLOCK_TAGS[3]) {}
  lemma Unique4() ensures UniqueIds(FLOOR_4) && Tagged(FLOOR_4, BLOCK_TAGS[4]) {}
  lemma Unique3() ensures UniqueIds(FLOOR_3) && Tagged(FLOOR_3, BLOCK_TAGS[5]) {}
  lemma Unique2() ensures UniqueIds(FLOOR_2) && Tagged(FLOOR_2, BLOCK_TAGS[6]) {}
  lemma Unique1() ensures UniqueIds(FLOOR_1) && Tagged(FLOOR_1, BLOCK_TAGS[7]) {}
  lemma Unique0() ensures UniqueIds(FLOOR_0) && Tagged(FLOOR_0, BLOCK_TAGS[8]) {}
  lemma UniqueMinus1() ensures UniqueIds(FLOOR_MINUS_1) && Tagged(FLOOR_MINUS_1, BLOCK_TAGS[9]) {}
  lemma UniqueHidden() ensures UniqueIds(HIDDEN_FLOOR) && Tagged(HIDDEN_FLOOR, BLOCK_TAGS[10]) {}

  lemma BlockUnique(j: int)
    requires 0 <= j < |FLOOR_BLOCKS|
    ensures UniqueIds(FLOOR_BLOCKS[j]) && j < |BLOCK_TAGS| && Tagged(FLOOR_BLOCKS[j], BLOCK_TAGS[j])
  {
    if j == 0 { Unique8(); }
    else if j == 1 { Unique7(); }
    else if j == 2 { Unique6(); }
    else if j == 3 { Unique5(); }
    else if j == 4 { Unique4(); }
    else if j == 5 { Unique3(); }
    else if j == 6 { Unique2(); }
    else if j == 7 { Unique1(); }
    else if j == 8 { Unique0(); }
    else if j == 9 { UniqueMinus1(); }
    else { UniqueHidden(); }
  }

  lemma TagsDisjoint()
    ensures forall j, k :: 0 <= j < k < |BLOCK_TAGS| ==> BLOCK_TAGS[j] !! BLOCK_TAGS[k]
  {}

  /** No two rooms of the table share an id. */
  lemma BuildingIdsUnique()
    ensures UniqueIds(BUILDING_LAYOUT)
  {
    forall j | 0 <= j < |FLOOR_BLOCKS|
      ensures UniqueIds(FLOOR_BLOCKS[j])
    {
      BlockUnique(j);
    }
    forall j, k, a, b | 0 <= j < k < |FLOOR_BLOCKS| && 0 <= a < |FLOOR_BLOCKS[j]| && 0 <= b < |FLOOR_BLOCKS[k]|
      ensures FLOOR_BLOCKS[j][a].id != FLOOR_BLOCKS[k][b].id
    {
      BlockUnique(j);
      BlockUnique(k);
      TagsDisjoint();
    }
    FlattenUnique(FLOOR_BLOCKS);
  }

  // ---------------------------------------------------------------------------
  // The width of each floor

  lemma Width8() ensures SpanSum(FLOOR_8) == 10 {}
  lemma Width7() ensures SpanSum(FLOOR_7) == 8 {}
  lemma Width6() ensures SpanSum(FLOOR_6) == 10 {}
  lemma Width5() ensures SpanSum(FLOOR_5) == 8 {}
  lemma Width4() ensures SpanSum(FLOOR_4) == 8 {}
  lemma Width3() ensures SpanSum(FLOOR_3) == 8 {}
  lemma Width2() ensures SpanSum(FLOOR_2) == 8 {}
  lemma Width1() ensures SpanSum(FLOOR_1) == 8 {}
  lemma Width0() ensures SpanSum(FLOOR_0) == 10 {}
  lemma WidthMinus1() ensures SpanSum(FLOOR_MINUS_1) == 10 {}

  /** The column spans the builder packs onto each floor add up to the full
      width of 10 only on floors 8, 6, 0 and -1; floors 7 and 5 to 1 pack 8
      columns, so their rows end two columns short of the grid's edge. */
  lemma PackedWidths()
    ensures forall f :: -1 <= f <= 8 ==>
      SpanSum(RoomsOnFloor(BUILDING_LAYOUT, f)) == if f in {8, 6, 0, -1} then GRID_SIZE else GRID_SIZE - 2
  {
    BuildingFloors();
    forall f | -1 <= f <= 8
      ensures SpanSum(RoomsOnFloor(BUILDING_LAYOUT, f)) == if f in {8, 6, 0, -1} then GRID_SIZE else GRID_SIZE - 2
    {
      if f == 8 { Width8(); }
      else if f == 7 { Width7(); }
      else if f == 6 { Width6(); }
      else if f == 5 { Width5(); }
      else if f == 4 { Width4(); }
      else if f == 3 { Width3(); }
      else if f == 2 { Width2(); }
      else if f == 1 { Width1(); }
      else if f == 0 { Width0(); }
      else { WidthMinus1(); }
    }
  }

  /** The rooms of higher floors tall enough to reach down into floor `f`. */
  function HangingInto(rooms: seq<RoomData>, f: int): seq<RoomData> {
    if rooms == [] then []
    else
      var here := if rooms[0].floor > f && rooms[0].floor - RowSpanOf(rooms[0]) < f then [rooms[0]] else [];
      here + HangingInto(rooms[1..], f)
  }

  lemma {:induction false} HangingConcat(a: seq<RoomData>, b: seq<RoomData>, f: int)
    ensures HangingInto(a + b, f) == HangingInto(a, f) + HangingInto(b, f)
    decreases |a|
  {
    if a == [] {
      assert a + b == b;
    } else {
      assert (a + b)[0] == a[0];
      assert (a + b)[1..] == a[1..] + b;
      HangingConcat(a[1..], b, f);
      var head := if a[0].floor > f && a[0].floor - RowSpanOf(a[0]) < f then [a[0]] else [];
      assert head + (HangingInto(a[1..], f) + HangingInto(b, f))
          == (head + HangingInto(a[1..], f)) + HangingInto(b, f);
    }
  }

  lemma {:induction false} HangingNone(rooms: seq<RoomData>, f: int)
    requires SingleStorey(rooms)
    ensures HangingInto(rooms, f) == []
    decreases |rooms|
  {
    if rooms != [] {
      assert forall i :: 0 <= i < |rooms[1..]| ==> rooms[1..][i] == rooms[i + 1];
      HangingNone(rooms[1..], f);
    }
  }

  lemma {:induction false} HangingNoneFlatten(blocks: seq<seq<RoomData>>, f: int)
    requires forall j :: 0 <= j < |blocks| ==> SingleStorey(blocks[j])
    ensures HangingInto(Flatten(blocks), f) == []
    decreases |blocks|
  {
    if blocks != [] {
      assert forall j :: 0 <= j < |blocks[1..]| ==> blocks[1..][j] == blocks[j + 1];
      HangingConcat(blocks[0], Flatten(blocks[1..]), f);
      HangingNone(blocks[0], f);
      HangingNoneFlatten(blocks[1..], f);
    }
  }

  lemma Hanging8(f: int) ensures HangingInto(FLOOR_8, f) == if f == 7 then [FLOOR_8[0]] else [] {
    var rest := FLOOR_8[1..];
    assert SingleStorey(rest);
    assert FLOOR_8 == [FLOOR_8[0]] + rest;
    HangingConcat([FLOOR_8[0]], rest, f);
    HangingNone(rest, f);
  }

  lemma Hanging6(f: int) ensures HangingInto(FLOOR_6, f) == if 1 <= f <= 5 then [FLOOR_6[2]] else [] {
    var front, rest := FLOOR_6[..2], FLOOR_6[3..];
    assert SingleStorey(front) && SingleStorey(rest);
    assert FLOOR_6 == front + ([FLOOR_6[2]] + rest);
    HangingConcat(front, [FLOOR_6[2]] + rest, f);
    HangingConcat([FLOOR_6[2]], rest, f);
    HangingNone(front, f);
    HangingNone(rest, f);
  }

  /** HUTTING hangs into floor 7 and the ELEVATOR into floors 5 to 1; nothing else hangs anywhere. */
  lemma BuildingHanging(f: int)
    ensures HangingInto(BUILDING_LAYOUT, f) ==
      if f == 7 then [FLOOR_8[0]] else if 1 <= f <= 5 then [FLOOR_6[2]] else []
  {
    var b1 := FLOOR_BLOCKS[1..];
    var b2 := b1[1..];
    var lower := b2[1..];
    forall j | 0 <= j < |lower|
      ensures SingleStorey(lower[j])
    {
      assert lower[j] == FLOOR_BLOCKS[j + 3];
      BlockSingleStorey(j + 3);
    }
    HangingNoneFlatten(lower, f);
    assert Flatten(FLOOR_BLOCKS) == FLOOR_8 + Flatten(b1);
    assert Flatten(b1) == FLOOR_7 + Flatten(b2);
    assert Flatten(b2) == FLOOR_6 + Flatten(lower);
    HangingConcat(FLOOR_8, Flatten(b1), f);
    HangingConcat(FLOOR_7, Flatten(b2), f);
    HangingConcat(FLOOR_6, Flatten(lower), f);
    BlockSingleStorey(1);
    HangingNone(FLOOR_7, f);
    Hanging8(f);
    Hanging6(f);
  }

  /** Counting the columns of the taller rooms that reach down from the floors
      above, every floor of the grid is exactly 10 columns wide. */
  lemma FullWidths()
    ensures forall f :: -1 <= f <= 8 ==>
      SpanSum(RoomsOnFloor(BUILDING_LAYOUT, f)) + SpanSum(HangingInto(BUILDING_LAYOUT, f)) == GRID_SIZE
  {
    PackedWidths();
    forall f | -1 <= f <= 8
      ensures SpanSum(RoomsOnFloor(BUILDING_LAYOUT, f)) + SpanSum(HangingInto(BUILDING_LAYOUT, f)) == GRID_SIZE
    {
      BuildingHanging(f);
    }
  }

  // ---------------------------------------------------------------------------
  // Who owns a cell of the builder's map

  /** How many storeys the tallest room of a floor spans. */
  function Height(f: int): int {
    if f == 8 then 2 else if f == 6 then 6 else 1
  }

  lemma TallRooms()
    ensures forall i :: 0 <= i < |FLOOR_8| ==> RowSpanOf(FLOOR_8[i]) <= 2
    ensures forall i :: 0 <= i < |FLOOR_6| ==> RowSpanOf(FLOOR_6[i]) <= 6
  {}

  /** A floor whose rooms do not reach row `r` owns no cell of that row. */
  lemma FloorsMiss(r: int, c: int)
    ensures forall g :: -1 <= g <= 8 && (r < FloorToRow(g) || FloorToRow(g) + Height(g) <= r) ==>
      CoverAt(RoomsOnFloor(BUILDING_LAYOUT, g), FloorToRow(g), 0, r, c) == None
  {
    BuildingFloors();
    TallRooms();
    forall g | -1 <= g <= 8 && (r < FloorToRow(g) || FloorToRow(g) + Height(g) <= r)
      ensures CoverAt(RoomsOnFloor(BUILDING_LAYOUT, g), FloorToRow(g), 0, r, c) == None
    {
      if g == 8 {
        CoverAtRowMiss(FLOOR_8, 0, 0, r, c, 2);
      } else if g == 6 {
        CoverAtRowMiss(FLOOR_6, 2, 0, r, c, 6);
      } else {
        var j := 8 - g;
        assert FLOOR_BLOCKS[j] == RoomsOnFloor(BUILDING_LAYOUT, g);
        BlockSingleStorey(j);
        CoverAtRowMiss(FLOOR_BLOCKS[j], FloorToRow(g), 0, r, c, 1);
      }
    }
  }

  lemma Cover63()
    ensures CoverAt(RoomsOnFloor(BUILDING_LAYOUT, 6), 2, 0, 6, 3) == None
    ensures CoverAt(RoomsOnFloor(BUILDING_LAYOUT, 2), 6, 0, 6, 3) == Some("2-1")
  {
    BuildingFloors();
    assert CoverAt(FLOOR_6, 2, 0, 6, 3) == None;
    assert CoverAt(FLOOR_2, 6, 0, 6, 3) == Some("2-1");
  }

  lemma OwnerAt63() ensures OwnerAt(BUILDING_LAYOUT, FLOORS, 6, 3) == Some("2-1") {
    FloorsMiss(6, 3);
    Cover63();
    OwnerAtSkip(BUILDING_LAYOUT, FLOORS, 6, 3, 6);
  }

  lemma Cover65()
    ensures CoverAt(RoomsOnFloor(BUILDING_LAYOUT, 6), 2, 0, 6, 5) == Some("ELEVATOR")
  {
    BuildingFloors();
    assert CoverAt(FLOOR_6, 2, 0, 6, 5) == Some("ELEVATOR");
  }

  lemma OwnerAt65() ensures OwnerAt(BUILDING_LAYOUT, FLOORS, 6, 5) == Some("ELEVATOR") {
    FloorsMiss(6, 5);
    Cover65();
    OwnerAtSkip(BUILDING_LAYOUT, FLOORS, 6, 5, 2);
  }

  lemma Cover72()
    ensures CoverAt(RoomsOnFloor(BUILDING_LAYOUT, 6), 2, 0, 7, 2) == None
    ensures CoverAt(RoomsOnFloor(BUILDING_LAYOUT, 1), 7, 0, 7, 2) == Some("1-1")
  {
    BuildingFloors();
    assert CoverAt(FLOOR_6, 2, 0, 7, 2) == None;
    assert CoverAt(FLOOR_1, 7, 0, 7, 2) == Some("1-1");
  }

  lemma OwnerAt72() ensures OwnerAt(BUILDING_LAYOUT, FLOORS, 7, 2) == Some("1-1") {
    FloorsMiss(7, 2);
    Cover72();
    OwnerAtSkip(BUILDING_LAYOUT, FLOORS, 7, 2, 7);
  }

  lemma Cover76()
    ensures CoverAt(RoomsOnFloor(BUILDING_LAYOUT, 6), 2, 0, 7, 6) == Some("ELEVATOR")
  {
    BuildingFloors();
    assert CoverAt(FLOOR_6, 2, 0, 7, 6) == Some("ELEVATOR");
  }

  lemma OwnerAt76() ensures OwnerAt(BUILDING_LAYOUT, FLOORS, 7, 6) == Some("ELEVATOR") {
    FloorsMiss(7, 6);
    Cover76();
    OwnerAtSkip(BUILDING_LAYOUT, FLOORS, 7, 6, 2);
  }

  lemma Cover92()
    ensures CoverAt(RoomsOnFloor(BUILDING_LAYOUT, -1), 9, 0, 9, 2) == Some("-1-3")
  {
    BuildingFloors();
    assert CoverAt(FLOOR_MINUS_1, 9, 0, 9, 2) == Some("-1-3");
  }

  lemma OwnerAt92() ensures OwnerAt(BUILDING_LAYOUT, FLOORS, 9, 2) == Some("-1-3") {
    FloorsMiss(9, 2);
    Cover92();
    OwnerAtSkip(BUILDING_LAYOUT, FLOORS, 9, 2, 9);
  }

  lemma Cover96()
    ensures CoverAt(RoomsOnFloor(BUILDING_LAYOUT, -1), 9, 0, 9, 6) == Some("-1-5")
  {
    BuildingFloors();
    assert CoverAt(FLOOR_MINUS_1, 9, 0, 9, 6) == Some("-1-5");
  }

  lemma OwnerAt96() ensures OwnerAt(BUILDING_LAYOUT, FLOORS, 9, 6) == Some("-1-5") {
    FloorsMiss(9, 6);
    Cover96();
    OwnerAtSkip(BUILDING_LAYOUT, FLOORS, 9, 6, 9);
  }

  /** `findRoomAt` on the cells a knight's move from LOGE lands on. ELEVATOR, registered
      with floor 6, wins the cells it shares with `2-2` and `1-2` further down. */
  lemma LogeLandings()
    ensures RoomAt(Placement(BUILDING_LAYOUT), 6, 3) == Some("2-1")
    ensures RoomAt(Placement(BUILDING_LAYOUT), 6, 5) == Some("ELEVATOR")
    ensures RoomAt(Placement(BUILDING_LAYOUT), 7, 2) == Some("1-1")
    ensures RoomAt(Placement(BUILDING_LAYOUT), 7, 6) == Some("ELEVATOR")
    ensures RoomAt(Placement(BUILDING_LAYOUT), 9, 2) == Some("-1-3")
    ensures RoomAt(Placement(BUILDING_LAYOUT), 9, 6) == Some("-1-5")
  {
    BuildingIdsUnique();
    PlacementRoomAt(BUILDING_LAYOUT, 6, 3);
    PlacementRoomAt(BUILDING_LAYOUT, 6, 5);
    PlacementRoomAt(BUILDING_LAYOUT, 7, 2);
    PlacementRoomAt(BUILDING_LAYOUT, 7, 6);
    PlacementRoomAt(BUILDING_LAYOUT, 9, 2);
    PlacementRoomAt(BUILDING_LAYOUT, 9, 6);
    OwnerAt63();
    OwnerAt65();
    OwnerAt72();
    OwnerAt76();
    OwnerAt92();
    OwnerAt96();
  }

  // ---------------------------------------------------------------------------
  // LOGE, the room the game starts in

  lemma SpanBeforeLoge() ensures SpanSum(FLOOR_0[..3]) == 4 {
    var a := FLOOR_0[..3];
    assert ColSpanOf(FLOOR_0[0]) == 1 && ColSpanOf(FLOOR_0[1]) == 1 && ColSpanOf(FLOOR_0[2]) == 2;
    assert a[0] == FLOOR_0[0];
    assert a[1..][0] == FLOOR_0[1];
    assert a[1..][1..] == [FLOOR_0[2]];
    assert SpanSum([FLOOR_0[2]]) == 2;
  }

  lemma LogeOnFloor0() ensures FloorCells(FLOOR_0, "0-4", 8, 0) == [Cell(8, 4)] {
    var a, loge, b := FLOOR_0[..3], FLOOR_0[3], FLOOR_0[4..];
    assert FLOOR_0 == a + [loge] + b;
    SpanBeforeLoge();
    Unique0();
    FloorCellsOfUnique(a, loge, b, 8);
    assert RoomCells(8, 1, 4, 1) == [Cell(8, 4)];
  }

  /** LOGE (`0-4`) occupies the single cell (8, 4): the fifth column of the ground floor's row. */
  lemma LogeCells()
    ensures Lookup(Placement(BUILDING_LAYOUT), "0-4") == Some([Cell(8, 4)])
  {
    var loge := FLOOR_0[3];
    assert FLOOR_BLOCKS[8][3] == loge;
    FlattenMember(FLOOR_BLOCKS, loge);
    BuildingIdsUnique();
    forall room | room in BUILDING_LAYOUT && room.id == "0-4"
      ensures room.floor == 0
    {
      SameIdSameRoom(BUILDING_LAYOUT, room, loge);
    }
    FloorsCoverRows();
    assert loge.floor in FLOORS;
    LayoutCellsOneFloor(BUILDING_LAYOUT, FLOORS, "0-4", 0);
    PlacementLookup(BUILDING_LAYOUT, "0-4");
    BuildingFloors();
    LogeOnFloor0();
  }

  /** What each knight offset from (8, 4) yields on a map that resolves the landing
      cells as the building's map does: the last two leave the grid. */
  lemma HopsFromLoge(m: GridMap)
    requires RoomAt(m, 6, 3) == Some("2-1") && RoomAt(m, 6, 5) == Some("ELEVATOR")
    requires RoomAt(m, 7, 2) == Some("1-1") && RoomAt(m, 7, 6) == Some("ELEVATOR")
    requires RoomAt(m, 9, 2) == Some("-1-3") && RoomAt(m, 9, 6) == Some("-1-5")
    ensures Hop(m, "0-4", Cell(8, 4), KNIGHT_MOVES[0]) == Some("2-1")
    ensures Hop(m, "0-4", Cell(8, 4), KNIGHT_MOVES[1]) == Some("ELEVATOR")
    ensures Hop(m, "0-4", Cell(8, 4), KNIGHT_MOVES[2]) == Some("1-1")
    ensures Hop(m, "0-4", Cell(8, 4), KNIGHT_MOVES[3]) == Some("ELEVATOR")
    ensures Hop(m, "0-4", Cell(8, 4), KNIGHT_MOVES[4]) == Some("-1-3")
    ensures Hop(m, "0-4", Cell(8, 4), KNIGHT_MOVES[5]) == Some("-1-5")
    ensures Hop(m, "0-4", Cell(8, 4), KNIGHT_MOVES[6]) == None
    ensures Hop(m, "0-4", Cell(8, 4), KNIGHT_MOVES[7]) == None
  {
    var src := "0-4";
    assert "2-1"[0] != src[0] && "1-1"[0] != src[0];
    assert "-1-3"[0] != src[0] && "-1-5"[0] != src[0] && "ELEVATOR"[0] != src[0];
  }

  /** The insertion-ordered target set as those hops arrive: the second ELEVATOR is
      already there. */
  lemma LogeTargetsGrow()
    ensures AddTarget([], Some("2-1")) == ["2-1"]
    ensures AddTarget(["2-1"], Some("ELEVATOR")) == ["2-1", "ELEVATOR"]
    ensures AddTarget(["2-1", "ELEVATOR"], Some("1-1")) == ["2-1", "ELEVATOR", "1-1"]
    ensures AddTarget(["2-1", "ELEVATOR", "1-1"], Some("ELEVATOR")) == ["2-1", "ELEVATOR", "1-1"]
    ensures AddTarget(["2-1", "ELEVATOR", "1-1"], Some("-1-3")) == ["2-1", "ELEVATOR", "1-1", "-1-3"]
    ensures AddTarget(["2-1", "ELEVATOR", "1-1", "-1-3"], Some("-1-5")) == ["2-1", "ELEVATOR", "1-1", "-1-3", "-1-5"]
  {
    var t1 := ["2-1"];
    var t2 := t1 + ["ELEVATOR"];
    var t3 := t2 + ["1-1"];
    var t4 := t3 + ["-1-3"];
    assert "ELEVATOR" !in t1 by { assert "ELEVATOR"[0] != "2-1"[0]; }
    assert "ELEVATOR" in t3;
    assert "1-1" !in t2 by { assert "1-1"[0] != "2-1"[0] && "1-1"[0] != "ELEVATOR"[0]; }
    assert "-1-3" !in t3 by { assert "-1-3"[0] != "2-1"[0] && "-1-3"[0] != "ELEVATOR"[0] && "-1-3"[0] != "1-1"[0]; }
    assert "-1-5" !in t4 by {
      assert "-1-5"[0] != "2-1"[0] && "-1-5"[0] != "ELEVATOR"[0] && "-1-5"[0] != "1-1"[0] && "-1-5"[3] != "-1-3"[3];
    }
  }

  /** The knight's moves from a room on the single cell (8, 4) of any map that
      resolves the landing cells the way the building's map does. */
  lemma MovesFromLoge(m: GridMap)
    requires Lookup(m, "0-4") == Some([Cell(8, 4)])
    requires RoomAt(m, 6, 3) == Some("2-1") && RoomAt(m, 6, 5) == Some("ELEVATOR")
    requires RoomAt(m, 7, 2) == Some("1-1") && RoomAt(m, 7, 6) == Some("ELEVATOR")
    requires RoomAt(m, 9, 2) == Some("-1-3") && RoomAt(m, 9, 6) == Some("-1-5")
    ensures KnightMoves(m, "0-4") == ["2-1", "ELEVATOR", "1-1", "-1-3", "-1-5"]
  {
    var src, c, ms := "0-4", Cell(8, 4), KNIGHT_MOVES;
    HopsFromLoge(m);
    LogeTargetsGrow();
    var t1 := ["2-1"];
    var t2 := t1 + ["ELEVATOR"];
    var t3 := t2 + ["1-1"];
    var t4 := t3 + ["-1-3"];
    var t5 := t4 + ["-1-5"];
    assert AddHops(t5, m, src, c, ms[7..]) == t5;
    assert AddHops(t5, m, src, c, ms[6..]) == t5;
    assert AddHops(t4, m, src, c, ms[5..]) == t5;
    assert AddHops(t3, m, src, c, ms[4..]) == t5;
    assert AddHops(t3, m, src, c, ms[3..]) == t5;
    assert AddHops(t2, m, src, c, ms[2..]) == t5;
    assert AddHops(t1, m, src, c, ms[1..]) == t5;
    assert AddCellHops([], m, src, [c], ms) == t5;
  }

  /** `getValidKnightMoves` from LOGE, in the order the offsets find them. The two
      moves that would leave the bottom row of the grid are dropped, and ELEVATOR,
      reached twice, is listed once. */
  lemma LogeMoves()
    ensures KnightMoves(Placement(BUILDING_LAYOUT), "0-4") == ["2-1", "ELEVATOR", "1-1", "-1-3", "-1-5"]
  {
    LogeCells();
    LogeLandings();
    MovesFromLoge(Placement(BUILDING_LAYOUT));
  }

  // ---------------------------------------------------------------------------
  // GRATIOLET (`7-1`), hidden under HUTTING (`8-1`)

  /** The builder registers HUTTING first, then, after the rest of floor 8, GRATIOLET
      on the second row of HUTTING's two. */
  lemma TopFloors()
    ensures RoomsOnFloor(BUILDING_LAYOUT, 8) == FLOOR_8 && RoomsOnFloor(BUILDING_LAYOUT, 7) == FLOOR_7
  {
    BuildingFloors();
  }

  lemma GratioletEntries()
    ensures 0 < |FLOOR_8| < |LayoutEntries(BUILDING_LAYOUT, FLOORS)|
    ensures LayoutEntries(BUILDING_LAYOUT, FLOORS)[0] == ("8-1", RoomCells(0, 2, 0, 2))
    ensures LayoutEntries(BUILDING_LAYOUT, FLOORS)[|FLOOR_8|] == ("7-1", RoomCells(1, 1, 0, 2))
    ensures Placement(BUILDING_LAYOUT) == LayoutEntries(BUILDING_LAYOUT, FLOORS)
  {
    BuildingIdsUnique();
    PlacementFresh(BUILDING_LAYOUT);
    TopFloors();
    TopEntries(BUILDING_LAYOUT, FLOOR_8, FLOOR_7);
    assert FLOOR_8[0].id == "8-1" && RowSpanOf(FLOOR_8[0]) == 2 && ColSpanOf(FLOOR_8[0]) == 2;
    assert FLOOR_7[0].id == "7-1" && RowSpanOf(FLOOR_7[0]) == 1 && ColSpanOf(FLOOR_7[0]) == 2;
  }

  /** The builder's first entry is the top floor's first room at (0, 0); the entry
      right after the top floor's rooms is floor 7's first room at (1, 0). */
  lemma TopEntries(layout: seq<RoomData>, top: seq<RoomData>, next: seq<RoomData>)
    requires RoomsOnFloor(layout, 8) == top && RoomsOnFloor(layout, 7) == next
    requires top != [] && next != []
    ensures |top| < |LayoutEntries(layout, FLOORS)|
    ensures LayoutEntries(layout, FLOORS)[0] == (top[0].id, RoomCells(0, RowSpanOf(top[0]), 0, ColSpanOf(top[0])))
    ensures LayoutEntries(layout, FLOORS)[|top|] == (next[0].id, RoomCells(1, RowSpanOf(next[0]), 0, ColSpanOf(next[0])))
  {
    var e8 := FloorEntries(top, 0, 0);
    var e7 := FloorEntries(next, 1, 0);
    var floors := FLOORS;
    assert floors[0] == 8 && floors[1..][0] == 7;
    var lower := LayoutEntries(layout, floors[1..][1..]);
    assert LayoutEntries(layout, floors[1..]) == e7 + lower;
    assert LayoutEntries(layout, floors) == e8 + (e7 + lower);
  }

  /** GRATIOLET's cells all belong to HUTTING, which is registered first: no cell
      resolves to GRATIOLET and no knight's move reaches it. */
  lemma GratioletHidden()
    ensures forall row, col :: RoomAt(Placement(BUILDING_LAYOUT), row, col) != Some("7-1")
    ensures forall source :: "7-1" !in KnightMoves(Placement(BUILDING_LAYOUT), source)
  {
    BuildingIdsUnique();
    PlacementFresh(BUILDING_LAYOUT);
    PlacementKeysDistinct(BUILDING_LAYOUT);
    GratioletEntries();
    RoomCellsExactly(0, 2, 0, 2);
    RoomCellsExactly(1, 1, 0, 2);
    var m := Placement(BUILDING_LAYOUT);
    forall row, col ensures RoomAt(m, row, col) != Some("7-1") {
      RoomAtShadowed(m, 0, |FLOOR_8|, row, col);
    }
    NeverFoundNeverReached(m, "7-1");
  }

  // ---------------------------------------------------------------------------
  // The hidden floor

  /** `100-1`, the only room of floor 100, is on no floor the builder walks: it gets
      no entry in the map and no knight's moves. */
  lemma HiddenRoomUnplaced()
    ensures Lookup(Placement(BUILDING_LAYOUT), "100-1") == None
    ensures KnightMoves(Placement(BUILDING_LAYOUT), "100-1") == []
  {
    var hidden := HIDDEN_FLOOR[0];
    assert FLOOR_BLOCKS[10][0] == hidden;
    FlattenMember(FLOOR_BLOCKS, hidden);
    BuildingIdsUnique();
    FloorsCoverRows();
    forall room | room in BUILDING_LAYOUT && room.id == "100-1"
      ensures room.floor !in FLOORS
    {
      SameIdSameRoom(BUILDING_LAYOUT, room, hidden);
    }
    PlacementLookup(BUILDING_LAYOUT, "100-1");
    KnightMovesOfUnplaced(BUILDING_LAYOUT, "100-1");
  }

  // ---------------------------------------------------------------------------
  // Cells nobody owns

  /** Floors 7 and 5 to 1 pack only eight columns: columns 8 and 9 of their row
      belong to none of their rooms. */
  lemma NarrowFloorEnd(g: int, row: int, c: int)
    requires 1 <= g <= 7 && g != 6 && 8 <= c
    ensures CoverAt(RoomsOnFloor(BUILDING_LAYOUT, g), FloorToRow(g), 0, row, c) == None
  {
    var j := 8 - g;
    NarrowBlock(j);
    PackedWidths();
    ShapedPastEnd(FLOOR_BLOCKS[j], FloorToRow(g), row, c);
  }

  lemma NarrowBlock(j: int)
    requires 1 <= j <= 7 && j != 2
    ensures AllShaped(FLOOR_BLOCKS[j]) && FLOOR_BLOCKS[j] == RoomsOnFloor(BUILDING_LAYOUT, 8 - j)
  {
    BlockShaped(j);
    BuildingFloors();
  }

  /** Past the packed width of well-shaped rooms, none of them covers a cell. */
  lemma ShapedPastEnd(rooms: seq<RoomData>, rowStart: int, row: int, c: int)
    requires AllShaped(rooms) && SpanSum(rooms) <= c
    ensures CoverAt(rooms, rowStart, 0, row, c) == None
  {
    CoverAtPastEnd(rooms, rowStart, 0, row, c);
  }

  /** HUTTING reaches row 1 only in columns 0 and 1. */
  lemma TopFloorRow1(c: int)
    requires 8 <= c
    ensures CoverAt(RoomsOnFloor(BUILDING_LAYOUT, 8), 0, 0, 1, c) == None
  {
    TopFloors();
    assert CoverAt(FLOOR_8, 0, 0, 1, c) == None;
  }

  /** Below row 2, only ELEVATOR (columns 5 and 6) reaches down from floor 6. */
  lemma ElevatorFloorBelow(r: int, c: int)
    requires 3 <= r <= 7 && 8 <= c
    ensures CoverAt(RoomsOnFloor(BUILDING_LAYOUT, 6), 2, 0, r, c) == None
  {
    BuildingFloors();
    assert CoverAt(FLOOR_6, 2, 0, r, c) == None;
  }

  lemma UnownedFloors(r: int, c: int)
    requires (r == 1 || 3 <= r <= 7) && 8 <= c <= 9
    ensures forall g :: -1 <= g <= 8 ==> CoverAt(RoomsOnFloor(BUILDING_LAYOUT, g), FloorToRow(g), 0, r, c) == None
  {
    FloorsMiss(r, c);
    forall g | -1 <= g <= 8
      ensures CoverAt(RoomsOnFloor(BUILDING_LAYOUT, g), FloorToRow(g), 0, r, c) == None
    {
      if FloorToRow(g) == r {
        NarrowFloorEnd(g, r, c);
      } else if g == 8 && r == 1 {
        TopFloorRow1(c);
      } else if g == 6 && 3 <= r {
        ElevatorFloorBelow(r, c);
      }
    }
  }

  /** Columns 8 and 9 of rows 1 and 3 to 7 resolve to no room: the builder packs the
      eight columns of those floors from the left and ignores HUTTING and ELEVATOR
      hanging down into them. */
  lemma UnownedCells(r: int, c: int)
    requires (r == 1 || 3 <= r <= 7) && 8 <= c <= 9
    ensures RoomAt(Placement(BUILDING_LAYOUT), r, c) == None
  {
    UnownedFloors(r, c);
    FloorsCoverRows();
    OwnerAtSkip(BUILDING_LAYOUT, FLOORS, r, c, 10);
    BuildingIdsUnique();
    PlacementRoomAt(BUILDING_LAYOUT, r, c);
  }

  // ---------------------------------------------------------------------------
  // Every cell inside the grid

  /** Each walked floor fits: HUTTING reaches row 1, ELEVATOR row 7, and no floor packs
      more than ten columns. */
  lemma FloorFitsAt(g: int)
    requires -1 <= g <= 8
    ensures FloorFits(RoomsOnFloor(BUILDING_LAYOUT, g), FloorToRow(g))
  {
    BlockOnFloor(8 - g);
    BlockFits(8 - g);
  }

  lemma Fits8() ensures FloorFits(FLOOR_BLOCKS[0], 0) { Shaped8(); TallRooms(); Width8(); FitsWithin(FLOOR_8, 0, 2); }
  lemma Fits7() ensures FloorFits(FLOOR_BLOCKS[1], 1) { Fits7Floor(); }
  lemma Fits7Floor() ensures FloorFits(FLOOR_7, 1) { Shaped7(); Width7(); FitsOneStorey(FLOOR_7, 1); }
  lemma Fits6() ensures FloorFits(FLOOR_BLOCKS[2], 2) { Shaped6(); TallRooms(); Width6(); FitsWithin(FLOOR_6, 2, 6); }
  lemma Fits5() ensures FloorFits(FLOOR_BLOCKS[3], 3) { Shaped5(); Width5(); FitsOneStorey(FLOOR_5, 3); }
  lemma Fits4() ensures FloorFits(FLOOR_BLOCKS[4], 4) { Shaped4(); Width4(); FitsOneStorey(FLOOR_4, 4); }
  lemma Fits3() ensures FloorFits(FLOOR_BLOCKS[5], 5) { Shaped3(); Width3(); FitsOneStorey(FLOOR_3, 5); }
  lemma Fits2() ensures FloorFits(FLOOR_BLOCKS[6], 6) { Shaped2(); Width2(); FitsOneStorey(FLOOR_2, 6); }
  lemma Fits1() ensures FloorFits(FLOOR_BLOCKS[7], 7) { Shaped1(); Width1(); FitsOneStorey(FLOOR_1, 7); }
  lemma Fits0() ensures FloorFits(FLOOR_BLOCKS[8], 8) { Shaped0(); Width0(); FitsOneStorey(FLOOR_0, 8); }
  lemma FitsMinus1() ensures FloorFits(FLOOR_BLOCKS[9], 9) { ShapedMinus1(); WidthMinus1(); FitsOneStorey(FLOOR_MINUS_1, 9); }

  lemma BlockFits(j: int)
    requires 0 <= j <= 9
    ensures FloorFits(FLOOR_BLOCKS[j], j)
  {
    if j == 0 { Fits8(); }
    else if j == 1 { Fits7(); }
    else if j == 2 { Fits6(); }
    else if j == 3 { Fits5(); }
    else if j == 4 { Fits4(); }
    else if j == 5 { Fits3(); }
    else if j == 6 { Fits2(); }
    else if j == 7 { Fits1(); }
    else if j == 8 { Fits0(); }
    else { FitsMinus1(); }
  }

  lemma BlockOnFloor(j: int)
    requires 0 <= j <= 9
    ensures FLOOR_BLOCKS[j] == RoomsOnFloor(BUILDING_LAYOUT, 8 - j)
  {
    BuildingFloors();
  }

  lemma FitsOneStorey(rooms: seq<RoomData>, rowStart: int)
    requires AllShaped(rooms) && SingleStorey(rooms) && SpanSum(rooms) <= GRID_SIZE
    requires 0 <= rowStart < GRID_SIZE
    ensures FloorFits(rooms, rowStart)
  {
  }

  lemma FitsWithin(rooms: seq<RoomData>, rowStart: int, height: int)
    requires AllShaped(rooms) && SpanSum(rooms) <= GRID_SIZE
    requires 0 <= rowStart && rowStart + height <= GRID_SIZE
    requires forall i :: 0 <= i < |rooms| ==> RowSpanOf(rooms[i]) <= height
    ensures FloorFits(rooms, rowStart)
  {
  }

  /** Every cell the builder registers for the building lies inside the 10 x 10 grid. */
  lemma BuildingInGrid()
    ensures CellsInGrid(Placement(BUILDING_LAYOUT))
  {
    FloorsCoverRows();
    forall i | 0 <= i < |FLOORS|
      ensures FloorFits(RoomsOnFloor(BUILDING_LAYOUT, FLOORS[i]), FloorToRow(FLOORS[i]))
    {
      FloorFitsAt(FLOORS[i]);
    }
    BuildingIdsUnique();
    PlacementInGrid(BUILDING_LAYOUT);
  }
}
