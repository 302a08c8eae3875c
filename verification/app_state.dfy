/** The player-state updaters of the game's main screen: collecting an inventory item,
    caching a room's generated narrative, flagging a knight's move when a room is
    selected, and the window of recent rooms fed back as narrative context. Each is a
    pure `prev => next` rule; the hooks that apply them are not modelled. */
module AppState {
  import opened Wrappers
  import opened Layout
  import opened GridLogic
  import Building

  // ---------------------------------------------------------------------------
  // The records the screen keeps

  datatype ItemKind = Regular | PuzzlePiece

  /** An inventory item; its kind may be absent. */
  datatype InventoryItem = InventoryItem(id: string, name: string, description: string, kind: Option<ItemKind>)

  datatype InteractionKind = Dialogue | Action

  datatype Interaction = Interaction(buttonText: string, response: string, kind: Option<InteractionKind>)

  /** What the narrator returns for a room. */
  datatype NarrativeResponse = NarrativeResponse(
    text: string,
    items: seq<string>,
    mood: string,
    puzzleHint: Option<string>,
    collectibleItem: Option<InventoryItem>,
    availableInteractions: Option<seq<Interaction>>)

  datatype Character = Character(name: string, role: string, secret: string)

  datatype StoryBible = StoryBible(
    title: string,
    themes: seq<string>,
    keyCharacters: seq<Character>,
    plotThreads: seq<string>,
    mystery: string)

  /** A `Record<string, NarrativeResponse>`: its entries in key insertion order. */
  type Visits = seq<(string, NarrativeResponse)>

  datatype PlayerState = PlayerState(
    visitedRooms: Visits,
    storyBible: Option<StoryBible>,
    inventory: seq<InventoryItem>,
    puzzlePiecesCollected: int,
    lastMoveWasKnightMove: bool)

  /** The state of a new game: nothing visited, no story bible yet, an empty inventory. */
  const INITIAL_STATE: PlayerState := PlayerState([], None, [], 0, false)

  // ---------------------------------------------------------------------------
  // Visited rooms: an insertion-ordered record

  /** `{ ...v, [id]: content }`: a key already present keeps its place and takes the new
      value; a new key goes last. */
  function Record(v: Visits, id: string, content: NarrativeResponse): Visits {
    if v == [] then [(id, content)]
    else if v[0].0 == id then [(id, content)] + v[1..]
    else [v[0]] + Record(v[1..], id, content)
  }

  /** Reading the record after writing `id` gives the new content for `id` and the old
      value for every other key. */
  lemma {:induction false} RecordLookup(v: Visits, id: string, content: NarrativeResponse, k: string)
    ensures Lookup(Record(v, id, content), k) == if k == id then Some(content) else Lookup(v, k)
    decreases |v|
  {
    if v != [] && v[0].0 != id {
      RecordLookup(v[1..], id, content, k);
      assert Record(v, id, content)[1..] == Record(v[1..], id, content);
    }
  }

  /** Writing a key that is present leaves the key order as it was; a new key is appended. */
  lemma {:induction false} RecordIds(v: Visits, id: string, content: NarrativeResponse)
    ensures Keys(Record(v, id, content)) ==
      if id in Keys(v) then Keys(v) else Keys(v) + [id]
    decreases |v|
  {
    if v != [] {
      assert Keys(v) == [v[0].0] + Keys(v[1..]);
      if v[0].0 != id {
        RecordIds(v[1..], id, content);
        assert Record(v, id, content) == [v[0]] + Record(v[1..], id, content);
        assert Keys(Record(v, id, content)) == [v[0].0] + Keys(Record(v[1..], id, content));
        assert id in Keys(v) <==> id in Keys(v[1..]);
      } else {
        assert Record(v, id, content)[1..] == v[1..];
      }
    }
  }

  /** Writing a key keeps the keys distinct. */
  lemma RecordDistinct(v: Visits, id: string, content: NarrativeResponse)
    requires Distinct(Keys(v))
    ensures Distinct(Keys(Record(v, id, content)))
  {
    RecordIds(v, id, content);
    var ids := Keys(v);
    if id !in ids {
      forall i, j | 0 <= i < j < |ids + [id]|
        ensures (ids + [id])[i] != (ids + [id])[j]
      {
        if j == |ids| {
          assert (ids + [id])[i] == ids[i];
        } else {
          assert (ids + [id])[i] == ids[i] && (ids + [id])[j] == ids[j];
        }
      }
    }
  }

  // ---------------------------------------------------------------------------
  // handleContentGenerated

  /** The narrative generated for `roomId` is cached under that id; every other room's
      entry, and every other field, is left as it was. */
  function ContentGenerated(s: PlayerState, roomId: string, content: NarrativeResponse): (t: PlayerState)
    ensures Lookup(t.visitedRooms, roomId) == Some(content)
    ensures forall k :: k != roomId ==> Lookup(t.visitedRooms, k) == Lookup(s.visitedRooms, k)
    ensures Keys(t.visitedRooms) ==
      if roomId in Keys(s.visitedRooms) then Keys(s.visitedRooms) else Keys(s.visitedRooms) + [roomId]
    ensures t.storyBible == s.storyBible && t.inventory == s.inventory
    ensures t.puzzlePiecesCollected == s.puzzlePiecesCollected && t.lastMoveWasKnightMove == s.lastMoveWasKnightMove
  {
    RecordLookupAll(s.visitedRooms, roomId, content);
    RecordIds(s.visitedRooms, roomId, content);
    s.(visitedRooms := Record(s.visitedRooms, roomId, content))
  }

  lemma RecordLookupAll(v: Visits, id: string, content: NarrativeResponse)
    ensures forall k :: Lookup(Record(v, id, content), k) == if k == id then Some(content) else Lookup(v, k)
  {
    forall k ensures Lookup(Record(v, id, content), k) == if k == id then Some(content) else Lookup(v, k) {
      RecordLookup(v, id, content, k);
    }
  }

  // ---------------------------------------------------------------------------
  // handleCollectItem

  /** `inventory.some(i => i.id === id)`. */
  predicate Holds(inventory: seq<InventoryItem>, id: string) {
    exists i :: 0 <= i < |inventory| && inventory[i].id == id
  }

  /** The number of puzzle pieces in an inventory. */
  function PieceCount(inventory: seq<InventoryItem>): nat {
    if inventory == [] then 0
    else (if inventory[0].kind == Some(PuzzlePiece) then 1 else 0) + PieceCount(inventory[1..])
  }

  /** Collecting an item already held (by id) changes nothing. Otherwise the item goes at
      the end of the inventory and the puzzle count rises by one exactly when the item is
      a puzzle piece. Visited rooms, the story bible and the knight's-move flag never change. */
  function CollectItem(s: PlayerState, item: InventoryItem): (t: PlayerState)
    ensures Holds(s.inventory, item.id) ==> t == s
    ensures !Holds(s.inventory, item.id) ==> t.inventory == s.inventory + [item]
    ensures !Holds(s.inventory, item.id) ==>
      t.puzzlePiecesCollected == s.puzzlePiecesCollected + (if item.kind == Some(PuzzlePiece) then 1 else 0)
    ensures t.visitedRooms == s.visitedRooms && t.storyBible == s.storyBible
    ensures t.lastMoveWasKnightMove == s.lastMoveWasKnightMove
    ensures Holds(t.inventory, item.id)
  {
    if Holds(s.inventory, item.id) then s
    else
      var isPuzzlePiece := item.kind == Some(PuzzlePiece);
      var newPuzzleCount := if isPuzzlePiece then s.puzzlePiecesCollected + 1 else s.puzzlePiecesCollected;
      assert (s.inventory + [item])[|s.inventory|] == item;
      s.(inventory := s.inventory + [item], puzzlePiecesCollected := newPuzzleCount)
  }

  /** Collecting the same item twice is the same as collecting it once. */
  lemma CollectIdempotent(s: PlayerState, item: InventoryItem)
    ensures CollectItem(CollectItem(s, item), item) == CollectItem(s, item)
  {
  }

  lemma {:induction false} PieceCountAppend(inventory: seq<InventoryItem>, item: InventoryItem)
    ensures PieceCount(inventory + [item]) == PieceCount(inventory) + (if item.kind == Some(PuzzlePiece) then 1 else 0)
    decreases |inventory|
  {
    if inventory != [] {
      assert (inventory + [item])[1..] == inventory[1..] + [item];
      PieceCountAppend(inventory[1..], item);
    } else {
      assert [] + [item] == [item];
    }
  }

  /** No two inventory items share an id, and the puzzle count is the number of puzzle
      pieces held. */
  ghost predicate Consistent(s: PlayerState) {
    (forall i, j :: 0 <= i < j < |s.inventory| ==> s.inventory[i].id != s.inventory[j].id) &&
    s.puzzlePiecesCollected == PieceCount(s.inventory)
  }

  lemma CollectKeepsConsistent(s: PlayerState, item: InventoryItem)
    requires Consistent(s)
    ensures Consistent(CollectItem(s, item))
  {
    if !Holds(s.inventory, item.id) {
      PieceCountAppend(s.inventory, item);
      var inv := s.inventory + [item];
      forall i, j | 0 <= i < j < |inv|
        ensures inv[i].id != inv[j].id
      {
        assert inv[i] == s.inventory[i];
        if j < |s.inventory| {
          assert inv[j] == s.inventory[j];
        }
      }
    }
  }

  // ---------------------------------------------------------------------------
  // handleRoomSelect and validKnightMoves

  /** The main screen's state: the player state it saves and the room currently selected. */
  datatype Session = Session(game: PlayerState, selectedRoom: Option<RoomData>)

  const INITIAL_SESSION: Session := Session(INITIAL_STATE, None)

  /** `validKnightMoves`: the knight's moves from the selected room on the module's map,
      or none when no room is selected. */
  function ValidKnightMoves(selected: Option<RoomData>): seq<string> {
    match selected
    case None => []
    case Some(room) => KnightMoves(ROOM_GRID_MAP, room.id)
  }

  /** Selecting `room` records whether it is a knight's move away from the room selected
      before (never, when none was), and makes it the selected room. */
  function SelectRoom(session: Session, room: RoomData): (next: Session)
    ensures next.selectedRoom == Some(room)
    ensures session.selectedRoom.None? ==> !next.game.lastMoveWasKnightMove
    ensures session.selectedRoom.Some? ==>
      (next.game.lastMoveWasKnightMove <==> room.id in KnightMoves(ROOM_GRID_MAP, session.selectedRoom.value.id))
    ensures next.game.visitedRooms == session.game.visitedRooms && next.game.storyBible == session.game.storyBible
    ensures next.game.inventory == session.game.inventory
    ensures next.game.puzzlePiecesCollected == session.game.puzzlePiecesCollected
  {
    var isKnightMove := if session.selectedRoom.Some? then room.id in ValidKnightMoves(session.selectedRoom) else false;
    Session(session.game.(lastMoveWasKnightMove := isKnightMove), Some(room))
  }

  /** The flag means what a knight's move is: from some cell of the previous room, one
      knight offset lands inside the grid on a cell that resolves to the new room. */
  lemma KnightFlagMeaning(session: Session, room: RoomData)
    requires session.selectedRoom.Some?
    ensures SelectRoom(session, room).game.lastMoveWasKnightMove <==>
      KnightReachable(ROOM_GRID_MAP, session.selectedRoom.value.id, room.id)
  {
    KnightMovesMeaning(ROOM_GRID_MAP, session.selectedRoom.value.id, room.id);
  }

  /** Re-selecting the selected room is never a knight's move. */
  lemma ReselectNotKnightMove(session: Session, room: RoomData)
    requires session.selectedRoom == Some(room)
    ensures !SelectRoom(session, room).game.lastMoveWasKnightMove
  {
    KnightMovesExcludeSource(ROOM_GRID_MAP, room.id);
  }

  /** From LOGE, exactly `2-1`, ELEVATOR, `1-1`, `-1-3` and `-1-5` count as knight's moves. */
  lemma KnightFlagFromLoge(session: Session, room: RoomData)
    requires session.selectedRoom.Some? && session.selectedRoom.value.id == "0-4"
    ensures SelectRoom(session, room).game.lastMoveWasKnightMove <==>
      room.id in ["2-1", "ELEVATOR", "1-1", "-1-3", "-1-5"]
  {
    Building.LogeMoves();
  }

  /** GRATIOLET (`7-1`), hidden under HUTTING on the map, is never reached by a knight's move. */
  lemma GratioletNeverKnightMove(session: Session, room: RoomData)
    requires room.id == "7-1"
    ensures !SelectRoom(session, room).game.lastMoveWasKnightMove
  {
    Building.GratioletHidden();
  }

  // ---------------------------------------------------------------------------
  // historyContext

  /** `xs.slice(start)`: a negative start counts back from the end, clamped to the start. */
  function SliceFrom<T>(xs: seq<T>, start: int): seq<T> {
    var from := if start < 0 then (if |xs| + start < 0 then 0 else |xs| + start)
                else (if start < |xs| then start else |xs|);
    xs[from..]
  }

  /** The visited rooms the narrative context is built from: `entries.slice(-5)`. */
  function HistoryWindow(v: Visits): Visits {
    SliceFrom(v, -5)
  }

  /** The window holds the last five entries, or all of them when there are fewer, in
      record order. */
  lemma HistoryWindowLast(v: Visits)
    ensures |HistoryWindow(v)| == if |v| < 5 then |v| else 5
    ensures v == v[..|v| - |HistoryWindow(v)|] + HistoryWindow(v)
  {
    var w := HistoryWindow(v);
    assert v == v[..|v| - |w|] + v[|v| - |w|..];
  }

  /** After a narrative is generated for a room not yet visited, that room is the last
      entry of the next context window. A room visited before keeps its old place, so
      its new narrative may fall outside the window. */
  lemma NewRoomClosesHistory(s: PlayerState, roomId: string, content: NarrativeResponse)
    requires roomId !in Keys(s.visitedRooms)
    ensures |HistoryWindow(ContentGenerated(s, roomId, content).visitedRooms)| > 0
    ensures Last(HistoryWindow(ContentGenerated(s, roomId, content).visitedRooms)) == (roomId, content)
  {
    var v := ContentGenerated(s, roomId, content).visitedRooms;
    RecordLast(s.visitedRooms, roomId, content);
    HistoryWindowLast(v);
  }

  function Last<T>(xs: seq<T>): T
    requires |xs| > 0
  {
    xs[|xs| - 1]
  }

  /** Writing a new key puts its entry last. */
  lemma {:induction false} RecordLast(v: Visits, id: string, content: NarrativeResponse)
    requires id !in Keys(v)
    ensures Record(v, id, content) == v + [(id, content)]
    decreases |v|
  {
    if v != [] {
      assert Keys(v)[0] == v[0].0;
      assert Keys(v[1..]) == Keys(v)[1..];
      RecordLast(v[1..], id, content);
      assert v == [v[0]] + v[1..];
    }
  }

  // ---------------------------------------------------------------------------
  // The hidden floor

  /** The floors the map shows: the hidden floor 100 joins on top once five puzzle
      pieces are collected. */
  function MapFloors(puzzlePiecesCollected: int): (floors: seq<int>)
    ensures 100 in floors <==> puzzlePiecesCollected >= 5
  {
    assert 100 !in FLOORS;
    if puzzlePiecesCollected >= 5 then [100] + FLOORS else FLOORS
  }

  // ---------------------------------------------------------------------------
  // Playing from a new game

  datatype Event =
    | Collect(item: InventoryItem)
    | ContentReady(roomId: string, content: NarrativeResponse)
    | Select(room: RoomData)

  function Step(session: Session, e: Event): Session {
    match e
    case Collect(item) => session.(game := CollectItem(session.game, item))
    case ContentReady(roomId, content) => session.(game := ContentGenerated(session.game, roomId, content))
    case Select(room) => SelectRoom(session, room)
  }

  function Run(session: Session, events: seq<Event>): Session
    decreases |events|
  {
    if events == [] then session else Run(Step(session, events[0]), events[1..])
  }

  /** The inventory is consistent and the visited record has one entry per room. */
  ghost predicate Invariant(session: Session) {
    Consistent(session.game) && Distinct(Keys(session.game.visitedRooms))
  }

  lemma StepKeepsInvariant(session: Session, e: Event)
    requires Invariant(session)
    ensures Invariant(Step(session, e))
  {
    match e
    case Collect(item) => CollectKeepsConsistent(session.game, item);
    case ContentReady(roomId, content) => RecordDistinct(session.game.visitedRooms, roomId, content);
    case Select(room) =>
  }

  lemma {:induction false} RunKeepsInvariant(session: Session, events: seq<Event>)
    requires Invariant(session)
    ensures Invariant(Run(session, events))
    decreases |events|
  {
    if events != [] {
      StepKeepsInvariant(session, events[0]);
      RunKeepsInvariant(Step(session, events[0]), events[1..]);
    }
  }

  /** Whatever happens from a new game: inventory ids stay distinct, the puzzle count is
      the number of puzzle pieces held, and the hidden floor shows exactly when at least
      five are held. */
  lemma PlayFromNewGame(events: seq<Event>)
    ensures Invariant(Run(INITIAL_SESSION, events))
    ensures var game := Run(INITIAL_SESSION, events).game;
      game.puzzlePiecesCollected == PieceCount(game.inventory) &&
      (100 in MapFloors(game.puzzlePiecesCollected) <==> PieceCount(game.inventory) >= 5)
  {
    RunKeepsInvariant(INITIAL_SESSION, events);
  }
}
