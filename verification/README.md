# Knight's-move engine of 11 rue Simon-Crubellier

A model in Dafny of the core of an interactive-fiction game set in the building of
Perec's *Life: A User's Manual*. The building is a 10 x 10 grid, with floor 8 as row 0 and
floor -1 as row 9. The model covers four parts:

- **Layout** (`layout.dfy`): the static room table, in table order. Each room is a record
  with an id, a name, a floor and optional column and row spans.
- **GridLogic** (`grid_logic.dfy`): the placement builder, the cell lookup and the
  knight's-move resolver.
  - The builder walks floors 8 down to -1. It packs each floor's rooms left to right with
    a column cursor and records, per room id, the rectangle of cells the room covers. The
    result is an insertion-ordered map.
  - The lookup `findRoomAt` returns the first id, in map order, that owns a cell.
  - The resolver applies the eight chess-knight offsets to every cell of a room. It keeps
    landings inside the grid and reports the distinct rooms found there, other than the
    room itself.
  - The loops of the source's three functions are methods, each proved equal to a
    specification function. The lemmas are stated about those functions.
- **Building** (`building.dfy`): what the engine does on the actual table. The builder
  ignores rooms that hang down from floors above, so the map has overlaps and gaps:
  - HUTTING (`8-1`) hides GRATIOLET (`7-1`);
  - ELEVATOR wins the cells it shares with the rooms of floors 5 to 1;
  - columns 8 and 9 of rows 1 and 3 to 7 belong to no room.
- **AppState** (`app_state.dfy`): the main screen's pure state updaters:
  - collecting an item;
  - caching a room's generated narrative;
  - flagging a knight's move when a room is selected;
  - the five most recent rooms used as narrative context;
  - the hidden-floor threshold of the map.

The map is a sequence of `(id, cells)` pairs in insertion order. This keeps the first-wins
lookup exact.

## Model

| member | source | states |
|---|---|---|
| Layout.SpanOrOne | utils/gridLogic.ts:38-39 | an absent or zero span reads as 1, any other value is kept; the result is never 0, and is at least 1 unless the recorded span is negative |
| GridLogic.DefaultSpansOneCell | utils/gridLogic.ts:38-49 | a room without spans (or with zero spans) registers exactly one cell: its floor's row at the column cursor |
| Layout.RoomsOnFloorMembers | utils/gridLogic.ts:32 | the floor filter keeps exactly the table's rooms on that floor, and no more rooms than the table has |
| Layout.RoomsOnFloorConcat | utils/gridLogic.ts:32 | the filter distributes over concatenation, so a floor's rooms keep table order |
| Layout.FloorAround | utils/gridLogic.ts:32 | the rooms of a room's floor are those of its floor before it, the room itself, then those after it |
| Layout.RoomsOnFloorUnique | utils/gridLogic.ts:32 | filtering a table whose ids are unique keeps them unique |
| Layout.FlattenFloors | constants.ts:6-73 | in a table stacked from single-floor blocks, a floor's rooms are exactly that floor's block |
| Layout.FlattenUnique | constants.ts:6-73 | blocks with unique ids, and no id shared between two blocks, stack into a table with unique ids |
| GridLogic.FloorsCoverRows | utils/gridLogic.ts:15-19 | `8 - floor` maps the ten walked floors one-to-one, in walk order, onto rows 0..9; a floor is walked iff its row is in the grid |
| GridLogic.RoomCellsExactly | utils/gridLogic.ts:42-49 | a room's cells are exactly the rectangle of its row span by its column span, from its start row and column |
| GridLogic.CollectRoomCells | utils/gridLogic.ts:37-49 | the two nested loops push exactly the room's rectangle, row by row |
| GridLogic.RegisterLookup | utils/gridLogic.ts:51-54 | registering extends the id's entry (a missing entry counts as empty) and leaves every other id's entry unchanged |
| GridLogic.RegisterKeys | utils/gridLogic.ts:51-54 | registering keeps key order; a new id is appended last |
| GridLogic.PlaceFloor | utils/gridLogic.ts:31-67 | one floor's pass, with its column cursor, yields the specified packing of that floor from column 0 |
| GridLogic.BuildRoomGridMap | utils/gridLogic.ts:22-71 | the builder's result equals the placement of floors 8 down to -1 |
| GridLogic.PlacementKeysDistinct | utils/gridLogic.ts:51-54 | each id has one entry: a repeated id extends its entry rather than adding a second one |
| GridLogic.PlacementLookup | utils/gridLogic.ts:29-54 | an id's entry exists iff some room with that id is on a walked floor; it holds those rooms' rectangles in builder order |
| GridLogic.PlacementFresh | utils/gridLogic.ts:22-71 | with unique ids, the map has one entry per room on a walked floor, in walk order |
| GridLogic.PlacedRoom | utils/gridLogic.ts:31-66 | a room whose id is its own covers exactly rows `8 - floor` onward for its row span, and its column span from the summed widths of the earlier rooms on its floor |
| GridLogic.ColumnStartFirst | utils/gridLogic.ts:33 | the cursor starts at column 0, so a floor's first room starts at column 0 |
| GridLogic.ColumnStartNext | utils/gridLogic.ts:66 | the next room of a floor starts exactly where the previous one ends |
| GridLogic.ColumnsOrdered | utils/gridLogic.ts:66 | with non-negative widths, a later room on a floor starts no earlier than an earlier one ends |
| GridLogic.PlacedRoomsDisjoint | utils/gridLogic.ts:31-66 | when every room of the table has a non-negative width, two rooms of one walked floor, each with its own id, never share a cell |
| GridLogic.FindRoomAt | utils/gridLogic.ts:110-117 | the loop with early return gives the specified lookup |
| GridLogic.RoomAtFirstOwner | utils/gridLogic.ts:110-117 | a cell resolves to nothing iff no entry holds it; otherwise it resolves to the earliest entry that holds it |
| GridLogic.RoomAtOwnsCell | utils/gridLogic.ts:110-117 | with one entry per id, the id a cell resolves to owns that cell |
| GridLogic.RoomAtShadowed | utils/gridLogic.ts:110-117 | in a map with one entry per id, an entry whose cells all belong to an earlier entry is never the answer |
| GridLogic.RoomAtAppend | utils/gridLogic.ts:111-115 | the first owner in a joined map is the first part's owner, if it has one |
| GridLogic.OwnerAtSkip | utils/gridLogic.ts:110-117 | floors none of whose rooms covers the cell can be passed over when looking for its owner |
| GridLogic.PlacementRoomAt | utils/gridLogic.ts:110-117 | with unique ids, the lookup on the built map answers the first room that covers the cell, floors top down and left to right |
| GridLogic.PlacementInGrid | utils/gridLogic.ts:42-49 | for a table with unique ids in which every walked floor fits in the grid, every built cell lies in the 10 x 10 grid |
| GridLogic.Hop | utils/gridLogic.ts:92-102 | one offset's landing yields neither the source nor an empty id |
| GridLogic.TryMove | utils/gridLogic.ts:92-102 | one step of the resolver gives the specified hop |
| GridLogic.AddMovesFrom | utils/gridLogic.ts:91-104 | the inner loop over the eight offsets adds the specified targets in order |
| GridLogic.GetValidKnightMoves | utils/gridLogic.ts:76-108 | a room without an entry of its own gives no moves; otherwise the targets come from every cell and offset, in order of first discovery |
| GridLogic.KnightMovesDistinct | utils/gridLogic.ts:80-107 | the result has no duplicates |
| GridLogic.KnightMovesExcludeSource | utils/gridLogic.ts:100 | the result contains neither the source nor the empty id |
| GridLogic.KnightMovesMeaning | utils/gridLogic.ts:80-107 | `t` is reported iff some source cell plus one knight offset lands in the grid on a cell that resolves to `t`, with `t` not the source |
| GridLogic.NeverFoundNeverReached | utils/gridLogic.ts:99-101 | an id the lookup never answers is no room's knight's-move target |
| GridLogic.KnightMovesOfUnplaced | utils/gridLogic.ts:77-78 | a room with no entry (unknown, or only on an unwalked floor) has no moves |
| Building.BuildingShapes | constants.ts:8-72 | every room is at least one column wide; only `8-1` (2 storeys) and ELEVATOR (6) are taller than one storey; every floor is -1..8, except `100-1` on floor 100, ten columns wide |
| Building.BlocksStacked | constants.ts:6-73 | the table is single-floor runs, one run per floor |
| Building.BuildingFloors | constants.ts:6-73 | the builder's filter finds, for each floor, exactly that floor's rooms in table order |
| Building.BuildingIdsUnique | constants.ts:8-72 | no two rooms of the table share an id |
| Building.PackedWidths | constants.ts:8-69 | the column spans on a floor sum to 10 on floors 8, 6, 0 and -1, and to 8 on floors 7 and 5 to 1 |
| Building.BuildingHanging | constants.ts:8-28 | HUTTING hangs into floor 7 and ELEVATOR into floors 5 to 1; no other room hangs into another floor |
| Building.FullWidths | constants.ts:3-4 | counting the rooms that hang down from above, every floor from 8 to -1 is exactly 10 columns wide |
| Building.LogeCells | constants.ts:54-57 | LOGE (`0-4`) occupies only the cell (8, 4) |
| Building.LogeLandings | utils/gridLogic.ts:110-117 | the cells one knight's move from LOGE resolve to `2-1`, ELEVATOR (over `2-2` and `1-2`), `1-1`, `-1-3` and `-1-5` |
| Building.MovesFromLoge | utils/gridLogic.ts:80-107 | on any map where LOGE is the single cell (8, 4) and those landings resolve as above, the resolver gives exactly those five rooms in discovery order |
| Building.LogeMoves | utils/gridLogic.ts:76-117 | the knight's moves from LOGE are exactly `2-1`, ELEVATOR, `1-1`, `-1-3` and `-1-5`, in that order |
| Building.GratioletEntries | constants.ts:8-17 | the built map equals the floor-by-floor entry list; its first entry is HUTTING over rows 0-1 and columns 0-1; GRATIOLET's entry is row 1, columns 0-1 |
| Building.GratioletHidden | constants.ts:8-17 | no cell resolves to GRATIOLET (`7-1`), and it is no room's knight's-move target |
| Building.HiddenRoomUnplaced | constants.ts:71-72 | `100-1` gets no map entry and has no knight's moves |
| Building.UnownedCells | constants.ts:8-69 | columns 8 and 9 of rows 1 and 3 to 7 resolve to no room |
| Building.FloorFitsAt | constants.ts:8-69 | every walked floor's packing stays inside the grid, taller rooms included |
| Building.BuildingInGrid | utils/gridLogic.ts:42-49 | every cell the builder produces from the table lies in the 10 x 10 grid |
| AppState.RecordLookup | App.tsx:103-106 | after writing `roomId`, reading it gives the new content and reading any other key gives its old value |
| AppState.RecordIds | App.tsx:103-106 | writing a present key keeps the key order; a new key is appended last |
| AppState.RecordDistinct | App.tsx:103-106 | the visited record keeps one entry per room |
| AppState.ContentGenerated | App.tsx:99-109 | the generated narrative is cached under its room; other rooms' entries and all other fields are unchanged |
| AppState.CollectItem | App.tsx:112-125 | an item already held (by id) changes nothing. Otherwise it is appended after the unchanged inventory, and the count rises by 1 iff it is a puzzle piece. Visited rooms, story bible and move flag are unchanged |
| AppState.PieceCountAppend | App.tsx:117-118 | appending an item adds 1 to the puzzle-piece count iff it is a puzzle piece |
| AppState.CollectKeepsConsistent | App.tsx:112-125 | collecting keeps inventory ids distinct and the count equal to the number of puzzle pieces held |
| AppState.SelectRoom | App.tsx:72-87 | the new room becomes the selected one; the flag is false when no room was selected, and otherwise true iff the new room is among the previous room's knight's moves; nothing else changes |
| AppState.KnightFlagMeaning | App.tsx:79 | with a previous room, the flag is true iff one knight offset from one of its cells lands on the new room |
| AppState.ReselectNotKnightMove | App.tsx:79 | selecting the selected room again never counts as a knight's move |
| AppState.KnightFlagFromLoge | App.tsx:72-85 | from LOGE, the flag is true exactly for `2-1`, ELEVATOR, `1-1`, `-1-3` and `-1-5` |
| AppState.GratioletNeverKnightMove | App.tsx:72-85 | selecting GRATIOLET never sets the flag |
| AppState.HistoryWindowLast | App.tsx:147-149 | the context window holds the last five visited entries (all of them when fewer), in record order |
| AppState.NewRoomClosesHistory | App.tsx:99-149 | after content is cached for a room not yet visited, that room is the window's last entry |
| AppState.RecordLast | App.tsx:103-106 | writing a new key puts its entry last |
| AppState.MapFloors | components/BuildingMap.tsx:15-19 | the hidden floor 100 is shown iff at least five puzzle pieces are collected |
| AppState.StepKeepsInvariant | App.tsx:99-125 | every update keeps inventory ids distinct, the count equal to the pieces held, and one visited entry per room |
| AppState.RunKeepsInvariant | App.tsx:99-125 | any sequence of updates keeps that invariant |
| AppState.PlayFromNewGame | App.tsx:13-18 | from the initial state, after any updates, the count equals the puzzle pieces held and the hidden floor shows iff at least five are held |

## Left out

- The React rendering of the map, narrative, story-bible and inventory panels is not modelled. The map's only rule, the hidden-floor threshold, is `AppState.MapFloors`.
- services/geminiService.ts is not part of this model. It calls an external language model over the network and parses its JSON replies. The narrative and the story bible are plain inputs of the updaters.
- Loading and saving the state in `localStorage`, and its JSON encoding, are I/O.
- The asynchronous story-bible generation on start-up is promise plumbing. `storyBible` is only carried along unchanged.
- The reset handler (App.tsx:134-143) is not modelled. It depends on a `window.confirm` answer and starts an asynchronous story-bible generation.
- `alert` on collecting, and closing the map on narrow windows, are UI side effects.
- The text formatting of the history context is left out. The model keeps only which entries it is built from.
- JavaScript objects list integer-like keys first, in numeric order. The model orders every key by insertion. No room id in the table is integer-like, but an arbitrary id passed to the updaters could be.
- The `GameState` enum in types.ts is declared but unused.
- Map and record lookups read a record's own keys only. An id naming an inherited member of a plain JavaScript object (`toString`, `constructor`, `__proto__`, ...) finds a value in the source: there `getValidKnightMoves` and the builder's registration throw a TypeError. For such an id the model gives no moves, or a fresh entry. Every id the game passes comes from the room table, and none of those names an inherited member.
- The field `label` of an interaction is named `buttonText` in the model, because `label` is a Dafny keyword.
- The narrative panel's fetch-or-use-cache effect is promise plumbing. The Playwright scripts under verification/ drive a browser.
- Numbers are unbounded integers. The source's spans and counts are small JavaScript numbers, so no overflow arises.
- The optional `description` field of a room (types.ts) is not modelled. It is fallback text for the UI, and no modelled operation reads it.
- Spans are integers in the model. A fractional span (a JavaScript number such as 1.5) cannot be represented.
- `BUILDING_LAYOUT` is written as its floor blocks concatenated, top floor first. Its rooms and their order are those of the source's single array literal.
