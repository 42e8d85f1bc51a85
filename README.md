# Ultimate Tic-Tac-Toe room server — verified model

This project models the authoritative game engine of a multiplayer Ultimate
Tic-Tac-Toe server and proves properties of it in Dafny. It has three parts:

- **Rules engine** (`game_utils.dfy`, module `GameUtils`). This is the table of
  the eight winning lines, `checkWinner`, `checkDraw` and the fresh position
  (`createInitialBoard`, `getDefaultGameState`). All are pure functions over
  nine squares.
- **Room** (`move_rules.dfy`, module `MoveRules`; `room.dfy`, module `Rooms`).
  A room seats at most two peers, each with a symbol (X or O), and owns one
  game state.
  - `Rooms.Room` is a class with a `clients` map and a `gameState` field. Its
    methods update both in place, step by step, as `executeMove` and its
    helpers do.
  - Each step method is proved to produce exactly a pure function of the old
    state, defined in `MoveRules`. The properties of a move are proved about
    those functions.
- **Room registry** (`room_manager.dfy`, module `RoomRegistry`). The class
  `RoomManager` maps room ids to rooms. Create, get and remove return
  `Err(...)` where the source throws. A sweep drops every room with nobody
  seated.

The shared data model is in `types.dfy` (module `TicTacToeTypes`): `Symbol`,
`Square`, `SubBoard` and `GameState`. A nullable field is an `Option`. A
`Player` record holds only its symbol, so an owner or winner is an
`Option<Symbol>`.

The state invariant `MoveRules.Wf` holds for the fresh state and is kept by
every legal move. It says:

- each sub-board's winner/draw flags agree with its squares;
- `availableBoards` lists exactly the open sub-boards, in increasing order;
- the game has a winner exactly when the meta-board has a line;
- a drawn game has every sub-board terminal;
- an active board is always available.

The meta-board is the 3×3 board of sub-board winners.

Behaviour is reproduced as the code has it, including these points:

- `activeBoard` is recomputed after every move, even a game-ending one, so a
  winning move can leave an active board. The turn index also toggles after
  such a move.
- The game-level draw is only tested when a sub-board ends in a draw. Winning
  the last open sub-board without a meta-board line leaves a game that is not
  won, not drawn, and has no legal move (`WinningLastBoardWithoutLineStalls`).
- `isValidMove` checks the peer's recorded symbol, not `currentPlayerIndex`.
  The server does not enforce turn order.
- `getRoom` and `removeRoom` also fail on an empty id
  (server/room/RoomManager.ts:34, 47).

The source functions map to these defining members: `checkWinner` is
`GameUtils.CheckWinner`, `checkDraw` is `GameUtils.CheckDraw`, and
`executeMove` is `MoveRules.ApplyMove`. The pure counterparts of
`handleSubBoardWinner`, `handleSubBoardDraw`, `updateGameState` and
`removeFromAvailable` are `MoveRules.WinSubBoard`, `MoveRules.DrawSubBoard`,
`MoveRules.AdvanceTurn` and `MoveRules.RemoveBoard`. Marking the square is
`MoveRules.PlaceMark`. The lemma rows below state properties of these
definitions.

## Model

| member | source | states |
|---|---|---|
| `TicTacToeTypes.Opposite` | server/room/Room.ts:95 | the symbol given to the second peer is never the first peer's |
| `GameUtils.WinningCombinations` | utils/gameUtils.ts:3-12 | exactly 8 distinct triples, each of increasing indices within 0..8 |
| `GameUtils.CombinationsAreLines` | utils/gameUtils.ts:3-12 | a triple of distinct cells is in the table iff it is a row, a column or one of the two diagonals of the grid |
| `GameUtils.CheckWinnerIffLine` | utils/gameUtils.ts:14-25 | `checkWinner` holds iff some geometric line has three owned squares with the same symbol |
| `GameUtils.WinnerNeedsThreeOwned` | utils/gameUtils.ts:14-25 | a board with fewer than three owned squares has no winner |
| `GameUtils.EmptyBoardUndecided` | utils/gameUtils.ts:14-29 | a board with no owned square is neither won nor drawn |
| `GameUtils.TestsReadOnlyOwners` | utils/gameUtils.ts:14-29 | both tests give equal answers on boards whose owners agree, whatever the ids and hover flags |
| `GameUtils.CheckDrawIffAllOwned` | utils/gameUtils.ts:27-29 | `checkDraw` holds iff the number of owned squares equals the number of squares |
| `GameUtils.DrawIgnoresLines` | utils/gameUtils.ts:27-29 | a full board that also has a winning line still counts as a draw |
| `GameUtils.CreateInitialBoard` | utils/gameUtils.ts:31-46 | nine sub-boards with ids 0..8, no winner, not drawn, each with nine squares with ids 0..8, no owner, not hovered |
| `GameUtils.DefaultGameState` | utils/gameUtils.ts:48-58 | index 0 to move, no winner, not drawn, no active board, boards 0..8 available in order, empty preview, the initial board |
| `MoveRules.DefaultGameStateWf` | utils/gameUtils.ts:48-58 | the fresh state satisfies the state invariant, and every square of every sub-board is a legal first move |
| `MoveRules.MetaBoard` | server/room/Room.ts:107-111 | the meta-board has one square per sub-board, owned by that sub-board's winner |
| `MoveRules.Without` | server/room/Room.ts:134-136 | the result holds exactly the other elements, in their original order; it keeps increasing order and loses one element when the board was listed |
| `MoveRules.MoveMarksOnlyTarget` | server/room/Room.ts:77-81 | a move sets the target square's owner to the player; every other square and sub-board is unchanged |
| `MoveRules.MoveTogglesTurn` | server/room/Room.ts:131 | the turn index flips between 0 and 1 on every move |
| `MoveRules.MoveSetsActiveBoard` | server/room/Room.ts:129-130 | the next active board is the square just played if that board is still available, else none; this also holds after a game-ending move |
| `MoveRules.MoveDecidesSubBoard` | server/room/Room.ts:83-87 | the played sub-board is won by the player if a line is completed, else drawn if full, else still open; it leaves `availableBoards` exactly when it becomes terminal |
| `MoveRules.MoveShrinksAvailable` | server/room/Room.ts:134-136 | `availableBoards` loses only the played board, and only when that board became terminal; what remains is in its original order |
| `MoveRules.MoveDecidesGameWinner` | server/room/Room.ts:107-116 | after a move the game winner is the player iff the meta-board has a line, otherwise none |
| `MoveRules.MoveDecidesGameDraw` | server/room/Room.ts:119-126 | the game becomes drawn iff the move draws its sub-board and every sub-board is then terminal |
| `MoveRules.MovePreservesWf` | server/room/Room.ts:77-90 | every legal move keeps the state invariant |
| `MoveRules.GameOverAllowsNoMove` | server/room/Room.ts:70 | once the game is won or drawn, no move passes the game-level legality test |
| `MoveRules.OpenGameHasMove` | server/room/Room.ts:68-75 | a running game with an available board always has a legal move |
| `MoveRules.DrawingMoveClearsActiveBoard` | server/room/Room.ts:123-130 | a move that draws the game leaves no active board |
| `MoveRules.WinningLastBoardWithoutLineStalls` | server/room/Room.ts:103-126 | winning the last open board without a meta-board line gives a state that is not won, not drawn, has no available board and admits no move |
| `MoveRules.OpeningMoveExample` | server/room/Room.ts:77-90 | from the fresh state, X at board 4, square 0 marks that square, makes board 0 active, passes the turn to index 1 and keeps all boards available |
| `Rooms.FullRoomHoldsBothSymbols` | server/room/Room.ts:92-96 | in a full room with distinct symbols, one peer holds X and the other O |
| `Rooms.Room.constructor` | server/room/Room.ts:15-23 | a new room has the given non-empty id, no clients and the fresh game state |
| `Rooms.Room.IsGameFull` | server/room/Room.ts:25-27 | in a valid room, full iff both seats are taken |
| `Rooms.Room.ClientCount` | server/room/Room.ts:142-144 | the number of seated peers, at most two in a valid room |
| `Rooms.Room.AssignPlayerSymbol` | server/room/Room.ts:92-96 | X in an empty room; otherwise a symbol that no seated peer holds |
| `Rooms.Room.AddClient` | server/room/Room.ts:29-41 | a full room returns no symbol and keeps its map; otherwise the peer gets X (empty room) or the symbol the other peer lacks; the game state is untouched and seated symbols stay distinct |
| `Rooms.Room.RemoveClient` | server/room/Room.ts:43-52 | exactly that peer's entry is deleted; the game resets to the fresh state whenever fewer than two peers remain |
| `Rooms.Room.IsValidMove` | server/room/Room.ts:68-75 | true iff the peer is seated with that symbol, the game is not over, the active board is unset or the target, the target sub-board is open and the square empty; turn order plays no part |
| `Rooms.Room.ExecuteMove` | server/room/Room.ts:77-90 | the new state is the move rules applied to the old one, the seating is untouched, and the room invariant holds |
| `Rooms.Room.HandleSubBoardWinner` | server/room/Room.ts:103-117 | records the sub-board winner, removes the board from the available list, and ends the game if the meta-board has a line |
| `Rooms.Room.HandleSubBoardDraw` | server/room/Room.ts:119-127 | marks the sub-board drawn, removes it from the available list, and draws the game if every sub-board is terminal |
| `Rooms.Room.UpdateGameState` | server/room/Room.ts:129-132 | the active board becomes the played square when that board is still available, else none; the turn index advances modulo 2 |
| `Rooms.Room.RemoveFromAvailable` | server/room/Room.ts:134-136 | the available list becomes the filtered list without that board |
| `RoomRegistry.RoomManager.constructor` | server/room/RoomManager.ts:7-9 | the registry starts empty |
| `RoomRegistry.RoomManager.CreateRoom` | server/room/RoomManager.ts:19-31 | fails on an empty or already registered id; otherwise maps the id to a new, empty, valid room carrying that id and leaves all other entries alone |
| `RoomRegistry.RoomManager.GetRoom` | server/room/RoomManager.ts:33-44 | fails on an empty or unknown id; otherwise returns the stored room, whose id is the key |
| `RoomRegistry.RoomManager.RemoveRoom` | server/room/RoomManager.ts:46-54 | fails on an empty or unknown id; otherwise deletes exactly that key |
| `RoomRegistry.RoomManager.CleanEmptyRooms` | server/room/RoomManager.ts:56-62 | afterwards the registry holds exactly the earlier entries whose room has someone seated, unchanged, and the registry invariant still holds |
| `RoomRegistry.Occupied` | server/room/RoomManager.ts:56-62 | the sweep's result: exactly the entries with at least one seated peer, with their rooms unchanged |
| `RoomRegistry.OccupiedIdempotent` | server/room/RoomManager.ts:56-62 | sweeping an already swept registry changes nothing |

## Left out

- The message handler (server/api/websocket.ts) is transport glue and is not
  part of this model. It parses JSON, sends messages and tracks the
  connection lifecycle. Joining a room means "get the room, or create it if
  `getRoom` fails, then `addClient`". A move request means "`isValidMove`,
  then `executeMove`, then broadcast the state".
- Broadcasting and serialisation are not modelled: `broadcast`,
  `broadcastPlayerCount`, `broadcastGameState` and `serialize`. They send a
  JSON message to every key of `clients`.
- The `RoomManager.getInstance` singleton is not modelled. The model only has
  the registry's constructor.
- The runtime checks on the peer object's shape in `addClient` and
  `removeClient` are not modelled. A peer is an opaque `PeerId`.
- The `gameState` getter hands out the live object in the source. The model
  has a `gameState` field of a value type, so outside code cannot mutate the
  state through an alias.
- Per-room locking and concurrent event handling are not modelled. The code
  runs on one thread.
- `hovered` and `previewNextBoard` are kept as data fields, but nothing in the
  model reads them. The server never reads them either.
- Board and square ids are integers. Non-integer or out-of-range ids are
  excluded by preconditions; the source does not check them.
- Rooms.Room.constructor: the source throws on an empty id. The model makes a
  non-empty id a precondition instead; `RoomManager.CreateRoom` models the
  error path as `Err(RoomIdRequired)`.
- Rooms.Room.AssignPlayerSymbol: requires a free seat. The source only calls
  it then. With two entries the source would read the first-inserted one; map
  insertion order is not modelled.
- Rooms.Room.IsValidMove: requires board and square ids within 0..8. The source
  indexes without checking them.
- Rooms.Room.ExecuteMove: requires in-range ids and the game-level part of
  `isValidMove` (`MoveRules.MoveAllowed`). The source checks nothing and
  relies on its caller having called `isValidMove`.
- The registry does not carry its rooms' invariant: `RoomManager.Valid` only
  ties each key to its room's id, not `Room.Valid`. `CreateRoom` does return a
  valid room, but a room reached later through `GetRoom` must have its
  `Valid()` re-established by the caller before `AddClient` or `IsValidMove`,
  because rooms are separate heap objects that the registry does not frame.
- The logger and the Vue client composable are not modelled.
