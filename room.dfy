/**
 * One game room (server/room/Room.ts): at most two seated peers, each holding
 * a symbol, and the single authoritative game state that moves update.
 */
module Rooms {
  import opened TicTacToeTypes
  import opened GameUtils
  import opened MoveRules

  /** The identity of a connected peer; the transport object itself is not modelled. */
  type PeerId = string

  /** Seat capacity of a room. */
  const MaxClients: nat := 2

  /** At most two seats, and no two seated peers share a symbol. */
  predicate Seating(clients: map<PeerId, Symbol>)
  {
    && |clients| <= MaxClients
    && forall p, q :: p in clients && q in clients && p != q ==> clients[p] != clients[q]
  }

  /** A room with a single seat taken has exactly one peer. */
  lemma OneSeatOnePeer(clients: map<PeerId, Symbol>, p: PeerId)
    requires |clients| == 1 && p in clients
    ensures forall q :: q in clients ==> q == p
  {
    forall q | q in clients ensures q == p {
      assert |clients.Keys - {p}| == 0;
    }
  }

  /** A full room seats one X and one O. */
  lemma FullRoomHoldsBothSymbols(clients: map<PeerId, Symbol>)
    requires Seating(clients) && |clients| == MaxClients
    ensures clients.Values == {X, O}
  {
    var p :| p in clients;
    var rest := clients - {p};
    assert |rest| == 1;
    var q :| q in rest;
    assert q in clients && q != p;
    assert clients[p] != clients[q];
    assert clients[p] in clients.Values && clients[q] in clients.Values;
  }

  class Room {
    const roomId: string
    var clients: map<PeerId, Symbol>
    var gameState: GameState

    /** The room invariant: a non-empty id, a legal seating, a well-formed game. */
    ghost predicate Valid()
      reads this
    {
      && roomId != ""
      && Seating(clients)
      && Wf(gameState)
    }

    /** A new room: nobody seated, the fresh game. An empty id is rejected by the caller. */
    constructor (roomId: string)
      requires roomId != ""
      ensures Valid()
      ensures this.roomId == roomId
      ensures clients == map[] && gameState == DefaultGameState()
    {
      this.roomId := roomId;
      gameState := DefaultGameState();
      clients := map[];
      new;
      DefaultGameStateWf();
    }

    /** `isGameFull`: both seats are taken. */
    function IsGameFull(): (full: bool)
      reads this
      ensures Valid() ==> (full <==> |clients| == MaxClients)
    {
      |clients| >= MaxClients
    }

    /** The `clientCount` getter. */
    function ClientCount(): (n: nat)
      reads this
      ensures n == |clients|
      ensures Valid() ==> n <= MaxClients
    {
      |clients|
    }

    /**
     * `assignPlayerSymbol`, called only while a seat is free: X in an empty
     * room, otherwise the symbol that the seated peer does not hold.
     */
    method AssignPlayerSymbol() returns (symbol: Symbol)
      requires Valid() && |clients| < MaxClients
      ensures clients == map[] ==> symbol == X
      ensures forall p :: p in clients ==> clients[p] != symbol
    {
      if |clients| == 0 {
        return X;
      }
      var existing :| existing in clients;
      OneSeatOnePeer(clients, existing);
      symbol := Opposite(clients[existing]);
    }

    /**
     * `addClient`: in a full room nothing changes and no symbol is given;
     * otherwise the peer is seated with a symbol nobody else holds.
     */
    method AddClient(peer: PeerId) returns (symbol: Option<Symbol>)
      requires Valid()
      modifies this
      ensures Valid()
      ensures gameState == old(gameState)
      ensures old(|clients|) == MaxClients ==> symbol == None && clients == old(clients)
      ensures old(|clients|) < MaxClients ==>
        && symbol.Some?
        && clients == old(clients)[peer := symbol.value]
        && (forall p :: p in old(clients) ==> old(clients)[p] != symbol.value)
        && (old(clients) == map[] ==> symbol.value == X)
    {
      if IsGameFull() {
        return None;
      }
      var seatSymbol := AssignPlayerSymbol();
      clients := clients[peer := seatSymbol];
      symbol := Some(seatSymbol);
    }

    /**
     * `removeClient`: only that peer's seat is freed, and the game restarts
     * from the fresh position whenever fewer than two peers remain.
     */
    method RemoveClient(peer: PeerId)
      requires Valid()
      modifies this
      ensures Valid()
      ensures clients == old(clients) - {peer}
      ensures gameState == if |clients| < MaxClients then DefaultGameState() else old(gameState)
    {
      clients := clients - {peer};
      if |clients| < 2 {
        gameState := DefaultGameState();
        DefaultGameStateWf();
      }
    }

    /**
     * `isValidMove`: the peer is seated with `player`, the game is not over,
     * the active board (if any) is the target, the target sub-board is open
     * and the square empty. Whose turn it is plays no part.
     */
    function IsValidMove(peer: PeerId, boardId: int, squareId: int, player: Symbol): (valid: bool)
      reads this
      requires Valid() && 0 <= boardId < 9 && 0 <= squareId < 9
      ensures valid <==>
        && peer in clients && clients[peer] == player
        && MoveAllowed(gameState, boardId, squareId)
      ensures valid ==> !GameOver(gameState) && boardId in gameState.availableBoards
    {
      if peer !in clients || player != clients[peer] then false
      else if gameState.winner.Some? || gameState.isDraw then false
      else if gameState.activeBoard.Some? && gameState.activeBoard.value != boardId then false
      else
        var subBoard := gameState.board[boardId];
        subBoard.winner.None? && !subBoard.isDraw && subBoard.squares[squareId].owner == None
    }

    /**
     * `executeMove`, which trusts its caller to have checked `isValidMove`:
     * the new state is one application of the move rules, the seating is
     * untouched, and the room invariant is kept.
     */
    method ExecuteMove(boardId: int, squareId: int, player: Symbol)
      requires Valid() && 0 <= boardId < 9 && 0 <= squareId < 9
      requires MoveAllowed(gameState, boardId, squareId)
      modifies this
      ensures Valid()
      ensures clients == old(clients)
      ensures gameState == ApplyMove(old(gameState), boardId, squareId, player)
    {
      ghost var before := gameState;
      var subBoard := gameState.board[boardId];
      var currentPlayer := player;
      subBoard := subBoard.(squares := subBoard.squares[squareId := subBoard.squares[squareId].(owner := Some(currentPlayer))]);
      gameState := gameState.(board := gameState.board[boardId := subBoard]);

      if CheckWinner(subBoard.squares) {
        HandleSubBoardWinner(boardId, currentPlayer);
      } else if CheckDraw(subBoard.squares) {
        HandleSubBoardDraw(boardId);
      }

      UpdateGameState(squareId);
      MovePreservesWf(before, boardId, squareId, player);
    }

    /** `handleSubBoardWinner`. */
    method HandleSubBoardWinner(boardId: int, winner: Symbol)
      requires |gameState.board| == 9 && 0 <= boardId < 9
      modifies this
      ensures clients == old(clients)
      ensures gameState == WinSubBoard(old(gameState), boardId, winner)
    {
      var subBoard := gameState.board[boardId].(winner := Some(winner));
      gameState := gameState.(board := gameState.board[boardId := subBoard]);
      RemoveFromAvailable(boardId);

      var mainBoardSquares := MetaBoard(gameState.board);
      if CheckWinner(mainBoardSquares) {
        gameState := gameState.(winner := Some(winner));
        gameState := gameState.(activeBoard := None);
      }
    }

    /** `handleSubBoardDraw`. */
    method HandleSubBoardDraw(boardId: int)
      requires |gameState.board| == 9 && 0 <= boardId < 9
      modifies this
      ensures clients == old(clients)
      ensures gameState == DrawSubBoard(old(gameState), boardId)
    {
      var subBoard := gameState.board[boardId].(isDraw := true);
      gameState := gameState.(board := gameState.board[boardId := subBoard]);
      RemoveFromAvailable(boardId);

      if AllTerminal(gameState.board) {
        gameState := gameState.(isDraw := true);
        gameState := gameState.(activeBoard := None);
      }
    }

    /** `updateGameState`. */
    method UpdateGameState(squareId: int)
      modifies this
      ensures clients == old(clients)
      ensures gameState == AdvanceTurn(old(gameState), squareId)
    {
      var next := if squareId in gameState.availableBoards then Some(squareId) else None;
      gameState := gameState.(activeBoard := next);
      gameState := gameState.(currentPlayerIndex := (gameState.currentPlayerIndex + 1) % 2);
    }

    /** `removeFromAvailable`. */
    method RemoveFromAvailable(boardId: int)
      modifies this
      ensures clients == old(clients)
      ensures gameState == RemoveBoard(old(gameState), boardId)
    {
      gameState := gameState.(availableBoards := Without(gameState.availableBoards, boardId));
    }
  }
}
