/**
 * The game-state transition performed by `Room.executeMove` and its private
 * helpers (server/room/Room.ts), written as pure functions over GameState
 * values, together with the well-formedness invariant that every reachable
 * state satisfies and the properties of one move.
 *
 * Behaviour kept exactly as the room implements it:
 *  - `activeBoard` is recomputed after every move, also after a move that ends
 *    the game, and `currentPlayerIndex` toggles after it too;
 *  - the game-level draw is only looked at when a sub-board ends in a draw, so
 *    winning the last open sub-board without a meta-board line leaves a game
 *    that is neither won nor drawn and has no legal move;
 *  - legality never consults `currentPlayerIndex`.
 */
module MoveRules {
  import opened TicTacToeTypes
  import opened GameUtils

  // ---------------------------------------------------------------------
  // Shape, status and the state invariant
  // ---------------------------------------------------------------------

  /** Nine sub-boards of nine squares: the shape every state is created with. */
  predicate Shaped(g: GameState)
  {
    && |g.board| == 9
    && forall i :: 0 <= i < 9 ==> |g.board[i].squares| == 9
  }

  /** A sub-board is terminal once it is won or drawn. */
  predicate Terminal(sb: SubBoard)
  {
    sb.winner.Some? || sb.isDraw
  }

  /** Every sub-board of `board` is terminal. */
  predicate AllTerminal(board: seq<SubBoard>)
  {
    forall i | 0 <= i < |board| :: board[i].winner.Some? || board[i].isDraw
  }

  /** The game is over once it has a winner or is drawn. */
  predicate GameOver(g: GameState)
  {
    g.winner.Some? || g.isDraw
  }

  predicate Increasing(xs: seq<int>)
  {
    forall i, j :: 0 <= i < j < |xs| ==> xs[i] < xs[j]
  }

  /** `a` is `b` with some elements dropped, the others kept in order. */
  predicate SubsequenceOf(a: seq<int>, b: seq<int>)
    decreases |b|
  {
    if a == [] then true
    else if b == [] then false
    else if a[0] == b[0] then SubsequenceOf(a[1..], b[1..])
    else SubsequenceOf(a, b[1..])
  }

  /**
   * The status recorded on a sub-board agrees with its squares: a winner has
   * a line, a draw is full without a line, an open board has neither, and
   * never both flags.
   */
  predicate SubBoardWf(sb: SubBoard, i: int)
  {
    && sb.id == i
    && |sb.squares| == 9
    && (forall j :: 0 <= j < 9 ==> sb.squares[j].id == j)
    && !(sb.winner.Some? && sb.isDraw)
    && (sb.winner.Some? ==> CheckWinner(sb.squares))
    && (sb.isDraw ==> CheckDraw(sb.squares) && !CheckWinner(sb.squares))
    && (!Terminal(sb) ==> !CheckWinner(sb.squares) && !CheckDraw(sb.squares))
  }

  /**
   * The board the room builds from the sub-board winners (an undecided
   * sub-board is an empty square) to evaluate the whole game.
   */
  function MetaBoard(board: seq<SubBoard>): (meta: seq<Square>)
    ensures |meta| == |board|
    ensures forall i :: 0 <= i < |board| ==> meta[i].owner == board[i].winner
  {
    seq(|board|, i requires 0 <= i < |board| => Square(board[i].id, board[i].winner, false))
  }

  /**
   * The invariant of every state a room can reach: sub-boards agree with their
   * squares, `availableBoards` lists exactly the open sub-boards in increasing
   * order, the game is won exactly when the meta-board has a line, a drawn game
   * has every sub-board terminal, and an active board is always available.
   */
  ghost predicate Wf(g: GameState)
  {
    && |g.board| == 9
    && (forall i :: 0 <= i < 9 ==> SubBoardWf(g.board[i], i))
    && (g.currentPlayerIndex == 0 || g.currentPlayerIndex == 1)
    && Increasing(g.availableBoards)
    && (forall k :: 0 <= k < |g.availableBoards| ==> 0 <= g.availableBoards[k] < 9)
    && (forall i :: 0 <= i < 9 ==> (i in g.availableBoards <==> !Terminal(g.board[i])))
    && (g.winner.Some? <==> CheckWinner(MetaBoard(g.board)))
    && (g.isDraw ==> g.winner == None && AllTerminal(g.board))
    && (g.activeBoard.Some? ==> g.activeBoard.value in g.availableBoards)
  }

  /**
   * The game-level part of `isValidMove`: the game is not over, the move
   * respects the active board, the target sub-board is open and the target
   * square is empty.
   */
  predicate MoveAllowed(g: GameState, boardId: int, squareId: int)
    requires Shaped(g) && 0 <= boardId < 9 && 0 <= squareId < 9
  {
    && g.winner == None && !g.isDraw
    && (g.activeBoard == None || g.activeBoard == Some(boardId))
    && g.board[boardId].winner == None
    && !g.board[boardId].isDraw
    && g.board[boardId].squares[squareId].owner == None
  }

  // ---------------------------------------------------------------------
  // The steps of one move
  // ---------------------------------------------------------------------

  /** The list with every occurrence of `x` dropped, as `removeFromAvailable` filters it. */
  function Without(xs: seq<int>, x: int): (r: seq<int>)
    ensures forall y :: y in r <==> y in xs && y != x
    ensures x !in xs ==> r == xs
    ensures Increasing(xs) ==> Increasing(r)
    ensures Increasing(xs) && x in xs ==> |r| == |xs| - 1
    ensures SubsequenceOf(r, xs)
  {
    if xs == [] then []
    else if xs[0] == x then Without(xs[1..], x)
    else [xs[0]] + Without(xs[1..], x)
  }

  /** `removeFromAvailable`. */
  function RemoveBoard(g: GameState, boardId: int): (r: GameState)
  {
    g.(availableBoards := Without(g.availableBoards, boardId))
  }

  /** Step 1 of `executeMove`: the target square becomes owned by `player`. */
  function PlaceMark(g: GameState, boardId: int, squareId: int, player: Symbol): (r: GameState)
    requires Shaped(g) && 0 <= boardId < 9 && 0 <= squareId < 9
  {
    var sb := g.board[boardId];
    g.(board := g.board[boardId := sb.(squares := sb.squares[squareId := sb.squares[squareId].(owner := Some(player))])])
  }

  /**
   * `handleSubBoardWinner`: record the sub-board winner, drop the board from
   * `availableBoards`, and end the game if the meta-board now has a line.
   */
  function WinSubBoard(g: GameState, boardId: int, player: Symbol): (r: GameState)
    requires |g.board| == 9 && 0 <= boardId < 9
  {
    var g1 := g.(board := g.board[boardId := g.board[boardId].(winner := Some(player))]);
    var g2 := RemoveBoard(g1, boardId);
    if CheckWinner(MetaBoard(g2.board)) then g2.(winner := Some(player), activeBoard := None) else g2
  }

  /**
   * `handleSubBoardDraw`: mark the sub-board drawn, drop it from
   * `availableBoards`, and draw the game if every sub-board is now terminal.
   */
  function DrawSubBoard(g: GameState, boardId: int): (r: GameState)
    requires |g.board| == 9 && 0 <= boardId < 9
  {
    var g1 := g.(board := g.board[boardId := g.board[boardId].(isDraw := true)]);
    var g2 := RemoveBoard(g1, boardId);
    if AllTerminal(g2.board) then g2.(isDraw := true, activeBoard := None) else g2
  }

  /**
   * `updateGameState`: the next active board is the one named by the square
   * just played if it is still available, and the turn passes.
   */
  function AdvanceTurn(g: GameState, squareId: int): (r: GameState)
  {
    g.(activeBoard := if squareId in g.availableBoards then Some(squareId) else None,
       currentPlayerIndex := (g.currentPlayerIndex + 1) % 2)
  }

  /** `executeMove`: mark, evaluate the sub-board, then update the turn. */
  function ApplyMove(g: GameState, boardId: int, squareId: int, player: Symbol): (r: GameState)
    requires Shaped(g) && 0 <= boardId < 9 && 0 <= squareId < 9
  {
    var g1 := PlaceMark(g, boardId, squareId, player);
    var squares := g1.board[boardId].squares;
    var g2 :=
      if CheckWinner(squares) then WinSubBoard(g1, boardId, player)
      else if CheckDraw(squares) then DrawSubBoard(g1, boardId)
      else g1;
    AdvanceTurn(g2, squareId)
  }

  // ---------------------------------------------------------------------
  // Properties of one move
  // ---------------------------------------------------------------------

  /** The meta-board only reads sub-board ids and winners. */
  lemma MetaBoardReadsWinners(b1: seq<SubBoard>, b2: seq<SubBoard>)
    requires |b1| == |b2|
    requires forall i :: 0 <= i < |b1| ==> b1[i].id == b2[i].id && b1[i].winner == b2[i].winner
    ensures MetaBoard(b1) == MetaBoard(b2)
  {
    assert forall i :: 0 <= i < |b1| ==> MetaBoard(b1)[i] == MetaBoard(b2)[i];
  }

  /**
   * A move changes exactly one square: the target square gets `player` as
   * owner, every other square and every other sub-board keeps its value.
   */
  lemma MoveMarksOnlyTarget(g: GameState, boardId: int, squareId: int, player: Symbol)
    requires Shaped(g) && 0 <= boardId < 9 && 0 <= squareId < 9
    ensures var r := ApplyMove(g, boardId, squareId, player);
      && Shaped(r)
      && r.board[boardId].id == g.board[boardId].id
      && r.board[boardId].squares[squareId] == g.board[boardId].squares[squareId].(owner := Some(player))
      && (forall j :: 0 <= j < 9 && j != squareId ==> r.board[boardId].squares[j] == g.board[boardId].squares[j])
      && (forall i :: 0 <= i < 9 && i != boardId ==> r.board[i] == g.board[i])
  {
  }

  /** The turn index flips between 0 and 1 on every move, game-ending or not. */
  lemma MoveTogglesTurn(g: GameState, boardId: int, squareId: int, player: Symbol)
    requires Shaped(g) && 0 <= boardId < 9 && 0 <= squareId < 9
    requires g.currentPlayerIndex == 0 || g.currentPlayerIndex == 1
    ensures var r := ApplyMove(g, boardId, squareId, player);
      r.currentPlayerIndex == 1 - g.currentPlayerIndex
  {
  }

  /**
   * The next active board is the square just played when that sub-board is
   * still available, and no constraint otherwise; this holds also after a
   * move that wins or draws the whole game.
   */
  lemma MoveSetsActiveBoard(g: GameState, boardId: int, squareId: int, player: Symbol)
    requires Shaped(g) && 0 <= boardId < 9 && 0 <= squareId < 9
    ensures var r := ApplyMove(g, boardId, squareId, player);
      r.activeBoard == if squareId in r.availableBoards then Some(squareId) else None
  {
  }

  /**
   * The played sub-board is won by `player` when the move completes one of its
   * lines, otherwise drawn when it is now full, otherwise still open; it leaves
   * `availableBoards` exactly when it becomes terminal.
   */
  lemma MoveDecidesSubBoard(g: GameState, boardId: int, squareId: int, player: Symbol)
    requires Wf(g) && 0 <= boardId < 9 && 0 <= squareId < 9
    requires MoveAllowed(g, boardId, squareId)
    ensures var r := ApplyMove(g, boardId, squareId, player);
      var sb := r.board[boardId];
      && (CheckWinner(sb.squares) ==>
            sb.winner == Some(player) && !sb.isDraw && boardId !in r.availableBoards)
      && (!CheckWinner(sb.squares) && CheckDraw(sb.squares) ==>
            sb.winner == None && sb.isDraw && boardId !in r.availableBoards)
      && (!CheckWinner(sb.squares) && !CheckDraw(sb.squares) ==>
            sb.winner == None && !sb.isDraw && boardId in r.availableBoards)
  {
    assert boardId in g.availableBoards;
  }

  /**
   * `availableBoards` only shrinks and keeps its order: it loses the played
   * board when that board becomes terminal and is otherwise unchanged.
   */
  lemma MoveShrinksAvailable(g: GameState, boardId: int, squareId: int, player: Symbol)
    requires Wf(g) && 0 <= boardId < 9 && 0 <= squareId < 9
    requires MoveAllowed(g, boardId, squareId)
    ensures var r := ApplyMove(g, boardId, squareId, player);
      && r.availableBoards == (if Terminal(r.board[boardId]) then Without(g.availableBoards, boardId) else g.availableBoards)
      && SubsequenceOf(r.availableBoards, g.availableBoards)
      && |r.availableBoards| == |g.availableBoards| - (if Terminal(r.board[boardId]) then 1 else 0)
  {
    assert boardId in g.availableBoards;
    SubsequenceOfSelf(g.availableBoards);
  }

  lemma {:induction false} SubsequenceOfSelf(xs: seq<int>)
    ensures SubsequenceOf(xs, xs)
  {
    if xs != [] {
      SubsequenceOfSelf(xs[1..]);
    }
  }

  /**
   * The game is won by the mover exactly when the meta-board of sub-board
   * winners has a line after the move.
   */
  lemma MoveDecidesGameWinner(g: GameState, boardId: int, squareId: int, player: Symbol)
    requires Wf(g) && 0 <= boardId < 9 && 0 <= squareId < 9
    requires MoveAllowed(g, boardId, squareId)
    ensures var r := ApplyMove(g, boardId, squareId, player);
      r.winner == if CheckWinner(MetaBoard(r.board)) then Some(player) else None
  {
    var g1 := PlaceMark(g, boardId, squareId, player);
    if !CheckWinner(g1.board[boardId].squares) {
      var r := ApplyMove(g, boardId, squareId, player);
      MetaBoardReadsWinners(r.board, g.board);
    }
  }

  /**
   * The game is drawn after a move exactly when the move draws its sub-board
   * and every sub-board is then terminal; a move that wins the last open
   * sub-board never draws the game.
   */
  lemma MoveDecidesGameDraw(g: GameState, boardId: int, squareId: int, player: Symbol)
    requires Wf(g) && 0 <= boardId < 9 && 0 <= squareId < 9
    requires MoveAllowed(g, boardId, squareId)
    ensures var r := ApplyMove(g, boardId, squareId, player);
      var sq := r.board[boardId].squares;
      r.isDraw <==> !CheckWinner(sq) && CheckDraw(sq) && AllTerminal(r.board)
  {
  }

  /** Every legal move keeps the state invariant. */
  lemma MovePreservesWf(g: GameState, boardId: int, squareId: int, player: Symbol)
    requires Wf(g) && 0 <= boardId < 9 && 0 <= squareId < 9
    requires MoveAllowed(g, boardId, squareId)
    ensures Wf(ApplyMove(g, boardId, squareId, player))
  {
    var r := ApplyMove(g, boardId, squareId, player);
    MoveMarksOnlyTarget(g, boardId, squareId, player);
    MoveDecidesSubBoard(g, boardId, squareId, player);
    MoveShrinksAvailable(g, boardId, squareId, player);
    MoveDecidesGameWinner(g, boardId, squareId, player);
    MoveDecidesGameDraw(g, boardId, squareId, player);
    assert SubBoardWf(r.board[boardId], boardId) by {
      var sb := r.board[boardId];
      forall j | 0 <= j < 9 ensures sb.squares[j].id == j {
        assert g.board[boardId].squares[j].id == j;
      }
    }
    forall i | 0 <= i < 9
      ensures SubBoardWf(r.board[i], i)
      ensures i in r.availableBoards <==> !Terminal(r.board[i])
    {
      if i != boardId {
        assert r.board[i] == g.board[i];
      }
    }
    assert r.currentPlayerIndex == 0 || r.currentPlayerIndex == 1;
    assert Increasing(r.availableBoards);
    assert forall k :: 0 <= k < |r.availableBoards| ==> 0 <= r.availableBoards[k] < 9 by {
      forall k | 0 <= k < |r.availableBoards| ensures 0 <= r.availableBoards[k] < 9 {
        assert r.availableBoards[k] in g.availableBoards;
      }
    }
    assert r.winner.Some? <==> CheckWinner(MetaBoard(r.board));
    assert r.isDraw ==> r.winner == None && AllTerminal(r.board);
    assert r.activeBoard.Some? ==> r.activeBoard.value in r.availableBoards;
  }

  // ---------------------------------------------------------------------
  // Whole-game consequences
  // ---------------------------------------------------------------------

  /** The fresh position satisfies the invariant and every square is a legal first move. */
  lemma DefaultGameStateWf()
    ensures Wf(DefaultGameState())
    ensures forall b, s :: 0 <= b < 9 && 0 <= s < 9 ==> MoveAllowed(DefaultGameState(), b, s)
  {
    var g := DefaultGameState();
    forall i | 0 <= i < 9 ensures SubBoardWf(g.board[i], i) {
      EmptyBoardUndecided(g.board[i].squares);
    }
    EmptyBoardUndecided(MetaBoard(g.board));
    forall i | 0 <= i < 9 ensures i in g.availableBoards {
      assert g.availableBoards[i] == i;
    }
  }

  /** Once the game is over no move is legal. */
  lemma GameOverAllowsNoMove(g: GameState)
    requires Shaped(g) && GameOver(g)
    ensures forall b, s :: 0 <= b < 9 && 0 <= s < 9 ==> !MoveAllowed(g, b, s)
  {
  }

  /** While the game is running and a sub-board is open, some move is legal. */
  lemma OpenGameHasMove(g: GameState)
    requires Wf(g) && !GameOver(g) && |g.availableBoards| > 0
    ensures exists b, s :: 0 <= b < 9 && 0 <= s < 9 && MoveAllowed(g, b, s)
  {
    var b := if g.activeBoard.Some? then g.activeBoard.value else g.availableBoards[0];
    assert b in g.availableBoards;
    assert SubBoardWf(g.board[b], b);
    var squares := g.board[b].squares;
    assert !CheckDraw(squares);
    var s :| 0 <= s < 9 && squares[s].owner == None;
    assert MoveAllowed(g, b, s);
  }

  /**
   * A move that draws the whole game leaves no active board: every sub-board
   * is terminal, so the square just played names no available board.
   */
  lemma DrawingMoveClearsActiveBoard(g: GameState, boardId: int, squareId: int, player: Symbol)
    requires Wf(g) && 0 <= boardId < 9 && 0 <= squareId < 9
    requires MoveAllowed(g, boardId, squareId)
    requires ApplyMove(g, boardId, squareId, player).isDraw
    ensures ApplyMove(g, boardId, squareId, player).activeBoard == None
  {
    var r := ApplyMove(g, boardId, squareId, player);
    MovePreservesWf(g, boardId, squareId, player);
    assert r.board[squareId].winner.Some? || r.board[squareId].isDraw;
  }

  /**
   * Winning the last open sub-board without completing a meta-board line ends
   * in a state that is neither won nor drawn, has no available board, and
   * admits no legal move: the game-level draw is only tested after a
   * sub-board draw.
   */
  lemma WinningLastBoardWithoutLineStalls(g: GameState, boardId: int, squareId: int, player: Symbol)
    requires Wf(g) && 0 <= boardId < 9 && 0 <= squareId < 9
    requires MoveAllowed(g, boardId, squareId)
    requires g.availableBoards == [boardId]
    requires CheckWinner(ApplyMove(g, boardId, squareId, player).board[boardId].squares)
    requires !CheckWinner(MetaBoard(ApplyMove(g, boardId, squareId, player).board))
    ensures var r := ApplyMove(g, boardId, squareId, player);
      && !GameOver(r)
      && r.availableBoards == []
      && AllTerminal(r.board)
      && forall b, s :: 0 <= b < 9 && 0 <= s < 9 ==> !MoveAllowed(r, b, s)
  {
    var r := ApplyMove(g, boardId, squareId, player);
    MoveDecidesSubBoard(g, boardId, squareId, player);
    MoveShrinksAvailable(g, boardId, squareId, player);
    MoveDecidesGameWinner(g, boardId, squareId, player);
    MovePreservesWf(g, boardId, squareId, player);
    assert r.availableBoards == [];
    forall b | 0 <= b < 9 ensures Terminal(r.board[b]) {
      assert b !in r.availableBoards;
    }
  }

  /**
   * The opening move X at sub-board 4, square 0 marks that square, sends the
   * opponent to sub-board 0 and passes the turn to index 1.
   */
  lemma OpeningMoveExample(g: GameState)
    requires g == DefaultGameState()
    ensures var r := ApplyMove(g, 4, 0, X);
      && r.board[4].squares[0].owner == Some(X)
      && r.activeBoard == Some(0)
      && r.currentPlayerIndex == 1
      && r.availableBoards == AllBoards()
  {
    var marked := PlaceMark(g, 4, 0, X);
    var sq := marked.board[4].squares;
    assert forall j :: 1 <= j < 9 ==> sq[j].owner == None;
    assert !CheckWinner(sq) by {
      forall k | 0 <= k < |WinningCombinations()|
        ensures !CombinationOwned(sq, WinningCombinations()[k])
      {
        assert sq[WinningCombinations()[k].b].owner == None;
      }
    }
    assert !CheckDraw(sq) by {
      assert sq[1].owner == None;
    }
    assert ApplyMove(g, 4, 0, X) == AdvanceTurn(marked, 0);
    assert 0 in marked.availableBoards by {
      assert marked.availableBoards[0] == 0;
    }
  }
}
