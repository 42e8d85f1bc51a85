/**
 * The rules engine (utils/gameUtils.ts): the eight winning lines of a 3x3
 * grid, the win and draw tests used for sub-boards and for the meta-board,
 * and the fresh position of a new game.
 */
module GameUtils {
  import opened TicTacToeTypes

  /** Three square indices of a 3x3 grid, numbered row by row from 0 to 8. */
  datatype Combination = Combination(a: int, b: int, c: int)

  /** The fixed table of winning triples: three rows, three columns, two diagonals. */
  function WinningCombinations(): (cs: seq<Combination>)
    ensures |cs| == 8
    ensures forall k :: 0 <= k < |cs| ==> 0 <= cs[k].a < cs[k].b < cs[k].c < 9
    ensures forall k, l :: 0 <= k < l < |cs| ==> cs[k] != cs[l]
  {
    [ Combination(0, 1, 2),
      Combination(3, 4, 5),
      Combination(6, 7, 8),
      Combination(0, 3, 6),
      Combination(1, 4, 7),
      Combination(2, 5, 8),
      Combination(0, 4, 8),
      Combination(2, 4, 6) ]
  }

  /** Row and column of a square index on the 3x3 grid. */
  function Row(i: int): (r: int) { i / 3 }
  function Col(i: int): (c: int) { i % 3 }

  /**
   * Geometric reference definition of a line: three distinct cells that share
   * a row, share a column, lie on the main diagonal, or lie on the
   * anti-diagonal.
   */
  predicate IsLine(a: int, b: int, c: int)
    requires 0 <= a < b < c < 9
  {
    || (Row(a) == Row(b) == Row(c))
    || (Col(a) == Col(b) == Col(c))
    || (Row(a) == Col(a) && Row(b) == Col(b) && Row(c) == Col(c))
    || (Row(a) + Col(a) == 2 && Row(b) + Col(b) == 2 && Row(c) + Col(c) == 2)
  }

  /** The three squares are owned, and by the same symbol. */
  predicate LineOwned(squares: seq<Square>, a: int, b: int, c: int)
    requires 0 <= a < |squares| && 0 <= b < |squares| && 0 <= c < |squares|
  {
    && squares[a].owner.Some?
    && squares[b].owner.Some?
    && squares[c].owner.Some?
    && squares[a].owner.value == squares[b].owner.value
    && squares[a].owner.value == squares[c].owner.value
  }

  predicate CombinationOwned(squares: seq<Square>, comb: Combination)
    requires |squares| == 9
    requires 0 <= comb.a < 9 && 0 <= comb.b < 9 && 0 <= comb.c < 9
  {
    LineOwned(squares, comb.a, comb.b, comb.c)
  }

  /** `checkWinner`: some winning combination is owned by one symbol. */
  predicate CheckWinner(squares: seq<Square>)
    requires |squares| == 9
  {
    exists k | 0 <= k < |WinningCombinations()| :: CombinationOwned(squares, WinningCombinations()[k])
  }

  /** `checkDraw`: every square has an owner; lines are not looked at. */
  predicate CheckDraw(squares: seq<Square>)
  {
    forall i | 0 <= i < |squares| :: squares[i].owner.Some?
  }

  /** Number of owned squares. */
  function OwnedCount(squares: seq<Square>): (n: nat)
    ensures n <= |squares|
  {
    if squares == [] then 0
    else (if squares[0].owner.Some? then 1 else 0) + OwnedCount(squares[1..])
  }

  /** `createInitialBoard`: nine empty, undecided sub-boards of nine empty squares. */
  function CreateInitialBoard(): (board: seq<SubBoard>)
    ensures |board| == 9
    ensures forall i :: 0 <= i < 9 ==>
      && board[i].id == i
      && board[i].winner == None
      && !board[i].isDraw
      && |board[i].squares| == 9
    ensures forall i, j :: 0 <= i < 9 && 0 <= j < 9 ==>
      board[i].squares[j] == Square(j, None, false)
  {
    seq(9, boardId => SubBoard(boardId, seq(9, squareId => Square(squareId, None, false)), None, false))
  }

  /** The nine board indices in increasing order. */
  function AllBoards(): (ids: seq<int>)
    ensures |ids| == 9 && forall i :: 0 <= i < 9 ==> ids[i] == i
  {
    [0, 1, 2, 3, 4, 5, 6, 7, 8]
  }

  /** `getDefaultGameState`: X to move, nothing decided, every board open. */
  function DefaultGameState(): (g: GameState)
    ensures g.currentPlayerIndex == 0
    ensures g.winner == None && !g.isDraw && g.activeBoard == None
    ensures g.availableBoards == AllBoards() && g.previewNextBoard == []
    ensures g.board == CreateInitialBoard()
  {
    GameState(
      currentPlayerIndex := 0,
      winner := None,
      isDraw := false,
      activeBoard := None,
      availableBoards := AllBoards(),
      previewNextBoard := [],
      board := CreateInitialBoard())
  }

  // ---------------------------------------------------------------------
  // Properties of the rules engine
  // ---------------------------------------------------------------------

  /** The table holds exactly the geometric lines of the grid. */
  lemma {:induction false} CombinationsAreLines(a: int, b: int, c: int)
    requires 0 <= a < b < c < 9
    ensures IsLine(a, b, c) <==> Combination(a, b, c) in WinningCombinations()
  {
  }

  /**
   * `checkWinner` holds exactly when some geometric line of the grid is owned
   * by a single symbol.
   */
  lemma CheckWinnerIffLine(squares: seq<Square>)
    requires |squares| == 9
    ensures CheckWinner(squares) <==>
      exists a, b, c :: 0 <= a < b < c < 9 && IsLine(a, b, c) && LineOwned(squares, a, b, c)
  {
    var cs := WinningCombinations();
    if CheckWinner(squares) {
      var k :| 0 <= k < |cs| && CombinationOwned(squares, cs[k]);
      CombinationsAreLines(cs[k].a, cs[k].b, cs[k].c);
    }
    if exists a, b, c :: 0 <= a < b < c < 9 && IsLine(a, b, c) && LineOwned(squares, a, b, c) {
      var a, b, c :| 0 <= a < b < c < 9 && IsLine(a, b, c) && LineOwned(squares, a, b, c);
      CombinationsAreLines(a, b, c);
      var k :| 0 <= k < |cs| && cs[k] == Combination(a, b, c);
      assert CombinationOwned(squares, cs[k]);
    }
  }

  lemma {:induction false} OwnedCountAppend(s: seq<Square>, t: seq<Square>)
    ensures OwnedCount(s + t) == OwnedCount(s) + OwnedCount(t)
  {
    if s != [] {
      assert (s + t)[0] == s[0] && (s + t)[1..] == s[1..] + t;
      OwnedCountAppend(s[1..], t);
    } else {
      assert s + t == t;
    }
  }

  /** An owned square contributes one to the count of its board. */
  lemma OwnedCountSplit(s: seq<Square>, i: int)
    requires 0 <= i < |s| && s[i].owner.Some?
    ensures OwnedCount(s) == OwnedCount(s[..i]) + 1 + OwnedCount(s[i + 1..])
  {
    assert s == s[..i] + [s[i]] + s[i + 1..];
    OwnedCountAppend(s[..i] + [s[i]], s[i + 1..]);
    OwnedCountAppend(s[..i], [s[i]]);
  }

  /** `checkDraw` holds exactly when every square is counted as owned. */
  lemma {:induction false} CheckDrawIffAllOwned(squares: seq<Square>)
    ensures CheckDraw(squares) <==> OwnedCount(squares) == |squares|
  {
    if squares != [] {
      CheckDrawIffAllOwned(squares[1..]);
      if CheckDraw(squares[1..]) && squares[0].owner.Some? {
        forall i | 0 <= i < |squares| ensures squares[i].owner.Some? {
          if i > 0 { assert squares[i] == squares[1..][i - 1]; }
        }
      }
      if CheckDraw(squares) {
        forall i | 0 <= i < |squares[1..]| ensures squares[1..][i].owner.Some? {
          assert squares[1..][i] == squares[i + 1];
        }
      }
    }
  }

  /** A winning board has at least three owned squares. */
  lemma WinnerNeedsThreeOwned(squares: seq<Square>)
    requires |squares| == 9
    ensures OwnedCount(squares) < 3 ==> !CheckWinner(squares)
  {
    if CheckWinner(squares) {
      CheckWinnerIffLine(squares);
      var a, b, c :| 0 <= a < b < c < 9 && IsLine(a, b, c) && LineOwned(squares, a, b, c);
      OwnedCountSplit(squares, c);
      var front := squares[..c];
      assert front[b] == squares[b] && front[a] == squares[a];
      OwnedCountSplit(front, b);
      assert front[..b][a] == squares[a];
      OwnedCountSplit(front[..b], a);
    }
  }

  /** A board without owned squares is neither won nor drawn. */
  lemma EmptyBoardUndecided(squares: seq<Square>)
    requires |squares| == 9
    requires forall i :: 0 <= i < 9 ==> squares[i].owner == None
    ensures !CheckWinner(squares) && !CheckDraw(squares)
  {
    assert squares[0].owner == None;
  }

  /** Both tests look at owners only: ids and hover flags are irrelevant. */
  lemma TestsReadOnlyOwners(s: seq<Square>, t: seq<Square>)
    requires |s| == 9 && |t| == 9
    requires forall i :: 0 <= i < 9 ==> s[i].owner == t[i].owner
    ensures CheckWinner(s) == CheckWinner(t)
    ensures CheckDraw(s) == CheckDraw(t)
  {
  }

  /** A full board counts as a draw even when it also holds a winning line. */
  lemma DrawIgnoresLines()
    ensures var full := seq(9, i => Square(i, Some(X), false));
      CheckWinner(full) && CheckDraw(full)
  {
    var full := seq(9, i => Square(i, Some(X), false));
    assert CombinationOwned(full, WinningCombinations()[0]);
  }
}
