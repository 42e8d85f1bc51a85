/**
 * The data model shared by the rules engine, the room and the room registry:
 * symbols, squares, sub-boards and the whole game state of one room.
 */
module TicTacToeTypes {

  /** The two marks a seated player can hold. */
  datatype Symbol = X | O

  /** The conventional Some/None wrapper, standing for a nullable field. */
  datatype Option<T> = None | Some(value: T)

  /** The other symbol. */
  function Opposite(s: Symbol): (r: Symbol)
    ensures r != s
  {
    if s == X then O else X
  }

  /**
   * One square of a sub-board. A `Player` record only carries its symbol, so an
   * owner is an optional symbol. `hovered` is a presentation flag that the
   * server never reads.
   */
  datatype Square = Square(id: int, owner: Option<Symbol>, hovered: bool)

  /** One of the nine small boards. */
  datatype SubBoard = SubBoard(id: int, squares: seq<Square>, winner: Option<Symbol>, isDraw: bool)

  /**
   * The authoritative position of one room. `activeBoard == None` means that
   * the mover may pick any board in `availableBoards`. `previewNextBoard` is a
   * presentation hint the server never reads.
   */
  datatype GameState = GameState(
    currentPlayerIndex: int,
    winner: Option<Symbol>,
    isDraw: bool,
    activeBoard: Option<int>,
    availableBoards: seq<int>,
    previewNextBoard: seq<int>,
    board: seq<SubBoard>)
}
