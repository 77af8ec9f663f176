/** Shared entities of the knight's-tour search: moves, positions, the chessboard
    and the configuration and outcome records of a search (src/types.ts). */
module Types {

  datatype Option<T> = None | Some(value: T)

  /** A knight offset (x, y) with its fixed identity tag `order` in 1..8; the tag is
      what custom move orderings and move-ordering tie-breaks refer to. */
  datatype Move = Move(x: int, y: int, order: int)

  /** A square of a path; `move` is the offset that reached it (None for the start
      square), `squareLabel` its algebraic name (the source field `label`) once one has been assigned. */
  datatype Position = Position(x: int, y: int, move: Option<Move>, squareLabel: Option<string>)

  datatype Algorithm = BruteForce | Warnsdorf | MoveOrdering

  datatype TieBreakMethod =
    | First
    | Random
    | Pohl
    | ClosestToCenter
    | FurthestFromCenter
    | MoveOrderingTieBreak

  /** The cell value standing for `null`: a square not visited yet. Visited
      squares hold their 0-based visit index. */
  const Unvisited: int := -1

  /** What `board[x]?.[y]` evaluates to: `undefined` off the grid, otherwise the
      cell's `null` or number. */
  datatype CellValue = Undefined | Null | Index(i: int)

  function CellAt(board: array2<int>, x: int, y: int): (c: CellValue)
    reads board
    ensures c.Undefined? <==> !(0 <= x < board.Length0 && 0 <= y < board.Length1)
    ensures c.Null? <==> 0 <= x < board.Length0 && 0 <= y < board.Length1 && board[x, y] == Unvisited
  {
    if 0 <= x < board.Length0 && 0 <= y < board.Length1 then
      (if board[x, y] == Unvisited then Null else Index(board[x, y]))
    else
      Undefined
  }

  /** A `width` x `height` grid of visit indices, indexed `board[x, y]`. */
  class Chessboard {
    const width: nat
    const height: nat
    const board: array2<int>

    predicate Valid() {
      board.Length0 == width && board.Length1 == height
    }

    constructor (width: nat, height: nat)
      ensures this.width == width && this.height == height
      ensures Valid() && fresh(board)
      ensures forall x, y :: 0 <= x < width && 0 <= y < height ==> board[x, y] == Unvisited
    {
      this.width := width;
      this.height := height;
      board := new int[width, height]((x, y) => Unvisited);
    }
  }

  datatype KnightTourConfig = KnightTourConfig(
    startX: int,
    startY: int,
    chessboard: Chessboard,
    iterationLimit: int,
    attemptLimit: int,
    closedTour: bool,
    algorithm: Algorithm,
    tieBreakMethod: TieBreakMethod,
    moveOrdering: nat)

  /** The status reported with a result, with the counts the message carries. */
  datatype Message =
    | OddBoardOddStart
    | OddBoardClosedTour
    | TourCompleted(iterations: int, attempt: int, totalIterations: int)
    | NoSolution(attempts: int, totalIterations: int)

  datatype KnightTourOutput = KnightTourOutput(
    chessboard: Option<Chessboard>,
    path: Option<seq<Position>>,
    success: bool,
    message: Message)
}
