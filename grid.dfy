/** Facts about a board as a grid of visit indices and about paths laid on it:
    the validity test shared by the search engine and the prototype, the
    numbering that ties a board to a path, and the counting arguments that bound
    a path by the board's area. */
module Grid {
  import opened Types

  predicate InBounds(board: array2<int>, x: int, y: int) {
    0 <= x < board.Length0 && 0 <= y < board.Length1
  }

  /** In bounds and not visited. */
  predicate Free(board: array2<int>, x: int, y: int)
    reads board
  {
    InBounds(board, x, y) && board[x, y] == Unvisited
  }

  /** The validity test as the source writes it: the upper bounds are compared
      with `>`, so x == width or y == height pass the first test and are only
      rejected because the lookup is `undefined` rather than `null`. The source
      reads the height as the length of column 0, so it needs one column. */
  predicate IsValidSquare(board: array2<int>, x: int, y: int)
    reads board
    requires board.Length0 >= 1
    ensures IsValidSquare(board, x, y) <==> Free(board, x, y)
  {
    if x < 0 || x > board.Length0 || y < 0 || y > board.Length1 then
      false
    else
      CellAt(board, x, y) == Null
  }

  /** Path squares are pairwise distinct. */
  ghost predicate Distinct(path: seq<Position>) {
    forall i, j :: 0 <= i < j < |path| ==> (path[i].x, path[i].y) != (path[j].x, path[j].y)
  }

  ghost predicate OnBoard(width: int, height: int, path: seq<Position>) {
    forall i :: 0 <= i < |path| ==> 0 <= path[i].x < width && 0 <= path[i].y < height
  }

  /** The board records exactly the path: square path[i] holds i, and every
      other square holds Unvisited. */
  ghost predicate Numbered(board: array2<int>, path: seq<Position>)
    reads board
  {
    (forall i :: 0 <= i < |path| ==>
       InBounds(board, path[i].x, path[i].y) && board[path[i].x, path[i].y] == i) &&
    (forall x, y :: 0 <= x < board.Length0 && 0 <= y < board.Length1 && board[x, y] != Unvisited ==>
       0 <= board[x, y] < |path| && path[board[x, y]].x == x && path[board[x, y]].y == y)
  }

  /** Square (x, y) is on the board and the path does not visit it. */
  ghost predicate OffPath(board: array2<int>, path: seq<Position>, x: int, y: int) {
    InBounds(board, x, y) && forall k :: 0 <= k < |path| ==> (path[k].x, path[k].y) != (x, y)
  }

  /** A square of the board that the path does not visit is free. */
  lemma FreeOffPath(board: array2<int>, path: seq<Position>, x: int, y: int)
    requires Numbered(board, path)
    ensures OffPath(board, path, x, y) ==> Free(board, x, y)
  {
  }

  lemma NumberedDistinct(board: array2<int>, path: seq<Position>)
    requires Numbered(board, path)
    ensures Distinct(path) && OnBoard(board.Length0, board.Length1, path)
  {
    forall i, j | 0 <= i < j < |path|
      ensures (path[i].x, path[i].y) != (path[j].x, path[j].y)
    {
      assert board[path[i].x, path[i].y] == i;
      assert board[path[j].x, path[j].y] == j;
    }
  }

  ghost function Squares(width: int, height: int): set<(int, int)> {
    set x, y | 0 <= x < width && 0 <= y < height :: (x, y)
  }

  ghost function Column(x: int, height: int): set<(int, int)> {
    set y | 0 <= y < height :: (x, y)
  }

  lemma {:induction false} ColumnSize(x: int, height: nat)
    ensures |Column(x, height)| == height
  {
    if height == 0 {
      assert Column(x, 0) == {};
    } else {
      ColumnSize(x, height - 1);
      assert Column(x, height) == Column(x, height - 1) + {(x, height - 1)};
      assert (x, height - 1) !in Column(x, height - 1);
    }
  }

  /** A width x height board has width * height squares. */
  lemma {:induction false} SquaresSize(width: nat, height: nat)
    ensures |Squares(width, height)| == width * height
  {
    if width == 0 {
      assert Squares(0, height) == {};
    } else {
      SquaresSize(width - 1, height);
      AddSquareColumn(width, height);
      ColumnSize(width - 1, height);
      assert (width - 1) * height + height == width * height;
    }
  }

  lemma AddSquareColumn(width: nat, height: nat)
    requires width >= 1
    ensures |Squares(width, height)| == |Squares(width - 1, height)| + |Column(width - 1, height)|
  {
    var rest, col := Squares(width - 1, height), Column(width - 1, height);
    assert Squares(width, height) == rest + col;
    assert rest * col == {};
    assert |rest + col| == |rest| + |col|;
  }

  ghost function Visited(path: seq<Position>): set<(int, int)> {
    set i | 0 <= i < |path| :: (path[i].x, path[i].y)
  }

  lemma {:induction false} VisitedSize(path: seq<Position>)
    requires Distinct(path)
    ensures |Visited(path)| == |path|
  {
    if path != [] {
      var n := |path| - 1;
      var front := path[..n];
      assert Distinct(front);
      VisitedSize(front);
      assert Visited(path) == Visited(front) + {(path[n].x, path[n].y)};
      assert (path[n].x, path[n].y) !in Visited(front);
    }
  }

  /** A path of distinct squares on the board is no longer than the board's area. */
  lemma PathFits(width: nat, height: nat, path: seq<Position>)
    requires Distinct(path) && OnBoard(width, height, path)
    ensures |path| <= width * height
  {
    VisitedSize(path);
    SquaresSize(width, height);
    VisitedWithin(width, height, path);
    var v, s := Visited(path), Squares(width, height);
    assert |s - v| == |s| - |v|;
  }

  /** A path of distinct squares as long as the board's area visits every square. */
  lemma FullPathCovers(width: nat, height: nat, path: seq<Position>)
    requires Distinct(path) && OnBoard(width, height, path) && |path| == width * height
    ensures Visited(path) == Squares(width, height)
  {
    VisitedSize(path);
    SquaresSize(width, height);
    var v, s := Visited(path), Squares(width, height);
    VisitedWithin(width, height, path);
    assert |s - v| == |s| - |v|;
    assert s - v == {};
  }

  lemma VisitedWithin(width: int, height: int, path: seq<Position>)
    requires OnBoard(width, height, path)
    ensures Visited(path) <= Squares(width, height)
  {
    forall p | p in Visited(path) ensures p in Squares(width, height) {
      var i :| 0 <= i < |path| && p == (path[i].x, path[i].y);
    }
  }
}
