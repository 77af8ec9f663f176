/** The first version of the search, src/discovery/main.js: Warnsdorf's rule
    with a stable sort by onward-move count and no budget, searching a board
    from a start square and labelling the squares of the tour it finds. */
module Discovery {
  import opened Types
  import opened Grid
  import opened Sorting
  import opened Decimal
  import KT = KnightTour

  const XAxisLabelParts: seq<string> := ["A", "B", "C", "D", "E", "F", "G", "H", "I", "J"]
  const YAxisLabelParts: seq<string> := ["1", "2", "3", "4", "5", "6", "7", "8", "9", "10"]

  /** `${parts[i]}`: an index outside the array reads `undefined`, which the
      template literal prints as that word. */
  function LabelPart(parts: seq<string>, i: int): string {
    if 0 <= i < |parts| then parts[i] else "undefined"
  }

  /** main.js, lines 1-6: the algebraic name of square (x, y). */
  function GetLabel(x: int, y: int): string {
    LabelPart(XAxisLabelParts, x) + LabelPart(YAxisLabelParts, y)
  }

  /** On a board of up to 10 x 10 a label is the file letter followed by the
      rank number y + 1 in decimal. */
  lemma LabelOnBoard(x: int, y: int)
    requires 0 <= x < 10 && 0 <= y < 10
    ensures GetLabel(x, y) == [('A' as int + x) as char] + DecimalString(y + 1)
  {
    FileLabel(x);
    RankLabel(y);
  }

  lemma FileLabel(x: int)
    requires 0 <= x < 10
    ensures LabelPart(XAxisLabelParts, x) == [('A' as int + x) as char]
  {
  }

  lemma RankLabel(y: int)
    requires 0 <= y < 10
    ensures LabelPart(YAxisLabelParts, y) == DecimalString(y + 1)
  {
    if y < 9 {
      assert Digits(y + 1) == [y + 1];
      assert Chars([y + 1]) == Chars([]) + [DigitChar(y + 1)];
    } else {
      assert Digits(10) == Digits(1) + [0];
      assert Chars([1, 0]) == Chars([1]) + [DigitChar(0)];
      assert Chars([1]) == Chars([]) + [DigitChar(1)];
    }
  }

  /** Distinct numbers have distinct decimal strings. */
  lemma DecimalStringInjective(a: nat, b: nat)
    requires DecimalString(a) == DecimalString(b)
    ensures a == b
  {
    ParseDecimalString(a);
    ParseDecimalString(b);
    DigitsValue(a);
    DigitsValue(b);
  }

  /** On a board of up to 10 x 10 two squares share a label only if they are the same square. */
  lemma LabelsDistinct(x1: int, y1: int, x2: int, y2: int)
    requires 0 <= x1 < 10 && 0 <= y1 < 10 && 0 <= x2 < 10 && 0 <= y2 < 10
    ensures GetLabel(x1, y1) == GetLabel(x2, y2) <==> x1 == x2 && y1 == y2
  {
    var l1, l2 := GetLabel(x1, y1), GetLabel(x2, y2);
    if l1 == l2 {
      LabelOnBoard(x1, y1);
      LabelOnBoard(x2, y2);
      assert l1[0] == l2[0];
      assert l1[1..] == DecimalString(y1 + 1) && l2[1..] == DecimalString(y2 + 1);
      DecimalStringInjective(y1 + 1, y2 + 1);
    }
  }

  /** Past the tenth file the label starts with the word `undefined`. */
  lemma LabelOffBoard(x: int, y: int)
    requires x < 0 || 10 <= x
    ensures GetLabel(x, y)[..9] == "undefined"
  {
  }

  /** main.js, line 8: the side of the board the script searches. */
  const Size: nat := 8

  /** main.js, lines 10-19: the prototype's move table, the same eight knight
      offsets as the engine's in another order and without tags. */
  const PossibleKnightMoves: seq<(int, int)> := [
    (-2, -1), (-2, 1), (-1, -2), (-1, 2), (1, -2), (1, 2), (2, -1), (2, 1)
  ]

  /** The table holds exactly the knight's jumps. */
  lemma PrototypeJumps()
    ensures forall dx, dy :: (dx, dy) in PossibleKnightMoves <==> KT.IsKnightJump(dx, dy)
  {
    forall dx, dy | KT.IsKnightJump(dx, dy) ensures (dx, dy) in PossibleKnightMoves {
      var i :=
        if dx == -2 && dy == -1 then 0 else if dx == -2 && dy == 1 then 1
        else if dx == -1 && dy == -2 then 2 else if dx == -1 && dy == 2 then 3
        else if dx == 1 && dy == -2 then 4 else if dx == 1 && dy == 2 then 5
        else if dx == 2 && dy == -1 then 6 else 7;
      assert PossibleKnightMoves[i] == (dx, dy);
    }
  }

  /** Eight distinct offsets, the same as the engine's table without its tags. */
  lemma PrototypeMoveTable()
    ensures |PossibleKnightMoves| == 8
    ensures forall i, j :: 0 <= i < j < 8 ==> PossibleKnightMoves[i] != PossibleKnightMoves[j]
    ensures (set m | m in PossibleKnightMoves) == (set m | m in KT.PossibleKnightMoves :: (m.x, m.y))
  {
    PrototypeJumps();
    var engine := set m | m in KT.PossibleKnightMoves :: (m.x, m.y);
    forall m | m in engine ensures m in PossibleKnightMoves {
      var e :| e in KT.PossibleKnightMoves && m == (e.x, e.y);
      KT.KnightMoveTable();
    }
  }

  /** Each square after the first is a knight's jump from its predecessor; the
      prototype's squares carry coordinates only. */
  ghost predicate JumpWalk(path: seq<Position>) {
    forall i :: 1 <= i < |path| ==> KT.IsKnightJump(path[i].x - path[i - 1].x, path[i].y - path[i - 1].y)
  }

  /** An open knight's tour of a width x height board. */
  ghost predicate FullWalk(width: int, height: int, t: seq<Position>) {
    |t| == width * height && JumpWalk(t) && Distinct(t) && OnBoard(width, height, t)
  }

  /** t begins with the squares of path. */
  ghost predicate Extends(path: seq<Position>, t: seq<Position>) {
    |path| <= |t| && forall i :: 0 <= i < |path| ==> t[i].x == path[i].x && t[i].y == path[i].y
  }

  /** No open tour of the board begins with path. */
  ghost predicate NoTourExtends(width: int, height: int, path: seq<Position>) {
    forall t :: FullWalk(width, height, t) ==> !Extends(path, t)
  }

  /** t goes on from path to the square of `ordered[j]` for some j, and no open
      tour goes on from path to the square of any candidate before it: the
      candidates are tried in the order of `ordered` and the first that leads to
      a tour is taken. */
  ghost predicate FirstSuccess(width: int, height: int, path: seq<Position>, ordered: seq<CandidateMove>, t: seq<Position>) {
    |path| < |t| &&
    exists j :: 0 <= j < |ordered| && t[|path|].x == ordered[j].move.x && t[|path|].y == ordered[j].move.y &&
      forall k :: 0 <= k < j ==> NoTourExtends(width, height, path + [ordered[k].move])
  }

  /** Every walk of engine steps is a walk of knight's jumps. */
  lemma EngineWalkIsJumpWalk(t: seq<Position>)
    requires KT.Walk(t)
    ensures JumpWalk(t)
  {
    forall i | 1 <= i < |t| ensures KT.IsKnightJump(t[i].x - t[i - 1].x, t[i].y - t[i - 1].y) {
      StepIsJump(t[i - 1], t[i]);
    }
  }

  lemma StepIsJump(a: Position, b: Position)
    requires KT.KnightStep(a, b)
    ensures KT.IsKnightJump(b.x - a.x, b.y - a.y)
  {
    var m := b.move.value;
    assert m in KT.PossibleKnightMoves && b.x - a.x == m.x && b.y - a.y == m.y;
  }

  /** An engine tour, without its closing step, is an open tour that visits every square. */
  lemma EngineTourIsOpenTour(kt: KT.KnightTour, t: seq<Position>)
    requires kt.CompleteWalk(t)
    ensures FullWalk(kt.chessboard.width, kt.chessboard.height, t[..kt.Area()])
    ensures Visited(t[..kt.Area()]) == Squares(kt.chessboard.width, kt.chessboard.height)
  {
    var open := t[..kt.Area()];
    forall i | 1 <= i < |open| ensures KT.KnightStep(open[i - 1], open[i]) {
      assert KT.KnightStep(t[i - 1], t[i]);
    }
    EngineWalkIsJumpWalk(open);
    FullPathCovers(kt.chessboard.width, kt.chessboard.height, open);
  }

  /** The square offset m leads to from p: `{ x: newX, y: newY }`, with no label. */
  function Target(p: Position, m: (int, int)): Position {
    Position(p.x + m.0, p.y + m.1, None, None)
  }

  function ValidOne(board: array2<int>, p: Position, m: (int, int)): int
    reads board
  {
    if Free(board, p.x + m.0, p.y + m.1) then 1 else 0
  }

  /** The number of `moves` that lead from p to a free square. */
  function ValidMoveCount(board: array2<int>, p: Position, moves: seq<(int, int)>): (n: nat)
    reads board
    ensures n <= |moves|
  {
    if moves == [] then 0
    else ValidMoveCount(board, p, moves[..|moves| - 1]) + ValidOne(board, p, moves[|moves| - 1])
  }

  lemma ValidMoveCountSnoc(board: array2<int>, p: Position, ms: seq<(int, int)>, k: int)
    requires 0 <= k < |ms|
    ensures ValidMoveCount(board, p, ms[..k + 1]) == ValidMoveCount(board, p, ms[..k]) + ValidOne(board, p, ms[k])
  {
    assert ms[..k + 1][..k] == ms[..k];
  }

  lemma UnrolledCount(board: array2<int>, p: Position)
    ensures var ms := PossibleKnightMoves;
      ValidMoveCount(board, p, ms) ==
      ValidOne(board, p, ms[0]) + ValidOne(board, p, ms[1]) + ValidOne(board, p, ms[2]) + ValidOne(board, p, ms[3]) +
      ValidOne(board, p, ms[4]) + ValidOne(board, p, ms[5]) + ValidOne(board, p, ms[6]) + ValidOne(board, p, ms[7])
  {
    var ms := PossibleKnightMoves;
    assert ValidMoveCount(board, p, ms[..0]) == 0;
    ValidMoveCountSnoc(board, p, ms, 0);
    ValidMoveCountSnoc(board, p, ms, 1);
    ValidMoveCountSnoc(board, p, ms, 2);
    ValidMoveCountSnoc(board, p, ms, 3);
    ValidMoveCountSnoc(board, p, ms, 4);
    ValidMoveCountSnoc(board, p, ms, 5);
    ValidMoveCountSnoc(board, p, ms, 6);
    ValidMoveCountSnoc(board, p, ms, 7);
    assert ms[..8] == ms;
  }

  /** The prototype counts the same onward moves as the engine's degree. */
  lemma CountIsDegree(board: array2<int>, p: Position)
    ensures ValidMoveCount(board, p, PossibleKnightMoves) == KT.FreeCount(board, p, KT.PossibleKnightMoves)
  {
    var ms, es := PossibleKnightMoves, KT.PossibleKnightMoves;
    UnrolledCount(board, p);
    KT.DegreeIsFreeCount(board, p);
    assert ValidOne(board, p, ms[0]) == KT.FreeOne(board, p, es[5]);
    assert ValidOne(board, p, ms[1]) == KT.FreeOne(board, p, es[6]);
    assert ValidOne(board, p, ms[2]) == KT.FreeOne(board, p, es[4]);
    assert ValidOne(board, p, ms[3]) == KT.FreeOne(board, p, es[7]);
    assert ValidOne(board, p, ms[4]) == KT.FreeOne(board, p, es[0]);
    assert ValidOne(board, p, ms[5]) == KT.FreeOne(board, p, es[3]);
    assert ValidOne(board, p, ms[6]) == KT.FreeOne(board, p, es[1]);
    assert ValidOne(board, p, ms[7]) == KT.FreeOne(board, p, es[2]);
  }

  /** `{ move: newPosition, count }`: a square the knight can move to and the
      number of onward moves from it. */
  datatype CandidateMove = CandidateMove(move: Position, count: int)

  function CountKey(c: CandidateMove): int {
    c.count
  }

  /** The candidates of `moves` in order: each move to a free square, with the
      onward count of that square. */
  function Candidates(board: array2<int>, p: Position, moves: seq<(int, int)>): seq<CandidateMove>
    reads board
  {
    if moves == [] then []
    else
      var q := Target(p, moves[|moves| - 1]);
      Candidates(board, p, moves[..|moves| - 1]) +
      (if Free(board, q.x, q.y) then [CandidateMove(q, ValidMoveCount(board, q, PossibleKnightMoves))] else [])
  }

  /** Every candidate is a free square that one of `moves` reaches, with its onward count. */
  lemma {:induction false} CandidatesSound(board: array2<int>, p: Position, moves: seq<(int, int)>)
    ensures forall c :: c in Candidates(board, p, moves) ==>
      (exists m :: m in moves && c.move == Target(p, m)) &&
      Free(board, c.move.x, c.move.y) &&
      c.count == ValidMoveCount(board, c.move, PossibleKnightMoves)
  {
    if moves != [] {
      var n := |moves| - 1;
      CandidatesSound(board, p, moves[..n]);
      assert forall m :: m in moves[..n] ==> m in moves;
      assert moves[n] in moves;
    }
  }

  /** Every move of `moves` that reaches a free square yields a candidate. */
  lemma {:induction false} CandidatesComplete(board: array2<int>, p: Position, moves: seq<(int, int)>)
    ensures forall m :: m in moves && Free(board, p.x + m.0, p.y + m.1) ==>
      CandidateMove(Target(p, m), ValidMoveCount(board, Target(p, m), PossibleKnightMoves)) in Candidates(board, p, moves)
  {
    if moves != [] {
      var n := |moves| - 1;
      CandidatesComplete(board, p, moves[..n]);
      assert moves == moves[..n] + [moves[n]];
    }
  }

  /** The i-th candidate of any reordering of the table's candidates from p is
      a free square a knight's jump away. */
  lemma SortedCandidateFacts(board: array2<int>, p: Position, cands: seq<CandidateMove>, ordered: seq<CandidateMove>, i: int)
    requires cands == Candidates(board, p, PossibleKnightMoves)
    requires multiset(ordered) == multiset(cands) && 0 <= i < |ordered|
    ensures Free(board, ordered[i].move.x, ordered[i].move.y)
    ensures KT.IsKnightJump(ordered[i].move.x - p.x, ordered[i].move.y - p.y)
  {
    assert ordered[i] in multiset(cands);
    CandidateFacts(board, p);
  }

  /** The table's candidates from p are free squares a knight's jump away. */
  lemma CandidateFacts(board: array2<int>, p: Position)
    ensures forall c :: c in Candidates(board, p, PossibleKnightMoves) ==>
      Free(board, c.move.x, c.move.y) && KT.IsKnightJump(c.move.x - p.x, c.move.y - p.y)
  {
    CandidatesSound(board, p, PossibleKnightMoves);
    PrototypeJumps();
    forall c | c in Candidates(board, p, PossibleKnightMoves)
      ensures KT.IsKnightJump(c.move.x - p.x, c.move.y - p.y)
    {
      var m :| m in PossibleKnightMoves && c.move == Target(p, m);
      assert (m.0, m.1) in PossibleKnightMoves;
    }
  }

  /** Labelling a square: `position.label = getLabel(position.x, position.y)`. */
  function Label(p: Position): Position {
    p.(squareLabel := Some(GetLabel(p.x, p.y)))
  }

  /** main.js, line 74: every square of the path, labelled. */
  function Labelled(path: seq<Position>): (r: seq<Position>)
    ensures |r| == |path|
    ensures forall i :: 0 <= i < |r| ==> r[i] == Label(path[i])
  {
    seq(|path|, i requires 0 <= i < |path| => Label(path[i]))
  }

  /** The search state of calculateKnightPath (main.js, lines 26-144): the board it was
      given and its iteration counter. */
  class KnightPathSearch {
    const board: array2<int>
    var iterationCount: int

    constructor (board: array2<int>)
      ensures this.board == board && iterationCount == 0
    {
      this.board := board;
      iterationCount := 0;
    }

    function Area(): nat {
      board.Length0 * board.Length1
    }

    /** A partial path the search extends: a walk of knight's jumps that the
        board records, visit index by visit index. */
    ghost predicate SearchState(path: seq<Position>)
      reads board
    {
      1 <= board.Length0 && 1 <= board.Length1 &&
      1 <= |path| && JumpWalk(path) && Numbered(board, path)
    }

    /** t is a labelled open tour that begins with path and that the board records. */
    ghost predicate Solution(path: seq<Position>, t: seq<Position>)
      reads board
    {
      FullWalk(board.Length0, board.Length1, t) && Extends(path, t) && Numbered(board, t) &&
      forall i :: 0 <= i < |t| ==> t[i].squareLabel == Some(GetLabel(t[i].x, t[i].y))
    }

    /** main.js, lines 40-50. */
    predicate IsValidMove(position: Position)
      requires 1 <= board.Length0
      reads board
      ensures IsValidMove(position) <==> Free(board, position.x, position.y)
    {
      IsValidSquare(board, position.x, position.y)
    }

    /** main.js, lines 52-66: the number of table moves from `position` onto
        free squares, which is the engine's degree of that square. */
    method CalculateNumberOfValidMoves(position: Position) returns (count: int)
      requires 1 <= board.Length0
      ensures count == ValidMoveCount(board, position, PossibleKnightMoves)
      ensures count == KT.FreeCount(board, position, KT.PossibleKnightMoves)
      ensures 0 <= count <= 8
    {
      count := 0;
      var i := 0;
      while i < |PossibleKnightMoves|
        invariant 0 <= i <= |PossibleKnightMoves|
        invariant count == ValidMoveCount(board, position, PossibleKnightMoves[..i])
      {
        var possibleMove := PossibleKnightMoves[i];
        var newPosition := Target(position, possibleMove);
        ValidMoveCountSnoc(board, position, PossibleKnightMoves, i);
        if IsValidMove(newPosition) {
          count := count + 1;
        }
        i := i + 1;
      }
      assert PossibleKnightMoves[..i] == PossibleKnightMoves;
      CountIsDegree(board, position);
    }

    /** main.js, lines 105-118: the candidates from `currentPosition`, in table
        order. */
    method CollectCandidates(currentPosition: Position) returns (candidateMoves: seq<CandidateMove>)
      requires 1 <= board.Length0
      ensures candidateMoves == Candidates(board, currentPosition, PossibleKnightMoves)
    {
      candidateMoves := [];
      var i := 0;
      while i < |PossibleKnightMoves|
        invariant 0 <= i <= |PossibleKnightMoves|
        invariant candidateMoves == Candidates(board, currentPosition, PossibleKnightMoves[..i])
      {
        var possibleMove := PossibleKnightMoves[i];
        var newPosition := Target(currentPosition, possibleMove);
        assert PossibleKnightMoves[..i + 1][..i] == PossibleKnightMoves[..i];
        if IsValidMove(newPosition) {
          var countOfValidMovesFromNewPosition := CalculateNumberOfValidMoves(newPosition);
          candidateMoves := candidateMoves + [CandidateMove(newPosition, countOfValidMovesFromNewPosition)];
        }
        i := i + 1;
      }
      assert PossibleKnightMoves[..i] == PossibleKnightMoves;
    }

    /** main.js, lines 68-137: one call of the search. A path over every square
        is labelled and returned; otherwise the candidates are sorted by onward
        count and tried in that order. The search is exhaustive: it fails only
        when no open tour begins with path, and then the board is as it was. */
    method CalculateNextMove(path: seq<Position>) returns (result: Option<seq<Position>>)
      requires SearchState(path)
      modifies this`iterationCount, board
      decreases Area() - |path|, 2
      ensures iterationCount > old(iterationCount)
      ensures result.None? ==> unchanged(board) && NoTourExtends(board.Length0, board.Length1, path)
      ensures result.Some? ==> Solution(path, result.value) && iterationCount >= old(iterationCount) + Area() - |path| + 1
      ensures result.Some? && |path| < Area() ==>
        FirstSuccess(board.Length0, board.Length1, path,
          old(SortBy(Candidates(board, path[|path| - 1], PossibleKnightMoves), CountKey)), result.value)
    {
      iterationCount := iterationCount + 1;
      PathFits(board.Length0, board.Length1, path) by {
        NumberedDistinct(board, path);
      }
      if |path| == Area() {
        result := Some(Labelled(path));
        LabelledTour(board, path);
        return;
      }
      var candidateMoves := CollectCandidates(path[|path| - 1]);
      result := TryCandidates(path, candidateMoves, SortBy(candidateMoves, CountKey));
    }

    /** main.js, lines 121-136: `sorted` is the candidates sorted by onward
        count; each is tried in turn until one leads to a tour. */
    method TryCandidates(path: seq<Position>, candidateMoves: seq<CandidateMove>, sorted: seq<CandidateMove>)
      returns (result: Option<seq<Position>>)
      requires SearchState(path) && |path| < Area()
      requires candidateMoves == Candidates(board, path[|path| - 1], PossibleKnightMoves)
      requires sorted == SortBy(candidateMoves, CountKey)
      modifies this`iterationCount, board
      decreases Area() - |path|, 1
      ensures iterationCount >= old(iterationCount)
      ensures result.None? ==> unchanged(board) && NoTourExtends(board.Length0, board.Length1, path)
      ensures result.Some? ==> Solution(path, result.value) && iterationCount >= old(iterationCount) + Area() - |path|
      ensures result.Some? ==> FirstSuccess(board.Length0, board.Length1, path, sorted, result.value)
    {
      SortByPermutes(candidateMoves, CountKey);
      var i := 0;
      while i < |sorted|
        invariant 0 <= i <= |sorted|
        invariant iterationCount >= old(iterationCount)
        invariant unchanged(board)
        invariant forall j :: 0 <= j < i ==> NoTourExtends(board.Length0, board.Length1, path + [sorted[j].move])
      {
        var move := sorted[i].move;
        SortedCandidateFacts(board, path[|path| - 1], candidateMoves, sorted, i);
        result := TryMove(path, move);
        if result.Some? {
          assert result.value[|path|].x == sorted[i].move.x && result.value[|path|].y == sorted[i].move.y;
          return;
        }
        i := i + 1;
      }
      NoTourFromCandidates(board, path, candidateMoves, sorted);
      return None;
    }

    /** main.js, lines 124-133: mark the square with its visit index, search on,
        and clear the mark again if that fails. */
    method TryMove(path: seq<Position>, move: Position) returns (result: Option<seq<Position>>)
      requires SearchState(path) && |path| < Area()
      requires Free(board, move.x, move.y)
      requires KT.IsKnightJump(move.x - path[|path| - 1].x, move.y - path[|path| - 1].y)
      modifies this`iterationCount, board
      decreases Area() - |path|, 0
      ensures iterationCount >= old(iterationCount)
      ensures result.None? ==> unchanged(board) && NoTourExtends(board.Length0, board.Length1, path + [move])
      ensures result.Some? ==> Solution(path, result.value) && iterationCount >= old(iterationCount) + Area() - |path|
      ensures result.Some? ==> |path| < |result.value| && result.value[|path|].x == move.x && result.value[|path|].y == move.y
    {
      var next := path + [move];
      board[move.x, move.y] := |path|;
      assert Numbered(board, next) by {
        forall k | 0 <= k < |path|
          ensures board[path[k].x, path[k].y] == k
        {
          assert old(board[path[k].x, path[k].y]) == k;
        }
      }
      assert JumpWalk(next) by {
        forall i | 1 <= i < |next|
          ensures KT.IsKnightJump(next[i].x - next[i - 1].x, next[i].y - next[i - 1].y)
        {
          if i < |path| {
            assert next[i] == path[i] && next[i - 1] == path[i - 1];
          }
        }
      }
      result := CalculateNextMove(next);
      if result.Some? {
        assert Extends(path, result.value) by {
          assert forall k :: 0 <= k < |path| ==> next[k] == path[k];
        }
        assert next[|path|] == move;
      } else {
        board[move.x, move.y] := Unvisited;
      }
    }

    /** main.js, lines 26-32 and 139-143: mark the start square with visit index
        0 and search from it. A found tour starts on the start square; when none
        is found no open tour of the board starts there, and the board still
        records only the start square. */
    method CalculateKnightPath(startX: int, startY: int) returns (solution: Option<seq<Position>>)
      requires 1 <= board.Length0 && 1 <= board.Length1
      requires 0 <= startX < board.Length0 && 0 <= startY < board.Length1
      requires forall x, y :: 0 <= x < board.Length0 && 0 <= y < board.Length1 ==> board[x, y] == Unvisited
      modifies this`iterationCount, board
      ensures 1 <= iterationCount
      ensures solution.Some? ==>
        Solution([Position(startX, startY, None, None)], solution.value) &&
        solution.value[0].x == startX && solution.value[0].y == startY
      ensures solution.None? ==>
        Numbered(board, [Position(startX, startY, None, None)]) &&
        NoTourExtends(board.Length0, board.Length1, [Position(startX, startY, None, None)])
    {
      var path := [Position(startX, startY, None, None)];
      board[startX, startY] := 0;
      iterationCount := 0;
      solution := CalculateNextMove(path);
    }
  }

  /** A path over every square, labelled, is a labelled open tour that begins
      with the path and that the board records as it records the path. */
  lemma LabelledTour(board: array2<int>, path: seq<Position>)
    requires Numbered(board, path) && JumpWalk(path) && |path| == board.Length0 * board.Length1
    ensures var t := Labelled(path);
      FullWalk(board.Length0, board.Length1, t) && Extends(path, t) && Numbered(board, t) &&
      forall i :: 0 <= i < |t| ==> t[i].squareLabel == Some(GetLabel(t[i].x, t[i].y))
  {
    var t := Labelled(path);
    NumberedDistinct(board, path);
    assert forall i :: 0 <= i < |t| ==> t[i].x == path[i].x && t[i].y == path[i].y;
  }

  /** No tour begins with path when every candidate extension has none: a tour's
      next square is a free knight's jump from the last square, hence a candidate. */
  lemma NoTourFromCandidates(board: array2<int>, path: seq<Position>, cands: seq<CandidateMove>, ordered: seq<CandidateMove>)
    requires 1 <= |path| < board.Length0 * board.Length1 && Numbered(board, path)
    requires cands == Candidates(board, path[|path| - 1], PossibleKnightMoves)
    requires multiset(ordered) == multiset(cands)
    requires forall j :: 0 <= j < |ordered| ==> NoTourExtends(board.Length0, board.Length1, path + [ordered[j].move])
    ensures NoTourExtends(board.Length0, board.Length1, path)
  {
    var w, h := board.Length0, board.Length1;
    forall t | FullWalk(w, h, t) ensures !Extends(path, t) {
      if Extends(path, t) {
        NextSquareFree(board, path, t);
        var j := NextCandidate(board, path, t, cands, ordered);
      }
    }
  }

  /** The candidate that leads to a tour's next square. */
  lemma NextCandidate(board: array2<int>, path: seq<Position>, t: seq<Position>, cands: seq<CandidateMove>, ordered: seq<CandidateMove>)
    returns (j: int)
    requires 1 <= |path| < |t|
    requires cands == Candidates(board, path[|path| - 1], PossibleKnightMoves)
    requires multiset(ordered) == multiset(cands)
    requires Extends(path, t)
    requires Free(board, t[|path|].x, t[|path|].y)
    requires KT.IsKnightJump(t[|path|].x - path[|path| - 1].x, t[|path|].y - path[|path| - 1].y)
    ensures 0 <= j < |ordered| && Extends(path + [ordered[j].move], t)
  {
    var n := |path|;
    var last := path[n - 1];
    var c := CandidateFor(board, last, t[n]);
    assert c in multiset(ordered);
    j :| 0 <= j < |ordered| && ordered[j] == c;
    var next := path + [c.move];
    assert forall i :: 0 <= i < n ==> next[i] == path[i];
  }

  /** A free square a knight's jump from p is the square of one of p's candidates. */
  lemma CandidateFor(board: array2<int>, p: Position, q: Position) returns (c: CandidateMove)
    requires Free(board, q.x, q.y) && KT.IsKnightJump(q.x - p.x, q.y - p.y)
    ensures c in Candidates(board, p, PossibleKnightMoves) && c.move.x == q.x && c.move.y == q.y
  {
    var m := (q.x - p.x, q.y - p.y);
    PrototypeJumps();
    assert m in PossibleKnightMoves;
    CandidatesComplete(board, p, PossibleKnightMoves);
    c := CandidateMove(Target(p, m), ValidMoveCount(board, Target(p, m), PossibleKnightMoves));
  }

  /** The square a tour visits after path is a free knight's jump from path's last square. */
  lemma NextSquareFree(board: array2<int>, path: seq<Position>, t: seq<Position>)
    requires 1 <= |path| < board.Length0 * board.Length1 && Numbered(board, path)
    requires FullWalk(board.Length0, board.Length1, t) && Extends(path, t)
    ensures Free(board, t[|path|].x, t[|path|].y)
    ensures KT.IsKnightJump(t[|path|].x - path[|path| - 1].x, t[|path|].y - path[|path| - 1].y)
  {
    var n := |path|;
    assert KT.IsKnightJump(t[n].x - t[n - 1].x, t[n].y - t[n - 1].y);
  }

  /** main.js, lines 22 and 146: the script searches a fresh 8 x 8 board from
      square (3, 5). */
  method SearchFromD6() returns (solution: Option<seq<Position>>)
    ensures solution.Some? ==>
      FullWalk(Size, Size, solution.value) && solution.value[0].x == 3 && solution.value[0].y == 5 &&
      forall i :: 0 <= i < |solution.value| ==>
        solution.value[i].squareLabel == Some(GetLabel(solution.value[i].x, solution.value[i].y))
    ensures solution.None? ==> NoTourExtends(Size, Size, [Position(3, 5, None, None)])
  {
    var board := new int[Size, Size]((x, y) => Unvisited);
    var search := new KnightPathSearch(board);
    solution := search.CalculateKnightPath(3, 5);
  }
}
