/** The colouring argument behind the two early rejections of solveKnightTour
    (src/knightTour.ts lines 367-373): a knight always moves to a square of the
    other colour, so a closed tour needs an even number of squares, and an open
    tour of an odd board must start on the colour with more squares. */
module Parity {
  import opened Types
  import opened Grid
  import opened KnightTour

  /** 0 for the colour of (0, 0), 1 for the other. */
  function Colour(x: int, y: int): int {
    (x + y) % 2
  }

  lemma StepFlipsColour(a: Position, b: Position)
    requires KnightStep(a, b)
    ensures Colour(b.x, b.y) == 1 - Colour(a.x, a.y)
  {
    var m := b.move.value;
    assert m.x + m.y in {-3, -1, 1, 3};
  }

  /** The square a walk reaches after i steps has the start's colour exactly when i is even. */
  lemma {:induction false} WalkColour(t: seq<Position>, i: nat)
    requires Walk(t) && i < |t|
    ensures Colour(t[i].x, t[i].y) == (Colour(t[0].x, t[0].y) + i) % 2
  {
    if i > 0 {
      WalkColour(t, i - 1);
      StepFlipsColour(t[i - 1], t[i]);
    }
  }

  /** A closed walk returns to its first square after Area steps, and a knight
      changes colour on every step, so Area is even. */
  lemma ClosedWalkHasEvenArea(kt: KnightTour, t: seq<Position>)
    requires kt.CompleteWalk(t) && kt.closedTour
    ensures kt.Area() % 2 == 0
  {
    WalkColour(t, kt.Area());
  }

  /** So the second rejection is sound: no closed tour exists on an odd board. */
  lemma ClosedTourNeedsEvenArea(kt: KnightTour, t: seq<Position>)
    requires kt.OddBoardClosedTourCase()
    ensures !kt.CompleteWalk(t)
  {
    if kt.CompleteWalk(t) {
      ClosedWalkHasEvenArea(kt, t);
    }
  }

  ghost function DarkColumn(x: int, h: int): set<(int, int)> {
    set y | 0 <= y < h && Colour(x, y) == 1 :: (x, y)
  }

  ghost function DarkSquares(w: int, h: int): set<(int, int)> {
    set x, y | 0 <= x < w && 0 <= y < h && Colour(x, y) == 1 :: (x, y)
  }

  lemma {:induction false} DarkColumnSize(x: int, h: nat)
    ensures |DarkColumn(x, h)| == if x % 2 == 0 then h / 2 else (h + 1) / 2
  {
    if h == 0 {
      assert DarkColumn(x, 0) == {};
    } else {
      DarkColumnSize(x, h - 1);
      DarkColumnStep(x, h);
    }
  }

  lemma DarkColumnStep(x: int, h: nat)
    requires h >= 1
    ensures |DarkColumn(x, h)| == |DarkColumn(x, h - 1)| + (if Colour(x, h - 1) == 1 then 1 else 0)
  {
    if Colour(x, h - 1) == 1 {
      assert DarkColumn(x, h) == DarkColumn(x, h - 1) + {(x, h - 1)};
      assert (x, h - 1) !in DarkColumn(x, h - 1);
    } else {
      assert DarkColumn(x, h) == DarkColumn(x, h - 1);
    }
  }

  /** Column w - 1 adds its own squares of colour 1. */
  lemma AddColumn(w: nat, h: nat)
    requires w >= 1
    ensures |DarkSquares(w, h)| == |DarkSquares(w - 1, h)| + |DarkColumn(w - 1, h)|
  {
    var rest, col := DarkSquares(w - 1, h), DarkColumn(w - 1, h);
    assert DarkSquares(w, h) == rest + col;
    assert rest * col == {};
    assert |rest + col| == |rest| + |col|;
  }

  /** Two more columns add h squares of colour 1, one from each column's pairs. */
  lemma TwoMoreColumns(w: nat, h: nat)
    requires w >= 2
    ensures |DarkSquares(w, h)| == |DarkSquares(w - 2, h)| + h
  {
    AddColumn(w, h);
    AddColumn(w - 1, h);
    DarkColumnSize(w - 2, h);
    DarkColumnSize(w - 1, h);
  }

  /** An odd board has one square fewer of colour 1 than of colour 0. */
  lemma {:induction false} OddBoardDarkSquares(w: nat, h: nat)
    requires w % 2 == 1 && h % 2 == 1
    ensures 2 * |DarkSquares(w, h)| + 1 == w * h
  {
    if w == 1 {
      DarkColumnSize(0, h);
      assert DarkSquares(1, h) == DarkColumn(0, h);
    } else {
      OddBoardDarkSquares(w - 2, h);
      TwoMoreColumns(w, h);
      MulStep(w, h);
    }
  }

  lemma MulStep(w: int, h: int)
    ensures w * h == (w - 2) * h + 2 * h
  {
  }

  lemma EvenShift(p: int, h: int)
    ensures (p + 2 * h) % 2 == p % 2
  {
  }

  /** A product is odd exactly when both factors are. */
  lemma {:induction false} ProductParity(w: nat, h: nat)
    ensures (w * h) % 2 == (if w % 2 == 1 && h % 2 == 1 then 1 else 0)
  {
    if w >= 2 {
      ProductParity(w - 2, h);
      MulStep(w, h);
      EvenShift((w - 2) * h, h);
      EvenShift(w - 2, 1);
    } else if w == 1 {
      assert w * h == h;
    } else {
      assert w * h == 0;
    }
  }

  /** The squares a path visits at even steps. */
  ghost function EvenSteps(t: seq<Position>, n: nat): (e: seq<Position>)
    requires n <= |t|
    ensures |e| == (n + 1) / 2
    ensures forall k :: 0 <= k < |e| ==> e[k] == t[2 * k]
  {
    if n == 0 then [] else if n % 2 == 1 then EvenSteps(t, n - 1) + [t[n - 1]] else EvenSteps(t, n - 1)
  }

  /** A walk of distinct squares on a w x h board that starts on colour 1 has
      (n + 1) / 2 even steps, all distinct and all of colour 1. */
  lemma EvenStepsFit(t: seq<Position>, n: nat, w: int, h: int)
    requires Walk(t) && 1 <= n <= |t|
    requires Distinct(t[..n]) && OnBoard(w, h, t[..n]) && Colour(t[0].x, t[0].y) == 1
    ensures (n + 1) / 2 <= |DarkSquares(w, h)|
  {
    var e := EvenSteps(t, n);
    EvenStepsDistinct(t, n);
    VisitedSize(e);
    EvenStepsDark(t, n, w, h);
    var v, d := Visited(e), DarkSquares(w, h);
    assert |d - v| == |d| - |v|;
  }

  lemma EvenStepsDistinct(t: seq<Position>, n: nat)
    requires n <= |t| && Distinct(t[..n])
    ensures Distinct(EvenSteps(t, n))
  {
    var e := EvenSteps(t, n);
    forall i, j | 0 <= i < j < |e| ensures (e[i].x, e[i].y) != (e[j].x, e[j].y) {
      assert t[..n][2 * i] == e[i] && t[..n][2 * j] == e[j];
    }
  }

  lemma EvenStepsDark(t: seq<Position>, n: nat, w: int, h: int)
    requires Walk(t) && 1 <= n <= |t|
    requires OnBoard(w, h, t[..n]) && Colour(t[0].x, t[0].y) == 1
    ensures Visited(EvenSteps(t, n)) <= DarkSquares(w, h)
  {
    var e := EvenSteps(t, n);
    forall s | s in Visited(e) ensures s in DarkSquares(w, h) {
      var k :| 0 <= k < |e| && s == (e[k].x, e[k].y);
      assert t[..n][2 * k] == e[k];
      WalkColour(t, 2 * k);
    }
  }

  /** On an odd board a tour covering every square starts on colour 0: its
      (Area + 1) / 2 even steps share the start's colour, and colour 1 has
      only (Area - 1) / 2 squares. */
  lemma OddBoardTourStartsOnColourZero(kt: KnightTour, t: seq<Position>)
    requires kt.CompleteWalk(t) && kt.Area() % 2 == 1
    ensures Colour(t[0].x, t[0].y) == 0
  {
    var w, h := kt.chessboard.width, kt.chessboard.height;
    if Colour(t[0].x, t[0].y) == 1 {
      EvenStepsFit(t, kt.Area(), w, h);
      ProductParity(w, h);
      OddBoardDarkSquares(w, h);
      assert false;
    }
  }

  /** So the first rejection is sound: no tour starts on colour 1 of an odd board. */
  lemma NoTourFromOddStart(kt: KnightTour, t: seq<Position>)
    requires kt.OddBoardOddStartCase()
    ensures !kt.IsTour(t)
  {
    if kt.IsTour(t) {
      OddBoardTourStartsOnColourZero(kt, t);
    }
  }
}
