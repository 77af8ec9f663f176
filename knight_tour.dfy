/** The search engine of src/knightTour.ts: the move table, the degree of a
    square, the ordering of candidate moves under Warnsdorf's rule and its
    tie-breaks, the backtracking search and the attempt loop around it. */
module KnightTour {
  import opened Types
  import opened Grid
  import opened Sorting
  import opened Decimal

  /** The eight knight offsets with their tags, in the source's table order
      (the squirrel+cull numbering, clockwise from up-right). */
  const PossibleKnightMoves: seq<Move> := [
    Move(1, -2, 1), Move(2, -1, 2), Move(2, 1, 3), Move(1, 2, 4),
    Move(-1, -2, 5), Move(-2, -1, 6), Move(-2, 1, 7), Move(-1, 2, 8)
  ]

  function Abs(n: int): int {
    if n < 0 then -n else n
  }

  /** (dx, dy) is a knight's jump: one square along one axis and two along the other. */
  predicate IsKnightJump(dx: int, dy: int) {
    (Abs(dx) == 1 && Abs(dy) == 2) || (Abs(dx) == 2 && Abs(dy) == 1)
  }

  function MoveTag(m: Move): int {
    m.order
  }

  /** The table holds every knight jump exactly once, tagged 1..8 in table order. */
  lemma KnightMoveTable()
    ensures |PossibleKnightMoves| == 8
    ensures forall i :: 0 <= i < 8 ==> PossibleKnightMoves[i].order == i + 1
    ensures forall m :: m in PossibleKnightMoves ==> IsKnightJump(m.x, m.y)
    ensures forall dx, dy :: IsKnightJump(dx, dy) ==>
      exists i :: 0 <= i < 8 && PossibleKnightMoves[i].x == dx && PossibleKnightMoves[i].y == dy
    ensures StrictlyIncreasing(PossibleKnightMoves, MoveTag)
  {
    forall dx, dy | IsKnightJump(dx, dy)
      ensures exists i :: 0 <= i < 8 && PossibleKnightMoves[i].x == dx && PossibleKnightMoves[i].y == dy
    {
      var i :=
        if dx == 1 && dy == -2 then 0 else if dx == 2 && dy == -1 then 1
        else if dx == 2 && dy == 1 then 2 else if dx == 1 && dy == 2 then 3
        else if dx == -1 && dy == -2 then 4 else if dx == -2 && dy == -1 then 5
        else if dx == -2 && dy == 1 then 6 else 7;
      assert PossibleKnightMoves[i].x == dx && PossibleKnightMoves[i].y == dy;
    }
  }

  /** b is reached from a by the table move b records. */
  ghost predicate KnightStep(a: Position, b: Position) {
    b.move.Some? && b.move.value in PossibleKnightMoves &&
    b.x == a.x + b.move.value.x && b.y == a.y + b.move.value.y
  }

  /** Every square after the first is a knight step from its predecessor. */
  ghost predicate Walk(path: seq<Position>) {
    forall i :: 1 <= i < |path| ==> KnightStep(path[i - 1], path[i])
  }

  /** A move's tag names that move in the table. */
  lemma TagNamesMove(m: Move)
    requires m in PossibleKnightMoves
    ensures FindMove(PossibleKnightMoves, m.order) == Some(m)
  {
    KnightMoveTable();
    var i :| 0 <= i < 8 && PossibleKnightMoves[i] == m;
    FindTableMove(m.order);
  }

  /** Table tags are 1..8. */
  lemma TagInRange(m: Move)
    requires m in PossibleKnightMoves
    ensures 1 <= m.order <= 8
  { }

  /** The square `move` leads to from p, as the source builds it. */
  function Target(p: Position, move: Move): Position {
    Position(p.x + move.x, p.y + move.y, Some(move), None)
  }

  /** The number of `moves` that lead from p to a free square. */
  function FreeCount(board: array2<int>, p: Position, moves: seq<Move>): (n: nat)
    reads board
    ensures n <= |moves|
  {
    if moves == [] then 0
    else
      var m := moves[|moves| - 1];
      FreeCount(board, p, moves[..|moves| - 1]) + (if Free(board, p.x + m.x, p.y + m.y) then 1 else 0)
  }

  function FreeOne(board: array2<int>, p: Position, m: Move): int
    reads board
  {
    if Free(board, p.x + m.x, p.y + m.y) then 1 else 0
  }

  /** The degree of p spelt out over the eight table moves. */
  function Degree(board: array2<int>, p: Position): int
    reads board
  {
    var ms := PossibleKnightMoves;
    FreeOne(board, p, ms[0]) + FreeOne(board, p, ms[1]) + FreeOne(board, p, ms[2]) + FreeOne(board, p, ms[3]) +
    FreeOne(board, p, ms[4]) + FreeOne(board, p, ms[5]) + FreeOne(board, p, ms[6]) + FreeOne(board, p, ms[7])
  }

  lemma FreeCountSnoc(board: array2<int>, p: Position, ms: seq<Move>, k: int)
    requires 0 <= k < |ms|
    ensures FreeCount(board, p, ms[..k + 1]) == FreeCount(board, p, ms[..k]) + FreeOne(board, p, ms[k])
  {
    assert ms[..k + 1][..k] == ms[..k];
  }

  lemma DegreeIsFreeCount(board: array2<int>, p: Position)
    ensures FreeCount(board, p, PossibleKnightMoves) == Degree(board, p)
  {
    var ms := PossibleKnightMoves;
    assert FreeCount(board, p, ms[..0]) == 0;
    FreeCountSnoc(board, p, ms, 0);
    FreeCountSnoc(board, p, ms, 1);
    FreeCountSnoc(board, p, ms, 2);
    FreeCountSnoc(board, p, ms, 3);
    FreeCountSnoc(board, p, ms, 4);
    FreeCountSnoc(board, p, ms, 5);
    FreeCountSnoc(board, p, ms, 6);
    FreeCountSnoc(board, p, ms, 7);
    assert ms[..8] == ms;
  }

  /** `knightMoves.find(move => move.order === order)` */
  function FindMove(moves: seq<Move>, order: int): (r: Option<Move>)
    ensures r.Some? ==> r.value in moves && r.value.order == order
    ensures r.None? ==> forall m :: m in moves ==> m.order != order
  {
    if moves == [] then None
    else if moves[0].order == order then Some(moves[0])
    else FindMove(moves[1..], order)
  }

  /** A digit names a table move exactly when it is one of 1..8, and then it names
      the move with that tag. */
  lemma FindTableMove(order: int)
    ensures FindMove(PossibleKnightMoves, order).Some? <==> 1 <= order <= 8
    ensures 1 <= order <= 8 ==> FindMove(PossibleKnightMoves, order) == Some(PossibleKnightMoves[order - 1])
  {
    KnightMoveTable();
  }

  /** `s.indexOf(v)`: the first index holding v, or -1. */
  function IndexOf(s: seq<int>, v: int): (r: int)
    ensures -1 <= r < |s|
    ensures r >= 0 ==> s[r] == v && v !in s[..r]
    ensures r < 0 ==> v !in s
  {
    if s == [] then -1
    else if s[0] == v then 0
    else
      var r := IndexOf(s[1..], v);
      assert s[1..][..r + 1] == s[1..r + 2] by { if r >= 0 {} }
      if r < 0 then -1 else r + 1
  }

  /** A candidate move of Warnsdorf's rule: the square reached and its degree. */
  datatype Candidate = Candidate(newPosition: Position, degree: int)

  function DegreeKey(c: Candidate): int {
    c.degree
  }

  /** The tag of the move that reaches the candidate (`newPosition.move!.order`). */
  function CandidateTag(c: Candidate): int {
    if c.newPosition.move.Some? then c.newPosition.move.value.order else 0
  }

  /** The tie-break key `ordering.indexOf(tag)`; a tag missing from the ordering
      gets -1 and so comes first. */
  function IndexKey(ordering: seq<int>): Candidate -> int {
    (c: Candidate) => IndexOf(ordering, CandidateTag(c))
  }

  const TableOrdering: seq<int> := [1, 2, 3, 4, 5, 6, 7, 8]

  lemma TableIndex(t: int)
    requires 1 <= t <= 8
    ensures IndexOf(TableOrdering, t) == t - 1
  {
    assert TableOrdering[t - 1] == t;
  }

  /** The candidates of `moves` taken in order: each move to a free square,
      with the degree of that square. */
  function Candidates(board: array2<int>, p: Position, moves: seq<Move>): seq<Candidate>
    reads board
  {
    if moves == [] then []
    else
      var q := Target(p, moves[|moves| - 1]);
      Candidates(board, p, moves[..|moves| - 1]) +
      (if Free(board, q.x, q.y) then [Candidate(q, FreeCount(board, q, PossibleKnightMoves))] else [])
  }

  /** Every candidate is a free square one of `moves` reaches, carrying its degree. */
  lemma {:induction false} CandidatesSound(board: array2<int>, p: Position, moves: seq<Move>)
    ensures forall k :: 0 <= k < |Candidates(board, p, moves)| ==>
      var c := Candidates(board, p, moves)[k];
      c.newPosition.move.Some? && c.newPosition.move.value in moves &&
      c.newPosition == Target(p, c.newPosition.move.value) &&
      Free(board, c.newPosition.x, c.newPosition.y) &&
      c.degree == FreeCount(board, c.newPosition, PossibleKnightMoves)
  {
    if moves != [] {
      var n := |moves| - 1;
      CandidatesSound(board, p, moves[..n]);
      assert forall m :: m in moves[..n] ==> m in moves;
    }
  }

  /** Every move of `moves` that reaches a free square yields a candidate. */
  lemma {:induction false} CandidatesComplete(board: array2<int>, p: Position, moves: seq<Move>)
    ensures forall m :: m in moves && Free(board, p.x + m.x, p.y + m.y) ==>
      Candidate(Target(p, m), FreeCount(board, Target(p, m), PossibleKnightMoves)) in Candidates(board, p, moves)
  {
    if moves != [] {
      var n := |moves| - 1;
      CandidatesComplete(board, p, moves[..n]);
      assert moves == moves[..n] + [moves[n]];
    }
  }

  /** One move of `moves` onto a free square, and the candidate it yields. */
  lemma CandidateOf(board: array2<int>, p: Position, moves: seq<Move>, m: Move)
    requires m in moves && Free(board, Target(p, m).x, Target(p, m).y)
    ensures Candidate(Target(p, m), FreeCount(board, Target(p, m), PossibleKnightMoves)) in Candidates(board, p, moves)
  {
    CandidatesComplete(board, p, moves);
  }

  /** Candidates keep the order of `moves`: increasing tags give increasing tags. */
  lemma {:induction false} CandidatesInTagOrder(board: array2<int>, p: Position, moves: seq<Move>)
    requires StrictlyIncreasing(moves, MoveTag)
    ensures StrictlyIncreasing(Candidates(board, p, moves), CandidateTag)
  {
    if moves != [] {
      var n := |moves| - 1;
      assert StrictlyIncreasing(moves[..n], MoveTag);
      CandidatesInTagOrder(board, p, moves[..n]);
      CandidatesSound(board, p, moves[..n]);
      var front := Candidates(board, p, moves[..n]);
      var c := Candidates(board, p, moves);
      forall i, j | 0 <= i < j < |c| ensures CandidateTag(c[i]) < CandidateTag(c[j]) {
        if j < |front| {
          assert c[i] == front[i] && c[j] == front[j];
        } else {
          assert c[i] == front[i];
          var m := front[i].newPosition.move.value;
          var k :| 0 <= k < n && moves[..n][k] == m;
          assert MoveTag(moves[k]) < MoveTag(moves[n]);
        }
      }
    }
  }

  /** The table's candidates from p: free knight steps from p with their
      degrees, in increasing tag order. */
  lemma CandidateFacts(board: array2<int>, p: Position)
    ensures var cs := Candidates(board, p, PossibleKnightMoves);
      AllReach(board, p, cs) && StrictlyIncreasing(cs, CandidateTag) &&
      forall c :: c in cs ==> c.degree == FreeCount(board, c.newPosition, PossibleKnightMoves)
  {
    var cs := Candidates(board, p, PossibleKnightMoves);
    CandidatesSound(board, p, PossibleKnightMoves);
    KnightMoveTable();
    CandidatesInTagOrder(board, p, PossibleKnightMoves);
    forall c | c in cs ensures Reaches(board, p, c) && c.degree == FreeCount(board, c.newPosition, PossibleKnightMoves) {
      var k :| 0 <= k < |cs| && cs[k] == c;
    }
  }

  /** The candidates with the smallest degree: the front of a sorted list. */
  function Ties(sorted: seq<Candidate>): seq<Candidate>
    requires sorted != []
  {
    Where(sorted, DegreeKey, sorted[0].degree)
  }

  function Rest(sorted: seq<Candidate>): seq<Candidate>
    requires sorted != []
  {
    WhereNot(sorted, DegreeKey, sorted[0].degree)
  }

  lemma SortedMinimum(sorted: seq<Candidate>)
    requires sorted != [] && SortedBy(sorted, DegreeKey)
    ensures forall e :: e in sorted ==> sorted[0].degree <= DegreeKey(e)
  {
    forall e | e in sorted ensures sorted[0].degree <= DegreeKey(e) {
      var i :| 0 <= i < |sorted| && sorted[i] == e;
      if i > 0 { assert DegreeKey(sorted[0]) <= DegreeKey(sorted[i]); }
    }
  }

  /** In a list sorted by degree, the ties are a non-empty front and the rest follows. */
  lemma TiesSplit(sorted: seq<Candidate>)
    requires sorted != [] && SortedBy(sorted, DegreeKey)
    ensures sorted == Ties(sorted) + Rest(sorted)
    ensures 1 <= |Ties(sorted)| && Ties(sorted) == sorted[..|Ties(sorted)|] && Rest(sorted) == sorted[|Ties(sorted)|..]
    ensures forall k :: 0 <= k < |Ties(sorted)| ==> sorted[k].degree == sorted[0].degree
    ensures forall k :: |Ties(sorted)| <= k < |sorted| ==> sorted[k].degree > sorted[0].degree
  {
    var m := sorted[0].degree;
    SortedMinimum(sorted);
    SplitAtMinimum(sorted, DegreeKey, m);
    var g, rest := Ties(sorted), Rest(sorted);
    WhereKeys(sorted, DegreeKey, m);
    assert sorted[..|g|] == g;
    assert sorted[|g|..] == rest;
    TiesDegrees(sorted, g, rest, m);
  }

  lemma TiesDegrees(sorted: seq<Candidate>, g: seq<Candidate>, rest: seq<Candidate>, m: int)
    requires sorted == g + rest
    requires forall e :: e in g ==> DegreeKey(e) == m
    requires forall e :: e in rest ==> DegreeKey(e) != m
    requires forall e :: e in sorted ==> m <= DegreeKey(e)
    ensures forall k :: 0 <= k < |g| ==> sorted[k].degree == m
    ensures forall k :: |g| <= k < |sorted| ==> sorted[k].degree > m
  {
    forall k | 0 <= k < |g| ensures sorted[k].degree == m {
      assert sorted[k] == g[k];
      assert g[k] in g;
    }
    forall k | |g| <= k < |sorted| ensures sorted[k].degree > m {
      assert sorted[k] == rest[k - |g|];
      assert rest[k - |g|] in rest;
      assert sorted[k] in sorted;
    }
  }

  /** knightTour.ts, lines 236-250: when several candidates share the smallest
      degree, they are re-sorted by `key` and put before the others. */
  function ReorderTies(sorted: seq<Candidate>, key: Candidate -> int): seq<Candidate>
    requires sorted != []
  {
    if |Ties(sorted)| > 1 then SortBy(Ties(sorted), key) + Rest(sorted) else sorted
  }

  /** The degree order Array.prototype.sort produces: ascending degree, stable,
      so candidates of equal degree stay in tag order. */
  lemma DegreeOrder(cands: seq<Candidate>)
    requires StrictlyIncreasing(cands, CandidateTag)
    ensures multiset(SortBy(cands, DegreeKey)) == multiset(cands) && |SortBy(cands, DegreeKey)| == |cands|
    ensures LexSortedBy(SortBy(cands, DegreeKey), DegreeKey, CandidateTag)
    ensures SortedBy(SortBy(cands, DegreeKey), DegreeKey)
  {
    SortByPermutes(cands, DegreeKey);
    SortByLex(cands, DegreeKey, CandidateTag);
    SortBySorted(cands, DegreeKey);
  }

  /** The FIRST tie-break changes nothing: ties are already in tag order, which
      is the table's order. */
  lemma FirstTieBreakKeepsOrder(cands: seq<Candidate>)
    requires cands != [] && StrictlyIncreasing(cands, CandidateTag)
    requires forall c :: c in cands ==> 1 <= CandidateTag(c) <= 8
    ensures ReorderTies(SortBy(cands, DegreeKey), IndexKey(TableOrdering)) == SortBy(cands, DegreeKey)
  {
    var sorted := SortBy(cands, DegreeKey);
    var g := Ties(sorted);
    assert sorted == g + Rest(sorted) by {
      DegreeOrder(cands);
      TiesSplit(sorted);
    }
    assert SortedBy(g, IndexKey(TableOrdering)) by {
      DegreeOrder(cands);
      TiesInTagOrder(sorted);
      forall c | c in g ensures 1 <= CandidateTag(c) <= 8 {
        WhereKeys(sorted, DegreeKey, sorted[0].degree);
        assert c in multiset(sorted);
      }
      TableKeySorted(g);
    }
    SortByIdentity(g, IndexKey(TableOrdering));
  }

  lemma TableKeySorted(g: seq<Candidate>)
    requires StrictlyIncreasing(g, CandidateTag)
    requires forall c :: c in g ==> 1 <= CandidateTag(c) <= 8
    ensures SortedBy(g, IndexKey(TableOrdering))
  {
    forall i, j | 0 <= i < j < |g| ensures IndexKey(TableOrdering)(g[i]) <= IndexKey(TableOrdering)(g[j]) {
      assert g[i] in g && g[j] in g;
      TableIndex(CandidateTag(g[i]));
      TableIndex(CandidateTag(g[j]));
    }
  }

  /** The FIRST order in full: the candidates sorted by degree and, among
      equal degrees, by tag. */
  lemma FirstTieBreak(cands: seq<Candidate>)
    requires cands != [] && StrictlyIncreasing(cands, CandidateTag)
    requires forall c :: c in cands ==> c.newPosition.move.Some? && c.newPosition.move.value in PossibleKnightMoves
    ensures var r := ReorderTies(SortBy(cands, DegreeKey), IndexKey(TableOrdering));
      r == SortBy(cands, DegreeKey) && multiset(r) == multiset(cands) && LexSortedBy(r, DegreeKey, CandidateTag)
  {
    DegreeOrder(cands);
    forall c | c in cands ensures 1 <= CandidateTag(c) <= 8 {
      TagInRange(c.newPosition.move.value);
    }
    FirstTieBreakKeepsOrder(cands);
  }

  lemma ReorderedReach(board: array2<int>, current: Position, cands: seq<Candidate>, key: Candidate -> int)
    requires cands != [] && AllReach(board, current, cands)
    ensures AllReach(board, current, ReorderTies(SortBy(cands, DegreeKey), key))
  {
    var sorted := SortBy(cands, DegreeKey);
    SortByPermutes(cands, DegreeKey);
    SortBySorted(cands, DegreeKey);
    AllReachPermutation(board, current, cands, sorted);
    ReorderTiesShape(sorted, key);
    AllReachPermutation(board, current, sorted, ReorderTies(sorted, key));
  }

  /** The ties of a degree-then-tag order are in tag order. */
  lemma TiesInTagOrder(sorted: seq<Candidate>)
    requires sorted != [] && LexSortedBy(sorted, DegreeKey, CandidateTag) && SortedBy(sorted, DegreeKey)
    ensures StrictlyIncreasing(Ties(sorted), CandidateTag)
  {
    TiesSplit(sorted);
    var g := Ties(sorted);
    forall i, j | 0 <= i < j < |g| ensures CandidateTag(g[i]) < CandidateTag(g[j]) {
      assert g[i] == sorted[i] && g[j] == sorted[j];
      assert Before(sorted[i], sorted[j], DegreeKey, CandidateTag);
    }
  }

  /** Re-sorting the ties by any key rearranges the list, keeps it in degree
      order and leaves everything after the ties in place. */
  lemma ReorderTiesShape(sorted: seq<Candidate>, key: Candidate -> int)
    requires sorted != [] && SortedBy(sorted, DegreeKey)
    ensures var r := ReorderTies(sorted, key);
      multiset(r) == multiset(sorted) && SortedBy(r, DegreeKey) &&
      |r| == |sorted| && r[..|Ties(sorted)|] == SortBy(Ties(sorted), key) &&
      r[|Ties(sorted)|..] == sorted[|Ties(sorted)|..]
  {
    TiesSplit(sorted);
    var g := Ties(sorted);
    SortByPermutes(g, key);
    var r := ReorderTies(sorted, key);
    if |g| > 1 {
      var sg := SortBy(g, key);
      assert r == sg + Rest(sorted);
      assert r[..|g|] == sg && r[|g|..] == Rest(sorted);
      assert multiset(r) == multiset(sg) + multiset(Rest(sorted));
      forall i, j | 0 <= i < j < |r| ensures DegreeKey(r[i]) <= DegreeKey(r[j]) {
        TieDegree(sorted, key, r, i);
        if j < |g| {
          TieDegree(sorted, key, r, j);
        } else {
          assert r[j] == sorted[j];
          assert DegreeKey(sorted[0]) <= DegreeKey(sorted[j]);
        }
      }
    } else {
      SortByIdentity(g, key);
    }
  }

  lemma TieDegree(sorted: seq<Candidate>, key: Candidate -> int, r: seq<Candidate>, i: int)
    requires sorted != [] && SortedBy(sorted, DegreeKey)
    requires |Ties(sorted)| > 1 && r == SortBy(Ties(sorted), key) + Rest(sorted)
    requires 0 <= i < |r|
    ensures i < |Ties(sorted)| ==> r[i].degree == sorted[0].degree
  {
    TiesSplit(sorted);
    var g := Ties(sorted);
    SortByPermutes(g, key);
    if i < |g| {
      assert r[i] in multiset(SortBy(g, key));
      var a :| 0 <= a < |g| && g[a] == r[i];
      assert sorted[a] == g[a];
    }
  }

  /** The MOVE_ORDERING tie-break: a rearrangement that keeps the degree order,
      puts the ties in order of their tag's position in the custom ordering
      (equal positions, such as two tags both missing, keep tag order) and
      leaves the other candidates in place. */
  lemma MoveOrderingTieBreakOrder(cands: seq<Candidate>, ordering: seq<int>)
    requires cands != [] && StrictlyIncreasing(cands, CandidateTag)
    ensures var sorted := SortBy(cands, DegreeKey);
      var r := ReorderTies(sorted, IndexKey(ordering));
      multiset(r) == multiset(cands) && SortedBy(r, DegreeKey) &&
      |Ties(sorted)| <= |r| &&
      LexSortedBy(r[..|Ties(sorted)|], IndexKey(ordering), CandidateTag) &&
      r[|Ties(sorted)|..] == sorted[|Ties(sorted)|..]
  {
    var sorted := SortBy(cands, DegreeKey);
    DegreeOrder(cands);
    TiesInTagOrder(sorted);
    SortByLex(Ties(sorted), IndexKey(ordering), CandidateTag);
    ReorderTiesShape(sorted, IndexKey(ordering));
  }

  /** The squared distance of a candidate to the board's centre (width / 2,
      height / 2), scaled by 4 to stay in integers; negated for FURTHEST, whose
      comparator sorts descending. */
  function CenterKey(width: int, height: int, furthest: bool): Candidate -> int {
    (c: Candidate) =>
      var dx, dy := 2 * c.newPosition.x - width, 2 * c.newPosition.y - height;
      if furthest then -(dx * dx + dy * dy) else dx * dx + dy * dy
  }

  /** `group.sort(cmp)` where cmp orders by `key` and answers equal keys with
      `Math.random() - 0.5`. Such a comparator is inconsistent, so the language
      fixes only that the result is a rearrangement; when no two keys are equal
      the comparator is consistent and the result is sorted by key. */
  method ShuffleTies(group: seq<Candidate>, key: Candidate -> int) returns (ranked: seq<Candidate>)
    ensures multiset(ranked) == multiset(group)
    ensures DistinctKeys(group, key) ==> SortedBy(ranked, key)
  {
    SortByPermutes(group, key);
    SortBySorted(group, key);
    ranked :| multiset(ranked) == multiset(group) && (DistinctKeys(group, key) ==> SortedBy(ranked, key));
  }

  /** A candidate is a free square one knight step from `current`. */
  ghost predicate Reaches(board: array2<int>, current: Position, c: Candidate)
    reads board
  {
    KnightStep(current, c.newPosition) && Free(board, c.newPosition.x, c.newPosition.y)
  }

  ghost predicate AllReach(board: array2<int>, current: Position, s: seq<Candidate>)
    reads board
  {
    forall c :: c in s ==> Reaches(board, current, c)
  }

  /** The ties after the Pohl probe, which leaves each of them at degree 0. */
  function Zeroed(g: seq<Candidate>): (z: seq<Candidate>)
    ensures |z| == |g|
    ensures forall k :: 0 <= k < |g| ==> z[k] == g[k].(degree := 0)
  {
    if g == [] then [] else [g[0].(degree := 0)] + Zeroed(g[1..])
  }

  lemma AllReachZeroed(board: array2<int>, current: Position, g: seq<Candidate>)
    requires AllReach(board, current, g)
    ensures AllReach(board, current, Zeroed(g))
  {
    forall c | c in Zeroed(g) ensures Reaches(board, current, c) {
      var k :| 0 <= k < |g| && Zeroed(g)[k] == c;
      assert g[k] in g;
    }
  }

  /** The RANDOM / CLOSEST / FURTHEST outcome: the ties of `sorted` rearranged
      (sorted by `key` when their keys are all different), then the rest unchanged. */
  ghost predicate TiesShuffled(sorted: seq<Candidate>, ordered: seq<Candidate>, key: Candidate -> int)
    requires sorted != []
  {
    var g := Ties(sorted);
    if |g| <= 1 then ordered == sorted
    else
      |ordered| == |sorted| && multiset(ordered[..|g|]) == multiset(g) &&
      (DistinctKeys(g, key) ==> SortedBy(ordered[..|g|], key)) &&
      ordered[|g|..] == Rest(sorted)
  }

  /** The POHL outcome: the ties, all at degree 0 after the probe, in some
      order; then, because the probe updated the very objects the sorted list
      holds, the filter `degree !== smallestDegree` keeps them a second time
      (in their sorted order) unless the smallest degree was 0; then the rest. */
  ghost predicate PohlOrdered(sorted: seq<Candidate>, ordered: seq<Candidate>)
    requires sorted != []
  {
    var g := Ties(sorted);
    if |g| <= 1 then ordered == sorted
    else
      |g| <= |ordered| && multiset(ordered[..|g|]) == multiset(Zeroed(g)) &&
      ordered[|g|..] == (if sorted[0].degree == 0 then [] else Zeroed(g)) + Rest(sorted)
  }

  /** The move from `last` lands on `first`'s square. */
  predicate ReturnsTo(last: Position, m: Move, first: Position) {
    Target(last, m).x == first.x && Target(last, m).y == first.y
  }

  /** The RANDOM comparator `() => Math.random() - 0.5` compares no key at all. */
  function NoKey(c: Candidate): int {
    0
  }

  /** After the probe, the filter on the shared candidate objects keeps the
      zeroed ties unless the smallest degree was 0, then the rest. */
  lemma PohlTail(sorted: seq<Candidate>)
    requires sorted != [] && SortedBy(sorted, DegreeKey)
    ensures |Ties(sorted)| <= |sorted|
    ensures WhereNot(Zeroed(Ties(sorted)) + sorted[|Ties(sorted)|..], DegreeKey, sorted[0].degree)
      == (if sorted[0].degree == 0 then [] else Zeroed(Ties(sorted))) + Rest(sorted)
  {
    TiesSplit(sorted);
    var g, m := Ties(sorted), sorted[0].degree;
    var z := Zeroed(g);
    WhereNotAppend(z, sorted[|g|..], DegreeKey, m);
    if m == 0 {
      WhereAll(z, DegreeKey, m);
    } else {
      WhereNotAll(z, DegreeKey, m);
    }
    WhereKeys(sorted, DegreeKey, m);
    WhereNotAll(Rest(sorted), DegreeKey, m);
  }

  lemma AllReachPermutation(board: array2<int>, current: Position, s: seq<Candidate>, t: seq<Candidate>)
    requires AllReach(board, current, s) && multiset(t) <= multiset(s)
    ensures AllReach(board, current, t)
  {
    forall c | c in t ensures c in s {
      assert c in multiset(t);
    }
  }

  lemma AllReachSlices(board: array2<int>, current: Position, s: seq<Candidate>, i: int)
    requires AllReach(board, current, s) && 0 <= i <= |s|
    ensures AllReach(board, current, s[..i]) && AllReach(board, current, s[i..])
  {
    forall c | c in s[..i] ensures c in s {
      var k :| 0 <= k < i && s[..i][k] == c;
      assert s[k] == c;
    }
    forall c | c in s[i..] ensures c in s {
      var k :| 0 <= k < |s| - i && s[i..][k] == c;
      assert s[i + k] == c;
    }
  }

  /** t begins with the squares of path (the moves recorded may differ). */
  ghost predicate Extends(path: seq<Position>, t: seq<Position>) {
    |path| <= |t| && forall i :: 0 <= i < |path| ==> t[i].x == path[i].x && t[i].y == path[i].y
  }

  /** The square of every candidate of s is tried somewhere in `ordered`,
      whatever degree it carries there. */
  ghost predicate Covers(s: seq<Candidate>, ordered: seq<Candidate>) {
    forall c :: c in s ==> exists d :: d in ordered && d.newPosition == c.newPosition
  }

  lemma CoversSubMultiset(s: seq<Candidate>, t: seq<Candidate>)
    requires multiset(s) <= multiset(t)
    ensures Covers(s, t)
  {
    forall c | c in s ensures exists d :: d in t && d.newPosition == c.newPosition {
      assert c in multiset(s);
      assert c in t;
    }
  }

  lemma CoversFrom(s: seq<Candidate>, sorted: seq<Candidate>, ordered: seq<Candidate>)
    requires multiset(s) == multiset(sorted) && Covers(sorted, ordered)
    ensures Covers(s, ordered)
  {
    forall c | c in s ensures exists d :: d in ordered && d.newPosition == c.newPosition {
      assert c in multiset(sorted);
      assert c in sorted;
    }
  }

  lemma CoveredIndex(s: seq<Candidate>, ordered: seq<Candidate>, c: Candidate) returns (k: int)
    requires Covers(s, ordered) && c in s
    ensures 0 <= k < |ordered| && ordered[k].newPosition == c.newPosition
  {
    var d :| d in ordered && d.newPosition == c.newPosition;
    k :| 0 <= k < |ordered| && ordered[k] == d;
  }

  /** The FIRST and MOVE_ORDERING tie-breaks drop no candidate. */
  lemma ReorderCovers(cands: seq<Candidate>, key: Candidate -> int)
    requires cands != []
    ensures Covers(cands, ReorderTies(SortBy(cands, DegreeKey), key))
  {
    var sorted := SortBy(cands, DegreeKey);
    SortByPermutes(cands, DegreeKey);
    SortBySorted(cands, DegreeKey);
    ReorderTiesShape(sorted, key);
    CoversSubMultiset(cands, ReorderTies(sorted, key));
  }

  /** The RANDOM and centre tie-breaks drop no candidate. */
  lemma ShuffleCovers(sorted: seq<Candidate>, ordered: seq<Candidate>, key: Candidate -> int)
    requires sorted != [] && SortedBy(sorted, DegreeKey)
    requires TiesShuffled(sorted, ordered, key)
    ensures multiset(ordered) == multiset(sorted)
    ensures Covers(sorted, ordered)
  {
    TiesSplit(sorted);
    var g := Ties(sorted);
    if |g| > 1 {
      assert ordered == ordered[..|g|] + ordered[|g|..];
    }
    CoversSubMultiset(sorted, ordered);
  }

  /** Nor does POHL: each tie comes back at least once, zeroed. */
  lemma PohlCovers(sorted: seq<Candidate>, ordered: seq<Candidate>)
    requires sorted != [] && SortedBy(sorted, DegreeKey)
    requires PohlOrdered(sorted, ordered)
    ensures Covers(sorted, ordered)
  {
    TiesSplit(sorted);
    var g := Ties(sorted);
    if |g| <= 1 {
      CoversSubMultiset(sorted, ordered);
    } else {
      var n := |g|;
      forall c | c in sorted ensures exists d :: d in ordered && d.newPosition == c.newPosition {
        var i :| 0 <= i < |sorted| && sorted[i] == c;
        if i < n {
          ZeroedTieIn(g, ordered, i);
        } else {
          RestIn(sorted, ordered, i);
        }
      }
    }
  }

  lemma ZeroedTieIn(g: seq<Candidate>, ordered: seq<Candidate>, i: int)
    requires |g| <= |ordered| && multiset(ordered[..|g|]) == multiset(Zeroed(g)) && 0 <= i < |g|
    ensures Zeroed(g)[i] in ordered && Zeroed(g)[i].newPosition == g[i].newPosition
  {
    var z := Zeroed(g)[i];
    assert z in multiset(Zeroed(g));
    assert z in ordered[..|g|];
  }

  lemma RestIn(sorted: seq<Candidate>, ordered: seq<Candidate>, i: int)
    requires sorted != [] && SortedBy(sorted, DegreeKey)
    requires PohlOrdered(sorted, ordered) && |Ties(sorted)| > 1
    requires |Ties(sorted)| <= i < |sorted|
    ensures sorted[i] in ordered
  {
    TiesSplit(sorted);
    var n := |Ties(sorted)|;
    var r := Rest(sorted);
    var back := ordered[n..];
    assert sorted[i] == r[i - n];
    assert back[|back| - |r| + (i - n)] == sorted[i];
    assert ordered[n + |back| - |r| + (i - n)] == sorted[i];
  }

  function Sum(s: seq<int>): int {
    if s == [] then 0 else Sum(s[..|s| - 1]) + s[|s| - 1]
  }

  function Max(a: int, b: int): int {
    if a < b then b else a
  }

  /** The search of src/knightTour.ts. The configuration is fixed at
      construction; the search updates the counters and the board it shares
      with its chessboard. */
  class KnightTour {
    const startX: int
    const startY: int
    const chessboard: Chessboard
    const algorithm: Algorithm
    const tieBreakMethod: TieBreakMethod
    const iterationLimit: int
    const attemptLimit: int
    const closedTour: bool
    /** The digits of the configured ordering number. */
    const moveOrdering: seq<int>
    const knightMoves: seq<Move>
    var iterationCount: int
    var totalIterationCount: int
    var attemptCount: int
    /** The iteration count of every attempt so far, in order. */
    ghost var attemptIterations: seq<int>

    constructor (config: KnightTourConfig)
      ensures startX == config.startX && startY == config.startY && chessboard == config.chessboard
      ensures iterationLimit == config.iterationLimit && attemptLimit == config.attemptLimit
      ensures closedTour == config.closedTour && algorithm == config.algorithm
      ensures tieBreakMethod == config.tieBreakMethod
      ensures moveOrdering == Digits(config.moveOrdering)
      ensures knightMoves == PossibleKnightMoves
      ensures iterationCount == 0 && totalIterationCount == 0 && attemptCount == 0 && attemptIterations == []
    {
      startX := config.startX;
      startY := config.startY;
      chessboard := config.chessboard;
      iterationLimit := config.iterationLimit;
      attemptLimit := config.attemptLimit;
      closedTour := config.closedTour;
      algorithm := config.algorithm;
      tieBreakMethod := config.tieBreakMethod;
      moveOrdering := DigitList(config.moveOrdering);
      iterationCount := 0;
      totalIterationCount := 0;
      attemptCount := 0;
      attemptIterations := [];
      knightMoves := PossibleKnightMoves;
    }

    /** A usable search: the board has the configured shape, at least one
        column and one row, and the move table is the standard one. */
    ghost predicate Valid() {
      chessboard.Valid() && 1 <= chessboard.width && 1 <= chessboard.height &&
      knightMoves == PossibleKnightMoves
    }

    function Area(): nat {
      chessboard.width * chessboard.height
    }

    /** The most calls the budget admits in one attempt: a call proceeds only
        while the count so far is at most iterationLimit. */
    function CountBound(): int {
      if iterationLimit < 0 then 0 else iterationLimit + 1
    }

    function Start(): Position {
      Position(startX, startY, None, None)
    }

    /** What the search keeps true of a partial path: a walk of knight steps
        that the board records, visit index by visit index. */
    ghost predicate SearchState(path: seq<Position>)
      reads chessboard.board
    {
      Valid() && 1 <= |path| <= Area() && Walk(path) && Numbered(chessboard.board, path)
    }

    /** A knight's tour from path[0]: a walk through every square once, returning
        to the first square by one more step when the tour is closed. */
    ghost predicate CompleteWalk(t: seq<Position>) {
      |t| == Area() + (if closedTour then 1 else 0) && 1 <= Area() && Walk(t) &&
      Distinct(t[..Area()]) && OnBoard(chessboard.width, chessboard.height, t[..Area()]) &&
      (closedTour ==> t[Area()].x == t[0].x && t[Area()].y == t[0].y)
    }

    ghost predicate IsTour(t: seq<Position>) {
      CompleteWalk(t) && t[0] == Start()
    }

    /** t completes path, and the board now records t's squares. */
    ghost predicate Found(path: seq<Position>, t: seq<Position>)
      reads chessboard.board
    {
      path <= t && CompleteWalk(t) && Numbered(chessboard.board, t[..Area()])
    }

    /** A move the search may take: any table move, or under MOVE_ORDERING one
        whose tag is a digit of the ordering (knightTour.ts, lines 181-202). */
    predicate AllowedMove(m: Move) {
      algorithm == MoveOrdering ==> m.order in moveOrdering
    }

    /** The steps of t from index `from` on are moves the search may take; the
        closing step of a closed tour may be any table move (knightTour.ts, lines 133-149). */
    ghost predicate AllowedFrom(t: seq<Position>, from: nat) {
      forall i :: from <= i < |t| && i < Area() && t[i].move.Some? ==> AllowedMove(t[i].move.value)
    }

    /** No tour the search could take begins with the squares of path. */
    ghost predicate NoTourExtends(path: seq<Position>) {
      forall t :: CompleteWalk(t) && AllowedFrom(t, |path|) ==> !Extends(path, t)
    }

    /** Square q is off the board or on path, or no tour the search could take
        goes from path to q. */
    ghost predicate DeadEnd(path: seq<Position>, q: Position) {
      OffPath(chessboard.board, path, q.x, q.y) ==> NoTourExtends(path + [q])
    }

    /** The same for the square that digit d of the ordering names from the
        last square of path; a digit that names no move names no square. */
    ghost predicate DigitDeadEnd(path: seq<Position>, d: int)
      requires 1 <= |path|
    {
      FindMove(PossibleKnightMoves, d).Some? ==>
        DeadEnd(path, Target(path[|path| - 1], FindMove(PossibleKnightMoves, d).value))
    }

    /** Under BRUTEFORCE (knightTour.ts, lines 158-176): t goes on from path to
        the target of table move j, and the target of every earlier table move
        is a dead end. */
    ghost predicate TableFirst(path: seq<Position>, t: seq<Position>)
      requires 1 <= |path|
    {
      |path| < |t| &&
      exists j :: 0 <= j < 8 &&
        t[|path|] == Target(path[|path| - 1], PossibleKnightMoves[j]) &&
        forall k :: 0 <= k < j ==> DeadEnd(path, Target(path[|path| - 1], PossibleKnightMoves[k]))
    }

    /** Under MOVE_ORDERING (knightTour.ts, lines 180-202): t goes on from path
        to the square that digit j of the ordering names, and every earlier
        digit is a dead end. */
    ghost predicate DigitFirst(path: seq<Position>, t: seq<Position>)
      requires 1 <= |path|
    {
      |path| < |t| &&
      exists j :: 0 <= j < |moveOrdering| &&
        FindMove(PossibleKnightMoves, moveOrdering[j]).Some? &&
        t[|path|] == Target(path[|path| - 1], FindMove(PossibleKnightMoves, moveOrdering[j]).value) &&
        forall k :: 0 <= k < j ==> DigitDeadEnd(path, moveOrdering[k])
    }

    /** t goes on from path to the square of ordered[j], and no tour the search
        could take goes through the square of an earlier entry (knightTour.ts,
        lines 346-357). */
    ghost predicate OrderFirst(path: seq<Position>, ordered: seq<Candidate>, t: seq<Position>) {
      |path| < |t| &&
      exists j :: 0 <= j < |ordered| &&
        t[|path|] == ordered[j].newPosition &&
        forall k :: 0 <= k < j ==> NoTourExtends(path + [ordered[k].newPosition])
    }

    /** Under WARNSDORF (knightTour.ts, lines 207-360): t takes the first square
        that leads to a tour in some order the configured tie-break gives the
        candidates cands, and that order covers every candidate. */
    ghost predicate TieBreakFirst(cands: seq<Candidate>, path: seq<Position>, t: seq<Position>) {
      exists ordered :: (if cands == [] then ordered == [] else WarnsdorfOrdered(cands, ordered) && Covers(cands, ordered)) &&
        OrderFirst(path, ordered, t)
    }

    /** The candidate orders of knightTour.ts, lines 224-343, one for each tie-break. */
    ghost predicate WarnsdorfOrdered(cands: seq<Candidate>, ordered: seq<Candidate>)
      requires cands != []
    {
      var sorted := SortBy(cands, DegreeKey);
      (tieBreakMethod == First ==>
        ordered == sorted && multiset(ordered) == multiset(cands) && LexSortedBy(ordered, DegreeKey, CandidateTag)) &&
      (tieBreakMethod == MoveOrderingTieBreak ==> ordered == ReorderTies(sorted, IndexKey(moveOrdering))) &&
      (tieBreakMethod == Random ==> TiesShuffled(sorted, ordered, NoKey)) &&
      (tieBreakMethod == ClosestToCenter ==>
        TiesShuffled(sorted, ordered, CenterKey(chessboard.width, chessboard.height, false))) &&
      (tieBreakMethod == FurthestFromCenter ==>
        TiesShuffled(sorted, ordered, CenterKey(chessboard.width, chessboard.height, true))) &&
      (tieBreakMethod == Pohl ==> PohlOrdered(sorted, ordered))
    }

    /** A tour extending path takes, from path's last square, a move the search
        may take onto a free square, and so extends path by that move's target. */
    lemma NextStep(path: seq<Position>, t: seq<Position>)
      requires SearchState(path) && |path| < Area()
      requires CompleteWalk(t) && AllowedFrom(t, |path|) && Extends(path, t)
      ensures t[|path|].move.Some?
      ensures var m := t[|path|].move.value;
        m in PossibleKnightMoves && AllowedMove(m) &&
        Extends(path + [Target(path[|path| - 1], m)], t) &&
        OffPath(chessboard.board, path, t[|path|].x, t[|path|].y)
    {
      var n := |path|;
      assert KnightStep(t[n - 1], t[n]);
      var q := t[n];
      var m := q.move.value;
      var next := path + [Target(path[n - 1], m)];
      assert forall i :: 0 <= i < |next| ==> t[i].x == next[i].x && t[i].y == next[i].y;
      assert t[..Area()][n] == q;
      forall k | 0 <= k < n ensures (path[k].x, path[k].y) != (q.x, q.y) {
        assert t[..Area()][k] == t[k];
      }
    }

    /** Exhaustiveness of one step: when every move the search may take from the
        last square leads to a dead end, no tour extends the path. */
    lemma NoTourFromNext(path: seq<Position>)
      requires SearchState(path) && |path| < Area()
      requires forall m :: m in PossibleKnightMoves && AllowedMove(m) ==> DeadEnd(path, Target(path[|path| - 1], m))
      ensures NoTourExtends(path)
    {
      forall t | CompleteWalk(t) && AllowedFrom(t, |path|) ensures !Extends(path, t) {
        if Extends(path, t) {
          NextStep(path, t);
        }
      }
    }

    /** One more digit that names a dead end. */
    lemma DigitsDeadEnd(path: seq<Position>, i: int)
      requires 1 <= |path| && 0 <= i < |moveOrdering|
      requires forall k :: 0 <= k < i ==> DigitDeadEnd(path, moveOrdering[k])
      requires DigitDeadEnd(path, moveOrdering[i])
      ensures forall k :: 0 <= k < i + 1 ==> DigitDeadEnd(path, moveOrdering[k])
    {
    }

    /** Exhaustiveness of a MOVE_ORDERING step: when every digit names no move
        or a dead end, no tour the search could take extends the path. */
    lemma NoTourFromDigits(path: seq<Position>)
      requires SearchState(path) && |path| < Area() && algorithm == MoveOrdering
      requires forall k :: 0 <= k < |moveOrdering| ==> DigitDeadEnd(path, moveOrdering[k])
      ensures NoTourExtends(path)
    {
      forall m | m in PossibleKnightMoves && AllowedMove(m) ensures DeadEnd(path, Target(path[|path| - 1], m)) {
        var k :| 0 <= k < |moveOrdering| && moveOrdering[k] == m.order;
        TagNamesMove(m);
        assert DigitDeadEnd(path, moveOrdering[k]);
      }
      NoTourFromNext(path);
    }

    /** Exhaustiveness of a Warnsdorf step: the order covers every candidate,
        and every candidate is a free knight step. */
    lemma NoTourFromOrder(path: seq<Position>, cands: seq<Candidate>, ordered: seq<Candidate>)
      requires SearchState(path) && |path| < Area()
      requires cands == Candidates(chessboard.board, path[|path| - 1], PossibleKnightMoves)
      requires Covers(cands, ordered)
      requires forall k :: 0 <= k < |ordered| ==> NoTourExtends(path + [ordered[k].newPosition])
      ensures NoTourExtends(path)
    {
      forall m | m in PossibleKnightMoves && AllowedMove(m) ensures DeadEnd(path, Target(path[|path| - 1], m)) {
        TargetDeadEnd(path, cands, ordered, m);
      }
      NoTourFromNext(path);
    }

    /** Each table target from the last square is then a dead end. */
    lemma TargetDeadEnd(path: seq<Position>, cands: seq<Candidate>, ordered: seq<Candidate>, m: Move)
      requires SearchState(path) && m in PossibleKnightMoves
      requires cands == Candidates(chessboard.board, path[|path| - 1], PossibleKnightMoves)
      requires Covers(cands, ordered)
      requires forall k :: 0 <= k < |ordered| ==> NoTourExtends(path + [ordered[k].newPosition])
      ensures DeadEnd(path, Target(path[|path| - 1], m))
    {
      var p := path[|path| - 1];
      var q := Target(p, m);
      FreeOffPath(chessboard.board, path, q.x, q.y);
      if Free(chessboard.board, q.x, q.y) {
        CandidateOf(chessboard.board, p, PossibleKnightMoves, m);
        CoveredDeadEnd(path, cands, ordered, Candidate(q, FreeCount(chessboard.board, q, PossibleKnightMoves)));
      }
    }

    /** A candidate the order covers leads to no tour when none of the order does. */
    lemma CoveredDeadEnd(path: seq<Position>, cands: seq<Candidate>, ordered: seq<Candidate>, c: Candidate)
      requires Covers(cands, ordered) && c in cands
      requires forall k :: 0 <= k < |ordered| ==> NoTourExtends(path + [ordered[k].newPosition])
      ensures NoTourExtends(path + [c.newPosition])
    {
      var k := CoveredIndex(cands, ordered, c);
    }

    /** A closed tour extending a path over every square returns to path[0] from its last square. */
    lemma ClosingStep(path: seq<Position>, t: seq<Position>)
      requires SearchState(path) && |path| == Area() && closedTour
      requires CompleteWalk(t) && Extends(path, t)
      ensures t[Area()].move.Some? && t[Area()].move.value in PossibleKnightMoves &&
        ReturnsTo(path[|path| - 1], t[Area()].move.value, path[0])
    {
      var n := Area();
      assert KnightStep(t[n - 1], t[n]);
    }

    /** So a closed tour is impossible when no table move returns to the first square. */
    lemma NoClosingMove(path: seq<Position>)
      requires SearchState(path) && |path| == Area() && closedTour
      requires forall m :: m in PossibleKnightMoves ==> !ReturnsTo(path[|path| - 1], m, path[0])
      ensures NoTourExtends(path)
    {
      forall t | CompleteWalk(t) && AllowedFrom(t, |path|) ensures !Extends(path, t) {
        if Extends(path, t) {
          ClosingStep(path, t);
        }
      }
    }

    /** knightTour.ts, lines 95-105. */
    predicate IsValidMove(position: Position)
      requires Valid()
      reads chessboard.board
      ensures IsValidMove(position) <==> Free(chessboard.board, position.x, position.y)
    {
      IsValidSquare(chessboard.board, position.x, position.y)
    }

    /** knightTour.ts, lines 107-121: the number of table moves from `position`
        onto free squares. */
    method CalculateDegree(position: Position) returns (count: int)
      requires Valid()
      ensures count == FreeCount(chessboard.board, position, PossibleKnightMoves)
      ensures 0 <= count <= 8
    {
      count := 0;
      var i := 0;
      while i < |knightMoves|
        invariant 0 <= i <= |knightMoves|
        invariant count == FreeCount(chessboard.board, position, knightMoves[..i])
      {
        var possibleMove := knightMoves[i];
        var newPosition := Target(position, possibleMove);
        assert knightMoves[..i + 1][..i] == knightMoves[..i];
        if IsValidMove(newPosition) {
          count := count + 1;
        }
        i := i + 1;
      }
      assert knightMoves[..i] == knightMoves;
    }

    /** knightTour.ts, lines 209-222: the candidates of Warnsdorf's rule, in
        table order. */
    method CollectCandidates(currentPosition: Position) returns (candidateMoves: seq<Candidate>)
      requires Valid()
      ensures candidateMoves == Candidates(chessboard.board, currentPosition, PossibleKnightMoves)
      ensures AllReach(chessboard.board, currentPosition, candidateMoves)
      ensures forall c :: c in candidateMoves ==> c.degree == FreeCount(chessboard.board, c.newPosition, PossibleKnightMoves)
      ensures StrictlyIncreasing(candidateMoves, CandidateTag)
    {
      candidateMoves := [];
      var i := 0;
      while i < |knightMoves|
        invariant 0 <= i <= |knightMoves|
        invariant candidateMoves == Candidates(chessboard.board, currentPosition, knightMoves[..i])
      {
        var possibleMove := knightMoves[i];
        var newPosition := Target(currentPosition, possibleMove);
        assert knightMoves[..i + 1][..i] == knightMoves[..i];
        if IsValidMove(newPosition) {
          var newPositionDegree := CalculateDegree(newPosition);
          candidateMoves := candidateMoves + [Candidate(newPosition, newPositionDegree)];
        }
        i := i + 1;
      }
      assert knightMoves[..i] == knightMoves;
      CandidateFacts(chessboard.board, currentPosition);
    }

    /** knightTour.ts, lines 133-149: a closed tour needs one more table move
        from the last square back onto the first; the first such move is
        appended. */
    method CloseTour(path: seq<Position>) returns (result: Option<seq<Position>>)
      requires Valid() && 1 <= |path|
      ensures result.Some? ==>
        (exists i :: 0 <= i < 8 &&
           result.value == path + [Target(path[|path| - 1], PossibleKnightMoves[i])] &&
           ReturnsTo(path[|path| - 1], PossibleKnightMoves[i], path[0]) &&
           forall j :: 0 <= j < i ==> !ReturnsTo(path[|path| - 1], PossibleKnightMoves[j], path[0]))
      ensures result.None? ==> forall m :: m in PossibleKnightMoves ==> !ReturnsTo(path[|path| - 1], m, path[0])
    {
      var lastPosition := path[|path| - 1];
      var firstPosition := path[0];
      var i := 0;
      while i < |knightMoves|
        invariant 0 <= i <= |knightMoves|
        invariant forall j :: 0 <= j < i ==> !ReturnsTo(lastPosition, knightMoves[j], firstPosition)
      {
        var possibleMove := knightMoves[i];
        var newPosition := Target(lastPosition, possibleMove);
        if newPosition.x == firstPosition.x && newPosition.y == firstPosition.y {
          return Some(path + [newPosition]);
        }
        i := i + 1;
      }
      return None;
    }

    /** knightTour.ts, lines 166-174, 192-200 and 347-356: mark the square with
        its visit index, search on, and clear the mark again if that fails. */
    method TryMove(path: seq<Position>, newPosition: Position) returns (result: Option<seq<Position>>)
      requires SearchState(path) && |path| < Area()
      requires 0 <= iterationCount <= CountBound()
      requires KnightStep(path[|path| - 1], newPosition)
      requires Free(chessboard.board, newPosition.x, newPosition.y)
      modifies this`iterationCount, chessboard.board
      decreases Area() - |path|, 0
      ensures old(iterationCount) <= iterationCount <= CountBound()
      ensures old(iterationCount) > iterationLimit ==> result.None?
      ensures result.None? ==> unchanged(chessboard.board)
      ensures result.None? && iterationCount <= iterationLimit ==> NoTourExtends(path + [newPosition])
      ensures result.Some? ==>
        Found(path, result.value) && result.value[|path|] == newPosition &&
        iterationCount >= old(iterationCount) + Area() - |path|
    {
      chessboard.board[newPosition.x, newPosition.y] := |path|;
      var next := path + [newPosition];
      assert Numbered(chessboard.board, next) by {
        forall i | 0 <= i < |path|
          ensures chessboard.board[path[i].x, path[i].y] == i
        {
          assert old(chessboard.board[path[i].x, path[i].y]) == i;
        }
      }
      result := CalculateNextMove(next);
      if result.None? {
        chessboard.board[newPosition.x, newPosition.y] := Unvisited;
      } else {
        assert path == next[..|path|];
        assert result.value[|path|] == next[|path|];
      }
    }

    /** knightTour.ts, lines 123-363: one call of the search. It gives up once
        the budget is spent, accepts a path over every square (closing it first
        for a closed tour), and otherwise extends the path by the configured
        algorithm, taking the first success in that algorithm's order. On
        failure the board is as it was, and unless the budget ran out no tour
        the search could take extends the path. */
    method CalculateNextMove(path: seq<Position>) returns (result: Option<seq<Position>>)
      requires SearchState(path)
      requires 0 <= iterationCount <= CountBound()
      modifies this`iterationCount, chessboard.board
      decreases Area() - |path|, 3
      ensures old(iterationCount) <= iterationCount <= CountBound()
      ensures old(iterationCount) > iterationLimit ==> result.None? && iterationCount == old(iterationCount)
      ensures result.None? ==> unchanged(chessboard.board)
      ensures result.None? && iterationCount <= iterationLimit ==> NoTourExtends(path)
      ensures result.Some? ==> Found(path, result.value) && iterationCount >= old(iterationCount) + Area() - |path| + 1
      ensures result.Some? && |path| < Area() && algorithm == BruteForce ==> TableFirst(path, result.value)
      ensures result.Some? && |path| < Area() && algorithm == MoveOrdering ==> DigitFirst(path, result.value)
      ensures result.Some? && |path| < Area() && algorithm == Warnsdorf ==>
        TieBreakFirst(old(Candidates(chessboard.board, path[|path| - 1], PossibleKnightMoves)), path, result.value)
    {
      if iterationCount > iterationLimit {
        return None;
      }
      iterationCount := iterationCount + 1;
      if |path| == Area() {
        NumberedDistinct(chessboard.board, path);
        assert path[..Area()] == path;
        if closedTour {
          result := CloseTour(path);
          if result.Some? {
            assert result.value[..Area()] == path;
          } else {
            NoClosingMove(path);
          }
        } else {
          result := Some(path);
        }
        return;
      }
      if algorithm == BruteForce {
        result := BruteForceStep(path);
      } else if algorithm == MoveOrdering {
        result := MoveOrderingStep(path);
      } else {
        ghost var ordered;
        result, ordered := WarnsdorfStep(path);
      }
    }

    /** knightTour.ts, lines 158-178: the table moves onto free squares, tried
        in table order until one leads to a tour. */
    method BruteForceStep(path: seq<Position>) returns (result: Option<seq<Position>>)
      requires SearchState(path) && |path| < Area()
      requires 0 <= iterationCount <= CountBound()
      modifies this`iterationCount, chessboard.board
      decreases Area() - |path|, 1
      ensures old(iterationCount) <= iterationCount <= CountBound()
      ensures result.None? ==> unchanged(chessboard.board)
      ensures result.None? && iterationCount <= iterationLimit ==> NoTourExtends(path)
      ensures result.Some? ==> Found(path, result.value) && iterationCount >= old(iterationCount) + Area() - |path|
      ensures result.Some? ==> TableFirst(path, result.value)
    {
      var currentPosition := path[|path| - 1];
      var i := 0;
      while i < |knightMoves|
        invariant 0 <= i <= |knightMoves|
        invariant old(iterationCount) <= iterationCount <= CountBound()
        invariant unchanged(chessboard.board)
        invariant iterationCount <= iterationLimit ==>
          forall k :: 0 <= k < i ==> DeadEnd(path, Target(currentPosition, knightMoves[k]))
      {
        var possibleMove := knightMoves[i];
        var newPosition := Target(currentPosition, possibleMove);
        FreeOffPath(chessboard.board, path, newPosition.x, newPosition.y);
        if IsValidMove(newPosition) {
          result := TryMove(path, newPosition);
          if result.Some? {
            return;
          }
        }
        i := i + 1;
      }
      if iterationCount <= iterationLimit {
        forall m | m in PossibleKnightMoves && AllowedMove(m) ensures DeadEnd(path, Target(currentPosition, m)) {
          var k :| 0 <= k < 8 && knightMoves[k] == m;
        }
        NoTourFromNext(path);
      }
      return None;
    }

    /** knightTour.ts, lines 180-205: the moves named by the digits of the
        custom ordering, in digit order, each tried when it leads to a free
        square; a digit that names no move is skipped. */
    method MoveOrderingStep(path: seq<Position>) returns (result: Option<seq<Position>>)
      requires SearchState(path) && |path| < Area() && algorithm == MoveOrdering
      requires 0 <= iterationCount <= CountBound()
      modifies this`iterationCount, chessboard.board
      decreases Area() - |path|, 2
      ensures old(iterationCount) <= iterationCount <= CountBound()
      ensures result.None? ==> unchanged(chessboard.board)
      ensures result.None? && iterationCount <= iterationLimit ==> NoTourExtends(path)
      ensures result.Some? ==> Found(path, result.value) && iterationCount >= old(iterationCount) + Area() - |path|
      ensures result.Some? ==> DigitFirst(path, result.value)
    {
      var currentPosition := path[|path| - 1];
      var i := 0;
      while i < |moveOrdering|
        invariant 0 <= i <= |moveOrdering|
        invariant old(iterationCount) <= iterationCount <= CountBound()
        invariant unchanged(chessboard.board)
        invariant iterationCount <= iterationLimit ==>
          forall k :: 0 <= k < i ==> DigitDeadEnd(path, moveOrdering[k])
      {
        result := TryDigit(path, moveOrdering[i]);
        if result.Some? {
          return;
        }
        if iterationCount <= iterationLimit {
          DigitsDeadEnd(path, i);
        }
        i := i + 1;
      }
      if iterationCount <= iterationLimit {
        NoTourFromDigits(path);
      }
      return None;
    }

    /** knightTour.ts, lines 182-200: the move digit d names, tried when its
        square is free. */
    method TryDigit(path: seq<Position>, d: int) returns (result: Option<seq<Position>>)
      requires SearchState(path) && |path| < Area()
      requires 0 <= iterationCount <= CountBound()
      modifies this`iterationCount, chessboard.board
      decreases Area() - |path|, 1
      ensures old(iterationCount) <= iterationCount <= CountBound()
      ensures result.None? ==> unchanged(chessboard.board)
      ensures old(iterationCount) > iterationLimit ==> result.None?
      ensures result.None? && iterationCount <= iterationLimit ==> DigitDeadEnd(path, d)
      ensures result.Some? ==>
        Found(path, result.value) && iterationCount >= old(iterationCount) + Area() - |path| &&
        FindMove(PossibleKnightMoves, d).Some? &&
        result.value[|path|] == Target(path[|path| - 1], FindMove(PossibleKnightMoves, d).value)
    {
      var found := FindMove(knightMoves, d);
      if found.Some? {
        var newPosition := Target(path[|path| - 1], found.value);
        FreeOffPath(chessboard.board, path, newPosition.x, newPosition.y);
        if IsValidMove(newPosition) {
          result := TryMove(path, newPosition);
          return;
        }
      }
      result := None;
    }

    /** knightTour.ts, lines 207-360: the candidates, ordered by degree and the
        tie-break (`ordered`), each tried in turn until one leads to a tour. */
    method WarnsdorfStep(path: seq<Position>) returns (result: Option<seq<Position>>, ghost ordered: seq<Candidate>)
      requires SearchState(path) && |path| < Area()
      requires 0 <= iterationCount <= CountBound()
      modifies this`iterationCount, chessboard.board
      decreases Area() - |path|, 2
      ensures old(iterationCount) <= iterationCount <= CountBound()
      ensures var cs := old(Candidates(chessboard.board, path[|path| - 1], PossibleKnightMoves));
        if cs == [] then ordered == [] else WarnsdorfOrdered(cs, ordered) && Covers(cs, ordered)
      ensures result.None? ==> unchanged(chessboard.board)
      ensures result.None? && iterationCount <= iterationLimit ==> NoTourExtends(path)
      ensures result.Some? ==> Found(path, result.value) && iterationCount >= old(iterationCount) + Area() - |path|
      ensures result.Some? ==> OrderFirst(path, ordered, result.value)
    {
      var currentPosition := path[|path| - 1];
      var candidateMoves := CollectCandidates(currentPosition);
      ghost var cands := candidateMoves;
      if |candidateMoves| != 0 {
        candidateMoves := WarnsdorfOrder(|path|, candidateMoves, currentPosition);
      }
      ordered := candidateMoves;
      result := TryInOrder(path, candidateMoves);
      if result.None? && iterationCount <= iterationLimit {
        NoTourFromOrder(path, cands, ordered);
      }
    }

    /** knightTour.ts, lines 346-357: each candidate of `ordered` tried in turn
        until one leads to a tour. */
    method TryInOrder(path: seq<Position>, ordered: seq<Candidate>) returns (result: Option<seq<Position>>)
      requires SearchState(path) && |path| < Area()
      requires 0 <= iterationCount <= CountBound()
      requires AllReach(chessboard.board, path[|path| - 1], ordered)
      modifies this`iterationCount, chessboard.board
      decreases Area() - |path|, 1
      ensures old(iterationCount) <= iterationCount <= CountBound()
      ensures result.None? ==> unchanged(chessboard.board)
      ensures result.None? && iterationCount <= iterationLimit ==>
        forall k :: 0 <= k < |ordered| ==> NoTourExtends(path + [ordered[k].newPosition])
      ensures result.Some? ==> Found(path, result.value) && iterationCount >= old(iterationCount) + Area() - |path|
      ensures result.Some? ==> OrderFirst(path, ordered, result.value)
    {
      var i := 0;
      while i < |ordered|
        invariant 0 <= i <= |ordered|
        invariant old(iterationCount) <= iterationCount <= CountBound()
        invariant unchanged(chessboard.board)
        invariant iterationCount <= iterationLimit ==>
          forall k :: 0 <= k < i ==> NoTourExtends(path + [ordered[k].newPosition])
      {
        var newPosition := ordered[i].newPosition;
        assert ordered[i] in ordered;
        result := TryMove(path, newPosition);
        if result.Some? {
          return;
        }
        i := i + 1;
      }
      return None;
    }

    /** knightTour.ts, lines 224-343: sort by degree, then reorder the
        candidates that share the smallest degree as the tie-break says; every
        candidate's square stays in the order. */
    method WarnsdorfOrder(pathLength: int, candidateMoves: seq<Candidate>, ghost current: Position)
      returns (ordered: seq<Candidate>)
      requires Valid() && candidateMoves != []
      requires StrictlyIncreasing(candidateMoves, CandidateTag)
      requires AllReach(chessboard.board, current, candidateMoves)
      requires forall c :: c in candidateMoves ==> c.degree == FreeCount(chessboard.board, c.newPosition, PossibleKnightMoves)
      modifies chessboard.board
      ensures unchanged(chessboard.board)
      ensures AllReach(chessboard.board, current, ordered)
      ensures WarnsdorfOrdered(candidateMoves, ordered)
      ensures Covers(candidateMoves, ordered)
    {
      if tieBreakMethod == First || tieBreakMethod == MoveOrderingTieBreak {
        ordered := KeyedTieOrder(candidateMoves, current);
      } else {
        ordered := RearrangedTieOrder(pathLength, candidateMoves, current);
      }
    }

    /** knightTour.ts, lines 224-251: under FIRST and MOVE_ORDERING the ties are
        re-sorted by their place in the table or in the ordering digits. */
    method KeyedTieOrder(candidateMoves: seq<Candidate>, ghost current: Position) returns (ordered: seq<Candidate>)
      requires candidateMoves != [] && (tieBreakMethod == First || tieBreakMethod == MoveOrderingTieBreak)
      requires StrictlyIncreasing(candidateMoves, CandidateTag)
      requires AllReach(chessboard.board, current, candidateMoves)
      ensures AllReach(chessboard.board, current, ordered)
      ensures WarnsdorfOrdered(candidateMoves, ordered)
      ensures Covers(candidateMoves, ordered)
    {
      var sorted := SortBy(candidateMoves, DegreeKey);
      var key := if tieBreakMethod == MoveOrderingTieBreak then IndexKey(moveOrdering) else IndexKey(TableOrdering);
      ordered := ReorderTies(sorted, key);
      assert AllReach(chessboard.board, current, ordered) by {
        ReorderedReach(chessboard.board, current, candidateMoves, key);
      }
      if tieBreakMethod == First {
        FirstTieBreak(candidateMoves);
      }
      ReorderCovers(candidateMoves, key);
    }

    /** knightTour.ts, lines 224-230 and 253-343: under RANDOM, POHL and the
        centre rules the ties are rearranged by a comparator that may answer at
        random. */
    method RearrangedTieOrder(pathLength: int, candidateMoves: seq<Candidate>, ghost current: Position)
      returns (ordered: seq<Candidate>)
      requires Valid() && candidateMoves != [] && tieBreakMethod != First && tieBreakMethod != MoveOrderingTieBreak
      requires StrictlyIncreasing(candidateMoves, CandidateTag)
      requires AllReach(chessboard.board, current, candidateMoves)
      requires forall c :: c in candidateMoves ==> c.degree == FreeCount(chessboard.board, c.newPosition, PossibleKnightMoves)
      modifies chessboard.board
      ensures unchanged(chessboard.board)
      ensures AllReach(chessboard.board, current, ordered)
      ensures WarnsdorfOrdered(candidateMoves, ordered)
      ensures Covers(candidateMoves, ordered)
    {
      var sorted := SortBy(candidateMoves, DegreeKey);
      assert SortedBy(sorted, DegreeKey) && AllReach(chessboard.board, current, sorted) by {
        DegreeOrder(candidateMoves);
        AllReachPermutation(chessboard.board, current, candidateMoves, sorted);
      }
      if tieBreakMethod == Pohl {
        assert forall c :: c in sorted ==> c.degree == FreeCount(chessboard.board, c.newPosition, PossibleKnightMoves) by {
          forall c | c in sorted ensures c in candidateMoves {
            SortByPermutes(candidateMoves, DegreeKey);
            assert c in multiset(sorted);
          }
        }
        ordered := PohlOrder(pathLength, sorted, current);
        PohlCovers(sorted, ordered);
      } else {
        var key :=
          if tieBreakMethod == ClosestToCenter then CenterKey(chessboard.width, chessboard.height, false)
          else if tieBreakMethod == FurthestFromCenter then CenterKey(chessboard.width, chessboard.height, true)
          else NoKey;
        ordered := ShuffleOrder(sorted, key, current);
        ShuffleCovers(sorted, ordered, key);
      }
      assert Covers(candidateMoves, ordered) by {
        SortByPermutes(candidateMoves, DegreeKey);
        CoversFrom(candidateMoves, sorted, ordered);
      }
    }

    /** knightTour.ts, lines 253-260 and 302-343: the ties rearranged by a
        comparator that falls back on `Math.random()`, then the others. */
    method ShuffleOrder(sorted: seq<Candidate>, key: Candidate -> int, ghost current: Position)
      returns (ordered: seq<Candidate>)
      requires sorted != [] && SortedBy(sorted, DegreeKey)
      requires AllReach(chessboard.board, current, sorted)
      ensures TiesShuffled(sorted, ordered, key)
      ensures AllReach(chessboard.board, current, ordered)
    {
      TiesSplit(sorted);
      var smallestDegree := sorted[0].degree;
      var movesWithSmallestDegree := Where(sorted, DegreeKey, smallestDegree);
      ordered := sorted;
      if |movesWithSmallestDegree| > 1 {
        var g := movesWithSmallestDegree;
        AllReachSlices(chessboard.board, current, sorted, |g|);
        movesWithSmallestDegree := ShuffleTies(g, key);
        ordered := movesWithSmallestDegree + WhereNot(sorted, DegreeKey, smallestDegree);
        assert |movesWithSmallestDegree| == |g| by {
          assert |multiset(movesWithSmallestDegree)| == |multiset(g)|;
        }
        assert ordered[..|g|] == movesWithSmallestDegree;
        AllReachPermutation(chessboard.board, current, g, movesWithSmallestDegree);
      }
    }

    /** knightTour.ts, lines 262-300: probe the ties, rearrange them, then the
        candidates whose (updated) degree differs from the smallest one. */
    method PohlOrder(pathLength: int, sorted: seq<Candidate>, ghost current: Position)
      returns (ordered: seq<Candidate>)
      requires Valid() && sorted != [] && SortedBy(sorted, DegreeKey)
      requires AllReach(chessboard.board, current, sorted)
      requires forall c :: c in sorted ==> c.degree == FreeCount(chessboard.board, c.newPosition, PossibleKnightMoves)
      modifies chessboard.board
      ensures unchanged(chessboard.board)
      ensures PohlOrdered(sorted, ordered)
      ensures AllReach(chessboard.board, current, ordered)
    {
      TiesSplit(sorted);
      var smallestDegree := sorted[0].degree;
      var movesWithSmallestDegree := Where(sorted, DegreeKey, smallestDegree);
      ordered := sorted;
      if |movesWithSmallestDegree| > 1 {
        var g := movesWithSmallestDegree;
        AllReachSlices(chessboard.board, current, sorted, |g|);
        var probed := PohlProbe(pathLength, g);
        forall k | 0 <= k < |g| ensures probed[k] == Zeroed(g)[k] {
          assert g[k] in g && g[k] == sorted[k];
        }
        assert probed == Zeroed(g);
        // the probe updated the candidate objects, which the sorted list shares
        var updated := probed + sorted[|g|..];
        movesWithSmallestDegree := ShuffleTies(probed, DegreeKey);
        ordered := movesWithSmallestDegree + WhereNot(updated, DegreeKey, smallestDegree);
        PohlTail(sorted);
        AllReachZeroed(chessboard.board, current, g);
        assert |movesWithSmallestDegree| == |g| by {
          assert |multiset(movesWithSmallestDegree)| == |multiset(probed)|;
        }
        assert ordered[..|g|] == movesWithSmallestDegree;
        AllReachPermutation(chessboard.board, current, probed, movesWithSmallestDegree);
      }
    }

    /** knightTour.ts, lines 271-282: `degree` decreased once for every table
        move from `position` onto a free square. */
    method DecreaseByDegree(position: Position, degree: int) returns (d: int)
      requires Valid()
      ensures d == degree - FreeCount(chessboard.board, position, PossibleKnightMoves)
      ensures degree - 8 <= d <= degree
    {
      d := degree;
      var j := 0;
      while j < |knightMoves|
        invariant 0 <= j <= |knightMoves|
        invariant d == degree - FreeCount(chessboard.board, position, knightMoves[..j])
      {
        var possibleMove := knightMoves[j];
        var move := Target(position, possibleMove);
        assert knightMoves[..j + 1][..j] == knightMoves[..j];
        if IsValidMove(move) {
          d := d - 1;
        }
        j := j + 1;
      }
      assert knightMoves[..j] == knightMoves;
    }

    /** knightTour.ts, lines 269-285, for one tie: mark its square as visited,
        decrease its degree by the degree of that square, and clear the mark.
        Marking a square does not change its own degree, so the result is the
        original degree minus the square's degree before the mark. */
    method ProbeOne(pathLength: int, c: Candidate) returns (probedMove: Candidate)
      requires Valid() && Free(chessboard.board, c.newPosition.x, c.newPosition.y)
      modifies chessboard.board
      ensures unchanged(chessboard.board)
      ensures probedMove == c.(degree := c.degree - old(FreeCount(chessboard.board, c.newPosition, PossibleKnightMoves)))
    {
      var p := c.newPosition;
      DegreeIsFreeCount(chessboard.board, p);
      ghost var before := Degree(chessboard.board, p);
      chessboard.board[p.x, p.y] := pathLength + 1;
      var degree := DecreaseByDegree(p, c.degree);
      DegreeIsFreeCount(chessboard.board, p);
      assert Degree(chessboard.board, p) == before;
      chessboard.board[p.x, p.y] := Unvisited;
      probedMove := c.(degree := degree);
    }

    /** knightTour.ts, lines 267-286: every tie probed in turn. */
    method PohlProbe(pathLength: int, group: seq<Candidate>) returns (probed: seq<Candidate>)
      requires Valid()
      requires forall k :: 0 <= k < |group| ==> Free(chessboard.board, group[k].newPosition.x, group[k].newPosition.y)
      modifies chessboard.board
      ensures unchanged(chessboard.board)
      ensures |probed| == |group|
      ensures forall k :: 0 <= k < |group| ==>
        probed[k] == group[k].(degree := group[k].degree - old(FreeCount(chessboard.board, group[k].newPosition, PossibleKnightMoves)))
    {
      probed := group;
      var i := 0;
      while i < |probed|
        invariant 0 <= i <= |probed| == |group|
        invariant unchanged(chessboard.board)
        invariant forall k :: 0 <= k < i ==>
          probed[k] == group[k].(degree := group[k].degree - old(FreeCount(chessboard.board, group[k].newPosition, PossibleKnightMoves)))
        invariant forall k :: i <= k < |group| ==> probed[k] == group[k]
      {
        var probedMove := ProbeOne(pathLength, probed[i]);
        probed := probed[i := probedMove];
        i := i + 1;
      }
    }

    /** knightTour.ts, line 367: an odd number of squares and a start square of
        odd colour. */
    predicate OddBoardOddStartCase() {
      Area() % 2 != 0 && (startX + startY) % 2 != 0
    }

    /** knightTour.ts, line 371: a closed tour asked for on an odd number of
        squares. */
    predicate OddBoardClosedTourCase() {
      closedTour && Area() % 2 != 0
    }

    ghost predicate Searched() {
      !OddBoardOddStartCase() && !OddBoardClosedTourCase()
    }

    /** knightTour.ts, lines 365-409: reject the two parity cases, mark the
        start square, then run up to attemptLimit searches from it, each with a
        fresh budget, totalling their iterations. A failed search leaves the
        board as it found it, so every attempt starts from the same board. */
    method SolveKnightTour() returns (output: KnightTourOutput)
      requires Valid()
      requires 0 <= startX < chessboard.width && 0 <= startY < chessboard.height
      requires forall x, y :: 0 <= x < chessboard.width && 0 <= y < chessboard.height ==>
        chessboard.board[x, y] == Unvisited
      modifies this`iterationCount, this`totalIterationCount, this`attemptCount, this`attemptIterations, chessboard.board
      ensures OddBoardOddStartCase() ==>
        output == KnightTourOutput(None, None, false, OddBoardOddStart) && unchanged(chessboard.board)
      ensures !OddBoardOddStartCase() && OddBoardClosedTourCase() ==>
        output == KnightTourOutput(None, None, false, OddBoardClosedTour) && unchanged(chessboard.board)
      ensures !Searched() ==>
        iterationCount == old(iterationCount) && totalIterationCount == old(totalIterationCount) &&
        attemptCount == old(attemptCount) && attemptIterations == old(attemptIterations)
      ensures Searched() ==>
        totalIterationCount == Sum(attemptIterations) &&
        (forall k :: 0 <= k < |attemptIterations| ==> 0 <= attemptIterations[k] <= CountBound())
      ensures Searched() && output.success ==>
        output.chessboard == Some(chessboard) && output.path.Some? &&
        IsTour(output.path.value) && Numbered(chessboard.board, output.path.value[..Area()]) &&
        0 <= attemptCount < attemptLimit && |attemptIterations| == attemptCount + 1 &&
        output.message == TourCompleted(iterationCount, attemptCount + 1, totalIterationCount) &&
        iterationCount == attemptIterations[attemptCount] &&
        Area() <= iterationLimit + 1
      ensures Searched() && !output.success ==>
        output == KnightTourOutput(Some(chessboard), None, false, NoSolution(attemptCount, totalIterationCount)) &&
        attemptCount == Max(0, attemptLimit) && |attemptIterations| == attemptCount &&
        Numbered(chessboard.board, [Start()])
      ensures Searched() && !output.success ==>
        (exists k :: 0 <= k < |attemptIterations| && attemptIterations[k] <= iterationLimit) ==>
        NoTourExtends([Start()])
    {
      if Area() % 2 != 0 && (startX + startY) % 2 != 0 {
        return KnightTourOutput(None, None, false, OddBoardOddStart);
      }
      if closedTour && Area() % 2 != 0 {
        return KnightTourOutput(None, None, false, OddBoardClosedTour);
      }
      var board := chessboard.board;
      var path := [Start()];
      board[startX, startY] := 0;
      assert Numbered(board, path);
      output := RunAttempts(path);
    }

    /** knightTour.ts, lines 375-409: up to attemptLimit searches from the
        marked start square, each with a fresh budget, totalling their
        iterations; the first success is returned. */
    method RunAttempts(path: seq<Position>) returns (output: KnightTourOutput)
      requires Valid()
      requires 0 <= startX < chessboard.width && 0 <= startY < chessboard.height
      requires path == [Start()] && Numbered(chessboard.board, path)
      modifies this`iterationCount, this`totalIterationCount, this`attemptCount, this`attemptIterations, chessboard.board
      ensures totalIterationCount == Sum(attemptIterations)
      ensures forall k :: 0 <= k < |attemptIterations| ==> 0 <= attemptIterations[k] <= CountBound()
      ensures output.success ==>
        output.chessboard == Some(chessboard) && output.path.Some? &&
        IsTour(output.path.value) && Numbered(chessboard.board, output.path.value[..Area()]) &&
        0 <= attemptCount < attemptLimit && |attemptIterations| == attemptCount + 1 &&
        output.message == TourCompleted(iterationCount, attemptCount + 1, totalIterationCount) &&
        iterationCount == attemptIterations[attemptCount] &&
        Area() <= iterationLimit + 1
      ensures !output.success ==>
        output == KnightTourOutput(Some(chessboard), None, false, NoSolution(attemptCount, totalIterationCount)) &&
        attemptCount == Max(0, attemptLimit) && |attemptIterations| == attemptCount &&
        Numbered(chessboard.board, path)
      ensures !output.success && (exists k :: 0 <= k < |attemptIterations| && attemptIterations[k] <= iterationLimit) ==>
        NoTourExtends(path)
    {
      totalIterationCount := 0;
      attemptIterations := [];
      attemptCount := 0;
      while attemptCount < attemptLimit
        invariant 0 <= attemptCount <= Max(0, attemptLimit)
        invariant |attemptIterations| == attemptCount
        invariant Numbered(chessboard.board, path)
        invariant Counted() && NoTourIfUnspent(path)
      {
        output := Attempt(path);
        if output.success {
          return;
        }
        attemptCount := attemptCount + 1;
      }
      return KnightTourOutput(Some(chessboard), None, false, NoSolution(attemptCount, totalIterationCount));
    }

    /** The attempts' counts so far: their total, and each within the budget's bound. */
    ghost predicate Counted()
      reads this
    {
      totalIterationCount == Sum(attemptIterations) &&
      forall k :: 0 <= k < |attemptIterations| ==> 0 <= attemptIterations[k] <= CountBound()
    }

    /** A failed attempt that stayed within its budget showed that no tour extends path. */
    ghost predicate NoTourIfUnspent(path: seq<Position>)
      reads this
    {
      forall k :: 0 <= k < |attemptIterations| && attemptIterations[k] <= iterationLimit ==> NoTourExtends(path)
    }

    /** knightTour.ts, lines 385-400: one search with a fresh budget, its count
        recorded, and the report of the tour it finds. */
    method Attempt(path: seq<Position>) returns (output: KnightTourOutput)
      requires SearchState(path) && path == [Start()] && |attemptIterations| == attemptCount
      requires Counted() && NoTourIfUnspent(path)
      modifies this`iterationCount, this`totalIterationCount, this`attemptIterations, chessboard.board
      ensures Counted()
      ensures |attemptIterations| == attemptCount + 1
      ensures output.success ==>
        output.chessboard == Some(chessboard) && output.path.Some? &&
        IsTour(output.path.value) && Numbered(chessboard.board, output.path.value[..Area()]) &&
        output.message == TourCompleted(iterationCount, attemptCount + 1, totalIterationCount) &&
        iterationCount == attemptIterations[attemptCount] &&
        Area() <= iterationLimit + 1
      ensures !output.success ==> unchanged(chessboard.board) && NoTourIfUnspent(path)
    {
      ghost var before := attemptIterations;
      iterationCount := 0;
      var solutionPath := CalculateNextMove(path);
      totalIterationCount := totalIterationCount + iterationCount;
      attemptIterations := attemptIterations + [iterationCount];
      assert attemptIterations[..|before|] == before;
      assert forall k :: 0 <= k < |before| ==> attemptIterations[k] == before[k];
      if solutionPath.Some? {
        output := KnightTourOutput(Some(chessboard), solutionPath, true,
          TourCompleted(iterationCount, attemptCount + 1, totalIterationCount));
      } else {
        output := KnightTourOutput(Some(chessboard), None, false, NoSolution(attemptCount, totalIterationCount));
      }
    }
  }
}
