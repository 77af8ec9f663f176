/** `Array.prototype.sort` with a numeric comparator `(a, b) => key(a) - key(b)`,
    which the language requires to be stable: a stable insertion sort by an
    integer key, and `filter` by key, with the facts the search relies on. */
module Sorting {

  /** Places x after the last element whose key is at most key(x). */
  function Insert<T>(s: seq<T>, x: T, key: T -> int): (r: seq<T>)
    ensures |r| == |s| + 1
  {
    if s == [] || key(s[|s| - 1]) <= key(x) then s + [x]
    else Insert(s[..|s| - 1], x, key) + [s[|s| - 1]]
  }

  function SortBy<T>(s: seq<T>, key: T -> int): (r: seq<T>)
    ensures |r| == |s|
  {
    if s == [] then [] else Insert(SortBy(s[..|s| - 1], key), s[|s| - 1], key)
  }

  predicate SortedBy<T>(s: seq<T>, key: T -> int) {
    forall i, j :: 0 <= i < j < |s| ==> key(s[i]) <= key(s[j])
  }

  /** Ordered by key, and by tag among equal keys. */
  ghost predicate LexSortedBy<T>(s: seq<T>, key: T -> int, tag: T -> int) {
    forall i, j :: 0 <= i < j < |s| ==> Before(s[i], s[j], key, tag)
  }

  /** No two elements share a key: a comparator by key then never sees a tie. */
  predicate DistinctKeys<T>(s: seq<T>, key: T -> int) {
    forall i, j :: 0 <= i < j < |s| ==> key(s[i]) != key(s[j])
  }

  ghost predicate StrictlyIncreasing<T>(s: seq<T>, tag: T -> int) {
    forall i, j :: 0 <= i < j < |s| ==> tag(s[i]) < tag(s[j])
  }

  /** `s.filter(e => key(e) === k)` */
  function Where<T>(s: seq<T>, key: T -> int, k: int): (r: seq<T>)
    ensures |r| <= |s|
  {
    if s == [] then []
    else (if key(s[0]) == k then [s[0]] else []) + Where(s[1..], key, k)
  }

  /** `s.filter(e => key(e) !== k)` */
  function WhereNot<T>(s: seq<T>, key: T -> int, k: int): (r: seq<T>)
    ensures |r| <= |s|
  {
    if s == [] then []
    else (if key(s[0]) != k then [s[0]] else []) + WhereNot(s[1..], key, k)
  }

  lemma {:induction false} InsertPermutes<T>(s: seq<T>, x: T, key: T -> int)
    ensures multiset(Insert(s, x, key)) == multiset(s) + multiset{x}
  {
    if s == [] || key(s[|s| - 1]) <= key(x) {
    } else {
      var n := |s| - 1;
      InsertPermutes(s[..n], x, key);
      assert s == s[..n] + [s[n]];
    }
  }

  /** Sorting only rearranges. */
  lemma {:induction false} SortByPermutes<T>(s: seq<T>, key: T -> int)
    ensures multiset(SortBy(s, key)) == multiset(s)
    ensures |SortBy(s, key)| == |s|
  {
    if s != [] {
      var n := |s| - 1;
      SortByPermutes(s[..n], key);
      InsertPermutes(SortBy(s[..n], key), s[n], key);
      assert s == s[..n] + [s[n]];
    }
  }

  lemma {:induction false} InsertSorted<T>(s: seq<T>, x: T, key: T -> int)
    requires SortedBy(s, key)
    ensures SortedBy(Insert(s, x, key), key)
  {
    if s == [] || key(s[|s| - 1]) <= key(x) {
      forall e | e in s ensures key(e) <= key(x) {
        var i :| 0 <= i < |s| && s[i] == e;
      }
      SortedAppend(s, x, key);
    } else {
      var n := |s| - 1;
      var front := s[..n];
      InsertSorted(front, x, key);
      InsertBelow(front, x, s[n], key);
      SortedAppend(Insert(front, x, key), s[n], key);
    }
  }

  /** Inserting below an upper bound keeps everything below it. */
  lemma InsertBelow<T>(front: seq<T>, x: T, y: T, key: T -> int)
    requires forall e :: e in front ==> key(e) <= key(y)
    requires key(x) <= key(y)
    ensures forall e :: e in Insert(front, x, key) ==> key(e) <= key(y)
  {
    InsertPermutes(front, x, key);
    forall e | e in Insert(front, x, key) ensures key(e) <= key(y) {
      assert e in multiset(Insert(front, x, key));
      if e != x {
        assert e in multiset(front);
      }
    }
  }

  lemma SortedAppend<T>(r: seq<T>, y: T, key: T -> int)
    requires SortedBy(r, key)
    requires forall e :: e in r ==> key(e) <= key(y)
    ensures SortedBy(r + [y], key)
  {
    var q := r + [y];
    forall i, j | 0 <= i < j < |q| ensures key(q[i]) <= key(q[j]) {
      if j == |r| {
        assert q[i] in r;
      } else {
        assert q[i] == r[i] && q[j] == r[j];
      }
    }
  }

  /** The result of sorting is ordered by the key. */
  lemma {:induction false} SortBySorted<T>(s: seq<T>, key: T -> int)
    ensures SortedBy(SortBy(s, key), key)
  {
    if s != [] {
      var n := |s| - 1;
      SortBySorted(s[..n], key);
      InsertSorted(SortBy(s[..n], key), s[n], key);
    }
  }

  ghost predicate Before<T>(a: T, b: T, key: T -> int, tag: T -> int) {
    key(a) < key(b) || (key(a) == key(b) && tag(a) < tag(b))
  }

  lemma LexAppend<T>(r: seq<T>, y: T, key: T -> int, tag: T -> int)
    requires LexSortedBy(r, key, tag)
    requires forall e :: e in r ==> Before(e, y, key, tag)
    ensures LexSortedBy(r + [y], key, tag)
  {
    var q := r + [y];
    forall i, j | 0 <= i < j < |q| ensures Before(q[i], q[j], key, tag) {
      if j == |r| {
        assert q[i] in r;
      } else {
        assert q[i] == r[i] && q[j] == r[j];
      }
    }
  }

  lemma {:induction false} InsertLex<T>(s: seq<T>, x: T, key: T -> int, tag: T -> int)
    requires LexSortedBy(s, key, tag)
    requires forall e :: e in s ==> tag(e) < tag(x)
    ensures LexSortedBy(Insert(s, x, key), key, tag)
  {
    if s == [] || key(s[|s| - 1]) <= key(x) {
      forall e | e in s ensures Before(e, x, key, tag) {
        var i :| 0 <= i < |s| && s[i] == e;
        if i < |s| - 1 {
          assert Before(s[i], s[|s| - 1], key, tag);
        }
      }
      LexAppend(s, x, key, tag);
    } else {
      var n := |s| - 1;
      var front := s[..n];
      assert LexSortedBy(front, key, tag);
      InsertLex(front, x, key, tag);
      InsertPermutes(front, x, key);
      var r := Insert(front, x, key);
      forall e | e in r ensures Before(e, s[n], key, tag) {
        assert e in multiset(r);
        if e != x {
          assert e in multiset(front);
          var k :| 0 <= k < n && front[k] == e;
          assert Before(s[k], s[n], key, tag);
        }
      }
      LexAppend(r, s[n], key, tag);
    }
  }

  /** Stability: sorting an input whose tags increase leaves equal keys in tag order. */
  lemma {:induction false} SortByLex<T>(s: seq<T>, key: T -> int, tag: T -> int)
    requires StrictlyIncreasing(s, tag)
    ensures LexSortedBy(SortBy(s, key), key, tag)
  {
    if s != [] {
      var n := |s| - 1;
      var front := s[..n];
      SortByLex(front, key, tag);
      SortByPermutes(front, key);
      forall e | e in SortBy(front, key) ensures tag(e) < tag(s[n]) {
        assert e in multiset(SortBy(front, key));
        var k :| 0 <= k < n && front[k] == e;
      }
      InsertLex(SortBy(front, key), s[n], key, tag);
    }
  }

  /** Sorting an already sorted sequence changes nothing. */
  lemma {:induction false} SortByIdentity<T>(s: seq<T>, key: T -> int)
    requires SortedBy(s, key)
    ensures SortBy(s, key) == s
  {
    if s != [] {
      var n := |s| - 1;
      SortByIdentity(s[..n], key);
      assert s == s[..n] + [s[n]];
    }
  }

  lemma {:induction false} WhereNotAll<T>(s: seq<T>, key: T -> int, k: int)
    requires forall e :: e in s ==> key(e) != k
    ensures Where(s, key, k) == [] && WhereNot(s, key, k) == s
  {
    if s != [] {
      WhereNotAll(s[1..], key, k);
      assert s == [s[0]] + s[1..];
    }
  }

  lemma {:induction false} WhereAll<T>(s: seq<T>, key: T -> int, k: int)
    requires forall e :: e in s ==> key(e) == k
    ensures Where(s, key, k) == s && WhereNot(s, key, k) == []
  {
    if s != [] {
      WhereAll(s[1..], key, k);
      assert s == [s[0]] + s[1..];
    }
  }

  /** In a sorted sequence the elements with the smallest key form its front. */
  lemma SplitAtMinimum<T>(s: seq<T>, key: T -> int, k: int)
    requires SortedBy(s, key)
    requires forall e :: e in s ==> k <= key(e)
    ensures s == Where(s, key, k) + WhereNot(s, key, k)
  {
    if s != [] {
      assert s[0] in s;
      SplitSorted(s, key, k);
    }
  }

  lemma {:induction false} SplitSorted<T>(s: seq<T>, key: T -> int, k: int)
    requires SortedBy(s, key)
    requires s != [] ==> k <= key(s[0])
    ensures s == Where(s, key, k) + WhereNot(s, key, k)
  {
    if s != [] {
      if key(s[0]) == k {
        SortedTail(s, key);
        SplitSorted(s[1..], key, k);
        SplitCons(s, key, k);
      } else {
        AboveFirst(s, key, k);
        WhereNotAll(s, key, k);
      }
    }
  }

  /** A first element with the key joins the front of its tail's split. */
  lemma SplitCons<T>(s: seq<T>, key: T -> int, k: int)
    requires s != [] && key(s[0]) == k
    requires s[1..] == Where(s[1..], key, k) + WhereNot(s[1..], key, k)
    ensures s == Where(s, key, k) + WhereNot(s, key, k)
  {
    var r := s[1..];
    assert Where(s, key, k) == [s[0]] + Where(r, key, k);
    assert WhereNot(s, key, k) == WhereNot(r, key, k);
    calc {
      Where(s, key, k) + WhereNot(s, key, k);
      [s[0]] + Where(r, key, k) + WhereNot(r, key, k);
      [s[0]] + (Where(r, key, k) + WhereNot(r, key, k));
      [s[0]] + r;
      s;
    }
  }

  lemma SortedTail<T>(s: seq<T>, key: T -> int)
    requires s != [] && SortedBy(s, key)
    ensures SortedBy(s[1..], key)
    ensures |s| > 1 ==> key(s[0]) <= key(s[1])
  {
    var r := s[1..];
    forall i, j | 0 <= i < j < |r| ensures key(r[i]) <= key(r[j]) {
      assert r[i] == s[i + 1] && r[j] == s[j + 1];
    }
  }

  /** When the first key of a sorted sequence exceeds k, no key equals k. */
  lemma AboveFirst<T>(s: seq<T>, key: T -> int, k: int)
    requires s != [] && SortedBy(s, key) && k < key(s[0])
    ensures forall e :: e in s ==> key(e) != k
  {
    forall e | e in s ensures key(e) != k {
      var i :| 0 <= i < |s| && s[i] == e;
      if i > 0 { assert key(s[0]) <= key(s[i]); }
    }
  }

  lemma {:induction false} WhereAppend<T>(a: seq<T>, b: seq<T>, key: T -> int, k: int)
    ensures Where(a + b, key, k) == Where(a, key, k) + Where(b, key, k)
  {
    if a == [] {
      assert a + b == b;
    } else {
      var ab := a + b;
      assert ab[0] == a[0] && ab[1..] == a[1..] + b;
      WhereAppend(a[1..], b, key, k);
      var h := if key(a[0]) == k then [a[0]] else [];
      assert Where(ab, key, k) == h + Where(a[1..] + b, key, k);
      assert Where(a, key, k) == h + Where(a[1..], key, k);
    }
  }

  lemma {:induction false} WhereNotAppend<T>(a: seq<T>, b: seq<T>, key: T -> int, k: int)
    ensures WhereNot(a + b, key, k) == WhereNot(a, key, k) + WhereNot(b, key, k)
  {
    if a == [] {
      assert a + b == b;
    } else {
      var ab := a + b;
      assert ab[0] == a[0] && ab[1..] == a[1..] + b;
      WhereNotAppend(a[1..], b, key, k);
      var h := if key(a[0]) != k then [a[0]] else [];
      assert WhereNot(ab, key, k) == h + WhereNot(a[1..] + b, key, k);
      assert WhereNot(a, key, k) == h + WhereNot(a[1..], key, k);
    }
  }

  lemma {:induction false} WhereKeys<T>(s: seq<T>, key: T -> int, k: int)
    ensures forall e :: e in Where(s, key, k) ==> e in s && key(e) == k
    ensures forall e :: e in WhereNot(s, key, k) ==> e in s && key(e) != k
  {
    if s != [] {
      WhereKeys(s[1..], key, k);
    }
  }

  /** Conversely, the two filters keep every element with, and every element
      without, the key: together they keep exactly those. */
  lemma {:induction false} WhereComplete<T>(s: seq<T>, key: T -> int, k: int)
    ensures forall e :: e in s && key(e) == k ==> e in Where(s, key, k)
    ensures forall e :: e in s && key(e) != k ==> e in WhereNot(s, key, k)
  {
    if s != [] {
      WhereComplete(s[1..], key, k);
      assert forall e :: e in s ==> e == s[0] || e in s[1..];
    }
  }
}
