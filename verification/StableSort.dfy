/** `Array.prototype.sort`: a stable sort, here by insertion. `before(a, b)` is a negative
 *  comparator result. */
module StableSort {
  /** `before` behaves like comparing keys: strict, transitive, and with transitive ties. */
  ghost predicate WeakOrder<T(!new)>(before: (T, T) -> bool) {
    && (forall a, b :: before(a, b) ==> !before(b, a))
    && (forall a, b, c :: before(a, b) ==> before(a, c) || before(c, b))
  }

  function Insert<T>(s: seq<T>, x: T, before: (T, T) -> bool): seq<T> {
    if s == [] || !before(x, s[|s| - 1]) then s + [x]
    else Insert(s[..|s| - 1], x, before) + [s[|s| - 1]]
  }

  function Sort<T>(s: seq<T>, before: (T, T) -> bool): seq<T> {
    if s == [] then [] else Insert(Sort(s[..|s| - 1], before), s[|s| - 1], before)
  }

  ghost predicate Sorted<T>(s: seq<T>, before: (T, T) -> bool) {
    forall i, j :: 0 <= i < j < |s| ==> !before(s[j], s[i])
  }

  lemma {:induction false} InsertKeeps<T>(s: seq<T>, x: T, before: (T, T) -> bool)
    ensures multiset(Insert(s, x, before)) == multiset(s) + multiset{x}
    ensures |Insert(s, x, before)| == |s| + 1
    decreases |s|
  {
    if s != [] {
      var n := |s| - 1;
      assert s == s[..n] + [s[n]];
      if before(x, s[n]) { InsertKeeps(s[..n], x, before); }
    }
  }

  lemma {:induction false} InsertSorts<T(!new)>(s: seq<T>, x: T, before: (T, T) -> bool)
    requires WeakOrder(before) && Sorted(s, before)
    ensures Sorted(Insert(s, x, before), before)
    ensures forall y :: y in Insert(s, x, before) <==> y in s || y == x
    decreases |s|
  {
    if s != [] {
      var n := |s| - 1;
      assert s == s[..n] + [s[n]];
      if before(x, s[n]) {
        InsertSorts(s[..n], x, before);
        forall y | y in Insert(s[..n], x, before) ensures !before(s[n], y) {
          if y != x {
            var i :| 0 <= i < n && s[..n][i] == y;
            assert s[i] == y;
          }
        }
      } else {
        NotBeforeAny(s, x, before);
      }
    }
  }

  /** Sorting permutes and sorts. */
  lemma {:induction false} SortSorts<T(!new)>(s: seq<T>, before: (T, T) -> bool)
    requires WeakOrder(before)
    ensures multiset(Sort(s, before)) == multiset(s) && |Sort(s, before)| == |s|
    ensures Sorted(Sort(s, before), before)
    ensures forall y :: y in Sort(s, before) <==> y in s
  {
    if s != [] {
      var n := |s| - 1;
      SortSorts(s[..n], before);
      InsertKeeps(Sort(s[..n], before), s[n], before);
      InsertSorts(Sort(s[..n], before), s[n], before);
      assert s == s[..n] + [s[n]];
    }
  }

  /** `h` is in `s`, nothing is before it, and it is before everything to its left. */
  ghost predicate LeftmostLeast<T>(s: seq<T>, h: T, before: (T, T) -> bool) {
    exists k :: 0 <= k < |s| && s[k] == h && (forall j :: 0 <= j < |s| ==> !before(s[j], h))
      && (forall j :: 0 <= j < k ==> before(h, s[j]))
  }

  lemma {:induction false} InsertHead<T(!new)>(s: seq<T>, x: T, before: (T, T) -> bool)
    requires WeakOrder(before) && Sorted(s, before) && s != []
    ensures Insert(s, x, before)[0] == if before(x, s[0]) then x else s[0]
    decreases |s|
  {
    var n := |s| - 1;
    if before(x, s[0]) {
      assert n > 0 ==> !before(s[n], s[0]);
      assert before(x, s[n]);
      if n > 0 { InsertHead(s[..n], x, before); }
    } else if before(x, s[n]) {
      InsertHead(s[..n], x, before);
    }
  }

  lemma {:induction false} LeastAppend<T(!new)>(s: seq<T>, h: T, x: T, before: (T, T) -> bool)
    requires WeakOrder(before) && LeftmostLeast(s, h, before)
    ensures LeftmostLeast(s + [x], if before(x, h) then x else h, before)
  {
    var all := s + [x];
    var k :| 0 <= k < |s| && s[k] == h && (forall j :: 0 <= j < |s| ==> !before(s[j], h))
      && (forall j :: 0 <= j < k ==> before(h, s[j]));
    if before(x, h) {
      forall j | 0 <= j < |s| ensures before(x, all[j]) && !before(all[j], x) {
        assert all[j] == s[j] && !before(s[j], h);
      }
      assert all[|s|] == x;
    } else {
      assert all[k] == h;
    }
  }

  /** The first element of the sorted copy is the leftmost least element. */
  lemma {:induction false} HeadIsLeftmostLeast<T(!new)>(s: seq<T>, before: (T, T) -> bool)
    requires WeakOrder(before) && s != []
    ensures Sort(s, before) != [] && LeftmostLeast(s, Sort(s, before)[0], before)
  {
    var n := |s| - 1;
    var x := s[n];
    if n == 0 {
      assert !before(x, x);
      OneIsLeast(s, before);
    } else {
      var sorted := Sort(s[..n], before);
      assert sorted != [] && Insert(sorted, x, before)[0] == if before(x, sorted[0]) then x else sorted[0] by {
        SortSorts(s[..n], before);
        InsertHead(sorted, x, before);
      }
      InsertKeeps(sorted, x, before);
      assert LeftmostLeast(s[..n] + [x], if before(x, sorted[0]) then x else sorted[0], before) by {
        HeadIsLeftmostLeast(s[..n], before);
        LeastAppend(s[..n], sorted[0], x, before);
      }
      assert s == s[..n] + [x];
    }
  }

  lemma {:induction false} OneIsLeast<T(!new)>(s: seq<T>, before: (T, T) -> bool)
    requires |s| == 1 && !before(s[0], s[0])
    ensures Sort(s, before) == s && LeftmostLeast(s, s[0], before)
  {
  }

  /** `Array.prototype.filter`, and a `WHERE` clause. */
  function Filter<T>(s: seq<T>, p: T -> bool): (r: seq<T>)
    ensures |r| <= |s|
  {
    if s == [] then []
    else if p(s[|s| - 1]) then Filter(s[..|s| - 1], p) + [s[|s| - 1]]
    else Filter(s[..|s| - 1], p)
  }

  lemma {:induction false} FilterIn<T>(s: seq<T>, p: T -> bool)
    ensures forall x :: x in Filter(s, p) <==> x in s && p(x)
  {
    if s != [] {
      var n := |s| - 1;
      FilterIn(s[..n], p);
      assert forall x :: x in s <==> x in s[..n] || x == s[n];
    }
  }

  lemma {:induction false} FilterAppend<T>(s: seq<T>, t: seq<T>, p: T -> bool)
    ensures Filter(s + t, p) == Filter(s, p) + Filter(t, p)
  {
    if t == [] {
      assert s + t == s;
    } else {
      var n := |t| - 1;
      assert (s + t)[..|s| + n] == s + t[..n];
      FilterAppend(s, t[..n], p);
    }
  }

  lemma {:induction false} FilterAll<T>(s: seq<T>, p: T -> bool)
    requires forall x :: x in s ==> p(x)
    ensures Filter(s, p) == s
  {
    if s != [] {
      FilterAll(s[..|s| - 1], p);
      assert s == s[..|s| - 1] + [s[|s| - 1]];
    }
  }

  lemma {:induction false} FilterNone<T>(s: seq<T>, p: T -> bool)
    requires forall x :: x in s ==> !p(x)
    ensures Filter(s, p) == []
  {
    if s != [] { FilterNone(s[..|s| - 1], p); }
  }

  lemma {:induction false} FilterTwice<T>(s: seq<T>, p: T -> bool, q: T -> bool)
    ensures Filter(Filter(s, p), q) == Filter(s, x => p(x) && q(x))
    ensures Filter(Filter(s, p), q) == Filter(Filter(s, q), p)
  {
    if s != [] { FilterTwice(s[..|s| - 1], p, q); }
  }

  lemma {:induction false} NotBeforeAny<T(!new)>(s: seq<T>, x: T, before: (T, T) -> bool)
    requires WeakOrder(before) && Sorted(s, before) && s != [] && !before(x, s[|s| - 1])
    ensures forall y :: y in s ==> !before(x, y)
  {
  }

  lemma {:induction false} InsertAtEnd<T(!new)>(s: seq<T>, x: T, before: (T, T) -> bool, p: T -> bool)
    requires forall y :: y in s ==> !before(x, y)
    ensures Insert(Filter(s, p), x, before) == Filter(s, p) + [x]
  {
    FilterIn(s, p);
    var kept := Filter(s, p);
    assert kept != [] ==> kept[|kept| - 1] in kept;
  }

  lemma {:induction false} InsertFilter<T(!new)>(s: seq<T>, x: T, before: (T, T) -> bool, p: T -> bool)
    requires WeakOrder(before) && Sorted(s, before)
    ensures Filter(Insert(s, x, before), p) == if p(x) then Insert(Filter(s, p), x, before) else Filter(s, p)
    decreases |s|
  {
    if s != [] {
      var n := |s| - 1;
      if before(x, s[n]) {
        InsertFilter(s[..n], x, before, p);
      } else {
        assert (s + [x])[..|s|] == s;
        NotBeforeAny(s, x, before);
        InsertAtEnd(s, x, before, p);
      }
    }
  }

  /** Sorting what a filter keeps is keeping it of the sorted sequence. */
  lemma {:induction false} SortFilter<T(!new)>(s: seq<T>, before: (T, T) -> bool, p: T -> bool)
    requires WeakOrder(before)
    ensures Sort(Filter(s, p), before) == Filter(Sort(s, before), p)
  {
    if s != [] {
      var n := |s| - 1;
      SortFilter(s[..n], before, p);
      SortSorts(s[..n], before);
      InsertFilter(Sort(s[..n], before), s[n], before, p);
    }
  }

  /** How many elements a filter keeps does not depend on their order. */
  lemma {:induction false} FilterCount<T(!new)>(s: seq<T>, t: seq<T>, p: T -> bool)
    requires multiset(s) == multiset(t)
    ensures |Filter(s, p)| == |Filter(t, p)|
  {
    FilterMultiset(s, p);
    FilterMultiset(t, p);
    forall x ensures multiset(Filter(s, p))[x] == multiset(Filter(t, p))[x] {
      assert multiset(s)[x] == multiset(t)[x];
    }
    assert multiset(Filter(s, p)) == multiset(Filter(t, p));
    assert |multiset(Filter(s, p))| == |Filter(s, p)|;
  }

  lemma {:induction false} FilterMultiset<T>(s: seq<T>, p: T -> bool)
    ensures forall x :: multiset(Filter(s, p))[x] == if p(x) then multiset(s)[x] else 0
  {
    if s != [] {
      FilterMultiset(s[..|s| - 1], p);
      assert s == s[..|s| - 1] + [s[|s| - 1]];
    }
  }

  lemma {:induction false} FilterSplit<T(!new)>(s: seq<T>, p: T -> bool, q: T -> bool)
    requires forall x :: q(x) == !p(x)
    ensures |Filter(s, p)| + |Filter(s, q)| == |s|
  {
    if s != [] { FilterSplit(s[..|s| - 1], p, q); }
  }

  lemma {:induction false} FilterWithin<T(!new)>(s: seq<T>, p: T -> bool, q: T -> bool)
    requires forall x :: q(x) ==> p(x)
    ensures Filter(Filter(s, p), q) == Filter(s, q)
  {
    if s != [] { FilterWithin(s[..|s| - 1], p, q); }
  }

  lemma {:induction false} SortSorted<T(!new)>(s: seq<T>, before: (T, T) -> bool)
    requires Sorted(s, before)
    ensures Sort(s, before) == s
  {
    if s != [] {
      var n := |s| - 1;
      SortSorted(s[..n], before);
      assert n > 0 ==> s[..n][n - 1] == s[n - 1];
      assert s == s[..n] + [s[n]];
    }
  }

  /** Stability: elements of a class without order among them keep their order. */
  lemma {:induction false} SortStable<T(!new)>(s: seq<T>, before: (T, T) -> bool, tied: T -> bool)
    requires WeakOrder(before) && forall a, b :: tied(a) && tied(b) ==> !before(a, b)
    ensures Filter(Sort(s, before), tied) == Filter(s, tied)
  {
    SortFilter(s, before, tied);
    FilterIn(s, tied);
    SortSorted(Filter(s, tied), before);
  }
}
