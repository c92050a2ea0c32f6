/**
 * `Array.prototype.sort` with a comparator, which ECMAScript 2019 requires to be stable.
 * `before(x, y)` holds when the comparator returns a negative number for `(x, y)`,
 * i.e. when `x` must come strictly before `y`.
 */
module StableSort {
  import opened Seqs

  /** The comparator induces a strict weak order (irreflexive, transitive, comparability is transitive). */
  ghost predicate StrictWeakOrder<T(!new)>(before: (T, T) -> bool) {
    && (forall x :: !before(x, x))
    && (forall x, y, z :: before(x, y) && before(y, z) ==> before(x, z))
    && (forall x, y, z :: before(x, z) ==> before(x, y) || before(y, z))
  }

  /** No element is strictly before an element that precedes it. */
  ghost predicate Sorted<T>(s: seq<T>, before: (T, T) -> bool) {
    forall i, j :: 0 <= i < j < |s| ==> !before(s[j], s[i])
  }

  /** The elements the comparator ranks equal to `k`. */
  function SameRank<T>(before: (T, T) -> bool, k: T): T -> bool {
    y => !before(y, k) && !before(k, y)
  }

  /** Insert `x` into `t` after every element it is not strictly before (so after its equals). */
  function Insert<T>(t: seq<T>, x: T, before: (T, T) -> bool): seq<T> {
    if t != [] && before(x, t[|t| - 1]) then
      Insert(t[..|t| - 1], x, before) + [t[|t| - 1]]
    else
      t + [x]
  }

  lemma {:induction false} InsertPermutes<T>(t: seq<T>, x: T, before: (T, T) -> bool)
    ensures multiset(Insert(t, x, before)) == multiset(t) + multiset{x}
  {
    if t != [] && before(x, t[|t| - 1]) {
      InsertPermutes(t[..|t| - 1], x, before);
      assert t == t[..|t| - 1] + [t[|t| - 1]];
    }
  }

  /** The stable sort of `s`: insertion sort, element by element from the front. */
  function SortSpec<T>(s: seq<T>, before: (T, T) -> bool): seq<T> {
    if s == [] then [] else Insert(SortSpec(s[..|s| - 1], before), s[|s| - 1], before)
  }

  /** Sorting only reorders: the result is a permutation of the input. */
  lemma {:induction false} SortPermutes<T>(s: seq<T>, before: (T, T) -> bool)
    ensures multiset(SortSpec(s, before)) == multiset(s)
  {
    if s != [] {
      var init, last := s[..|s| - 1], s[|s| - 1];
      SortPermutes(init, before);
      InsertPermutes(SortSpec(init, before), last, before);
      assert SortSpec(s, before) == Insert(SortSpec(init, before), last, before);
      assert s == init + [last];
      assert multiset(s) == multiset(init) + multiset{last};
    }
  }

  lemma {:induction false} InsertSorted<T(!new)>(t: seq<T>, x: T, before: (T, T) -> bool)
    requires StrictWeakOrder(before)
    requires Sorted(t, before)
    ensures Sorted(Insert(t, x, before), before)
  {
    if t != [] && before(x, t[|t| - 1]) {
      var last := t[|t| - 1];
      var init := t[..|t| - 1];
      InsertSorted(init, x, before);
      var u := Insert(init, x, before);
      InsertPermutes(init, x, before);
      forall y | y in u
        ensures !before(last, y)
      {
        assert y in multiset(u);
        if y != x {
          assert y in init;
        }
      }
      var r := u + [last];
      forall i, j | 0 <= i < j < |r|
        ensures !before(r[j], r[i])
      {
        if j == |r| - 1 {
          assert r[i] in u;
        }
      }
    } else {
      var r := t + [x];
      forall i | 0 <= i < |t|
        ensures !before(x, t[i])
      {
        if i < |t| - 1 {
          assert !before(t[|t| - 1], t[i]);
        }
      }
      assert forall i, j :: 0 <= i < j < |r| ==> !before(r[j], r[i]);
    }
  }

  /** The result of the sort is ordered by the comparator. */
  lemma {:induction false} SortSorted<T(!new)>(s: seq<T>, before: (T, T) -> bool)
    requires StrictWeakOrder(before)
    ensures Sorted(SortSpec(s, before), before)
  {
    if s != [] {
      SortSorted(s[..|s| - 1], before);
      InsertSorted(SortSpec(s[..|s| - 1], before), s[|s| - 1], before);
    }
  }

  /** An element strictly before `y` cannot share a rank with `y`. */
  lemma SameRankExcludes<T(!new)>(before: (T, T) -> bool, k: T, x: T, y: T)
    requires StrictWeakOrder(before)
    requires SameRank(before, k)(x) && before(x, y)
    ensures !SameRank(before, k)(y)
  {
    assert before(x, k) || before(k, y);
  }

  /** Of two elements where the first is strictly before the second, at most one has rank `k`. */
  lemma SameRankSingletons<T(!new)>(before: (T, T) -> bool, k: T, x: T, y: T)
    requires StrictWeakOrder(before)
    requires before(x, y)
    ensures Filter(SameRank(before, k), [x]) == [] || Filter(SameRank(before, k), [y]) == []
  {
    FilterSingleton(SameRank(before, k), x);
    FilterSingleton(SameRank(before, k), y);
    if SameRank(before, k)(x) {
      SameRankExcludes(before, k, x, y);
    }
  }

  lemma {:induction false} InsertStable<T(!new)>(t: seq<T>, x: T, before: (T, T) -> bool, k: T)
    requires StrictWeakOrder(before)
    ensures Filter(SameRank(before, k), Insert(t, x, before))
         == Filter(SameRank(before, k), t) + Filter(SameRank(before, k), [x])
  {
    var q := SameRank(before, k);
    if t != [] && before(x, t[|t| - 1]) {
      var last, init := t[|t| - 1], t[..|t| - 1];
      assert Insert(t, x, before) == Insert(init, x, before) + [last];
      assert t == init + [last];
      InsertStable(init, x, before, k);
      FilterAppend(q, Insert(init, x, before), [last]);
      FilterAppend(q, init, [last]);
      SameRankSingletons(before, k, x, last);
      var fi, fx, fl := Filter(q, init), Filter(q, [x]), Filter(q, [last]);
      assert Filter(q, Insert(t, x, before)) == fi + fx + fl;
      assert Filter(q, t) + fx == fi + fl + fx;
      if fx == [] {
        assert fi + fx + fl == fi + fl;
      } else {
        assert fi + fx + fl == fi + fx;
      }
    } else {
      assert Insert(t, x, before) == t + [x];
      FilterAppend(q, t, [x]);
    }
  }

  /** Stability: for every rank, the elements of that rank keep their input order. */
  lemma {:induction false} SortStable<T(!new)>(s: seq<T>, before: (T, T) -> bool, k: T)
    requires StrictWeakOrder(before)
    ensures Filter(SameRank(before, k), SortSpec(s, before)) == Filter(SameRank(before, k), s)
  {
    if s != [] {
      var init, last := s[..|s| - 1], s[|s| - 1];
      SortStable(init, before, k);
      InsertStable(SortSpec(init, before), last, before, k);
      assert s == init + [last];
      FilterAppend(SameRank(before, k), init, [last]);
    }
  }

  /** Sorting an already sorted sequence changes nothing. */
  lemma {:induction false} SortOfSorted<T(!new)>(s: seq<T>, before: (T, T) -> bool)
    requires Sorted(s, before)
    ensures SortSpec(s, before) == s
  {
    if s != [] {
      var init, last := s[..|s| - 1], s[|s| - 1];
      SortedInit(s, before);
      SortOfSorted(init, before);
      if init != [] {
        assert init[|init| - 1] == s[|s| - 2];
        assert !before(last, init[|init| - 1]);
      }
      assert SortSpec(s, before) == Insert(init, last, before) == init + [last];
      assert s == init + [last];
    }
  }

  /** Dropping the last element keeps a sequence sorted. */
  lemma SortedInit<T>(s: seq<T>, before: (T, T) -> bool)
    requires s != [] && Sorted(s, before)
    ensures Sorted(s[..|s| - 1], before)
  {
    var init := s[..|s| - 1];
    forall i, j | 0 <= i < j < |init|
      ensures !before(init[j], init[i])
    {
      assert init[j] == s[j] && init[i] == s[i];
    }
  }

  /** The sort is idempotent. */
  lemma SortIdempotent<T(!new)>(s: seq<T>, before: (T, T) -> bool)
    requires StrictWeakOrder(before)
    ensures SortSpec(SortSpec(s, before), before) == SortSpec(s, before)
  {
    SortSorted(s, before);
    SortOfSorted(SortSpec(s, before), before);
  }

  lemma SortSpecSnoc<T>(s: seq<T>, i: int, before: (T, T) -> bool)
    requires 0 <= i < |s|
    ensures SortSpec(s[..i + 1], before) == Insert(SortSpec(s[..i], before), s[i], before)
  {
    assert s[..i + 1][..i] == s[..i];
  }

  /** `x` lands at position `j` when it is strictly before everything from `j` on but not before `t[j - 1]`. */
  lemma {:induction false} InsertPosition<T>(t: seq<T>, j: int, x: T, before: (T, T) -> bool)
    requires 0 <= j <= |t| && (j == 0 || !before(x, t[j - 1]))
    requires forall k :: j <= k < |t| ==> before(x, t[k])
    ensures Insert(t, x, before) == t[..j] + [x] + t[j..]
    decreases |t|
  {
    if j < |t| {
      var init, last := t[..|t| - 1], t[|t| - 1];
      assert before(x, last);
      assert Insert(t, x, before) == Insert(init, x, before) + [last];
      forall k | j <= k < |init|
        ensures before(x, init[k])
      {
        assert init[k] == t[k];
      }
      if j > 0 {
        assert init[j - 1] == t[j - 1];
      }
      InsertPosition(init, j, x, before);
      assert init[..j] == t[..j];
      assert init[j..] + [last] == t[j..];
    } else {
      assert Insert(t, x, before) == t + [x];
      assert t[..j] == t && t[j..] == [];
    }
  }

  /** Moves `a[i]` left into the sorted prefix `a[..i]`, past every element it is strictly before. */
  method InsertAt<T>(a: array<T>, i: int, before: (T, T) -> bool)
    requires 0 <= i < a.Length
    modifies a
    ensures a[..i + 1] == Insert(old(a[..i]), old(a[i]), before)
    ensures a[i + 1..] == old(a[i + 1..])
  {
    var x := a[i];
    ghost var t := a[..i];
    ghost var suffix := a[i + 1..];
    var j := i;
    while j > 0 && before(x, a[j - 1])
      invariant 0 <= j <= i
      invariant forall k :: 0 <= k < j ==> a[k] == t[k]
      invariant forall k :: j < k <= i ==> a[k] == t[k - 1]
      invariant forall k :: i < k < a.Length ==> a[k] == suffix[k - i - 1]
      invariant forall k :: j <= k < i ==> before(x, t[k])
    {
      a[j] := a[j - 1];
      j := j - 1;
    }
    a[j] := x;
    InsertPosition(t, j, x, before);
    ghost var r := t[..j] + [x] + t[j..];
    forall k | 0 <= k <= i
      ensures a[k] == r[k]
    {
      if k < j {
        assert r[k] == t[k];
      } else if k > j {
        assert r[k] == t[k - 1];
      }
    }
    assert a[..i + 1] == r;
    forall m | 0 <= m < |suffix|
      ensures a[i + 1..][m] == suffix[m]
    {
      assert a[i + 1..][m] == a[i + 1 + m];
    }
  }

  /** In-place stable insertion sort; the array ends up as `SortSpec` of its old contents. */
  method SortInPlace<T>(a: array<T>, before: (T, T) -> bool)
    modifies a
    ensures a[..] == SortSpec(old(a[..]), before)
  {
    ghost var input := a[..];
    var i := 0;
    while i < a.Length
      invariant 0 <= i <= a.Length
      invariant a[..i] == SortSpec(input[..i], before)
      invariant a[i..] == input[i..]
    {
      assert a[i] == input[i] by {
        assert a[i..][0] == a[i] && input[i..][0] == input[i];
      }
      ghost var rest := a[i + 1..];
      assert rest == input[i + 1..] by {
        assert a[i..][1..] == rest && input[i..][1..] == input[i + 1..];
      }
      InsertAt(a, i, before);
      SortSpecSnoc(input, i, before);
      assert a[..i + 1] == SortSpec(input[..i + 1], before);
      assert a[i + 1..] == input[i + 1..];
      i := i + 1;
    }
    assert input[..a.Length] == input;
  }
}
