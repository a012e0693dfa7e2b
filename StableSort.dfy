/** Python's `list.sort(key=...)` with a date key: a stable sort. Stability
    is stated without reference to positions: for every date, the rows of
    that date appear in the result exactly as they appeared in the input. */
module StableSort {
  import opened Calendar
  import opened Totals

  predicate SortedBy<T>(s: seq<T>, key: T -> Date)
  {
    forall i, j :: 0 <= i < j < |s| ==> Le(key(s[i]), key(s[j]))
  }

  /** The rows of `s` dated `d`, in their order in `s`. */
  function OnDate<T(!new)>(s: seq<T>, key: T -> Date, d: Date): seq<T>
  {
    Filter(s, (x: T) => key(x) == d)
  }

  lemma OnDateAppend<T(!new)>(a: seq<T>, b: seq<T>, key: T -> Date, d: Date)
    ensures OnDate(a + b, key, d) == OnDate(a, key, d) + OnDate(b, key, d)
  {
    FilterAppend(a, b, (x: T) => key(x) == d);
  }

  ghost predicate SameDayOrder<T(!new)>(r: seq<T>, s: seq<T>, key: T -> Date)
  {
    forall d: Date :: OnDate(r, key, d) == OnDate(s, key, d)
  }

  /** `r` is what a stable sort of `s` by `key` returns. */
  ghost predicate IsStableSort<T(!new)>(r: seq<T>, s: seq<T>, key: T -> Date)
  {
    SortedBy(r, key) && SameDayOrder(r, s, key)
  }

  /** Exchanging two neighbours with different dates leaves every date's
      subsequence as it was. */
  lemma SwapNeighbours<T(!new)>(s: seq<T>, j: int, key: T -> Date)
    requires 0 <= j < |s| - 1
    requires key(s[j]) != key(s[j + 1])
    ensures SameDayOrder(s[j := s[j + 1]][j + 1 := s[j]], s, key)
  {
    var t := s[j := s[j + 1]][j + 1 := s[j]];
    var pre, x, y, post := s[..j], s[j], s[j + 1], s[j + 2..];
    assert s == pre + [x, y] + post;
    assert t == pre + [y, x] + post;
    forall d: Date ensures OnDate(t, key, d) == OnDate(s, key, d) {
      var keep := (z: T) => key(z) == d;
      FilterAppend(pre + [x, y], post, keep);
      FilterAppend(pre, [x, y], keep);
      FilterAppend(pre + [y, x], post, keep);
      FilterAppend(pre, [y, x], keep);
      assert [x, y][1..] == [y] && [y, x][1..] == [x];
    }
  }

  lemma SameDayOrderTransitive<T(!new)>(a: seq<T>, b: seq<T>, c: seq<T>, key: T -> Date)
    requires SameDayOrder(a, b, key) && SameDayOrder(b, c, key)
    ensures SameDayOrder(a, c, key)
  {
  }

  /** Insertion sort by exchanges of neighbours; a row moves left only past
      rows with a strictly later date, so rows of equal date never cross. */
  method SortByDate<T(!new)>(a: array<T>, key: T -> Date)
    modifies a
    ensures IsStableSort(a[..], old(a[..]), key)
  {
    if a.Length == 0 {
      return;
    }
    var i := 1;
    while i < a.Length
      invariant 1 <= i <= a.Length
      invariant forall k, l :: 0 <= k < l < i ==> Le(key(a[k]), key(a[l]))
      invariant SameDayOrder(a[..], old(a[..]), key)
    {
      ghost var before := a[..];
      InsertLeft(a, i, key);
      SameDayOrderTransitive(a[..], before, old(a[..]), key);
      i := i + 1;
    }
  }

  /** One pass of the outer loop: the row at `i` moves left past every
      row with a later date, so the first `i + 1` rows end up sorted. */
  method InsertLeft<T(!new)>(a: array<T>, i: int, key: T -> Date)
    requires 1 <= i < a.Length
    requires forall k, l :: 0 <= k < l < i ==> Le(key(a[k]), key(a[l]))
    modifies a
    ensures forall k, l :: 0 <= k < l <= i ==> Le(key(a[k]), key(a[l]))
    ensures SameDayOrder(a[..], old(a[..]), key)
  {
    var j := i;
    while j > 0 && Lt(key(a[j]), key(a[j - 1]))
      invariant 0 <= j <= i
      invariant forall k, l :: 0 <= k < l <= i && k != j && l != j ==> Le(key(a[k]), key(a[l]))
      invariant forall l :: j < l <= i ==> Le(key(a[j]), key(a[l]))
      invariant SameDayOrder(a[..], old(a[..]), key)
    {
      ghost var before := a[..];
      SwapNeighbours(before, j - 1, key);
      a[j - 1], a[j] := a[j], a[j - 1];
      assert a[..] == before[j - 1 := before[j]][j := before[j - 1]];
      SameDayOrderTransitive(a[..], before, old(a[..]), key);
      j := j - 1;
    }
    InsertedSorted(a[..], i, j, key);
  }

  /** Once the moving row meets a row no later than itself, the first
      `i + 1` rows are sorted. */
  lemma InsertedSorted<T>(s: seq<T>, i: int, j: int, key: T -> Date)
    requires 0 <= j <= i < |s|
    requires forall k, l :: 0 <= k < l <= i && k != j && l != j ==> Le(key(s[k]), key(s[l]))
    requires forall l :: j < l <= i ==> Le(key(s[j]), key(s[l]))
    requires j > 0 ==> !Lt(key(s[j]), key(s[j - 1]))
    ensures forall k, l :: 0 <= k < l <= i ==> Le(key(s[k]), key(s[l]))
  {
    forall k, l | 0 <= k < l <= i ensures Le(key(s[k]), key(s[l])) {
      if l == j && k < j - 1 {
        LeTotalOrder(key(s[k]), key(s[j - 1]), key(s[j]));
      }
    }
  }

  // What follows from the postcondition.

  lemma {:induction false} FilterCount<T(!new)>(s: seq<T>, keep: T -> bool, x: T)
    ensures multiset(Filter(s, keep))[x] == if keep(x) then multiset(s)[x] else 0
  {
    if s != [] {
      FilterCount(s[1..], keep, x);
      assert s == [s[0]] + s[1..];
    }
  }

  /** Equal subsequences for every date make a permutation. */
  lemma SameDayOrderPermutation<T(!new)>(r: seq<T>, s: seq<T>, key: T -> Date)
    requires SameDayOrder(r, s, key)
    ensures multiset(r) == multiset(s)
    ensures |r| == |s|
  {
    forall x: T ensures multiset(r)[x] == multiset(s)[x] {
      var keep := (z: T) => key(z) == key(x);
      FilterCount(r, keep, x);
      FilterCount(s, keep, x);
      assert OnDate(r, key, key(x)) == OnDate(s, key, key(x));
    }
    assert multiset(r) == multiset(s);
    assert |multiset(r)| == |r| && |multiset(s)| == |s|;
  }

  lemma FilterHead<T(!new)>(s: seq<T>, keep: T -> bool)
    requires s != []
    ensures Filter(s, keep) == if keep(s[0]) then [s[0]] + Filter(s[1..], keep) else Filter(s[1..], keep)
  {
  }

  lemma SameDayOrderTails<T(!new)>(r1: seq<T>, r2: seq<T>, key: T -> Date)
    requires r1 != [] && r2 != [] && r1[0] == r2[0]
    requires SameDayOrder(r1, r2, key)
    ensures SameDayOrder(r1[1..], r2[1..], key)
  {
    forall d: Date ensures OnDate(r1[1..], key, d) == OnDate(r2[1..], key, d) {
      var keep := (z: T) => key(z) == d;
      FilterHead(r1, keep);
      FilterHead(r2, keep);
      assert OnDate(r1, key, d) == OnDate(r2, key, d);
      if key(r1[0]) == d {
        assert OnDate(r1[1..], key, d) == OnDate(r1, key, d)[1..];
        assert OnDate(r2[1..], key, d) == OnDate(r2, key, d)[1..];
      }
    }
  }

  /** Two sorted sequences with the same subsequence for every date start
      with the same row. */
  lemma SameHead<T(!new)>(r1: seq<T>, r2: seq<T>, key: T -> Date)
    requires r1 != [] && r2 != []
    requires SortedBy(r1, key) && SortedBy(r2, key)
    requires SameDayOrder(r1, r2, key)
    ensures r1[0] == r2[0]
  {
    var x1, x2 := r1[0], r2[0];
    var d1, d2 := key(x1), key(x2);
    assert x2 in OnDate(r2, key, d2);
    assert x1 in OnDate(r1, key, d1);
    assert Le(d1, d2) by {
      assert x2 in OnDate(r1, key, d2);
      var k :| 0 <= k < |r1| && r1[k] == x2;
      assert k == 0 || Le(key(r1[0]), key(r1[k]));
    }
    assert Le(d2, d1) by {
      assert x1 in OnDate(r2, key, d1);
      var k :| 0 <= k < |r2| && r2[k] == x1;
      assert k == 0 || Le(key(r2[0]), key(r2[k]));
    }
    LeTotalOrder(d1, d2, d1);
    var keep := (z: T) => key(z) == d1;
    FilterHead(r1, keep);
    FilterHead(r2, keep);
    assert OnDate(r1, key, d1)[0] == x1;
    assert OnDate(r2, key, d1)[0] == x2;
  }

  /** A stable sort has only one possible result: two sorted sequences with
      the same subsequence for every date are equal. */
  lemma {:induction false} StableSortUnique<T(!new)>(r1: seq<T>, r2: seq<T>, key: T -> Date)
    requires SortedBy(r1, key) && SortedBy(r2, key)
    requires SameDayOrder(r1, r2, key)
    ensures r1 == r2
    decreases |r1|
  {
    SameDayOrderPermutation(r1, r2, key);
    if r1 != [] {
      SameHead(r1, r2, key);
      SameDayOrderTails(r1, r2, key);
      StableSortUnique(r1[1..], r2[1..], key);
      assert r1 == [r1[0]] + r1[1..] && r2 == [r2[0]] + r2[1..];
    }
  }
}
