/**
 * A stable insertion sort over an ordering relation `le` ("may come before").
 * The queries of the history store are `ORDER BY` clauses; they are modelled
 * as this sort applied to the table rows, with the clause as `le`.
 */
module Sorting {
  import opened Common

  ghost predicate Sorted<T>(s: seq<T>, le: (T, T) -> bool)
  {
    forall i, j :: 0 <= i < j < |s| ==> le(s[i], s[j])
  }

  /** `le` is total and transitive (hence also reflexive). */
  ghost predicate TotalPreorder<T(!new)>(le: (T, T) -> bool)
  {
    && (forall a, b :: le(a, b) || le(b, a))
    && (forall a, b, c :: le(a, b) && le(b, c) ==> le(a, c))
  }

  /** Inserts `x` in front of the first element it may come before. */
  function Insert<T>(x: T, s: seq<T>, le: (T, T) -> bool): (r: seq<T>)
    ensures |r| == |s| + 1
    ensures multiset(r) == multiset(s) + multiset{x}
  {
    if s == [] then [x]
    else if le(x, s[0]) then [x] + s
    else
      assert s == [s[0]] + s[1..];
      [s[0]] + Insert(x, s[1..], le)
  }

  function SortBy<T>(s: seq<T>, le: (T, T) -> bool): (r: seq<T>)
    ensures |r| == |s|
    ensures multiset(r) == multiset(s)
  {
    if s == [] then []
    else
      assert s == [s[0]] + s[1..];
      Insert(s[0], SortBy(s[1..], le), le)
  }

  lemma {:induction false} InsertSorted<T(!new)>(x: T, s: seq<T>, le: (T, T) -> bool)
    requires TotalPreorder(le)
    requires Sorted(s, le)
    ensures Sorted(Insert(x, s, le), le)
  {
    if s != [] && !le(x, s[0]) {
      assert le(s[0], x);
      SortedTail(s, le);
      InsertSorted(x, s[1..], le);
      InsertBehindHead(x, s, le);
      ConsSorted(s[0], Insert(x, s[1..], le), le);
    }
  }

  /** Inserting, behind the head, an element the head may come before. */
  lemma InsertBehindHead<T>(x: T, s: seq<T>, le: (T, T) -> bool)
    requires Sorted(s, le) && s != [] && le(s[0], x)
    ensures forall y :: y in Insert(x, s[1..], le) ==> le(s[0], y)
  {
    var tail := Insert(x, s[1..], le);
    forall y | y in tail
      ensures le(s[0], y)
    {
      assert y in multiset(tail);
      if y != x {
        assert y in multiset(s[1..]);
        var k :| 0 <= k < |s[1..]| && s[1..][k] == y;
        assert s[k + 1] == y;
      }
    }
  }

  /** A head that may come before every element of a sorted tail. */
  lemma ConsSorted<T>(h: T, t: seq<T>, le: (T, T) -> bool)
    requires Sorted(t, le)
    requires forall y :: y in t ==> le(h, y)
    ensures Sorted([h] + t, le)
  {
    var r := [h] + t;
    forall i, j | 0 <= i < j < |r|
      ensures le(r[i], r[j])
    {
      if i == 0 {
        assert r[j] == t[j - 1];
        assert r[j] in t;
      } else {
        assert r[i] == t[i - 1] && r[j] == t[j - 1];
      }
    }
  }

  /** SortBy orders its result. */
  lemma {:induction false} SortBySorted<T(!new)>(s: seq<T>, le: (T, T) -> bool)
    requires TotalPreorder(le)
    ensures Sorted(SortBy(s, le), le)
  {
    if s != [] {
      SortBySorted(s[1..], le);
      InsertSorted(s[0], SortBy(s[1..], le), le);
    }
  }

  /**
   * Two sorted arrangements of the same elements are equal when `le` never
   * relates two distinct elements both ways: an ORDER BY over a unique key
   * fixes the row order.
   */
  lemma {:induction false} SortedUnique<T>(a: seq<T>, b: seq<T>, le: (T, T) -> bool)
    requires Sorted(a, le) && Sorted(b, le)
    requires multiset(a) == multiset(b)
    requires forall x, y :: x in a && y in a && le(x, y) && le(y, x) ==> x == y
    ensures a == b
  {
    if a == [] {
      assert |b| == |multiset(b)| == 0;
    } else {
      assert |b| == |multiset(b)| == |a|;
      SameHead(a, b, le);
      DropHead(a, b);
      assert forall x :: x in a[1..] ==> x in a;
      SortedTail(a, le);
      SortedTail(b, le);
      SortedUnique(a[1..], b[1..], le);
    }
  }

  lemma DropHead<T>(a: seq<T>, b: seq<T>)
    requires a != [] && b != [] && a[0] == b[0] && multiset(a) == multiset(b)
    ensures multiset(a[1..]) == multiset(b[1..])
  {
    assert a == [a[0]] + a[1..] && b == [b[0]] + b[1..];
    assert multiset(a[1..]) == multiset(a) - multiset{a[0]};
    assert multiset(b[1..]) == multiset(b) - multiset{b[0]};
  }

  lemma SortedTail<T>(s: seq<T>, le: (T, T) -> bool)
    requires Sorted(s, le) && s != []
    ensures Sorted(s[1..], le)
  {
    forall i, j | 0 <= i < j < |s| - 1
      ensures le(s[1..][i], s[1..][j])
    {
      assert s[1..][i] == s[i + 1] && s[1..][j] == s[j + 1];
    }
  }

  lemma SameHead<T>(a: seq<T>, b: seq<T>, le: (T, T) -> bool)
    requires Sorted(a, le) && Sorted(b, le)
    requires multiset(a) == multiset(b) && a != [] && b != []
    requires forall x, y :: x in a && y in a && le(x, y) && le(y, x) ==> x == y
    ensures a[0] == b[0]
  {
    assert b[0] in multiset(a) && a[0] in multiset(b);
    var i :| 0 <= i < |a| && a[i] == b[0];
    var j :| 0 <= j < |b| && b[j] == a[0];
    if i != 0 && j != 0 {
      assert le(a[0], a[i]) && le(b[0], b[j]);
      assert a[0] in a && b[0] in a;
    }
  }

  /** The first element of a sorted sequence may come before every element. */
  lemma SortedHead<T(!new)>(s: seq<T>, le: (T, T) -> bool)
    requires TotalPreorder(le)
    requires Sorted(s, le) && s != []
    ensures forall y :: y in s ==> le(s[0], y)
  {
    forall y | y in s
      ensures le(s[0], y)
    {
      var k :| 0 <= k < |s| && s[k] == y;
      if k == 0 { assert le(y, y) || le(y, y); }
    }
  }

  /** A prefix of a sorted sequence is sorted. */
  lemma SortedPrefix<T>(s: seq<T>, k: nat, le: (T, T) -> bool)
    requires Sorted(s, le) && k <= |s|
    ensures Sorted(s[..k], le)
  {
    forall i, j | 0 <= i < j < k
      ensures le(s[..k][i], s[..k][j])
    {
      assert s[..k][i] == s[i] && s[..k][j] == s[j];
    }
  }

  /** In a sorted sequence, what is in a prefix may come before what is not. */
  lemma PrefixComesFirst<T>(s: seq<T>, k: nat, le: (T, T) -> bool, x: T, y: T)
    requires Sorted(s, le) && k <= |s|
    requires x in s && x !in s[..k] && y in s[..k]
    ensures le(y, x)
  {
    var i :| 0 <= i < |s| && s[i] == x;
    var j :| 0 <= j < k && s[..k][j] == y;
    assert forall t :: 0 <= t < k ==> s[..k][t] == s[t];
    assert i >= k;
  }

  /**
   * `w` is an `ORDER BY ... LIMIT n` window over `all`: sorted, the first
   * `n` (or all) elements, taken from `all` without repeating any element
   * more often than `all` holds it, every element it leaves out may come
   * after every element it keeps, and its last element may come after all
   * the others.
   */
  ghost predicate IsWindow<T>(all: seq<T>, le: (T, T) -> bool, n: int, w: seq<T>)
  {
    && Sorted(w, le)
    && |w| == (if 0 <= n < |all| then n else |all|)
    && multiset(w) <= multiset(all)
    && (forall r :: r in w ==> r in all)
    && (forall x, y :: x in all && x !in w && y in w ==> le(y, x))
    && (w != [] ==> forall r :: r in w ==> le(r, w[|w| - 1]))
  }

  /** Sorting then cutting after `n` gives the window of `ORDER BY ... LIMIT n`. */
  lemma SortedWindow<T(!new)>(all: seq<T>, le: (T, T) -> bool, n: int)
    requires TotalPreorder(le)
    ensures IsWindow(all, le, n, Limit(SortBy(all, le), n))
  {
    SortBySorted(all, le);
    Reflexive(le);
    WindowFacts(all, SortBy(all, le), n, le);
  }

  lemma Reflexive<T(!new)>(le: (T, T) -> bool)
    requires TotalPreorder(le)
    ensures forall x :: le(x, x)
  {
    forall x
      ensures le(x, x)
    {
      assert le(x, x) || le(x, x);
    }
  }

  /** SortedWindow for any sorted arrangement of `all` under a reflexive `le`. */
  lemma WindowFacts<T>(all: seq<T>, sorted: seq<T>, n: int, le: (T, T) -> bool)
    requires Sorted(sorted, le) && multiset(sorted) == multiset(all)
    requires forall x :: le(x, x)
    ensures IsWindow(all, le, n, Limit(sorted, n))
  {
    assert |sorted| == |multiset(sorted)| == |all|;
    var w := Limit(sorted, n);
    assert w == sorted[..|w|];
    SortedPrefix(sorted, |w|, le);
    PrefixFacts(all, sorted, |w|, le);
    if w != [] {
      SortedLast(w, le);
    }
  }

  /** A prefix of a sorted arrangement of `all` keeps only elements of `all`, and the best of them. */
  lemma PrefixFacts<T>(all: seq<T>, sorted: seq<T>, k: nat, le: (T, T) -> bool)
    requires Sorted(sorted, le) && multiset(sorted) == multiset(all) && k <= |sorted|
    ensures multiset(sorted[..k]) <= multiset(all)
    ensures forall r :: r in sorted[..k] ==> r in all
    ensures forall x, y :: x in all && x !in sorted[..k] && y in sorted[..k] ==> le(y, x)
  {
    var w := sorted[..k];
    SplitCounts(sorted, k);
    forall r | r in w
      ensures r in all
    {
      assert r in sorted;
      assert r in multiset(sorted);
    }
    forall x, y | x in all && x !in w && y in w
      ensures le(y, x)
    {
      assert x in multiset(sorted);
      assert x in sorted;
      PrefixComesFirst(sorted, k, le, x, y);
    }
  }

  /** Every element of a sorted sequence may come before its last one. */
  lemma SortedLast<T>(w: seq<T>, le: (T, T) -> bool)
    requires Sorted(w, le) && w != [] && le(w[|w| - 1], w[|w| - 1])
    ensures forall r :: r in w ==> le(r, w[|w| - 1])
  {
    forall r | r in w
      ensures le(r, w[|w| - 1])
    {
      var i :| 0 <= i < |w| && w[i] == r;
    }
  }

  /** Appending an element every element may come before keeps a sequence sorted. */
  lemma SortedAppend<T>(s: seq<T>, x: T, le: (T, T) -> bool)
    requires Sorted(s, le)
    requires forall y :: y in s ==> le(y, x)
    ensures Sorted(s + [x], le)
  {
    forall i, j | 0 <= i < j < |s| + 1
      ensures le((s + [x])[i], (s + [x])[j])
    {
      if j == |s| {
        assert s[i] in s;
      } else {
        assert (s + [x])[i] == s[i] && (s + [x])[j] == s[j];
      }
    }
  }
}
