/** The order in which Python 2 compares `str` values (element by element, a proper
    prefix first), and an insertion sort with respect to it, used to model `list.sort()`.
    A name is modelled by its decoded characters, compared by code point; for UTF-8
    text this is the same order as Python 2's comparison of the bytes. */
module TextOrder {

  /** `a <= b` on Python 2 strings: lexicographic on code points, a prefix before its extensions. */
  predicate Le(a: string, b: string)
    decreases |a|
  {
    if a == [] then true
    else if b == [] then false
    else if a[0] != b[0] then a[0] < b[0]
    else Le(a[1..], b[1..])
  }

  lemma {:induction false} LeReflexive(a: string)
    ensures Le(a, a)
    decreases |a|
  {
    if a != [] {
      LeReflexive(a[1..]);
    }
  }

  lemma {:induction false} LeTotal(a: string, b: string)
    ensures Le(a, b) || Le(b, a)
    decreases |a|
  {
    if a != [] && b != [] && a[0] == b[0] {
      LeTotal(a[1..], b[1..]);
    }
  }

  lemma {:induction false} LeAntisymmetric(a: string, b: string)
    requires Le(a, b) && Le(b, a)
    ensures a == b
    decreases |a|
  {
    if a != [] {
      LeAntisymmetric(a[1..], b[1..]);
      assert a == [a[0]] + a[1..];
      assert b == [b[0]] + b[1..];
    }
  }

  lemma {:induction false} LeTransitive(a: string, b: string, c: string)
    requires Le(a, b) && Le(b, c)
    ensures Le(a, c)
    decreases |a|
  {
    if a != [] && a[0] == b[0] && b[0] == c[0] {
      LeTransitive(a[1..], b[1..], c[1..]);
    }
  }

  /** Every element is `Le` every later element. */
  predicate Sorted(s: seq<string>)
  {
    forall i, j :: 0 <= i < j < |s| ==> Le(s[i], s[j])
  }

  /** Sortedness follows from the order of neighbours. */
  lemma {:induction false} SortedFromNeighbours(s: seq<string>)
    requires forall i :: 0 <= i < |s| - 1 ==> Le(s[i], s[i + 1])
    ensures Sorted(s)
    decreases |s|
  {
    if |s| > 1 {
      SortedFromNeighbours(s[1..]);
      assert Sorted(s[1..]);
      forall j | 0 < j < |s|
        ensures Le(s[0], s[j])
      {
        if j > 1 {
          assert Le(s[1], s[j]) by { assert s[1..][0] == s[1] && s[1..][j - 1] == s[j]; }
          LeTransitive(s[0], s[1], s[j]);
        }
      }
      forall i, j | 0 <= i < j < |s|
        ensures Le(s[i], s[j])
      {
        if i > 0 {
          assert s[1..][i - 1] == s[i] && s[1..][j - 1] == s[j];
        }
      }
    }
  }

  /** `x` placed before the first element it is `Le`. */
  function Insert(s: seq<string>, x: string): (r: seq<string>)
    ensures multiset(r) == multiset(s) + multiset{x}
    ensures |r| == |s| + 1
  {
    if s == [] then [x]
    else if Le(x, s[0]) then [x] + s
    else
      assert s == [s[0]] + s[1..];
      [s[0]] + Insert(s[1..], x)
  }

  lemma {:induction false} InsertSorted(s: seq<string>, x: string)
    requires Sorted(s)
    ensures Sorted(Insert(s, x))
    decreases |s|
  {
    if s == [] {
    } else if Le(x, s[0]) {
      var r := [x] + s;
      forall j | 1 <= j < |r|
        ensures Le(x, r[j])
      {
        if j > 1 {
          LeTransitive(x, s[0], s[j - 1]);
        }
      }
    } else {
      var t := s[1..];
      assert Sorted(t);
      InsertSorted(t, x);
      var it := Insert(t, x);
      var r := [s[0]] + it;
      LeTotal(x, s[0]);
      forall j | 0 <= j < |it|
        ensures Le(s[0], it[j])
      {
        assert it[j] in multiset(it);
        assert it[j] in multiset(t) || it[j] == x;
        if it[j] != x {
          var k :| 0 <= k < |t| && t[k] == it[j];
          assert s[k + 1] == t[k];
        }
      }
      forall i, j | 0 <= i < j < |r|
        ensures Le(r[i], r[j])
      {
        if i > 0 {
          assert r[i] == it[i - 1] && r[j] == it[j - 1];
        } else {
          assert r[j] == it[j - 1];
        }
      }
    }
  }

  /** The tail of a sorted sequence is sorted. */
  lemma SortedTail(s: seq<string>)
    requires Sorted(s) && s != []
    ensures Sorted(s[1..])
  {
    forall i, j | 0 <= i < j < |s| - 1
      ensures Le(s[1..][i], s[1..][j])
    {
      assert s[1..][i] == s[i + 1] && s[1..][j] == s[j + 1];
    }
  }

  /** The first element of a sorted sequence comes before each of its elements. */
  lemma SortedHeadLeast(s: seq<string>, x: string)
    requires Sorted(s) && x in multiset(s)
    ensures Le(s[0], x)
  {
    var j :| 0 <= j < |s| && s[j] == x;
    if j == 0 {
      LeReflexive(x);
    }
  }

  /** Two sorted sequences with the same elements are equal: the result of a sort
      is determined by its input's multiset. */
  lemma {:induction false} SortedUnique(s: seq<string>, t: seq<string>)
    requires Sorted(s) && Sorted(t)
    requires multiset(s) == multiset(t)
    ensures s == t
    decreases |s|
  {
    assert |s| == |multiset(s)| == |t|;
    if s != [] {
      SortedHeadLeast(t, s[0]);
      SortedHeadLeast(s, t[0]);
      LeAntisymmetric(s[0], t[0]);
      assert s == [s[0]] + s[1..];
      assert t == [t[0]] + t[1..];
      assert multiset(s[1..]) == multiset(s) - multiset{s[0]};
      assert multiset(t[1..]) == multiset(t) - multiset{t[0]};
      SortedTail(s);
      SortedTail(t);
      SortedUnique(s[1..], t[1..]);
    }
  }
}
