/** A verified sort, standing for Python's `sorted` and `list.sort`, and what rearranging a
    list leaves unchanged. */
module Lists {

  ghost predicate TotalOrder<T(!new)>(le: (T, T) -> bool) {
    && (forall x, y :: le(x, y) || le(y, x))
    && (forall x, y, z :: le(x, y) && le(y, z) ==> le(x, z))
  }

  ghost predicate SortedBy<T>(le: (T, T) -> bool, xs: seq<T>) {
    forall i, j :: 0 <= i < j < |xs| ==> le(xs[i], xs[j])
  }

  ghost predicate NoDuplicates<T>(xs: seq<T>) {
    forall i, j :: 0 <= i < j < |xs| ==> xs[i] != xs[j]
  }

  function Insert<T(!new)>(le: (T, T) -> bool, x: T, xs: seq<T>): (r: seq<T>)
    ensures multiset(r) == multiset{x} + multiset(xs)
  {
    if xs == [] || le(x, xs[0]) then
      [x] + xs
    else
      assert xs == [xs[0]] + xs[1..];
      [xs[0]] + Insert(le, x, xs[1..])
  }

  lemma {:induction false} InsertSorted<T(!new)>(le: (T, T) -> bool, x: T, xs: seq<T>)
    requires TotalOrder(le) && SortedBy(le, xs)
    ensures SortedBy(le, Insert(le, x, xs))
  {
    if xs != [] && !le(x, xs[0]) {
      var rest := Insert(le, x, xs[1..]);
      InsertSorted(le, x, xs[1..]);
      forall k | 0 <= k < |rest| ensures le(xs[0], rest[k]) {
        assert rest[k] in multiset(rest);
        if rest[k] != x {
          var m :| 0 <= m < |xs[1..]| && xs[1..][m] == rest[k];
          assert rest[k] == xs[m + 1];
        }
      }
    } else if xs != [] {
      forall k | 0 <= k < |xs| ensures le(x, xs[k]) {
        assert k > 0 ==> le(xs[0], xs[k]);
      }
    }
  }

  function Sort<T(!new)>(le: (T, T) -> bool, xs: seq<T>): (r: seq<T>)
    requires TotalOrder(le)
    ensures multiset(r) == multiset(xs)
    ensures SortedBy(le, r)
  {
    if xs == [] then []
    else
      assert xs == [xs[0]] + xs[1..];
      InsertSorted(le, xs[0], Sort(le, xs[1..]));
      Insert(le, xs[0], Sort(le, xs[1..]))
  }

  /** Rearranging a list keeps its length and its elements. */
  lemma SameMultiset<T>(a: seq<T>, b: seq<T>)
    requires multiset(a) == multiset(b)
    ensures |a| == |b|
    ensures forall x :: x in a <==> x in b
  {
    assert |a| == |multiset(a)| == |multiset(b)| == |b|;
    forall x ensures x in a <==> x in b {
      assert x in a <==> x in multiset(a);
      assert x in b <==> x in multiset(b);
    }
  }

  function Without<T>(xs: seq<T>, k: nat): (r: seq<T>)
    requires k < |xs|
    ensures |r| == |xs| - 1
  {
    xs[..k] + xs[k + 1..]
  }

  lemma MultisetWithout<T>(xs: seq<T>, k: nat)
    requires k < |xs|
    ensures multiset(Without(xs, k)) == multiset(xs) - multiset{xs[k]}
  {
    assert xs == xs[..k] + [xs[k]] + xs[k + 1..];
  }

  /** Where the head of `a` is found in a rearrangement `b`; the rest are rearranged too. */
  lemma HeadElsewhere<T>(a: seq<T>, b: seq<T>) returns (k: nat)
    requires a != [] && multiset(a) == multiset(b)
    ensures k < |b| && b[k] == a[0]
    ensures multiset(Without(a, 0)) == multiset(Without(b, k))
  {
    assert a[0] in multiset(a) && a[0] in multiset(b);
    k :| 0 <= k < |b| && b[k] == a[0];
    MultisetWithout(a, 0);
    MultisetWithout(b, k);
  }

  lemma {:induction false} NoDuplicatesMultiset<T>(xs: seq<T>)
    ensures NoDuplicates(xs) <==> forall x :: multiset(xs)[x] <= 1
  {
    if xs != [] {
      var h, t := xs[0], xs[1..];
      assert xs == [h] + t;
      NoDuplicatesMultiset(t);
      if h in t {
        var k :| 0 <= k < |t| && t[k] == h;
        assert xs[0] == xs[k + 1];
        assert multiset(t)[h] >= 1;
        assert multiset(xs)[h] >= 2;
      } else {
        assert forall x :: multiset(xs)[x] == multiset(t)[x] + (if x == h then 1 else 0);
        if NoDuplicates(t) {
          forall i, j | 0 <= i < j < |xs| ensures xs[i] != xs[j] {
            assert xs[j] == t[j - 1];
            assert i > 0 ==> xs[i] == t[i - 1];
          }
        } else {
          var i, j :| 0 <= i < j < |t| && t[i] == t[j];
          assert xs[i + 1] == xs[j + 1];
        }
      }
    }
  }

  // ---------------------------------------------------------------------- sums

  function SumBy<T>(f: T -> real, xs: seq<T>): real {
    if xs == [] then 0.0 else f(xs[0]) + SumBy(f, xs[1..])
  }

  lemma {:induction false} SumByWithout<T>(f: T -> real, xs: seq<T>, k: nat)
    requires k < |xs|
    ensures SumBy(f, xs) == f(xs[k]) + SumBy(f, Without(xs, k))
  {
    if k == 0 {
      assert Without(xs, 0) == xs[1..];
    } else {
      SumByWithout(f, xs[1..], k - 1);
      assert Without(xs, k)[1..] == Without(xs[1..], k - 1);
    }
  }

  /** A sum does not depend on the order of its terms. */
  lemma {:induction false} SumByPermuted<T>(f: T -> real, a: seq<T>, b: seq<T>)
    requires multiset(a) == multiset(b)
    ensures SumBy(f, a) == SumBy(f, b)
    decreases |a|
  {
    if a == [] {
      SameMultiset(a, b);
    } else {
      var k := HeadElsewhere(a, b);
      SumByWithout(f, a, 0);
      SumByWithout(f, b, k);
      SumByPermuted(f, Without(a, 0), Without(b, k));
    }
  }
}
