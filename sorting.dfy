/**
 * `[...xs].sort(cmp)`: a stable sort over a three-way comparator on a copy of
 * the input. Array.prototype.sort is stable, so it is modelled by insertion
 * sort, which keeps elements the comparator calls equal in input order.
 */
module Sorting {

  /**
   * The comparator is a total preorder on the elements of `u`: the sign of
   * `cmp(a, b)` is the opposite of the sign of `cmp(b, a)`, and "not after" is
   * transitive.
   */
  ghost predicate TotalPreorderOn<T>(cmp: (T, T) -> int, u: seq<T>)
  {
    && (forall a, b :: a in u && b in u ==> (cmp(a, b) < 0 <==> cmp(b, a) > 0))
    && (forall a, b, c :: a in u && b in u && c in u && cmp(a, b) <= 0 && cmp(b, c) <= 0 ==> cmp(a, c) <= 0)
  }

  ghost predicate SortedBy<T>(s: seq<T>, cmp: (T, T) -> int)
  {
    forall i, j :: 0 <= i < j < |s| ==> cmp(s[i], s[j]) <= 0
  }

  /** Places `x` in front of the first element it does not follow. */
  function Insert<T>(x: T, s: seq<T>, cmp: (T, T) -> int): seq<T>
  {
    if s == [] then [x]
    else if cmp(x, s[0]) > 0 then [s[0]] + Insert(x, s[1..], cmp)
    else [x] + s
  }

  function InsertionSort<T>(s: seq<T>, cmp: (T, T) -> int): seq<T>
  {
    if s == [] then [] else Insert(s[0], InsertionSort(s[1..], cmp), cmp)
  }

  lemma {:induction false} InsertPermutation<T>(x: T, s: seq<T>, cmp: (T, T) -> int)
    ensures multiset(Insert(x, s, cmp)) == multiset{x} + multiset(s)
  {
    if s != [] && cmp(x, s[0]) > 0 {
      InsertPermutation(x, s[1..], cmp);
      assert s == [s[0]] + s[1..];
    }
  }

  /** The sorted copy holds exactly the input's elements, as often as the input does. */
  lemma {:induction false} SortPermutation<T>(s: seq<T>, cmp: (T, T) -> int)
    ensures multiset(InsertionSort(s, cmp)) == multiset(s)
    ensures |InsertionSort(s, cmp)| == |s|
  {
    if s != [] {
      SortPermutation(s[1..], cmp);
      InsertPermutation(s[0], InsertionSort(s[1..], cmp), cmp);
      assert s == [s[0]] + s[1..];
    }
    assert |multiset(InsertionSort(s, cmp))| == |multiset(s)|;
  }

  /** A sorted sequence stays sorted under a new head that comes before every element. */
  lemma ConsSorted<T>(a: T, r: seq<T>, cmp: (T, T) -> int)
    requires SortedBy(r, cmp)
    requires forall k :: 0 <= k < |r| ==> cmp(a, r[k]) <= 0
    ensures SortedBy([a] + r, cmp)
  {
    var ar := [a] + r;
    forall i, j | 0 <= i < j < |ar| ensures cmp(ar[i], ar[j]) <= 0 {
      assert ar[j] == r[j - 1];
      if i > 0 {
        assert ar[i] == r[i - 1];
      }
    }
  }

  lemma {:induction false} InsertSorted<T>(x: T, s: seq<T>, cmp: (T, T) -> int, u: seq<T>)
    requires TotalPreorderOn(cmp, u)
    requires x in u && forall y :: y in s ==> y in u
    requires SortedBy(s, cmp)
    ensures SortedBy(Insert(x, s, cmp), cmp)
  {
    if s == [] {
    } else if cmp(x, s[0]) > 0 {
      var rest := Insert(x, s[1..], cmp);
      assert forall y :: y in s[1..] ==> y in s;
      assert SortedBy(s[1..], cmp) by {
        forall i, j | 0 <= i < j < |s[1..]| ensures cmp(s[1..][i], s[1..][j]) <= 0 {
          assert s[1..][i] == s[i + 1] && s[1..][j] == s[j + 1];
        }
      }
      InsertSorted(x, s[1..], cmp, u);
      InsertPermutation(x, s[1..], cmp);
      assert s[0] in u;
      forall k | 0 <= k < |rest| ensures cmp(s[0], rest[k]) <= 0 {
        assert rest[k] in multiset(rest);
        if rest[k] != x {
          assert rest[k] in multiset(s[1..]);
          var m :| 0 <= m < |s[1..]| && s[1..][m] == rest[k];
          assert s[m + 1] == rest[k];
        }
      }
      ConsSorted(s[0], rest, cmp);
    } else {
      forall k | 0 <= k < |s| ensures cmp(x, s[k]) <= 0 {
        if k > 0 {
          assert s[0] in u && s[k] in u;
          assert cmp(s[0], s[k]) <= 0;
        }
      }
      ConsSorted(x, s, cmp);
    }
  }

  /** Under a total preorder the sorted copy is in order. */
  lemma {:induction false} SortSorted<T>(s: seq<T>, cmp: (T, T) -> int)
    requires TotalPreorderOn(cmp, s)
    ensures SortedBy(InsertionSort(s, cmp), cmp)
  {
    SortedWithin(s, cmp, s);
  }

  lemma {:induction false} SortedWithin<T>(s: seq<T>, cmp: (T, T) -> int, u: seq<T>)
    requires TotalPreorderOn(cmp, u)
    requires forall y :: y in s ==> y in u
    ensures SortedBy(InsertionSort(s, cmp), cmp)
  {
    if s != [] {
      var t := InsertionSort(s[1..], cmp);
      assert forall y :: y in s[1..] ==> y in s;
      SortedWithin(s[1..], cmp, u);
      SortPermutation(s[1..], cmp);
      forall y | y in t ensures y in u {
        assert y in multiset(t);
        assert y in s[1..];
      }
      InsertSorted(s[0], t, cmp, u);
    }
  }

  /** When the comparator calls every pair equal, the sort keeps the input order. */
  lemma {:induction false} SortAllTiesIdentity<T>(s: seq<T>, cmp: (T, T) -> int)
    requires forall a, b :: a in s && b in s ==> cmp(a, b) == 0
    ensures InsertionSort(s, cmp) == s
  {
    if s != [] {
      assert forall y :: y in s[1..] ==> y in s;
      SortAllTiesIdentity(s[1..], cmp);
      assert InsertionSort(s[1..], cmp) == s[1..];
      if s[1..] != [] {
        assert s[1..][0] in s;
      }
      assert s == [s[0]] + s[1..];
    }
  }

  /** The elements of `s` the comparator calls equal to `z`, in order. */
  function Ties<T>(s: seq<T>, z: T, cmp: (T, T) -> int): seq<T>
  {
    if s == [] then []
    else (if cmp(z, s[0]) == 0 then [s[0]] else []) + Ties(s[1..], z, cmp)
  }

  lemma {:induction false} InsertTies<T>(x: T, s: seq<T>, z: T, cmp: (T, T) -> int, u: seq<T>)
    requires TotalPreorderOn(cmp, u)
    requires x in u && z in u && forall y :: y in s ==> y in u
    ensures Ties(Insert(x, s, cmp), z, cmp) == (if cmp(z, x) == 0 then [x] else []) + Ties(s, z, cmp)
  {
    if s != [] && cmp(x, s[0]) > 0 {
      assert forall y :: y in s[1..] ==> y in s;
      InsertTies(x, s[1..], z, cmp, u);
      var rest := Insert(x, s[1..], cmp);
      assert Insert(x, s, cmp) == [s[0]] + rest;
      TiesCons(s[0], rest, z, cmp);
      assert s == [s[0]] + s[1..];
      TiesCons(s[0], s[1..], z, cmp);
      var t1 := Ties(s[1..], z, cmp);
      if cmp(z, x) == 0 {
        TieNotBefore(cmp, u, z, x, s[0]);
        assert Ties(rest, z, cmp) == [x] + t1;
        assert Ties(s, z, cmp) == t1;
      } else {
        assert Ties(rest, z, cmp) == t1;
      }
    } else {
      TiesCons(x, s, z, cmp);
    }
  }

  lemma TiesCons<T>(a: T, r: seq<T>, z: T, cmp: (T, T) -> int)
    ensures Ties([a] + r, z, cmp) == (if cmp(z, a) == 0 then [a] else []) + Ties(r, z, cmp)
  {
    assert ([a] + r)[1..] == r;
  }

  /** An element that comes strictly before `x` comes strictly before anything tied with `x`. */
  lemma TieNotBefore<T>(cmp: (T, T) -> int, u: seq<T>, z: T, x: T, y: T)
    requires TotalPreorderOn(cmp, u) && z in u && x in u && y in u
    requires cmp(z, x) == 0 && cmp(x, y) > 0
    ensures cmp(z, y) > 0
  {
    // x ties with z, so z <= y would give x <= y
    assert cmp(x, z) <= 0;
  }

  /** Stability: for every element, the ones tied with it keep their input order. */
  lemma {:induction false} SortStable<T>(s: seq<T>, z: T, cmp: (T, T) -> int)
    requires TotalPreorderOn(cmp, s + [z])
    ensures Ties(InsertionSort(s, cmp), z, cmp) == Ties(s, z, cmp)
  {
    StableWithin(s, z, cmp, s + [z]);
  }

  lemma {:induction false} StableWithin<T>(s: seq<T>, z: T, cmp: (T, T) -> int, u: seq<T>)
    requires TotalPreorderOn(cmp, u)
    requires z in u && forall y :: y in s ==> y in u
    ensures Ties(InsertionSort(s, cmp), z, cmp) == Ties(s, z, cmp)
  {
    if s != [] {
      var t := InsertionSort(s[1..], cmp);
      assert forall y :: y in s[1..] ==> y in s;
      StableWithin(s[1..], z, cmp, u);
      SortPermutation(s[1..], cmp);
      forall y | y in t ensures y in u {
        assert y in multiset(t);
        assert y in s[1..];
      }
      InsertTies(s[0], t, z, cmp, u);
    }
  }

  /** In a sorted sequence, whatever lies beyond the first `k` does not come before the k-th. */
  lemma PrefixComesFirst<T>(s: seq<T>, cmp: (T, T) -> int, k: int)
    requires SortedBy(s, cmp) && 0 < k <= |s|
    ensures forall t :: t in multiset(s) - multiset(s[..k]) ==> cmp(s[k - 1], t) <= 0
  {
    assert s == s[..k] + s[k..];
    assert multiset(s) - multiset(s[..k]) == multiset(s[k..]);
    forall t | t in multiset(s[k..]) ensures cmp(s[k - 1], t) <= 0 {
      var m :| 0 <= m < |s[k..]| && s[k..][m] == t;
      assert s[k + m] == t;
    }
  }

  lemma SortedPrefix<T>(s: seq<T>, cmp: (T, T) -> int, k: int)
    requires SortedBy(s, cmp) && 0 <= k <= |s|
    ensures SortedBy(s[..k], cmp)
  {
    forall i, j | 0 <= i < j < k ensures cmp(s[..k][i], s[..k][j]) <= 0 {
      assert s[..k][i] == s[i] && s[..k][j] == s[j];
    }
  }
}
