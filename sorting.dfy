/** Sorting by a ranking and keeping the best `n` (`.sort_values(...).head(n)`).
    The ranking is a relation `before(a, b)`: "a may be listed ahead of b". The
    pandas default sort is not stable, so the specification `IsTopN` admits
    every order of tied elements; `TopN` is one function that meets it. */
module Sorting {
  import opened Seqs

  /** `before` is total and transitive, so it ranks every pair consistently. */
  ghost predicate TotalPreorder<T(!new)>(before: (T, T) -> bool)
  {
    && (forall a, b :: before(a, b) || before(b, a))
    && (forall a, b, c :: before(a, b) && before(b, c) ==> before(a, c))
  }

  ghost predicate Sorted<T>(s: seq<T>, before: (T, T) -> bool)
  {
    forall i, j :: 0 <= i < j < |s| ==> before(s[i], s[j])
  }

  /** No element occurs twice. */
  ghost predicate Distinct<T>(s: seq<T>)
  {
    forall i, j :: 0 <= i < j < |s| ==> s[i] != s[j]
  }

  /** Inserts `x` into a sorted sequence ahead of the first element it may precede. */
  function Insert<T(!new)>(x: T, s: seq<T>, before: (T, T) -> bool): (r: seq<T>)
    requires TotalPreorder(before)
    requires Sorted(s, before)
    ensures Sorted(r, before)
    ensures exists p :: 0 <= p <= |s| && r == s[..p] + [x] + s[p..]
  {
    if s == [] || before(x, s[0]) then
      assert [x] + s == s[..0] + [x] + s[0..];
      [x] + s
    else
      var rest := Insert(x, s[1..], before);
      InsertBehindHead(x, s, rest, before);
      [s[0]] + rest
  }

  /** Inserting behind the head: the head still ranks first. */
  lemma InsertBehindHead<T(!new)>(x: T, s: seq<T>, rest: seq<T>, before: (T, T) -> bool)
    requires TotalPreorder(before)
    requires Sorted(s, before) && s != [] && !before(x, s[0])
    requires Sorted(rest, before)
    requires exists p :: 0 <= p <= |s[1..]| && rest == s[1..][..p] + [x] + s[1..][p..]
    ensures Sorted([s[0]] + rest, before)
    ensures exists p :: 0 <= p <= |s| && [s[0]] + rest == s[..p] + [x] + s[p..]
  {
    var p :| 0 <= p <= |s[1..]| && rest == s[1..][..p] + [x] + s[1..][p..];
    assert s[..p + 1] == [s[0]] + s[1..][..p] && s[p + 1..] == s[1..][p..];
    assert [s[0]] + rest == s[..p + 1] + [x] + s[p + 1..];
    var r := [s[0]] + rest;
    forall i, j | 0 <= i < j < |r| ensures before(r[i], r[j]) {
      if i == 0 {
        if j - 1 < p {
          assert r[j] == s[j];
        } else if j - 1 > p {
          assert r[j] == s[j - 1];
        }
      } else {
        assert r[i] == rest[i - 1] && r[j] == rest[j - 1];
      }
    }
  }

  /** Insertion sort: a permutation of `s` that is sorted by `before`. */
  function Sort<T(!new)>(s: seq<T>, before: (T, T) -> bool): (r: seq<T>)
    requires TotalPreorder(before)
    ensures Sorted(r, before)
    ensures multiset(r) == multiset(s)
    ensures Distinct(s) ==> Distinct(r)
  {
    if s == [] then []
    else
      var rest := Sort(s[1..], before);
      var r := Insert(s[0], rest, before);
      InsertPreserves(s, rest, r);
      r
  }

  lemma InsertPreserves<T>(s: seq<T>, rest: seq<T>, r: seq<T>)
    requires s != []
    requires multiset(rest) == multiset(s[1..])
    requires Distinct(s[1..]) ==> Distinct(rest)
    requires exists p :: 0 <= p <= |rest| && r == rest[..p] + [s[0]] + rest[p..]
    ensures multiset(r) == multiset(s)
    ensures Distinct(s) ==> Distinct(r)
  {
    var p :| 0 <= p <= |rest| && r == rest[..p] + [s[0]] + rest[p..];
    assert s == [s[0]] + s[1..];
    InsertedMultiset(s[0], rest, p, r);
    if Distinct(s) {
      assert Distinct(s[1..]);
      assert s[0] !in multiset(s[1..]);
      InsertedDistinct(s[0], rest, p, r);
    }
  }

  lemma InsertedMultiset<T>(x: T, s: seq<T>, p: nat, r: seq<T>)
    requires p <= |s| && r == s[..p] + [x] + s[p..]
    ensures multiset(r) == multiset(s) + multiset{x}
  {
    assert s == s[..p] + s[p..];
    assert multiset(s) == multiset(s[..p]) + multiset(s[p..]);
  }

  lemma InsertedDistinct<T>(x: T, s: seq<T>, p: nat, r: seq<T>)
    requires p <= |s| && r == s[..p] + [x] + s[p..]
    requires Distinct(s) && x !in s
    ensures Distinct(r)
  {
    assert forall k :: 0 <= k < |r| ==> r[k] == if k < p then s[k] else if k == p then x else s[k - 1];
    forall i, j | 0 <= i < j < |r| ensures r[i] != r[j] {
      if i < p && j > p {
        assert r[i] == s[i] && r[j] == s[j - 1];
      }
    }
  }

  /** `r` is a best-`n` selection from `s`: as many elements as fit, taken from
      `s`, listed in ranking order, and no element left out ranks ahead of the
      last one listed. */
  ghost predicate IsTopN<T>(r: seq<T>, s: seq<T>, n: nat, before: (T, T) -> bool)
  {
    && |r| == Min(n, |s|)
    && multiset(r) <= multiset(s)
    && Sorted(r, before)
    && (forall x :: x in multiset(s) - multiset(r) && r != [] ==> before(r[|r| - 1], x))
  }

  function TopN<T(!new)>(s: seq<T>, n: nat, before: (T, T) -> bool): (r: seq<T>)
    requires TotalPreorder(before)
    ensures IsTopN(r, s, n, before)
    ensures Distinct(s) ==> Distinct(r)
  {
    var sorted := Sort(s, before);
    PrefixOfSortedIsTopN(s, sorted, n, before);
    Take(sorted, n)
  }

  lemma PrefixOfSortedIsTopN<T>(s: seq<T>, sorted: seq<T>, n: nat, before: (T, T) -> bool)
    requires Sorted(sorted, before)
    requires multiset(sorted) == multiset(s)
    requires Distinct(s) ==> Distinct(sorted)
    ensures IsTopN(Take(sorted, n), s, n, before)
    ensures Distinct(s) ==> Distinct(Take(sorted, n))
  {
    var r := Take(sorted, n);
    assert |sorted| == |s| by {
      assert |multiset(sorted)| == |multiset(s)|;
    }
    assert forall k :: 0 <= k < |r| ==> r[k] == sorted[k];
    assert Sorted(r, before);
    assert Distinct(sorted) ==> Distinct(r);
    PrefixSplits(sorted, r);
    assert multiset(r) <= multiset(s);
    forall x | x in multiset(s) - multiset(r) && r != []
      ensures before(r[|r| - 1], x)
    {
      LeftOutRanksBehind(sorted, r, x, before);
    }
  }

  lemma PrefixSplits<T>(sorted: seq<T>, r: seq<T>)
    requires |r| <= |sorted| && r == sorted[..|r|]
    ensures multiset(sorted) == multiset(r) + multiset(sorted[|r|..])
  {
    assert sorted == r + sorted[|r|..];
  }

  /** An element of a sorted sequence that has more copies in it than in
      a prefix of it ranks behind the prefix's last element. */
  lemma LeftOutRanksBehind<T>(sorted: seq<T>, r: seq<T>, x: T, before: (T, T) -> bool)
    requires Sorted(sorted, before)
    requires 0 < |r| <= |sorted| && r == sorted[..|r|]
    requires x in multiset(sorted[|r|..])
    ensures before(r[|r| - 1], x)
  {
    var rest := sorted[|r|..];
    var j :| 0 <= j < |rest| && rest[j] == x;
    assert before(sorted[|r| - 1], sorted[|r| + j]);
  }
}
