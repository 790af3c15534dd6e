/** sort.Sort: an in-place sort that is not stable, so all that is known of its result is that it is an ordered
    permutation. Where the keys are distinct, that determines it. */
module Sorting {

  ghost predicate Ordered<T(!new)>(le: (T, T) -> bool, s: seq<T>, i: int, j: int) {
    0 <= i < j < |s| ==> le(s[i], s[j])
  }

  ghost predicate Sorted<T(!new)>(le: (T, T) -> bool, s: seq<T>) {
    forall i, j :: Ordered(le, s, i, j)
  }

  ghost predicate TotalPreorder<T(!new)>(le: (T, T) -> bool) {
    && (forall x, y :: le(x, y) || le(y, x))
    && (forall x, y, z :: le(x, y) && le(y, z) ==> le(x, z))
  }

  ghost predicate IsSortOf<T(!new)>(le: (T, T) -> bool, s: seq<T>, r: seq<T>) {
    multiset(r) == multiset(s) && Sorted(le, r)
  }

  ghost predicate DistinctKeys<T(!new)>(le: (T, T) -> bool, s: seq<T>) {
    forall x, y | x in s && y in s && le(x, y) && le(y, x) :: x == y
  }

  method Sort<T(!new)>(le: (T, T) -> bool, s: seq<T>) returns (r: seq<T>)
    requires TotalPreorder(le)
    ensures IsSortOf(le, s, r)
  {
    r := [];
    for i := 0 to |s|
      invariant IsSortOf(le, s[..i], r)
    {
      var j := 0;
      while j < |r| && le(r[j], s[i])
        invariant 0 <= j <= |r|
        invariant forall k | 0 <= k < j :: le(r[k], s[i])
      {
        j := j + 1;
      }
      forall k | j <= k < |r| ensures le(s[i], r[k]) {
        assert Ordered(le, r, j, k);
      }
      SortedInsert(le, r, j, s[i]);
      assert s[..i + 1] == s[..i] + [s[i]];
      assert r == r[..j] + r[j..];
      r := r[..j] + [s[i]] + r[j..];
    }
    assert s[..|s|] == s;
  }

  lemma SameElements<T>(a: seq<T>, b: seq<T>)
    requires multiset(a) == multiset(b)
    ensures forall x :: x in a <==> x in b
  {
    forall x ensures x in a <==> x in b {
      assert x in a <==> x in multiset(a);
      assert x in b <==> x in multiset(b);
    }
  }

  lemma HeadIsLeast<T(!new)>(le: (T, T) -> bool, s: seq<T>, x: T)
    requires Sorted(le, s) && x in s && x != s[0]
    ensures le(s[0], x)
  {
    var j :| 0 <= j < |s| && s[j] == x;
    assert Ordered(le, s, 0, j);
  }

  lemma SortedTail<T(!new)>(le: (T, T) -> bool, s: seq<T>)
    requires Sorted(le, s) && s != []
    ensures Sorted(le, s[1..])
  {
    forall i, j ensures Ordered(le, s[1..], i, j) {
      assert Ordered(le, s, i + 1, j + 1);
    }
  }

  lemma SortedInsert<T(!new)>(le: (T, T) -> bool, s: seq<T>, n: nat, x: T)
    requires Sorted(le, s) && n <= |s|
    requires forall k | 0 <= k < n :: le(s[k], x)
    requires forall k | n <= k < |s| :: le(x, s[k])
    ensures Sorted(le, s[..n] + [x] + s[n..])
  {
    var r := s[..n] + [x] + s[n..];
    forall i, j ensures Ordered(le, r, i, j) {
      if 0 <= i < j < |r| {
        assert Ordered(le, s, if i < n then i else i - 1, if j < n then j else j - 1);
      }
    }
  }

  /** An ordered permutation is unique when the keys are distinct, whatever sorting algorithm produced it. */
  lemma {:induction false} SortIsUnique<T(!new)>(le: (T, T) -> bool, a: seq<T>, b: seq<T>)
    requires multiset(a) == multiset(b) && Sorted(le, a) && Sorted(le, b) && DistinctKeys(le, a)
    ensures a == b
    decreases |a|
  {
    assert |a| == |multiset(a)| == |b|;
    if a == [] {
    } else {
      SameElements(a, b);
      if a[0] != b[0] {
        HeadIsLeast(le, a, b[0]);
        HeadIsLeast(le, b, a[0]);
        assert false;
      }
      assert a == [a[0]] + a[1..] && b == [b[0]] + b[1..];
      assert multiset(a[1..]) == multiset(a) - multiset{a[0]};
      assert multiset(b[1..]) == multiset(b) - multiset{b[0]};
      SortedTail(le, a);
      SortedTail(le, b);
      SortIsUnique(le, a[1..], b[1..]);
    }
  }

  ghost predicate Distinct<T>(s: seq<T>) {
    forall i, j | 0 <= i < j < |s| :: s[i] != s[j]
  }

  lemma {:induction false} DistinctMultiplicity<T>(s: seq<T>, x: T)
    requires Distinct(s)
    ensures multiset(s)[x] == if x in s then 1 else 0
  {
    if s == [] {
    } else {
      var init := s[..|s| - 1];
      assert s == init + [s[|s| - 1]];
      DistinctMultiplicity(init, x);
    }
  }

  lemma DistinctPermutation<T>(a: seq<T>, b: seq<T>)
    requires Distinct(a) && Distinct(b) && forall x :: x in a <==> x in b
    ensures multiset(a) == multiset(b)
  {
    forall x ensures multiset(a)[x] == multiset(b)[x] {
      DistinctMultiplicity(a, x);
      DistinctMultiplicity(b, x);
    }
  }

  lemma {:induction false} DistinctIfMultiplicity<T>(s: seq<T>)
    requires forall x :: multiset(s)[x] <= 1
    ensures Distinct(s)
  {
    if s == [] {
    } else {
      var init, last := s[..|s| - 1], s[|s| - 1];
      assert s == init + [last];
      assert multiset(s) == multiset(init) + multiset{last};
      forall x ensures multiset(init)[x] <= 1 {
        assert multiset(s)[x] <= 1;
      }
      DistinctIfMultiplicity(init);
      assert multiset(s)[last] <= 1;
      assert last !in multiset(init);
      assert forall i | 0 <= i < |init| :: init[i] in multiset(init);
    }
  }

  /** Sorting keeps the elements and keeps them distinct. */
  lemma SortKeepsElements<T>(s: seq<T>, r: seq<T>)
    requires multiset(r) == multiset(s) && Distinct(s)
    ensures Distinct(r) && forall x :: x in r <==> x in s
  {
    forall x ensures multiset(r)[x] <= 1 {
      DistinctMultiplicity(s, x);
    }
    DistinctIfMultiplicity(r);
    SameElements(s, r);
  }

  // ---------- Go's byte-wise order on strings ----------

  predicate StringLess(s: string, t: string) {
    if s == "" then t != ""
    else t != "" && (s[0] < t[0] || (s[0] == t[0] && StringLess(s[1..], t[1..])))
  }

  lemma {:induction false} StringLessTotal(s: string, t: string)
    ensures !(StringLess(s, t) && StringLess(t, s))
    ensures !StringLess(s, t) && !StringLess(t, s) <==> s == t
  {
    if s == "" || t == "" || s[0] != t[0] {
    } else {
      StringLessTotal(s[1..], t[1..]);
      assert s == [s[0]] + s[1..] && t == [t[0]] + t[1..];
    }
  }

  lemma {:induction false} StringLessTransitive(s: string, t: string, u: string)
    requires !StringLess(t, s) && !StringLess(u, t)
    ensures !StringLess(u, s)
  {
    if s == "" || t == "" || u == "" || s[0] != t[0] || t[0] != u[0] {
    } else {
      StringLessTransitive(s[1..], t[1..], u[1..]);
    }
  }

  /** Strings compare at the first character in which they differ; where there is none, the shorter one is less. */
  lemma {:induction false} StringLessExact(s: string, t: string)
    ensures StringLess(s, t)
      <==> s < t || exists i :: 0 <= i < |s| && i < |t| && s[..i] == t[..i] && s[i] < t[i]
  {
    if s == "" || t == "" {
    } else if s[0] != t[0] {
      assert s[0] < t[0] ==> s[..0] == t[..0];
      assert forall i | 0 < i < |s| && i < |t| :: s[..i][0] == s[0] && t[..i][0] == t[0];
    } else {
      StringLessExact(s[1..], t[1..]);
      assert s == [s[0]] + s[1..] && t == [t[0]] + t[1..];
      if i :| 0 <= i < |s| && i < |t| && s[..i] == t[..i] && s[i] < t[i] {
        assert s[1..][..i - 1] == s[..i][1..] && t[1..][..i - 1] == t[..i][1..];
        assert s[1..][i - 1] < t[1..][i - 1];
      }
      if i :| 0 <= i < |s[1..]| && i < |t[1..]| && s[1..][..i] == t[1..][..i] && s[1..][i] < t[1..][i] {
        assert s[..i + 1] == [s[0]] + s[1..][..i] && t[..i + 1] == [t[0]] + t[1..][..i];
        assert s[i + 1] < t[i + 1];
      }
    }
  }
}
