/**
 * The JavaScript array built-ins the application relies on, over Dafny
 * sequences: `filter`, `find`, `slice(0, n)`, `includes`, the stable
 * comparator `sort`, and an insertion-ordered `Set` as a duplicate-free
 * sequence.
 */
module JsArrays {

  import opened Wrappers
  import opened JsStrings

  // ---------------------------------------------------------------------------
  // filter / find / slice

  /** `s.filter(p)`: the elements satisfying `p`, in their original order. */
  function Filter<T(!new)>(s: seq<T>, p: T -> bool): (r: seq<T>)
    ensures |r| <= |s|
    ensures forall x :: x in r <==> x in s && p(x)
    ensures multiset(r) <= multiset(s)
  {
    if s == [] then []
    else
      assert s == [s[0]] + s[1..];
      if p(s[0]) then [s[0]] + Filter(s[1..], p)
      else Filter(s[1..], p)
  }

  /** Filtering distributes over concatenation, so it keeps the original order. */
  lemma {:induction false} FilterAppend<T(!new)>(a: seq<T>, b: seq<T>, p: T -> bool)
    ensures Filter(a + b, p) == Filter(a, p) + Filter(b, p)
    decreases |a|
  {
    if a == [] {
      assert a + b == b;
    } else {
      assert (a + b)[0] == a[0];
      assert (a + b)[1..] == a[1..] + b;
      FilterAppend(a[1..], b, p);
      if p(a[0]) {
        calc {
          Filter(a + b, p);
          [a[0]] + Filter(a[1..] + b, p);
          [a[0]] + (Filter(a[1..], p) + Filter(b, p));
          ([a[0]] + Filter(a[1..], p)) + Filter(b, p);
        }
      }
    }
  }

  /** Two successive filters are one filter by the conjunction. */
  lemma {:induction false} FilterFilter<T(!new)>(s: seq<T>, p: T -> bool, q: T -> bool)
    ensures Filter(Filter(s, p), q) == Filter(s, x => p(x) && q(x))
    decreases |s|
  {
    if s != [] {
      FilterFilter(s[1..], p, q);
    }
  }

  /** Filters by predicates that agree on the elements are equal. */
  lemma {:induction false} FilterExt<T(!new)>(s: seq<T>, p: T -> bool, q: T -> bool)
    requires forall x :: x in s ==> p(x) == q(x)
    ensures Filter(s, p) == Filter(s, q)
    decreases |s|
  {
    if s != [] {
      assert forall x :: x in s[1..] ==> x in s;
      FilterExt(s[1..], p, q);
    }
  }

  /** A filter whose predicate holds throughout removes nothing. */
  lemma {:induction false} FilterAll<T(!new)>(s: seq<T>, p: T -> bool)
    requires forall x :: x in s ==> p(x)
    ensures Filter(s, p) == s
    decreases |s|
  {
    if s != [] {
      assert forall x :: x in s[1..] ==> x in s;
      FilterAll(s[1..], p);
    }
  }

  /** A filter keeps its whole input exactly when the predicate holds of
      every element. */
  lemma {:induction false} FilterKeepsAll<T(!new)>(s: seq<T>, p: T -> bool)
    ensures |Filter(s, p)| == |s| <==> forall x :: x in s ==> p(x)
    decreases |s|
  {
    if s != [] {
      assert forall x :: x in s <==> x == s[0] || x in s[1..];
      FilterKeepsAll(s[1..], p);
    }
  }

  /** `s.map(f)`. */
  function Map<A, B>(s: seq<A>, f: A -> B): (r: seq<B>)
    ensures |r| == |s| && forall k :: 0 <= k < |s| ==> r[k] == f(s[k])
  {
    seq(|s|, k requires 0 <= k < |s| => f(s[k]))
  }

  /** Mapping one more element appends its image. */
  lemma MapStep<A, B>(s: seq<A>, i: nat, f: A -> B)
    requires i < |s|
    ensures Map(s[..i + 1], f) == Map(s[..i], f) + [f(s[i])]
  {
    var r := Map(s[..i], f) + [f(s[i])];
    assert forall k :: 0 <= k < i ==> s[..i + 1][k] == s[..i][k] && r[k] == f(s[..i][k]);
  }

  /** `s.find(p)`: the first element satisfying `p`. */
  function Find<T(==)>(s: seq<T>, p: T -> bool): (r: Option<T>)
    ensures r.None? <==> forall i :: 0 <= i < |s| ==> !p(s[i])
    ensures r.Some? ==> r.value in s && p(r.value)
    ensures r.Some? ==> exists i :: 0 <= i < |s| && s[i] == r.value && forall j :: 0 <= j < i ==> !p(s[j])
  {
    if s == [] then None
    else if p(s[0]) then Some(s[0])
    else
      var r := Find(s[1..], p);
      assert forall i :: 1 <= i < |s| ==> s[i] == s[1..][i - 1];
      if r.Some? then
        var i :| 0 <= i < |s[1..]| && s[1..][i] == r.value && forall j :: 0 <= j < i ==> !p(s[1..][j]);
        assert s[i + 1] == r.value && forall j :: 0 <= j < i + 1 ==> !p(s[j]);
        r
      else r
  }

  /** `s.findIndex(p)`: the first position satisfying `p`, or -1. */
  function FindIndex<T>(s: seq<T>, p: T -> bool): (k: int)
    ensures -1 <= k < |s|
    ensures k >= 0 ==> p(s[k]) && forall j :: 0 <= j < k ==> !p(s[j])
    ensures k < 0 ==> forall j :: 0 <= j < |s| ==> !p(s[j])
  {
    if s == [] then -1
    else if p(s[0]) then 0
    else
      var k := FindIndex(s[1..], p);
      assert forall j :: 1 <= j < |s| ==> s[j] == s[1..][j - 1];
      if k < 0 then -1 else k + 1
  }

  /** Sequences whose elements agree on `p` position by position have the
      same first position satisfying it. */
  lemma FindIndexAgree<T>(s: seq<T>, t: seq<T>, p: T -> bool)
    requires |s| == |t| && forall j :: 0 <= j < |s| ==> p(s[j]) == p(t[j])
    ensures FindIndex(s, p) == FindIndex(t, p)
  {
  }

  /** Appending an element only matters when nothing before it satisfies `p`. */
  lemma FindIndexAppend<T>(s: seq<T>, x: T, p: T -> bool)
    ensures FindIndex(s + [x], p)
            == if FindIndex(s, p) >= 0 then FindIndex(s, p) else if p(x) then |s| else -1
  {
    var t := s + [x];
    assert forall j :: 0 <= j < |s| ==> t[j] == s[j];
    assert t[|s|] == x;
  }

  /** The end index `s.slice(0, count)` stops at: a negative count counts back
      from the end. */
  function SliceEnd(len: nat, count: int): (n: nat)
    ensures n <= len
    ensures count >= 0 ==> n == if count < len then count else len
  {
    if count < 0 then (if len + count < 0 then 0 else len + count)
    else if count < len then count
    else len
  }

  /** `s.slice(0, count)`. */
  function Take<T>(s: seq<T>, count: int): (r: seq<T>)
    ensures r <= s
    ensures |r| == SliceEnd(|s|, count)
  {
    s[..SliceEnd(|s|, count)]
  }

  /** `s.filter(x => x !== v)`: every occurrence of `v` removed. */
  function RemoveAll<T(==,!new)>(s: seq<T>, v: T): (r: seq<T>)
    ensures v !in r
    ensures forall x :: x != v ==> (x in r <==> x in s)
    ensures forall x :: x != v ==> multiset(r)[x] == multiset(s)[x]
  {
    if s == [] then []
    else
      assert s == [s[0]] + s[1..];
      if s[0] == v then RemoveAll(s[1..], v)
      else [s[0]] + RemoveAll(s[1..], v)
  }

  /** Removing a value that does not occur changes nothing. */
  lemma {:induction false} RemoveAllAbsent<T(!new)>(s: seq<T>, v: T)
    requires v !in s
    ensures RemoveAll(s, v) == s
    decreases |s|
  {
    if s != [] {
      assert s[1..] + [] == s[1..];
      RemoveAllAbsent(s[1..], v);
      assert s == [s[0]] + s[1..];
    }
  }

  /** Removing all occurrences keeps the order of what is left: removing from
      a concatenation is removing from each part. */
  lemma {:induction false} RemoveAllAppend<T(!new)>(a: seq<T>, b: seq<T>, v: T)
    ensures RemoveAll(a + b, v) == RemoveAll(a, v) + RemoveAll(b, v)
    decreases |a|
  {
    if a == [] {
      assert a + b == b;
    } else {
      assert (a + b)[0] == a[0];
      assert (a + b)[1..] == a[1..] + b;
      RemoveAllAppend(a[1..], b, v);
      if a[0] != v {
        calc {
          RemoveAll(a + b, v);
          [a[0]] + RemoveAll(a[1..] + b, v);
          [a[0]] + (RemoveAll(a[1..], v) + RemoveAll(b, v));
          ([a[0]] + RemoveAll(a[1..], v)) + RemoveAll(b, v);
        }
      }
    }
  }

  // ---------------------------------------------------------------------------
  // Set (insertion-ordered, as JavaScript's Set iterates)

  predicate Distinct<T(==)>(s: seq<T>) {
    forall i, j :: 0 <= i < j < |s| ==> s[i] != s[j]
  }

  lemma {:induction false} DistinctCounts<T>(s: seq<T>)
    requires Distinct(s)
    ensures forall x :: multiset(s)[x] <= 1
    decreases |s|
  {
    if s != [] {
      assert Distinct(s[1..]);
      DistinctCounts(s[1..]);
      assert s == [s[0]] + s[1..];
      assert s[0] !in s[1..];
    }
  }

  /** A permutation of a duplicate-free sequence is duplicate-free. */
  lemma PermutationDistinct<T>(s: seq<T>, r: seq<T>)
    requires Distinct(s) && multiset(r) == multiset(s)
    ensures Distinct(r)
  {
    DistinctCounts(s);
    forall i, j | 0 <= i < j < |r| ensures r[i] != r[j] {
      RepeatCounts(r, i, j);
    }
  }

  lemma RepeatCounts<T>(r: seq<T>, i: nat, j: nat)
    requires i < j < |r|
    ensures r[i] == r[j] ==> multiset(r)[r[i]] >= 2
  {
    assert r == r[..j] + r[j..];
    assert r[i] in multiset(r[..j]);
    assert r[j] in multiset(r[j..]);
  }

  /** `set.add(x)` on an insertion-ordered set. */
  function SetAdd<T(==,!new)>(s: seq<T>, x: T): (r: seq<T>)
    requires Distinct(s)
    ensures Distinct(r)
    ensures forall y :: y in r <==> y in s || y == x
    ensures s <= r
  {
    if x in s then s else s + [x]
  }

  // ---------------------------------------------------------------------------
  // sort (stable, with a comparator that is a total preorder)

  /** `le(a, b)`: the comparator allows `a` before `b` (it returns <= 0). */
  ghost predicate TotalPreorder<T(!new)>(le: (T, T) -> bool) {
    && (forall a, b :: le(a, b) || le(b, a))
    && (forall a, b, c :: le(a, b) && le(b, c) ==> le(a, c))
  }

  predicate SortedBy<T>(s: seq<T>, le: (T, T) -> bool) {
    forall i, j :: 0 <= i < j < |s| ==> le(s[i], s[j])
  }

  /** Insert `x` after every element that may precede it (so after its equals). */
  function InsertBy<T>(x: T, s: seq<T>, le: (T, T) -> bool): (r: seq<T>)
    ensures multiset(r) == multiset(s) + multiset{x}
    ensures |r| == |s| + 1
  {
    if s == [] then [x]
    else
      assert s == [s[0]] + s[1..];
      if le(s[0], x) then [s[0]] + InsertBy(x, s[1..], le)
      else [x] + s
  }

  lemma {:induction false} InsertBySorted<T(!new)>(x: T, s: seq<T>, le: (T, T) -> bool)
    requires TotalPreorder(le) && SortedBy(s, le)
    ensures SortedBy(InsertBy(x, s, le), le)
    decreases |s|
  {
    if s != [] {
      var r := InsertBy(x, s, le);
      if le(s[0], x) {
        var r' := InsertBy(x, s[1..], le);
        assert SortedBy(s[1..], le);
        InsertBySorted(x, s[1..], le);
        forall k | 0 <= k < |r'| ensures le(s[0], r'[k]) {
          assert r'[k] in multiset(r');
          if r'[k] != x {
            assert r'[k] in multiset(s[1..]);
            var m :| 0 <= m < |s[1..]| && s[1..][m] == r'[k];
            assert s[m + 1] == r'[k];
          }
        }
        assert r == [s[0]] + r';
      } else {
        assert le(x, s[0]);
        forall k | 0 < k < |s| ensures le(x, s[k]) {
          assert le(s[0], s[k]);
        }
        assert r == [x] + s;
      }
    }
  }

  /** `s.sort(cmp)` as a stable insertion sort. */
  function SortBy<T>(s: seq<T>, le: (T, T) -> bool): (r: seq<T>)
    ensures multiset(r) == multiset(s)
    ensures |r| == |s|
  {
    if s == [] then []
    else
      assert s == s[..|s| - 1] + [s[|s| - 1]];
      InsertBy(s[|s| - 1], SortBy(s[..|s| - 1], le), le)
  }

  /** Sorting with a total preorder yields a sorted sequence. */
  lemma {:induction false} SortBySorted<T(!new)>(s: seq<T>, le: (T, T) -> bool)
    requires TotalPreorder(le)
    ensures SortedBy(SortBy(s, le), le)
    decreases |s|
  {
    if s != [] {
      SortBySorted(s[..|s| - 1], le);
      InsertBySorted(s[|s| - 1], SortBy(s[..|s| - 1], le), le);
    }
  }

  lemma HeadIn<T>(s: seq<T>)
    ensures |s| > 0 ==> s[0] in s
  {
  }

  /** The first element of a sorted sequence may precede every element. */
  lemma SortedFirst<T>(s: seq<T>, le: (T, T) -> bool)
    requires SortedBy(s, le) && |s| > 0 && forall x :: x in s ==> le(x, x)
    ensures forall x :: x in s ==> le(s[0], x)
  {
  }

  lemma SortByMembers<T>(s: seq<T>, le: (T, T) -> bool)
    ensures forall x :: x in SortBy(s, le) <==> x in s
  {
    var r := SortBy(s, le);
    forall x ensures x in r <==> x in s {
      assert x in r <==> x in multiset(r);
      assert x in s <==> x in multiset(s);
    }
  }


  // ---------------------------------------------------------------------------
  // The default `sort()` of an array of strings

  lemma StrLessEqTotalPreorder()
    ensures TotalPreorder((a: string, b: string) => StrLessEq(a, b))
  {
    forall a: string, b: string ensures StrLessEq(a, b) || StrLessEq(b, a) {
      if a != b { StrLessTotal(a, b); }
    }
    forall a: string, b: string, c: string | StrLessEq(a, b) && StrLessEq(b, c)
      ensures StrLessEq(a, c)
    {
      if a != b && b != c { StrLessTransitive(a, b, c); }
    }
  }

  predicate StrictlySorted(s: seq<string>) {
    forall i, j :: 0 <= i < j < |s| ==> StrLess(s[i], s[j])
  }

  /** `Array.from(set).sort()`: the members of a duplicate-free sequence in
      strictly increasing order. */
  function SortStrings(s: seq<string>): (r: seq<string>)
    requires Distinct(s)
    ensures StrictlySorted(r)
    ensures forall x :: x in r <==> x in s
    ensures |r| == |s|
  {
    var r := SortBy(s, (a: string, b: string) => StrLessEq(a, b));
    StrLessEqTotalPreorder();
    SortBySorted(s, (a: string, b: string) => StrLessEq(a, b));
    PermutationDistinct(s, r);
    SortByMembers(s, (a: string, b: string) => StrLessEq(a, b));
    r
  }
}
