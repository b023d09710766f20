/** Sequence operations behind the queries: `Array.prototype.filter`, Prisma's
    `where` (a filter) and `orderBy: { createdAt: "desc" }` (a sort by a key). */
module Seqs {

  /** `s.filter(p)`: the elements of `s` that satisfy `p`, in their original order. */
  function FilterBy<T(!new)>(s: seq<T>, p: T -> bool): (r: seq<T>)
    ensures forall x :: x in r <==> x in s && p(x)
    ensures |r| <= |s|
    ensures multiset(r) <= multiset(s)
  {
    if s == [] then []
    else
      var rest := FilterBy(s[1..], p);
      assert s == [s[0]] + s[1..];
      assert multiset(s) == multiset{s[0]} + multiset(s[1..]);
      if p(s[0]) then
        assert multiset([s[0]] + rest) == multiset{s[0]} + multiset(rest);
        [s[0]] + rest
      else rest
  }

  /** `s.filter(p)` keeps every copy of a satisfying element and no copy of any other. */
  lemma {:induction false} FilterCount<T(!new)>(s: seq<T>, p: T -> bool, x: T)
    ensures multiset(FilterBy(s, p))[x] == if p(x) then multiset(s)[x] else 0
  {
    if s != [] {
      FilterCount(s[1..], p, x);
      assert s == [s[0]] + s[1..];
      assert multiset(s) == multiset{s[0]} + multiset(s[1..]);
      if p(s[0]) {
        var rest := FilterBy(s[1..], p);
        assert multiset([s[0]] + rest) == multiset{s[0]} + multiset(rest);
      }
    }
  }

  /** `a` can be obtained from `b` by deleting elements: an order-preserving subsequence. */
  predicate IsSubsequence<T(==)>(a: seq<T>, b: seq<T>)
    decreases |b|
  {
    if a == [] then true
    else if b == [] then false
    else (a[0] == b[0] && IsSubsequence(a[1..], b[1..])) || IsSubsequence(a, b[1..])
  }

  /** `s.filter(p)` is an order-preserving subsequence of `s`. */
  lemma {:induction false} FilterIsSubsequence<T(!new)>(s: seq<T>, p: T -> bool)
    ensures IsSubsequence(FilterBy(s, p), s)
  {
    if s != [] {
      FilterIsSubsequence(s[1..], p);
    }
  }

  /** A filter whose predicate holds of every element keeps the whole sequence. */
  lemma {:induction false} FilterAll<T(!new)>(s: seq<T>, p: T -> bool)
    requires forall x :: x in s ==> p(x)
    ensures FilterBy(s, p) == s
  {
    if s != [] {
      FilterAll(s[1..], p);
    }
  }

  /** A filter whose predicate holds of no element keeps nothing. */
  lemma FilterNone<T(!new)>(s: seq<T>, p: T -> bool)
    ensures FilterBy(s, p) == [] <==> forall x :: x in s ==> !p(x)
  {
    if FilterBy(s, p) != [] {
      assert FilterBy(s, p)[0] in FilterBy(s, p);
    }
  }

  /** Two filters whose predicates are exclusive keep at most all elements between them,
      and exactly all of them when every element satisfies one of the two. */
  lemma {:induction false} FilterSplit<T(!new)>(s: seq<T>, p: T -> bool, q: T -> bool)
    requires forall x :: x in s ==> !(p(x) && q(x))
    ensures |FilterBy(s, p)| + |FilterBy(s, q)| <= |s|
    ensures (forall x :: x in s ==> p(x) || q(x)) ==> |FilterBy(s, p)| + |FilterBy(s, q)| == |s|
  {
    if s != [] {
      assert forall x :: x in s[1..] ==> x in s;
      FilterSplit(s[1..], p, q);
    }
  }

  /** Filters whose predicates agree on every element keep the same elements. */
  lemma {:induction false} FilterByAgree<T(!new)>(s: seq<T>, p: T -> bool, q: T -> bool)
    requires forall x :: x in s ==> p(x) == q(x)
    ensures FilterBy(s, p) == FilterBy(s, q)
  {
    if s != [] {
      assert forall x :: x in s[1..] ==> x in s;
      FilterByAgree(s[1..], p, q);
    }
  }

  /** The order Prisma's `orderBy: { <key>: "desc" }` guarantees. */
  predicate SortedDesc<T>(s: seq<T>, key: T -> int)
  {
    forall i, j :: 0 <= i < j < |s| ==> key(s[i]) >= key(s[j])
  }

  /** A head whose key bounds every key of a sorted tail gives a sorted sequence. */
  lemma ConsSorted<T>(h: T, rest: seq<T>, key: T -> int)
    requires SortedDesc(rest, key)
    requires forall y :: y in rest ==> key(h) >= key(y)
    ensures SortedDesc([h] + rest, key)
  {
    var r := [h] + rest;
    forall i, j | 0 <= i < j < |r| ensures key(r[i]) >= key(r[j]) {
      assert r[j] == rest[j - 1];
      if i > 0 {
        assert r[i] == rest[i - 1];
      }
    }
  }

  /** The head of a sorted sequence has the greatest key. */
  lemma HeadBounds<T>(s: seq<T>, key: T -> int)
    requires SortedDesc(s, key) && s != []
    ensures forall y :: y in s ==> key(s[0]) >= key(y)
  {
    forall y | y in s ensures key(s[0]) >= key(y) {
      var k :| 0 <= k < |s| && s[k] == y;
    }
  }

  /** Dropping the head of a sorted sequence leaves it sorted. */
  lemma TailSorted<T>(s: seq<T>, key: T -> int)
    requires SortedDesc(s, key) && s != []
    ensures SortedDesc(s[1..], key)
  {
    forall i, j | 0 <= i < j < |s[1..]| ensures key(s[1..][i]) >= key(s[1..][j]) {
      assert s[1..][i] == s[i + 1] && s[1..][j] == s[j + 1];
    }
  }

  /** The recursive step of the insertion: the head goes back in front of the
      tail into which `x` was inserted. */
  lemma InsertBehindHead<T>(x: T, s: seq<T>, rest: seq<T>, key: T -> int)
    requires SortedDesc(s, key) && s != [] && key(x) < key(s[0])
    requires SortedDesc(rest, key) && multiset(rest) == multiset(s[1..]) + multiset{x}
    ensures SortedDesc([s[0]] + rest, key)
    ensures multiset([s[0]] + rest) == multiset(s) + multiset{x}
  {
    HeadBounds(s, key);
    forall y | y in rest ensures key(s[0]) >= key(y) {
      assert y in multiset(rest);
      assert y == x || y in multiset(s[1..]);
    }
    ConsSorted(s[0], rest, key);
    assert s == [s[0]] + s[1..];
    assert multiset(s) == multiset{s[0]} + multiset(s[1..]);
  }

  /** Inserting `x` before the first element whose key is not greater keeps the
      order and adds exactly `x`. */
  function InsertDesc<T(!new)>(x: T, s: seq<T>, key: T -> int): (r: seq<T>)
    requires SortedDesc(s, key)
    ensures SortedDesc(r, key)
    ensures multiset(r) == multiset(s) + multiset{x}
  {
    if s == [] then [x]
    else if key(x) >= key(s[0]) then
      HeadBounds(s, key);
      ConsSorted(x, s, key);
      [x] + s
    else
      TailSorted(s, key);
      var rest := InsertDesc(x, s[1..], key);
      InsertBehindHead(x, s, rest, key);
      [s[0]] + rest
  }

  /** A stable insertion sort by descending key: sorted, and a permutation of its input. */
  function SortDesc<T(!new)>(s: seq<T>, key: T -> int): (r: seq<T>)
    ensures SortedDesc(r, key)
    ensures multiset(r) == multiset(s)
    ensures |r| == |s|
  {
    if s == [] then []
    else
      assert s == [s[0]] + s[1..];
      InsertDesc(s[0], SortDesc(s[1..], key), key)
  }

  /** In a sequence sorted by descending key, an element whose key beats every
      other element's comes first. */
  lemma SortedFirst<T>(r: seq<T>, key: T -> int, c: T)
    requires SortedDesc(r, key) && c in r
    requires forall d :: d in r && d != c ==> key(d) < key(c)
    ensures |r| > 0 && r[0] == c
  {
    var k :| 0 <= k < |r| && r[k] == c;
    if k > 0 {
      assert key(r[0]) >= key(r[k]);
    }
  }

  /** A sequence holding `v` whose multiset fits in `{v}` is `[v]`. */
  lemma SingleMember<T>(r: seq<T>, v: T)
    requires v in r && multiset(r) <= multiset([v])
    ensures r == [v]
  {
    assert r[0] in multiset(r);
    assert r == [r[0]] + r[1..];
    assert multiset(r) == multiset{v} + multiset(r[1..]);
    assert multiset(r[1..]) == multiset{};
  }

  /** Sequences that are permutations of each other have the same members. */
  lemma SameMembers<T>(a: seq<T>, b: seq<T>)
    requires multiset(a) == multiset(b)
    ensures forall x :: x in a <==> x in b
  {
    forall x ensures x in a <==> x in b {
      assert x in a <==> x in multiset(a);
      assert x in b <==> x in multiset(b);
    }
  }
}
