/** Sequence helpers shared by the pages: the "max id + 1" rule, removal by
    index, and order-preserving de-duplication. */
module Lists {

  datatype Option<T> = None | Some(value: T)

  /** The largest element of a non-empty sequence. */
  function Max(s: seq<int>): (m: int)
    requires s != []
    ensures m in s && forall k :: 0 <= k < |s| ==> s[k] <= m
  {
    if |s| == 1 then s[0]
    else
      var rest := Max(s[1..]);
      assert forall k :: 1 <= k < |s| ==> s[k] == s[1..][k - 1];
      if s[0] >= rest then s[0] else rest
  }

  /** `ids.length > 0 ? Math.max(...ids) + 1 : 1`: the id given to a new record. */
  function NextId(ids: seq<int>): (r: int)
    ensures forall k :: 0 <= k < |ids| ==> ids[k] < r
    ensures ids == [] ==> r == 1
  {
    if ids == [] then 1 else Max(ids) + 1
  }

  /** `s.filter((_, idx) => idx !== i)`: drop position i; any other i leaves s as is. */
  function RemoveAt<T>(s: seq<T>, i: int): (r: seq<T>)
    ensures 0 <= i < |s| ==>
      |r| == |s| - 1 &&
      (forall k :: 0 <= k < i ==> r[k] == s[k]) &&
      (forall k :: i <= k < |r| ==> r[k] == s[k + 1])
    ensures !(0 <= i < |s|) ==> r == s
  {
    if 0 <= i < |s| then s[..i] + s[i + 1..] else s
  }

  /** Removing an index keeps every other element, once, in order. */
  lemma RemoveAtMultiset<T>(s: seq<T>, i: int)
    requires 0 <= i < |s|
    ensures multiset(RemoveAt(s, i)) + multiset{s[i]} == multiset(s)
  {
    assert s == s[..i] + [s[i]] + s[i + 1..];
  }

  /** The distinct elements of s, in order of first occurrence. Defined on the
      last element so that it follows a left-to-right loop. */
  function Distinct<T(==)>(s: seq<T>): (r: seq<T>)
    ensures forall k :: 0 <= k < |s| ==> s[k] in r
    ensures forall k :: 0 <= k < |r| ==> r[k] in s
    ensures forall a, b :: 0 <= a < b < |r| ==> r[a] != r[b]
  {
    if s == [] then []
    else
      var d := Distinct(s[..|s| - 1]);
      assert forall k :: 0 <= k < |s| - 1 ==> s[k] == s[..|s| - 1][k];
      if s[|s| - 1] in d then d else d + [s[|s| - 1]]
  }

  /** Elements appear in Distinct(s) in the order of their first occurrence in s. */
  lemma {:induction false} DistinctFirstOccurrenceOrder<T>(s: seq<T>, a: nat, b: nat)
    requires a < b < |Distinct(s)|
    ensures FirstIndex(s, Distinct(s)[a]) < FirstIndex(s, Distinct(s)[b])
  {
    var d := Distinct(s[..|s| - 1]);
    var last := s[|s| - 1];
    FirstIndexOfPrefix(s, Distinct(s)[a]);
    if b < |d| {
      assert Distinct(s)[a] == d[a] && Distinct(s)[b] == d[b];
      DistinctFirstOccurrenceOrder(s[..|s| - 1], a, b);
      FirstIndexOfPrefix(s, Distinct(s)[b]);
    } else {
      assert Distinct(s)[b] == last && last !in d;
      assert last !in s[..|s| - 1];
      FirstIndexIs(s, last, |s| - 1);
    }
  }

  /** Index of the first occurrence of x in s (x must occur). */
  function FirstIndex<T(==)>(s: seq<T>, x: T): (k: nat)
    requires x in s
    ensures k < |s| && s[k] == x && x !in s[..k]
  {
    if s[0] == x then 0
    else
      var k := FirstIndex(s[1..], x);
      assert s[..k + 1] == [s[0]] + s[1..][..k];
      k + 1
  }

  lemma FirstIndexIs<T>(s: seq<T>, x: T, k: nat)
    requires k < |s| && s[k] == x && x !in s[..k]
    ensures FirstIndex(s, x) == k
  {
    var j := FirstIndex(s, x);
  }

  lemma FirstIndexOfPrefix<T>(s: seq<T>, x: T)
    requires s != [] && x in s[..|s| - 1]
    ensures FirstIndex(s, x) == FirstIndex(s[..|s| - 1], x)
  {
    var p := s[..|s| - 1];
    var k := FirstIndex(p, x);
    assert s[..k] == p[..k];
    FirstIndexIs(s, x, k);
  }

  /** A non-empty list is its first elements followed by its last one. */
  lemma InitLast<T>(s: seq<T>)
    requires s != []
    ensures s[..|s| - 1] + [s[|s| - 1]] == s
  {
  }

  /** `s.filter(p)`: the elements satisfying p, in order. */
  function Filter<T(!new)>(s: seq<T>, p: T -> bool): (r: seq<T>)
    ensures |r| <= |s|
    ensures forall x :: x in r <==> x in s && p(x)
  {
    if s == [] then []
    else
      var init := Filter(s[..|s| - 1], p);
      assert s == s[..|s| - 1] + [s[|s| - 1]];
      if p(s[|s| - 1]) then init + [s[|s| - 1]] else init
  }

  /** The filter read from the front: the first element if it passes, then the
      filter of the rest. */
  lemma {:induction false} FilterFront<T(!new)>(s: seq<T>, p: T -> bool)
    requires s != []
    ensures Filter(s, p) == (if p(s[0]) then [s[0]] else []) + Filter(s[1..], p)
  {
    if |s| > 1 {
      var init := s[..|s| - 1];
      FilterFront(init, p);
      assert init[1..] == s[1..][..|s[1..]| - 1];
      assert init[0] == s[0];
    } else {
      assert s[1..] == [];
      assert s[..0] == [];
    }
  }

  /** A filter that keeps everything returns the list itself. */
  lemma {:induction false} FilterKeepsAll<T(!new)>(s: seq<T>, p: T -> bool)
    requires forall x :: x in s ==> p(x)
    ensures Filter(s, p) == s
  {
    if s != [] {
      var init := s[..|s| - 1];
      assert forall x :: x in init ==> x in s;
      FilterKeepsAll(init, p);
      assert s == init + [s[|s| - 1]];
    }
  }

  /** Two filters with complementary tests split the list between them: each
      element is kept by exactly one of them. */
  lemma {:induction false} FilterSplit<T(!new)>(s: seq<T>, p: T -> bool, q: T -> bool)
    requires forall x :: x in s ==> q(x) == !p(x)
    ensures multiset(Filter(s, p)) + multiset(Filter(s, q)) == multiset(s)
  {
    if s != [] {
      var init := s[..|s| - 1];
      assert forall x :: x in init ==> x in s;
      FilterSplit(init, p, q);
      assert s == init + [s[|s| - 1]];
    }
  }

  /** When at least two elements pass, one passes at a position other
      than any given one. */
  lemma {:induction false} FilterHasOther<T(!new)>(s: seq<T>, p: T -> bool, i: int)
    requires 0 <= i < |s| && |Filter(s, p)| >= 2
    ensures exists k :: 0 <= k < |s| && k != i && p(s[k])
  {
    var init := s[..|s| - 1];
    var n := |s| - 1;
    var f := Filter(init, p);
    if p(s[n]) && i != n {
      assert p(s[n]);
    } else if i == n {
      assert f[0] in f;
      var k :| 0 <= k < |init| && init[k] == f[0];
      assert s[k] == init[k];
    } else {
      FilterHasOther(init, p, i);
      var k :| 0 <= k < |init| && k != i && p(init[k]);
      assert s[k] == init[k];
    }
  }

  /** Two tests that agree on the elements keep the same elements. */
  lemma {:induction false} FilterSameTest<T(!new)>(s: seq<T>, p: T -> bool, q: T -> bool)
    requires forall x :: x in s ==> p(x) == q(x)
    ensures Filter(s, p) == Filter(s, q)
  {
    if s != [] {
      var init := s[..|s| - 1];
      assert forall x :: x in init ==> x in s;
      FilterSameTest(init, p, q);
    }
  }

  /** Filtering twice is filtering once by both tests. */
  lemma {:induction false} FilterFilter<T(!new)>(s: seq<T>, p: T -> bool, q: T -> bool, both: T -> bool)
    requires forall x :: both(x) == (p(x) && q(x))
    ensures Filter(Filter(s, p), q) == Filter(s, both)
  {
    if s != [] {
      var init := s[..|s| - 1];
      var last := s[|s| - 1];
      FilterFilter(init, p, q, both);
      if p(last) {
        var f := Filter(init, p);
        assert (f + [last])[..|f|] == f;
      }
    }
  }

  /** A stricter test keeps a sub-multiset. */
  lemma {:induction false} FilterStricter<T(!new)>(s: seq<T>, p: T -> bool, q: T -> bool)
    requires forall x :: x in s && p(x) ==> q(x)
    ensures multiset(Filter(s, p)) <= multiset(Filter(s, q))
  {
    if s != [] {
      var init := s[..|s| - 1];
      assert forall x :: x in init ==> x in s;
      FilterStricter(init, p, q);
    }
  }

  /** A test nothing passes keeps nothing. */
  lemma {:induction false} FilterNone<T(!new)>(s: seq<T>, p: T -> bool)
    requires forall x :: !p(x)
    ensures Filter(s, p) == []
  {
    if s != [] {
      FilterNone(s[..|s| - 1], p);
    }
  }

  /** Two tests that never both hold keep, together, as many elements as
      their disjunction. */
  lemma {:induction false} FilterEitherCount<T(!new)>(s: seq<T>, p: T -> bool, q: T -> bool, either: T -> bool)
    requires forall x :: either(x) == (p(x) || q(x))
    requires forall x :: !(p(x) && q(x))
    ensures |Filter(s, either)| == |Filter(s, p)| + |Filter(s, q)|
  {
    if s != [] {
      FilterEitherCount(s[..|s| - 1], p, q, either);
    }
  }

  /** `s.reduce((sum, x) => sum + f(x), 0)`. */
  function SumBy<T>(s: seq<T>, f: T -> int): int {
    if s == [] then 0 else SumBy(s[..|s| - 1], f) + f(s[|s| - 1])
  }

  /** The sum splits at any position. */
  lemma {:induction false} SumByAppend<T>(a: seq<T>, b: seq<T>, f: T -> int)
    ensures SumBy(a + b, f) == SumBy(a, f) + SumBy(b, f)
  {
    if b != [] {
      SumByAppend(a, b[..|b| - 1], f);
      assert (a + b)[..|a + b| - 1] == a + b[..|b| - 1];
    } else {
      assert a + b == a;
    }
  }

  /** Appending one element adds its term. */
  lemma SumBySnoc<T>(s: seq<T>, x: T, f: T -> int)
    ensures SumBy(s + [x], f) == SumBy(s, f) + f(x)
  {
    assert (s + [x])[..|s|] == s;
  }

  /** Removing the element at i takes exactly its term off the sum. */
  lemma SumByRemoveAt<T>(s: seq<T>, i: int, f: T -> int)
    requires 0 <= i < |s|
    ensures SumBy(RemoveAt(s, i), f) == SumBy(s, f) - f(s[i])
  {
    SumByAppend(s[..i], s[i + 1..], f);
    SumByAppend(s[..i], [s[i]], f);
    SumByAppend(s[..i] + [s[i]], s[i + 1..], f);
    assert s == s[..i] + [s[i]] + s[i + 1..];
  }
}
