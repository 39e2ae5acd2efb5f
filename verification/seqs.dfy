/** Generic sequence helpers: `Array.prototype.filter` and `Array.prototype.map`
    over immutable sequences, with the facts the rest of the model relies on. */
module Seqs {

  /** The elements of `s` that satisfy `p`, in their original order. */
  function Filter<T(!new)>(p: T -> bool, s: seq<T>): (r: seq<T>)
    ensures |r| <= |s|
    ensures forall x :: x in r <==> x in s && p(x)
  {
    if s == [] then []
    else
      assert s == [s[0]] + s[1..];
      (if p(s[0]) then [s[0]] else []) + Filter(p, s[1..])
  }

  /** The positions of `s` whose element passes `p`. */
  ghost function Positions<T>(p: T -> bool, s: seq<T>): set<int> {
    set i | 0 <= i < |s| && p(s[i])
  }

  /** Appending one element adds its position exactly when it passes. */
  lemma PositionsSnoc<T>(p: T -> bool, s: seq<T>, x: T)
    ensures Positions(p, s + [x]) == Positions(p, s) + (if p(x) then {|s|} else {})
  {
    var l, r := Positions(p, s + [x]), Positions(p, s) + (if p(x) then {|s|} else {});
    forall i
      ensures i in l <==> i in r
    {
      if 0 <= i < |s| {
        assert (s + [x])[i] == s[i];
      }
    }
  }

  /** The number of survivors of a filter is the number of positions whose
      element passes. */
  lemma {:induction false} FilterLengthCountsPositions<T(!new)>(p: T -> bool, s: seq<T>)
    ensures |Filter(p, s)| == |Positions(p, s)|
    decreases |s|
  {
    if s != [] {
      var n := |s| - 1;
      var init, x := s[..n], s[n];
      assert s == init + [x];
      FilterConcat(p, init, [x]);
      FilterSingleton(p, x);
      FilterLengthCountsPositions(p, init);
      PositionsSnoc(p, init, x);
      assert n !in Positions(p, init);
    }
  }

  /** Filtering keeps every copy of a passing element and no copy of any other. */
  lemma {:induction false} FilterMultiset<T(!new)>(p: T -> bool, s: seq<T>)
    ensures forall x :: multiset(Filter(p, s))[x] == if p(x) then multiset(s)[x] else 0
    decreases |s|
  {
    if s != [] {
      FilterMultiset(p, s[1..]);
      assert s == [s[0]] + s[1..];
    }
  }

  /** Filtering two permutations of each other yields permutations of each other. */
  lemma FilterPreservesPermutation<T(!new)>(p: T -> bool, a: seq<T>, b: seq<T>)
    requires multiset(a) == multiset(b)
    ensures multiset(Filter(p, a)) == multiset(Filter(p, b))
  {
    FilterMultiset(p, a);
    FilterMultiset(p, b);
    forall x
      ensures multiset(Filter(p, a))[x] == multiset(Filter(p, b))[x]
    {
    }
  }

  /** Two filters applied one after the other keep the same elements in
      either order. */
  lemma FilterSwap<T(!new)>(p: T -> bool, q: T -> bool, s: seq<T>)
    ensures multiset(Filter(p, Filter(q, s))) == multiset(Filter(q, Filter(p, s)))
  {
    FilterMultiset(p, s);
    FilterMultiset(q, s);
    FilterMultiset(p, Filter(q, s));
    FilterMultiset(q, Filter(p, s));
    forall x
      ensures multiset(Filter(p, Filter(q, s)))[x] == multiset(Filter(q, Filter(p, s)))[x]
    {
    }
  }

  /** `f` applied to every element of `s`. */
  function Map<T, U>(f: T -> U, s: seq<T>): (r: seq<U>)
    ensures |r| == |s|
    ensures forall i :: 0 <= i < |s| ==> r[i] == f(s[i])
  {
    seq(|s|, i requires 0 <= i < |s| => f(s[i]))
  }

  /** No value occurs twice. */
  ghost predicate NoDup<T>(s: seq<T>) {
    forall i, j :: 0 <= i < j < |s| ==> s[i] != s[j]
  }

  /** The test "differs from `x`". */
  function Differs<T(==)>(x: T): T -> bool {
    y => y != x
  }

  /** Every occurrence of `x` removed. */
  function RemoveAll<T(==,!new)>(x: T, s: seq<T>): (r: seq<T>)
    ensures x !in r
    ensures forall y :: y in r <==> y in s && y != x
  {
    Filter(Differs(x), s)
  }

  /** Filtering distributes over concatenation: the survivors keep their order. */
  lemma {:induction false} FilterConcat<T(!new)>(p: T -> bool, a: seq<T>, b: seq<T>)
    ensures Filter(p, a + b) == Filter(p, a) + Filter(p, b)
    decreases |a|
  {
    if a == [] {
      assert a + b == b;
    } else {
      assert (a + b)[1..] == a[1..] + b;
      FilterConcat(p, a[1..], b);
    }
  }

  /** Filtering a single element keeps it exactly when it passes. */
  lemma FilterSingleton<T(!new)>(p: T -> bool, x: T)
    ensures Filter(p, [x]) == if p(x) then [x] else []
  {
    assert [x][1..] == [];
  }

  /** A filter that every element passes is the identity. */
  lemma {:induction false} FilterKeepsAll<T(!new)>(p: T -> bool, s: seq<T>)
    requires forall x :: x in s ==> p(x)
    ensures Filter(p, s) == s
    decreases |s|
  {
    if s != [] {
      FilterKeepsAll(p, s[1..]);
    }
  }

  /** When every element passes exactly one of two filters, the two results
      together are as long as the input. */
  lemma {:induction false} FilterComplementLength<T(!new)>(p: T -> bool, q: T -> bool, s: seq<T>)
    requires forall x :: x in s ==> p(x) != q(x)
    ensures |Filter(p, s)| + |Filter(q, s)| == |s|
    decreases |s|
  {
    if s != [] {
      FilterComplementLength(p, q, s[1..]);
    }
  }

  /** Mapping distributes over concatenation. */
  lemma MapConcat<T, U>(f: T -> U, a: seq<T>, b: seq<T>)
    ensures Map(f, a + b) == Map(f, a) + Map(f, b)
  {
    var l := Map(f, a + b);
    var r := Map(f, a) + Map(f, b);
    forall i | 0 <= i < |l|
      ensures l[i] == r[i]
    {
      if i >= |a| {
        assert (a + b)[i] == b[i - |a|];
      }
    }
  }

  /** Filtering after mapping is mapping after filtering when `f` never changes
      the outcome of `p`. */
  lemma {:induction false} FilterMapCommute<T(!new)>(p: T -> bool, f: T -> T, s: seq<T>)
    requires forall x :: p(f(x)) == p(x)
    ensures Filter(p, Map(f, s)) == Map(f, Filter(p, s))
    decreases |s|
  {
    if s != [] {
      var h, t := s[0], s[1..];
      assert s == [h] + t;
      MapConcat(f, [h], t);
      assert Map(f, [h]) == [f(h)];
      FilterConcat(p, [f(h)], Map(f, t));
      FilterConcat(p, [h], t);
      FilterMapCommute(p, f, t);
      var tail := Filter(p, t);
      if p(h) {
        assert Filter(p, [h]) == [h];
        assert Filter(p, [f(h)]) == [f(h)];
        MapConcat(f, [h], tail);
      } else {
        assert Filter(p, [h]) == [];
        assert Filter(p, [f(h)]) == [];
      }
    }
  }

  /** Taking out the element at index `k` takes one copy of it out of the multiset. */
  lemma MultisetRemoveAt<T>(s: seq<T>, k: nat)
    requires k < |s|
    ensures multiset(s[..k] + s[k + 1..]) + multiset{s[k]} == multiset(s)
    ensures multiset(s[..k] + s[k + 1..]) == multiset(s) - multiset{s[k]}
  {
    assert s == s[..k] + [s[k]] + s[k + 1..];
  }

  /** Mapping commutes with taking out the element at index `k`. */
  lemma MapRemoveAt<T, U>(f: T -> U, s: seq<T>, k: nat)
    requires k < |s|
    ensures multiset(Map(f, s)) == multiset(Map(f, s[..k] + s[k + 1..])) + multiset{f(s[k])}
  {
    var m := Map(f, s);
    var l := Map(f, s[..k] + s[k + 1..]);
    assert l == m[..k] + m[k + 1..] by {
      forall i | 0 <= i < |l|
        ensures l[i] == (m[..k] + m[k + 1..])[i]
      {
        if i >= k {
          assert (s[..k] + s[k + 1..])[i] == s[i + 1];
        }
      }
    }
    MultisetRemoveAt(m, k);
  }

  /** Matching the head of `a` with an equal element of its permutation `b`
      leaves two permutations of each other. */
  lemma PermutationRest<T>(a: seq<T>, b: seq<T>, k: nat)
    requires multiset(a) == multiset(b)
    requires a != [] && k < |b| && b[k] == a[0]
    ensures multiset(a[1..]) == multiset(b[..k] + b[k + 1..])
  {
    MultisetRemoveAt(b, k);
    assert a == [a[0]] + a[1..];
  }

  /** The inductive step of `MapPreservesPermutation`: matching the head of `a`
      with an equal element of `b` extends a permutation of the rests. */
  lemma MapPermutationStep<T, U>(f: T -> U, a: seq<T>, b: seq<T>, k: nat)
    requires a != [] && k < |b| && b[k] == a[0]
    requires multiset(Map(f, a[1..])) == multiset(Map(f, b[..k] + b[k + 1..]))
    ensures multiset(Map(f, a)) == multiset(Map(f, b))
  {
    var y := f(a[0]);
    assert multiset(Map(f, b)) == multiset(Map(f, b[..k] + b[k + 1..])) + multiset{y} by {
      MapRemoveAt(f, b, k);
    }
    assert multiset(Map(f, a)) == multiset(Map(f, a[1..])) + multiset{y} by {
      assert Map(f, a) == [y] + Map(f, a[1..]);
    }
  }

  /** Mapping two permutations of each other yields permutations of each other. */
  lemma {:induction false} MapPreservesPermutation<T, U>(f: T -> U, a: seq<T>, b: seq<T>)
    requires multiset(a) == multiset(b)
    ensures multiset(Map(f, a)) == multiset(Map(f, b))
    decreases |a|
  {
    if a == [] {
      assert |multiset(b)| == 0;
    } else {
      var x := a[0];
      assert x in multiset(b) by {
        assert x in multiset(a);
      }
      var k :| 0 <= k < |b| && b[k] == x;
      PermutationRest(a, b, k);
      MapPreservesPermutation(f, a[1..], b[..k] + b[k + 1..]);
      MapPermutationStep(f, a, b, k);
    }
  }

  /** Removing the first element of a duplicate-free sequence by value removes
      exactly that element. */
  lemma RemoveHeadOfNoDup<T(!new)>(s: seq<T>)
    requires s != [] && NoDup(s)
    ensures RemoveAll(s[0], s) == s[1..]
  {
    var x, t := s[0], s[1..];
    assert s == [x] + t;
    FilterConcat(Differs(x), [x], t);
    FilterSingleton(Differs(x), x);
    assert forall y :: y in t ==> Differs(x)(y) by {
      forall y | y in t
        ensures y != x
      {
        var j :| 0 <= j < |t| && t[j] == y;
        assert s[j + 1] == y;
      }
    }
    FilterKeepsAll(Differs(x), t);
  }
}
