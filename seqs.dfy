/**
 * Sequence helpers shared by the tallies: the "push unless already included"
 * idiom of the source (`if (!xs.includes(x)) xs.push(x)`), first-occurrence
 * de-duplication built from it, and integer sums.
 */
module Seqs {

  /** No element occurs twice. */
  predicate NoDup<T(==)>(s: seq<T>) {
    forall i, j :: 0 <= i < j < |s| ==> s[i] != s[j]
  }

  /** `if (!s.includes(x)) s.push(x)`, on values. */
  function AppendNew<T(==,!new)>(s: seq<T>, x: T): (r: seq<T>)
    ensures x in r && (forall y :: y in r <==> y in s || y == x)
    ensures NoDup(s) ==> NoDup(r)
    ensures r == s || r == s + [x]
  {
    if x in s then s else s + [x]
  }

  /** The elements of `s` in order of first occurrence, each once. */
  function Distinct<T(==,!new)>(s: seq<T>): (r: seq<T>)
    ensures NoDup(r)
    ensures forall x :: x in r <==> x in s
    ensures |r| <= |s|
  {
    if s == [] then [] else AppendNew(Distinct(s[..|s| - 1]), s[|s| - 1])
  }

  lemma DistinctSnoc<T(!new)>(s: seq<T>, x: T)
    ensures Distinct(s + [x]) == AppendNew(Distinct(s), x)
  {
    assert (s + [x])[..|s|] == s;
  }

  /** A sequence without repetitions is its own de-duplication. */
  lemma {:induction false} DistinctOfNoDup<T(!new)>(s: seq<T>)
    requires NoDup(s)
    ensures Distinct(s) == s
  {
    if s != [] {
      var p := s[..|s| - 1];
      assert NoDup(p);
      DistinctOfNoDup(p);
      assert s[|s| - 1] !in p;
      assert p + [s[|s| - 1]] == s;
    }
  }

  /** `b.forEach(x => { if (!a.includes(x)) a.push(x) })`, on values. */
  function UnionInto<T(==,!new)>(a: seq<T>, b: seq<T>): (r: seq<T>)
    ensures forall x :: x in r <==> x in a || x in b
    ensures NoDup(a) ==> NoDup(r)
    ensures |r| >= |a| && r[..|a|] == a
  {
    if b == [] then a else AppendNew(UnionInto(a, b[..|b| - 1]), b[|b| - 1])
  }

  /** The concatenation of `f` over `s`, in order. */
  function FlatMap<T, U>(s: seq<T>, f: T -> seq<U>): seq<U> {
    if s == [] then [] else FlatMap(s[..|s| - 1], f) + f(s[|s| - 1])
  }

  lemma {:induction false} FlatMapAppend<T, U>(a: seq<T>, b: seq<T>, f: T -> seq<U>)
    ensures FlatMap(a + b, f) == FlatMap(a, f) + FlatMap(b, f)
  {
    if b == [] {
      assert a + b == a;
    } else {
      assert (a + b)[..|a + b| - 1] == a + b[..|b| - 1];
      FlatMapAppend(a, b[..|b| - 1], f);
    }
  }

  /** Sequences whose elements map to the same pieces flatten to the same result. */
  lemma {:induction false} FlatMapPointwise<T, U>(a: seq<T>, b: seq<T>, f: T -> seq<U>)
    requires |a| == |b|
    requires forall i :: 0 <= i < |a| ==> f(a[i]) == f(b[i])
    ensures FlatMap(a, f) == FlatMap(b, f)
  {
    if a != [] {
      FlatMapPointwise(a[..|a| - 1], b[..|b| - 1], f);
    }
  }

  /** Sum of a sequence of integers. */
  function Sum(s: seq<int>): int {
    if s == [] then 0 else Sum(s[..|s| - 1]) + s[|s| - 1]
  }

  lemma {:induction false} SumAppend(a: seq<int>, b: seq<int>)
    ensures Sum(a + b) == Sum(a) + Sum(b)
  {
    if b == [] {
      assert a + b == a;
    } else {
      assert (a + b)[..|a + b| - 1] == a + b[..|b| - 1];
      SumAppend(a, b[..|b| - 1]);
    }
  }
}
