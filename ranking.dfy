/**
 * `Array.prototype.sort((a, b) => key(b) - key(a))`: a stable sort by a
 * numeric key, largest first. The source sorts destination results and
 * countries this way; ties keep their incoming order because the built-in
 * sort is stable.
 */
module Ranking {

  /** Non-increasing by `key`. */
  predicate SortedDesc<T>(s: seq<T>, key: T -> int) {
    forall i, j :: 0 <= i < j < |s| ==> key(s[i]) >= key(s[j])
  }

  /** The elements whose key is `p`, in order. */
  function TiesOf<T>(s: seq<T>, key: T -> int, p: int): seq<T> {
    if s == [] then [] else (if key(s[0]) == p then [s[0]] else []) + TiesOf(s[1..], key, p)
  }

  /** Sum of the keys. */
  function SumBy<T>(s: seq<T>, key: T -> int): int {
    if s == [] then 0 else key(s[0]) + SumBy(s[1..], key)
  }

  /** Places `x` before the first element whose key is not larger. */
  function Insert<T(==)>(x: T, s: seq<T>, key: T -> int): (r: seq<T>)
    ensures |r| == |s| + 1
    ensures multiset(r) == multiset(s) + multiset{x}
  {
    if s == [] || key(x) >= key(s[0]) then [x] + s
    else
      assert s == [s[0]] + s[1..];
      [s[0]] + Insert(x, s[1..], key)
  }

  /** Every element of `Insert(x, s)` is `x` or an element of `s`. */
  lemma InsertElems<T>(x: T, s: seq<T>, key: T -> int, y: T)
    requires y in Insert(x, s, key)
    ensures y == x || y in s
  {
    assert y in multiset(Insert(x, s, key));
  }

  /** A sorted sequence stays sorted under a head that is at least every key after it. */
  lemma SortedCons<T>(h: T, t: seq<T>, key: T -> int)
    requires SortedDesc(t, key)
    requires forall y | y in t :: key(y) <= key(h)
    ensures SortedDesc([h] + t, key)
  {
    var r := [h] + t;
    forall i, j | 0 <= i < j < |r| ensures key(r[i]) >= key(r[j]) {
      assert r[j] == t[j - 1];
      if i > 0 {
        assert r[i] == t[i - 1];
      }
    }
  }

  lemma {:induction false} InsertSorted<T>(x: T, s: seq<T>, key: T -> int)
    requires SortedDesc(s, key)
    ensures SortedDesc(Insert(x, s, key), key)
  {
    if s == [] || key(x) >= key(s[0]) {
      forall y | y in s ensures key(y) <= key(x) {
        var j :| 0 <= j < |s| && s[j] == y;
        assert key(s[0]) >= key(s[j]);
      }
      SortedCons(x, s, key);
    } else {
      var rest := Insert(x, s[1..], key);
      assert SortedDesc(s[1..], key);
      InsertSorted(x, s[1..], key);
      forall y | y in rest ensures key(y) <= key(s[0]) {
        InsertElems(x, s[1..], key, y);
        if y != x {
          var j :| 0 <= j < |s[1..]| && s[1..][j] == y;
          assert s[j + 1] == y;
        }
      }
      SortedCons(s[0], rest, key);
    }
  }

  /** Stable sort, largest key first. */
  function SortDesc<T(==)>(s: seq<T>, key: T -> int): (r: seq<T>)
    ensures |r| == |s|
    ensures multiset(r) == multiset(s)
    ensures SortedDesc(r, key)
  {
    if s == [] then []
    else
      assert s == [s[0]] + s[1..];
      InsertSorted(s[0], SortDesc(s[1..], key), key);
      Insert(s[0], SortDesc(s[1..], key), key)
  }

  /** Inserting `x` adds it to its own ties, in front of the ties already there. */
  lemma {:induction false} InsertTies<T>(x: T, s: seq<T>, key: T -> int, p: int)
    ensures TiesOf(Insert(x, s, key), key, p) == (if key(x) == p then [x] else []) + TiesOf(s, key, p)
  {
    if s == [] || key(x) >= key(s[0]) {
      assert ([x] + s)[1..] == s;
    } else {
      var rest := Insert(x, s[1..], key);
      InsertTies(x, s[1..], key, p);
      assert ([s[0]] + rest)[1..] == rest;
      var hx := if key(x) == p then [x] else [];
      var hs := if key(s[0]) == p then [s[0]] else [];
      assert TiesOf(Insert(x, s, key), key, p) == hs + (hx + TiesOf(s[1..], key, p));
      assert hx == [] || hs == [];
      assert hs + (hx + TiesOf(s[1..], key, p)) == hx + (hs + TiesOf(s[1..], key, p));
    }
  }

  /** Stability: among equal keys the incoming order is kept. */
  lemma {:induction false} SortDescStable<T>(s: seq<T>, key: T -> int, p: int)
    ensures TiesOf(SortDesc(s, key), key, p) == TiesOf(s, key, p)
  {
    if s != [] {
      SortDescStable(s[1..], key, p);
      InsertTies(s[0], SortDesc(s[1..], key), key, p);
    }
  }

  lemma {:induction false} InsertSum<T>(x: T, s: seq<T>, key: T -> int)
    ensures SumBy(Insert(x, s, key), key) == key(x) + SumBy(s, key)
  {
    if s == [] || key(x) >= key(s[0]) {
      assert ([x] + s)[1..] == s;
    } else {
      InsertSum(x, s[1..], key);
      assert ([s[0]] + Insert(x, s[1..], key))[1..] == Insert(x, s[1..], key);
    }
  }

  /** Sorting neither creates nor loses points. */
  lemma {:induction false} SortDescSum<T>(s: seq<T>, key: T -> int)
    ensures SumBy(SortDesc(s, key), key) == SumBy(s, key)
  {
    if s != [] {
      SortDescSum(s[1..], key);
      InsertSum(s[0], SortDesc(s[1..], key), key);
    }
  }

  lemma {:induction false} SumByAppend<T>(a: seq<T>, b: seq<T>, key: T -> int)
    ensures SumBy(a + b, key) == SumBy(a, key) + SumBy(b, key)
  {
    if a == [] {
      assert a + b == b;
    } else {
      assert (a + b)[1..] == a[1..] + b;
      SumByAppend(a[1..], b, key);
    }
  }

  /** Replacing one element changes the sum by the difference of the two keys. */
  lemma {:induction false} SumByUpdate<T>(s: seq<T>, j: nat, x: T, key: T -> int)
    requires j < |s|
    ensures SumBy(s[j := x], key) == SumBy(s, key) - key(s[j]) + key(x)
  {
    if j > 0 {
      assert s[j := x][1..] == s[1..][j - 1 := x];
      SumByUpdate(s[1..], j - 1, x, key);
    } else {
      assert s[j := x][1..] == s[1..];
    }
  }

  /** No two elements share an `f` value. */
  predicate DistinctBy<T, U(==)>(s: seq<T>, f: T -> U) {
    forall i, j :: 0 <= i < j < |s| ==> f(s[i]) != f(s[j])
  }

  lemma {:induction false} InsertDistinctBy<T, U>(x: T, s: seq<T>, key: T -> int, f: T -> U)
    requires DistinctBy(s, f)
    requires forall y | y in s :: f(y) != f(x)
    ensures DistinctBy(Insert(x, s, key), f)
  {
    if s == [] || key(x) >= key(s[0]) {
      var r := [x] + s;
      forall i, j | 0 <= i < j < |r| ensures f(r[i]) != f(r[j]) {
        assert r[j] == s[j - 1];
        if i > 0 {
          assert r[i] == s[i - 1];
        }
      }
    } else {
      var rest := Insert(x, s[1..], key);
      InsertDistinctBy(x, s[1..], key, f);
      forall y | y in rest ensures f(y) != f(s[0]) {
        InsertElems(x, s[1..], key, y);
        if y != x {
          var j :| 0 <= j < |s[1..]| && s[1..][j] == y;
          assert s[j + 1] == y;
        }
      }
      var r := [s[0]] + rest;
      forall i, j | 0 <= i < j < |r| ensures f(r[i]) != f(r[j]) {
        if i > 0 {
          assert r[i] == rest[i - 1] && r[j] == rest[j - 1];
        } else {
          assert r[j] in rest;
        }
      }
    }
  }

  /** Sorting keeps elements with distinct `f` values distinct. */
  lemma {:induction false} SortDescDistinctBy<T, U>(s: seq<T>, key: T -> int, f: T -> U)
    requires DistinctBy(s, f)
    ensures DistinctBy(SortDesc(s, key), f)
  {
    if s != [] {
      var rest := SortDesc(s[1..], key);
      SortDescDistinctBy(s[1..], key, f);
      forall y | y in rest ensures f(y) != f(s[0]) {
        assert y in multiset(rest);
        var j :| 0 <= j < |s[1..]| && s[1..][j] == y;
        assert s[j + 1] == y;
      }
      InsertDistinctBy(s[0], rest, key, f);
    }
  }
}
