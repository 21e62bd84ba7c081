/** Order-preserving filter and sums over sequences, the `filter` and
    `reduce` that the services apply to their collections. Both recurse on
    the last element, so `reduce` runs left to right as in the source. */
module Seqs {

  function Filter<T(==, !new)>(s: seq<T>, keep: T -> bool): (r: seq<T>)
    ensures |r| <= |s|
  {
    if s == [] then []
    else
      Filter(s[..|s| - 1], keep) + (if keep(s[|s| - 1]) then [s[|s| - 1]] else [])
  }

  /** The filter keeps exactly the elements the predicate accepts. */
  lemma {:induction false} FilterMembers<T(!new)>(s: seq<T>, keep: T -> bool)
    ensures forall x :: x in Filter(s, keep) <==> x in s && keep(x)
    decreases |s|
  {
    if s != [] {
      var init := s[..|s| - 1];
      assert s == init + [s[|s| - 1]];
      FilterMembers(init, keep);
    }
  }

  lemma {:induction false} FilterAppend<T(!new)>(a: seq<T>, b: seq<T>, keep: T -> bool)
    ensures Filter(a + b, keep) == Filter(a, keep) + Filter(b, keep)
    decreases |b|
  {
    if b == [] {
      assert a + b == a;
    } else {
      var init := b[..|b| - 1];
      var x := b[|b| - 1];
      var last := if keep(x) then [x] else [];
      assert Filter(a + b, keep) == Filter(a + init, keep) + last by {
        assert (a + b)[..|a + b| - 1] == a + init;
        assert (a + b)[|a + b| - 1] == x;
      }
      FilterAppend(a, init, keep);
      assert Filter(b, keep) == Filter(init, keep) + last;
      assert Filter(a, keep) + Filter(init, keep) + last == Filter(a, keep) + (Filter(init, keep) + last);
    }
  }

  lemma {:induction false} FilterKeepsAll<T(!new)>(s: seq<T>, keep: T -> bool)
    requires forall x :: x in s ==> keep(x)
    ensures Filter(s, keep) == s
    decreases |s|
  {
    if s != [] {
      var init := s[..|s| - 1];
      assert s == init + [s[|s| - 1]];
      FilterKeepsAll(init, keep);
    }
  }

  lemma FilterDropsAll<T(!new)>(s: seq<T>, keep: T -> bool)
    requires forall x :: x in s ==> !keep(x)
    ensures Filter(s, keep) == []
  {
  }

  /** Filtering by a stronger condition after a weaker one is filtering by
      the stronger one alone. */
  lemma {:induction false} FilterFilter<T(!new)>(s: seq<T>, weak: T -> bool, strong: T -> bool)
    requires forall x :: strong(x) ==> weak(x)
    ensures Filter(Filter(s, weak), strong) == Filter(s, strong)
    decreases |s|
  {
    if s != [] {
      var init := s[..|s| - 1];
      var x := s[|s| - 1];
      FilterFilter(init, weak, strong);
      var fw := Filter(init, weak);
      if weak(x) {
        FilterAppend(fw, [x], strong);
        assert Filter([x], strong) == if strong(x) then [x] else [] by {
          assert [x][..0] == [];
        }
      } else {
        assert Filter(s, weak) == fw;
      }
    }
  }

  function SumInt<T>(s: seq<T>, f: T -> int): int
  {
    if s == [] then 0 else SumInt(s[..|s| - 1], f) + f(s[|s| - 1])
  }

  function SumReal<T>(s: seq<T>, f: T -> real): real
  {
    if s == [] then 0.0 else SumReal(s[..|s| - 1], f) + f(s[|s| - 1])
  }

  lemma SumIntSnoc<T>(s: seq<T>, x: T, f: T -> int)
    ensures SumInt(s + [x], f) == SumInt(s, f) + f(x)
  {
    assert (s + [x])[..|s|] == s;
  }

  lemma SumRealSnoc<T>(s: seq<T>, x: T, f: T -> real)
    ensures SumReal(s + [x], f) == SumReal(s, f) + f(x)
  {
    assert (s + [x])[..|s|] == s;
  }

  lemma {:induction false} SumIntNonNegative<T>(s: seq<T>, f: T -> int)
    requires forall i :: 0 <= i < |s| ==> f(s[i]) >= 0
    ensures SumInt(s, f) >= 0
    decreases |s|
  {
    if s != [] {
      SumIntNonNegative(s[..|s| - 1], f);
    }
  }

  lemma {:induction false} SumRealNonNegative<T>(s: seq<T>, f: T -> real)
    requires forall i :: 0 <= i < |s| ==> f(s[i]) >= 0.0
    ensures SumReal(s, f) >= 0.0
    decreases |s|
  {
    if s != [] {
      SumRealNonNegative(s[..|s| - 1], f);
    }
  }

  /** Sums are linear: a pointwise difference sums to the difference. */
  lemma {:induction false} SumRealDifference<T>(s: seq<T>, f: T -> real, g: T -> real, h: T -> real)
    requires forall i :: 0 <= i < |s| ==> f(s[i]) - g(s[i]) == h(s[i])
    ensures SumReal(s, f) - SumReal(s, g) == SumReal(s, h)
    decreases |s|
  {
    if s != [] {
      SumRealDifference(s[..|s| - 1], f, g, h);
    }
  }

  lemma {:induction false} SumRealZero<T>(s: seq<T>, f: T -> real)
    requires forall i :: 0 <= i < |s| ==> f(s[i]) == 0.0
    ensures SumReal(s, f) == 0.0
    decreases |s|
  {
    if s != [] {
      SumRealZero(s[..|s| - 1], f);
    }
  }

  /** A sum with a single non-zero term is that term. */
  lemma {:induction false} SumRealSingle<T>(s: seq<T>, f: T -> real, k: nat)
    requires k < |s|
    requires forall i :: 0 <= i < |s| && i != k ==> f(s[i]) == 0.0
    ensures SumReal(s, f) == f(s[k])
    decreases |s|
  {
    var init := s[..|s| - 1];
    if k == |s| - 1 {
      SumRealZero(init, f);
    } else {
      SumRealSingle(init, f, k);
    }
  }

  /** No two elements share a key. */
  ghost predicate DistinctKeys<T, K>(s: seq<T>, key: T -> K)
  {
    forall i, j :: 0 <= i < j < |s| ==> key(s[i]) != key(s[j])
  }

  lemma DistinctKeysSnoc<T, K>(s: seq<T>, x: T, key: T -> K)
    requires DistinctKeys(s, key)
    requires forall i :: 0 <= i < |s| ==> key(s[i]) != key(x)
    ensures DistinctKeys(s + [x], key)
  {
    var r := s + [x];
    forall i, j | 0 <= i < j < |r| ensures key(r[i]) != key(r[j]) {
      assert r[i] == s[i];
      if j < |s| {
        assert r[j] == s[j];
      }
    }
  }

  lemma {:induction false} FilterKeepsDistinct<T(!new), K>(s: seq<T>, keep: T -> bool, key: T -> K)
    requires DistinctKeys(s, key)
    ensures DistinctKeys(Filter(s, keep), key)
    decreases |s|
  {
    if s != [] {
      var init := s[..|s| - 1];
      var x := s[|s| - 1];
      FilterKeepsDistinct(init, keep, key);
      var fi := Filter(init, keep);
      if keep(x) {
        FilterMembers(init, keep);
        forall y | y in fi ensures key(y) != key(x) {
          var i :| 0 <= i < |init| && init[i] == y;
          assert s[i] == y;
        }
        var r := fi + [x];
        forall i, j | 0 <= i < j < |r| ensures key(r[i]) != key(r[j]) {
          if j == |fi| {
            assert r[i] in fi;
          } else {
            assert r[i] == fi[i] && r[j] == fi[j];
          }
        }
      }
    }
  }
}
