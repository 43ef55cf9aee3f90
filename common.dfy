/**
 * Numeric helpers shared by every part of the model.
 *
 * JavaScript numbers are modelled as exact `real`s.  A field that may be
 * missing is an `Option<real>`; a division whose denominator may be zero is
 * `Div`, which is undefined (`None`) exactly where JavaScript would produce
 * NaN or an infinity.
 */
module Common {

  datatype Option<+T> = None | Some(value: T)

  /** JavaScript's `x || d` on a possibly missing number: a missing value and 0 are both falsy. */
  function OrElse(x: Option<real>, d: real): (r: real)
    ensures r == d || (x.Some? && r == x.value)
    ensures x.Some? && x.value != 0.0 ==> r == x.value
    ensures x.None? ==> r == d
  {
    if x.Some? && x.value != 0.0 then x.value else d
  }

  /** JavaScript's `x || 0`: indistinguishable from "missing means 0". */
  function OrZero(x: Option<real>): (r: real)
    ensures x.Some? ==> r == x.value
    ensures x.None? ==> r == 0.0
  {
    OrElse(x, 0.0)
  }

  function Abs(x: real): (r: real)
    ensures r >= 0.0 && (r == x || r == -x)
  {
    if x < 0.0 then -x else x
  }

  function Min(a: real, b: real): (r: real)
    ensures r <= a && r <= b && (r == a || r == b)
  {
    if a <= b then a else b
  }

  function Max(a: real, b: real): (r: real)
    ensures r >= a && r >= b && (r == a || r == b)
  {
    if a >= b then a else b
  }

  /**
   * An unguarded JavaScript division `n / d`: defined exactly when the
   * denominator is not zero, and then it is the number that multiplied by `d`
   * gives back `n`.
   */
  function Div(n: real, d: real): (r: Option<real>)
    ensures r.Some? <==> d != 0.0
    ensures r.Some? ==> r.value * d == n
  {
    if d == 0.0 then None else Some(n / d)
  }

  /** The ratio formula `(x - y) / y * 100` used for every "efficiency gain" in the system. */
  function GainPercent(x: real, y: real): (r: Option<real>)
    ensures r.Some? <==> y != 0.0
    ensures r.Some? ==> r.value * y == (x - y) * 100.0
  {
    if y == 0.0 then None else Some((x - y) / y * 100.0)
  }

  /** `xs.reduce((sum, x) => sum + f(x), 0)`: a left fold, in array order. */
  function SumOf<T>(s: seq<T>, f: T -> real): real
    decreases |s|
  {
    if s == [] then 0.0 else SumOf(s[..|s| - 1], f) + f(s[|s| - 1])
  }

  lemma {:induction false} SumOfAppend<T>(s: seq<T>, t: seq<T>, f: T -> real)
    ensures SumOf(s + t, f) == SumOf(s, f) + SumOf(t, f)
    decreases |t|
  {
    if t == [] {
      assert s + t == s;
    } else {
      var u := s + t;
      assert u[..|u| - 1] == s + t[..|t| - 1];
      assert u[|u| - 1] == t[|t| - 1];
      SumOfAppend(s, t[..|t| - 1], f);
    }
  }

  lemma SumOfSingleton<T>(x: T, f: T -> real)
    ensures SumOf([x], f) == f(x)
  {
    assert [x][..0] == [];
  }

  /** A sum only depends on the multiset of summands: reordering the input does not change it. */
  lemma {:induction false} SumOfPermutation<T>(s: seq<T>, t: seq<T>, f: T -> real)
    requires multiset(s) == multiset(t)
    ensures SumOf(s, f) == SumOf(t, f)
    decreases |s|
  {
    if s == [] {
      assert |t| == |multiset(t)| == 0;
    } else {
      var x := s[|s| - 1];
      var s' := s[..|s| - 1];
      assert s == s' + [x];
      assert x in multiset(t);
      var k :| 0 <= k < |t| && t[k] == x;
      var t' := t[..k] + t[k + 1..];
      assert t == t[..k] + [x] + t[k + 1..];
      assert multiset(t) == multiset(t[..k]) + multiset{x} + multiset(t[k + 1..]);
      assert multiset(s) == multiset(s') + multiset{x};
      assert multiset(t') == multiset(t[..k]) + multiset(t[k + 1..]);
      assert multiset(s') == multiset(s) - multiset{x};
      assert multiset(t') == multiset(t) - multiset{x};
      SumOfPermutation(s', t', f);
      SumOfAppend(t[..k] + [x], t[k + 1..], f);
      SumOfAppend(t[..k], [x], f);
      SumOfAppend(t[..k], t[k + 1..], f);
      SumOfSingleton(x, f);
    }
  }

  /** Summing pointwise differences: if f = g - h on every element then the sums are related the same way. */
  lemma {:induction false} SumOfDifference<T>(s: seq<T>, f: T -> real, g: T -> real, h: T -> real)
    requires forall x :: x in s ==> f(x) == g(x) - h(x)
    ensures SumOf(s, f) == SumOf(s, g) - SumOf(s, h)
    decreases |s|
  {
    if s != [] {
      SumOfDifference(s[..|s| - 1], f, g, h);
    }
  }

  /** Summing a pointwise inequality. */
  lemma {:induction false} SumOfMonotone<T>(s: seq<T>, f: T -> real, g: T -> real)
    requires forall x :: x in s ==> f(x) <= g(x)
    ensures SumOf(s, f) <= SumOf(s, g)
    decreases |s|
  {
    if s != [] {
      SumOfMonotone(s[..|s| - 1], f, g);
    }
  }

  lemma {:induction false} SumOfNonNegative<T>(s: seq<T>, f: T -> real)
    requires forall x :: x in s ==> f(x) >= 0.0
    ensures SumOf(s, f) >= 0.0
    decreases |s|
  {
    if s != [] {
      SumOfNonNegative(s[..|s| - 1], f);
    }
  }

  lemma {:induction false} SumOfNonPositive<T>(s: seq<T>, f: T -> real)
    requires forall x :: x in s ==> f(x) <= 0.0
    ensures SumOf(s, f) <= 0.0
    decreases |s|
  {
    if s != [] {
      SumOfNonPositive(s[..|s| - 1], f);
    }
  }

  /** Scaling every summand scales the sum (the W to kW conversions). */
  lemma {:induction false} SumOfScale<T>(s: seq<T>, f: T -> real, g: T -> real, c: real)
    requires forall x :: x in s ==> g(x) == c * f(x)
    ensures SumOf(s, g) == c * SumOf(s, f)
    decreases |s|
  {
    if s != [] {
      SumOfScale(s[..|s| - 1], f, g, c);
    }
  }

  /** Summing a constant over a list multiplies it by the length. */
  lemma {:induction false} SumOfConstant<T>(s: seq<T>, f: T -> real, c: real)
    requires forall x :: x in s ==> f(x) == c
    ensures SumOf(s, f) == c * |s| as real
    decreases |s|
  {
    if s != [] {
      SumOfConstant(s[..|s| - 1], f, c);
    }
  }

  /** Terms between two bounds give a sum between the bounds times the length. */
  lemma {:induction false} SumOfBounds<T>(s: seq<T>, f: T -> real, lo: real, hi: real)
    requires forall x :: x in s ==> lo <= f(x) <= hi
    ensures lo * |s| as real <= SumOf(s, f) <= hi * |s| as real
    decreases |s|
  {
    if s != [] {
      var init, last := s[..|s| - 1], s[|s| - 1];
      var k := |init| as real;
      assert last in s;
      assert forall x :: x in init ==> x in s;
      SumOfBounds(init, f, lo, hi);
      assert SumOf(s, f) == SumOf(init, f) + f(last);
      BoundsStep(lo, hi, k, |s| as real, SumOf(init, f), f(last));
    }
  }

  lemma BoundsStep(lo: real, hi: real, k: real, n: real, sum: real, term: real)
    requires n == k + 1.0 && lo * k <= sum <= hi * k && lo <= term <= hi
    ensures lo * n <= sum + term <= hi * n
  {
  }

  /** A mean of terms that lie between two bounds lies between them too. */
  lemma MeanWithinBounds<T>(s: seq<T>, f: T -> real, mean: real, lo: real, hi: real)
    requires |s| > 0 && mean * |s| as real == SumOf(s, f)
    requires forall x :: x in s ==> lo <= f(x) <= hi
    ensures lo <= mean <= hi
  {
    SumOfBounds(s, f, lo, hi);
    BoundsOfQuotient(lo, mean, hi, |s| as real, SumOf(s, f));
  }

  lemma BoundsOfQuotient(lo: real, mean: real, hi: real, n: real, sum: real)
    requires n > 0.0 && mean * n == sum && lo * n <= sum <= hi * n
    ensures lo <= mean <= hi
  {
    assert (mean - lo) * n >= 0.0 && (hi - mean) * n >= 0.0;
  }

  /** Two lists of the same length whose terms agree position by position have the same sum. */
  lemma {:induction false} SumOfPointwise<A, B>(s: seq<A>, f: A -> real, t: seq<B>, g: B -> real)
    requires |s| == |t|
    requires forall i :: 0 <= i < |s| ==> f(s[i]) == g(t[i])
    ensures SumOf(s, f) == SumOf(t, g)
    decreases |s|
  {
    if s != [] {
      SumOfPointwise(s[..|s| - 1], f, t[..|t| - 1], g);
    }
  }

  /**
   * A non-negative sum over a list without repeats is at most the sum over a
   * second list that holds every element whose term is non-zero.
   */
  lemma {:induction false} SumOfSubList<T>(s: seq<T>, t: seq<T>, f: T -> real)
    requires forall i, j :: 0 <= i < j < |s| ==> s[i] != s[j]
    requires forall x :: x in t ==> f(x) >= 0.0
    requires forall x :: x in s && f(x) != 0.0 ==> x in t
    ensures SumOf(s, f) <= SumOf(t, f)
    decreases |s|
  {
    if s == [] {
      SumOfNonNegative(t, f);
    } else {
      var s' := s[..|s| - 1];
      var x := s[|s| - 1];
      assert forall y :: y in s' ==> y in s;
      if x in t {
        var k :| 0 <= k < |t| && t[k] == x;
        var t' := t[..k] + t[k + 1..];
        assert t == t[..k] + [x] + t[k + 1..];
        assert multiset(t) == multiset(t' + [x]);
        SumOfPermutation(t, t' + [x], f);
        SumOfAppend(t', [x], f);
        SumOfSingleton(x, f);
        forall y | y in s' && f(y) != 0.0 ensures y in t' {
          var m :| 0 <= m < |s'| && s'[m] == y;
          assert s[m] == y && s[|s| - 1] == x && m < |s| - 1;
          assert y != x;
          assert y in t;
          var n :| 0 <= n < |t| && t[n] == y;
          if n < k {
            assert t'[n] == y;
          } else {
            assert n > k && t'[n - 1] == y;
          }
        }
        assert forall y :: y in t' ==> y in t;
        SumOfSubList(s', t', f);
      } else {
        SumOfSubList(s', t, f);
      }
    }
  }

  /** `xs.filter(p)`: the elements satisfying p, in order. */
  function Filter<T(!new)>(s: seq<T>, p: T -> bool): (r: seq<T>)
    ensures |r| <= |s|
    ensures forall x :: x in r <==> x in s && p(x)
    decreases |s|
  {
    if s == [] then []
    else
      var r := Filter(s[..|s| - 1], p);
      assert forall x :: x in s <==> x in s[..|s| - 1] || x == s[|s| - 1];
      if p(s[|s| - 1]) then r + [s[|s| - 1]] else r
  }

  /** Every kept element is kept as often as it occurs; a dropped one not at all. */
  lemma {:induction false} FilterCounts<T(!new)>(s: seq<T>, p: T -> bool, x: T)
    ensures multiset(Filter(s, p))[x] == if p(x) then multiset(s)[x] else 0
    decreases |s|
  {
    if s != [] {
      var init, last := s[..|s| - 1], s[|s| - 1];
      FilterCounts(init, p, x);
      assert s == init + [last];
      assert multiset(s) == multiset(init) + multiset{last};
      if p(last) {
        assert multiset(Filter(s, p)) == multiset(Filter(init, p)) + multiset{last};
      }
    }
  }

  lemma FilterCountsAll<T(!new)>(s: seq<T>, p: T -> bool)
    ensures forall x :: multiset(Filter(s, p))[x] == if p(x) then multiset(s)[x] else 0
  {
    forall x ensures multiset(Filter(s, p))[x] == if p(x) then multiset(s)[x] else 0 {
      FilterCounts(s, p, x);
    }
  }

  /** Filtering a concatenation filters each part and keeps them in order. */
  lemma {:induction false} FilterAppend<T(!new)>(s: seq<T>, t: seq<T>, p: T -> bool)
    ensures Filter(s + t, p) == Filter(s, p) + Filter(t, p)
    decreases |t|
  {
    if t == [] {
      assert s + t == s;
      assert Filter(s, p) + [] == Filter(s, p);
    } else {
      var init, last := t[..|t| - 1], t[|t| - 1];
      var st := s + t;
      assert st[..|st| - 1] == s + init;
      assert st[|st| - 1] == last;
      FilterAppend(s, init, p);
      var fs, fi := Filter(s, p), Filter(init, p);
      if p(last) {
        assert Filter(st, p) == Filter(s + init, p) + [last];
        assert Filter(t, p) == fi + [last];
        assert (fs + fi) + [last] == fs + (fi + [last]);
      } else {
        assert Filter(st, p) == Filter(s + init, p);
        assert Filter(t, p) == fi;
      }
    }
  }

  /** A non-empty list is its first element followed by the rest. */
  lemma SplitFirst<T>(s: seq<T>)
    requires s != []
    ensures s == [s[0]] + s[1..]
  {
  }

  /** A non-empty list is all but its last element followed by the last. */
  lemma SplitLast<T>(s: seq<T>)
    requires s != []
    ensures s == s[..|s| - 1] + [s[|s| - 1]]
  {
  }

  /** A one-element list is kept or dropped whole. */
  lemma FilterSingleton<T(!new)>(x: T, p: T -> bool)
    ensures Filter([x], p) == if p(x) then [x] else []
  {
    assert [x][..0] == [];
  }

  /** A filter that rejects every element returns the empty list. */
  lemma FilterKeepsNone<T(!new)>(s: seq<T>, p: T -> bool)
    requires forall x :: x in s ==> !p(x)
    ensures Filter(s, p) == []
  {
  }

  /** `[a, b, c].reduce((sum, x) => sum + f(x), 0)`. */
  lemma SumOfThree<T>(a: T, b: T, c: T, f: T -> real)
    ensures SumOf([a, b, c], f) == f(a) + f(b) + f(c)
  {
    assert [a, b, c][..2] == [a, b];
    assert [a, b][..1] == [a];
    assert [a][..0] == [];
    assert SumOf([a], f) == f(a);
    assert SumOf([a, b], f) == f(a) + f(b);
  }

  /** A filter that keeps every element returns the list unchanged. */
  lemma {:induction false} FilterKeepsAll<T(!new)>(s: seq<T>, p: T -> bool)
    requires forall x :: x in s ==> p(x)
    ensures Filter(s, p) == s
    decreases |s|
  {
    if s != [] {
      FilterKeepsAll(s[..|s| - 1], p);
      assert s == s[..|s| - 1] + [s[|s| - 1]];
    }
  }

  /** Summing a filtered list is summing the whole list with the rejected elements counted as 0. */
  lemma {:induction false} SumOfFilter<T(!new)>(s: seq<T>, p: T -> bool, f: T -> real, g: T -> real)
    requires forall x :: x in s ==> g(x) == (if p(x) then f(x) else 0.0)
    ensures SumOf(Filter(s, p), f) == SumOf(s, g)
    decreases |s|
  {
    if s != [] {
      var s' := s[..|s| - 1];
      var x := s[|s| - 1];
      SumOfFilter(s', p, f, g);
      if p(x) {
        SumOfAppend(Filter(s', p), [x], f);
        SumOfSingleton(x, f);
      }
    }
  }
}
