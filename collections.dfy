/**
 * Sequence helpers for the two JavaScript collection idioms the system uses:
 * `Array.from(new Set(xs))` (first occurrences, in insertion order) and
 * `Array.prototype.sort` with a numeric comparator, which is stable.
 */
module Collections {
  import opened Common

  predicate Distinct<T(==)>(s: seq<T>)
  {
    forall i, j :: 0 <= i < j < |s| ==> s[i] != s[j]
  }

  /** The contents of a JavaScript `Set` filled from `s` in order, read back with `Array.from`. */
  function Dedup<T(==)>(s: seq<T>): (r: seq<T>)
    ensures Distinct(r)
    ensures forall i :: 0 <= i < |r| ==> r[i] in s
    ensures forall i :: 0 <= i < |s| ==> s[i] in r
    decreases |s|
  {
    if s == [] then []
    else
      var d := Dedup(s[..|s| - 1]);
      assert forall i :: 0 <= i < |s| - 1 ==> s[i] == s[..|s| - 1][i];
      if s[|s| - 1] in d then d else d + [s[|s| - 1]]
  }

  /** `s.map(f)`. */
  function Map<A, B>(s: seq<A>, f: A -> B): (r: seq<B>)
    ensures |r| == |s| && forall i :: 0 <= i < |s| ==> r[i] == f(s[i])
  {
    seq(|s|, i requires 0 <= i < |s| => f(s[i]))
  }

  /** Mapping one more element of a prefix appends its image. */
  lemma MapExtend<A, B>(s: seq<A>, f: A -> B, i: nat)
    requires i < |s|
    ensures Map(s[..i + 1], f) == Map(s[..i], f) + [f(s[i])]
  {
    var a, b := Map(s[..i + 1], f), Map(s[..i], f);
    assert forall k :: 0 <= k < i ==> s[..i + 1][k] == s[..i][k];
    assert forall k :: 0 <= k < i ==> a[k] == b[k];
  }

  /** Ordered for a comparator `(a, b) => key(b) - key(a)`: larger keys first. */
  predicate NonIncreasing<T>(s: seq<T>, key: T -> real)
  {
    forall i, j :: 0 <= i < j < |s| ==> key(s[i]) >= key(s[j])
  }

  /**
   * Inserts `x` into `t` just before the first element whose key is strictly
   * smaller than `x`'s, so that `x` lands after every element it ties with.
   */
  function InsertByKey<T>(t: seq<T>, x: T, key: T -> real): (r: seq<T>)
    ensures multiset(r) == multiset(t) + multiset{x}
    ensures |r| == |t| + 1
    ensures forall i :: 0 <= i < |r| ==> r[i] in t || r[i] == x
    ensures NonIncreasing(t, key) ==> NonIncreasing(r, key)
    decreases |t|
  {
    if t == [] then [x]
    else if key(t[0]) < key(x) then [x] + t
    else
      var rest := InsertByKey(t[1..], x, key);
      InsertBehindHead(t, rest, x, key);
      [t[0]] + rest
  }

  /** One step of `InsertByKey`: `x` goes behind a head whose key is at least its own. */
  lemma InsertBehindHead<T>(t: seq<T>, rest: seq<T>, x: T, key: T -> real)
    requires t != [] && key(t[0]) >= key(x)
    requires multiset(rest) == multiset(t[1..]) + multiset{x}
    requires NonIncreasing(t[1..], key) ==> NonIncreasing(rest, key)
    ensures multiset([t[0]] + rest) == multiset(t) + multiset{x}
    ensures forall i :: 0 <= i < |rest| + 1 ==> ([t[0]] + rest)[i] in t || ([t[0]] + rest)[i] == x
    ensures NonIncreasing(t, key) ==> NonIncreasing([t[0]] + rest, key)
  {
    var r := [t[0]] + rest;
    assert t == [t[0]] + t[1..];
    assert multiset(r) == multiset(t) + multiset{x};
    forall i | 0 <= i < |r| ensures r[i] in t || r[i] == x {
      assert r[i] in multiset(r);
    }
    if NonIncreasing(t, key) {
      HeadDominates(t, rest, x, key);
    }
  }

  /** Behind a head that dominates `t` and `x`, the list stays ordered. */
  lemma HeadDominates<T>(t: seq<T>, rest: seq<T>, x: T, key: T -> real)
    requires t != [] && key(t[0]) >= key(x)
    requires multiset(rest) == multiset(t[1..]) + multiset{x}
    requires NonIncreasing(t, key) && NonIncreasing(rest, key)
    ensures NonIncreasing([t[0]] + rest, key)
  {
    var r := [t[0]] + rest;
    forall q | 0 <= q < |rest| ensures key(t[0]) >= key(rest[q]) {
      assert rest[q] in multiset(rest);
      if rest[q] != x {
        assert rest[q] in t[1..];
        var m :| 0 <= m < |t[1..]| && t[1..][m] == rest[q];
        assert t[m + 1] == rest[q];
      }
    }
    forall i, j | 0 <= i < j < |r| ensures key(r[i]) >= key(r[j]) {
      assert r[j] == rest[j - 1];
      if i > 0 {
        assert r[i] == rest[i - 1];
      }
    }
  }

  /**
   * A stable sort by non-increasing key: the result of JavaScript's
   * `s.sort((a, b) => key(b) - key(a))`.
   */
  function SortByKey<T>(s: seq<T>, key: T -> real): (r: seq<T>)
    ensures multiset(r) == multiset(s)
    ensures |r| == |s|
    ensures NonIncreasing(r, key)
    decreases |s|
  {
    if s == [] then []
    else
      assert s == s[..|s| - 1] + [s[|s| - 1]];
      InsertByKey(SortByKey(s[..|s| - 1], key), s[|s| - 1], key)
  }

  /** Three elements with distinct keys, the middle one largest and the first smallest, sort to middle, last, first. */
  lemma SortThree<T>(a: T, b: T, c: T, key: T -> real)
    requires key(a) < key(c) < key(b)
    ensures SortByKey([a, b, c], key) == [b, c, a]
  {
    SortThreeStep(a, b, c, key);
    SortTwo(a, b, key);
    InsertBetween(b, a, c, key);
  }

  lemma SortThreeStep<T>(a: T, b: T, c: T, key: T -> real)
    ensures SortByKey([a, b, c], key) == InsertByKey(SortByKey([a, b], key), c, key)
  {
    SortByKeyLast([a, b, c], key);
    assert [a, b, c][..2] == [a, b];
  }

  /** An element whose key lies strictly between the two of a pair lands between them. */
  lemma InsertBetween<T>(b: T, a: T, c: T, key: T -> real)
    requires key(a) < key(c) <= key(b)
    ensures InsertByKey([b, a], c, key) == [b, c, a]
  {
    InsertBehind([b, a], c, key);
    assert [b, a][1..] == [a];
    InsertAhead([a], c, key);
  }

  /** Two elements, the second with the larger key, swap places. */
  lemma SortTwo<T>(a: T, b: T, key: T -> real)
    requires key(a) < key(b)
    ensures SortByKey([a, b], key) == [b, a]
  {
    SortByKeyLast([a], key);
    assert [a][..0] == [];
    SortByKeyLast([a, b], key);
    assert [a, b][..1] == [a];
    InsertAhead([a], b, key);
  }

  /** One step of `SortByKey`: sort all but the last element, then insert it. */
  lemma SortByKeyLast<T>(s: seq<T>, key: T -> real)
    requires s != []
    ensures SortByKey(s, key) == InsertByKey(SortByKey(s[..|s| - 1], key), s[|s| - 1], key)
  {
  }

  /** An element with a larger key than the head goes in front. */
  lemma InsertAhead<T>(t: seq<T>, x: T, key: T -> real)
    requires t != [] && key(t[0]) < key(x)
    ensures InsertByKey(t, x, key) == [x] + t
  {
  }

  /** An element whose key is at most the head's goes behind it. */
  lemma InsertBehind<T>(t: seq<T>, x: T, key: T -> real)
    requires t != [] && key(t[0]) >= key(x)
    ensures InsertByKey(t, x, key) == [t[0]] + InsertByKey(t[1..], x, key)
  {
  }

  /** The elements whose key is `k`. */
  function KeyIs<T>(key: T -> real, k: real): T -> bool
  {
    x => key(x) == k
  }

  /**
   * Inserting into an ordered list puts `x` behind every element it ties
   * with: among the elements of one key, `x` comes last and the others keep
   * their order.
   */
  lemma {:induction false} InsertByKeyStable<T(!new)>(t: seq<T>, x: T, key: T -> real, k: real)
    requires NonIncreasing(t, key)
    ensures Filter(InsertByKey(t, x, key), KeyIs(key, k)) == Filter(t, KeyIs(key, k)) + Filter([x], KeyIs(key, k))
  {
    var p := KeyIs(key, k);
    assert forall y :: p(y) <==> key(y) == k;
    InsertStable(t, x, key, k, p);
  }

  lemma {:induction false} InsertStable<T(!new)>(t: seq<T>, x: T, key: T -> real, k: real, p: T -> bool)
    requires NonIncreasing(t, key)
    requires forall y :: p(y) <==> key(y) == k
    ensures Filter(InsertByKey(t, x, key), p) == Filter(t, p) + Filter([x], p)
    decreases |t|
  {
    if t == [] {
      assert InsertByKey(t, x, key) == [x];
      assert Filter(t, p) == [];
    } else if key(t[0]) < key(x) {
      InsertStableAhead(t, x, key, k, p);
    } else {
      assert NonIncreasing(t[1..], key);
      InsertStable(t[1..], x, key, k, p);
      InsertStableBehind(t, x, key, p);
    }
  }

  /** `x` in front: any element of `t` it ties with would have a key above its own, so there is none. */
  lemma InsertStableAhead<T(!new)>(t: seq<T>, x: T, key: T -> real, k: real, p: T -> bool)
    requires NonIncreasing(t, key) && t != [] && key(t[0]) < key(x)
    requires forall y :: p(y) <==> key(y) == k
    ensures Filter(InsertByKey(t, x, key), p) == Filter(t, p) + Filter([x], p)
  {
    assert InsertByKey(t, x, key) == [x] + t;
    FilterAppend([x], t, p);
    FilterSingleton(x, p);
    if p(x) {
      forall y | y in t ensures !p(y) {
        var m :| 0 <= m < |t| && t[m] == y;
        assert m == 0 || key(t[0]) >= key(t[m]);
      }
      FilterKeepsNone(t, p);
    }
  }

  /** `x` behind the head: the head is filtered on its own, in front. */
  lemma InsertStableBehind<T(!new)>(t: seq<T>, x: T, key: T -> real, p: T -> bool)
    requires t != [] && key(t[0]) >= key(x)
    requires Filter(InsertByKey(t[1..], x, key), p) == Filter(t[1..], p) + Filter([x], p)
    ensures Filter(InsertByKey(t, x, key), p) == Filter(t, p) + Filter([x], p)
  {
    var rest := InsertByKey(t[1..], x, key);
    assert InsertByKey(t, x, key) == [t[0]] + rest;
    FilterAppend([t[0]], rest, p);
    SplitFirst(t);
    FilterAppend([t[0]], t[1..], p);
    var h, m, e := Filter([t[0]], p), Filter(t[1..], p), Filter([x], p);
    assert h + (m + e) == (h + m) + e;
  }

  /**
   * `SortByKey` is stable: for every key value, the elements with that key
   * appear in the result in the order they had in the input.
   */
  lemma {:induction false} SortByKeyStable<T(!new)>(s: seq<T>, key: T -> real, k: real)
    ensures Filter(SortByKey(s, key), KeyIs(key, k)) == Filter(s, KeyIs(key, k))
    decreases |s|
  {
    if s != [] {
      var init, last := s[..|s| - 1], s[|s| - 1];
      SortByKeyStable(init, key, k);
      InsertByKeyStable(SortByKey(init, key), last, key, k);
      SortByKeyLast(s, key);
      SplitLast(s);
      FilterAppend(init, [last], KeyIs(key, k));
    }
  }

  lemma {:induction false} InsertByKeyDistinct<T>(t: seq<T>, x: T, key: T -> real)
    requires Distinct(t) && x !in t
    ensures Distinct(InsertByKey(t, x, key))
    decreases |t|
  {
    if t != [] && key(t[0]) >= key(x) {
      InsertByKeyDistinct(t[1..], x, key);
    }
  }

  /** Sorting neither adds nor drops elements, so a list without duplicates stays without duplicates. */
  lemma {:induction false} SortByKeyDistinct<T>(s: seq<T>, key: T -> real)
    requires Distinct(s)
    ensures Distinct(SortByKey(s, key))
    ensures forall x :: x in SortByKey(s, key) <==> x in s
    decreases |s|
  {
    if s != [] {
      var s' := s[..|s| - 1];
      SortByKeyDistinct(s', key);
      var x := s[|s| - 1];
      assert x !in s';
      InsertByKeyDistinct(SortByKey(s', key), x, key);
    }
    forall x ensures x in SortByKey(s, key) <==> x in s {
      assert x in SortByKey(s, key) <==> x in multiset(SortByKey(s, key));
    }
  }

  /** An element whose key is not larger than any already placed goes to the end. */
  lemma {:induction false} InsertByKeyAtEnd<T>(t: seq<T>, x: T, key: T -> real)
    requires forall i :: 0 <= i < |t| ==> key(t[i]) >= key(x)
    ensures InsertByKey(t, x, key) == t + [x]
    decreases |t|
  {
    if t != [] {
      InsertByKeyAtEnd(t[1..], x, key);
    }
  }

  /** When every key ties the stable sort leaves the order unchanged (a comparator that always returns 0). */
  lemma {:induction false} SortByKeyAllTies<T>(s: seq<T>, key: T -> real)
    requires forall i, j :: 0 <= i < |s| && 0 <= j < |s| ==> key(s[i]) == key(s[j])
    ensures SortByKey(s, key) == s
    decreases |s|
  {
    if s != [] {
      var s' := s[..|s| - 1];
      SortByKeyAllTies(s', key);
      InsertByKeyAtEnd(s', s[|s| - 1], key);
      assert s == s' + [s[|s| - 1]];
    }
  }
}
