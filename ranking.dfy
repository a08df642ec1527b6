/** A stable sort in descending order of a two-part rank.  JavaScript's
    `Array.prototype.sort` is stable, and a comparator of the form
    `(b.p - a.p)` or `(bFlag - aFlag) || (b.p - a.p)` orders by such a rank,
    so the sorted result is determined by the input alone; it is defined
    here by insertion from the back. */
module Ranking {
  import Seqs

  /** Ranks compare lexicographically: `primary` first, then `secondary`. */
  datatype Rank = Rank(primary: int, secondary: int)

  /** `a` may come before `b` in a descending order. */
  predicate Ge(a: Rank, b: Rank) {
    a.primary > b.primary || (a.primary == b.primary && a.secondary >= b.secondary)
  }

  lemma GeTotal(a: Rank, b: Rank)
    ensures Ge(a, b) || Ge(b, a)
    ensures Ge(a, b) && Ge(b, a) ==> a == b
  {
  }

  predicate SortedDesc<T>(s: seq<T>, key: T -> Rank) {
    forall i, j :: 0 <= i < j < |s| ==> Ge(key(s[i]), key(s[j]))
  }

  /** Inserts `x` into `t` after every element that ranks at least as high. */
  function InsertDesc<T>(t: seq<T>, x: T, key: T -> Rank): (r: seq<T>)
    ensures |r| == |t| + 1
    ensures multiset(r) == multiset(t) + multiset{x}
  {
    if t == [] || Ge(key(t[|t| - 1]), key(x)) then t + [x]
    else
      assert t == t[..|t| - 1] + [t[|t| - 1]];
      InsertDesc(t[..|t| - 1], x, key) + [t[|t| - 1]]
  }

  /** The stable descending sort of `s` by `key`. */
  function SortDesc<T>(s: seq<T>, key: T -> Rank): (r: seq<T>)
    ensures |r| == |s|
    ensures multiset(r) == multiset(s)
  {
    if s == [] then []
    else
      assert s == s[..|s| - 1] + [s[|s| - 1]];
      InsertDesc(SortDesc(s[..|s| - 1], key), s[|s| - 1], key)
  }

  lemma {:induction false} InsertDescSorted<T>(t: seq<T>, x: T, key: T -> Rank)
    requires SortedDesc(t, key)
    ensures SortedDesc(InsertDesc(t, x, key), key)
  {
    if t == [] || Ge(key(t[|t| - 1]), key(x)) {
    } else {
      var n := |t| - 1;
      var last := t[n];
      var p := t[..n];
      var q := InsertDesc(p, x, key);
      InsertDescSorted(p, x, key);
      forall i | 0 <= i < |q| ensures Ge(key(q[i]), key(last)) {
        assert q[i] in multiset(q);
        if q[i] != x {
          assert q[i] in multiset(p);
          var k :| 0 <= k < |p| && p[k] == q[i];
          assert t[k] == q[i];
        }
      }
    }
  }

  /** The result of `SortDesc` is in descending rank order. */
  lemma {:induction false} SortDescSorted<T>(s: seq<T>, key: T -> Rank)
    ensures SortedDesc(SortDesc(s, key), key)
  {
    if s != [] {
      SortDescSorted(s[..|s| - 1], key);
      InsertDescSorted(SortDesc(s[..|s| - 1], key), s[|s| - 1], key);
    }
  }

  /** The elements of `s` whose rank is exactly `k`, in their order in `s`. */
  function KeyFilter<T>(s: seq<T>, key: T -> Rank, k: Rank): (r: seq<T>)
    ensures |r| <= |s|
    ensures forall i :: 0 <= i < |r| ==> key(r[i]) == k
  {
    if s == [] then []
    else KeyFilter(s[..|s| - 1], key, k) + (if key(s[|s| - 1]) == k then [s[|s| - 1]] else [])
  }

  lemma KeyFilterSnoc<T>(s: seq<T>, x: T, key: T -> Rank, k: Rank)
    ensures KeyFilter(s + [x], key, k) == KeyFilter(s, key, k) + KeyFilter([x], key, k)
  {
    assert (s + [x])[..|s|] == s;
    assert [x][..0] == [];
  }

  lemma {:induction false} InsertDescStable<T>(t: seq<T>, x: T, key: T -> Rank, k: Rank)
    ensures KeyFilter(InsertDesc(t, x, key), key, k) == KeyFilter(t, key, k) + KeyFilter([x], key, k)
  {
    if t == [] || Ge(key(t[|t| - 1]), key(x)) {
      KeyFilterSnoc(t, x, key, k);
    } else {
      var n := |t| - 1;
      var p, last := t[..n], t[n];
      var q := InsertDesc(p, x, key);
      InsertDescStable(p, x, key, k);
      KeyFilterSnoc(q, last, key, k);
      assert t == p + [last];
      KeyFilterSnoc(p, last, key, k);
      // x ranks strictly above last, so at most one of the two has rank k
      var fx, fl := KeyFilter([x], key, k), KeyFilter([last], key, k);
      assert fx == [] || fl == [];
      calc {
        KeyFilter(InsertDesc(t, x, key), key, k);
        KeyFilter(q, key, k) + fl;
        KeyFilter(p, key, k) + fx + fl;
        { assert fx + fl == fl + fx; }
        KeyFilter(p, key, k) + fl + fx;
        KeyFilter(t, key, k) + fx;
      }
    }
  }

  /** Stability: elements of equal rank keep their relative input order. */
  lemma {:induction false} SortDescStable<T>(s: seq<T>, key: T -> Rank, k: Rank)
    ensures KeyFilter(SortDesc(s, key), key, k) == KeyFilter(s, key, k)
  {
    if s != [] {
      var n := |s| - 1;
      SortDescStable(s[..n], key, k);
      InsertDescStable(SortDesc(s[..n], key), s[n], key, k);
      assert s == s[..n] + [s[n]];
      KeyFilterSnoc(s[..n], s[n], key, k);
    }
  }
}
