/** Sequence operations the components build their derived lists from:
    JavaScript's `filter`, `slice(0, n)` and `Array.from(new Set(...))`. */
module Seqs {

  /** `s.filter(f)`: the elements satisfying `f`, in their original order. */
  function Filter<T(!new)>(s: seq<T>, f: T -> bool): (r: seq<T>)
    ensures |r| <= |s|
    ensures forall x :: x in r <==> x in s && f(x)
    ensures forall i :: 0 <= i < |r| ==> f(r[i])
    ensures multiset(r) <= multiset(s)
  {
    if s == [] then []
    else
      assert s == [s[0]] + s[1..];
      (if f(s[0]) then [s[0]] else []) + Filter(s[1..], f)
  }

  /** One step of `Filter`: the first element, if kept, then the filtered rest. */
  lemma FilterStep<T(!new)>(s: seq<T>, f: T -> bool)
    requires s != []
    ensures Filter(s, f) == (if f(s[0]) then [s[0]] else []) + Filter(s[1..], f)
  {
  }

  /** `r` is `s` with some elements left out, the rest in their order. */
  predicate IsSubsequence<T(==)>(r: seq<T>, s: seq<T>)
    decreases |s|
  {
    r == [] || (s != [] && ((r[0] == s[0] && IsSubsequence(r[1..], s[1..])) || IsSubsequence(r, s[1..])))
  }

  /** Filtering preserves the order of what it keeps. */
  lemma {:induction false} FilterIsSubsequence<T(!new)>(s: seq<T>, f: T -> bool)
    ensures IsSubsequence(Filter(s, f), s)
  {
    if s != [] {
      FilterIsSubsequence(s[1..], f);
      if f(s[0]) {
        assert Filter(s, f)[1..] == Filter(s[1..], f);
      } else {
        assert Filter(s, f) == Filter(s[1..], f);
      }
    }
  }

  /** Filtering keeps exactly the occurrences that satisfy the predicate. */
  lemma {:induction false} FilterCount<T(!new)>(s: seq<T>, f: T -> bool, x: T)
    ensures multiset(Filter(s, f))[x] == if f(x) then multiset(s)[x] else 0
  {
    if s != [] {
      var head: seq<T> := if f(s[0]) then [s[0]] else [];
      var rest := Filter(s[1..], f);
      FilterCount(s[1..], f, x);
      FilterStep(s, f);
      assert multiset(head + rest) == multiset(head) + multiset(rest);
      assert s == [s[0]] + s[1..];
      assert multiset(s) == multiset([s[0]]) + multiset(s[1..]);
      assert multiset(head)[x] == if f(x) then multiset([s[0]])[x] else 0;
    }
  }

  /** Filtering a smaller collection gives a smaller result. */
  lemma FilterMonotone<T(!new)>(a: seq<T>, b: seq<T>, f: T -> bool)
    requires multiset(a) <= multiset(b)
    ensures multiset(Filter(a, f)) <= multiset(Filter(b, f))
  {
    forall x ensures multiset(Filter(a, f))[x] <= multiset(Filter(b, f))[x] {
      FilterCount(a, f, x);
      FilterCount(b, f, x);
    }
  }

  /** A filter that nothing fails keeps the whole sequence. */
  lemma {:induction false} FilterAll<T(!new)>(s: seq<T>, f: T -> bool)
    requires forall i :: 0 <= i < |s| ==> f(s[i])
    ensures Filter(s, f) == s
  {
    if s != [] {
      FilterAll(s[1..], f);
    }
  }

  /** Filtering distributes over concatenation. */
  lemma {:induction false} FilterAppend<T(!new)>(a: seq<T>, b: seq<T>, f: T -> bool)
    ensures Filter(a + b, f) == Filter(a, f) + Filter(b, f)
  {
    if a != [] {
      assert (a + b)[1..] == a[1..] + b;
      FilterAppend(a[1..], b, f);
    } else {
      assert a + b == b;
    }
  }

  /** `s.slice(0, n)`: the first `n` elements, or all of them when there are fewer. */
  function Take<T>(s: seq<T>, n: nat): (r: seq<T>)
    ensures |r| == if |s| < n then |s| else n
    ensures r == s[..|r|]
    ensures multiset(r) <= multiset(s)
  {
    if |s| <= n then s
    else
      assert s == s[..n] + s[n..];
      s[..n]
  }

  /** `s.filter(x => x !== t)`: every occurrence of `t` removed, the rest in order. */
  function Remove<T(==,!new)>(s: seq<T>, t: T): (r: seq<T>)
    ensures |r| <= |s|
    ensures forall x :: x in r <==> x in s && x != t
  {
    if s == [] then [] else (if s[0] == t then [] else [s[0]]) + Remove(s[1..], t)
  }

  /** Removal keeps every other occurrence, in order: the result is a
      subsequence holding each value other than `t` exactly as often as `s`
      does, and `t` not at all.  Together these fix the result. */
  lemma RemoveKeepsOthers<T(!new)>(s: seq<T>, t: T)
    ensures IsSubsequence(Remove(s, t), s)
    ensures multiset(Remove(s, t)) == multiset(s)[t := 0]
  {
    RemoveIsSubsequence(s, t);
    forall x ensures multiset(Remove(s, t))[x] == multiset(s)[t := 0][x] {
      RemoveCount(s, t, x);
    }
  }

  lemma {:induction false} RemoveIsSubsequence<T(!new)>(s: seq<T>, t: T)
    ensures IsSubsequence(Remove(s, t), s)
  {
    if s != [] {
      RemoveIsSubsequence(s[1..], t);
      var r := Remove(s, t);
      if s[0] == t {
        assert r == Remove(s[1..], t);
      } else {
        assert r == [s[0]] + Remove(s[1..], t);
        assert r[0] == s[0] && r[1..] == Remove(s[1..], t);
      }
    }
  }

  lemma {:induction false} RemoveCount<T(!new)>(s: seq<T>, t: T, x: T)
    ensures multiset(Remove(s, t))[x] == if x == t then 0 else multiset(s)[x]
  {
    if s != [] {
      var head: seq<T> := if s[0] == t then [] else [s[0]];
      var rest := Remove(s[1..], t);
      RemoveCount(s[1..], t, x);
      assert Remove(s, t) == head + rest;
      assert multiset(head + rest) == multiset(head) + multiset(rest);
      assert s == [s[0]] + s[1..];
      assert multiset(s) == multiset([s[0]]) + multiset(s[1..]);
    }
  }

  /** Removing a value that does not occur changes nothing. */
  lemma {:induction false} RemoveAbsent<T(!new)>(s: seq<T>, t: T)
    requires t !in s
    ensures Remove(s, t) == s
  {
    if s != [] {
      RemoveAbsent(s[1..], t);
    }
  }

  lemma {:induction false} RemoveAppend<T(!new)>(a: seq<T>, b: seq<T>, t: T)
    ensures Remove(a + b, t) == Remove(a, t) + Remove(b, t)
  {
    if a != [] {
      assert (a + b)[1..] == a[1..] + b;
      RemoveAppend(a[1..], b, t);
    } else {
      assert a + b == b;
    }
  }

  predicate NoDuplicates<T(==)>(s: seq<T>) {
    forall i, j :: 0 <= i < j < |s| ==> s[i] != s[j]
  }

  /** `Array.from(new Set(s))`: each value once, kept at its first occurrence
      (a JavaScript Set iterates in insertion order and ignores repeats). */
  function Distinct<T(==,!new)>(s: seq<T>): (r: seq<T>)
    ensures forall x :: x in r <==> x in s
    ensures NoDuplicates(r)
    ensures |r| <= |s|
  {
    if s == [] then []
    else
      var r := Distinct(s[..|s| - 1]);
      if s[|s| - 1] in r then r else r + [s[|s| - 1]]
  }

  /** The position of the first occurrence of `x` in `s`. */
  function FirstIndex<T(==)>(s: seq<T>, x: T): (i: nat)
    requires x in s
    ensures i < |s| && s[i] == x && x !in s[..i]
  {
    if s[0] == x then 0 else 1 + FirstIndex(s[1..], x)
  }

  lemma {:induction false} FirstIndexInPrefix<T>(s: seq<T>, n: nat, x: T)
    requires n <= |s| && x in s[..n]
    ensures FirstIndex(s, x) == FirstIndex(s[..n], x)
  {
    if s[0] != x {
      assert s[..n][1..] == s[1..][..n - 1];
      FirstIndexInPrefix(s[1..], n - 1, x);
    }
  }

  lemma FirstIndexBeyondPrefix<T>(s: seq<T>, n: nat, x: T)
    requires n <= |s| && x in s && x !in s[..n]
    ensures FirstIndex(s, x) >= n
  {
  }

  /** The distinct values come in the order of their first occurrences. */
  lemma {:induction false} DistinctFirstSeenOrder<T(!new)>(s: seq<T>, i: nat, j: nat)
    requires i < j < |Distinct(s)|
    ensures Distinct(s)[i] in s && Distinct(s)[j] in s
    ensures FirstIndex(s, Distinct(s)[i]) < FirstIndex(s, Distinct(s)[j])
  {
    var n := |s| - 1;
    var p := s[..n];
    var r := Distinct(p);
    var x, y := Distinct(s)[i], Distinct(s)[j];
    assert x in Distinct(s) && y in Distinct(s);
    if s[n] in r || j < |r| {
      // both come from the prefix
      assert Distinct(s)[..|r|] == r;
      assert x == r[i] && y == r[j];
      DistinctFirstSeenOrder(p, i, j);
      FirstIndexInPrefix(s, n, x);
      FirstIndexInPrefix(s, n, y);
    } else {
      // y is the last element, seen for the first time at position n
      assert y == s[n] && y !in p;
      assert x == r[i] && x in p;
      FirstIndexInPrefix(s, n, x);
      FirstIndexBeyondPrefix(s, n, y);
    }
  }
}
