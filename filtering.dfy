/**
 `Array.prototype.filter` and `filter(...).length`, the two sequence
 operations every part of the dashboard is built from, with the facts
 about them the other modules use.
 */
module Filtering {

  /** `s.filter(keep)`. */
  function Filter<T>(s: seq<T>, keep: T -> bool): (r: seq<T>)
    ensures |r| <= |s|
    ensures forall x :: x in r ==> x in s && keep(x)
    ensures forall x :: x in s && keep(x) ==> x in r
  {
    if s == [] then []
    else if keep(s[0]) then [s[0]] + Filter(s[1..], keep)
    else Filter(s[1..], keep)
  }

  /** `s.filter(keep).length`. */
  function Count<T>(s: seq<T>, keep: T -> bool): nat {
    |Filter(s, keep)|
  }

  /** `r` is `s` with some elements left out and the rest in their order. */
  ghost predicate Subsequence<T>(r: seq<T>, s: seq<T>)
    decreases |s|
  {
    r == [] || (s != [] && ((r[0] == s[0] && Subsequence(r[1..], s[1..])) || Subsequence(r, s[1..])))
  }

  lemma {:induction false} FilterIsSubsequence<T>(s: seq<T>, keep: T -> bool)
    ensures Subsequence(Filter(s, keep), s)
    decreases |s|
  {
    if s != [] {
      FilterIsSubsequence(s[1..], keep);
      var r := Filter(s, keep);
      if keep(s[0]) {
        assert r[0] == s[0] && r[1..] == Filter(s[1..], keep);
      }
    }
  }

  /** Filtering a concatenation filters each part: order is kept. */
  lemma {:induction false} FilterConcat<T>(a: seq<T>, b: seq<T>, keep: T -> bool)
    ensures Filter(a + b, keep) == Filter(a, keep) + Filter(b, keep)
    decreases |a|
  {
    if a == [] {
      assert a + b == b;
    } else {
      var ab := a + b;
      assert ab[0] == a[0] && ab[1..] == a[1..] + b;
      FilterConcat(a[1..], b, keep);
      if keep(a[0]) {
        calc {
          Filter(ab, keep);
          [a[0]] + Filter(a[1..] + b, keep);
          [a[0]] + (Filter(a[1..], keep) + Filter(b, keep));
          ([a[0]] + Filter(a[1..], keep)) + Filter(b, keep);
        }
      } else {
        assert Filter(ab, keep) == Filter(a[1..] + b, keep);
      }
    }
  }

  /** Keeping everything keeps the sequence as it is. */
  lemma {:induction false} FilterAll<T>(s: seq<T>, keep: T -> bool)
    requires forall x :: x in s ==> keep(x)
    ensures Filter(s, keep) == s
    decreases |s|
  {
    if s != [] {
      FilterAll(s[1..], keep);
    }
  }

  /** Filters that agree on the elements of `s` keep the same elements. */
  lemma {:induction false} FilterSame<T>(s: seq<T>, p: T -> bool, q: T -> bool)
    requires forall x :: x in s ==> (p(x) <==> q(x))
    ensures Filter(s, p) == Filter(s, q)
    decreases |s|
  {
    if s != [] {
      FilterSame(s[1..], p, q);
    }
  }

  /** Counting is monotone in the filter. */
  lemma {:induction false} CountMono<T>(s: seq<T>, p: T -> bool, q: T -> bool)
    requires forall x :: x in s && p(x) ==> q(x)
    ensures Count(s, p) <= Count(s, q)
    decreases |s|
  {
    if s != [] {
      CountMono(s[1..], p, q);
    }
  }

  /** Two filters that never both keep an element count no more than the sequence holds. */
  lemma {:induction false} CountDisjoint<T>(s: seq<T>, p: T -> bool, q: T -> bool, both: T -> bool)
    requires forall x :: x in s ==> !(p(x) && q(x))
    requires forall x :: x in s ==> (both(x) <==> p(x) || q(x))
    ensures Count(s, p) + Count(s, q) == Count(s, both)
    decreases |s|
  {
    if s != [] {
      CountDisjoint(s[1..], p, q, both);
    }
  }

  /** The elements a filter drops plus the ones it keeps are all of them. */
  lemma {:induction false} CountComplement<T>(s: seq<T>, p: T -> bool, notP: T -> bool)
    requires forall x :: x in s ==> (notP(x) <==> !p(x))
    ensures Count(s, p) + Count(s, notP) == |s|
    decreases |s|
  {
    if s != [] {
      CountComplement(s[1..], p, notP);
    }
  }

  /** Counting over a concatenation adds up. */
  lemma CountConcat<T>(a: seq<T>, b: seq<T>, keep: T -> bool)
    ensures Count(a + b, keep) == Count(a, keep) + Count(b, keep)
  {
    FilterConcat(a, b, keep);
  }

  /** A filter that keeps nothing counts zero. */
  lemma {:induction false} CountNone<T>(s: seq<T>, keep: T -> bool)
    requires forall x :: x in s ==> !keep(x)
    ensures Count(s, keep) == 0
    decreases |s|
  {
    if s != [] {
      CountNone(s[1..], keep);
    }
  }

  /** Counting does not depend on the order of the elements. */
  lemma {:induction false} CountPermutation<T>(a: seq<T>, b: seq<T>, keep: T -> bool)
    requires multiset(a) == multiset(b)
    ensures Count(a, keep) == Count(b, keep)
    decreases |a|
  {
    if a == [] {
      assert |b| == |multiset(b)| == 0;
    } else {
      var x := a[0];
      assert x in multiset(b);
      var i :| 0 <= i < |b| && b[i] == x;
      var b' := b[..i] + b[i + 1..];
      assert b == b[..i] + [x] + b[i + 1..];
      assert a == [x] + a[1..];
      assert multiset(b) == multiset(b[..i]) + multiset{x} + multiset(b[i + 1..]);
      assert multiset(b') == multiset(b[..i]) + multiset(b[i + 1..]);
      assert multiset(a) == multiset{x} + multiset(a[1..]);
      assert multiset(a[1..]) == multiset(a) - multiset{x};
      assert multiset(b') == multiset(b) - multiset{x};
      CountPermutation(a[1..], b', keep);
      CountConcat(b[..i], b[i + 1..], keep);
      CountConcat(b[..i] + [x], b[i + 1..], keep);
      CountConcat(b[..i], [x], keep);
      CountConcat([x], a[1..], keep);
    }
  }

  /** When nothing from position `m` on is kept, at most `m` elements are. */
  lemma CountPrefixBound<T>(s: seq<T>, keep: T -> bool, m: nat)
    requires m <= |s|
    requires forall i :: m <= i < |s| ==> !keep(s[i])
    ensures Count(s, keep) <= m
  {
    assert s == s[..m] + s[m..];
    CountConcat(s[..m], s[m..], keep);
    CountNone(s[m..], keep);
  }

  /** When nothing before position `m` is kept, at most `|s| - m` elements are. */
  lemma CountSuffixBound<T>(s: seq<T>, keep: T -> bool, m: nat)
    requires m <= |s|
    requires forall i :: 0 <= i < m ==> !keep(s[i])
    ensures Count(s, keep) <= |s| - m
  {
    assert s == s[..m] + s[m..];
    CountConcat(s[..m], s[m..], keep);
    CountNone(s[..m], keep);
  }

  /** `s.map(f)`. */
  function Map<T, U>(s: seq<T>, f: T -> U): seq<U> {
    seq(|s|, i requires 0 <= i < |s| => f(s[i]))
  }

  lemma {:induction false} MapOccurrencesEq<T, U>(s: seq<T>, f: T -> U, u: U)
    ensures multiset(Map(s, f))[u] == Count(s, x => f(x) == u)
    decreases |s|
  {
    if s != [] {
      MapOccurrencesEq(s[1..], f, u);
      assert Map(s, f) == [f(s[0])] + Map(s[1..], f);
    }
  }

  /**
   How often a value occurs among the mapped elements is how many elements
   `keep` keeps, when `keep` keeps exactly the elements mapped to it.
   */
  lemma MapOccurrences<T, U>(s: seq<T>, f: T -> U, u: U, keep: T -> bool)
    requires forall x :: x in s ==> (keep(x) <==> f(x) == u)
    ensures multiset(Map(s, f))[u] == Count(s, keep)
  {
    MapOccurrencesEq(s, f, u);
    FilterSame(s, x => f(x) == u, keep);
  }
}
