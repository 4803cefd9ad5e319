/** Sequence helpers shared by the passes: Python's list.remove, filtering and subsequences. */
module Sequences {

  /** Python's `list.remove(x)`: drops the first occurrence of `x`. */
  function RemoveFirst<T(==)>(s: seq<T>, x: T): (r: seq<T>)
    requires x in s
    ensures |r| == |s| - 1
    ensures forall y :: y in r ==> y in s
  {
    assert s == [s[0]] + s[1..];
    if s[0] == x then s[1..] else [s[0]] + RemoveFirst(s[1..], x)
  }

  /** `list.remove(x)` takes exactly one copy of `x` away and leaves every other element. */
  lemma {:induction false} RemoveFirstCount<T>(s: seq<T>, x: T)
    requires x in s
    ensures multiset(RemoveFirst(s, x)) == multiset(s) - multiset{x}
    decreases |s|
  {
    assert s == [s[0]] + s[1..];
    if s[0] != x {
      RemoveFirstCount(s[1..], x);
    }
  }

  /** A prefix one longer is the prefix with the next element appended. */
  lemma TakeNext<T>(s: seq<T>, i: nat)
    requires i < |s|
    ensures s[..i + 1] == s[..i] + [s[i]]
  {
  }

  /** How often `x` occurs in `s`. */
  function Occurrences<T(==)>(s: seq<T>, x: T): nat
    decreases |s|
  {
    if s == [] then 0 else (if s[0] == x then 1 else 0) + Occurrences(s[1..], x)
  }

  /** Appending `y` adds one occurrence of `y` and none of anything else. */
  lemma {:induction false} OccurrencesSnoc<T>(s: seq<T>, y: T, x: T)
    ensures Occurrences(s + [y], x) == Occurrences(s, x) + (if y == x then 1 else 0)
    decreases |s|
  {
    if s != [] {
      assert (s + [y])[1..] == s[1..] + [y];
      OccurrencesSnoc(s[1..], y, x);
    }
  }

  /** `x` occurs in `s` exactly when it is an element of `s`. */
  lemma {:induction false} OccurrencesPositive<T>(s: seq<T>, x: T)
    ensures Occurrences(s, x) > 0 <==> x in s
    decreases |s|
  {
    if s != [] {
      OccurrencesPositive(s[1..], x);
      assert s == [s[0]] + s[1..];
    }
  }

  /** The element at `k` occurs in `s` more often than in the prefix before it. */
  lemma OccurrencesPrefix<T>(s: seq<T>, k: nat)
    requires k < |s|
    ensures Occurrences(s[..k], s[k]) + 1 <= Occurrences(s, s[k])
  {
    var front, back := s[..k + 1], s[k + 1..];
    assert front == s[..k] + [s[k]];
    OccurrencesSnoc(s[..k], s[k], s[k]);
    assert front + back == s;
    OccurrencesAppend(front, back, s[k]);
  }

  lemma {:induction false} OccurrencesAppend<T>(a: seq<T>, b: seq<T>, x: T)
    ensures Occurrences(a + b, x) == Occurrences(a, x) + Occurrences(b, x)
    decreases |a|
  {
    if a == [] {
      assert a + b == b;
    } else {
      assert (a + b)[1..] == a[1..] + b;
      OccurrencesAppend(a[1..], b, x);
    }
  }

  /** `list.remove(x)` takes away exactly one occurrence of `x`. */
  lemma {:induction false} RemoveFirstOccurrences<T>(s: seq<T>, x: T)
    requires x in s
    ensures Occurrences(RemoveFirst(s, x), x) == Occurrences(s, x) - 1
    decreases |s|
  {
    if s[0] != x {
      assert s == [s[0]] + s[1..];
      RemoveFirstOccurrences(s[1..], x);
      assert ([s[0]] + RemoveFirst(s[1..], x))[1..] == RemoveFirst(s[1..], x);
    }
  }

  /**
   * `k` calls of `list.remove(x)` in a row, stopping where Python would raise because no copy
   * of `x` is left.
   */
  function RemoveCopies<T(==)>(s: seq<T>, x: T, k: nat): seq<T>
    decreases k
  {
    if k == 0 then s
    else
      var t := RemoveCopies(s, x, k - 1);
      if x in t then RemoveFirst(t, x) else t
  }

  /** Exactly `k` copies of `x` go when there are enough, all of them otherwise. */
  lemma {:induction false} RemoveCopiesCount<T>(s: seq<T>, x: T, k: nat)
    ensures Occurrences(RemoveCopies(s, x, k), x) == if Occurrences(s, x) >= k then Occurrences(s, x) - k else 0
    decreases k
  {
    if k > 0 {
      var t := RemoveCopies(s, x, k - 1);
      RemoveCopiesCount(s, x, k - 1);
      OccurrencesPositive(t, x);
      if x in t {
        RemoveFirstOccurrences(t, x);
      }
    }
  }

  /** Removing copies keeps nothing that was not there. */
  lemma {:induction false} RemoveCopiesWithin<T>(s: seq<T>, x: T, k: nat)
    ensures forall y <- RemoveCopies(s, x, k) :: y in s
    decreases k
  {
    if k > 0 {
      RemoveCopiesWithin(s, x, k - 1);
    }
  }

  /** Nothing can be removed from an empty list. */
  lemma {:induction false} RemoveCopiesEmpty<T>(x: T, k: nat)
    ensures RemoveCopies([], x, k) == []
    decreases k
  {
    if k > 0 {
      RemoveCopiesEmpty(x, k - 1);
    }
  }

  /** The elements of `s` that satisfy `keep`, in their original order. */
  function Filter<T>(s: seq<T>, keep: T -> bool): (r: seq<T>)
    ensures |r| <= |s|
    ensures forall y :: y in r ==> y in s && keep(y)
    decreases |s|
  {
    if s == [] then []
    else Filter(s[..|s| - 1], keep) + (if keep(s[|s| - 1]) then [s[|s| - 1]] else [])
  }

  lemma {:induction false} FilterKeeps<T>(s: seq<T>, keep: T -> bool, y: T)
    requires y in s && keep(y)
    ensures y in Filter(s, keep)
    decreases |s|
  {
    if s[|s| - 1] != y {
      assert s == s[..|s| - 1] + [s[|s| - 1]];
      FilterKeeps(s[..|s| - 1], keep, y);
    }
  }

  /** `a` is `b` with some elements left out: greedy matching from the back. */
  predicate IsSubseq<T(==)>(a: seq<T>, b: seq<T>)
    decreases |b|
  {
    if a == [] then true
    else if b == [] then false
    else if a[|a| - 1] == b[|b| - 1] then IsSubseq(a[..|a| - 1], b[..|b| - 1])
    else IsSubseq(a, b[..|b| - 1])
  }

  lemma {:induction false} SubseqDropLast<T>(a: seq<T>, b: seq<T>)
    requires a != [] && IsSubseq(a, b)
    ensures IsSubseq(a[..|a| - 1], b)
    decreases |b|
  {
    var a', b' := a[..|a| - 1], b[..|b| - 1];
    if a[|a| - 1] == b[|b| - 1] {
      if a' != [] && a'[|a'| - 1] == b[|b| - 1] {
        SubseqDropLast(a', b');
      }
    } else {
      SubseqDropLast(a, b');
      if a' != [] && a'[|a'| - 1] == b[|b| - 1] {
        SubseqDropLast(a', b');
      }
    }
  }

  lemma {:induction false} SubseqExtend<T>(a: seq<T>, b: seq<T>, c: seq<T>)
    requires IsSubseq(a, b)
    ensures IsSubseq(a, b + c)
    decreases |c|
  {
    if c == [] {
      assert b + c == b;
    } else if a != [] {
      var c' := c[..|c| - 1];
      assert (b + c)[..|b + c| - 1] == b + c';
      assert (b + c)[|b + c| - 1] == c[|c| - 1];
      SubseqExtend(a, b, c');
      if a[|a| - 1] == c[|c| - 1] {
        SubseqDropLast(a, b + c');
        assert IsSubseq(a[..|a| - 1], (b + c)[..|b + c| - 1]);
      } else {
        assert IsSubseq(a, (b + c)[..|b + c| - 1]);
      }
    }
  }

  lemma {:induction false} SubseqAppendBoth<T>(a: seq<T>, b: seq<T>, c: seq<T>)
    requires IsSubseq(a, b)
    ensures IsSubseq(a + c, b + c)
    decreases |c|
  {
    if c == [] {
      assert a + c == a && b + c == b;
    } else {
      var c' := c[..|c| - 1];
      assert (a + c)[..|a + c| - 1] == a + c';
      assert (b + c)[..|b + c| - 1] == b + c';
      assert (a + c)[|a + c| - 1] == (b + c)[|b + c| - 1];
      SubseqAppendBoth(a, b, c');
      assert IsSubseq((a + c)[..|a + c| - 1], (b + c)[..|b + c| - 1]);
    }
  }

  lemma {:induction false} SubseqRefl<T>(a: seq<T>)
    ensures IsSubseq(a, a)
    decreases |a|
  {
    if a != [] {
      SubseqRefl(a[..|a| - 1]);
    }
  }

  /** Filtering keeps the survivors in their original relative order. */
  lemma {:induction false} FilterIsSubseq<T>(s: seq<T>, keep: T -> bool)
    ensures IsSubseq(Filter(s, keep), s)
    decreases |s|
  {
    if s != [] {
      var init := s[..|s| - 1];
      FilterIsSubseq(init, keep);
      assert s == init + [s[|s| - 1]];
      if keep(s[|s| - 1]) {
        SubseqAppendBoth(Filter(init, keep), init, [s[|s| - 1]]);
      } else {
        assert Filter(s, keep) == Filter(init, keep);
        SubseqExtend(Filter(init, keep), init, [s[|s| - 1]]);
      }
    }
  }
  /** Filtering by two tests that agree on every element gives the same result. */
  lemma {:induction false} FilterCongruent<T>(s: seq<T>, keep: T -> bool, keep': T -> bool)
    requires forall y <- s :: keep(y) == keep'(y)
    ensures Filter(s, keep) == Filter(s, keep')
    decreases |s|
  {
    if s != [] {
      FilterCongruent(s[..|s| - 1], keep, keep');
    }
  }

  /** Filtering keeps everything when every element passes. */
  lemma {:induction false} FilterAllKept<T>(s: seq<T>, keep: T -> bool)
    requires forall y <- s :: keep(y)
    ensures Filter(s, keep) == s
    decreases |s|
  {
    if s != [] {
      FilterAllKept(s[..|s| - 1], keep);
      assert s == s[..|s| - 1] + [s[|s| - 1]];
    }
  }

  /** Each element that passes keeps all its occurrences; the others lose all of theirs. */
  lemma {:induction false} FilterCount<T>(s: seq<T>, keep: T -> bool, y: T)
    ensures multiset(Filter(s, keep))[y] == if keep(y) then multiset(s)[y] else 0
    decreases |s|
  {
    if s != [] {
      FilterCount(s[..|s| - 1], keep, y);
      assert s == s[..|s| - 1] + [s[|s| - 1]];
    }
  }
}
