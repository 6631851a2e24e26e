/**
 * The array operations the dashboard uses: `slice` with JavaScript's index clamping,
 * `filter`, and de-duplication in first-occurrence order (a `Set` built from an
 * array, or the keys of an object filled in array order).
 */
module Seqs {

  /** How `slice` resolves one of its indices against a length: a negative index
      counts from the end, and the result is clamped to [0, len]. */
  function ClampIndex(i: int, len: nat): (r: nat)
    ensures r <= len
    ensures 0 <= i <= len ==> r == i
    ensures i > len ==> r == len
    ensures i < 0 ==> r == if len + i < 0 then 0 else len + i
  {
    if i < 0 then (if len + i < 0 then 0 else len + i)
    else if i > len then len
    else i
  }

  /** `s.slice(start, end)` for arrays and strings. */
  function Slice<T>(s: seq<T>, start: int, end: int): seq<T>
  {
    var a, b := ClampIndex(start, |s|), ClampIndex(end, |s|);
    if a < b then s[a..b] else []
  }

  function Min(a: int, b: int): int {
    if a < b then a else b
  }

  /** What `slice` takes from `s`: for non-negative indices the part between them,
      each cut down to the length of `s`; `slice(0, n)` the first n elements, or all
      of a shorter `s`; and `slice(-k, len)` for k > 0 the last k elements, or all of
      a shorter `s`. */
  lemma SliceFacts<T>(s: seq<T>, start: nat, end: nat, k: nat)
    ensures start <= end ==> Slice(s, start, end) == s[Min(start, |s|)..Min(end, |s|)]
    ensures Slice(s, 0, end) == s[..Min(end, |s|)]
    ensures k > 0 ==> Slice(s, -(k as int), |s|) == s[(if |s| < k then 0 else |s| - k)..]
  {
  }

  /** Every pair of positions holds different elements. */
  ghost predicate Distinct<T>(s: seq<T>) {
    forall i, j :: 0 <= i < j < |s| ==> s[i] != s[j]
  }

  /** `s.filter(p)`. */
  function Filter<T>(p: T -> bool, s: seq<T>): seq<T>
  {
    if s == [] then []
    else Filter(p, s[..|s| - 1]) + (if p(s[|s| - 1]) then [s[|s| - 1]] else [])
  }

  lemma {:induction false} FilterAppend<T>(p: T -> bool, a: seq<T>, b: seq<T>)
    ensures Filter(p, a + b) == Filter(p, a) + Filter(p, b)
  {
    if b != [] {
      var b' := b[..|b| - 1];
      assert (a + b)[..|a + b| - 1] == a + b';
      FilterAppend(p, a, b');
    } else {
      assert a + b == a;
    }
  }

  /** The filtered array holds exactly the elements of `s` that pass `p`, and is no
      longer than `s`. */
  lemma {:induction false} FilterMembers<T>(p: T -> bool, s: seq<T>)
    ensures |Filter(p, s)| <= |s|
    ensures forall x :: x in Filter(p, s) <==> x in s && p(x)
  {
    if s != [] {
      var s' := s[..|s| - 1];
      FilterMembers(p, s');
      assert s == s' + [s[|s| - 1]];
    }
  }

  /** Two tests that agree on every element of `s` keep the same elements. */
  lemma {:induction false} FilterExt<T>(p: T -> bool, q: T -> bool, s: seq<T>)
    requires forall i :: 0 <= i < |s| ==> p(s[i]) == q(s[i])
    ensures Filter(p, s) == Filter(q, s)
  {
    if s != [] {
      var s' := s[..|s| - 1];
      assert forall i :: 0 <= i < |s'| ==> s'[i] == s[i];
      FilterExt(p, q, s');
    }
  }

  /** A test that every element passes keeps the whole sequence. */
  lemma {:induction false} FilterAll<T>(p: T -> bool, s: seq<T>)
    requires forall i :: 0 <= i < |s| ==> p(s[i])
    ensures Filter(p, s) == s
  {
    if s != [] {
      var s' := s[..|s| - 1];
      assert forall i :: 0 <= i < |s'| ==> s'[i] == s[i];
      FilterAll(p, s');
    }
  }

  /** `idx` lists, in increasing order, positions of `b` that spell out `a`. */
  ghost predicate Embedding<T>(idx: seq<int>, a: seq<T>, b: seq<T>) {
    && |idx| == |a|
    && (forall k :: 0 <= k < |idx| ==> 0 <= idx[k] < |b| && b[idx[k]] == a[k])
    && (forall k, l :: 0 <= k < l < |idx| ==> idx[k] < idx[l])
  }

  /** `a` is an order-preserving subsequence of `b`. */
  ghost predicate IsSubsequence<T>(a: seq<T>, b: seq<T>) {
    exists idx :: Embedding(idx, a, b)
  }

  lemma {:induction false} FilterIsSubsequence<T>(p: T -> bool, s: seq<T>)
    ensures IsSubsequence(Filter(p, s), s)
  {
    if s == [] {
      assert Embedding([], Filter(p, s), s);
    } else {
      var s' := s[..|s| - 1];
      FilterIsSubsequence(p, s');
      var idx :| Embedding(idx, Filter(p, s'), s');
      if p(s[|s| - 1]) {
        var idx' := idx + [|s| - 1];
        assert Filter(p, s) == Filter(p, s') + [s[|s| - 1]];
        assert Embedding(idx', Filter(p, s), s);
      } else {
        assert Embedding(idx, Filter(p, s), s);
      }
    }
  }

  /** The distinct elements of `s`, each at the place where it first occurs. */
  function Dedup<T(==)>(s: seq<T>): seq<T>
  {
    if s == [] then []
    else
      var d := Dedup(s[..|s| - 1]);
      if s[|s| - 1] in d then d else d + [s[|s| - 1]]
  }

  /** De-duplication keeps every element once and invents none. */
  lemma {:induction false} DedupFacts<T>(s: seq<T>)
    ensures Distinct(Dedup(s))
    ensures forall x :: x in Dedup(s) <==> x in s
    ensures |Dedup(s)| <= |s|
  {
    if s != [] {
      var s' := s[..|s| - 1];
      DedupFacts(s');
      assert s == s' + [s[|s| - 1]];
    }
  }

  /** First-occurrence order: what `a` contributes keeps its place however the
      sequence goes on, and later elements only ever come after it. */
  lemma {:induction false} DedupPrefix<T>(a: seq<T>, b: seq<T>)
    ensures Dedup(a) <= Dedup(a + b)
  {
    if b != [] {
      var b' := b[..|b| - 1];
      assert (a + b)[..|a + b| - 1] == a + b';
      DedupPrefix(a, b');
    } else {
      assert a + b == a;
    }
  }

  /** An element that stands at two positions is counted at least twice. */
  lemma TwiceCounted<T>(s: seq<T>, i: nat, j: nat)
    requires i < j < |s| && s[i] == s[j]
    ensures multiset(s)[s[i]] >= 2
  {
    assert s == s[..j] + [s[j]] + s[j + 1..];
    assert s[i] in s[..j];
  }

  /** In a sequence without repetition, every element is counted at most once. */
  lemma {:induction false} DistinctCountedOnce<T>(s: seq<T>, x: T)
    requires Distinct(s)
    ensures multiset(s)[x] <= 1
  {
    if s != [] {
      var s' := s[..|s| - 1];
      assert s == s' + [s[|s| - 1]];
      DistinctCountedOnce(s', x);
      if s[|s| - 1] == x {
        assert x !in s';
      }
    }
  }

  /** A permutation of a sequence without repetition has no repetition either. */
  lemma DistinctPermutation<T>(a: seq<T>, b: seq<T>)
    requires multiset(a) == multiset(b)
    requires Distinct(a)
    ensures Distinct(b)
  {
    forall i, j | 0 <= i < j < |b|
      ensures b[i] != b[j]
    {
      if b[i] == b[j] {
        TwiceCounted(b, i, j);
        DistinctCountedOnce(a, b[i]);
        assert false;
      }
    }
  }
}
