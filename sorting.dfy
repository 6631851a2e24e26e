/**
 * `Array.prototype.sort` with a comparator `(a, b) => key(b) - key(a)`: a stable sort
 * into non-increasing order of an integer key. A stable sort has exactly one
 * possible result, so the model computes it by insertion, taking the elements from
 * the back of the input.
 */
module Sorting {

  import Seqs

  /** Elements are in non-increasing order of `key`. */
  ghost predicate SortedDesc<T>(key: T -> int, s: seq<T>) {
    forall i, j :: 0 <= i < j < |s| ==> key(s[i]) >= key(s[j])
  }

  /** The elements of `s` whose key is `c`, in their order in `s`. */
  function WithKey<T>(key: T -> int, s: seq<T>, c: int): seq<T> {
    Seqs.Filter(x => key(x) == c, s)
  }

  /** Puts `x` behind every element of `t` whose key is at least `key(x)`. */
  function InsertLast<T>(key: T -> int, t: seq<T>, x: T): (r: seq<T>)
    ensures |r| == |t| + 1
  {
    if t == [] || key(t[|t| - 1]) >= key(x) then t + [x]
    else InsertLast(key, t[..|t| - 1], x) + [t[|t| - 1]]
  }

  /** `[...s].sort((a, b) => key(b) - key(a))`; the result has as many elements as
      the input. */
  function SortDesc<T>(key: T -> int, s: seq<T>): (r: seq<T>)
    ensures |r| == |s|
  {
    if s == [] then [] else InsertLast(key, SortDesc(key, s[..|s| - 1]), s[|s| - 1])
  }

  /** Insertion adds exactly `x`. */
  lemma {:induction false} InsertLastPermutes<T>(key: T -> int, t: seq<T>, x: T)
    ensures multiset(InsertLast(key, t, x)) == multiset(t) + multiset{x}
  {
    if !(t == [] || key(t[|t| - 1]) >= key(x)) {
      var t', last := t[..|t| - 1], t[|t| - 1];
      assert t == t' + [last];
      InsertLastPermutes(key, t', x);
    }
  }

  /** Inserting into a sorted sequence keeps it sorted. */
  lemma {:induction false} InsertLastSorted<T>(key: T -> int, t: seq<T>, x: T)
    requires SortedDesc(key, t)
    ensures SortedDesc(key, InsertLast(key, t, x))
  {
    if !(t == [] || key(t[|t| - 1]) >= key(x)) {
      var t', last := t[..|t| - 1], t[|t| - 1];
      InsertLastSorted(key, t', x);
      InsertLastPermutes(key, t', x);
      var u := InsertLast(key, t', x);
      forall i | 0 <= i < |u|
        ensures key(u[i]) >= key(last)
      {
        assert u[i] in multiset(u);
        if u[i] != x {
          assert u[i] in multiset(t');
          var k :| 0 <= k < |t'| && t'[k] == u[i];
          assert t[k] == u[i];
        }
      }
      var r := u + [last];
      forall i, j | 0 <= i < j < |r|
        ensures key(r[i]) >= key(r[j])
      {
        if j < |u| {
          assert r[i] == u[i] && r[j] == u[j];
        } else {
          assert r[i] == u[i] && r[j] == last;
        }
      }
    }
  }

  /** Insertion puts `x` after every element with the same key. */
  lemma {:induction false} InsertLastStable<T>(key: T -> int, t: seq<T>, x: T, c: int)
    ensures WithKey(key, InsertLast(key, t, x), c)
         == WithKey(key, t, c) + (if key(x) == c then [x] else [])
  {
    var p := (y: T) => key(y) == c;
    if t == [] || key(t[|t| - 1]) >= key(x) {
      Seqs.FilterAppend(p, t, [x]);
      assert Seqs.Filter(p, [x]) == Seqs.Filter(p, [][..0]) + (if p(x) then [x] else []);
    } else {
      var t', last := t[..|t| - 1], t[|t| - 1];
      assert t == t' + [last];
      InsertLastStable(key, t', x, c);
      var u := InsertLast(key, t', x);
      Seqs.FilterAppend(p, u, [last]);
      Seqs.FilterAppend(p, t', [last]);
      assert Seqs.Filter(p, [last]) == Seqs.Filter(p, [][..0]) + (if p(last) then [last] else []);
    }
  }

  /** The sort orders by key, loses and invents nothing, and keeps elements with equal
      keys in their input order. */
  lemma {:induction false} SortDescCorrect<T>(key: T -> int, s: seq<T>)
    ensures SortedDesc(key, SortDesc(key, s))
    ensures multiset(SortDesc(key, s)) == multiset(s)
    ensures forall c :: WithKey(key, SortDesc(key, s), c) == WithKey(key, s, c)
  {
    if s != [] {
      var s', last := s[..|s| - 1], s[|s| - 1];
      assert s == s' + [last];
      SortDescCorrect(key, s');
      InsertLastSorted(key, SortDesc(key, s'), last);
      InsertLastPermutes(key, SortDesc(key, s'), last);
      forall c
        ensures WithKey(key, SortDesc(key, s), c) == WithKey(key, s, c)
      {
        InsertLastStable(key, SortDesc(key, s'), last, c);
      }
    }
  }

  /** Insertion into a sorted sequence leaves in place every element whose key is at
      least `key(x)`; this is the step an in-place insertion sort performs. */
  lemma {:induction false} InsertLastSplit<T>(key: T -> int, t: seq<T>, j: nat, x: T)
    requires j <= |t|
    requires forall k :: j <= k < |t| ==> key(t[k]) < key(x)
    ensures InsertLast(key, t, x) == InsertLast(key, t[..j], x) + t[j..]
  {
    if j == |t| {
      assert t[..j] == t;
    } else {
      var t' := t[..|t| - 1];
      InsertLastSplit(key, t', j, x);
      assert t'[..j] == t[..j];
      assert t'[j..] + [t[|t| - 1]] == t[j..];
    }
  }

  /** `x` inserted behind an element with at least its key stays last. */
  lemma InsertBehind<T>(key: T -> int, h: seq<T>, x: T)
    requires h == [] || key(h[|h| - 1]) >= key(x)
    ensures InsertLast(key, h, x) == h + [x]
  {
  }

  /** `u` holds `t` up to position `j`, then `x`, then the rest of `t`. */
  lemma ShiftedSlices<T>(t: seq<T>, x: T, j: nat, u: seq<T>)
    requires j <= |t| < |u|
    requires forall k {:trigger u[k]} :: 0 <= k < j ==> u[k] == t[k]
    requires u[j] == x
    requires forall k {:trigger u[k]} :: j < k <= |t| ==> u[k] == t[k - 1]
    ensures u[..|t| + 1] == t[..j] + [x] + t[j..]
  {
    assert u[..j] == t[..j];
    assert u[j + 1..|t| + 1] == t[j..];
    assert u[..|t| + 1] == u[..j] + [u[j]] + u[j + 1..|t| + 1];
  }

  /** The sequence an in-place insertion step leaves behind: `t` up to position `j`,
      then `x`, then the rest of `t` moved one place right, where `x` has a smaller
      key than everything it passed and no smaller key than what it stopped behind. */
  lemma InsertLastShape<T>(key: T -> int, t: seq<T>, x: T, j: nat, u: seq<T>)
    requires j <= |t| < |u|
    requires forall k {:trigger u[k]} :: 0 <= k < j ==> u[k] == t[k]
    requires u[j] == x
    requires forall k {:trigger u[k]} :: j < k <= |t| ==> u[k] == t[k - 1]
    requires forall k :: j <= k < |t| ==> key(t[k]) < key(x)
    requires j == 0 || key(t[j - 1]) >= key(x)
    ensures u[..|t| + 1] == InsertLast(key, t, x)
  {
    InsertLastSplit(key, t, j, x);
    var head := t[..j];
    if j > 0 {
      assert head[|head| - 1] == t[j - 1];
    }
    InsertBehind(key, head, x);
    ShiftedSlices(t, x, j, u);
  }

  /** The credits of a (credits, name) pair. */
  function PairCredits(p: (int, string)): int {
    p.0
  }

  /** The first three of the example below: 50, 100, 100 sort to 100, 100, 50. */
  lemma RankStabilityPrefix()
    ensures SortDesc(PairCredits, [(50, "a"), (100, "b"), (100, "c")]) == [(100, "b"), (100, "c"), (50, "a")]
  {
    var s := [(50, "a"), (100, "b"), (100, "c")];
    assert s[..2] == [(50, "a"), (100, "b")] && s[..2][..1] == [(50, "a")];
    assert [(50, "a")][..0] == [];
    assert SortDesc(PairCredits, [(50, "a")]) == InsertLast(PairCredits, [], (50, "a")) == [(50, "a")];
    assert InsertLast(PairCredits, [(50, "a")], (100, "b"))
        == InsertLast(PairCredits, [], (100, "b")) + [(50, "a")];
    assert SortDesc(PairCredits, s[..2]) == [(100, "b"), (50, "a")];
    assert [(100, "b"), (50, "a")][..1] == [(100, "b")];
    InsertBehind(PairCredits, [(100, "b")], (100, "c"));
    assert InsertLast(PairCredits, [(100, "b"), (50, "a")], (100, "c"))
        == InsertLast(PairCredits, [(100, "b")], (100, "c")) + [(50, "a")];
  }

  /** Credits 50, 100, 100, 10 in that order sort to 100, 100, 50, 10, with the two
      nodes of 100 credits in their input order, so their 1-based ranks are 4, 1, 2
      and 3. */
  lemma RankStabilityExample()
    ensures SortDesc(PairCredits, [(50, "a"), (100, "b"), (100, "c"), (10, "d")])
         == [(100, "b"), (100, "c"), (50, "a"), (10, "d")]
  {
    var s := [(50, "a"), (100, "b"), (100, "c"), (10, "d")];
    assert s[..3] == [(50, "a"), (100, "b"), (100, "c")];
    RankStabilityPrefix();
    InsertBehind(PairCredits, [(100, "b"), (100, "c"), (50, "a")], (10, "d"));
  }
}
