/**
 * Python's `sorted(xs, key=...)` is a stable sort. It is modelled by a stable
 * insertion sort over a total preorder `le`; the lemmas below show that its
 * result is a sorted permutation of the input that keeps tied elements in input
 * order, which determines the result uniquely whatever algorithm produced it.
 */
module Sorting {

  import opened Seqs

  ghost predicate IsTotalPreorder<T(!new)>(le: (T, T) -> bool)
  {
    && (forall a, b :: le(a, b) || le(b, a))
    && (forall a, b, c :: le(a, b) && le(b, c) ==> le(a, c))
  }

  predicate SortedBy<T>(s: seq<T>, le: (T, T) -> bool)
  {
    forall i, j | 0 <= i < j < |s| :: le(s[i], s[j])
  }

  /**
   * Tied elements (each `le` the other) appear in the order `before` gives;
   * elements that are not tied appear in `le` order.
   */
  predicate StableBy<T>(s: seq<T>, le: (T, T) -> bool, before: (T, T) -> bool)
  {
    forall i, j | 0 <= i < j < |s| :: !le(s[j], s[i]) || before(s[i], s[j])
  }

  /** `x` goes after every element that is `le` it, so after the elements it ties with. */
  function Insert<T>(s: seq<T>, x: T, le: (T, T) -> bool): (r: seq<T>)
    ensures multiset(r) == multiset(s) + multiset{x}
    ensures |r| == |s| + 1
  {
    if s == [] then [x]
    else if le(s[0], x) then
      assert s == [s[0]] + s[1..];
      [s[0]] + Insert(s[1..], x, le)
    else [x] + s
  }

  /** Inserts the elements one at a time, in input order. */
  function Sort<T>(s: seq<T>, le: (T, T) -> bool): (r: seq<T>)
    ensures multiset(r) == multiset(s)
    ensures |r| == |s|
  {
    if s == [] then []
    else
      assert s == s[..|s| - 1] + [s[|s| - 1]];
      Insert(Sort(s[..|s| - 1], le), s[|s| - 1], le)
  }

  lemma {:induction false} InsertSorted<T(!new)>(s: seq<T>, x: T, le: (T, T) -> bool)
    requires IsTotalPreorder(le)
    requires SortedBy(s, le)
    ensures SortedBy(Insert(s, x, le), le)
  {
    if s != [] && le(s[0], x) {
      InsertSorted(s[1..], x, le);
      InsertAbove(s[1..], x, le, s[0]);
    } else if s != [] {
      var r := Insert(s, x, le);
      forall j | 0 < j < |r| ensures le(x, r[j]) {
        assert r[j] == s[j - 1];
        assert le(s[0], r[j]);
      }
    }
  }

  /** A lower bound of `x` and of every element of `s` bounds every element after the insertion. */
  lemma InsertAbove<T>(s: seq<T>, x: T, le: (T, T) -> bool, low: T)
    requires le(low, x) && forall i | 0 <= i < |s| :: le(low, s[i])
    ensures forall j | 0 <= j < |Insert(s, x, le)| :: le(low, Insert(s, x, le)[j])
  {
    var r := Insert(s, x, le);
    forall j | 0 <= j < |r| ensures le(low, r[j]) {
      assert r[j] in multiset(r);
      if r[j] != x {
        assert r[j] in multiset(s);
        var k :| 0 <= k < |s| && s[k] == r[j];
      }
    }
  }

  /** The result is ordered by `le`. */
  lemma {:induction false} SortSorted<T(!new)>(s: seq<T>, le: (T, T) -> bool)
    requires IsTotalPreorder(le)
    ensures SortedBy(Sort(s, le), le)
  {
    if s != [] {
      SortSorted(s[..|s| - 1], le);
      InsertSorted(Sort(s[..|s| - 1], le), s[|s| - 1], le);
    }
  }

  /** When `x` goes in front, it ties with nothing after it. */
  lemma NotBelowFront<T(!new)>(s: seq<T>, x: T, le: (T, T) -> bool)
    requires IsTotalPreorder(le)
    requires SortedBy(s, le)
    requires s != [] && !le(s[0], x)
    ensures forall j | 0 <= j < |s| :: !le(s[j], x)
  {
    forall j | 0 <= j < |s| ensures !le(s[j], x) {
      if j > 0 {
        assert le(s[0], s[j]);
      }
    }
  }

  lemma {:induction false} InsertStable<T(!new)>(s: seq<T>, x: T, le: (T, T) -> bool, before: (T, T) -> bool)
    requires IsTotalPreorder(le)
    requires SortedBy(s, le) && StableBy(s, le, before)
    requires forall i | 0 <= i < |s| :: before(s[i], x)
    ensures StableBy(Insert(s, x, le), le, before)
  {
    if s != [] && le(s[0], x) {
      InsertStable(s[1..], x, le, before);
      var tail := Insert(s[1..], x, le);
      forall j | 0 <= j < |tail| ensures !le(tail[j], s[0]) || before(s[0], tail[j]) {
        assert tail[j] in multiset(tail);
        if tail[j] != x {
          assert tail[j] in multiset(s[1..]);
          var k :| 0 <= k < |s| - 1 && s[1..][k] == tail[j];
          assert s[k + 1] == tail[j];
        }
      }
      StableCons(s[0], tail, le, before);
    } else if s != [] {
      NotBelowFront(s, x, le);
      StableCons(x, s, le, before);
    }
  }

  /** Stability of `[h] + t` follows from that of `t` and of the pairs `h` starts. */
  lemma StableCons<T>(h: T, t: seq<T>, le: (T, T) -> bool, before: (T, T) -> bool)
    requires StableBy(t, le, before)
    requires forall j | 0 <= j < |t| :: !le(t[j], h) || before(h, t[j])
    ensures StableBy([h] + t, le, before)
  {
    var r := [h] + t;
    forall i, j | 0 <= i < j < |r| ensures !le(r[j], r[i]) || before(r[i], r[j]) {
      if i == 0 {
        assert r[j] == t[j - 1];
      } else {
        assert r[i] == t[i - 1] && r[j] == t[j - 1];
      }
    }
  }

  /**
   * Stability: when the input lists its elements in `before` order, tied
   * elements of the result keep that order.
   */
  lemma {:induction false} SortStable<T(!new)>(s: seq<T>, le: (T, T) -> bool, before: (T, T) -> bool)
    requires IsTotalPreorder(le)
    requires forall i, j | 0 <= i < j < |s| :: before(s[i], s[j])
    ensures StableBy(Sort(s, le), le, before)
  {
    if s != [] {
      var p := s[..|s| - 1];
      var x := s[|s| - 1];
      SortStable(p, le, before);
      SortSorted(p, le);
      var sp := Sort(p, le);
      forall i | 0 <= i < |sp| ensures before(sp[i], x) {
        assert sp[i] in multiset(p);
        var k :| 0 <= k < |p| && p[k] == sp[i];
      }
      InsertStable(sp, x, le, before);
    }
  }

  lemma {:induction false} InsertMap<A, B>(s: seq<A>, x: A, f: A -> B, leA: (A, A) -> bool, leB: (B, B) -> bool)
    requires forall a, b :: leA(a, b) == leB(f(a), f(b))
    ensures Insert(Map(f, s), f(x), leB) == Map(f, Insert(s, x, leA))
  {
    if s != [] {
      assert Map(f, s)[1..] == Map(f, s[1..]);
      if leA(s[0], x) {
        InsertMap(s[1..], x, f, leA, leB);
      }
    }
  }

  /** Sorting commutes with a map that carries one order onto the other. */
  lemma {:induction false} SortMap<A, B>(s: seq<A>, f: A -> B, leA: (A, A) -> bool, leB: (B, B) -> bool)
    requires forall a, b :: leA(a, b) == leB(f(a), f(b))
    ensures Sort(Map(f, s), leB) == Map(f, Sort(s, leA))
  {
    if s != [] {
      var p := s[..|s| - 1];
      assert Map(f, s)[..|s| - 1] == Map(f, p);
      SortMap(p, f, leA, leB);
      InsertMap(Sort(p, leA), s[|s| - 1], f, leA, leB);
    }
  }
}
