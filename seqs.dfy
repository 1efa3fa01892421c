/** Sequence helpers shared by the puzzle modules: Python's `sum`, products, dict-key order. */
module Seqs {

  function Min(a: int, b: int): int
  {
    if a <= b then a else b
  }

  function Map<A, B>(f: A -> B, s: seq<A>): (r: seq<B>)
    ensures |r| == |s|
    ensures forall i | 0 <= i < |s| :: r[i] == f(s[i])
  {
    if s == [] then [] else [f(s[0])] + Map(f, s[1..])
  }

  function Sum(s: seq<int>): int
  {
    if s == [] then 0 else s[0] + Sum(s[1..])
  }

  function Product(s: seq<int>): int
  {
    if s == [] then 1 else s[0] * Product(s[1..])
  }

  lemma {:induction false} SumAppend(s: seq<int>, t: seq<int>)
    ensures Sum(s + t) == Sum(s) + Sum(t)
  {
    if s != [] {
      assert (s + t)[1..] == s[1..] + t;
      SumAppend(s[1..], t);
    } else {
      assert s + t == t;
    }
  }

  lemma {:induction false} ProductAppend(s: seq<int>, t: seq<int>)
    ensures Product(s + t) == Product(s) * Product(t)
  {
    if s != [] {
      assert (s + t)[1..] == s[1..] + t;
      ProductAppend(s[1..], t);
      calc {
        Product(s + t);
        s[0] * Product(s[1..] + t);
        s[0] * (Product(s[1..]) * Product(t));
        (s[0] * Product(s[1..])) * Product(t);
      }
    } else {
      assert s + t == t;
    }
  }

  /** A product of positive factors is positive. */
  lemma {:induction false} ProductPositive(s: seq<int>)
    requires forall i | 0 <= i < |s| :: s[i] >= 1
    ensures Product(s) >= 1
  {
    if s != [] {
      ProductPositive(s[1..]);
      MulAtLeastOne(s[0], Product(s[1..]));
    }
  }

  lemma MulAtLeastOne(a: int, b: int)
    requires a >= 1 && b >= 1
    ensures a * b >= 1
  {
    assert a * b >= 1 * b;
  }

  predicate Distinct<T(==)>(s: seq<T>)
  {
    forall i, j | 0 <= i < j < |s| :: s[i] != s[j]
  }

  /** The elements of `s` in order of first occurrence: the key order of a dict built from `s`. */
  function Dedup<T(==,!new)>(s: seq<T>): (r: seq<T>)
    ensures Distinct(r)
    ensures forall x :: x in r <==> x in s
    ensures |r| <= |s|
  {
    if s == [] then []
    else
      var d := Dedup(s[..|s| - 1]);
      var x := s[|s| - 1];
      assert forall y :: y in s <==> y in s[..|s| - 1] || y == x;
      if x in d then d else d + [x]
  }

  /** A distinct sequence has as many elements as the set of its elements. */
  lemma {:induction false} DistinctCard<T>(s: seq<T>)
    requires Distinct(s)
    ensures |set x | x in s| == |s|
  {
    if s != [] {
      var t := s[1..];
      DistinctCard(t);
      assert (set x | x in s) == (set x | x in t) + {s[0]};
      assert s[0] !in t;
    }
  }

  /** `Counts(d, ms)[i]` is the multiplicity of `d[i]` in `ms`. */
  function Counts<T>(d: seq<T>, ms: multiset<T>): (r: seq<nat>)
    ensures |r| == |d|
    ensures forall i | 0 <= i < |d| :: r[i] == ms[d[i]]
  {
    if d == [] then [] else [ms[d[0]]] + Counts(d[1..], ms)
  }

  lemma {:induction false} CountsAppend<T>(d: seq<T>, x: T, ms: multiset<T>)
    ensures Sum(Counts(d + [x], ms)) == Sum(Counts(d, ms)) + ms[x]
  {
    if d != [] {
      assert (d + [x])[1..] == d[1..] + [x];
      CountsAppend(d[1..], x, ms);
    }
  }

  lemma {:induction false} CountsAdd<T>(d: seq<T>, x: T, ms: multiset<T>)
    requires Distinct(d)
    ensures Sum(Counts(d, ms + multiset{x})) == Sum(Counts(d, ms)) + (if x in d then 1 else 0)
  {
    if d != [] {
      CountsAdd(d[1..], x, ms);
      assert x in d <==> x == d[0] || x in d[1..];
      assert x == d[0] ==> x !in d[1..];
    }
  }

  /**
   * Counting every distinct element of `s` accounts for all of `s`:
   * the counts of `Counter(s)` add up to `len(s)`.
   */
  lemma {:induction false} CountsPartition<T(!new)>(s: seq<T>)
    ensures Sum(Counts(Dedup(s), multiset(s))) == |s|
  {
    if s != [] {
      var p := s[..|s| - 1];
      var x := s[|s| - 1];
      assert s == p + [x];
      CountsPartition(p);
      CountsAdd(Dedup(p), x, multiset(p));
      if x !in Dedup(p) {
        CountsAppend(Dedup(p), x, multiset(s));
        assert multiset(p)[x] == 0;
      }
    }
  }
}
