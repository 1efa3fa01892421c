/**
 * Day 8: junction boxes at integer 3-D positions are wired together, closest
 * pairs first. Each box carries a circuit label; joining two boxes relabels
 * the whole circuit of the second with the label of the first.
 * Part 1 joins the closest `Limit` pairs and multiplies the sizes of the three
 * largest circuits; part 2 joins pairs until one circuit holds every box and
 * multiplies the x coordinates of the pair that closed it.
 */
module Day08 {
  import opened Wrappers
  import opened Text
  import opened Seqs
  import opened Sorting

  type Pos = (int, int, int)
  type Pair = (Pos, Pos)
  type IndexPair = (int, int)

  datatype Error =
    | NotAnInteger(line: string)        // int() rejects a field
    | NotThreeCoordinates(line: string) // the arity assertion fails
    | NeverConnected                    // part 2 runs out of pairs

  // ---------------------------------------------------------------------------
  // Parsing

  /** `tuple(int(f) for f in fields)`: the first field `int` rejects stops the parse. */
  function ParseFields(fields: seq<string>): (r: Option<seq<int>>)
    ensures r.Some? <==> forall i | 0 <= i < |fields| :: ParseInt(fields[i]).Some?
    ensures r.Some? ==> |r.value| == |fields| && forall i | 0 <= i < |fields| :: ParseInt(fields[i]) == Some(r.value[i])
  {
    if fields == [] then Some([])
    else
      match ParseInt(fields[0])
      case None => None
      case Some(v) =>
        match ParseFields(fields[1..])
        case None => None
        case Some(vs) => Some([v] + vs)
  }

  /** One line "x,y,z": every comma-separated field must be an integer, and there must be three. */
  function ParseLine(line: string): (r: Result<Pos, Error>)
    ensures var f := Split(line, ',');
            r.Success? <==> |f| == 3 && forall i | 0 <= i < 3 :: ParseInt(f[i]).Some?
    ensures var f := Split(line, ',');
            r.Success? ==> ParseInt(f[0]) == Some(r.value.0) && ParseInt(f[1]) == Some(r.value.1) && ParseInt(f[2]) == Some(r.value.2)
    ensures var f := Split(line, ',');
            r == Failure(NotAnInteger(line)) <==> exists i | 0 <= i < |f| :: ParseInt(f[i]).None?
    ensures r.Failure? ==> r.error == NotAnInteger(line) || r.error == NotThreeCoordinates(line)
  {
    match ParseFields(Split(line, ','))
    case None => Failure(NotAnInteger(line))
    case Some(vs) => if |vs| == 3 then Success((vs[0], vs[1], vs[2])) else Failure(NotThreeCoordinates(line))
  }

  /** `parse_input`: one position per line of the stripped input; an empty input fails on its one empty line. */
  function ParseInput(data: string): (r: Result<seq<Pos>, Error>)
    ensures r.Success? ==> |r.value| == |Lines(data)| >= 1
  {
    MapResult(ParseLine, Lines(data))
  }

  // ---------------------------------------------------------------------------
  // Distances and the order in which pairs are joined

  function Square(x: int): int
  {
    x * x
  }

  lemma SquareFacts(x: int)
    ensures Square(x) >= 0
    ensures Square(x) == 0 <==> x == 0
  {
    if x > 0 {
      assert x * x >= x;
    } else if x < 0 {
      assert x * x == (-x) * (-x) >= -x;
    }
  }

  /** Squared Euclidean distance: never negative, and zero exactly for equal positions. */
  function Distance(a: Pos, b: Pos): (d: int)
    ensures d >= 0
    ensures d == 0 <==> a == b
  {
    SquareFacts(a.0 - b.0);
    SquareFacts(a.1 - b.1);
    SquareFacts(a.2 - b.2);
    Square(a.0 - b.0) + Square(a.1 - b.1) + Square(a.2 - b.2)
  }

  /** The distance from `a` to `b` is the distance from `b` to `a`. */
  lemma DistanceSymmetric(a: Pos, b: Pos)
    ensures Distance(a, b) == Distance(b, a)
  {
  }

  predicate LexLess(p: IndexPair, q: IndexPair)
  {
    p.0 < q.0 || (p.0 == q.0 && p.1 < q.1)
  }

  /** The pairs `(i, j)` with `i < j < n`, for a fixed `i`, in increasing `j`. */
  function Row(i: int, n: int): (r: seq<IndexPair>)
    requires 0 <= i < n
    ensures |r| == n - i - 1
    ensures forall k | 0 <= k < |r| :: r[k] == (i, i + 1 + k)
  {
    seq(n - i - 1, k => (i, i + 1 + k))
  }

  /** The number of pairs `i < j` of `n` indices, counted row by row. */
  function PairCount(n: nat): nat
  {
    if n == 0 then 0 else PairCount(n - 1) + (n - 1)
  }

  /** `PairCount(n)` is the triangle number `n * (n - 1) / 2`. */
  lemma {:induction false} PairCountFormula(n: nat)
    ensures PairCount(n) == n * (n - 1) / 2
  {
    if n > 0 {
      PairCountFormula(n - 1);
      assert n * (n - 1) == (n - 1) * (n - 2) + 2 * (n - 1);
    }
  }

  /** The index pairs `(a, b)` with `i <= a < b < n`, in lexicographic order. */
  function PairsFrom(i: int, n: int): (r: seq<IndexPair>)
    requires 0 <= i <= n
    ensures forall k | 0 <= k < |r| :: i <= r[k].0 < r[k].1 < n
    decreases n - i
  {
    if i == n then [] else Row(i, n) + PairsFrom(i + 1, n)
  }

  lemma {:induction false} PairsFromOrdered(i: int, n: int)
    requires 0 <= i <= n
    ensures forall k, l | 0 <= k < l < |PairsFrom(i, n)| :: LexLess(PairsFrom(i, n)[k], PairsFrom(i, n)[l])
    decreases n - i
  {
    if i < n {
      PairsFromOrdered(i + 1, n);
      var row := Row(i, n);
      var rest := PairsFrom(i + 1, n);
      var r := PairsFrom(i, n);
      forall k, l | 0 <= k < l < |r| ensures LexLess(r[k], r[l]) {
        if l < |row| {
          assert r[k] == row[k] && r[l] == row[l];
        } else if k < |row| {
          assert r[k] == row[k] && r[l] == rest[l - |row|];
          assert rest[l - |row|].0 >= i + 1;
        } else {
          assert r[k] == rest[k - |row|] && r[l] == rest[l - |row|];
          assert LexLess(rest[k - |row|], rest[l - |row|]);
        }
      }
    }
  }

  lemma {:induction false} PairsFromComplete(i: int, n: int)
    requires 0 <= i <= n
    ensures forall a, b | i <= a < b < n :: (a, b) in PairsFrom(i, n)
    decreases n - i
  {
    if i < n {
      PairsFromComplete(i + 1, n);
      var row := Row(i, n);
      forall a, b | i <= a < b < n ensures (a, b) in PairsFrom(i, n) {
        if a == i {
          assert row[b - i - 1] == (a, b);
        }
      }
    }
  }

  lemma {:induction false} PairsFromCount(i: int, n: int)
    requires 0 <= i <= n
    ensures |PairsFrom(i, n)| == PairCount(n - i)
    decreases n - i
  {
    if i < n {
      PairsFromCount(i + 1, n);
    }
  }

  /**
   * The index pairs of `itertools.combinations(range(n), 2)`: every `(i, j)`
   * with `i < j < n` once, in lexicographic order, `PairCount(n)` of them.
   */
  function IndexPairs(n: nat): (r: seq<IndexPair>)
    ensures forall k | 0 <= k < |r| :: 0 <= r[k].0 < r[k].1 < n
    ensures forall k, l | 0 <= k < l < |r| :: LexLess(r[k], r[l])
    ensures forall a, b | 0 <= a < b < n :: (a, b) in r
    ensures |r| == PairCount(n)
  {
    PairsFromOrdered(0, n);
    PairsFromComplete(0, n);
    PairsFromCount(0, n);
    PairsFrom(0, n)
  }

  /** `ps[i]`, total so that it can be mapped over index pairs. */
  function At(ps: seq<Pos>, i: int): Pos
  {
    if 0 <= i < |ps| then ps[i] else (0, 0, 0)
  }

  function ToPair(ps: seq<Pos>): IndexPair -> Pair
  {
    (p: IndexPair) => (At(ps, p.0), At(ps, p.1))
  }

  /** `itertools.combinations(positions, 2)`: `(ps[i], ps[j])` for the index pairs in order. */
  function Combinations(ps: seq<Pos>): (r: seq<Pair>)
    ensures |r| == PairCount(|ps|)
  {
    Map(ToPair(ps), IndexPairs(|ps|))
  }

  /** The sort key of `sort_by_distance`, as an order on pairs. */
  function ByDistance(p: Pair, q: Pair): bool
  {
    Distance(p.0, p.1) <= Distance(q.0, q.1)
  }

  /** `sort_by_distance`: all pairs, stably sorted by distance. */
  function SortByDistance(ps: seq<Pos>): seq<Pair>
  {
    Sort(Combinations(ps), ByDistance)
  }

  function IndexDistance(ps: seq<Pos>, p: IndexPair): int
  {
    Distance(At(ps, p.0), At(ps, p.1))
  }

  function IndexByDistance(ps: seq<Pos>): (IndexPair, IndexPair) -> bool
  {
    (p: IndexPair, q: IndexPair) => IndexDistance(ps, p) <= IndexDistance(ps, q)
  }

  /** The index pairs behind `SortByDistance(ps)`, in the same order. */
  function SortedIndexPairs(ps: seq<Pos>): seq<IndexPair>
  {
    Sort(IndexPairs(|ps|), IndexByDistance(ps))
  }

  /** Pair `p` is joined before pair `q`: it is closer, or as close and earlier in `combinations`. */
  predicate JoinedBefore(ps: seq<Pos>, p: IndexPair, q: IndexPair)
  {
    IndexDistance(ps, p) < IndexDistance(ps, q) || (IndexDistance(ps, p) == IndexDistance(ps, q) && LexLess(p, q))
  }

  /** The sort behind `SortedIndexPairs` is a stable sort of the index pairs by distance. */
  lemma SortedIndexPairsSorted(ps: seq<Pos>)
    ensures multiset(SortedIndexPairs(ps)) == multiset(IndexPairs(|ps|))
    ensures SortedBy(SortedIndexPairs(ps), IndexByDistance(ps))
    ensures StableBy(SortedIndexPairs(ps), IndexByDistance(ps), LexLess)
    ensures SortByDistance(ps) == Map(ToPair(ps), SortedIndexPairs(ps))
  {
    var le := IndexByDistance(ps);
    assert forall a, b :: le(a, b) == (IndexDistance(ps, a) <= IndexDistance(ps, b));
    assert IsTotalPreorder(le);
    SortSorted(IndexPairs(|ps|), le);
    SortStable(IndexPairs(|ps|), le, LexLess);
    SortMap(IndexPairs(|ps|), ToPair(ps), le, ByDistance);
  }

  lemma SortedIndexPairsBounds(ps: seq<Pos>)
    ensures |SortByDistance(ps)| == |SortedIndexPairs(ps)| == PairCount(|ps|)
    ensures forall k | 0 <= k < |SortedIndexPairs(ps)| ::
              && 0 <= SortedIndexPairs(ps)[k].0 < SortedIndexPairs(ps)[k].1 < |ps|
              && SortByDistance(ps)[k] == (ps[SortedIndexPairs(ps)[k].0], ps[SortedIndexPairs(ps)[k].1])
  {
    SortedIndexPairsSorted(ps);
    IndexPairsInRange(SortedIndexPairs(ps), |ps|);
    PairsAt(ps, SortedIndexPairs(ps));
  }

  lemma IndexPairsInRange(ip: seq<IndexPair>, n: nat)
    requires multiset(ip) == multiset(IndexPairs(n))
    ensures |ip| == PairCount(n)
    ensures forall k | 0 <= k < |ip| :: 0 <= ip[k].0 < ip[k].1 < n
  {
    assert |ip| == |multiset(ip)| == |IndexPairs(n)|;
    forall k | 0 <= k < |ip| ensures 0 <= ip[k].0 < ip[k].1 < n {
      assert ip[k] in multiset(IndexPairs(n));
    }
  }

  lemma PairsAt(ps: seq<Pos>, ip: seq<IndexPair>)
    requires forall k | 0 <= k < |ip| :: 0 <= ip[k].0 < ip[k].1 < |ps|
    ensures forall k | 0 <= k < |ip| :: Map(ToPair(ps), ip)[k] == (ps[ip[k].0], ps[ip[k].1])
  {
  }

  lemma SortedIndexPairsComplete(ps: seq<Pos>)
    ensures forall i, j | 0 <= i < j < |ps| :: (i, j) in SortedIndexPairs(ps)
  {
    SortedIndexPairsSorted(ps);
    SameMembers(SortedIndexPairs(ps), IndexPairs(|ps|));
  }

  lemma SameMembers<T>(s: seq<T>, t: seq<T>)
    requires multiset(s) == multiset(t)
    ensures forall x | x in t :: x in s
  {
    forall x | x in t ensures x in s {
      assert x in multiset(t);
    }
  }

  lemma SortedIndexPairsOrder(ps: seq<Pos>)
    ensures forall k, l | 0 <= k < l < |SortedIndexPairs(ps)| ::
              && SortedIndexPairs(ps)[k] != SortedIndexPairs(ps)[l]
              && JoinedBefore(ps, SortedIndexPairs(ps)[k], SortedIndexPairs(ps)[l])
  {
    var le := IndexByDistance(ps);
    var ip := SortedIndexPairs(ps);
    SortedIndexPairsSorted(ps);
    forall k, l | 0 <= k < l < |ip| ensures ip[k] != ip[l] && JoinedBefore(ps, ip[k], ip[l]) {
      assert le(ip[k], ip[l]);
      assert !le(ip[l], ip[k]) || LexLess(ip[k], ip[l]);
    }
  }

  /**
   * What `sort_by_distance` returns: every pair of distinct indices exactly
   * once, closest first, ties in `combinations` order.
   */
  lemma SortByDistanceSpec(ps: seq<Pos>)
    ensures |SortByDistance(ps)| == |SortedIndexPairs(ps)| == PairCount(|ps|)
    ensures forall k | 0 <= k < |SortedIndexPairs(ps)| ::
              && 0 <= SortedIndexPairs(ps)[k].0 < SortedIndexPairs(ps)[k].1 < |ps|
              && SortByDistance(ps)[k] == (ps[SortedIndexPairs(ps)[k].0], ps[SortedIndexPairs(ps)[k].1])
    ensures forall i, j | 0 <= i < j < |ps| :: (i, j) in SortedIndexPairs(ps)
    ensures forall k, l | 0 <= k < l < |SortedIndexPairs(ps)| ::
              && SortedIndexPairs(ps)[k] != SortedIndexPairs(ps)[l]
              && JoinedBefore(ps, SortedIndexPairs(ps)[k], SortedIndexPairs(ps)[l])
  {
    SortedIndexPairsBounds(ps);
    SortedIndexPairsComplete(ps);
    SortedIndexPairsOrder(ps);
  }

  /** Every pair of `SortByDistance(ps)` joins two positions of `ps`; every `(ps[0], ps[j])` is among them. */
  lemma SortByDistanceEndpoints(ps: seq<Pos>)
    ensures forall k | 0 <= k < |SortByDistance(ps)| :: SortByDistance(ps)[k].0 in ps && SortByDistance(ps)[k].1 in ps
    ensures forall j | 0 < j < |ps| :: (ps[0], ps[j]) in SortByDistance(ps)
  {
    CombinationsEndpoints(ps);
    SameEndpoints(ps, Combinations(ps), SortByDistance(ps));
  }

  lemma CombinationsEndpoints(ps: seq<Pos>)
    ensures forall k | 0 <= k < |Combinations(ps)| :: Combinations(ps)[k].0 in ps && Combinations(ps)[k].1 in ps
    ensures forall j | 0 < j < |ps| :: (ps[0], ps[j]) in Combinations(ps)
  {
    MappedEndpoints(ps, IndexPairs(|ps|));
  }

  lemma MappedEndpoints(ps: seq<Pos>, ip: seq<IndexPair>)
    requires forall k | 0 <= k < |ip| :: 0 <= ip[k].0 < ip[k].1 < |ps|
    requires forall a, b | 0 <= a < b < |ps| :: (a, b) in ip
    ensures forall k | 0 <= k < |ip| :: Map(ToPair(ps), ip)[k].0 in ps && Map(ToPair(ps), ip)[k].1 in ps
    ensures forall j | 0 < j < |ps| :: (ps[0], ps[j]) in Map(ToPair(ps), ip)
  {
    var c := Map(ToPair(ps), ip);
    forall k | 0 <= k < |ip| ensures c[k].0 in ps && c[k].1 in ps {
      assert c[k] == (ps[ip[k].0], ps[ip[k].1]);
    }
    forall j | 0 < j < |ps| ensures (ps[0], ps[j]) in c {
      assert (0, j) in ip;
      var k :| 0 <= k < |ip| && ip[k] == (0, j);
      assert c[k] == (ps[0], ps[j]);
    }
  }

  lemma SameEndpoints(ps: seq<Pos>, c: seq<Pair>, r: seq<Pair>)
    requires multiset(r) == multiset(c)
    requires forall k | 0 <= k < |c| :: c[k].0 in ps && c[k].1 in ps
    requires forall j | 0 < j < |ps| :: (ps[0], ps[j]) in c
    ensures forall k | 0 <= k < |r| :: r[k].0 in ps && r[k].1 in ps
    ensures forall j | 0 < j < |ps| :: (ps[0], ps[j]) in r
  {
    forall k | 0 <= k < |r| ensures r[k].0 in ps && r[k].1 in ps {
      assert r[k] in multiset(c);
    }
    forall j | 0 < j < |ps| ensures (ps[0], ps[j]) in r {
      assert (ps[0], ps[j]) in multiset(r);
    }
  }

  /** `_limit`: ten pairs for the twenty-box example, a thousand otherwise. */
  function Limit(ps: seq<Pos>): (r: nat)
    ensures r == 10 <==> |ps| == 20
    ensures r == 10 || r == 1000
  {
    if |ps| == 20 then 10 else 1000
  }

  // ---------------------------------------------------------------------------
  // Circuit labels

  /** `{p: n for n, p in enumerate(ps)}`: a repeated position keeps the index of its last occurrence. */
  function InitialLabels(ps: seq<Pos>): (m: map<Pos, int>)
    ensures m.Keys == set p | p in ps
    ensures forall p | p in m :: 0 <= m[p] < |ps| && ps[m[p]] == p && forall k | m[p] < k < |ps| :: ps[k] != p
    ensures forall p, q | p in m && q in m && m[p] == m[q] :: p == q
  {
    if ps == [] then map[]
    else
      var front := ps[..|ps| - 1];
      assert forall k | 0 <= k < |front| :: front[k] == ps[k];
      InitialLabels(front)[ps[|ps| - 1] := |ps| - 1]
  }

  /**
   * `_connect` on the labels: when `a` and `b` carry different labels, every
   * position labelled like `b` takes `a`'s label.
   */
  function Relabel(m: map<Pos, int>, a: Pos, b: Pos): (r: map<Pos, int>)
    requires a in m && b in m
    ensures r.Keys == m.Keys
    ensures r[a] == r[b] == m[a]
    ensures m[a] == m[b] ==> r == m
  {
    if m[a] == m[b] then m
    else map p | p in m :: if m[p] == m[b] then m[a] else m[p]
  }

  /**
   * Afterwards two positions share a circuit exactly when they did before, or
   * one was in `a`'s circuit and the other in `b`'s.
   */
  lemma RelabelJoins(m: map<Pos, int>, a: Pos, b: Pos, p: Pos, q: Pos)
    requires a in m && b in m && p in m && q in m
    ensures var r := Relabel(m, a, b);
            r[p] == r[q] <==> m[p] == m[q] || (m[p] == m[a] && m[q] == m[b]) || (m[p] == m[b] && m[q] == m[a])
  {
  }

  /** Joining two different circuits leaves one circuit fewer; joining a circuit to itself changes nothing. */
  lemma RelabelCircuits(m: map<Pos, int>, a: Pos, b: Pos)
    requires a in m && b in m
    ensures var r := Relabel(m, a, b);
            && (m[a] != m[b] ==> r.Values == m.Values - {m[b]})
            && |r.Values| == |m.Values| - (if m[a] == m[b] then 0 else 1)
  {
    if m[a] != m[b] {
      var r := Relabel(m, a, b);
      forall v | v in m.Values - {m[b]} ensures v in r.Values {
        var p :| p in m && m[p] == v;
        assert r[p] == v;
      }
      forall v | v in r.Values ensures v in m.Values - {m[b]} {
        var p :| p in r && r[p] == v;
        if m[p] == m[b] {
          assert v == m[a];
        } else {
          assert v == m[p];
        }
      }
      assert m[b] in m.Values;
    }
  }

  /** Every pair joins two labelled positions. */
  predicate Labelled(pairs: seq<Pair>, m: map<Pos, int>)
  {
    forall k | 0 <= k < |pairs| :: pairs[k].0 in m && pairs[k].1 in m
  }

  lemma LabelledPrefix(pairs: seq<Pair>, m: map<Pos, int>, t: int)
    requires Labelled(pairs, m) && 0 <= t <= |pairs|
    ensures Labelled(pairs[..t], m) && Labelled(pairs[t..], m)
  {
    assert forall k | 0 <= k < t :: pairs[..t][k] == pairs[k];
    assert forall k | 0 <= k < |pairs| - t :: pairs[t..][k] == pairs[t + k];
  }

  lemma LabelledStep(pairs: seq<Pair>, m: map<Pos, int>, m': map<Pos, int>)
    requires Labelled(pairs, m) && pairs != [] && m'.Keys == m.Keys
    ensures Labelled(pairs[1..], m')
  {
    assert forall k | 0 <= k < |pairs| - 1 :: pairs[1..][k] == pairs[k + 1];
  }

  /** The labels after calling `_connect` on each pair in turn. */
  function ConnectAll(m: map<Pos, int>, pairs: seq<Pair>): (r: map<Pos, int>)
    requires Labelled(pairs, m)
    ensures r.Keys == m.Keys
    decreases |pairs|
  {
    if pairs == [] then m
    else ConnectAll(Relabel(m, pairs[0].0, pairs[0].1), pairs[1..])
  }

  /** How many of those calls joined two different circuits. */
  function Merges(m: map<Pos, int>, pairs: seq<Pair>): nat
    requires Labelled(pairs, m)
    decreases |pairs|
  {
    if pairs == [] then 0
    else
      (if m[pairs[0].0] != m[pairs[0].1] then 1 else 0) + Merges(Relabel(m, pairs[0].0, pairs[0].1), pairs[1..])
  }

  /** Each effective join removes exactly one circuit. */
  lemma {:induction false} ConnectAllCircuits(m: map<Pos, int>, pairs: seq<Pair>)
    requires Labelled(pairs, m)
    ensures |ConnectAll(m, pairs).Values| == |m.Values| - Merges(m, pairs)
    decreases |pairs|
  {
    if pairs != [] {
      RelabelCircuits(m, pairs[0].0, pairs[0].1);
      ConnectAllCircuits(Relabel(m, pairs[0].0, pairs[0].1), pairs[1..]);
    }
  }

  /** Joining never separates positions that already share a circuit. */
  lemma {:induction false} ConnectAllKeepsJoined(m: map<Pos, int>, pairs: seq<Pair>, p: Pos, q: Pos)
    requires Labelled(pairs, m)
    requires p in m && q in m && m[p] == m[q]
    ensures ConnectAll(m, pairs)[p] == ConnectAll(m, pairs)[q]
    decreases |pairs|
  {
    if pairs != [] {
      RelabelJoins(m, pairs[0].0, pairs[0].1, p, q);
      ConnectAllKeepsJoined(Relabel(m, pairs[0].0, pairs[0].1), pairs[1..], p, q);
    }
  }

  /** After the calls, the two ends of every pair share a circuit. */
  lemma {:induction false} ConnectAllJoins(m: map<Pos, int>, pairs: seq<Pair>)
    requires Labelled(pairs, m)
    ensures forall k | 0 <= k < |pairs| :: ConnectAll(m, pairs)[pairs[k].0] == ConnectAll(m, pairs)[pairs[k].1]
    decreases |pairs|
  {
    if pairs != [] {
      var m' := Relabel(m, pairs[0].0, pairs[0].1);
      ConnectAllJoins(m', pairs[1..]);
      ConnectAllKeepsJoined(m', pairs[1..], pairs[0].0, pairs[0].1);
      forall k | 1 <= k < |pairs| ensures ConnectAll(m, pairs)[pairs[k].0] == ConnectAll(m, pairs)[pairs[k].1] {
        assert pairs[k] == pairs[1..][k - 1];
      }
    }
  }

  /** `circuits.values()`: the labels in key order. */
  function LabelSeq(keys: seq<Pos>, m: map<Pos, int>): (r: seq<int>)
    requires forall p | p in keys :: p in m
    ensures |r| == |keys|
    ensures forall i | 0 <= i < |keys| :: r[i] == m[keys[i]]
  {
    if keys == [] then [] else [m[keys[0]]] + LabelSeq(keys[1..], m)
  }

  /** `Counter(values).values()`: how many positions each circuit holds, one entry per circuit. */
  function GroupSizes(values: seq<int>): seq<nat>
  {
    Counts(Dedup(values), multiset(values))
  }

  /**
   * The circuit sizes partition the positions: one positive entry per circuit,
   * and they add up to the number of (distinct) positions.
   */
  lemma CircuitSizes(keys: seq<Pos>, m: map<Pos, int>)
    requires Distinct(keys) && m.Keys == set p | p in keys
    ensures var sizes := GroupSizes(LabelSeq(keys, m));
            && |sizes| == |m.Values|
            && Sum(sizes) == |keys|
            && forall i | 0 <= i < |sizes| :: sizes[i] >= 1
  {
    var values := LabelSeq(keys, m);
    CountsPartition(values);
    SameElements(Dedup(values), values);
    LabelsAreValues(keys, m);
    DistinctCard(Dedup(values));
    GroupSizesPositive(values);
  }

  lemma SameElements<T>(s: seq<T>, t: seq<T>)
    requires forall x :: x in s <==> x in t
    ensures (set x | x in s) == (set x | x in t)
  {
  }

  /** The labels listed for the keys are exactly the labels in the map. */
  lemma LabelsAreValues(keys: seq<Pos>, m: map<Pos, int>)
    requires m.Keys == set p | p in keys
    ensures (set x | x in LabelSeq(keys, m)) == m.Values
  {
    var values := LabelSeq(keys, m);
    forall v | v in m.Values ensures v in values {
      var p :| p in m && m[p] == v;
      var i :| 0 <= i < |keys| && keys[i] == p;
      assert values[i] == v;
    }
    forall v | v in values ensures v in m.Values {
      var i :| 0 <= i < |values| && values[i] == v;
      assert keys[i] in m;
    }
  }

  lemma GroupSizesPositive(values: seq<int>)
    ensures forall i | 0 <= i < |GroupSizes(values)| :: GroupSizes(values)[i] >= 1
  {
    var d := Dedup(values);
    forall i | 0 <= i < |d| ensures multiset(values)[d[i]] >= 1 {
      assert d[i] in values;
    }
  }

  function AtLeast(a: nat, b: nat): bool
  {
    a >= b
  }

  /** The first `t` elements of a list sorted largest first are at least as large as the rest. */
  lemma TakeLargest(s: seq<nat>, t: nat)
    requires SortedBy(s, AtLeast) && t <= |s|
    ensures forall x | x in multiset(s) - multiset(s[..t]) :: forall i | 0 <= i < t :: x <= s[i]
  {
    assert s == s[..t] + s[t..];
    assert multiset(s) - multiset(s[..t]) == multiset(s[t..]);
    forall x | x in multiset(s[t..]) ensures forall i | 0 <= i < t :: x <= s[i] {
      var j :| 0 <= j < |s| - t && s[t..][j] == x;
      assert s[t + j] == x;
    }
  }

  /** The `t` largest of `sizes`, largest first: a stable sort by `>=`, then a prefix. */
  function Largest(sizes: seq<nat>, t: nat): (r: seq<nat>)
    requires t <= |sizes|
    ensures |r| == t
    ensures forall i, j | 0 <= i < j < |r| :: r[i] >= r[j]
    ensures multiset(r) <= multiset(sizes)
    ensures forall x | x in multiset(sizes) - multiset(r) :: forall i | 0 <= i < |r| :: x <= r[i]
  {
    var sorted := Sort(sizes, AtLeast);
    assert IsTotalPreorder(AtLeast);
    SortSorted(sizes, AtLeast);
    TakeLargest(sorted, t);
    assert sorted == sorted[..t] + sorted[t..];
    sorted[..t]
  }

  /**
   * `_top_3`: the sizes of the (at most) three largest circuits, largest
   * first; no circuit left out is larger than one taken.
   */
  function TopThree(values: seq<int>): (r: seq<nat>)
    ensures |r| == Min(3, |Dedup(values)|)
    ensures forall i, j | 0 <= i < j < |r| :: r[i] >= r[j]
    ensures multiset(r) <= multiset(GroupSizes(values))
    ensures forall x | x in multiset(GroupSizes(values)) - multiset(r) :: forall i | 0 <= i < |r| :: x <= r[i]
  {
    var sizes := GroupSizes(values);
    Largest(sizes, Min(3, |sizes|))
  }

  /** Every circuit among the three largest holds at least one position. */
  lemma TopThreePositive(values: seq<int>)
    ensures values != [] <==> TopThree(values) != []
    ensures forall i | 0 <= i < |TopThree(values)| :: TopThree(values)[i] >= 1
  {
    assert values != [] ==> values[0] in Dedup(values);
    GroupSizesPositive(values);
    PositiveWithin(GroupSizes(values), TopThree(values));
  }

  /** Elements drawn from a list of positive numbers are positive. */
  lemma PositiveWithin(s: seq<nat>, r: seq<nat>)
    requires multiset(r) <= multiset(s)
    requires forall i | 0 <= i < |s| :: s[i] >= 1
    ensures forall i | 0 <= i < |r| :: r[i] >= 1
  {
    forall i | 0 <= i < |r| ensures r[i] >= 1 {
      assert r[i] in multiset(r);
      assert r[i] in s;
    }
  }

  /** `_score`: the product of `_top_3`; `reduce` without a start value fails on no circuits at all. */
  function Score(values: seq<int>): (r: Option<int>)
    ensures r.None? <==> values == []
    ensures r.Some? ==> r.value >= 1 && r.value == Product(TopThree(values))
  {
    var top := TopThree(values);
    TopThreePositive(values);
    if top == [] then None
    else
      ProductPositive(top);
      Some(Product(top))
  }

  /** `_are_connected`: there is exactly one circuit. */
  function AreConnected(m: map<Pos, int>): (r: bool)
    ensures r <==> m != map[] && forall p, q | p in m && q in m :: m[p] == m[q]
  {
    if m == map[] then false
    else
      var p0 :| p0 in m;
      assert m[p0] in m.Values;
      if forall p | p in m :: m[p] == m[p0] then
        assert m.Values == {m[p0]};
        true
      else
        var p1 :| p1 in m && m[p1] != m[p0];
        assert m[p1] in m.Values;
        assert {m[p0], m[p1]} <= m.Values;
        assert |{m[p0], m[p1]}| == 2;
        false
  }

  /** A circuit of one label holds everything when `|m.Values| == 1`. */
  lemma AreConnectedCount(m: map<Pos, int>)
    ensures AreConnected(m) <==> |m.Values| == 1
  {
    if AreConnected(m) {
      var p0 :| p0 in m;
      assert m.Values == {m[p0]};
    } else if |m.Values| == 1 {
      assert m != map[];
      var p0 :| p0 in m;
      var v := m[p0];
      assert v in m.Values;
      CardOne(m.Values, v);
      assert forall p | p in m :: m[p] in m.Values;
    }
  }

  lemma CardOne(s: set<int>, v: int)
    requires |s| == 1 && v in s
    ensures s == {v}
  {
    assert |s - {v}| == 0;
  }

  // ---------------------------------------------------------------------------
  // The circuits dict

  /**
   * The dict `circuits`, keyed by position. Python dicts keep insertion order,
   * which is the order `_connect` visits the keys in and `_top_3` counts them
   * in, so the keys are kept as a sequence beside the label map.
   */
  class Circuits {
    var keys: seq<Pos>
    var labels: map<Pos, int>

    ghost predicate Valid()
      reads this
    {
      Distinct(keys) && labels.Keys == set p | p in keys
    }

    /** `{p: n for n, p in enumerate(positions)}`. */
    constructor (positions: seq<Pos>)
      ensures Valid()
      ensures keys == Dedup(positions) && labels == InitialLabels(positions)
    {
      var ks: seq<Pos> := [];
      var ls: map<Pos, int> := map[];
      for i := 0 to |positions|
        invariant ks == Dedup(positions[..i])
        invariant ls == InitialLabels(positions[..i])
      {
        var p := positions[i];
        assert positions[..i + 1][..i] == positions[..i];
        if p !in ls {
          ks := ks + [p];
        }
        ls := ls[p := i];
      }
      assert positions[..|positions|] == positions;
      keys := ks;
      labels := ls;
    }

    /** The labels in key order: `circuits.values()`. */
    function Values(): (r: seq<int>)
      requires Valid()
      reads this
      ensures |r| == |keys|
    {
      LabelSeq(keys, labels)
    }

    /**
     * `_connect(circuits, a, b)`: if the two circuits differ, every key whose
     * label is `b`'s is relabelled with `a`'s label, visiting keys in order.
     */
    method Connect(a: Pos, b: Pos)
      requires Valid() && a in labels && b in labels
      modifies this
      ensures Valid() && keys == old(keys)
      ensures labels == Relabel(old(labels), a, b)
    {
      if labels[a] != labels[b] {
        var circuitB := labels[b];
        ghost var before := labels;
        for i := 0 to |keys|
          invariant keys == old(keys)
          invariant labels.Keys == before.Keys
          invariant labels[a] == before[a]
          invariant forall p | p in labels ::
                      labels[p] == (if p in keys[..i] && before[p] == circuitB then before[a] else before[p])
        {
          var pos := keys[i];
          assert pos !in keys[..i];
          assert forall p :: p in keys[..i + 1] <==> p in keys[..i] || p == pos;
          if labels[pos] == circuitB {
            labels := labels[pos := labels[a]];
          }
        }
        assert keys[..|keys|] == keys;
      }
    }
  }

  // ---------------------------------------------------------------------------
  // Part 1

  /** `for c in connections: _connect(circuits, *c)`. */
  method ConnectEach(circuits: Circuits, connections: seq<Pair>)
    requires circuits.Valid() && Labelled(connections, circuits.labels)
    modifies circuits
    ensures circuits.Valid() && circuits.keys == old(circuits.keys)
    ensures circuits.labels == ConnectAll(old(circuits.labels), connections)
  {
    ghost var start := circuits.labels;
    for k := 0 to |connections|
      invariant circuits.Valid() && circuits.keys == old(circuits.keys)
      invariant circuits.labels.Keys == start.Keys
      invariant Labelled(connections[k..], circuits.labels)
      invariant ConnectAll(circuits.labels, connections[k..]) == ConnectAll(start, connections)
    {
      var c := connections[k];
      ghost var before := circuits.labels;
      assert connections[k..][1..] == connections[k + 1..];
      circuits.Connect(c.0, c.1);
      LabelledStep(connections[k..], before, circuits.labels);
    }
    assert connections[|connections|..] == [];
  }

  /** Both ends of every pair `sort_by_distance` lists carry a label. */
  lemma PairsLabelled(ps: seq<Pos>)
    ensures Labelled(SortByDistance(ps), InitialLabels(ps))
  {
    SortByDistanceEndpoints(ps);
  }

  /** `sort_by_distance(positions)[:_limit(positions)]`: the closest `Limit` pairs, or all of them if fewer. */
  function Connections(ps: seq<Pos>): (r: seq<Pair>)
    ensures Labelled(r, InitialLabels(ps))
    ensures |r| == Min(Limit(ps), PairCount(|ps|))
  {
    var pairs := SortByDistance(ps);
    PairsLabelled(ps);
    LabelledPrefix(pairs, InitialLabels(ps), Min(Limit(ps), |pairs|));
    pairs[..Min(Limit(ps), |pairs|)]
  }

  /** The circuit sizes after the joins of part 1, in key order. */
  function Part1Sizes(ps: seq<Pos>): seq<nat>
  {
    GroupSizes(LabelSeq(Dedup(ps), ConnectAll(InitialLabels(ps), Connections(ps))))
  }

  /** The answer to part 1 for parsed positions: connect the `Connections`, then score. */
  function Part1Answer(ps: seq<Pos>): int
    requires ps != []
  {
    var m := ConnectAll(InitialLabels(ps), Connections(ps));
    assert ps[0] in Dedup(ps);
    Score(LabelSeq(Dedup(ps), m)).value
  }

  function Part1(data: string): Result<int, Error>
  {
    match ParseInput(data)
    case Failure(e) => Failure(e)
    case Success(ps) => Success(Part1Answer(ps))
  }

  /**
   * After the joins of part 1 there are as many circuits as distinct positions
   * minus the joins that merged two circuits.
   */
  lemma Part1Circuits(ps: seq<Pos>)
    ensures |ConnectAll(InitialLabels(ps), Connections(ps)).Values| == |Dedup(ps)| - Merges(InitialLabels(ps), Connections(ps))
  {
    ConnectAllCircuits(InitialLabels(ps), Connections(ps));
    InitialCircuits(ps);
  }

  /**
   * The circuit sizes part 1 scores add up to the number of distinct
   * positions, with one positive size per circuit.
   */
  lemma Part1SizesPartition(ps: seq<Pos>)
    ensures Sum(Part1Sizes(ps)) == |Dedup(ps)|
    ensures |Part1Sizes(ps)| == |ConnectAll(InitialLabels(ps), Connections(ps)).Values|
    ensures forall i | 0 <= i < |Part1Sizes(ps)| :: Part1Sizes(ps)[i] >= 1
  {
    var m := ConnectAll(InitialLabels(ps), Connections(ps));
    DedupKeys(ps, m);
    CircuitSizes(Dedup(ps), m);
  }

  lemma DedupKeys(ps: seq<Pos>, m: map<Pos, int>)
    requires m.Keys == set p | p in ps
    ensures m.Keys == set p | p in Dedup(ps)
  {
  }

  /** Every position starts in a circuit of its own. */
  lemma InitialCircuits(ps: seq<Pos>)
    ensures |InitialLabels(ps).Values| == |Dedup(ps)|
  {
    var m := InitialLabels(ps);
    var d := Dedup(ps);
    DistinctCard(d);
    assert (set p | p in d) == m.Keys;
    MapInjectiveCard(m);
  }

  lemma MapInjectiveCard(m: map<Pos, int>)
    requires forall p, q | p in m && q in m && m[p] == m[q] :: p == q
    ensures |m.Values| == |m.Keys|
    decreases |m.Keys|
  {
    if m != map[] {
      var p :| p in m;
      var m' := m - {p};
      MapInjectiveCard(m');
      assert m'.Keys == m.Keys - {p};
      assert m'.Values == m.Values - {m[p]} by {
        forall v | v in m.Values - {m[p]} ensures v in m'.Values {
          var q :| q in m && m[q] == v;
          assert q in m';
        }
      }
      assert m[p] in m.Values;
    }
  }

  /** `solve_part_1`. */
  method SolvePart1(data: string) returns (r: Result<int, Error>)
    ensures r == Part1(data)
  {
    var parsed := ParseInput(data);
    if parsed.Failure? {
      return Failure(parsed.error);
    }
    var positions := parsed.value;
    var circuits := new Circuits(positions);
    var pairs := SortByDistance(positions);
    var connections := pairs[..Min(Limit(positions), |pairs|)];
    assert connections == Connections(positions);
    ConnectEach(circuits, connections);
    assert positions[0] in Dedup(positions);
    var score := Score(circuits.Values());
    r := Success(score.value);
  }

  // ---------------------------------------------------------------------------
  // Part 2

  /** The pair whose `_connect` first leaves a single circuit, if any. */
  function Bridge(m: map<Pos, int>, pairs: seq<Pair>): (r: Option<Pair>)
    requires Labelled(pairs, m)
    decreases |pairs|
  {
    if pairs == [] then None
    else
      var m' := Relabel(m, pairs[0].0, pairs[0].1);
      if AreConnected(m') then Some(pairs[0]) else Bridge(m', pairs[1..])
  }

  /** The labels after the first `k + 1` joins. */
  function After(m: map<Pos, int>, pairs: seq<Pair>, k: int): map<Pos, int>
    requires Labelled(pairs, m) && 0 <= k < |pairs|
  {
    ConnectAll(m, pairs[..k + 1])
  }

  lemma AfterFirst(m: map<Pos, int>, pairs: seq<Pair>)
    requires Labelled(pairs, m) && pairs != []
    ensures After(m, pairs, 0) == Relabel(m, pairs[0].0, pairs[0].1)
  {
    var m' := Relabel(m, pairs[0].0, pairs[0].1);
    calc {
      After(m, pairs, 0);
      { assert pairs[..1] == [pairs[0]]; }
      ConnectAll(m, [pairs[0]]);
      { assert [pairs[0]][1..] == []; }
      ConnectAll(m', []);
      m';
    }
  }

  lemma AfterRest(m: map<Pos, int>, pairs: seq<Pair>, k: int)
    requires Labelled(pairs, m) && 1 <= k < |pairs|
    ensures After(m, pairs, k) == After(Relabel(m, pairs[0].0, pairs[0].1), pairs[1..], k - 1)
  {
    assert pairs[..k + 1][0] == pairs[0];
    assert pairs[..k + 1][1..] == pairs[1..][..k];
  }

  lemma AfterRestAll(m: map<Pos, int>, pairs: seq<Pair>)
    requires Labelled(pairs, m) && pairs != []
    ensures Labelled(pairs[1..], Relabel(m, pairs[0].0, pairs[0].1))
    ensures forall k | 1 <= k < |pairs| ::
              After(m, pairs, k) == After(Relabel(m, pairs[0].0, pairs[0].1), pairs[1..], k - 1)
  {
    forall k | 1 <= k < |pairs| ensures After(m, pairs, k) == After(Relabel(m, pairs[0].0, pairs[0].1), pairs[1..], k - 1) {
      AfterRest(m, pairs, k);
    }
  }

  /** `Bridge` finds nothing exactly when no prefix of the joins leaves a single circuit. */
  lemma {:induction false} BridgeNone(m: map<Pos, int>, pairs: seq<Pair>)
    requires Labelled(pairs, m)
    ensures Bridge(m, pairs).None? <==> forall k | 0 <= k < |pairs| :: !AreConnected(After(m, pairs, k))
    decreases |pairs|
  {
    if pairs != [] {
      var m' := Relabel(m, pairs[0].0, pairs[0].1);
      BridgeNone(m', pairs[1..]);
      AfterFirst(m, pairs);
      forall k | 1 <= k < |pairs| ensures After(m, pairs, k) == After(m', pairs[1..], k - 1) {
        AfterRest(m, pairs, k);
      }
      if !AreConnected(m') && Bridge(m', pairs[1..]).Some? {
        var k :| 0 <= k < |pairs| - 1 && AreConnected(After(m', pairs[1..], k));
        assert After(m, pairs, k + 1) == After(m', pairs[1..], k);
      }
    }
  }

  /** When a join leaves a single circuit and no earlier one did, `Bridge` returns that join's pair. */
  lemma {:induction false} BridgeFirst(m: map<Pos, int>, pairs: seq<Pair>, k: int)
    requires Labelled(pairs, m) && 0 <= k < |pairs|
    requires AreConnected(After(m, pairs, k))
    requires forall j | 0 <= j < k :: !AreConnected(After(m, pairs, j))
    ensures Bridge(m, pairs) == Some(pairs[k])
    decreases |pairs|
  {
    var m' := Relabel(m, pairs[0].0, pairs[0].1);
    AfterFirst(m, pairs);
    if k > 0 {
      assert !AreConnected(m') by {
        assert !AreConnected(After(m, pairs, 0));
      }
      AfterRestAll(m, pairs);
      assert forall j | 0 <= j < k - 1 :: After(m', pairs[1..], j) == After(m, pairs, j + 1);
      BridgeFirst(m', pairs[1..], k - 1);
      assert pairs[1..][k - 1] == pairs[k];
      assert Bridge(m, pairs) == Bridge(m', pairs[1..]);
    }
  }

  function Part2Answer(ps: seq<Pos>): Result<int, Error>
  {
    PairsLabelled(ps);
    match Bridge(InitialLabels(ps), SortByDistance(ps))
    case None => Failure(NeverConnected)
    case Some(c) => Success(c.0.0 * c.1.0)
  }

  function Part2(data: string): Result<int, Error>
  {
    match ParseInput(data)
    case Failure(e) => Failure(e)
    case Success(ps) => Part2Answer(ps)
  }

  /** Joining a list of pairs that links every position to `ps[0]` leaves a single circuit. */
  lemma AllJoinedConnect(ps: seq<Pos>, m: map<Pos, int>, pairs: seq<Pair>)
    requires ps != [] && m.Keys == set p | p in ps
    requires Labelled(pairs, m)
    requires forall j | 0 < j < |ps| :: (ps[0], ps[j]) in pairs
    ensures AreConnected(ConnectAll(m, pairs))
  {
    var final := ConnectAll(m, pairs);
    ConnectAllJoins(m, pairs);
    forall p | p in final ensures final[p] == final[ps[0]] {
      var j :| 0 <= j < |ps| && ps[j] == p;
      if j > 0 {
        var k :| 0 <= k < |pairs| && pairs[k] == (ps[0], ps[j]);
      }
    }
    assert ps[0] in final;
  }

  /** Joining every pair of `sort_by_distance` leaves a single circuit. */
  lemma AllPairsConnect(ps: seq<Pos>)
    requires ps != []
    ensures Labelled(SortByDistance(ps), InitialLabels(ps))
    ensures AreConnected(ConnectAll(InitialLabels(ps), SortByDistance(ps)))
  {
    PairsLabelled(ps);
    SortByDistanceEndpoints(ps);
    AllJoinedConnect(ps, InitialLabels(ps), SortByDistance(ps));
  }

  /** Some join leaves a single circuit when the last one does. */
  lemma BridgeExists(m: map<Pos, int>, pairs: seq<Pair>)
    requires Labelled(pairs, m) && pairs != []
    requires AreConnected(ConnectAll(m, pairs))
    ensures Bridge(m, pairs).Some?
  {
    BridgeNone(m, pairs);
    assert pairs[..|pairs|] == pairs;
    assert After(m, pairs, |pairs| - 1) == ConnectAll(m, pairs);
  }

  lemma {:induction false} PairCountPositive(n: nat)
    ensures PairCount(n) >= 1 <==> n >= 2
  {
    if n > 0 {
      PairCountPositive(n - 1);
    }
  }

  /**
   * With at least two positions some join leaves a single circuit, so part 2
   * has an answer; a single position has no pairs and the assertion fails.
   */
  lemma Part2Answered(ps: seq<Pos>)
    ensures Part2Answer(ps).Success? <==> |ps| >= 2
  {
    PairsLabelled(ps);
    PairCountPositive(|ps|);
    if |ps| >= 2 {
      AllPairsConnect(ps);
      BridgeExists(InitialLabels(ps), SortByDistance(ps));
    }
  }

  /**
   * The loop of `solve_part_2`: connect pairs in order and stop at the first
   * one after which everything is one circuit.
   */
  method FindConnecting(circuits: Circuits, connections: seq<Pair>) returns (connecting: Option<Pair>)
    requires circuits.Valid() && Labelled(connections, circuits.labels)
    modifies circuits
    ensures circuits.Valid() && circuits.keys == old(circuits.keys)
    ensures connecting == Bridge(old(circuits.labels), connections)
  {
    ghost var start := circuits.labels;
    connecting := None;
    for k := 0 to |connections|
      invariant circuits.Valid() && circuits.keys == old(circuits.keys)
      invariant circuits.labels.Keys == start.Keys
      invariant Labelled(connections[k..], circuits.labels)
      invariant Bridge(circuits.labels, connections[k..]) == Bridge(start, connections)
      invariant connecting == None
    {
      var c := connections[k];
      ghost var before := circuits.labels;
      assert connections[k..][1..] == connections[k + 1..];
      circuits.Connect(c.0, c.1);
      LabelledStep(connections[k..], before, circuits.labels);
      if AreConnected(circuits.labels) {
        connecting := Some(c);
        assert Bridge(start, connections) == connecting;
        break;
      }
    }
  }

  /** `solve_part_2`. */
  method SolvePart2(data: string) returns (r: Result<int, Error>)
    ensures r == Part2(data)
  {
    var parsed := ParseInput(data);
    if parsed.Failure? {
      return Failure(parsed.error);
    }
    var positions := parsed.value;
    var circuits := new Circuits(positions);
    var connections := SortByDistance(positions);
    PairsLabelled(positions);
    var connecting := FindConnecting(circuits, connections);
    if connecting.None? {
      return Failure(NeverConnected);
    }
    var pair := connecting.value;
    r := Success(pair.0.0 * pair.1.0);
  }
}
