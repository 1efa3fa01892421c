/** Option and Result values, standing for Python's `None` and for raised exceptions. */
module Wrappers {

  datatype Option<+T> = None | Some(value: T)

  datatype Result<+T, +E> = Success(value: T) | Failure(error: E)
  {
    predicate IsFailure()
    {
      Failure?
    }

    function PropagateFailure<U>(): Result<U, E>
      requires Failure?
    {
      Failure(error)
    }

    function Extract(): T
      requires Success?
    {
      value
    }
  }

  /** `f(xs[i])` is the first application that fails. */
  predicate FirstFailure<A, T, E>(f: A -> Result<T, E>, xs: seq<A>, i: int)
  {
    && 0 <= i < |xs|
    && f(xs[i]).Failure?
    && forall j | 0 <= j < i :: f(xs[j]).Success?
  }

  /**
   * `[f(x) for x in xs]` where `f` may raise: the results in order, or the
   * error of the first element that fails.
   */
  function MapResult<A, T, E>(f: A -> Result<T, E>, xs: seq<A>): (r: Result<seq<T>, E>)
    ensures r.Success? <==> forall i | 0 <= i < |xs| :: f(xs[i]).Success?
    ensures r.Success? ==> |r.value| == |xs| && forall i | 0 <= i < |xs| :: f(xs[i]) == Success(r.value[i])
    ensures r.Failure? ==> exists i :: FirstFailure(f, xs, i) && f(xs[i]).error == r.error
  {
    if xs == [] then Success([])
    else
      match f(xs[0])
      case Failure(e) =>
        assert FirstFailure(f, xs, 0);
        Failure(e)
      case Success(y) =>
        match MapResult(f, xs[1..])
        case Failure(e) =>
          FirstFailureShift(f, xs, e);
          Failure(e)
        case Success(ys) => Success([y] + ys)
  }

  /** The first failing element decides the error of `MapResult`. */
  lemma MapResultFirstFailure<A, T, E>(f: A -> Result<T, E>, xs: seq<A>, i: int)
    requires FirstFailure(f, xs, i)
    ensures MapResult(f, xs) == Failure(f(xs[i]).error)
  {
    var r := MapResult(f, xs);
    var j :| FirstFailure(f, xs, j) && f(xs[j]).error == r.error;
    assert j == i;
  }

  /** When every element succeeds, `MapResult` gives exactly the results listed in `ys`. */
  lemma MapResultAllSuccess<A, T, E>(f: A -> Result<T, E>, xs: seq<A>, ys: seq<T>)
    requires |ys| == |xs| && forall i | 0 <= i < |xs| :: f(xs[i]) == Success(ys[i])
    ensures MapResult(f, xs) == Success(ys)
  {
    var r := MapResult(f, xs);
    assert r.Success?;
    forall i | 0 <= i < |xs| ensures r.value[i] == ys[i] {
      assert f(xs[i]) == Success(r.value[i]);
    }
    assert r.value == ys;
  }

  /** An error in a prefix is the error of the whole list. */
  lemma MapResultPrefixFailure<A, T, E>(f: A -> Result<T, E>, xs: seq<A>, n: int)
    requires 0 <= n <= |xs| && MapResult(f, xs[..n]).Failure?
    ensures MapResult(f, xs) == MapResult(f, xs[..n])
  {
    var prefix := xs[..n];
    var i :| FirstFailure(f, prefix, i) && f(prefix[i]).error == MapResult(f, prefix).error;
    assert forall j | 0 <= j <= i :: prefix[j] == xs[j];
    assert FirstFailure(f, xs, i);
    MapResultFirstFailure(f, xs, i);
  }

  /** Mapping one more element: the earlier results extended, or the new element's error. */
  lemma MapResultSnoc<A, T, E>(f: A -> Result<T, E>, xs: seq<A>, n: int)
    requires 0 <= n < |xs| && MapResult(f, xs[..n]).Success?
    ensures f(xs[n]).Failure? ==> MapResult(f, xs[..n + 1]) == Failure(f(xs[n]).error)
    ensures f(xs[n]).Success? ==> MapResult(f, xs[..n + 1]) == Success(MapResult(f, xs[..n]).value + [f(xs[n]).value])
  {
    var prefix := xs[..n + 1];
    var before := MapResult(f, xs[..n]).value;
    assert forall j | 0 <= j < n :: prefix[j] == xs[..n][j];
    if f(xs[n]).Failure? {
      assert FirstFailure(f, prefix, n);
      MapResultFirstFailure(f, prefix, n);
    } else {
      MapResultAllSuccess(f, prefix, before + [f(xs[n]).value]);
    }
  }

  /** Mapping a concatenation: the first list's error, else the second list's error, else both results in order. */
  lemma MapResultAppend<A, T, E>(f: A -> Result<T, E>, a: seq<A>, b: seq<A>)
    ensures MapResult(f, a).Failure? ==> MapResult(f, a + b) == MapResult(f, a)
    ensures MapResult(f, a).Success? && MapResult(f, b).Failure? ==> MapResult(f, a + b) == MapResult(f, b)
    ensures MapResult(f, a).Success? && MapResult(f, b).Success?
            ==> MapResult(f, a + b) == Success(MapResult(f, a).value + MapResult(f, b).value)
  {
    var ra, rb := MapResult(f, a), MapResult(f, b);
    if ra.Failure? {
      var i :| FirstFailure(f, a, i) && f(a[i]).error == ra.error;
      assert FirstFailure(f, a + b, i);
      MapResultFirstFailure(f, a + b, i);
    } else if rb.Failure? {
      var i :| FirstFailure(f, b, i) && f(b[i]).error == rb.error;
      assert (a + b)[|a| + i] == b[i];
      assert forall j | 0 <= j < |a| + i :: (a + b)[j] == if j < |a| then a[j] else b[j - |a|];
      assert FirstFailure(f, a + b, |a| + i);
      MapResultFirstFailure(f, a + b, |a| + i);
    } else {
      var ys := ra.value + rb.value;
      forall j | 0 <= j < |a + b| ensures f((a + b)[j]) == Success(ys[j]) {
        if j < |a| {
          assert f(a[j]) == Success(ra.value[j]);
        } else {
          assert f(b[j - |a|]) == Success(rb.value[j - |a|]);
        }
      }
      MapResultAllSuccess(f, a + b, ys);
    }
  }

  /**
   * Mapping one more element `x` after `visited`, where `visited + [x]` begins
   * `all`: an error of `x` is the error of `all`, a result extends the results.
   */
  lemma MapResultPush<A, T, E>(f: A -> Result<T, E>, visited: seq<A>, x: A, all: seq<A>, values: seq<T>)
    requires MapResult(f, visited) == Success(values)
    requires |visited| < |all| && all[..|visited| + 1] == visited + [x]
    ensures f(x).Failure? ==> MapResult(f, all) == Failure(f(x).error)
    ensures f(x).Success? ==> MapResult(f, visited + [x]) == Success(values + [f(x).value])
  {
    MapResultAppend(f, visited, [x]);
    if f(x).Failure? {
      MapResultFirstFailure(f, [x], 0);
      MapResultPrefixFailure(f, all, |visited| + 1);
    } else {
      MapResultAllSuccess(f, [x], [f(x).value]);
    }
  }

  /**
   * When `f` accepts exactly the elements `g` accepts with a result satisfying
   * `ok`, and then gives the same result, mapping with `f` succeeds exactly when
   * mapping with `g` succeeds with every result satisfying `ok`.
   */
  lemma MapResultRefines<A, B, T, E, F>(f: A -> Result<T, E>, xs: seq<A>, g: B -> Result<T, F>, ys: seq<B>, ok: T -> bool)
    requires |xs| == |ys|
    requires forall i | 0 <= i < |xs| :: f(xs[i]).Success? <==> g(ys[i]).Success? && ok(g(ys[i]).value)
    requires forall i | 0 <= i < |xs| :: f(xs[i]).Success? ==> f(xs[i]).value == g(ys[i]).value
    ensures MapResult(f, xs).Success?
            <==> MapResult(g, ys).Success? && forall i | 0 <= i < |ys| :: ok(MapResult(g, ys).value[i])
    ensures MapResult(f, xs).Success? ==> MapResult(f, xs).value == MapResult(g, ys).value
  {
    var r, q := MapResult(f, xs), MapResult(g, ys);
    if r.Success? {
      forall i | 0 <= i < |xs| ensures r.value[i] == q.value[i] {
        assert f(xs[i]) == Success(r.value[i]);
      }
    } else if q.Success? {
      var i :| FirstFailure(f, xs, i);
      assert g(ys[i]) == Success(q.value[i]);
    }
  }

  lemma FirstFailureShift<A, T, E>(f: A -> Result<T, E>, xs: seq<A>, e: E)
    requires xs != [] && f(xs[0]).Success?
    requires exists i :: FirstFailure(f, xs[1..], i) && f(xs[1..][i]).error == e
    ensures exists i :: FirstFailure(f, xs, i) && f(xs[i]).error == e
  {
    var i :| FirstFailure(f, xs[1..], i) && f(xs[1..][i]).error == e;
    assert FirstFailure(f, xs, i + 1);
  }
}
