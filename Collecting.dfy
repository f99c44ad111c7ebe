/**
 * The loop `for x in xs: out.append(f(x))` where `f` may raise: the results
 * in order, or the exception of the first element that raises.
 */
module Collecting {
  import opened Wrappers

  /**
   * Converting each element in order and collecting the results; the first
   * conversion that raises ends the loop with its error.
   */
  function Collect<T, U, E>(xs: seq<T>, f: T -> Result<U, E>): Result<seq<U>, E>
  {
    if xs == [] then Ok([])
    else
      var front := Collect(xs[..|xs| - 1], f);
      if front.Err? then front
      else
        var r := f(xs[|xs| - 1]);
        if r.Err? then Err(r.error) else Ok(front.value + [r.value])
  }

  /** Collecting succeeds exactly when every conversion does, and then yields their results in order. */
  lemma {:induction false} CollectOk<T, U, E>(xs: seq<T>, f: T -> Result<U, E>)
    ensures Collect(xs, f).Ok? <==> forall i :: 0 <= i < |xs| ==> f(xs[i]).Ok?
    ensures Collect(xs, f).Ok? ==>
      |Collect(xs, f).value| == |xs| && forall i :: 0 <= i < |xs| ==> f(xs[i]) == Ok(Collect(xs, f).value[i])
  {
    if xs != [] {
      var front := xs[..|xs| - 1];
      CollectOk(front, f);
      assert forall i :: 0 <= i < |front| ==> front[i] == xs[i];
    }
  }

  /** A failed collection reports the error of the first conversion that fails. */
  lemma {:induction false} CollectFirstError<T, U, E>(xs: seq<T>, f: T -> Result<U, E>) returns (i: nat)
    requires Collect(xs, f).Err?
    ensures i < |xs| && f(xs[i]) == Err(Collect(xs, f).error)
    ensures forall j :: 0 <= j < i ==> f(xs[j]).Ok?
  {
    var front := xs[..|xs| - 1];
    if Collect(front, f).Err? {
      i := CollectFirstError(front, f);
      assert forall j :: 0 <= j <= i ==> front[j] == xs[j];
    } else {
      CollectOk(front, f);
      assert forall j :: 0 <= j < |front| ==> front[j] == xs[j];
      i := |xs| - 1;
    }
  }

  /** Once a prefix fails to collect, the whole sequence fails with the same error. */
  lemma {:induction false} CollectPrefixError<T, U, E>(xs: seq<T>, f: T -> Result<U, E>, n: nat)
    requires n <= |xs| && Collect(xs[..n], f).Err?
    ensures Collect(xs, f) == Collect(xs[..n], f)
    decreases |xs| - n
  {
    if n < |xs| {
      assert xs[..n + 1][..n] == xs[..n];
      CollectPrefixError(xs, f, n + 1);
    } else {
      assert xs[..n] == xs;
    }
  }

  /** `for x in xs: out.append(f(x))`, leaving with the first exception raised. */
  method CollectLoop<T, U, E>(xs: seq<T>, f: T -> Result<U, E>) returns (r: Result<seq<U>, E>)
    ensures r == Collect(xs, f)
  {
    var out: seq<U> := [];
    var i := 0;
    while i < |xs|
      invariant 0 <= i <= |xs|
      invariant Collect(xs[..i], f) == Ok(out)
    {
      assert xs[..i + 1][..i] == xs[..i];
      var y := f(xs[i]);
      if y.Err? {
        CollectPrefixError(xs, f, i + 1);
        return Err(y.error);
      }
      out := out + [y.value];
      i := i + 1;
    }
    assert xs[..i] == xs;
    return Ok(out);
  }
}
