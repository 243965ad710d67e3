/** Failure-compatible wrappers and the list `map` of the Kotlin standard library,
    where a thrown exception is an `Err` value. */
module Results {

  datatype Option<+T> = None | Some(value: T)

  datatype Result<+T, +E> = Ok(value: T) | Err(error: E) {

    predicate IsFailure() {
      Err?
    }

    function PropagateFailure<U>(): Result<U, E>
      requires Err?
    {
      Err(error)
    }

    function Extract(): T
      requires Ok?
    {
      value
    }
  }

  /** `xs.map(f)` where `f` may throw: the elements are mapped left to right and
      the first exception ends the whole map (`MapAllMeaning`). */
  function MapAll<A, B, E>(xs: seq<A>, f: A -> Result<B, E>): Result<seq<B>, E> {
    if xs == [] then Ok([])
    else
      var y :- f(xs[0]);
      var ys :- MapAll(xs[1..], f);
      Ok([y] + ys)
  }

  /** The map succeeds exactly when `f` succeeds on every element, and then
      holds the results one to one and in order; otherwise its exception is the
      one of the first element on which `f` fails. */
  lemma {:induction false} MapAllMeaning<A, B, E>(xs: seq<A>, f: A -> Result<B, E>)
    ensures var r := MapAll(xs, f);
      && (r.Ok? <==> forall i :: 0 <= i < |xs| ==> f(xs[i]).Ok?)
      && (r.Ok? ==> (|r.value| == |xs| && forall i :: 0 <= i < |xs| ==> f(xs[i]) == Ok(r.value[i])))
      && (r.Err? ==> exists i :: 0 <= i < |xs| && FirstFailure(xs, f, i) && f(xs[i]) == Err(r.error))
  {
    if xs != [] {
      MapAllMeaning(xs[1..], f);
      assert forall i :: 1 <= i < |xs| ==> xs[i] == xs[1..][i - 1];
      var r := MapAll(xs, f);
      if r.Err? && f(xs[0]).Ok? {
        var i :| 0 <= i < |xs| - 1 && FirstFailure(xs[1..], f, i) && f(xs[1..][i]) == Err(r.error);
        assert FirstFailure(xs, f, i + 1);
      }
    }
  }

  /** Element `i` is the first one on which `f` fails. */
  ghost predicate FirstFailure<A, B, E>(xs: seq<A>, f: A -> Result<B, E>, i: int)
    requires 0 <= i < |xs|
  {
    f(xs[i]).Err? && forall j :: 0 <= j < i ==> f(xs[j]).Ok?
  }
}
