/** Failure-compatible datatypes shared by the whole model.

    - `Option<T>` stands for Rust's `Option<T>`.
    - `Result<T, E>` stands for Rust's `Result<T, E>`; it works with `:-`, which
      plays the role of Rust's `?` operator.
    - `Panic` is the payload of a `panic!`/`expect` that the source raises; an
      operation that can panic returns `Result<T, Panic>`.
 */
module Wrappers {

  datatype Option<+T> = None | Some(value: T)

  datatype Result<+T, +E> = Ok(value: T) | Err(error: E) {

    predicate IsFailure() {
      Err?
    }

    function PropagateFailure<U>(): Result<U, E>
      requires Err?
    {
      Err(error)
    }

    function Extract(): T
      requires Ok?
    {
      value
    }
  }

  /** The message of a `panic!` (or of a failed `expect`). */
  datatype Panic = Panic(message: string)

  /** `iter.map(f).collect::<Result<Vec<_>, _>>()`: applies `f` to every element
      in order and stops at the first failure, which becomes the result. */
  function Collect<A, B, E>(xs: seq<A>, f: A -> Result<B, E>): (r: Result<seq<B>, E>)
    ensures r.Ok? <==> forall i :: 0 <= i < |xs| ==> f(xs[i]).Ok?
    ensures r.Ok? ==> |r.value| == |xs|
    ensures r.Ok? ==> forall i :: 0 <= i < |xs| ==> r.value[i] == f(xs[i]).value
    ensures r.Err? ==>
              exists i :: 0 <= i < |xs| && f(xs[i]) == Err(r.error)
                          && forall j :: 0 <= j < i ==> f(xs[j]).Ok?
  {
    if |xs| == 0 then
      Ok([])
    else
      var head :- f(xs[0]);
      var tail :- Collect(xs[1..], f);
      assert forall i :: 1 <= i < |xs| ==> xs[i] == xs[1..][i - 1];
      Ok([head] + tail)
  }

  /** The first failure of `Collect` is the failure of the first element that fails. */
  lemma CollectFirstFailure<A, B, E>(xs: seq<A>, f: A -> Result<B, E>, i: nat)
    requires i < |xs| && f(xs[i]).Err?
    requires forall j :: 0 <= j < i ==> f(xs[j]).Ok?
    ensures Collect(xs, f) == Err(f(xs[i]).error)
  {
    var r := Collect(xs, f);
    assert r.Err?;
    var k :| 0 <= k < |xs| && f(xs[k]) == Err(r.error) && forall j :: 0 <= j < k ==> f(xs[j]).Ok?;
    assert k == i;
  }

  /** `Collect` depends only on what `f` does on the elements of `xs`. */
  lemma {:induction false} CollectExtensional<A, B, E>(xs: seq<A>, f: A -> Result<B, E>, g: A -> Result<B, E>)
    requires forall i :: 0 <= i < |xs| ==> f(xs[i]) == g(xs[i])
    ensures Collect(xs, f) == Collect(xs, g)
  {
    var r := Collect(xs, f);
    if r.Err? {
      var i :| 0 <= i < |xs| && f(xs[i]) == Err(r.error) && forall j :: 0 <= j < i ==> f(xs[j]).Ok?;
      CollectFirstFailure(xs, g, i);
    } else {
      assert Collect(xs, g).value == r.value;
    }
  }
}
