/**
 * Processing a list one item at a time and returning at the first error, as
 * both parse loops do: either every item's result, in order, or the error of
 * the first item that fails.
 */
module FirstFailure {
  import opened Wrappers

  function MapAll<A, T, E>(f: A -> Result<T, E>, xs: seq<A>): Result<seq<T>, E>
    decreases |xs|
  {
    if xs == [] then Success([])
    else
      match MapAll(f, xs[..|xs| - 1])
      case Failure(e) => Failure(e)
      case Success(done) =>
        match f(xs[|xs| - 1])
        case Failure(e) => Failure(e)
        case Success(y) => Success(done + [y])
  }

  /** MapAll succeeds exactly when every item does, and then holds each item's result in place. */
  lemma {:induction false} MapAllSucceeds<A, T, E>(f: A -> Result<T, E>, xs: seq<A>)
    ensures MapAll(f, xs).Success? <==> forall i :: 0 <= i < |xs| ==> f(xs[i]).Success?
    ensures MapAll(f, xs).Success? ==>
              |MapAll(f, xs).value| == |xs| && forall i :: 0 <= i < |xs| ==> MapAll(f, xs).value[i] == f(xs[i]).value
    decreases |xs|
  {
    if xs != [] {
      var init := xs[..|xs| - 1];
      MapAllSucceeds(f, init);
      assert forall i :: 0 <= i < |init| ==> init[i] == xs[i];
    }
  }

  /** An item that succeeds extends the processed prefix by its result. */
  lemma ExtendsOnSuccess<A, T, E>(f: A -> Result<T, E>, xs: seq<A>, i: nat, done: seq<T>)
    requires i < |xs| && MapAll(f, xs[..i]) == Success(done) && f(xs[i]).Success?
    ensures MapAll(f, xs[..i + 1]) == Success(done + [f(xs[i]).value])
  {
    assert xs[..i + 1][..i] == xs[..i];
  }

  /** Once a prefix fails, the whole list fails with the same error. */
  lemma {:induction false} PrefixFailureStands<A, T, E>(f: A -> Result<T, E>, xs: seq<A>, n: nat)
    requires n <= |xs| && MapAll(f, xs[..n]).Failure?
    ensures MapAll(f, xs) == MapAll(f, xs[..n])
    decreases |xs| - n
  {
    if n < |xs| {
      assert xs[..n + 1][..n] == xs[..n];
      PrefixFailureStands(f, xs, n + 1);
    } else {
      assert xs[..n] == xs;
    }
  }

  /** The first item that fails decides the error of the whole list. */
  lemma StopsAtFailure<A, T, E>(f: A -> Result<T, E>, xs: seq<A>, i: nat, done: seq<T>)
    requires i < |xs| && MapAll(f, xs[..i]) == Success(done) && f(xs[i]).Failure?
    ensures MapAll(f, xs) == Failure(f(xs[i]).error)
  {
    assert xs[..i + 1][..i] == xs[..i];
    PrefixFailureStands(f, xs, i + 1);
  }
}
