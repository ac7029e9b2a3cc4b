/** Option and Result values, and the Python exceptions the modelled code can raise. */
module Results {

  datatype Option<+T> = None | Some(value: T) {
    /** Python's `x if x is not None else default` for a looked-up value. */
    function GetOr(default: T): T {
      match this
      case Some(v) => v
      case None => default
    }
  }

  /** The built-in exceptions raised by the modelled code paths. */
  datatype PyError =
    | KeyError      // `d[k]` on a missing key
    | TypeError     // iterating a value that is not iterable, and similar
    | AttributeError // `.items()` / `.get()` on a value that is not a dict
    | IndexError    // `pop()` from an empty list
    | ValueError    // raised explicitly by the code

  /** Either a value or the exception that aborted the computation. */
  datatype Result<+T> = Ok(value: T) | Err(error: PyError) {
    predicate IsFailure() {
      Err?
    }

    function PropagateFailure<U>(): Result<U>
      requires Err?
    {
      Err(error)
    }

    function Extract(): T
      requires Ok?
    {
      value
    }
  }

  /** Applying `step` to the first `n` elements of `xs` in turn, starting
      from `init`, passing each element's position, and stopping at the
      first error: a loop over a list that may raise. */
  function FoldUpTo<S, X>(step: (S, X, nat) -> Result<S>, init: S, xs: seq<X>, n: nat): Result<S>
    requires n <= |xs|
  {
    if n == 0 then Ok(init)
    else
      var s :- FoldUpTo(step, init, xs, n - 1);
      step(s, xs[n - 1], n - 1)
  }

  /** One more element is one more step from where the loop stands. */
  lemma FoldUpToNext<S, X>(step: (S, X, nat) -> Result<S>, init: S, xs: seq<X>, n: nat, s: S)
    requires n < |xs| && FoldUpTo(step, init, xs, n) == Ok(s)
    ensures FoldUpTo(step, init, xs, n + 1) == step(s, xs[n], n)
  {
  }

  /** An error stops the loop for good. */
  lemma {:induction false} FoldUpToErr<S, X>(step: (S, X, nat) -> Result<S>, init: S, xs: seq<X>, i: nat, n: nat)
    requires i <= n <= |xs| && FoldUpTo(step, init, xs, i).Err?
    ensures FoldUpTo(step, init, xs, n) == Err(FoldUpTo(step, init, xs, i).error)
  {
    if i < n {
      FoldUpToErr(step, init, xs, i, n - 1);
    }
  }
}
