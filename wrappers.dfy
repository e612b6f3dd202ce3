/** Option and Result types shared by the three converters, and the Python
    exceptions the converters can raise, as values. */
module Wrappers {

  datatype Option<+T> = None | Some(value: T)

  /** The exceptions that escape the converters. */
  datatype Error =
    | ValueError          // `float(token)` rejected a token
    | IndexError          // a list was indexed past its end
    | FrameCountMismatch  // the frame-count assertion of the trajectory driver failed

  /** The outcome of a conversion: a value, or the exception that aborted it. */
  datatype Result<+T> = Ok(value: T) | Err(error: Error) {
    predicate IsFailure() {
      Err?
    }

    function PropagateFailure<U>(): Result<U>
      requires Err?
    {
      Err(error)
    }

    function Extract(): T
      requires Ok?
    {
      value
    }
  }

  /** `xs` put in front of a successful list; an error stays an error. */
  function Prepend<T>(xs: seq<T>, r: Result<seq<T>>): (p: Result<seq<T>>)
    ensures p.Ok? <==> r.Ok?
    ensures p.Ok? ==> p.value == xs + r.value
    ensures p.Err? ==> p.error == r.error
  {
    match r
    case Ok(ys) => Ok(xs + ys)
    case Err(e) => Err(e)
  }

  lemma {:induction false} PrependNothing<T>(r: Result<seq<T>>)
    ensures Prepend([], r) == r
  {
    if r.Ok? {
      assert [] + r.value == r.value;
    }
  }

  lemma {:induction false} PrependTwice<T>(xs: seq<T>, ys: seq<T>, r: Result<seq<T>>)
    ensures Prepend(xs, Prepend(ys, r)) == Prepend(xs + ys, r)
  {
    if r.Ok? {
      assert xs + (ys + r.value) == (xs + ys) + r.value;
    }
  }
}
