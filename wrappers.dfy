/** Option and Result values standing in for Python's `None` and raised exceptions. */
module Wrappers {

  datatype Option<+T> = None | Some(value: T) {
    function GetOr(default: T): T {
      match this
      case Some(v) => v
      case None => default
    }
  }

  datatype Result<+R, +E> = Success(value: R) | Failure(error: E)

  /** A check that either passes or raises the carried error. */
  datatype Outcome<+E> = Pass | Fail(error: E)

  /** The items a loop has produced so far in front of what the rest of the loop yields; a failure stays a failure. */
  function Prepend<T, E>(done: seq<T>, rest: Result<seq<T>, E>): (r: Result<seq<T>, E>)
    ensures r.Success? <==> rest.Success?
    ensures r.Success? ==> |r.value| == |done| + |rest.value| && r.value[..|done|] == done && r.value[|done|..] == rest.value
    ensures r.Failure? ==> r.error == rest.error
  {
    match rest
    case Success(xs) => Success(done + xs)
    case Failure(e) => Failure(e)
  }

  /** One more item produced moves from the rest of the loop to the part already done. */
  lemma PrependStep<T, E>(done: seq<T>, x: T, rest: Result<seq<T>, E>)
    ensures Prepend(done, match rest case Success(xs) => Success([x] + xs) case Failure(e) => Failure(e)) ==
            Prepend(done + [x], rest)
  {
    if rest.Success? {
      assert done + ([x] + rest.value) == (done + [x]) + rest.value;
    }
  }
}
