/** Vocabulary shared by the models. */
module Prelude {

  datatype Option<+T> = None | Some(value: T) {
    /** The value, or a fallback: the source's `??` operator. */
    function GetOr(fallback: T): T {
      match this
      case Some(v) => v
      case None => fallback
    }
  }

  /** What a call gives its caller: an answer, or an exception. */
  datatype Outcome<T> = Answer(value: T) | Failure

  function Min(a: int, b: int): int {
    if a <= b then a else b
  }

  function Max(a: int, b: int): int {
    if a <= b then b else a
  }

  function Pow2(n: nat): (p: nat)
    ensures p >= 1
  {
    if n == 0 then 1 else 2 * Pow2(n - 1)
  }
}
