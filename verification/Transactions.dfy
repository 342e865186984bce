/**
 * The transaction wrapper of src/db/tenant.ts: a callback works on an open transaction, which
 * commits when the callback returns and rolls back when it throws.
 */
module Transactions {
  import opened Prelude

  /** How a callback ended: with a value and the state its statements left, or by throwing. */
  datatype Ran<S, T> = Returned(state: S, value: T) | Threw

  function Committed<S, T>(before: S, ran: Ran<S, T>): S {
    if ran.Returned? then ran.state else before
  }

  class Database<S> {
    var committed: S

    constructor (initial: S)
      ensures committed == initial
    {
      committed := initial;
    }

    /** The end of the wrapper, once the callback has returned or thrown. */
    method Finish<T>(ran: Ran<S, T>) returns (r: Outcome<T>)
      modifies this
      ensures committed == Committed(old(committed), ran)
      ensures r == if ran.Returned? then Answer(ran.value) else Failure
    {
      match ran {
        case Returned(state, value) =>
          committed := state;
          return Answer(value);
        case Threw =>
          return Failure;
      }
    }

    /** A callback that computes the state it leaves. */
    method WithServiceContext<T>(body: S -> Ran<S, T>) returns (r: Outcome<T>)
      modifies this
      ensures committed == Committed(old(committed), body(old(committed)))
      ensures r == if body(old(committed)).Returned? then Answer(body(old(committed)).value) else Failure
    {
      r := Finish(body(committed));
    }
  }
}
