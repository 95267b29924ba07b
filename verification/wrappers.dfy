/** Value shapes shared by the services: JavaScript's `null`, the outcome of a
    promise, and the record a stateful step produces. */
module Wrappers {

  /** A value or JavaScript `null`. */
  datatype Option<T> = None | Some(value: T)

  /** How an awaited promise settles: with a value, or by throwing. */
  datatype Settled<T> = Fulfilled(value: T) | Rejected

  /** What one call of a stateful operation produces: the value its promise
      settles to, the module state afterwards, and the host calls it made, in
      order. */
  datatype Step<R, S, C> = Step(result: R, state: S, calls: seq<C>)

  /** What one call of a stateless host negotiation produces: the value its
      promise settles to and the host calls it made, in order. */
  datatype Traced<R, C> = Traced(result: R, calls: seq<C>)
}
