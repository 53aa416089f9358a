/**
 Values that a JavaScript call can hand back, abstracted from the event loop.
 A call either returns a value at once, throws at once, or returns a promise
 that later resolves or rejects. Only the order of these effects is modelled,
 never their timing.
 */
module Outcomes {

  /** `undefined` versus a present value. */
  datatype Option<+T> = None | Some(value: T)

  /** How a promise settles once it is awaited. */
  datatype Settlement<+V, +E> = Resolves(value: V) | Rejects(error: E)

  /** What the wrapped main function hands back when it is called. */
  datatype Outcome<+V, +E> =
    | Immediate(value: V)
    | Thrown(error: E)
    | Pending(settlement: Settlement<V, E>)
  {
    /** The main function failed: it threw, or its promise rejected. */
    predicate Fails() {
      Thrown? || (Pending? && settlement.Rejects?)
    }

    /** The error of a failed outcome. */
    function Error(): E
      requires Fails()
    {
      if Thrown? then error else settlement.error
    }

    /** The value of a successful outcome. */
    function Value(): V
      requires !Fails()
    {
      if Immediate? then value else settlement.value
    }
  }

  /**
   What a cleanup action hands back when it is called. A native promise is
   one that passes `instanceof Promise`; a foreign thenable has a `then`
   method but was built by some other promise implementation.
   */
  datatype Completion<+E> =
    | Returns
    | Throws(error: E)
    | NativePromise(settles: Settlement<(), E>)
    | ForeignThenable(settles: Settlement<(), E>)
}
