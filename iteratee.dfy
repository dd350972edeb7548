/** The optional value used for Java's `null` line and for `fj.data.Option`. */
module Options {

  datatype Option<+T> = None | Some(value: T)

}

/**
 * The incremental consumer ("iteratee") that the enumerator drives.
 *
 * The consumer is a library type of the system; only the interface the
 * enumerator relies on is modelled. A consumer is either `Done`, holding its
 * result and the input it did not consume, or `Cont`, waiting in some state
 * `S` for the next input. A step function (supplied with the consumer) takes a
 * waiting state and one input to the next consumer; `Done` has no step at all,
 * so feeding a finished consumer cannot even be written.
 */
module Iteratee {

  import opened Options

  /** One datum handed to a consumer. */
  datatype Input<E> = Empty | El(e: E) | Eof

  /** A consumer: finished with a result and leftover input, or waiting in a state. */
  datatype IterV<S, E, A> = Done(value: A, rest: Input<E>) | Cont(state: S)

  /** The transition function of a waiting consumer. */
  type Step<!S, !E, A> = (S, Input<E>) -> IterV<S, E, A>

  /**
   * `IterV.run`: the result of a finished consumer, or of a waiting one after
   * it is sent end-of-input; `None` stands for the "diverging iteratee" error
   * raised when it still does not finish.
   */
  function Run<S, E, A>(step: Step<S, E, A>, i: IterV<S, E, A>): Option<A>
  {
    match i
    case Done(a, _) => Some(a)
    case Cont(s) =>
      match step(s, Eof)
      case Done(a, _) => Some(a)
      case Cont(_) => None
  }

}
