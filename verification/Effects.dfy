/**
 A computation over a world whose effects may fail: it stops with the world as it was left, or goes on with a value.
 */
module Effects {

  datatype Step<W, E, +T> = Stop(w: W, why: E) | Go(w: W, value: T) {
    predicate IsFailure() { Stop? }

    function PropagateFailure<U>(): Step<W, E, U>
      requires Stop?
    {
      Stop(w, why)
    }

    function Extract(): (W, T)
      requires Go?
    {
      (w, value)
    }
  }
}
