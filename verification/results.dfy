/** Failure-compatible wrappers and the exceptions the places tool can raise. */
module Results {

  datatype Option<+T> = None | Some(value: T)

  /** The ways a run can stop. Each stands for a Python exception raised by the tool. */
  datatype Error =
    | UnpackMismatch(expected: nat, got: nat)  // ValueError: tuple unpacking of the wrong length
    | SegmentMissing(index: nat)                // IndexError: a list index past the end
    | NotAFloat(text: string)                   // ValueError: float() of a non-number
    | GeocodingFailed                           // the geocoder found no match for the location
    | MissingLocationInput                      // neither lat_long nor location was given
    | MissingKey(key: string)                   // KeyError: a key absent from a response document
    | CacheUnreadable                           // the cached JSON file could not be opened

  datatype Result<+T> = Success(value: T) | Failure(error: Error) {
    predicate IsFailure() {
      Failure?
    }

    function PropagateFailure<U>(): Result<U>
      requires Failure?
    {
      Failure(error)
    }

    function Extract(): T
      requires Success?
    {
      value
    }
  }

  /** Python's unpacking `x, y = xs`: fails unless there are exactly two values. */
  function Unpack2<T>(xs: seq<T>): (r: Result<(T, T)>)
    ensures r.Success? <==> |xs| == 2
    ensures r.Success? ==> xs == [r.value.0, r.value.1]
    ensures r.Failure? ==> r.error == UnpackMismatch(2, |xs|)
  {
    if |xs| == 2 then Success((xs[0], xs[1])) else Failure(UnpackMismatch(2, |xs|))
  }
}
