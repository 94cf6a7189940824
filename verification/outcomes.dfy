/** Go's `(value, error)` return convention, and the errors the bloom package produces. */
module Outcomes {

  /** A Go `error` that may be nil. */
  datatype Option<+T> = None | Some(value: T)

  /** The three distinct errors of pkg/bloom/stdbloomfilter.go. The constructor and
      GetNumHashFunctions share one message, hence one constructor here. */
  datatype Error =
    | BitArraySizeArgs   // N or P rejected by GetBitArraySize
    | InvalidSize        // N <= 0, rejected by GetNumHashFunctions or the constructor
    | SizeLimitReached   // Add on a filter already holding N elements

  /** A Go result pair: the returned value together with the returned error (None is nil). */
  datatype Returns<+T> = Returns(value: T, err: Option<Error>) {
    predicate Failed() { err.Some? }
  }
}
