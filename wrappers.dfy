/** Option and Outcome, the failure-carrying values used across the model. */
module Wrappers {

  datatype Option<+T> = None | Some(value: T) {

    /** This value if present, otherwise `other`. */
    function Or(other: Option<T>): Option<T> {
      if Some? then this else other
    }
  }

  /** The source's exceptions: `Fail` stands for a raised error, `Pass` for a normal return. */
  datatype Outcome<+E> = Pass | Fail(error: E)
}
