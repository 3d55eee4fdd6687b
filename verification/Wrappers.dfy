/** Values shared by the whole model. */
module Wrappers {
  datatype Option<+T> = None | Some(value: T) {
    function Or(fallback: T): T {
      if Some? then value else fallback
    }
  }

  /** The exceptions a service call throws. */
  datatype Error = Forbidden | BadRequest | NotFound

  datatype Result<+T> = Ok(value: T) | Err(error: Error)

  ghost predicate NoRepeats<T>(s: seq<T>) {
    forall i, j :: 0 <= i < j < |s| ==> s[i] != s[j]
  }
}
