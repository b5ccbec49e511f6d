// Optional values and fallible results shared by the other modules.
module Wrappers {

  datatype Option<+T> = None | Some(value: T) {
    // The nil-coalescing operator of the source.
    function Or(default: T): T {
      if Some? then value else default
    }
  }

  datatype Result<+T, +E> = Ok(value: T) | Err(error: E)
}
