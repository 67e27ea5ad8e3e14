/** Small datatypes shared by every component model. */
module Basics {

  /** A reference or lookup that may be nil or missing. */
  datatype Option<+T> = None | Some(value: T) {
    function GetOr(default: T): T
    {
      if Some? then value else default
    }
  }
}
