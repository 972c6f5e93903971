/** An optional value. */
module Optionals {
  datatype Maybe<+T> = None | Some(value: T) {
    function GetOr(default: T): (r: T) {
      if Some? then value else default
    }
  }
}
