/** Rust's `Option`, with the one combinator the library uses (`Option::or`). */
module Wrappers {

  datatype Option<+T> = None | Some(value: T) {

    /** `Option::or`: this value when present, otherwise `other`. */
    function Or(other: Option<T>): (r: Option<T>)
      ensures Some? ==> r == this
      ensures None? ==> r == other
    {
      if Some? then this else other
    }
  }
}
