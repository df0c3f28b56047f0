/** Rust's `Option<T>`, with the one combinator the style merge uses. */
module Options {

  datatype Option<T> = None | Some(value: T) {

    /** `Option::or`: this value when it is `Some`, otherwise `other`. */
    function Or(other: Option<T>): Option<T> {
      if Some? then this else other
    }
  }
}
