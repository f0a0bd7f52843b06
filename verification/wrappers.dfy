/** The Option datatype used for JavaScript's `undefined`/`null`/`NaN` and for
    operations that may fail. */
module Wrappers {

  datatype Option<+T> = None | Some(value: T) {

    /** Returns the value held in Some, or `default` when None. */
    function GetOr(default: T): T {
      match this
      case Some(v) => v
      case None => default
    }
  }

  /** JavaScript truthiness of a value that may be undefined, where `falsy`
      is the one falsy value of its type (0 for numbers, "" for strings;
      a NaN is represented by None). */
  predicate Truthy<T(==)>(o: Option<T>, falsy: T) {
    o.Some? && o.value != falsy
  }
}
