/** Optional values. `None` stands for JavaScript's `undefined`: a record
    lookup outside the record's keys, or an `Array.prototype.find` that
    matched nothing. */
module Wrappers {

  datatype Option<+T> = None | Some(value: T) {

    /** The encapsulated value, or `default` when there is none (the `?? d` / `|| d` idiom). */
    function GetOr(default: T): T
    {
      match this
      case Some(v) => v
      case None => default
    }
  }
}
