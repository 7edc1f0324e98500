/** Optional arguments and Python truthiness.

    The keyword arguments of the client functions default to `None`; the code
    tests them with a bare `if`, so `None` and an empty string or list count
    as "not supplied". */
module Optional {

  datatype Option<+T> = None | Some(value: T)

  /** Python truthiness of an optional string or list: supplied and non-empty. */
  predicate Truthy<T>(o: Option<seq<T>>) {
    o.Some? && |o.value| > 0
  }

  /** The supplied list, or the empty list when the argument is falsy. */
  function ListOrEmpty<T>(o: Option<seq<T>>): seq<T> {
    if Truthy(o) then o.value else []
  }
}
