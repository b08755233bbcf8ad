/** Optional values and fallible results, standing in for Python's `None`
    and for exceptions that the modelled code catches. */
module Wrappers {

  datatype Option<+T> = None | Some(value: T)

  /** The outcome of a step that may raise: `Err` carries `str(e)`. */
  datatype Result<+T> = Ok(value: T) | Err(message: string)

  /** Python truthiness of an optional string: present and non-empty. */
  predicate Truthy(s: Option<string>) {
    s.Some? && s.value != ""
  }
}
