/** An optional value: SQL NULL, a missing dictionary key, JavaScript null. */
module Wrappers {

  datatype Option<+T> = None | Some(value: T)

  /**
   * Truthiness of an optional string, which Python's `or`/`if` and
   * JavaScript's `if` agree on: present and not empty.
   */
  predicate Truthy(s: Option<string>)
  {
    s.Some? && s.value != ""
  }

  /** SQL `COALESCE(given, current)`: the given value when it is not NULL, else the current one. */
  function Coalesce<T>(given: Option<T>, current: Option<T>): Option<T>
  {
    if given.Some? then given else current
  }
}
