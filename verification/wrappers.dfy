/** Optional values, and JavaScript's notion of a "falsy" optional string. */
module Wrappers {

  /** A JSON field that may be absent (or null). */
  datatype Option<+T> = None | Some(value: T)

  /**
   * `!x` in JavaScript for a string-valued field: absent, null or the empty
   * string are the only falsy values; every non-empty string is truthy.
   */
  predicate Falsy(x: Option<string>)
    ensures Falsy(x) <==> x == None || x == Some("")
  {
    x.None? || x.value == ""
  }

  /** `x || null`: a falsy string becomes null, anything else is kept verbatim. */
  function OrNull(x: Option<string>): (r: Option<string>)
    ensures r.None? <==> Falsy(x)
    ensures r.Some? ==> r == x && r.value != ""
  {
    if Falsy(x) then None else x
  }

  /** `x || fallback`: a falsy string becomes `fallback`. */
  function OrElse(x: Option<string>, fallback: string): (r: string)
    ensures Falsy(x) ==> r == fallback
    ensures !Falsy(x) ==> Some(r) == x
  {
    if Falsy(x) then fallback else x.value
  }
}
