/** JavaScript values that may be null or undefined, and the truthiness tests
    the recipe viewer applies to them. */
module Options {

  /** None stands for both null and undefined. */
  datatype Option<+T> = None | Some(value: T)

  /** A string-valued field is truthy when it is present and not the empty string. */
  predicate IsTruthy(s: Option<string>)
  {
    s.Some? && s.value != ""
  }

  /** `x || fallback` for a string-valued field. */
  function OrElse(s: Option<string>, fallback: string): string
  {
    if IsTruthy(s) then s.value else fallback
  }
}
