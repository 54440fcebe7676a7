/** Python's `None`-or-value results, as the bot's code uses them. */
module Wrappers {

  datatype Option<+T> = None | Some(value: T)

  /** Python truthiness of an optional string: `None` and `""` are false. */
  predicate Truthy(s: Option<string>) {
    s.Some? && s.value != ""
  }

  /** Python's `s or default` for an optional string. */
  function OrElse(s: Option<string>, default: string): string
  {
    if Truthy(s) then s.value else default
  }
}
