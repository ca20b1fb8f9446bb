/** The JavaScript value shapes the model needs: a parameter that may be
    `undefined` or `null`, JavaScript truthiness of such a parameter, and a
    call that may throw. */
module Js {

  /** A parameter typed `T | null | undefined`, or an optional parameter. */
  datatype Nullable<+T> = Undefined | Null | Defined(value: T)

  /** The only exception the core can see: `new URL(s)` throws a TypeError
      when `s` cannot be parsed. */
  datatype Error = InvalidUrl(input: string)

  /** The outcome of a call that may throw. */
  datatype Result<+T> = Ok(value: T) | Err(error: Error)

  /** JavaScript truthiness of an optional string: `undefined`, `null` and
      `""` are falsy, every other string is truthy. */
  predicate Truthy(v: Nullable<string>)
  {
    v.Defined? && v.value != ""
  }
}
