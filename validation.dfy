/** The request-body schemas of the route handlers, as zod (version 3)
    checks them: each field is validated in the order the schema declares
    it, and the handler reports the message of the first field that fails.
    A request body is given field by field, `None` for an absent field;
    every present field is taken to have the JSON type its schema expects. */
module Validation {
  import opened Common
  import opened NumberText

  const RequiredMessage := "Required"

  /** zod's message for a `.min(n)` check on a number. */
  function MinMessage(n: int): string {
    "Number must be greater than or equal to " + IntToString(n)
  }

  /** zod's message for a `.max(n)` check on a number. */
  function MaxMessage(n: int): string {
    "Number must be less than or equal to " + IntToString(n)
  }

  /** The options of an enumeration as zod lists them: `'a' | 'b' | 'c'`. */
  function JoinQuoted(options: seq<string>): string {
    if options == [] then ""
    else if |options| == 1 then "'" + options[0] + "'"
    else "'" + options[0] + "' | " + JoinQuoted(options[1..])
  }

  /** zod's message for a string outside a `z.enum`. */
  function EnumMessage(options: seq<string>, received: string): string {
    "Invalid enum value. Expected " + JoinQuoted(options) + ", received '" + received + "'"
  }

  /** The value after `.default(d)`: the given one, else the default. */
  function WithDefault<T>(v: Option<T>, default: Option<T>): (r: Option<T>)
    ensures v.Some? ==> r == v
    ensures v.None? ==> r == default
  {
    if v.Some? then v else default
  }

  /** `z.number().min(lo)`, with `.max(hi)` when `hi` is given and
      `.default(d)` when `default` is: the accepted value lies in the
      range, and an absent field without default is "Required". */
  function NumberField(v: Option<int>, lo: int, hi: Option<int>, default: Option<int>): (r: Result<int>)
    ensures r.Success? <==>
      WithDefault(v, default).Some? && lo <= WithDefault(v, default).value
      && (hi.Some? ==> WithDefault(v, default).value <= hi.value)
    ensures r.Success? ==> Some(r.value) == WithDefault(v, default)
    ensures WithDefault(v, default).None? ==> r == Failure(RequiredMessage)
    ensures WithDefault(v, default).Some? && WithDefault(v, default).value < lo ==> r == Failure(MinMessage(lo))
    ensures WithDefault(v, default).Some? && lo <= WithDefault(v, default).value && hi.Some? && WithDefault(v, default).value > hi.value
      ==> r == Failure(MaxMessage(hi.value))
  {
    match WithDefault(v, default)
    case None => Failure(RequiredMessage)
    case Some(x) =>
      if x < lo then Failure(MinMessage(lo))
      else if hi.Some? && x > hi.value then Failure(MaxMessage(hi.value))
      else Success(x)
  }

  /** The same check on a number that may be fractional (`real`). */
  function RealField(v: Option<real>, lo: int, default: Option<real>): (r: Result<real>)
    ensures r.Success? <==> WithDefault(v, default).Some? && lo as real <= WithDefault(v, default).value
    ensures r.Success? ==> Some(r.value) == WithDefault(v, default)
    ensures WithDefault(v, default).None? ==> r == Failure(RequiredMessage)
    ensures WithDefault(v, default).Some? && WithDefault(v, default).value < lo as real ==> r == Failure(MinMessage(lo))
  {
    match WithDefault(v, default)
    case None => Failure(RequiredMessage)
    case Some(x) => if x < lo as real then Failure(MinMessage(lo)) else Success(x)
  }

  /** An `.optional()` number: absence is accepted as absence. */
  function OptionalNumberField(v: Option<int>, lo: int, hi: Option<int>): (r: Result<Option<int>>)
    ensures v.None? ==> r == Success(None)
    ensures v.Some? ==> (r.Success? <==> NumberField(v, lo, hi, None).Success?)
    ensures v.Some? && r.Success? ==> r.value == v
    ensures r.Failure? ==> r.error == NumberField(v, lo, hi, None).error
  {
    if v.None? then Success(None)
    else match NumberField(v, lo, hi, None)
      case Failure(e) => Failure(e)
      case Success(x) => Success(Some(x))
  }

  /** The JavaScript `length` of a string: its UTF-16 code units, two for
      a character outside the Basic Multilingual Plane. */
  function Utf16Length(s: string): (n: nat)
    ensures |s| <= n <= 2 * |s|
    ensures n == 0 <==> s == []
  {
    if s == [] then 0
    else (if s[0] as int >= 0x1_0000 then 2 else 1) + Utf16Length(s[1..])
  }

  /** `z.string().min(n, message)`: present and at least `n` UTF-16 code
      units long. */
  function StringField(v: Option<string>, minLength: nat, message: string): (r: Result<string>)
    ensures r.Success? <==> v.Some? && Utf16Length(v.value) >= minLength
    ensures r.Success? ==> r.value == v.value
    ensures v.None? ==> r == Failure(RequiredMessage)
    ensures v.Some? && Utf16Length(v.value) < minLength ==> r == Failure(message)
  {
    match v
    case None => Failure(RequiredMessage)
    case Some(s) => if Utf16Length(s) < minLength then Failure(message) else Success(s)
  }

  /** `z.enum(options)`, with `.default(d)` when `default` is given. */
  function EnumField(v: Option<string>, options: seq<string>, default: Option<string>): (r: Result<string>)
    ensures r.Success? <==> WithDefault(v, default).Some? && WithDefault(v, default).value in options
    ensures r.Success? ==> Some(r.value) == WithDefault(v, default)
    ensures WithDefault(v, default).None? ==> r == Failure(RequiredMessage)
    ensures WithDefault(v, default).Some? && WithDefault(v, default).value !in options
      ==> r == Failure(EnumMessage(options, WithDefault(v, default).value))
  {
    match WithDefault(v, default)
    case None => Failure(RequiredMessage)
    case Some(x) => if x in options then Success(x) else Failure(EnumMessage(options, x))
  }

  /** An `.optional()` enumeration. */
  function OptionalEnumField(v: Option<string>, options: seq<string>): (r: Result<Option<string>>)
    ensures r.Success? <==> v.None? || v.value in options
    ensures r.Success? ==> r.value == v
    ensures r.Failure? ==> r.error == EnumMessage(options, v.value)
  {
    match v
    case None => Success(None)
    case Some(x) => if x in options then Success(Some(x)) else Failure(EnumMessage(options, x))
  }

  /** The failure message of one field's check, if it failed. */
  function ErrorOf<T>(r: Result<T>): (e: Option<string>)
    ensures e.Some? <==> r.Failure?
    ensures e.Some? ==> e.value == r.error
  {
    if r.Failure? then Some(r.error) else None
  }

  /** `error.errors[0].message` for two consecutive fields: the first
      field's message when it failed, otherwise the second's. Nested, it
      gives the first failing field of a whole schema. */
  function First(first: Option<string>, rest: Option<string>): (r: Option<string>)
    ensures first.Some? ==> r == first
    ensures first.None? ==> r == rest
    ensures r.None? <==> first.None? && rest.None?
  {
    if first.Some? then first else rest
  }
}
