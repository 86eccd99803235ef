/**
 * The collaborators the core calls but does not implement: the database
 * connection and the JavaScript `Date` and `slugify` library functions.
 * They are not re-implemented; the operations that use them take them as
 * parameters, so every property is proved for every behaviour they may have.
 */
module Platform {
  import opened Wrappers

  /** A string with at least one character. */
  type NonEmptyString = s: string | s != [] witness "0"

  /** A thrown value: an `Error` carrying its `message`, or anything else. */
  datatype Thrown = ErrorObject(message: string) | OtherValue

  /** The outcome of `dbConnect()`: it either succeeds or throws. */
  datatype Connection = Connected | ConnectFailed(thrown: Thrown)

  /**
   * The library behaviour the core relies on, left uninterpreted.
   * - slugify: `slugify(title, { lower: true, strict: true })`.
   * - isoDay: `new Date(s).toISOString().split('T')[0]`; `None` when
   *   `toISOString` throws because the date is invalid.
   * - clockTime: `new Date('1970-01-01T' + s).toLocaleTimeString('en-US',
   *   { hour12: false, hour: '2-digit', minute: '2-digit' })`, which never
   *   throws (an invalid time gives the text "Invalid Date").
   * - dateIsValid: `!isNaN(new Date(s).getTime())`.
   * - dateText: the text Mongoose stores when a `Date` built from `s` is
   *   cast to a `String` path.
   */
  datatype Runtime = Runtime(
    slugify: string -> string,
    isoDay: string -> Option<NonEmptyString>,
    clockTime: string -> NonEmptyString,
    dateIsValid: string -> bool,
    dateText: string -> string)
}
