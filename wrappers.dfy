/** Failure-carrying values shared by every server action and client hook. */
module Wrappers {

  datatype Option<+T> = None | Some(value: T)

  /**
   * An argument a caller may leave out: `undefined`, or given, possibly as
   * `null` (`Given(None)`).
   */
  datatype Arg<T> = Undefined | Given(value: Option<T>)

  /**
   * A default parameter `x = d`: the default replaces only an argument left
   * `undefined`; a given `null` stays `null`.
   */
  function WithDefault<T>(arg: Arg<T>, d: T): (x: Option<T>)
    ensures arg.Undefined? ==> x == Some(d)
    ensures arg.Given? ==> x == arg.value
    ensures x.None? <==> arg == Given(None)
  {
    if arg.Given? then arg.value else Some(d)
  }

  /** `if (x !== undefined) data.field = x`: the new value of one field. */
  function Apply<T>(arg: Arg<T>, current: Option<T>): (updated: Option<T>)
    ensures arg.Undefined? ==> updated == current
    ensures arg.Given? ==> updated == arg.value
  {
    if arg.Given? then arg.value else current
  }

  /** The HttpError(status, message) that a server action throws. */
  datatype HttpError = HttpError(status: int, message: string)

  /** What a server action returns: its value, or the HttpError it throws. */
  datatype Result<+T> = Ok(value: T) | Err(error: HttpError)

  const BadRequest := 400
  const Unauthorized := 401
  const Forbidden := 403
  const NotFound := 404
  const InternalError := 500

  /** Status of a failed result, 200 for success. */
  function StatusOf<T>(r: Result<T>): int
  {
    if r.Ok? then 200 else r.error.status
  }
}
