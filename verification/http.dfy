/**
 * What the API route handlers share: the parsed request body, the JSON
 * response (`{success: true, data}` or `{error}` with a status), the catch
 * clause that turns a thrown value into a 500 response, and the URL checks
 * that open the info and download handlers.
 */
module Http {
  import opened Wrappers
  import opened Text

  /** `await request.json()`: the parsed fields, or the message of the syntax error it threw. */
  datatype Body<T> = Parsed(fields: T) | Malformed(message: string)

  /** A value a handler threw: an `Error` and its message, or anything else. */
  datatype Thrown = ErrorValue(message: string) | OtherValue

  /** `{success: true, data}` with status 200, or `{error}` with another status. */
  datatype Response<T> = Ok(data: T) | Fail(status: int, error: string)

  const BadRequest := 400
  const ServerError := 500

  const UrlRequired := "URL is required"
  const InvalidUrl := "Invalid URL format"

  /** The catch clause: status 500 with the error's message, or `fallback` for a non-`Error` value. */
  function Caught<T>(thrown: Thrown, fallback: string): (r: Response<T>)
    ensures r.Fail? && r.status == ServerError
    ensures r.error == (if thrown.ErrorValue? then thrown.message else fallback)
  {
    match thrown
    case ErrorValue(msg) => Fail(ServerError, msg)
    case OtherValue => Fail(ServerError, fallback)
  }

  /**
   * The two URL checks, in order: a missing or empty `url`, then one the
   * `URL` constructor rejects (`urlParses` stands for the WHATWG URL
   * parser). `None` when both pass.
   */
  function UrlError(url: Option<string>, urlParses: string -> bool): (e: Option<string>)
    ensures e.None? <==> Truthy(url) && urlParses(url.value)
    ensures e == Some(UrlRequired) <==> !Truthy(url)
    ensures e == Some(InvalidUrl) <==> Truthy(url) && !urlParses(url.value)
  {
    if !Truthy(url) then Some(UrlRequired)
    else if !urlParses(url.value) then Some(InvalidUrl)
    else None
  }
}
