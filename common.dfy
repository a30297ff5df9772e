/** Value types shared by the whole model: an optional value, the outcome of an
    HTTP call as a frontend caller sees it, and the outcome of a Python call that
    may raise. Network calls and foreign services are never executed by the
    model: their outcomes are inputs of the operations that consume them. */
module Common {

  datatype Option<+T> = None | Some(value: T)

  /** How an HTTP request failed, seen from the browser: the server answered
      with an error status (its JSON body may carry a `detail` text), or no
      response arrived at all (network failure). */
  datatype HttpError =
    | ErrResponse(status: int, detail: Option<string>)
    | ErrNoResponse

  /** `error.response?.status === 401`. */
  predicate IsUnauthorized(e: HttpError)
  {
    e.ErrResponse? && e.status == 401
  }

  /** The settled result of one request issued through the axios client. */
  datatype Outcome<+T> = Ok(payload: T) | Err(error: HttpError)

  /** The result of calling a Python collaborator (OCR, translation, the
      identity service) that may raise; `exc` is the exception's rendering. */
  datatype Attempt<+T> = Returned(value: T) | Raised(exc: string)

  /** An `HTTPException` raised by a FastAPI route. */
  datatype HttpException = HttpException(status: int, detail: string)

  /** What a FastAPI route does: answer with a body, or raise. */
  datatype RouteResult<+T> = Answer(body: T) | Reject(error: HttpException)

  /** Growing a prefix by one element. */
  lemma PrefixSnoc<T>(s: seq<T>, i: nat)
    requires i < |s|
    ensures s[..i + 1] == s[..i] + [s[i]]
  {
  }
}
