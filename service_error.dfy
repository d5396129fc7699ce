/** The error record every service and repository returns, and its HTTP response. */
module ServiceErrors {

  /** `u16`, the type of the status code the error carries. */
  type StatusCode = x: int | 0 <= x < 0x1_0000

  datatype ServiceError = ServiceError(message: string, statusCode: StatusCode)

  /** `ServiceError::new`: keeps the message text and the status code as given. */
  function New(message: string, statusCode: StatusCode): (e: ServiceError)
    ensures e.message == message && e.statusCode == statusCode
  {
    ServiceError(message, statusCode)
  }

  /** `ServiceError::bad_request`: a client error, 400. */
  function BadRequest(message: string): (e: ServiceError)
    ensures e.message == message && e.statusCode == 400 && IsClientError(e)
  {
    New(message, 400)
  }

  /** `ServiceError::not_found`: a client error, 404. */
  function NotFound(message: string): (e: ServiceError)
    ensures e.message == message && e.statusCode == 404 && IsClientError(e)
  {
    New(message, 404)
  }

  /** `ServiceError::internal_error`: a server error, 500. */
  function InternalError(message: string): (e: ServiceError)
    ensures e.message == message && e.statusCode == 500 && !IsClientError(e)
  {
    New(message, 500)
  }

  predicate IsClientError(e: ServiceError)
  {
    400 <= e.statusCode < 500
  }

  /** The three constructors never produce the same error, whatever their messages. */
  lemma ConstructorsDistinct(m1: string, m2: string)
    ensures BadRequest(m1) != NotFound(m2)
    ensures BadRequest(m1) != InternalError(m2)
    ensures NotFound(m1) != InternalError(m2)
  {
  }

  /** `Display`: an error prints as its message alone. */
  function Display(e: ServiceError): string
  {
    e.message
  }

  /** The HTTP response a handler sends for an error: a status and the error as JSON body. */
  datatype HttpErrorResponse = HttpErrorResponse(status: StatusCode, body: ServiceError)

  /**
   * `error_response` as written: `self.status_code()` calls the `ResponseError`
   * trait method, not the field, and actix-web's default for it is 500.
   */
  function ErrorResponseAsWritten(e: ServiceError): (r: HttpErrorResponse)
    ensures r.status == 500 && r.body == e
  {
    HttpErrorResponse(500, e)
  }

  /** The response as written sends every client error with status 500. */
  lemma ClientErrorsSentAs500(m: string)
    ensures ErrorResponseAsWritten(BadRequest(m)).status != BadRequest(m).statusCode
    ensures ErrorResponseAsWritten(NotFound(m)).status != NotFound(m).statusCode
  {
  }

  /** `error_response` as intended: the status on the wire is the error's own code. */
  function ErrorResponse(e: ServiceError): (r: HttpErrorResponse)
    ensures r.status == e.statusCode && r.body == e
    ensures IsClientError(e) <==> 400 <= r.status < 500
  {
    HttpErrorResponse(e.statusCode, e)
  }
}
