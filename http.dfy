/** The response envelope every handler sends: an HTTP status code and the
    body `{ status, message, data }`, where an empty `data: {}` is None. */
module Http {
  import opened Common

  datatype Response<T> = Response(code: int, status: bool, message: string, data: Option<T>)

  /** An error response: `status: false` and `data: {}`. */
  function Fail<T>(code: int, message: string): Response<T> {
    Response(code, false, message, None)
  }

  /** A success response carrying `data`. */
  function Ok<T>(code: int, message: string, data: Option<T>): Response<T> {
    Response(code, true, message, data)
  }

  /** The `catch` answer of every handler: 500 with `error.message`, or
      `'Something went wrong'` when the message is empty. */
  function Caught<T>(message: string): (r: Response<T>)
    ensures r.code == 500 && !r.status && r.data.None?
    ensures message != "" ==> r.message == message
    ensures message == "" ==> r.message == "Something went wrong"
  {
    Fail(500, if message != "" then message else "Something went wrong")
  }
}
