/** What a route handler hands back to the framework. */
module Http {
  import opened Base
  import opened Cookies

  /** A JSON response: status, body and the `Set-Cookie` it carries, if any. */
  datatype Response<B> = Response(status: int, body: B, cookie: Option<Cookie>)

  /** A handler either returns a response or lets an exception escape to the
      framework (which answers 500 on its own). */
  datatype Handled<R> = Returned(response: R) | Threw

  /** `NextResponse.json(body)` with the default status. */
  function Json<B>(body: B): Response<B> {
    Response(200, body, None)
  }

  /** `NextResponse.json(body, { status })` */
  function JsonWithStatus<B>(body: B, status: int): Response<B> {
    Response(status, body, None)
  }
}
