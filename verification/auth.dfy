/**
 * The authentication middleware that wraps the gateway route: it either
 * rejects the request with 401 or attaches the authenticated user to the
 * request and hands it to the downstream handler.
 */
module Auth {
  import opened Wrappers

  const UNAUTHORIZED: nat := 401
  const MISSING_JWT_CLIENT: string := "failed to get jwt client extension"

  /** An early answer: a status code and a text body. */
  datatype Rejection = Rejection(status: nat, message: string)

  /**
   * The part of an incoming request the middleware touches: its typed
   * extensions (the JWT client `C` and the authenticated user `U`) and
   * everything else (`B`: method, headers, body) as one opaque value.
   */
  datatype Request<C, U, B> = Request(jwtClient: Option<C>, user: Option<U>, rest: B)

  /**
   * One run of the middleware: what it answered, and every request it
   * handed to the downstream handler, in order.
   */
  datatype Run<C, U, B, R> = Run(result: Result<R, Rejection>, forwarded: seq<Request<C, U, B>>)

  /**
   * `auth_request`. The token check itself is the oracle `authenticate`;
   * `show` renders its error the way the source's pretty debug format does,
   * and `next` is the downstream handler.
   */
  function AuthRequest<C, U, B, E, R>(
    req: Request<C, U, B>,
    authenticate: (C, Request<C, U, B>) -> Result<U, E>,
    show: E -> string,
    next: Request<C, U, B> -> R
  ): (run: Run<C, U, B, R>)
    ensures req.jwtClient.None? ==>
      run == Run(Err(Rejection(UNAUTHORIZED, MISSING_JWT_CLIENT)), [])
    ensures req.jwtClient.Some? && authenticate(req.jwtClient.value, req).Err? ==>
      run == Run(Err(Rejection(UNAUTHORIZED, "error: " + show(authenticate(req.jwtClient.value, req).error))), [])
    ensures |run.forwarded| <= 1
    ensures |run.forwarded| == 1 <==> req.jwtClient.Some? && authenticate(req.jwtClient.value, req).Ok?
    ensures run.result.Err? <==> run.forwarded == []
    ensures run.result.Err? ==> run.result.error.status == UNAUTHORIZED
    ensures |run.forwarded| == 1 ==>
      && run.forwarded[0] == req.(user := Some(authenticate(req.jwtClient.value, req).value))
      && run.result == Ok(next(run.forwarded[0]))
  {
    match req.jwtClient
    case None => Run(Err(Rejection(UNAUTHORIZED, MISSING_JWT_CLIENT)), [])
    case Some(client) =>
      match authenticate(client, req)
      case Err(e) => Run(Err(Rejection(UNAUTHORIZED, "error: " + show(e))), [])
      case Ok(user) =>
        var authed := req.(user := Some(user));
        Run(Ok(next(authed)), [authed])
  }

  /**
   * What the downstream handler receives differs from the incoming request
   * only in the user extension, which holds the authenticated user.
   */
  lemma ForwardedRequestOnlyGainsUser<C, U, B, E, R>(
    req: Request<C, U, B>,
    authenticate: (C, Request<C, U, B>) -> Result<U, E>,
    show: E -> string,
    next: Request<C, U, B> -> R
  )
    ensures forall f :: f in AuthRequest(req, authenticate, show, next).forwarded ==>
      && f.jwtClient == req.jwtClient
      && f.rest == req.rest
      && f.user.Some?
      && authenticate(req.jwtClient.value, req) == Ok(f.user.value)
  {
  }
}
