/**
 * The `/api` route of the gateway: one POST endpoint that takes an
 * `ApiRequest`, resolves it for the authenticated caller in a separate
 * task, and turns the outcome into an HTTP answer. The route is wrapped
 * by the authentication middleware.
 */
module Gateway {
  import opened Wrappers
  import opened Json
  import opened ApiRequests
  import opened Auth

  const INTERNAL_SERVER_ERROR: nat := 500
  const JSON_CONTENT_TYPE: string := "application/json"
  /** An abstract message for a handler that finds no user extension (the framework's rejection text is not modelled). */
  const MISSING_USER_EXTENSION: string := "Missing request extension"

  /** A successful answer: a content type header and the body text. */
  datatype Reply = Reply(contentType: string, body: string)

  /** The outcome of awaiting the spawned task: its value, or a join failure such as a panic. */
  datatype Joined<T, J> = Completed(value: T) | JoinFailed(error: J)

  /**
   * The resolvers the derive macro generates, as oracles over the
   * application state `S` and the caller `U`: `text` for the variants
   * marked to resolve to a string, `value` for every other variant, and
   * `serialize` for turning the latter's response into text.
   */
  datatype Resolver<!S, !U, E> = Resolver(
    text: (S, ApiRequest, U) -> Result<string, E>,
    value: (S, ApiRequest, U) -> Result<Json, E>,
    serialize: Json -> string)

  /** `resolve_request`: dispatches on the variant, always passing the caller along. */
  function ResolveRequest<S, U, E>(state: S, req: ApiRequest, user: U, resolver: Resolver<S, U, E>): (r: Result<string, E>)
    ensures StringResolved(req.variant) ==> r == resolver.text(state, req, user)
    ensures !StringResolved(req.variant) ==>
      match resolver.value(state, req, user)
      case Ok(v) => r == Ok(resolver.serialize(v))
      case Err(e) => r == Err(e)
  {
    if StringResolved(req.variant) then resolver.text(state, req, user)
    else
      match resolver.value(state, req, user)
      case Ok(v) => Ok(resolver.serialize(v))
      case Err(e) => Err(e)
  }

  /**
   * A text-resolved variant consults only `text`, and every other variant
   * only `value` and `serialize`: two resolvers that agree on the oracle a
   * variant uses resolve it alike, whatever their other oracles do.
   */
  lemma ResolutionUsesOneOracle<S, U, E>(state: S, req: ApiRequest, user: U, a: Resolver<S, U, E>, b: Resolver<S, U, E>)
    ensures StringResolved(req.variant) && a.text(state, req, user) == b.text(state, req, user) ==>
      ResolveRequest(state, req, user, a) == ResolveRequest(state, req, user, b)
    ensures var va := a.value(state, req, user);
      (!StringResolved(req.variant) && va == b.value(state, req, user)
       && (va.Ok? ==> a.serialize(va.value) == b.serialize(va.value)))
      ==> ResolveRequest(state, req, user, a) == ResolveRequest(state, req, user, b)
  {
  }

  /**
   * The route's answer from the awaited task: a join failure first, then
   * a resolver error, each as 500 with the error's debug text; otherwise
   * the resolved text with a JSON content type.
   */
  function Respond<E, J>(res: Joined<Result<string, E>, J>, showError: E -> string, showJoin: J -> string): (r: Result<Reply, Rejection>)
    ensures r.Err? ==> r.error.status == INTERNAL_SERVER_ERROR
    ensures res.JoinFailed? ==> r == Err(Rejection(INTERNAL_SERVER_ERROR, showJoin(res.error)))
    ensures res.Completed? && res.value.Err? ==> r == Err(Rejection(INTERNAL_SERVER_ERROR, showError(res.value.error)))
    ensures r.Ok? <==> res.Completed? && res.value.Ok?
    ensures r.Ok? ==> r.value.contentType == JSON_CONTENT_TYPE && r.value.body == res.value.value
  {
    match res
    case JoinFailed(j) => Err(Rejection(INTERNAL_SERVER_ERROR, showJoin(j)))
    case Completed(Err(e)) => Err(Rejection(INTERNAL_SERVER_ERROR, showError(e)))
    case Completed(Ok(body)) => Ok(Reply(JSON_CONTENT_TYPE, body))
  }

  /** One resolution the handler started: the request and the caller it was resolved for. */
  datatype Call<U> = Call(request: ApiRequest, user: U)

  /** What the route handler did: its answer and the resolutions it started. */
  datatype Served<U> = Served(result: Result<Reply, Rejection>, calls: seq<Call<U>>)

  /**
   * The route handler. `panic` says whether the spawned task fails to
   * join (and with what); the handler reads the caller from the request's
   * user extension.
   */
  function Handle<S, C, U, E, J>(
    state: S,
    req: Request<C, U, ApiRequest>,
    resolver: Resolver<S, U, E>,
    panic: Option<J>,
    showError: E -> string,
    showJoin: J -> string
  ): (s: Served<U>)
    ensures req.user.None? ==> s.calls == [] && s.result.Err? && s.result.error.status == INTERNAL_SERVER_ERROR
    ensures req.user.Some? ==> s.calls == [Call(req.rest, req.user.value)]
    ensures s.result.Ok? ==>
      && req.user.Some? && panic.None?
      && ResolveRequest(state, req.rest, req.user.value, resolver) == Ok(s.result.value.body)
  {
    match req.user
    case None => Served(Err(Rejection(INTERNAL_SERVER_ERROR, MISSING_USER_EXTENSION)), [])
    case Some(user) =>
      var joined :=
        if panic.Some? then JoinFailed(panic.value)
        else Completed(ResolveRequest(state, req.rest, user, resolver));
      Served(Respond(joined, showError, showJoin), [Call(req.rest, user)])
  }

  /** What the wrapped route did: the answer and the resolutions it started. */
  datatype Exchange<U> = Exchange(result: Result<Result<Reply, Rejection>, Rejection>, calls: seq<Call<U>>)

  /** `router()`: the handler behind the authentication middleware. */
  function Endpoint<S, C, U, E, J, A>(
    state: S,
    req: Request<C, U, ApiRequest>,
    authenticate: (C, Request<C, U, ApiRequest>) -> Result<U, A>,
    showAuth: A -> string,
    resolver: Resolver<S, U, E>,
    panic: Option<J>,
    showError: E -> string,
    showJoin: J -> string
  ): (x: Exchange<U>)
    ensures x.result.Err? <==> !(req.jwtClient.Some? && authenticate(req.jwtClient.value, req).Ok?)
    ensures x.result.Err? ==> x.result.error.status == UNAUTHORIZED && x.calls == []
    ensures x.result.Ok? ==>
      var served := Handle(state, req.(user := Some(authenticate(req.jwtClient.value, req).value)),
                           resolver, panic, showError, showJoin);
      x.result.value == served.result && x.calls == served.calls
  {
    var handler := (r: Request<C, U, ApiRequest>) => Handle(state, r, resolver, panic, showError, showJoin);
    var run := AuthRequest(req, authenticate, showAuth, (r: Request<C, U, ApiRequest>) => handler(r).result);
    Exchange(run.result, if run.forwarded == [] then [] else handler(run.forwarded[0]).calls)
  }

  /**
   * Behind the middleware the handler never resolves anything for a caller
   * that did not authenticate: a failed check answers 401 and starts no
   * resolution, and a passed check starts exactly one, for the request as
   * sent and the user `authenticate` returned.
   */
  lemma {:induction false} NoResolutionWithoutAuthentication<S, C, U, E, J, A>(
    state: S,
    req: Request<C, U, ApiRequest>,
    authenticate: (C, Request<C, U, ApiRequest>) -> Result<U, A>,
    showAuth: A -> string,
    resolver: Resolver<S, U, E>,
    panic: Option<J>,
    showError: E -> string,
    showJoin: J -> string
  )
    ensures var x := Endpoint(state, req, authenticate, showAuth, resolver, panic, showError, showJoin);
      if req.jwtClient.Some? && authenticate(req.jwtClient.value, req).Ok? then
        x.calls == [Call(req.rest, authenticate(req.jwtClient.value, req).value)]
      else
        x.calls == [] && x.result.Err? && x.result.error.status == UNAUTHORIZED
  {
    var handler := (r: Request<C, U, ApiRequest>) => Handle(state, r, resolver, panic, showError, showJoin);
    var run := AuthRequest(req, authenticate, showAuth, (r: Request<C, U, ApiRequest>) => handler(r).result);
    if run.forwarded != [] {
      var f := run.forwarded[0];
      assert f.user == Some(authenticate(req.jwtClient.value, req).value);
      assert handler(f).calls == [Call(f.rest, f.user.value)];
    }
  }

  /**
   * For an authenticated caller whose task does not fail, the answer is
   * the resolver's outcome for that caller. The seven text-resolved
   * variants answer with `text`'s string, or its error as 500. Every other
   * variant answers with `value`'s response serialised, or its error as
   * 500. A success is always the text with a JSON content type.
   */
  lemma {:induction false} SuccessIsResolvedText<S, C, U, E, J, A>(
    state: S,
    req: Request<C, U, ApiRequest>,
    authenticate: (C, Request<C, U, ApiRequest>) -> Result<U, A>,
    showAuth: A -> string,
    resolver: Resolver<S, U, E>,
    showError: E -> string,
    showJoin: J -> string
  )
    requires req.jwtClient.Some? && authenticate(req.jwtClient.value, req).Ok?
    ensures var user := authenticate(req.jwtClient.value, req).value;
      var x := Endpoint(state, req, authenticate, showAuth, resolver, None, showError, showJoin);
      match ResolveRequest(state, req.rest, user, resolver)
      case Ok(text) => x.result == Ok(Ok(Reply(JSON_CONTENT_TYPE, text)))
      case Err(e) => x.result == Ok(Err(Rejection(INTERNAL_SERVER_ERROR, showError(e))))
    ensures var user := authenticate(req.jwtClient.value, req).value;
      var x := Endpoint(state, req, authenticate, showAuth, resolver, None, showError, showJoin);
      StringResolved(req.rest.variant) ==>
        match resolver.text(state, req.rest, user)
        case Ok(t) => x.result == Ok(Ok(Reply(JSON_CONTENT_TYPE, t)))
        case Err(e) => x.result == Ok(Err(Rejection(INTERNAL_SERVER_ERROR, showError(e))))
    ensures var user := authenticate(req.jwtClient.value, req).value;
      var x := Endpoint(state, req, authenticate, showAuth, resolver, None, showError, showJoin);
      !StringResolved(req.rest.variant) ==>
        match resolver.value(state, req.rest, user)
        case Ok(v) => x.result == Ok(Ok(Reply(JSON_CONTENT_TYPE, resolver.serialize(v))))
        case Err(e) => x.result == Ok(Err(Rejection(INTERNAL_SERVER_ERROR, showError(e))))
  {
    var handler := (r: Request<C, U, ApiRequest>) => Handle(state, r, resolver, None, showError, showJoin);
    var run := AuthRequest(req, authenticate, showAuth, (r: Request<C, U, ApiRequest>) => handler(r).result);
    var f := run.forwarded[0];
    assert f.user == Some(authenticate(req.jwtClient.value, req).value);
    assert f.rest == req.rest;
  }
}
