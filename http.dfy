/**
 * The HTTP surface of the backend as values: a request that has reached the logging
 * middleware, the JSON responses the two handlers send, and Express's routing of a
 * request path to `app.post('/api/login', …)` or `app.post('/api/signup', …)`.
 */
module Http {
  import opened Validation

  /** A request as the logging middleware and the handlers see it (`req.method`, `req.path`, `req.body`). */
  datatype Request = Request(verb: string, path: string, username: string, password: string)

  /** The JSON bodies the backend sends; `CannotRoute` stands for Express's default 404 page. */
  datatype Body =
    | Message(message: string)
    | Error(error: string)
    | Errors(errors: seq<FieldError>)
    | CannotRoute(verb: string, path: string)

  datatype Response = Response(status: int, body: Body)

  const LoginSucceeded := Response(200, Message("Login successful"))
  const InvalidCredentials := Response(401, Error("Invalid credentials"))
  const UserCreated := Response(201, Message("User created successfully"))
  const UsernameTaken := Response(400, Error("Username already exists"))
  const ServerError := Response(500, Error("Server error"))

  /** `res.status(400).json({ errors: errors.array() })`. */
  function BadRequest(errs: seq<FieldError>): Response {
    Response(400, Errors(errs))
  }

  /** Express's final handler for a request no route answered. */
  function NotFound(verb: string, path: string): Response {
    Response(404, CannotRoute(verb, path))
  }

  /** The audit message `${req.method} ${req.path}`. */
  function LogLine(verb: string, path: string): string {
    verb + " " + path
  }

  const LoginRoute := "/api/login"
  const SignupRoute := "/api/signup"

  function LowerAscii(c: char): char {
    if 'A' <= c <= 'Z' then (c as int + 32) as char else c
  }

  /** Equal up to the case of ASCII letters. */
  predicate SameIgnoringCase(a: string, b: string) {
    |a| == |b| && forall i :: 0 <= i < |a| ==> LowerAscii(a[i]) == LowerAscii(b[i])
  }

  /**
   * Express's default router: a route path matches case-insensitively and with an
   * optional trailing slash.
   */
  predicate Matches(path: string, route: string) {
    SameIgnoringCase(path, route) || SameIgnoringCase(path, route + "/")
  }

  /** No path reaches both handlers. */
  lemma RoutesDisjoint(path: string)
    ensures !(Matches(path, LoginRoute) && Matches(path, SignupRoute))
  {
    assert Matches(path, LoginRoute) ==> |path| > 5 && LowerAscii(path[5]) == LoginRoute[5] == 'l';
    assert Matches(path, SignupRoute) ==> |path| > 5 && LowerAscii(path[5]) == SignupRoute[5] == 's';
  }

  /** Which handler, if any, a request reaches. */
  datatype Route = LoginHandler | SignupHandler | NoRoute

  function RouteOf(req: Request): (r: Route)
    ensures r == LoginHandler <==> req.verb == "POST" && Matches(req.path, LoginRoute)
    ensures r == SignupHandler <==> req.verb == "POST" && Matches(req.path, SignupRoute)
  {
    RoutesDisjoint(req.path);
    if req.verb == "POST" && Matches(req.path, LoginRoute) then LoginHandler
    else if req.verb == "POST" && Matches(req.path, SignupRoute) then SignupHandler
    else NoRoute
  }
}
