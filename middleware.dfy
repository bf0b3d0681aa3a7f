/**
 * The route guard that runs at the edge before a page is served. It looks
 * at the request path and at whether an `auth-token` cookie came with the
 * request, and either lets the request through or redirects it.
 */
module Middleware {
  import opened Wrappers

  datatype Decision =
    | Next                 // `NextResponse.next()`
    | RedirectToLogin      // redirect to /login
    | RedirectToDashboard  // redirect to /dashboard

  /** Login, registration and password reset: prefix tests, so "/login-x" counts too. */
  predicate IsAuthPage(pathname: string) {
    "/login" <= pathname || "/register" <= pathname || "/reset-password" <= pathname
  }

  /**
   * `middleware`: `authToken` is the cookie's value when the request
   * carries one. A request without it for any other page goes to /login; a
   * request with it for an auth page goes to /dashboard.
   */
  function Guard(pathname: string, authToken: Option<string>): (d: Decision)
    ensures d == RedirectToLogin <==> authToken.None? && !IsAuthPage(pathname)
    ensures d == RedirectToDashboard <==> authToken.Some? && IsAuthPage(pathname)
  {
    if authToken.None? && !IsAuthPage(pathname) then RedirectToLogin
    else if authToken.Some? && IsAuthPage(pathname) then RedirectToDashboard
    else Next
  }

  /** A logged-in user is never sent to /login, a logged-out one never to /dashboard. */
  lemma NeverTheWrongWay(pathname: string, authToken: Option<string>)
    ensures authToken.Some? ==> Guard(pathname, authToken) != RedirectToLogin
    ensures authToken.None? ==> Guard(pathname, authToken) != RedirectToDashboard
  {
  }

  /** Redirects cannot loop: the target of each redirect lets the same request state through. */
  lemma RedirectTargetsPass(pathname: string, authToken: Option<string>)
    ensures Guard(pathname, authToken) == RedirectToLogin ==> Guard("/login", authToken) == Next
    ensures Guard(pathname, authToken) == RedirectToDashboard ==> Guard("/dashboard", authToken) == Next
  {
    assert "/login" <= "/login";
    var dashboard := "/dashboard";
    assert dashboard[1] == 'd';
    assert "/login"[1] == 'l' && "/register"[1] == 'r' && "/reset-password"[1] == 'r';
    assert !IsAuthPage(dashboard);
  }

  /** Only the presence of the cookie matters, not its value. */
  lemma TokenValueIrrelevant(pathname: string, v1: string, v2: string)
    ensures Guard(pathname, Some(v1)) == Guard(pathname, Some(v2))
  {
  }

  /** `config.matcher`: "/dashboard/:path*" (the dashboard and everything under it), "/login", "/register", "/reset-password". */
  predicate Matched(pathname: string) {
    || pathname == "/dashboard"
    || "/dashboard/" <= pathname
    || pathname == "/login"
    || pathname == "/register"
    || pathname == "/reset-password"
  }

  /** What a request meets at the edge: paths outside the matcher never reach the guard. */
  function AtEdge(pathname: string, authToken: Option<string>): (d: Decision)
    ensures !Matched(pathname) ==> d == Next
    ensures Matched(pathname) ==> d == Guard(pathname, authToken)
  {
    if Matched(pathname) then Guard(pathname, authToken) else Next
  }

  /** Both redirect targets are matched paths, and each lets the redirected request through. */
  lemma EdgeRedirectTargetsPass(pathname: string, authToken: Option<string>)
    ensures Matched("/login") && Matched("/dashboard")
    ensures AtEdge(pathname, authToken) == RedirectToLogin ==> AtEdge("/login", authToken) == Next
    ensures AtEdge(pathname, authToken) == RedirectToDashboard ==> AtEdge("/dashboard", authToken) == Next
  {
    RedirectTargetsPass(pathname, authToken);
  }
}
