/**
 * The authentication gates in front of the routes. Each decides, from whether the
 * session is logged in and the request path, to pass the request on, to answer
 * 401, or to redirect.
 */
module Middleware {
  import opened Wrappers
  import opened Identity

  /** `next()`, a 401 JSON error, or a redirect. */
  datatype Gate = Proceed | Unauthorized(error: string) | RedirectTo(location: string)

  /** isAuthenticated: a logged-in session passes; otherwise API paths get 401 and
      pages are sent to the login form. */
  function IsAuthenticated(authenticated: bool, path: string): (g: Gate)
    ensures g.Proceed? <==> authenticated
    ensures g.Unauthorized? <==> !authenticated && "/api/" <= path
    ensures g.Unauthorized? ==> g.error == "Authentication required"
    ensures g.RedirectTo? ==> g.location == "/auth/login"
  {
    if authenticated then Proceed
    else if "/api/" <= path then Unauthorized("Authentication required")
    else RedirectTo("/auth/login")
  }

  /** isNotAuthenticated: only a session that is not logged in passes; a logged-in
      one is sent home. */
  function IsNotAuthenticated(authenticated: bool): (g: Gate)
    ensures g.Proceed? <==> !authenticated
    ensures !g.Proceed? ==> g == RedirectTo("/")
  {
    if !authenticated then Proceed else RedirectTo("/")
  }

  /** The two gates let through complementary sets of requests, whatever the path. */
  lemma GatesComplementary(authenticated: bool, path: string)
    ensures IsAuthenticated(authenticated, path).Proceed? != IsNotAuthenticated(authenticated).Proceed?
  {
  }

  /** attachUser: always passes, exposing the session's user (or null) to the views. */
  datatype Attached = Attached(gate: Gate, localsUser: Option<User>)

  function AttachUser(sessionUser: Option<User>): (a: Attached)
    ensures a.gate.Proceed?
    ensures a.localsUser.Some? <==> sessionUser.Some?
    ensures a.localsUser.Some? ==> a.localsUser.value == sessionUser.value
  {
    Attached(Proceed, sessionUser)
  }
}
