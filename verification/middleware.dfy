/** The client's route guard: which paths anyone may open, and where a
    request is sent when the visitor's sign-in state does not fit the path. */
module RouteGuard {
  import opened Common

  /** The guard's answer: send the browser elsewhere, or let the request
      through. */
  datatype Decision = Redirect(path: string) | Pass

  /** The two token cookies as the request carries them; a cookie that is
      present counts whatever its value. */
  datatype Request = Request(path: string, accessToken: Option<string>, refreshToken: Option<string>)

  /** Paths open to everyone: the landing page, the sign-in page, the auth
      API, framework assets and public files. */
  predicate IsPublicPath(path: string) {
    path == "/" || path == "/auth" || StartsWith(path, "/api/auth") || Contains(path, "_next") || Contains(path, "public")
  }

  /** Signed in means holding either token cookie. */
  predicate IsAuthenticated(req: Request) {
    req.accessToken.Some? || req.refreshToken.Some?
  }

  /** The guard: a private path without a token goes to the sign-in page; the
      sign-in page with a token goes to the dashboard; everything else
      passes. */
  function Guard(req: Request): (d: Decision)
    ensures d == Redirect("/auth") <==> !IsPublicPath(req.path) && !IsAuthenticated(req)
    ensures d == Redirect("/dashboard") <==> req.path == "/auth" && IsAuthenticated(req)
    ensures d == Pass <==> (IsPublicPath(req.path) || IsAuthenticated(req)) && !(req.path == "/auth" && IsAuthenticated(req))
  {
    if !IsPublicPath(req.path) && !IsAuthenticated(req) then Redirect("/auth")
    else if req.path == "/auth" && IsAuthenticated(req) then Redirect("/dashboard")
    else Pass
  }

  lemma DashboardIsPrivate()
    ensures !IsPublicPath("/dashboard")
  {
    assert !StartsWith("/dashboard", "/api/auth") by {
      assert "/dashboard"[1] != "/api/auth"[1];
    }
    var d := "/dashboard";
    assert d == ['/', 'd', 'a', 's', 'h', 'b', 'o', 'a', 'r', 'd'];
    assert '_' !in d && 'p' !in d;
    MissingFirstChar(d, "_next");
    MissingFirstChar(d, "public");
  }

  /** No redirect loops: following a redirect with the same cookies lands on
      a page the guard lets through. */
  lemma RedirectsSettle(req: Request)
    ensures Guard(req).Redirect? ==> Guard(req.(path := Guard(req).path)) == Pass
  {
    if Guard(req) == Redirect("/dashboard") {
      DashboardIsPrivate();
    }
  }

  /** Cookies decide nothing on a public page other than the sign-in page:
      it passes either way. */
  lemma PublicPagesPass(req: Request)
    requires IsPublicPath(req.path) && req.path != "/auth"
    ensures Guard(req) == Pass
  {
  }

  /** Only the sign-in page is ever left because of a token. */
  lemma OnlySignInRedirectsSignedIn(req: Request)
    requires IsAuthenticated(req)
    ensures Guard(req) != Pass <==> req.path == "/auth"
  {
  }
}
