/** The request-path access decision of the edge middleware (middleware.js) and
    of the session helper (lib/supabase-middle.js). Whether a Supabase user is
    attached to the request is the boolean `isAuthenticated`. */
module Access {
  import Text

  const UnauthorizedMessage: string := "Não autorizado"
  const LoginPath: string := "/login"

  datatype Decision =
    | Pass
    | Unauthorized(error: string)           // 401 JSON
    | RedirectToLogin(redirect: string)     // to /login?redirect=<pathname>

  /** Static assets, anything that looks like a file, and the login API skip the middleware. */
  predicate Bypassed(path: string) {
    || Text.StartsWith(path, "/_next")
    || Text.StartsWith(path, "/static")
    || Text.Includes(path, "/favicon.ico")
    || Text.Includes(path, ".")
    || Text.StartsWith(path, "/api/auth")
  }

  /** `publicPaths.some(path => pathname.startsWith(path))` with `['/login']`. */
  predicate IsPublic(path: string) {
    Text.StartsWith(path, LoginPath)
  }

  predicate IsApi(path: string) {
    Text.StartsWith(path, "/api")
  }

  /** The answer for a request that was checked and has no user. */
  function Refuse(path: string): (d: Decision)
    ensures d != Pass
    ensures d.Unauthorized? <==> IsApi(path)
    ensures d.Unauthorized? ==> d.error == UnauthorizedMessage
    ensures d.RedirectToLogin? ==> d.redirect == path
  {
    if IsApi(path) then Unauthorized(UnauthorizedMessage) else RedirectToLogin(path)
  }

  /** `middleware(request)` */
  function Middleware(path: string, isAuthenticated: bool): (d: Decision)
    ensures d == Pass <==> Bypassed(path) || IsPublic(path) || isAuthenticated
    ensures d.Unauthorized? <==> !Bypassed(path) && !IsPublic(path) && !isAuthenticated && IsApi(path)
    ensures d.Unauthorized? ==> d.error == UnauthorizedMessage
    ensures d.RedirectToLogin? ==> d.redirect == path && !IsApi(path)
  {
    if Bypassed(path) then Pass
    else if IsPublic(path) then Pass
    else if !isAuthenticated then Refuse(path)
    else Pass
  }

  /** `updateSession(request)` */
  function UpdateSession(path: string, isAuthenticated: bool): (d: Decision)
    ensures Text.StartsWith(path, "/api/auth") ==> d == Pass
    ensures d == Pass <==> Text.StartsWith(path, "/api/auth") || IsPublic(path) || isAuthenticated
    ensures d.Unauthorized? <==> !Text.StartsWith(path, "/api/auth") && !IsPublic(path) && !isAuthenticated && IsApi(path)
    ensures d.RedirectToLogin? ==> d.redirect == path && !IsApi(path)
  {
    if Text.StartsWith(path, "/api/auth") then Pass
    else if !isAuthenticated && !IsPublic(path) then Refuse(path)
    else Pass
  }

  /** For a path the middleware does not skip, the two helpers decide alike. */
  lemma HelpersAgreeWhenChecked(path: string, isAuthenticated: bool)
    requires !Bypassed(path)
    ensures Middleware(path, isAuthenticated) == UpdateSession(path, isAuthenticated)
  {
  }

  /** A skipped or public path is decided without the user: the answer is the
      same whether or not anyone is signed in. */
  lemma SkippedPathsIgnoreUser(path: string)
    requires Bypassed(path) || IsPublic(path)
    ensures Middleware(path, true) == Middleware(path, false) == Pass
  {
  }

  /** Signing in never makes the answer worse: an authenticated request always passes. */
  lemma SignedInAlwaysPasses(path: string)
    ensures Middleware(path, true) == Pass && UpdateSession(path, true) == Pass
  {
  }

  /** The `includes('.')` test lets every API path containing a dot, outside
      `/api/auth`, through the middleware unchecked, where the session helper
      would answer 401 to a request without a user. */
  lemma DottedApiPathSkipsCheck(path: string)
    requires IsApi(path) && Text.Includes(path, ".") && !Text.StartsWith(path, "/api/auth")
    ensures Middleware(path, false) == Pass
    ensures UpdateSession(path, false) == Unauthorized(UnauthorizedMessage)
  {
    assert !IsPublic(path) by {
      assert path[..4] == "/api";
      assert path[1] != LoginPath[1];
    }
  }

  /** One such path: `/api/clientes/a.b`. */
  lemma DottedApiPathExample()
    ensures Middleware("/api/clientes/a.b", false) == Pass
    ensures UpdateSession("/api/clientes/a.b", false) == Unauthorized(UnauthorizedMessage)
  {
    var p := "/api/clientes/a.b";
    assert Text.StartsWith(p[15..], ".");
    Text.IncludesAt(p, 15, ".");
    assert Text.StartsWith(p, "/api");
    assert !Text.StartsWith(p, "/api/auth") by { assert p[5] != "/api/auth"[5]; }
    DottedApiPathSkipsCheck(p);
  }
}
