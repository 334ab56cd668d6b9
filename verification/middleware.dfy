/** The edge middleware's request gate (`src/middleware.ts`): public-path
    bypass, cookie-name authentication heuristic, role cookie and the
    protected-route role table. Cookies are the request's cookie list. */
module Middleware {
  import opened Wrappers
  import opened Text

  datatype Cookie = Cookie(name: string, value: string)

  /** What the middleware answers: continue, or redirect to one of two pages. */
  datatype Decision = Next | RedirectLogin | RedirectDashboard

  datatype RouteRule = RouteRule(path: string, roles: seq<string>)

  const PROTECTED_ROUTES: seq<RouteRule> := [
    RouteRule("/dashboard", ["admin", "user", "viewer"]),
    RouteRule("/devices", ["admin", "user", "viewer"]),
    RouteRule("/contents", ["admin", "user", "viewer"]),
    RouteRule("/users", ["admin"]),
    RouteRule("/permissions", ["admin"]),
    RouteRule("/messages", ["admin", "user", "viewer"]),
    RouteRule("/analytics", ["admin", "user"])
  ]

  const PUBLIC_PATHS: seq<string> :=
    ["/", "/login", "/register", "/auth-test", "/api/", "/_next", "/favicon.ico", "/static"]

  const POSSIBLE_AUTH_COOKIES: seq<string> :=
    ["auth_token", "user_role", "JSESSIONID", "SESSION", "remember-me", "XSRF-TOKEN",
     "access_token", "refresh_token"]

  const RoleCookieName: string := "user_role"
  const DefaultRole: string := "viewer"

  /** `publicPaths.some(path => pathname.startsWith(path))` over a given list. */
  function StartsWithAny(prefixes: seq<string>, pathname: string): (r: bool)
    ensures r <==> exists i :: 0 <= i < |prefixes| && IsPrefix(prefixes[i], pathname)
  {
    if |prefixes| == 0 then false
    else IsPrefix(prefixes[0], pathname) || StartsWithAny(prefixes[1..], pathname)
  }

  /** The per-name test of the authentication heuristic (case-sensitive). */
  predicate IsAuthCookieName(name: string) {
    name in POSSIBLE_AUTH_COOKIES
    || Contains(name, "auth") || Contains(name, "token") || Contains(name, "session")
  }

  /** `allCookieNames.some(...)`: at least one cookie has an auth-like name. */
  function HasAuthCookie(cookies: seq<Cookie>): (r: bool)
    ensures r <==> exists i :: 0 <= i < |cookies| && IsAuthCookieName(cookies[i].name)
  {
    if |cookies| == 0 then false
    else IsAuthCookieName(cookies[0].name) || HasAuthCookie(cookies[1..])
  }

  /** `cookies.get(name)`: the request's cookie store keys cookies by name
      as it parses the header, so a later cookie of the same name replaces
      an earlier one and the value read is that of the last one. */
  function CookieValue(cookies: seq<Cookie>, name: string): (r: Option<string>)
    ensures r.None? <==> forall i :: 0 <= i < |cookies| ==> cookies[i].name != name
    ensures r.Some? ==> exists i :: 0 <= i < |cookies| && cookies[i] == Cookie(name, r.value)
                          && forall j :: i < j < |cookies| ==> cookies[j].name != name
  {
    if |cookies| == 0 then None
    else
      var rest := CookieValue(cookies[1..], name);
      if rest.Some? then
        ghost var i :| 0 <= i < |cookies[1..]| && cookies[1..][i] == Cookie(name, rest.value)
                       && forall j :: i < j < |cookies[1..]| ==> cookies[1..][j].name != name;
        assert cookies[i + 1] == Cookie(name, rest.value);
        assert forall j :: i + 1 < j < |cookies| ==> cookies[j] == cookies[1..][j - 1];
        rest
      else if cookies[0].name == name then
        assert forall j :: 0 < j < |cookies| ==> cookies[j] == cookies[1..][j - 1];
        Some(cookies[0].value)
      else rest
  }

  /** The role the request is judged under: the `user_role` cookie's value
      whenever that cookie exists (the cookie object is truthy even when its
      value is empty), otherwise `'viewer'`. */
  function UserRole(cookies: seq<Cookie>): (role: string)
    ensures CookieValue(cookies, RoleCookieName).None? ==> role == DefaultRole
    ensures CookieValue(cookies, RoleCookieName).Some? ==> role == CookieValue(cookies, RoleCookieName).value
  {
    CookieValue(cookies, RoleCookieName).GetOr(DefaultRole)
  }

  /** `protectedRoutes.find(route => pathname.startsWith(route.path))`, as an index. */
  function FirstRouteMatch(routes: seq<RouteRule>, pathname: string): (r: Option<nat>)
    ensures r.Some? ==> r.value < |routes| && IsPrefix(routes[r.value].path, pathname)
    ensures r.Some? ==> forall j :: 0 <= j < r.value ==> !IsPrefix(routes[j].path, pathname)
    ensures r.None? <==> forall j :: 0 <= j < |routes| ==> !IsPrefix(routes[j].path, pathname)
  {
    if |routes| == 0 then None
    else if IsPrefix(routes[0].path, pathname) then Some(0)
    else match FirstRouteMatch(routes[1..], pathname)
      case None => None
      case Some(i) => Some(i + 1)
  }

  /** Whether the governing protected route (if any) admits the role. */
  predicate RoleAdmitted(pathname: string, role: string) {
    match FirstRouteMatch(PROTECTED_ROUTES, pathname)
    case None => true
    case Some(i) => role in PROTECTED_ROUTES[i].roles
  }

  /** Everything after the public-path bypass: authentication, then the role table. */
  function Gate(pathname: string, cookies: seq<Cookie>): (d: Decision)
    ensures d == RedirectLogin <==> !HasAuthCookie(cookies)
    ensures d == RedirectDashboard <==> HasAuthCookie(cookies) && !RoleAdmitted(pathname, UserRole(cookies))
    ensures d == Next <==> HasAuthCookie(cookies) && RoleAdmitted(pathname, UserRole(cookies))
  {
    if !HasAuthCookie(cookies) then RedirectLogin
    else if !RoleAdmitted(pathname, UserRole(cookies)) then RedirectDashboard
    else Next
  }

  /** The middleware as written: any public prefix lets the request through. */
  function Middleware(pathname: string, cookies: seq<Cookie>): (d: Decision)
    ensures StartsWithAny(PUBLIC_PATHS, pathname) ==> d == Next
    ensures !StartsWithAny(PUBLIC_PATHS, pathname) ==> d == Gate(pathname, cookies)
  {
    if StartsWithAny(PUBLIC_PATHS, pathname) then Next else Gate(pathname, cookies)
  }

  /** Because `'/'` is a public prefix, every pathname that begins with `'/'`
      passes, whatever its cookies; only pathnames not starting with `'/'`
      ever reach the login or role redirects. */
  lemma SlashMakesEveryPathPublic(pathname: string, cookies: seq<Cookie>)
    ensures |pathname| > 0 && pathname[0] == '/' ==> Middleware(pathname, cookies) == Next
    ensures Middleware(pathname, cookies) != Next ==> !IsPrefix("/", pathname)
  {
    if |pathname| > 0 && pathname[0] == '/' {
      assert IsPrefix(PUBLIC_PATHS[0], pathname);
    }
  }

  /** A cookie-less request for the user-management page is let through. */
  lemma UsersPageUngated()
    ensures Middleware("/users", []) == Next
    ensures MiddlewareExactRoot("/users", []) == RedirectLogin
  {
    SlashMakesEveryPathPublic("/users", []);
    assert IsPrefix(PROTECTED_ROUTES[3].path, "/users");
    NotPublicExceptRoot("/users");
  }

  /** The public list with `'/'` read as the landing page only. */
  predicate IsPublicExactRoot(pathname: string) {
    pathname == "/" || StartsWithAny(PUBLIC_PATHS[1..], pathname)
  }

  /** The evidently intended gate: `'/'` is public as an exact path, the other
      public entries stay prefixes. */
  function MiddlewareExactRoot(pathname: string, cookies: seq<Cookie>): (d: Decision)
    ensures IsPublicExactRoot(pathname) ==> d == Next
    ensures !IsPublicExactRoot(pathname) ==> d == Gate(pathname, cookies)
  {
    if IsPublicExactRoot(pathname) then Next else Gate(pathname, cookies)
  }

  /** The protected pages are not public under the corrected reading. */
  lemma NotPublicExceptRoot(pathname: string)
    requires exists i :: 0 <= i < |PROTECTED_ROUTES| && IsPrefix(PROTECTED_ROUTES[i].path, pathname)
    ensures !IsPublicExactRoot(pathname)
  {
    var i :| 0 <= i < |PROTECTED_ROUTES| && IsPrefix(PROTECTED_ROUTES[i].path, pathname);
    assert pathname[0] == '/';
    assert |pathname| >= 2 && pathname[1] == PROTECTED_ROUTES[i].path[1];
    forall k | 1 <= k < |PUBLIC_PATHS|
      ensures !IsPrefix(PUBLIC_PATHS[k], pathname)
    {
      assert PUBLIC_PATHS[k][1] != pathname[1] || PUBLIC_PATHS[k][2] != pathname[2];
    }
  }

  /** Under the corrected gate a page under any protected route (`route` is
      the index of one whose path prefixes it) without an auth cookie goes to
      the login page, and an authenticated request is judged by the role table. */
  lemma ProtectedPagesAreGated(pathname: string, cookies: seq<Cookie>, route: nat)
    requires route < |PROTECTED_ROUTES| && IsPrefix(PROTECTED_ROUTES[route].path, pathname)
    ensures MiddlewareExactRoot(pathname, cookies) == RedirectLogin <==> !HasAuthCookie(cookies)
    ensures MiddlewareExactRoot(pathname, cookies) == RedirectDashboard
      <==> HasAuthCookie(cookies) && !RoleAdmitted(pathname, UserRole(cookies))
  {
    NotPublicExceptRoot(pathname);
  }
  /** Name matching is case-sensitive: `JSESSIONID` counts only because it is
      listed, while an unlisted upper-case session name does not count. */
  lemma CaseSensitiveNames()
    ensures IsAuthCookieName("JSESSIONID")
    ensures !Contains("JSESSIONID", "auth") && !Contains("JSESSIONID", "token")
            && !Contains("JSESSIONID", "session")
    ensures !IsAuthCookieName("MY_SESSIONID")
  {
    assert POSSIBLE_AUTH_COOKIES[2] == "JSESSIONID";
    FirstCharAbsent("JSESSIONID", "auth");
    FirstCharAbsent("JSESSIONID", "token");
    FirstCharAbsent("JSESSIONID", "session");
    FirstCharAbsent("MY_SESSIONID", "auth");
    FirstCharAbsent("MY_SESSIONID", "token");
    FirstCharAbsent("MY_SESSIONID", "session");
    forall k | 0 <= k < |POSSIBLE_AUTH_COOKIES|
      ensures POSSIBLE_AUTH_COOKIES[k] != "MY_SESSIONID"
    {
      assert POSSIBLE_AUTH_COOKIES[k][0] != 'M' || |POSSIBLE_AUTH_COOKIES[k]| != 12;
    }
  }

  /** `user_role` is itself a listed auth cookie, so a request carrying a role
      cookie is always authenticated. */
  lemma RoleCookieAuthenticates(cookies: seq<Cookie>)
    ensures CookieValue(cookies, RoleCookieName).Some? ==> HasAuthCookie(cookies)
  {
    if CookieValue(cookies, RoleCookieName).Some? {
      var i :| 0 <= i < |cookies| && cookies[i].name == RoleCookieName;
      assert IsAuthCookieName(cookies[i].name);
    }
  }

  /** No pathname starts with two different protected paths, so the first
      match is the only match. */
  lemma RouteMatchUnique(pathname: string, i: nat)
    requires i < |PROTECTED_ROUTES| && IsPrefix(PROTECTED_ROUTES[i].path, pathname)
    ensures FirstRouteMatch(PROTECTED_ROUTES, pathname) == Some(i)
  {
    forall j | 0 <= j < |PROTECTED_ROUTES| && j != i
      ensures !IsPrefix(PROTECTED_ROUTES[j].path, pathname)
    {
      var a, b := PROTECTED_ROUTES[i].path, PROTECTED_ROUTES[j].path;
      assert a[1] != b[1] || a[2] != b[2];
    }
  }

  /** An authenticated request without a role cookie is a viewer: it may open
      the dashboard, devices, contents and messages pages, and is sent to the
      dashboard from user management, permissions and analytics. */
  lemma ViewerAccess(pathname: string, cookies: seq<Cookie>)
    requires HasAuthCookie(cookies) && CookieValue(cookies, RoleCookieName).None?
    ensures IsPrefix("/users", pathname) || IsPrefix("/permissions", pathname)
            || IsPrefix("/analytics", pathname)
            ==> Gate(pathname, cookies) == RedirectDashboard
    ensures IsPrefix("/dashboard", pathname) || IsPrefix("/devices", pathname)
            || IsPrefix("/contents", pathname) || IsPrefix("/messages", pathname)
            ==> Gate(pathname, cookies) == Next
  {
    assert UserRole(cookies) == DefaultRole;
    forall k | 0 <= k < |PROTECTED_ROUTES| && IsPrefix(PROTECTED_ROUTES[k].path, pathname)
      ensures FirstRouteMatch(PROTECTED_ROUTES, pathname) == Some(k)
    {
      RouteMatchUnique(pathname, k);
    }
    assert IsPrefix("/users", pathname) ==> IsPrefix(PROTECTED_ROUTES[3].path, pathname);
    assert IsPrefix("/permissions", pathname) ==> IsPrefix(PROTECTED_ROUTES[4].path, pathname);
    assert IsPrefix("/analytics", pathname) ==> IsPrefix(PROTECTED_ROUTES[6].path, pathname);
    assert IsPrefix("/dashboard", pathname) ==> IsPrefix(PROTECTED_ROUTES[0].path, pathname);
    assert IsPrefix("/devices", pathname) ==> IsPrefix(PROTECTED_ROUTES[1].path, pathname);
    assert IsPrefix("/contents", pathname) ==> IsPrefix(PROTECTED_ROUTES[2].path, pathname);
    assert IsPrefix("/messages", pathname) ==> IsPrefix(PROTECTED_ROUTES[5].path, pathname);
  }
}
