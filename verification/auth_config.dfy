/** Gateway selection and the OAuth2 endpoint URLs built from it
    (`src/config/auth.ts`). The browser's stored site id and page origin are
    parameters; `encodeURIComponent` is passed in as a function. */
module AuthConfig {
  import opened Wrappers
  import opened Text
  import opened Sites

  /** Where the code runs: during server rendering there is no `window` and no
      storage; in the browser the stored site id (if any) is read. */
  datatype Env = Server | Browser(storedSiteId: Option<string>)

  const AuthorizePath: string := "/oauth2/authorization/gateway-server"
  const UserInfoPath: string := "/api/user/info"
  const LogoutPath: string := "/logout"
  const DefaultRedirect: string := "/dashboard"

  datatype Endpoints = Endpoints(authorize: string, userInfo: string, logout: string)

  /** A stored id counts only when it is a non-empty string (JavaScript truthiness). */
  predicate HasStoredSite(env: Env) {
    env.Browser? && env.storedSiteId.Some? && env.storedSiteId.value != ""
  }

  /** `getCurrentGatewayUrl`: the stored site's gateway, else the default site's. */
  function CurrentGatewayUrl(env: Env): (g: string)
    ensures exists i :: 0 <= i < |SITES| && SITES[i].gatewayUrl == g
    ensures !HasStoredSite(env) ==> g == DefaultSite().gatewayUrl
    ensures HasStoredSite(env) ==> g == SiteById(env.storedSiteId.value).gatewayUrl
  {
    if HasStoredSite(env) then SiteById(env.storedSiteId.value).gatewayUrl
    else DefaultSite().gatewayUrl
  }

  /** The gateway is the placeholder `"#"` exactly when a stored id names one of
      the sites that are not online yet; every other case reaches Shenzhen. */
  lemma GatewayPlaceholder(env: Env)
    ensures CurrentGatewayUrl(env) == ComingSoonGateway <==>
      HasStoredSite(env) && exists i :: 1 <= i < |SITES| && SITES[i].id == env.storedSiteId.value
    ensures CurrentGatewayUrl(env) != ComingSoonGateway ==> CurrentGatewayUrl(env) == "http://192.168.1.222:8082"
  {
    DefaultIsShenzhen();
    TableInvariants();
    if HasStoredSite(env) {
      SiteByIdTotal(env.storedSiteId.value);
    }
  }

  /** `getAuthEndpoints(gatewayUrl)`: each endpoint is the gateway followed by its fixed path. */
  function AuthEndpoints(gatewayUrl: string): (e: Endpoints)
    ensures IsPrefix(gatewayUrl, e.authorize) && e.authorize[|gatewayUrl|..] == AuthorizePath
    ensures IsPrefix(gatewayUrl, e.userInfo) && e.userInfo[|gatewayUrl|..] == UserInfoPath
    ensures IsPrefix(gatewayUrl, e.logout) && e.logout[|gatewayUrl|..] == LogoutPath
  {
    Endpoints(gatewayUrl + AuthorizePath, gatewayUrl + UserInfoPath, gatewayUrl + LogoutPath)
  }

  /** Different gateways give different endpoints: the gateway can be read back. */
  lemma EndpointsDetermineGateway(g1: string, g2: string)
    requires AuthEndpoints(g1).logout == AuthEndpoints(g2).logout
    ensures g1 == g2
  {
    var l1 := AuthEndpoints(g1).logout;
    assert |g1| == |l1| - |LogoutPath| == |g2|;
    assert g1 == l1[..|g1|] == g2;
  }

  const RedirectQuery: string := "?redirect_uri="

  /** `login(redirectUri)`: the URL the browser is sent to. `encode` stands for
      `encodeURIComponent`. */
  function LoginUrl(storedSiteId: Option<string>, origin: string, redirectUri: Option<string>,
                    encode: string -> string): (url: string)
    ensures var authorize := AuthEndpoints(CurrentGatewayUrl(Browser(storedSiteId))).authorize;
      IsPrefix(authorize + RedirectQuery, url)
      && url[|authorize + RedirectQuery|..] == encode(origin + redirectUri.GetOr(DefaultRedirect))
  {
    var endpoints := AuthEndpoints(CurrentGatewayUrl(Browser(storedSiteId)));
    endpoints.authorize + RedirectQuery + encode(origin + redirectUri.GetOr(DefaultRedirect))
  }

  /** Without an explicit target the login flow returns to the dashboard of the
      current origin, through the Shenzhen gateway when no site is stored. */
  lemma LoginDefaults(origin: string, encode: string -> string)
    ensures LoginUrl(None, origin, None, encode)
      == "http://192.168.1.222:8082" + "/oauth2/authorization/gateway-server" + "?redirect_uri="
         + encode(origin + "/dashboard")
  {
    DefaultIsShenzhen();
    var g := CurrentGatewayUrl(Browser(None));
    assert g == "http://192.168.1.222:8082";
    var e := encode(origin + "/dashboard");
    assert LoginUrl(None, origin, None, encode) == "http://192.168.1.222:8082" + AuthorizePath + RedirectQuery + e;
  }

  /** With an injective `encode` (as `encodeURIComponent` is), the login URL
      determines where the flow returns to: two calls from the same origin
      and stored site agree exactly when their targets, defaults applied,
      agree. */
  lemma LoginUrlDeterminesTarget(storedSiteId: Option<string>, origin: string,
                                 r1: Option<string>, r2: Option<string>, encode: string -> string)
    requires forall a, b :: encode(a) == encode(b) ==> a == b
    ensures LoginUrl(storedSiteId, origin, r1, encode) == LoginUrl(storedSiteId, origin, r2, encode)
            <==> r1.GetOr(DefaultRedirect) == r2.GetOr(DefaultRedirect)
  {
    var head := AuthEndpoints(CurrentGatewayUrl(Browser(storedSiteId))).authorize + RedirectQuery;
    var u1, u2 := LoginUrl(storedSiteId, origin, r1, encode), LoginUrl(storedSiteId, origin, r2, encode);
    var t1, t2 := r1.GetOr(DefaultRedirect), r2.GetOr(DefaultRedirect);
    if u1 == u2 {
      assert encode(origin + t1) == u1[|head|..] == u2[|head|..] == encode(origin + t2);
      assert origin + t1 == origin + t2;
      assert t1 == (origin + t1)[|origin|..] == (origin + t2)[|origin|..] == t2;
    }
  }

  /** `logout()`: the browser is sent to the current gateway's logout endpoint. */
  function LogoutUrl(storedSiteId: Option<string>): (url: string)
    ensures var g := CurrentGatewayUrl(Browser(storedSiteId));
      IsPrefix(g, url) && url[|g|..] == LogoutPath
  {
    AuthEndpoints(CurrentGatewayUrl(Browser(storedSiteId))).logout
  }
}
