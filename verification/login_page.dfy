/** The login page's rules (`src/app/login/page.tsx`): the cookie-name
    heuristic run on `document.cookie`, the cookie preview, and the login
    button and region notice for the selected site. */
module LoginPage {
  import opened Text
  import opened Sites
  import Middleware

  const PreviewLimit: nat := 50
  const NoCookieInfo: string := "未检测到任何Cookie"
  const CookiePreviewLabel: string := "检测到Cookie: "

  /** The name part of one `';'`-separated entry: trimmed, cut at the first
      `'='`, lower-cased. */
  function CookieName(entry: string): (name: string)
    ensures '=' !in name
    ensures |name| <= |Trim(entry)|
    ensures forall i :: 0 <= i < |name| ==> !IsAsciiUpper(name[i])
    ensures var t := Trim(entry);
      exists k :: 0 <= k <= |t| && name == Lower(t[..k]) && '=' !in t[..k] && (k == |t| || t[k] == '=')
  {
    var t := Trim(entry);
    var pieces := Split(t, '=');
    JoinPrefix(pieces, "=");
    FirstPieceEndsAtSeparator(t, '=');
    LowerIdempotent(pieces[0]);
    assert t[..|pieces[0]|] == pieces[0];
    Lower(pieces[0])
  }

  /** The first piece of a join is a prefix of the joined string. */
  lemma JoinPrefix(xs: seq<string>, sep: string)
    requires |xs| >= 1
    ensures IsPrefix(xs[0], Join(xs, sep))
  {
  }

  /** All names of a cookie header, in order. */
  function CookieNames(cookie: string): (names: seq<string>)
    ensures |names| == |Split(cookie, ';')|
    ensures forall i :: 0 <= i < |names| ==> names[i] == CookieName(Split(cookie, ';')[i])
  {
    var entries := Split(cookie, ';');
    seq(|entries|, i requires 0 <= i < |entries| => CookieName(entries[i]))
  }

  /** The per-name test; the final `=== 'jsessionid'` clause is kept as written. */
  predicate IsAuthLike(name: string) {
    Contains(name, "auth") || Contains(name, "token") || Contains(name, "session")
    || name == "jsessionid"
  }

  /** The `'jsessionid'` clause adds nothing: that name already contains `'session'`. */
  lemma JsessionidSubsumed(name: string)
    ensures IsAuthLike(name) <==>
      Contains(name, "auth") || Contains(name, "token") || Contains(name, "session")
  {
    if name == "jsessionid" {
      assert OccursAt(name, "session", 1);
      ContainsOccurs(name, "session");
    }
  }

  /** What the cookie check leaves behind: the debug text and whether a
      redirect to the dashboard was scheduled. */
  datatype CookieCheck = CookieCheck(info: string, redirectScheduled: bool)

  /** `document.cookie.substring(0, 50)` plus `'...'` when the header is longer. */
  function Preview(cookie: string): (p: string)
    ensures |cookie| <= PreviewLimit ==> p == CookiePreviewLabel + cookie
    ensures |cookie| > PreviewLimit ==>
      p == CookiePreviewLabel + cookie[..PreviewLimit] + "..." && |p| == |CookiePreviewLabel| + PreviewLimit + 3
  {
    CookiePreviewLabel + (if |cookie| <= PreviewLimit then cookie else cookie[..PreviewLimit])
      + (if |cookie| > PreviewLimit then "..." else "")
  }

  /** Two headers give the same preview exactly when they are equal or both
      run past the limit with the same first characters: the `...` keeps a
      cut header from passing for a short one. */
  lemma PreviewsCollideOnlyWhenCut(a: string, b: string)
    ensures Preview(a) == Preview(b)
            <==> a == b || (|a| > PreviewLimit && |b| > PreviewLimit && a[..PreviewLimit] == b[..PreviewLimit])
  {
    var n := |CookiePreviewLabel|;
    if Preview(a) == Preview(b) {
      var pa := Preview(a);
      if |a| <= PreviewLimit && |b| <= PreviewLimit {
        assert a == pa[n..] == b;
      } else if |a| > PreviewLimit && |b| > PreviewLimit {
        assert a[..PreviewLimit] == pa[n..n + PreviewLimit] == b[..PreviewLimit];
      } else {
        assert false;
      }
    }
  }

  /** `checkCookies`: an empty header only records that no cookie was found;
      otherwise the preview is shown and the dashboard redirect is scheduled
      exactly when some name is auth-like. */
  function CheckCookies(cookie: string): (c: CookieCheck)
    ensures cookie == "" ==> c == CookieCheck(NoCookieInfo, false)
    ensures cookie != "" ==> c.info == Preview(cookie)
    ensures c.redirectScheduled <==>
      cookie != "" && exists i :: 0 <= i < |CookieNames(cookie)| && IsAuthLike(CookieNames(cookie)[i])
  {
    if cookie == "" then CookieCheck(NoCookieInfo, false)
    else
      var names := CookieNames(cookie);
      CookieCheck(Preview(cookie), exists i :: 0 <= i < |names| && IsAuthLike(names[i]))
  }

  /** Lower-casing keeps every occurrence of an already lower-case word. */
  lemma LowerKeepsLowerOccurrence(s: string, sub: string)
    requires forall i :: 0 <= i < |sub| ==> !IsAsciiUpper(sub[i])
    ensures Contains(s, sub) ==> Contains(Lower(s), sub)
  {
    ContainsOccurs(s, sub);
    ContainsOccurs(Lower(s), sub);
    if Contains(s, sub) {
      var k :| OccursAt(s, sub, k);
      assert Lower(s)[k..k + |sub|] == sub by {
        forall m | 0 <= m < |sub| ensures Lower(s)[k + m] == sub[m] {
          assert s[k + m] == sub[m];
        }
      }
      assert OccursAt(Lower(s), sub, k);
    }
  }

  /** Every name the middleware accepts through a substring is also accepted
      here, since the page lower-cases first. */
  lemma MiddlewareSubstringNamesAreAuthLike(name: string)
    requires Contains(name, "auth") || Contains(name, "token") || Contains(name, "session")
    ensures IsAuthLike(Lower(name))
  {
    LowerKeepsLowerOccurrence(name, "auth");
    LowerKeepsLowerOccurrence(name, "token");
    LowerKeepsLowerOccurrence(name, "session");
  }

  /** A name with no white space at its ends and no `'='` is just lower-cased. */
  lemma PlainCookieName(name: string)
    requires |name| > 0 && !IsJsSpace(name[0]) && !IsJsSpace(name[|name| - 1]) && '=' !in name
    ensures CookieName(name) == Lower(name)
  {
    TrimUntouched(name);
    SplitNoSeparator(name, '=');
  }

  /** The two heuristics still differ: `remember-me` convinces only the
      middleware (its page name is itself, by `PlainCookieName`). */
  lemma RememberMeOnlyInMiddleware()
    ensures Middleware.IsAuthCookieName("remember-me") && !IsAuthLike(Lower("remember-me"))
  {
    assert Middleware.POSSIBLE_AUTH_COOKIES[4] == "remember-me";
    var name := "remember-me";
    assert name == ['r', 'e', 'm', 'e', 'm', 'b', 'e', 'r', '-', 'm', 'e'];
    assert 'a' !in name && 't' !in name && 's' !in name;
    LowerUnchanged("remember-me");
    FirstCharAbsent("remember-me", "auth");
    FirstCharAbsent("remember-me", "token");
    FirstCharAbsent("remember-me", "session");
  }

  /** ... and `AUTH` convinces only this page, which lower-cases it to `auth`. */
  lemma UpperCaseOnlyOnLoginPage()
    ensures !Middleware.IsAuthCookieName("AUTH") && IsAuthLike(Lower("AUTH"))
  {
    FirstCharAbsent("AUTH", "auth");
    FirstCharAbsent("AUTH", "token");
    FirstCharAbsent("AUTH", "session");
    forall k | 0 <= k < |Middleware.POSSIBLE_AUTH_COOKIES|
      ensures Middleware.POSSIBLE_AUTH_COOKIES[k] != "AUTH"
    {
      assert |Middleware.POSSIBLE_AUTH_COOKIES[k]| != 4;
    }
    assert Lower("AUTH") == "auth";
    PrefixIsContained("auth", "auth");
  }

  /** The site selected when the page opens. */
  function InitialSite(): (s: SiteConfig)
    ensures s == SITES[0] && s.id == "cn-shenzhen"
  {
    DefaultIsShenzhen();
    DefaultSite()
  }

  /** The login button is disabled while a login is under way or for a site not yet online. */
  predicate LoginDisabled(isLoading: bool, site: SiteConfig) {
    isLoading || site.gatewayUrl == ComingSoonGateway
  }

  datatype ButtonContent = LoadingSpinner | Label(text: string)

  function LoginButton(isLoading: bool, site: SiteConfig): (b: ButtonContent)
    ensures isLoading <==> b == LoadingSpinner
    ensures !isLoading && site.gatewayUrl == ComingSoonGateway ==> b == Label("该站点即将上线")
    ensures !isLoading && site.gatewayUrl != ComingSoonGateway ==> b == Label("登录" + site.name + "站点")
  {
    if isLoading then LoadingSpinner
    else if site.gatewayUrl == ComingSoonGateway then Label("该站点即将上线")
    else Label("登录" + site.name + "站点")
  }

  /** The "you selected site X" notice. */
  predicate RegionNotice(site: SiteConfig) {
    site.id != "cn-shenzhen" && site.gatewayUrl != ComingSoonGateway
  }

  /** With the shipped table only Shenzhen can log in, and the region notice
      never shows: every site other than Shenzhen is still a placeholder. */
  lemma ShippedSitesOnLoginPage(site: SiteConfig)
    requires site in SITES
    ensures !RegionNotice(site)
    ensures !LoginDisabled(false, site) <==> site.id == "cn-shenzhen"
  {
    TableInvariants();
  }
}
