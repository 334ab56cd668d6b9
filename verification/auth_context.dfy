/** The client-side session state (`src/contexts/AuthContext.tsx`): how the
    backend's user record becomes the console's user, what state a fetch
    leaves behind for each outcome, when the first fetch is skipped, and
    logout. The call itself, the browser location and the console log are
    inputs or left out. */
module AuthContext {
  import opened Wrappers
  import opened Text
  import Api

  datatype RoleDto = RoleDto(rid: int, oid: int, roleName: string, displayName: Option<string>)

  /** `UserInfoResponse`. */
  datatype UserInfo = UserInfo(uid: int, username: string, oid: int, orgName: string,
                               roles: Option<seq<RoleDto>>, ugid: int, ugName: string,
                               email: Option<string>, phone: Option<string>, active: int,
                               createdAt: string, updatedAt: string)

  /** The console's `User`. */
  datatype User = User(id: string, username: string, nickname: string, email: Option<string>,
                       phone: Option<string>, role: string, organizationId: string,
                       organizationName: string, status: int, createdTime: string,
                       updatedTime: string, ugid: int, ugName: string)

  const DefaultRoleName := "普通用户"

  /** The first role's display name when it is non-empty, else its role name;
      the fixed ordinary-user name when there is no role. */
  function RoleOf(roles: Option<seq<RoleDto>>): (r: string)
    ensures roles.None? || roles.value == [] ==> r == DefaultRoleName
    ensures roles.Some? && |roles.value| > 0 ==>
              var first := roles.value[0];
              r == (if first.displayName.Some? && first.displayName.value != "" then first.displayName.value else first.roleName)
  {
    if roles.Some? && |roles.value| > 0 then
      var first := roles.value[0];
      if first.displayName.Some? && first.displayName.value != "" then first.displayName.value else first.roleName
    else DefaultRoleName
  }

  function MapUser(info: UserInfo): (u: User)
    ensures u.id == IntToString(info.uid) && u.organizationId == IntToString(info.oid)
    ensures u.username == info.username && u.nickname == info.username
    ensures u.role == RoleOf(info.roles) && u.status == info.active
    ensures u.ugid == info.ugid && u.ugName == info.ugName && u.organizationName == info.orgName
    ensures u.email == info.email && u.phone == info.phone
  {
    User(IntToString(info.uid), info.username, info.username, info.email, info.phone,
         RoleOf(info.roles), IntToString(info.oid), info.orgName, info.active,
         info.createdAt, info.updatedAt, info.ugid, info.ugName)
  }

  /** The numeric ids survive the mapping: distinct uids give distinct user
      ids, and a non-negative uid can be read back from its text. */
  lemma MappedIdsIdentify(a: UserInfo, b: UserInfo)
    ensures MapUser(a).id == MapUser(b).id ==> a.uid == b.uid
    ensures MapUser(a).organizationId == MapUser(b).organizationId ==> a.oid == b.oid
    ensures a.uid >= 0 ==> DigitsValue(MapUser(a).id) == a.uid
  {
    if MapUser(a).id == MapUser(b).id {
      IntToStringInjective(a.uid, b.uid);
    }
    if MapUser(a).organizationId == MapUser(b).organizationId {
      IntToStringInjective(a.oid, b.oid);
    }
    if a.uid >= 0 {
      NatToStringRoundTrip(a.uid);
    }
  }

  // ---------------------------------------------------------------------
  // state

  datatype State = State(user: Option<User>, isLoading: bool, error: Option<string>)

  const Initial := State(None, true, None)

  predicate IsAuthenticated(s: State) {
    s.user.Some?
  }

  /** What was thrown: an `Error` with its message, or some other value. */
  datatype Thrown = ErrorValue(message: string) | OtherValue

  /** How the user-info call ended: it returned (possibly nothing), or threw. */
  datatype FetchResult = Returned(info: Option<UserInfo>) | Threw(thrown: Thrown)

  const EmptyUserError := "获取用户信息失败"
  const UnknownError := "未知错误"

  /** A state change, and whether the browser is then sent to `/login`. */
  datatype Effect = Effect(state: State, toLogin: bool)

  /** `fetchUserInfo`: the state after the call and whether the page is sent
      to `/login`. */
  function Fetch(r: FetchResult): (e: Effect)
    ensures !e.state.isLoading
    ensures IsAuthenticated(e.state) <==> r.Returned? && r.info.Some?
    ensures IsAuthenticated(e.state) ==> e.state.user.value == MapUser(r.info.value) && e.state.error.None?
    ensures r == Returned(None) ==> e.state.error == Some(EmptyUserError)
    ensures r.Threw? && r.thrown.ErrorValue? ==> e.state.error == Some(r.thrown.message)
    ensures r == Threw(OtherValue) ==> e.state.error == Some(UnknownError)
    ensures e.toLogin <==> r.Threw? && r.thrown.ErrorValue? && Contains(r.thrown.message, "401")
  {
    match r
    case Returned(Some(info)) => Effect(State(Some(MapUser(info)), false, None), false)
    case Returned(None) => Effect(State(None, false, Some(EmptyUserError)), false)
    case Threw(ErrorValue(m)) => Effect(State(None, false, Some(m)), Contains(m, "401"))
    case Threw(OtherValue) => Effect(State(None, false, Some(UnknownError)), false)
  }

  /** The API client already turns a 401 into a message without the digits
      `401`, so that error does not trigger this redirect. */
  lemma ApiUnauthorizedIsNotRedirectedHere(data: Api.Json)
    ensures !Fetch(Threw(ErrorValue(Api.ErrorMessage(Api.Status(401, data))))).toLogin
  {
    FirstCharAbsent(Api.Unauthorized, "401");
  }

  /** Mount: on `/login` and `/` no fetch is made and loading simply ends. */
  datatype InitStep = SkipFetch(state: State) | StartFetch

  function Init(pathname: string): (step: InitStep)
    ensures step.SkipFetch? <==> pathname == "/login" || pathname == "/"
    ensures step.SkipFetch? ==> step.state == Initial.(isLoading := false)
  {
    if pathname == "/login" || pathname == "/" then SkipFetch(Initial.(isLoading := false)) else StartFetch
  }

  /** The effect of mounting on `pathname`, given what the fetch (if made)
      returns: loading always ends. */
  function Mounted(pathname: string, r: FetchResult): (e: Effect)
    ensures !e.state.isLoading
    ensures (pathname == "/login" || pathname == "/") ==> e == Effect(State(None, false, None), false)
    ensures !(pathname == "/login" || pathname == "/") ==> e == Fetch(r)
  {
    match Init(pathname)
    case SkipFetch(st) => Effect(st, false)
    case StartFetch => Fetch(r)
  }

  /** A thrown error sends the browser to `/login` exactly when the page is
      neither `/login` nor `/` and the message contains `401`; the API
      client's own unauthorised error never does, and leaves its message
      for the page to show. */
  lemma MountRedirectsOnlyOffLoginPages(pathname: string, m: string, data: Api.Json)
    ensures Mounted(pathname, Threw(ErrorValue(m))).toLogin
            <==> pathname != "/login" && pathname != "/" && Contains(m, "401")
    ensures var unauthorised := Api.ErrorMessage(Api.Status(401, data));
      var e := Mounted(pathname, Threw(ErrorValue(unauthorised)));
      !e.toLogin && !IsAuthenticated(e.state)
      && (pathname != "/login" && pathname != "/" ==> e.state.error == Some(unauthorised))
  {
    ApiUnauthorizedIsNotRedirectedHere(data);
  }

  /** `logout`: the user is cleared and the browser goes to `/login`;
      loading and the error stay as they were. */
  function Logout(s: State): (e: Effect)
    ensures !IsAuthenticated(e.state) && e.toLogin
    ensures e.state.isLoading == s.isLoading && e.state.error == s.error
  {
    Effect(s.(user := None), true)
  }

  /** After logout the login page is reached without a user, and mounting it
      makes no call and no further redirect, whatever a call would return. */
  lemma LogoutLandsOnLoginPage(s: State, r: FetchResult)
    ensures Logout(s).toLogin && !IsAuthenticated(Logout(s).state)
    ensures Mounted("/login", r) == Effect(State(None, false, None), false)
  {
  }
}
