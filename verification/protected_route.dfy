/** The client-side route guard (`src/components/ProtectedRoute.tsx`): one
    render outcome per state of the authentication context. */
module ProtectedRoute {
  import opened Wrappers

  const DefaultFallback: string := "/dashboard"
  const LoginPath: string := "/login"

  /** What the guard does: show the spinner, navigate away (rendering
      nothing), or render its children. */
  datatype Outcome = Spinner | Push(url: string) | Children

  /** The guard's inputs; `user` carries the signed-in user's role. Omitted
      props are `None` and take their defaults. */
  datatype Props = Props(allowedRoles: Option<seq<string>>, fallbackUrl: Option<string>)

  /** Checks in order: loading, authentication, role. */
  function Guard(props: Props, isLoading: bool, isAuthenticated: bool, userRole: Option<string>): (o: Outcome)
    ensures isLoading <==> o == Spinner
    ensures o == Push(LoginPath) <== !isLoading && !isAuthenticated
    ensures !isLoading && isAuthenticated ==>
      var roles := props.allowedRoles.GetOr([]);
      (o == Children <==> |roles| == 0 || userRole.None? || userRole.value in roles)
      && (o != Children ==> o == Push(props.fallbackUrl.GetOr(DefaultFallback)))
    ensures o.Push? ==> !isLoading
  {
    var roles := props.allowedRoles.GetOr([]);
    if isLoading then Spinner
    else if !isAuthenticated then Push(LoginPath)
    else if |roles| > 0 && userRole.Some? && userRole.value !in roles then
      Push(props.fallbackUrl.GetOr(DefaultFallback))
    else Children
  }

  /** Without role restrictions every authenticated, settled state renders the
      children; a user whose role is listed is never turned away. */
  lemma NoRolesAdmitsEveryone(fallbackUrl: Option<string>, isAuthenticated: bool, userRole: Option<string>,
                              roles: seq<string>)
    ensures Guard(Props(None, fallbackUrl), false, isAuthenticated, userRole)
      == (if isAuthenticated then Children else Push(LoginPath))
    ensures Guard(Props(Some([]), fallbackUrl), false, isAuthenticated, userRole)
      == Guard(Props(None, fallbackUrl), false, isAuthenticated, userRole)
    ensures userRole.Some? && userRole.value in roles ==>
      Guard(Props(Some(roles), fallbackUrl), false, true, userRole) == Children
  {
  }

  /** A role outside a non-empty list goes to the fallback, `/dashboard` when none is given. */
  lemma RejectedRoleFallsBack(roles: seq<string>, role: string)
    requires |roles| > 0 && role !in roles
    ensures Guard(Props(Some(roles), None), false, true, Some(role)) == Push("/dashboard")
  {
  }
}
