# Admin console rules, modelled in Dafny

This project models the rule-bearing core of a Next.js administration
console for LED display terminals, devices, users and user groups. The
console is mostly UI that forwards work to a backend that is not part of this
model. What is modelled are its small deterministic rules, each written as a
pure function on immutable data:

- **Route gating:** the edge middleware (public prefixes, the auth-cookie
  heuristic, the role cookie, the protected-route table) and the client-side
  `ProtectedRoute` guard.
- **The login page's checks:** its cookie heuristic, the cookie preview, and
  the button and notice conditions.
- **Site configuration:** the regional site table, gateway selection and the
  OAuth2 endpoint and login/logout URLs.
- **Breadcrumbs:** the path-derived ones and the layout's own nav-table
  version. Also the header pop-up menus.
- **The terminals, devices, users and map pages:**
  - query building, and the requests each filter change sends;
  - row selection and select-all;
  - the pagination footer and page window;
  - status badges and dots;
  - per-status counts;
  - the bulk and per-user confirmation dialogs.
- **Trees:** the generic tree view (preorder flattening, expansion state,
  visible rows). Also the terminal and user group trees built on it, and the
  user-group picker with its path-derived levels.
- **The terminal-group dialog:** form initialisation, submit checks and
  payload, and the parent picker's indented, partly disabled option list.
- **The API client:** unwrapping of the `{code, msg, data}` envelope, mapping
  of HTTP failures to messages, how the two compose, and service URL
  prefixes.
- **Session and theme:** the authentication context's user mapping and state
  transitions, and the theme context.
- **The site picker.**
- **Form rules:** the user form and the change-password form.

Each source file is one Dafny module. `Wrappers` holds `Option` and `Result`.
`Text` writes out the JavaScript string operations the rules rely on:
`startsWith`, `includes`, `split`, `join`, `trim`, ASCII case mapping and
decimal rendering. `FormRules` holds the form library's `required`, `min`,
`max` and pattern rules.

## Model

| member | source | states |
|---|---|---|
| Sites.DefaultIn | src/config/sites.ts:58-60 | the default is a table entry; it is flagged default whenever some entry is, and is the first entry when none is |
| Sites.SiteByIdIn | src/config/sites.ts:63-65 | lookup is total: a table entry, carrying the requested id when one exists, otherwise the default site |
| Sites.TableInvariants | src/config/sites.ts:18-55 | shipped table: ids are pairwise distinct, exactly the first site is default, and only the default has a real gateway (all others are `#`) |
| Sites.DefaultIsShenzhen | src/config/sites.ts:18-60 | the default site is the first entry, `cn-shenzhen`, with gateway `http://192.168.1.222:8082` |
| Sites.SiteByIdTotal | src/config/sites.ts:18-65 | for every id, lookup returns that id when it is in the table, else `cn-shenzhen`, and always a table entry |
| AuthConfig.CurrentGatewayUrl | src/config/auth.ts:10-22 | the gateway is always some site's gateway: the stored site's (via fallback lookup) when a non-empty id is stored, else the default site's |
| AuthConfig.GatewayPlaceholder | src/config/auth.ts:10-22 | the gateway is the `#` placeholder exactly when a stored id names a non-default site; otherwise it is the Shenzhen gateway |
| AuthConfig.AuthEndpoints | src/config/auth.ts:28-37 | each endpoint is the gateway followed by its fixed path (authorize, user info, logout) |
| AuthConfig.EndpointsDetermineGateway | src/config/auth.ts:28-37 | endpoint construction is injective: equal logout URLs come from equal gateways |
| AuthConfig.LoginUrl | src/config/auth.ts:40-53 | the login URL is the authorize endpoint, then `?redirect_uri=`, then the encoded origin plus the target (default `/dashboard`) |
| AuthConfig.LoginDefaults | src/config/auth.ts:40-53 | with nothing stored and no target, login goes to the Shenzhen authorize endpoint and returns to the origin's `/dashboard` |
| AuthConfig.LoginUrlDeterminesTarget | src/config/auth.ts:40-53 | with an injective encoder, two login URLs for the same origin and stored site are equal iff their return targets (defaults applied) are equal |
| AuthConfig.LogoutUrl | src/config/auth.ts:56-63 | logout goes to the current gateway followed by `/logout` |
| Middleware.StartsWithAny | src/middleware.ts:64 | true iff some listed prefix is a textual prefix of the pathname |
| Middleware.HasAuthCookie | src/middleware.ts:78-85 | true iff some cookie name passes the auth-name test (listed name, or contains `auth`, `token` or `session`) |
| Middleware.CookieValue | src/middleware.ts:88-90 | absent iff no cookie has the name; otherwise the value of the last cookie with that name, since the request's cookie store keys cookies by name and a later one replaces an earlier one |
| Middleware.UserRole | src/middleware.ts:71-97 | the role is the `user_role` cookie's value when that cookie exists (even if empty), else `viewer` |
| Middleware.FirstRouteMatch | src/middleware.ts:106 | the index of the first protected route whose path prefixes the pathname; none iff no route does |
| Middleware.Gate | src/middleware.ts:99-113 | for a non-public path: redirect to login iff no auth cookie; redirect to the dashboard iff authenticated but the matched route rejects the role; pass otherwise |
| Middleware.Middleware | src/middleware.ts:60-114 | as written: a path matching any public prefix passes; every other path goes through the gate |
| Middleware.SlashMakesEveryPathPublic | src/middleware.ts:37-46 | because `/` is a public prefix, every pathname starting with `/` passes, and a redirect is possible only for paths not starting with `/` |
| Middleware.UsersPageUngated | src/middleware.ts:19-21 | `/users` with no cookies passes as written, while the corrected gate redirects it to login |
| Middleware.MiddlewareExactRoot | src/middleware.ts:60-114 | corrected: `/` is public only as the exact root; the other public prefixes and the gate are unchanged |
| Middleware.NotPublicExceptRoot | src/middleware.ts:37-46 | a pathname under any protected route is not public under the corrected rule |
| Middleware.ProtectedPagesAreGated | src/middleware.ts:100-111 | under the corrected rule, a protected page redirects to login iff there is no auth cookie, and to the dashboard iff authenticated with a role the route rejects |
| Middleware.CaseSensitiveNames | src/middleware.ts:49-58 | the name test is case-sensitive: `JSESSIONID` qualifies only through the explicit list, and `MY_SESSIONID` does not qualify |
| Middleware.RoleCookieAuthenticates | src/middleware.ts:49-58 | a request carrying a `user_role` cookie is always authenticated |
| Middleware.RouteMatchUnique | src/middleware.ts:5-34 | the protected-route paths do not prefix one another, so any matching route is the first match |
| Middleware.ViewerAccess | src/middleware.ts:5-34 | with an auth cookie and no role cookie, `/users…`, `/permissions…` and `/analytics…` are rejected and `/dashboard`, `/devices`, `/contents`, `/messages` are admitted |
| ProtectedRoute.Guard | src/components/ProtectedRoute.tsx:19-49 | exactly one outcome in the order loading → auth → role: spinner iff loading; push `/login` when unauthenticated; otherwise push the fallback (default `/dashboard`) iff the allowed roles are non-empty and a known role is missing from them; no push while loading |
| ProtectedRoute.NoRolesAdmitsEveryone | src/components/ProtectedRoute.tsx:43-49 | with no or empty allowed roles, or a role that is listed, an authenticated user sees the children |
| ProtectedRoute.RejectedRoleFallsBack | src/components/ProtectedRoute.tsx:20-46 | a role outside a non-empty list is sent to the default fallback `/dashboard` |
| LoginPage.CookieName | src/app/login/page.tsx:66 | the name is the trimmed entry up to (not including) its first `=`, or all of it when there is none, lower-cased; so it contains no `=` and no upper-case ASCII letter |
| LoginPage.CookieNames | src/app/login/page.tsx:65-66 | one name per `;`-separated entry, in order |
| LoginPage.JsessionidSubsumed | src/app/login/page.tsx:67-70 | the `jsessionid` clause adds nothing: a name is auth-like iff it contains `auth`, `token` or `session` |
| LoginPage.Preview | src/app/login/page.tsx:62 | the preview is the label plus the whole cookie string when it has at most 50 characters, else its first 50 followed by `...` |
| LoginPage.PreviewsCollideOnlyWhenCut | src/app/login/page.tsx:62 | two cookie strings give the same preview iff they are equal or both exceed 50 characters with the same first 50 |
| LoginPage.CheckCookies | src/app/login/page.tsx:60-83 | an empty cookie string gives the no-cookie notice and no redirect; otherwise the preview is shown and a redirect is scheduled iff some entry's name is auth-like |
| LoginPage.MiddlewareSubstringNamesAreAuthLike | src/app/login/page.tsx:67-70 | every cookie name the middleware accepts by substring is auth-like on the login page too |
| LoginPage.PlainCookieName | src/app/login/page.tsx:66 | an entry without `=` or surrounding space reads back as its own lower-cased text |
| LoginPage.RememberMeOnlyInMiddleware | src/app/login/page.tsx:67-70 | `remember-me` authenticates at the middleware but not on the login page |
| LoginPage.UpperCaseOnlyOnLoginPage | src/app/login/page.tsx:66-70 | `AUTH` is auth-like on the login page (which lower-cases) but not at the middleware (which does not) |
| LoginPage.InitialSite | src/app/login/page.tsx:51 | the page starts on the first table site, `cn-shenzhen` |
| LoginPage.LoginButton | src/app/login/page.tsx:118-136 | spinner iff loading; otherwise "coming soon" for a `#` gateway, else `登录<name>站点` |
| LoginPage.ShippedSitesOnLoginPage | src/app/login/page.tsx:145 | for every shipped site the region notice never shows, and login is enabled (when not loading) exactly for `cn-shenzhen` |
| Breadcrumb.SegmentLabel | src/components/Breadcrumb.tsx:70-99 | an id-like segment (all digits, or an 8-4-4-4-12 hex UUID) is labelled `详情`; otherwise the table label when the segment is a key; otherwise the inherited member when the segment names one of `Object.prototype`; else the segment capitalised |
| Breadcrumb.InheritedLabelsExactly | src/components/Breadcrumb.tsx:70-94 | a segment gets a non-text label iff it names an `Object.prototype` member such as `constructor` or `__proto__`, since no table key and no id is one |
| Breadcrumb.TableKeysAreNotIds | src/components/Breadcrumb.tsx:70-99 | no table key is id-like, so every key gets its table label |
| Breadcrumb.CrumbsOf | src/components/Breadcrumb.tsx:88-90 | one crumb per segment, in order, each titled by its segment's label |
| Breadcrumb.Generate | src/components/Breadcrumb.tsx:63-67 | `/dashboard` gives no crumbs; any other path gives one crumb per non-empty segment |
| Breadcrumb.Crumbs | src/components/Breadcrumb.tsx:28 | non-empty items are used verbatim; only empty items trigger generation |
| Breadcrumb.CrumbPathsChain | src/components/Breadcrumb.tsx:90 | the first crumb's path is `/` plus the first segment; each later path extends the previous one by `/` and its segment, so each path prefixes the next |
| Breadcrumb.LastCrumbIsNormalisedPath | src/components/Breadcrumb.tsx:90 | the last crumb links to the pathname with its empty segments removed |
| Breadcrumb.NormalPathRoundTrip | src/components/Breadcrumb.tsx:67 | splitting `/` plus segments joined by `/` gives those segments back, when the segments are non-empty and free of `/` |
| Breadcrumb.SectionDetailCrumbs | src/components/Breadcrumb.tsx:88-99 | for any table section and id-like segment, `/<section>/<id>` gives the crumbs (`/<section>`, its table label) and (`/<section>/<id>`, 详情) |
| Breadcrumb.IdTestIgnoresCase | src/components/Breadcrumb.tsx:97 | the id test gives the same answer for a segment and its lower-cased form, and digit strings and UUIDs never overlap |
| DashboardLayout.FindNav | src/components/DashboardLayout.tsx:153-154 | finds a nav item with exactly the path; none iff no item has it |
| DashboardLayout.ParentPath | src/components/DashboardLayout.tsx:156-170 | `/` plus the first segment, or `/undefined` for a path with no segments |
| DashboardLayout.ChildLabel | src/components/DashboardLayout.tsx:156-170 | the second segment capitalised, or `详情` when there is none |
| DashboardLayout.GetBreadcrumb | src/components/DashboardLayout.tsx:149-181 | at most two crumbs; none iff the path is `/dashboard`; one titled crumb for a nav path; two iff the parent is a nav path but the path itself is not; the last crumb always links to the pathname |
| DashboardLayout.NavPathsDistinct | src/components/DashboardLayout.tsx:108-146 | the flattened navigation table has pairwise distinct paths |
| DashboardLayout.NavPageCrumb | src/components/DashboardLayout.tsx:153-154 | every nav page other than the dashboard gets exactly its own crumb |
| DashboardLayout.FirstNavMatch | src/components/DashboardLayout.tsx:153-154 | in a table with distinct paths, looking up an item's path finds that item |
| DashboardLayout.NoUndefinedNavItem | src/components/DashboardLayout.tsx:156-170 | the `/undefined` parent produced by a segment-less path is never a nav item |
| DashboardLayout.ParentAgreesWithGenerated | src/components/DashboardLayout.tsx:156-170 | when the layout shows two crumbs, its parent crumb's path equals the first path-derived crumb's path |
| DashboardLayout.ToggleNotifications | src/components/DashboardLayout.tsx:95-99 | flips the notifications menu and closes the user menu |
| DashboardLayout.ToggleUserMenu | src/components/DashboardLayout.tsx:101-105 | flips the user menu and closes the notifications menu |
| DashboardLayout.CloseMenus | src/components/DashboardLayout.tsx:81-88 | closes both menus |
| DashboardLayout.MenuInvariant | src/components/DashboardLayout.tsx:81-105 | after any menu action at most one menu is open; toggling twice reopens only the toggled menu's original state |
| Selection.RemoveAll | src/app/terminals/page.tsx:135-143 | the ids left are exactly the others, and the list never grows |
| Selection.Toggle | src/app/terminals/page.tsx:135-143 | the id becomes a member iff it was not one; no other id's membership changes; appended when absent, every occurrence removed when present |
| Selection.ToggleTwice | src/app/terminals/page.tsx:135-143 | toggling twice restores membership, and restores the list exactly when the id was absent |
| Selection.SelectAll | src/app/terminals/page.tsx:146-154 | equal counts clear the selection; otherwise the page's ids are selected in order |
| Selection.SelectAllComparesCounts | src/app/terminals/page.tsx:146-154 | select-all ends with every row selected iff the selection size differs from the page size (or the page is empty); a selection of the page's size is dropped whole, even one holding none of the page's rows |
| Selection.CountsMatchSetsOnOnePage | src/app/terminals/page.tsx:146-154 | when both lists are duplicate-free and every selected id is on the page, equal counts mean every row is selected |
| TerminalsPage.BuildQuery | src/app/terminals/page.tsx:46-63 | the API page is the UI page minus one; keyword and group appear iff non-empty; the status is passed through |
| TerminalsPage.QueryReadBack | src/app/terminals/page.tsx:46-63 | the UI page, size, keyword and chosen group can be read back from the query |
| TerminalsPage.InitialFilters | src/app/terminals/page.tsx:19-22 | starts at page 1 with no search, status or group |
| TerminalsPage.QueryFor | src/app/terminals/page.tsx:46-63 | the query for the current filters asks for the API page one below the UI page |
| TerminalsPage.Requests | src/app/terminals/page.tsx:80-82 | a filter change causes exactly one query iff it changes the filter state, and that query is the one for the new state |
| TerminalsPage.FilterChangesFetchFirstPage | src/app/terminals/page.tsx:80-336 | a search, status or group change sends one query iff it changes the value or leaves a later page; that query asks for API page 0 with the new value and the other two filters unchanged |
| TerminalsPage.ConfirmBulk | src/app/terminals/page.tsx:162-175 | requested iff an action is set and something is selected; unrequested changes nothing; success closes the dialog and clears the selection; failure keeps both |
| TerminalsPage.ChooseBulk | src/app/terminals/page.tsx:157-159 | choosing an action opens the dialog for that action |
| TerminalsPage.ChooseThenConfirm | src/app/terminals/page.tsx:157-175 | choosing an action with a non-empty selection, then succeeding, closes the dialog and clears the selection |
| TerminalsPage.ConfirmDeleteGroup | src/app/terminals/page.tsx:111-122 | nothing changes unless a pending group is deleted successfully; deleting the selected group clears the selected group |
| TerminalsPage.RangeStart | src/app/terminals/page.tsx:488 | the first shown row number is 0 iff the page has no rows |
| TerminalsPage.RangeEnd | src/app/terminals/page.tsx:492 | the last shown row number is the smaller of the page end and the total |
| TerminalsPage.RangeCountsRows | src/app/terminals/page.tsx:488-492 | on a consistent page the range label spans exactly the rows shown |
| TerminalsPage.PrevPage | src/app/terminals/page.tsx:503 | one page back, never below page 1 |
| TerminalsPage.NextPage | src/app/terminals/page.tsx:537 | one page forward |
| TerminalsPage.NavigationStaysInRange | src/app/terminals/page.tsx:502-537 | Previous is disabled exactly on page 1 and Next exactly on the last page; an enabled button leads to a page in range |
| TerminalsPage.WindowFrom | src/app/terminals/page.tsx:516-517 | every button is at most the last page; when none overflows the buttons are consecutive from the start |
| TerminalsPage.PageWindowSound | src/app/terminals/page.tsx:507-533 | for a current page in range: min(5, pages) buttons, consecutive, within [1, pages], and including the current page |
| TerminalsPage.StatusLabel | src/app/terminals/page.tsx:178-215 | 1, 0, 2 and −1 map to 在线, 离线, 告警 and 禁用, and every other status to 未知, each in both directions |
| DevicesPage.Filter | src/app/devices/page.tsx:34-42 | keeps exactly the matching devices as an order-preserving subsequence, with every copy of a matching device kept and no copy of any other |
| DevicesPage.FilterKeepsAll | src/app/devices/page.tsx:34-42 | a list whose devices all match is returned unchanged |
| DevicesPage.NoFilterShowsAll | src/app/devices/page.tsx:34-42 | an empty search with `all` shows every device |
| DevicesPage.FilterIdempotent | src/app/devices/page.tsx:34-42 | filtering twice equals filtering once |
| DevicesPage.SearchIgnoresTermCase | src/app/devices/page.tsx:36-38 | a term and its lower-cased form match the same devices |
| DevicesPage.SelectAllShown | src/app/devices/page.tsx:56-62 | select-all compares against the filtered rows: equal counts clear, otherwise the filtered ids are selected in order |
| DevicesPage.BulkAction | src/app/devices/page.tsx:65-68 | a bulk action leaves devices and selection as they were and logs the action's name after a fixed prefix, with the selected ids |
| DevicesPage.BulkActionsOnlyLog | src/app/devices/page.tsx:65-68 | any two bulk actions leave the same, unchanged state, and their log lines are equal iff the actions are |
| DevicesPage.StatusLabel | src/app/devices/page.tsx:71-101 | online, offline and warning map to 在线, 离线 and 告警, and anything else to 未知, each in both directions |
| DevicesPage.MockIdsDistinct | src/app/devices/page.tsx:14-23 | the mock device ids are pairwise distinct |
| TerminalMap.MapQuery | src/app/terminals/map/page.tsx:19-28 | API page 0 of size 1000, with no keyword, status or group |
| TerminalMap.MapQueryIsUnfilteredFirstPage | src/app/terminals/map/page.tsx:19-28 | the map's query is the terminals page's query for UI page 1, size 1000, no filters |
| TerminalMap.CountStatus | src/app/terminals/map/page.tsx:88 | a status count never exceeds the number of rows |
| TerminalMap.Counts | src/app/terminals/map/page.tsx:88-106 | all counts are 0 without data; otherwise each is its status's count over the rows |
| TerminalMap.CountsBounded | src/app/terminals/map/page.tsx:88-106 | the four counts sum to at most the row count, with equality iff every row has one of the four statuses |
| TerminalMap.LocationPanel | src/app/terminals/map/page.tsx:115-145 | spinner iff loading; the no-data note iff there are no rows; otherwise the first 5 rows, and the "n more" note iff more than 5 remain, with n = rows − 5 |
| TerminalMap.PanelAgreesWithTiles | src/app/terminals/map/page.tsx:85-145 | without rows the panel shows its note and all tiles are 0; with rows the listed rows plus the "n more" count equal the row count, and no status has more listed rows than its tile counts |
| TerminalMap.LocationText | src/app/terminals/map/page.tsx:129 | the location when set and non-empty, else `未设置位置` |
| TerminalMap.StatusDot | src/app/terminals/map/page.tsx:131-136 | green, gray and yellow exactly for 1, 0 and 2; red for everything else |
| TerminalMap.DotAgreesWithBadge | src/app/terminals/map/page.tsx:131-136 | a dot's colour and the terminals page badge agree for every status (red covers both 禁用 and 未知) |
| TreeView.FlattenCountsNodes | src/components/tree/TreeView.tsx:45-53 | flattening lists one id per node of the forest |
| TreeView.InitialExpanded | src/components/tree/TreeView.tsx:35-37 | all flattened ids when expanding by default, else none |
| TreeView.EffectiveExpanded | src/components/tree/TreeView.tsx:40-42 | ids supplied by the parent override the internal set |
| TreeView.ControlledIgnoresDefault | src/components/tree/TreeView.tsx:35-42 | under parent control the default-expansion choice has no effect, even with an empty supplied list |
| TreeView.HandleToggle | src/components/tree/TreeView.tsx:56-72 | with a callback it reports (id, !wasExpanded) and leaves the internal set alone; without one the internal set flips exactly that id |
| TreeView.ToggleTwiceRestores | src/components/tree/TreeView.tsx:56-72 | toggling an id twice restores the internal set |
| TreeView.Indent | src/components/tree/TreeView.tsx:86 | the row indent determines its level: 8 px plus 16 px per level |
| TreeView.AllExpandedShowsPreorder | src/components/tree/TreeView.tsx:138-142 | with every id expanded, the rendered rows are exactly the flattened preorder ids |
| TreeView.ExpandedSupersetShowsAll | src/components/tree/TreeView.tsx:138-142 | any expanded set containing every id shows the whole forest in preorder |
| TreeView.NothingExpandedShowsRoots | src/components/tree/TreeView.tsx:138-142 | with nothing expanded, only the roots are shown, at the starting level |
| GroupTree.ConvertGroup | src/components/tree/TerminalGroupTree.tsx:37-44 | a node keeps the group's id and name and holds the group itself; absent children stay absent |
| GroupTree.Convert | src/components/tree/TerminalGroupTree.tsx:37-44 | conversion preserves length and order |
| GroupTree.ConvertPreservesShape | src/components/tree/TerminalGroupTree.tsx:37-44 | the converted forest has as many nodes as there are groups, and flattens to the groups' preorder ids |
| GroupTree.ConvertCarriesGroups | src/components/tree/TerminalGroupTree.tsx:37-44 | every converted node, at any depth, carries the group with its own id and name |
| GroupTree.SelectedGroup | src/components/tree/TerminalGroupTree.tsx:148-150 | selecting a converted node reports a group with that node's id and name |
| GroupTree.ExpandToggle | src/components/tree/TerminalGroupTree.tsx:67-75 | expanding appends the id (even if present); collapsing removes every occurrence; no other id's membership changes |
| GroupTree.ReportedToggleFlips | src/components/tree/TerminalGroupTree.tsx:67-75 | under parent control the tree view's report, applied by the group tree, flips exactly the toggled id's membership |
| GroupTree.Render | src/components/tree/TerminalGroupTree.tsx:152-204 | loading wins over an error, which wins over the panel; the retry button appears only on the terminal tree; the add-root button and node actions follow `showActions`; the tree shows iff there are groups |
| GroupTree.LoadedGroupsRendered | src/components/tree/TerminalGroupTree.tsx:152-204 | once loaded without error, the empty note shows iff there are no groups; otherwise the tree, once every node is expanded, lists every fetched group in preorder, with actions iff they are on |
| GroupTree.LoadTimeShowsTopGroups | src/components/tree/TerminalGroupTree.tsx:196-202 | the trees pass their own expanded-id list, which starts empty (line 32), so right after loading only the top-level groups show, one row each at level 0, whatever `defaultExpandAll` says (likewise src/components/tree/UserGroupTree.tsx:30,182) |
| GroupTree.NodeActions | src/components/tree/UserGroupTree.tsx:95-96 | no actions iff actions are off; otherwise add-child, edit and delete for that node |
| TerminalGroupDialog.Open | src/components/dialogs/TerminalGroupDialog.tsx:39-58 | create mode opens blank under the given parent; edit mode prefills name, description (empty if absent) and parent from the group; no error either way |
| TerminalGroupDialog.ParentOrNull | src/components/dialogs/TerminalGroupDialog.tsx:78 | a parent is sent iff one is chosen and non-empty |
| TerminalGroupDialog.Submit | src/components/dialogs/TerminalGroupDialog.tsx:66-79 | rejected with `组名不能为空` iff the name is all white space; otherwise the saved name and description are exactly the form's name and description trimmed (so the name is non-empty), and the parent is null when none was chosen |
| TerminalGroupDialog.AfterSubmit | src/components/dialogs/TerminalGroupDialog.tsx:60-87 | a blank name keeps the dialog open with the error; a failed save keeps it open with the save error; a successful save closes it and reports success |
| TerminalGroupDialog.DialogClosesIffSaved | src/components/dialogs/TerminalGroupDialog.tsx:60-87 | the dialog closes, reporting success, iff the name is valid and the save succeeded; when it stays open it keeps the entered fields, so a retry submits the same thing |
| TerminalGroupDialog.EditUnchangedRoundTrip | src/components/dialogs/TerminalGroupDialog.tsx:39-79 | opening a group with clean fields for edit and saving unchanged sends back its own name, description and parent |
| TerminalGroupDialog.Label | src/components/dialogs/TerminalGroupDialog.tsx:107 | 2·level non-breaking spaces, then `└─ ` when level > 0, then the name |
| TerminalGroupDialog.LabelReadBack | src/components/dialogs/TerminalGroupDialog.tsx:107 | the level and name can be read back from a label |
| TerminalGroupDialog.OptionFor | src/components/dialogs/TerminalGroupDialog.tsx:95-108 | an option carries the group id, its level, its label, and is disabled iff the group is excluded by the edited group |
| TerminalGroupDialog.OptionsArePreorder | src/components/dialogs/TerminalGroupDialog.tsx:90-116 | one option per group of the forest, listed in preorder |
| TerminalGroupDialog.LevelsFromStart | src/components/dialogs/TerminalGroupDialog.tsx:111-113 | the first option is at the starting level and no option is shallower |
| TerminalGroupDialog.LevelsStepByOne | src/components/dialogs/TerminalGroupDialog.tsx:111-113 | moving down the list, the level deepens by at most one at a time |
| TerminalGroupDialog.TopLevelIsGiven | src/components/dialogs/TerminalGroupDialog.tsx:90-116 | the options at the starting level are exactly the top groups, in order |
| TerminalGroupDialog.CreateModeEnablesAll | src/components/dialogs/TerminalGroupDialog.tsx:95-98 | in create mode no option is disabled |
| TerminalGroupDialog.UnderIsDisabled | src/components/dialogs/TerminalGroupDialog.tsx:95-98 | in edit mode every option whose path lies under the edited group's path is disabled |
| TerminalGroupDialog.EditedSubtreeDisabled | src/components/dialogs/TerminalGroupDialog.tsx:95-98 | the edited group and all its descendants (whose paths extend its path) are disabled as parents |
| TerminalGroupDialog.TextualPrefixDisablesSibling | src/components/dialogs/TerminalGroupDialog.tsx:95-98 | the prefix test is textual: editing `/1/2` also disables its non-descendant `/1/23` |
| UserGroupSelector.NodeLevel | src/app/users/components/UserGroupSelector.tsx:69-73 | 0 for an empty path, else the number of non-empty segments minus one |
| UserGroupSelector.LevelOfNormalPath | src/app/users/components/UserGroupSelector.tsx:69-73 | a normal path of k segments has level k − 1 |
| UserGroupSelector.ChildIsOneDeeper | src/app/users/components/UserGroupSelector.tsx:69-73 | appending a segment to a path deepens its level by exactly one |
| UserGroupSelector.SlashIsLevelMinusOne | src/app/users/components/UserGroupSelector.tsx:69-73 | the bare path `/` has level −1 |
| UserGroupSelector.SelectionPicksOneId | src/app/users/components/UserGroupSelector.tsx:38 | at most one group id matches a selection, because decimal rendering is injective |
| UserGroupSelector.RowFor | src/app/users/components/UserGroupSelector.tsx:38-47 | a row reports its group id, is indented by level·16+8, and is highlighted iff the selection equals the id's decimal text |
| UserGroupSelector.RowsArePreorder | src/app/users/components/UserGroupSelector.tsx:37-66 | every group is listed, in preorder with no collapsing, and each row is highlighted iff its id is selected |
| UserGroupSelector.OneHighlightedRow | src/app/users/components/UserGroupSelector.tsx:38 | with distinct ids at most one row of the tree is highlighted |
| UserGroupSelector.IndentFollowsDepth | src/app/users/components/UserGroupSelector.tsx:46-47 | when paths follow the tree, each row's indent is its depth·16+8 |
| UserGroupSelector.Render | src/app/users/components/UserGroupSelector.tsx:79-98 | spinner iff loading; the fixed error text iff the fetch failed; the rows of the root iff a root was returned; otherwise the no-groups view |
| UserGroupSelector.LoadedTreeShowsEveryGroup | src/app/users/components/UserGroupSelector.tsx:37-98 | a loaded tree shows one row per group in preorder with that group's id, at most one highlighted when ids are distinct; every failure shows the same message |
| Api.Field | src/utils/api.ts:95 | for the own keys the client reads (`data`, `message`, `msg`), the field's value when the object has it, else `undefined` |
| Api.Unwrap | src/utils/api.ts:129-146 | success iff the body is an object or array that is not an envelope or has code 200/0; success yields `data` or the body itself; an envelope error yields `msg`, or `请求失败` when it is falsy; any other body yields `无效的响应数据` |
| Api.UnwrapSuccess | src/utils/api.ts:134-135 | an envelope with code 200 or 0 unwraps to its data |
| Api.UnwrapFailure | src/utils/api.ts:136-139 | an envelope with any other code fails with its message, or `请求失败` when the message is empty |
| Api.Detail | src/utils/api.ts:95-98 | the response's `message`, else its `msg`, else `未知错误`, each taken only when truthy |
| Api.ErrorMessage | src/utils/api.ts:79-109 | 401, 403 and 500 get their fixed texts (500 with the detail); other statuses get `请求失败 (s): …`; no response and setup errors get their own texts |
| Api.MessageRevealsKind | src/utils/api.ts:79-109 | the failure kind (each of the special statuses, other status, no response, setup) can be recovered from the message alone |
| Api.Call | src/utils/api.ts:129-149 | a raised failure gives its mapped message; a body that unwraps succeeds; an envelope error surfaces as `请求配置错误: ` plus its message |
| Api.EnvelopeErrorLooksLikeSetup | src/utils/api.ts:129-149 | an envelope error from the backend is reported exactly like a request-setup error |
| Api.Prefix | src/utils/api.ts:21-25 | each service prefix is a non-trivial absolute path |
| Api.ServiceUrl | src/utils/api.ts:258-285 | a service URL is its prefix followed by the given URL |
| Api.ServiceUrlInjective | src/utils/api.ts:258-285 | distinct (service, URL) pairs give distinct full URLs |
| AuthContext.RoleOf | src/contexts/AuthContext.tsx:51-53 | `普通用户` with no roles; otherwise the first role's non-empty display name, else its role name |
| AuthContext.MapUser | src/contexts/AuthContext.tsx:44-61 | ids become decimal text; nickname is the username; role as above; the other fields are copied |
| AuthContext.MappedIdsIdentify | src/contexts/AuthContext.tsx:44-61 | the mapped ids identify the user and the organisation, and a non-negative uid parses back from its text |
| AuthContext.Fetch | src/contexts/AuthContext.tsx:34-88 | loading always ends; authenticated iff a user came back; a null user or a thrown error sets the matching message; a login redirect happens iff an error's message contains `401` |
| AuthContext.ApiUnauthorizedIsNotRedirectedHere | src/contexts/AuthContext.tsx:72-83 | the API client's own 401 message does not contain `401`, so it never triggers this redirect |
| AuthContext.Init | src/contexts/AuthContext.tsx:91-109 | the first fetch is skipped exactly on `/login` and `/`, which end loading without a user |
| AuthContext.Mounted | src/contexts/AuthContext.tsx:91-109 | after mount the context is never loading; on `/login` and `/` it holds no user and no error and does not redirect; elsewhere it is the fetch's effect |
| AuthContext.MountRedirectsOnlyOffLoginPages | src/contexts/AuthContext.tsx:72-109 | a thrown error redirects to `/login` iff the page is neither `/login` nor `/` and the message contains `401`; the API client's own 401 message never triggers this context's redirect and is shown as the error |
| AuthContext.Logout | src/contexts/AuthContext.tsx:112-121 | logout leaves the context unauthenticated and sends the browser to `/login`, with loading and error unchanged |
| AuthContext.LogoutLandsOnLoginPage | src/contexts/AuthContext.tsx:91-121 | after logout the login page mounts without a user, makes no call and does not redirect again, whatever a call would return |
| Theme.MountTheme | src/contexts/ThemeContext.tsx:26-39 | a non-empty saved theme wins; otherwise dark iff the system prefers dark |
| Theme.Toggle | src/contexts/ThemeContext.tsx:56-58 | dark iff the theme was light, so the result is always light or dark |
| Theme.ToggleTwice | src/contexts/ThemeContext.tsx:56-58 | toggling twice is the identity on light and dark |
| Theme.ToggleNormalises | src/contexts/ThemeContext.tsx:56-58 | any other saved value toggles to light, then dark |
| Theme.SetThemePersists | src/contexts/ThemeContext.tsx:26-63 | once mounted, a theme set through the context gives the `dark` class iff it is dark, and comes back on the next mount iff it is non-empty; an empty one gives way to the system preference |
| Theme.Apply | src/contexts/ThemeContext.tsx:42-53 | before mount nothing changes; after mount the `dark` class is present iff the theme is dark, and the theme is stored |
| Theme.StoredThemeRestored | src/contexts/ThemeContext.tsx:26-53 | a stored non-empty theme is the theme chosen at the next mount |
| Theme.MountedPage | src/contexts/ThemeContext.tsx:26-53 | after mount the page's dark class matches the resolved theme, which is stored |
| UsersPage.KeywordParam | src/app/users/page.tsx:44-56 | the keyword is sent iff it is non-empty |
| UsersPage.FetchRequest | src/app/users/page.tsx:39-67 | no request iff no (truthy) group is selected; otherwise the page, size, `createTime desc` sort, group, sub-group flag, status, and the same keyword for both username and email |
| UsersPage.Sent | src/app/users/page.tsx:39-98 | an event sends at most two requests, each the one for the state before it or the state after it |
| UsersPage.SearchRequests | src/app/users/page.tsx:76-86 | search sends nothing without a group and one request on page 1; on a later page it sends two, first the old page from the stale closure and then page 1, identical but for the page |
| UsersPage.StatusChangeRequests | src/app/users/page.tsx:76-92 | a status change on page 1 sends no request; on a later page it sends one iff a group is selected, for page 1 with the new status |
| UsersPage.SentWithStatus | src/app/users/page.tsx:76-92 | the requests an event causes with the status filter added to the effect's dependencies: at most two, each the one for the old or the new state |
| UsersPage.StatusDependencyRefetches | src/app/users/page.tsx:76-92 | with status among the dependencies, a status change sends one request iff a group is selected and the status or the page changes, on any page, for page 1 with the new status; every other event sends what it sends as written |
| UsersPage.KeywordWaitsForSearch | src/app/users/page.tsx:299-303 | typing sends nothing; the next search sends the typed keyword for both username and email |
| UsersPage.GroupAndSubGroupRequests | src/app/users/page.tsx:70-98 | a group or sub-group choice sends one request iff the group is truthy and the choice or page changed; it asks for page 1 with the new choice and the old status |
| UsersPage.LastRequestIsForNewState | src/app/users/page.tsx:76-98 | the last request an event sends is the one for the new state, and an event sends two iff it is a search on a later page with a group |
| UsersPage.GroupZeroActsUnselected | src/app/users/page.tsx:40-80 | group id 0 is falsy: selecting it sends no request and disables user creation |
| UsersPage.EmptyText | src/app/users/page.tsx:363-365 | the empty-table text asks for a group iff none is selected |
| UsersPage.StatusActionFor | src/app/users/page.tsx:243-261 | ban iff `active` is 0, else unban; a row never offers delete here |
| UsersPage.TagAgreesWithAction | src/app/users/page.tsx:194-261 | for 0 and 1 the banned tag shows iff unban is offered; for any other value unban is offered without the tag |
| UsersPage.OpenConfirm | src/app/users/page.tsx:119-182 | opens for that action and user: ban warning, unban info, delete danger, each with its title |
| UsersPage.VariantIdentifiesAction | src/app/users/page.tsx:119-182 | the dialog variant determines the action |
| UsersPage.Confirmed | src/app/users/page.tsx:119-182 | confirming closes the dialog whatever happens, and refetches iff the action succeeded |
| UsersPage.Cancelled | src/app/users/page.tsx:390 | cancelling closes the dialog and changes nothing else |
| UsersPage.DialogAlwaysCloses | src/app/users/page.tsx:119-182 | every opened confirmation is closed by confirming or cancelling, and keeps its variant |
| SiteSelector.Pick | src/components/SiteSelector.tsx:23-32 | read-only: nothing; otherwise the site is selected, the dropdown closes, and the site is reported |
| SiteSelector.Toggle | src/components/SiteSelector.tsx:34-40 | read-only: nothing; otherwise the dropdown flips and the selection stays |
| SiteSelector.ClickOutside | src/components/SiteSelector.tsx:16-21 | closes the dropdown and keeps the selection |
| SiteSelector.ReadOnlyIsInert | src/components/SiteSelector.tsx:23-40 | in read-only mode no sequence of clicks changes a closed picker or shows its dropdown |
| SiteSelector.SelectionStaysInTable | src/components/SiteSelector.tsx:23-32 | if the selection and every picked site come from the table, the selection stays in the table |
| SiteSelector.Entries | src/components/SiteSelector.tsx:73-91 | one entry per table site, in order; highlighted iff its id is the selected id; marked coming soon iff its gateway is `#` |
| SiteSelector.EntriesShape | src/components/SiteSelector.tsx:73-91 | every site but the first is marked coming soon; at most one entry is highlighted, and one is whenever the selection is a table site |
| FormRules.Violations | src/app/users/components/UserForm.tsx:102-115 | no errors iff every rule passes; a message is reported iff some broken rule carries it; at most one error per rule |
| FormRules.ViolationsInOrder | src/app/users/components/UserForm.tsx:102-115 | the errors are the broken rules' messages, one per broken rule, in declaration order: their positions are increasing and are exactly the broken rules |
| FormRules.LengthRules | src/app/users/components/UserForm.tsx:105-109 | required plus min and max passes iff the length is in range; an empty value gets only the required message |
| FormRules.MinRules | src/app/users/components/UserForm.tsx:121-126 | required plus min passes iff the length is at least the minimum; an empty value gets only the required message |
| FormRules.RequiredCheck | src/app/users/components/UserForm.tsx:135-138 | required plus a check passes iff the value is non-empty and the check holds |
| UserForm.Validate | src/app/users/components/UserForm.tsx:102-163 | username 3–50 characters; password ≥ 6 unless editing; email non-empty and well-formed; phone empty or a mainland mobile number (`1`, then 3–9, then nine digits); at least one role |
| UserForm.Prefill | src/app/users/components/UserForm.tsx:28-46 | edit mode copies the username, email (or empty) and role ids, with a blank password; create mode is blank in the given group |
| UserForm.EditPrefillIsValid | src/app/users/components/UserForm.tsx:28-46 | a well-formed user opened for edit passes validation unchanged |
| UserForm.BlankCreateFormErrors | src/app/users/components/UserForm.tsx:102-163 | a blank create form fails username, password, email and roles with their required messages, but not phone |
| UserForm.Submit | src/app/users/components/UserForm.tsx:49-81 | rejected iff invalid; edit mode with valid values only warns; create mode sends the values with the given group and an empty phone when blank |
| UserForm.SubmitOutcomes | src/app/users/components/UserForm.tsx:49-81 | edit mode never creates, yet reports success when valid; every create request sent satisfies the username, password, phone and roles rules |
| ChangePasswordForm.Validate | src/components/profile/ChangePasswordForm.tsx:37-89 | old ≥ 6 characters; new ≥ 8 characters drawn from letters, digits and `@$!%*?&`, with a letter and a digit; confirmation non-empty and equal to the new password |
| ChangePasswordForm.LettersAloneAreWeak | src/components/profile/ChangePasswordForm.tsx:54-60 | a letters-only password fails the strength rule, and appending a digit passes it |
| ChangePasswordForm.Submit | src/components/profile/ChangePasswordForm.tsx:15-27 | sent iff valid; success resets the fields with the success notice; failure keeps them with the server's message or the fallback |
| ChangePasswordForm.ResetFormIsInvalid | src/components/profile/ChangePasswordForm.tsx:15-27 | the fields reset after success cannot be sent again as they are |

## Left out

- Browser and network effects are inputs, not behaviour. This covers `document.cookie`, `localStorage`, `window.location`, `matchMedia`, DOM class changes, router pushes, `setTimeout` and the HTTP calls themselves. Each becomes a parameter or an outcome value.
- The axios interceptors, including the 401 redirect in `src/utils/api.ts:28-76`, are not modelled. Neither are the service modules (`userService`, `terminalService`, `dashboardService`), which only name backend URLs. `getCurrentUser`'s timeout race and its message rewriting are not modelled either, because they are timing-dependent.
- `src/hooks/useApi.ts`, the charts, the marketing components, every layout file and `next.config.ts` are not part of this model.
- The profile pages, the role selector and the terminal-groups page are not modelled. Each only repeats rules modelled here.
- JavaScript numbers are modelled as integers. Floating point, `NaN` and fractional statuses are not modelled.
- Strings are sequences of characters; UTF-16 surrogate pairs are not split. Case mapping covers ASCII only.
- The regular expressions are hand-written predicates. This covers the id test, the mobile number and the password charset.
- `encodeURIComponent` and the form library's email validator are function parameters without a definition.
- GroupTree.Render: the group record is generic, so the trees' icon choice and the user-group tree's missing record type are not modelled.
- UserForm.Validate: the roles field is a list of ids. The form library's array handling of `required` is modelled as "non-empty".
- UserForm.Submit: the create request's shape is modelled; the backend's answer is only a failure message or none.
- ChangePasswordForm.Submit: the confirmation field that the form also sends is not part of the modelled payload.
- UsersPage.OpenConfirm: the dialog message embedding the username is not modelled, only its title and variant.
- Breadcrumb.SegmentLabel: an inherited member is returned as a distinct label value. What React does when it renders that function or object as a crumb label is not modelled.
- TerminalsPage.Requests: the list effect also depends on `fetchTerminals`, whose identity comes from `useApi`, which is not part of this model. Only the query a filter change causes is modelled, not refetches from renders that change no filter.
- UsersPage.Sent: React is taken to batch a handler's updates into one render and to skip the effect when none of its dependencies changed. The order in which responses arrive is not modelled; the lemmas state what is sent.
- TerminalMap.LocationPanel: the map itself is a placeholder and is not modelled. Neither are the selected-terminal side panel and the extra fields of the mock devices.
- The middleware's `config.matcher` is not modelled. The framework applies it before the middleware runs, so the model takes any pathname.

## Findings

| source | as written | input that shows it | evidently intended | confidence | as-written member | corrected member |
|---|---|---|---|---|---|---|
| src/middleware.ts:37-46 | `'/'` is in the public-prefix list and tested with `startsWith`, so every path starting with `/` is public | `/users` with no cookies passes instead of redirecting to `/login` | `/` public only as the exact root, so protected pages reach the cookie and role checks | not executed | Middleware.UsersPageUngated | Middleware.ProtectedPagesAreGated |
| src/app/users/page.tsx:76-92 | the status filter is not among the list effect's dependencies, while its handler resets the page to 1 | with a group selected on page 1, choosing status `封禁` sends no request and the table keeps the old rows; the same choice on page 2 refetches at once | a status change refetches page 1 with the new status on every page, as the sub-group toggle does | not executed; medium, since the Search button next to the select may be meant to apply it | UsersPage.StatusChangeRequests | UsersPage.StatusDependencyRefetches |
