/** The user-management page (`src/app/users/page.tsx`): when a user list is
    requested and with what parameters, which filter changes return to the
    first page, the per-row tag and ban/unban choice, and the confirmation
    dialogs for ban, unban and delete. The selected group id is a number
    tested for truthiness, so group id 0 counts as "no group". */
module UsersPage {
  import opened Wrappers

  datatype State = State(currentPage: int, pageSize: int, selectedGroup: Option<int>, keyword: string,
                         statusFilter: Option<int>, includeSubGroups: bool)

  const InitialState := State(1, 10, None, "", None, false)

  /** `selectedUserGroup` is truthy: set and not 0. */
  predicate HasGroup(s: State) {
    s.selectedGroup.Some? && s.selectedGroup.value != 0
  }

  /** `PageRequestDTO<QueryUserListRequest>`. */
  datatype Request = Request(pageNum: int, pageSize: int, sortField: string, sortOrder: string,
                             ugid: int, includeSubGroups: bool, userNameKeyword: Option<string>,
                             emailKeyword: Option<string>, status: Option<int>)

  /** `keyword || undefined`. */
  function KeywordParam(keyword: string): (r: Option<string>)
    ensures r.None? <==> keyword == ""
    ensures r.Some? ==> r.value == keyword
  {
    if keyword == "" then None else Some(keyword)
  }

  /** `fetchUsers`: no request without a group; otherwise the 1-based page,
      newest first, the group, and the keyword for both name and email. */
  function FetchRequest(s: State): (r: Option<Request>)
    ensures r.None? <==> !HasGroup(s)
    ensures r.Some? ==> r.value.pageNum == s.currentPage && r.value.pageSize == s.pageSize
    ensures r.Some? ==> r.value.sortField == "createTime" && r.value.sortOrder == "desc"
    ensures r.Some? ==> r.value.ugid == s.selectedGroup.value && r.value.ugid != 0
    ensures r.Some? ==> r.value.includeSubGroups == s.includeSubGroups && r.value.status == s.statusFilter
    ensures r.Some? ==> r.value.userNameKeyword == r.value.emailKeyword == KeywordParam(s.keyword)
  {
    if !HasGroup(s) then None
    else Some(Request(s.currentPage, s.pageSize, "createTime", "desc", s.selectedGroup.value,
                      s.includeSubGroups, KeywordParam(s.keyword), KeywordParam(s.keyword), s.statusFilter))
  }

  // ---------------------------------------------------------------------
  // handlers and the requests they cause

  /** What the user does on the page. */
  datatype Event =
    | GroupSelected(ugid: int)             // `handleUserGroupSelect`
    | KeywordTyped(keyword: string)        // the search box's `onChange`
    | SearchPressed                        // `handleSearch`, by button or Enter
    | StatusChosen(status: Option<int>)    // `handleStatusFilterChange`
    | SubGroupsToggled(checked: bool)      // `handleIncludeSubGroupsChange`
    | PageChosen(page: int)                // the pager's `onChange`
    | PageSizeChosen(size: int)            // the pager's `onShowSizeChange`

  /** The state once the handler's batched updates are applied. */
  function Apply(s: State, e: Event): State {
    match e
    case GroupSelected(ugid) => s.(selectedGroup := Some(ugid), currentPage := 1)
    case KeywordTyped(k) => s.(keyword := k)
    case SearchPressed => s.(currentPage := 1)
    case StatusChosen(status) => s.(statusFilter := status, currentPage := 1)
    case SubGroupsToggled(checked) => s.(includeSubGroups := checked, currentPage := 1)
    case PageChosen(page) => s.(currentPage := page)
    case PageSizeChosen(size) => s.(pageSize := size)
  }

  /** The list effect's dependencies: group, page, page size and the
      sub-group flag. The keyword and the status filter are not among them. */
  predicate DepsChanged(s: State, t: State) {
    s.selectedGroup != t.selectedGroup || s.currentPage != t.currentPage
    || s.pageSize != t.pageSize || s.includeSubGroups != t.includeSubGroups
  }

  /** The request `fetchUsers` sends from a render of `s`, if any. */
  function Fetched(s: State): (rs: seq<Request>)
    ensures |rs| <= 1 && (|rs| == 1 <==> HasGroup(s))
    ensures |rs| == 1 ==> Some(rs[0]) == FetchRequest(s)
  {
    match FetchRequest(s)
    case None => []
    case Some(r) => [r]
  }

  /** The requests an event causes, in the order they are sent: search calls
      `fetchUsers` from the closure of the render it happened in, so with the
      state before its own updates; then, after the re-render, the effect
      fetches with the new state if one of its dependencies changed. */
  function Sent(s: State, e: Event): (rs: seq<Request>)
    ensures |rs| <= 2
    ensures forall i :: 0 <= i < |rs| ==> Some(rs[i]) == FetchRequest(s) || Some(rs[i]) == FetchRequest(Apply(s, e))
  {
    (if e.SearchPressed? then Fetched(s) else [])
    + (if DepsChanged(s, Apply(s, e)) then Fetched(Apply(s, e)) else [])
  }

  /** Search sends nothing without a group. On page 1 it sends one request.
      On any other page it sends two: first the old page, from the stale
      closure, then page 1 from the effect, identical but for the page, with
      nothing ordering their responses. */
  lemma SearchRequests(s: State)
    ensures !HasGroup(s) ==> Sent(s, SearchPressed) == []
    ensures HasGroup(s) && s.currentPage == 1 ==> Sent(s, SearchPressed) == Fetched(s)
    ensures HasGroup(s) && s.currentPage != 1 ==>
      var rs := Sent(s, SearchPressed);
      |rs| == 2 && rs[0].pageNum == s.currentPage && rs[1].pageNum == 1
      && rs[0] == rs[1].(pageNum := s.currentPage)
  {
  }

  /** A status change on page 1 sends no request, so the list keeps showing
      the old status until something else refetches; on another page the
      effect sends page 1 with the new status. */
  lemma StatusChangeRequests(s: State, status: Option<int>)
    ensures s.currentPage == 1 ==> Sent(s, StatusChosen(status)) == []
    ensures s.currentPage != 1 ==>
      var rs := Sent(s, StatusChosen(status));
      (|rs| == 1 <==> HasGroup(s)) && |rs| <= 1
      && (|rs| == 1 ==> rs[0].pageNum == 1 && rs[0].status == status && rs[0].ugid == s.selectedGroup.value)
  {
  }

  /** The effect's dependencies with the status filter added, so that a
      status change refetches on every page and not only away from page 1. */
  predicate DepsWithStatusChanged(s: State, t: State) {
    DepsChanged(s, t) || s.statusFilter != t.statusFilter
  }

  /** `Sent` with the status filter among the effect's dependencies. */
  function SentWithStatus(s: State, e: Event): (rs: seq<Request>)
    ensures |rs| <= 2
    ensures forall i :: 0 <= i < |rs| ==> Some(rs[i]) == FetchRequest(s) || Some(rs[i]) == FetchRequest(Apply(s, e))
  {
    (if e.SearchPressed? then Fetched(s) else [])
    + (if DepsWithStatusChanged(s, Apply(s, e)) then Fetched(Apply(s, e)) else [])
  }

  /** With the status filter among the dependencies, choosing a different
      status sends exactly one request whenever a group is selected, on
      whatever page: page 1 with the new status. Every other event sends
      what it sends now. */
  lemma StatusDependencyRefetches(s: State, status: Option<int>, e: Event)
    ensures var rs := SentWithStatus(s, StatusChosen(status));
      |rs| <= 1
      && (|rs| == 1 <==> HasGroup(s) && (status != s.statusFilter || s.currentPage != 1))
      && (|rs| == 1 ==> rs[0].pageNum == 1 && rs[0].status == status && rs[0].ugid == s.selectedGroup.value)
    ensures !e.StatusChosen? ==> SentWithStatus(s, e) == Sent(s, e)
  {
  }

  /** Typing sends nothing; the typed keyword goes out with the next search. */
  lemma KeywordWaitsForSearch(s: State, k: string)
    ensures Sent(s, KeywordTyped(k)) == []
    ensures HasGroup(s) ==>
      var rs := Sent(Apply(s, KeywordTyped(k)), SearchPressed);
      |rs| > 0 && forall i :: 0 <= i < |rs| ==> rs[i].userNameKeyword == rs[i].emailKeyword == KeywordParam(k)
  {
  }

  /** Choosing a group or the sub-group flag sends at most one request, and
      sends one exactly when the group is truthy and the choice or the page
      changed; it asks for page 1 with the new choice and the old status. */
  lemma GroupAndSubGroupRequests(s: State, ugid: int, checked: bool)
    ensures var rs := Sent(s, GroupSelected(ugid));
      |rs| <= 1
      && (|rs| == 1 <==> ugid != 0 && (s.selectedGroup != Some(ugid) || s.currentPage != 1))
      && (|rs| == 1 ==> rs[0].pageNum == 1 && rs[0].ugid == ugid && rs[0].status == s.statusFilter)
    ensures var rs := Sent(s, SubGroupsToggled(checked));
      |rs| <= 1
      && (|rs| == 1 <==> HasGroup(s) && (s.includeSubGroups != checked || s.currentPage != 1))
      && (|rs| == 1 ==> rs[0].pageNum == 1 && rs[0].includeSubGroups == checked && rs[0].status == s.statusFilter)
  {
  }

  /** Whatever the event, the last request it causes is the one for the new
      state, so the last response to arrive in order would match the
      controls; search on a later page is the only event with two. */
  lemma LastRequestIsForNewState(s: State, e: Event)
    ensures var rs := Sent(s, e);
      |rs| > 0 ==> Some(rs[|rs| - 1]) == FetchRequest(Apply(s, e))
    ensures |Sent(s, e)| == 2 <==> e.SearchPressed? && HasGroup(s) && s.currentPage != 1
  {
  }

  /** Group id 0 is falsy: choosing it neither fetches nor enables creating. */
  lemma GroupZeroActsUnselected(s: State)
    ensures Sent(s, GroupSelected(0)) == []
    ensures CreateDisabled(Apply(s, GroupSelected(0)))
  {
  }

  /** The create-user button is disabled without a group. */
  predicate CreateDisabled(s: State) {
    !HasGroup(s)
  }

  /** The table's empty text. */
  function EmptyText(s: State): (text: string)
    ensures HasGroup(s) ==> text == "暂无用户数据"
    ensures !HasGroup(s) ==> text == "请先选择左侧用户组"
  {
    if HasGroup(s) then "暂无用户数据" else "请先选择左侧用户组"
  }

  // ---------------------------------------------------------------------
  // rows

  datatype StatusAction = Ban | Unban | Delete

  /** The banned tag shows for `active === 1`. */
  predicate BannedTag(active: int) {
    active == 1
  }

  /** A row offers ban for `active === 0` and unban for anything else. */
  function StatusActionFor(active: int): (a: StatusAction)
    ensures a == Ban <==> active == 0
    ensures a != Delete
  {
    if active == 0 then Ban else Unban
  }

  /** For the two statuses the filter offers (0 normal, 1 banned), the tag
      and the offered action agree; any other value offers unban with no tag. */
  lemma TagAgreesWithAction(active: int)
    ensures active == 0 || active == 1 ==> (BannedTag(active) <==> StatusActionFor(active) == Unban)
    ensures active != 0 && active != 1 ==> StatusActionFor(active) == Unban && !BannedTag(active)
  {
  }

  // ---------------------------------------------------------------------
  // confirmation dialogs

  datatype Variant = Danger | Warning | Info

  datatype Confirm = Confirm(isOpen: bool, title: string, variant: Variant, action: StatusAction, uid: int)

  const ClosedConfirm := Confirm(false, "", Danger, Delete, 0)

  /** Opening the dialog for a row: ban warns, unban informs, delete is
      dangerous. */
  function OpenConfirm(action: StatusAction, uid: int): (c: Confirm)
    ensures c.isOpen && c.action == action && c.uid == uid
    ensures action == Ban ==> c.variant == Warning && c.title == "封禁用户"
    ensures action == Unban ==> c.variant == Info && c.title == "解封用户"
    ensures action == Delete ==> c.variant == Danger && c.title == "删除用户"
  {
    match action
    case Ban => Confirm(true, "封禁用户", Warning, Ban, uid)
    case Unban => Confirm(true, "解封用户", Info, Unban, uid)
    case Delete => Confirm(true, "删除用户", Danger, Delete, uid)
  }

  /** The variant tells the action apart. */
  lemma VariantIdentifiesAction(a: StatusAction, b: StatusAction, u: int, v: int)
    requires OpenConfirm(a, u).variant == OpenConfirm(b, v).variant
    ensures a == b
  {
  }

  datatype AfterConfirm = AfterConfirm(dialog: Confirm, refetch: bool)

  /** Confirming runs the call; the list is refetched only on success, and the
      dialog closes either way with everything else kept. */
  function Confirmed(c: Confirm, succeeded: bool): (r: AfterConfirm)
    ensures !r.dialog.isOpen
    ensures r.dialog == c.(isOpen := false)
    ensures r.refetch <==> succeeded
  {
    AfterConfirm(c.(isOpen := false), succeeded)
  }

  /** Cancelling closes the dialog the same way, without a call. */
  function Cancelled(c: Confirm): (d: Confirm)
    ensures !d.isOpen && d == c.(isOpen := false)
  {
    c.(isOpen := false)
  }

  /** Confirmed or cancelled, a dialog that was opened ends closed. */
  lemma DialogAlwaysCloses(a: StatusAction, uid: int, succeeded: bool)
    ensures !Confirmed(OpenConfirm(a, uid), succeeded).dialog.isOpen
    ensures !Cancelled(OpenConfirm(a, uid)).isOpen
    ensures Confirmed(OpenConfirm(a, uid), succeeded).dialog.variant == OpenConfirm(a, uid).variant
  {
  }
}
