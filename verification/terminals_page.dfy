/** The terminals page (`src/app/terminals/page.tsx`): the list query it sends,
    its filter handlers, the bulk-action and group-delete confirmations, the
    pagination footer and the status badge. */
module TerminalsPage {
  import opened Wrappers
  import opened Selection

  // ---------------------------------------------------------------------
  // list query

  /** The request parameters; absent optional fields are `None`. */
  datatype Query = Query(page: int, size: int, keyword: Option<string>, status: Option<int>,
                         terminalGroupId: Option<string>)

  /** The fetch callback: the API counts pages from 0, the page from 1;
      keyword and group are sent only when non-empty, status whenever set. */
  function BuildQuery(page: int, size: int, keyword: string, status: Option<int>,
                      groupId: Option<string>): (q: Query)
    ensures q.page == page - 1 && q.size == size
    ensures q.keyword.Some? <==> keyword != ""
    ensures q.status == status
    ensures q.terminalGroupId.Some? <==> groupId.Some? && groupId.value != ""
  {
    Query(page - 1, size,
          if keyword != "" then Some(keyword) else None,
          status,
          if groupId.Some? && groupId.value != "" then groupId else None)
  }

  /** The query loses nothing but the difference between an empty and an
      absent group: the page inputs can be read back from it. */
  lemma QueryReadBack(page: int, size: int, keyword: string, status: Option<int>, groupId: Option<string>)
    ensures var q := BuildQuery(page, size, keyword, status, groupId);
      q.page + 1 == page && q.keyword.GetOr("") == keyword && q.status == status
      && q.terminalGroupId.GetOr("") == groupId.GetOr("")
  {
  }

  // ---------------------------------------------------------------------
  // filter state and the handlers that reset the page

  datatype Filters = Filters(searchTerm: string, filterStatus: Option<int>, currentPage: int,
                             selectedGroupId: Option<string>)

  function InitialFilters(): (f: Filters)
    ensures f.currentPage == 1 && f.searchTerm == "" && f.filterStatus.None? && f.selectedGroupId.None?
  {
    Filters("", None, 1, None)
  }

  /** `handleGroupSelect`. */
  function SelectGroup(f: Filters, groupId: string): Filters {
    Filters(f.searchTerm, f.filterStatus, 1, Some(groupId))
  }

  /** The search box's `onChange`. */
  function Search(f: Filters, term: string): Filters {
    Filters(term, f.filterStatus, 1, f.selectedGroupId)
  }

  /** The four status buttons (all, online 1, offline 0, alarm 2). */
  function FilterByStatus(f: Filters, status: Option<int>): Filters {
    Filters(f.searchTerm, status, 1, f.selectedGroupId)
  }

  /** The query the page sends for a filter state. */
  function QueryFor(f: Filters, pageSize: int): (q: Query)
    ensures q.page == f.currentPage - 1
  {
    BuildQuery(f.currentPage, pageSize, f.searchTerm, f.filterStatus, f.selectedGroupId)
  }

  /** The requests a change from `f` to `g` causes: every filter is a
      dependency of the list effect, so a change re-renders and the effect
      queries with the new filters; a handler that changes nothing causes no
      render and no request. */
  function Requests(f: Filters, g: Filters, pageSize: int): (qs: seq<Query>)
    ensures |qs| <= 1 && (|qs| == 1 <==> f != g)
    ensures |qs| == 1 ==> qs[0] == QueryFor(g, pageSize)
  {
    if f != g then [QueryFor(g, pageSize)] else []
  }

  /** Every change of search, status or group sends exactly one query when it
      changes something: for the API's first page, carrying the new value and
      the other two filters as they were. */
  lemma FilterChangesFetchFirstPage(f: Filters, pageSize: int, term: string, status: Option<int>, groupId: string)
    ensures var qs := Requests(f, Search(f, term), pageSize);
      (|qs| == 1 <==> f.searchTerm != term || f.currentPage != 1)
      && (|qs| == 1 ==> qs[0].page == 0 && qs[0].keyword.GetOr("") == term && qs[0].status == f.filterStatus
                        && qs[0].terminalGroupId.GetOr("") == f.selectedGroupId.GetOr(""))
    ensures var qs := Requests(f, FilterByStatus(f, status), pageSize);
      (|qs| == 1 <==> f.filterStatus != status || f.currentPage != 1)
      && (|qs| == 1 ==> qs[0].page == 0 && qs[0].status == status && qs[0].keyword.GetOr("") == f.searchTerm
                        && qs[0].terminalGroupId.GetOr("") == f.selectedGroupId.GetOr(""))
    ensures var qs := Requests(f, SelectGroup(f, groupId), pageSize);
      (|qs| == 1 <==> f.selectedGroupId != Some(groupId) || f.currentPage != 1)
      && (|qs| == 1 ==> qs[0].page == 0 && qs[0].terminalGroupId.GetOr("") == groupId
                        && qs[0].keyword.GetOr("") == f.searchTerm && qs[0].status == f.filterStatus)
  {
  }

  // ---------------------------------------------------------------------
  // bulk action confirmation

  datatype BulkAction = Enable | Disable | Delete

  datatype BulkConfirm = BulkConfirm(action: Option<BulkAction>, open: bool)

  /** Outcome of `handleConfirmBulkAction`: the new dialog state, the new
      selection, and whether the batch request was sent. */
  datatype BulkResult = BulkResult(confirm: BulkConfirm, selected: seq<string>, requested: bool)

  /** `succeeded` says whether the batch request resolved. */
  function ConfirmBulk(c: BulkConfirm, selected: seq<string>, succeeded: bool): (r: BulkResult)
    ensures r.requested <==> c.action.Some? && |selected| > 0
    ensures !r.requested ==> r == BulkResult(c, selected, false)
    ensures r.requested && succeeded ==> r.confirm == BulkConfirm(None, false) && r.selected == []
    ensures r.requested && !succeeded ==> r.confirm == c && r.selected == selected
  {
    if c.action.None? || |selected| == 0 then BulkResult(c, selected, false)
    else if succeeded then BulkResult(BulkConfirm(None, false), [], true)
    else BulkResult(c, selected, true)
  }

  /** `handleBulkAction`: choosing an action opens the dialog for it. */
  function ChooseBulk(action: BulkAction): (c: BulkConfirm)
    ensures c.open && c.action == Some(action)
  {
    BulkConfirm(Some(action), true)
  }

  /** Choosing an action and confirming it with a non-empty selection sends
      exactly one request and, on success, leaves nothing selected. */
  lemma ChooseThenConfirm(action: BulkAction, selected: seq<string>)
    requires |selected| > 0
    ensures ConfirmBulk(ChooseBulk(action), selected, true) == BulkResult(BulkConfirm(None, false), [], true)
  {
  }

  // ---------------------------------------------------------------------
  // deleting a group

  datatype GroupDeletion = GroupDeletion(groupToDelete: Option<string>, confirmOpen: bool,
                                         selectedGroupId: Option<string>, treeRefresh: nat)

  /** `confirmDeleteGroup`; `succeeded` says whether the delete request resolved. */
  function ConfirmDeleteGroup(d: GroupDeletion, succeeded: bool): (r: GroupDeletion)
    ensures d.groupToDelete.None? || !succeeded ==> r == d
    ensures d.groupToDelete.Some? && succeeded ==>
      !r.confirmOpen && r.groupToDelete.None? && r.treeRefresh == d.treeRefresh + 1
      && (r.selectedGroupId.None? <==> d.selectedGroupId.None? || d.selectedGroupId == d.groupToDelete)
      && (d.selectedGroupId != d.groupToDelete ==> r.selectedGroupId == d.selectedGroupId)
  {
    if d.groupToDelete.None? || !succeeded then d
    else
      GroupDeletion(None, false,
                    if d.selectedGroupId == d.groupToDelete then None else d.selectedGroupId,
                    d.treeRefresh + 1)
  }

  // ---------------------------------------------------------------------
  // pagination footer

  /** The page as the API returns it (`number` counts from 0). */
  datatype PageInfo = PageInfo(number: nat, size: nat, totalElements: nat, totalPages: nat, rows: nat)

  /** "显示 a 到 b 条": the first and last row numbers shown. */
  function RangeStart(p: PageInfo): (a: nat)
    ensures p.rows == 0 <==> a == 0
  {
    if p.rows > 0 then p.number * p.size + 1 else 0
  }

  function RangeEnd(p: PageInfo): (b: nat)
    ensures b <= p.totalElements && b <= (p.number + 1) * p.size
    ensures b == p.totalElements || b == (p.number + 1) * p.size
  {
    if (p.number + 1) * p.size <= p.totalElements then (p.number + 1) * p.size else p.totalElements
  }

  /** A page as a paging API fills it: `rows` rows starting at `number * size`. */
  predicate Consistent(p: PageInfo) {
    p.size > 0 && p.number * p.size < p.totalElements
    && p.rows == (if p.totalElements - p.number * p.size < p.size then p.totalElements - p.number * p.size else p.size)
  }

  /** On a consistent page the label names exactly the rows shown. */
  lemma RangeCountsRows(p: PageInfo)
    requires Consistent(p)
    ensures RangeStart(p) >= 1 && RangeEnd(p) - RangeStart(p) + 1 == p.rows
  {
    assert (p.number + 1) * p.size == p.number * p.size + p.size;
  }

  predicate PrevDisabled(p: PageInfo) { p.number == 0 }

  predicate NextDisabled(p: PageInfo) { p.number as int >= p.totalPages as int - 1 }

  /** "上一页": one page back, never below page 1. */
  function PrevPage(current: int): (r: int)
    ensures r >= 1 && (current > 1 ==> r == current - 1) && (current <= 1 ==> r == 1)
  {
    if current - 1 > 1 then current - 1 else 1
  }

  /** "下一页". */
  function NextPage(current: int): (r: int)
    ensures r == current + 1
  {
    current + 1
  }

  /** When the page state matches the API page (`current == number + 1`),
      enabled buttons stay within pages 1 to `totalPages`. */
  lemma NavigationStaysInRange(p: PageInfo, current: int)
    requires current == p.number + 1 && current <= p.totalPages
    ensures !PrevDisabled(p) ==> 1 <= PrevPage(current) == current - 1
    ensures !NextDisabled(p) ==> NextPage(current) <= p.totalPages
    ensures PrevDisabled(p) <==> current == 1
    ensures NextDisabled(p) <==> current == p.totalPages
  {
  }

  /** The first page button: two before the current page if possible, pulled
      back so that five buttons fit before `totalPages`. */
  function WindowStart(current: int, totalPages: int): int {
    var start := if current - 2 > 1 then current - 2 else 1;
    var end := if start + 4 < totalPages then start + 4 else totalPages;
    if end - start < 4 then (if end - 4 > 1 then end - 4 else 1) else start
  }

  /** The page buttons: `start + i` for `i < min(5, totalPages)`, dropping
      any beyond `totalPages`. */
  function PageWindow(current: int, totalPages: int): (r: seq<int>)
  {
    var start := WindowStart(current, totalPages);
    var n := if totalPages < 5 then totalPages else 5;
    WindowFrom(start, if n > 0 then n else 0, totalPages)
  }

  /** `start, start + 1, ...` for `count` steps, keeping those `<= last`. */
  function WindowFrom(start: int, count: nat, last: int): (r: seq<int>)
    ensures forall k :: 0 <= k < |r| ==> r[k] <= last
    ensures start + count - 1 <= last ==> r == seq(count, i => start + i)
    decreases count
  {
    if count == 0 then []
    else
      var rest := WindowFrom(start + 1, count - 1, last);
      if start <= last then
        assert start + count - 1 <= last ==> rest == seq(count - 1, i => start + 1 + i);
        [start] + rest
      else rest
  }

  /** For a current page between 1 and `totalPages`, the buttons are
      consecutive pages within range, there are `min(5, totalPages)` of them,
      and the current page is among them. */
  lemma PageWindowSound(current: int, totalPages: int)
    requires 1 <= current <= totalPages
    ensures var w := PageWindow(current, totalPages);
      |w| == (if totalPages < 5 then totalPages else 5)
      && (forall k :: 0 <= k < |w| ==> 1 <= w[k] <= totalPages)
      && (forall k :: 0 < k < |w| ==> w[k] == w[k - 1] + 1)
      && current in w
  {
    var start := WindowStart(current, totalPages);
    var n := if totalPages < 5 then totalPages else 5;
    assert 1 <= start <= current < start + n;
    assert start + n - 1 <= totalPages;
    var w := PageWindow(current, totalPages);
    assert w == seq(n, i => start + i);
    assert w[current - start] == current;
  }

  // ---------------------------------------------------------------------
  // status badge

  /** `getStatusBadge`: the text of the badge for a numeric status. */
  function StatusLabel(status: int): (text: string)
    ensures status == 1 <==> text == "在线"
    ensures status == 0 <==> text == "离线"
    ensures status == 2 <==> text == "告警"
    ensures status == -1 <==> text == "禁用"
    ensures status !in {1, 0, 2, -1} <==> text == "未知"
  {
    if status == 1 then "在线"
    else if status == 0 then "离线"
    else if status == 2 then "告警"
    else if status == -1 then "禁用"
    else "未知"
  }
}
