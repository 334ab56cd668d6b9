/** The console layout's own breadcrumb over its navigation table, and the
    two header pop-up menus (`src/components/DashboardLayout.tsx`). */
module DashboardLayout {
  import opened Wrappers
  import opened Text
  import opened Breadcrumb

  datatype NavItem = NavItem(path: string, title: string)

  /** The navigation groups, flattened in display order (`navItems.flatMap`). */
  const NAV_ITEMS: seq<NavItem> := [
    NavItem("/dashboard", "仪表盘"),
    NavItem("/terminals", "终端管理"),
    NavItem("/terminals/map", "终端地图"),
    NavItem("/contents", "内容库"),
    NavItem("/contents/playlists", "播放列表"),
    NavItem("/contents/schedule", "发布计划"),
    NavItem("/users", "用户管理"),
    NavItem("/users/roles", "角色管理"),
    NavItem("/permissions", "权限配置"),
    NavItem("/messages", "消息中心"),
    NavItem("/analytics", "数据分析"),
    NavItem("/settings", "系统设置")
  ]

  const CurrentPageLabel: string := "当前页面"

  /** `flatNavItems.find(item => item.path === path)`. */
  function FindNav(items: seq<NavItem>, path: string): (r: Option<NavItem>)
    ensures r.Some? ==> r.value in items && r.value.path == path
    ensures r.None? <==> forall i :: 0 <= i < |items| ==> items[i].path != path
  {
    if |items| == 0 then None
    else if items[0].path == path then Some(items[0])
    else FindNav(items[1..], path)
  }

  /** `` `/${pathSegments[0]}` ``: with no segment at all, JavaScript renders the
      missing element as `undefined`. */
  function ParentPath(pathname: string): (p: string)
    ensures |Segments(pathname)| > 0 ==> p == "/" + Segments(pathname)[0]
    ensures |Segments(pathname)| == 0 ==> p == "/undefined"
  {
    var segs := Segments(pathname);
    "/" + (if |segs| > 0 then segs[0] else "undefined")
  }

  /** The label of the second crumb under a known parent. */
  function ChildLabel(pathname: string): (title: string)
    ensures |Segments(pathname)| > 1 ==> title == Capitalize(Segments(pathname)[1])
    ensures |Segments(pathname)| <= 1 ==> title == DetailLabel
  {
    var segs := Segments(pathname);
    if |segs| > 1 then Capitalize(segs[1]) else DetailLabel
  }

  /** `getBreadcrumb()`: empty on the dashboard; the nav item itself on an
      exact match; parent item plus the current page under a known first
      segment; otherwise a single generic crumb. */
  function GetBreadcrumb(pathname: string): (r: seq<Crumb>)
    ensures |r| <= 2
    ensures pathname == "/dashboard" <==> r == []
    ensures pathname != "/dashboard" && FindNav(NAV_ITEMS, pathname).Some? ==>
      r == [Crumb(pathname, Plain(FindNav(NAV_ITEMS, pathname).value.title))]
    ensures |r| == 2 <==> pathname != "/dashboard" && FindNav(NAV_ITEMS, pathname).None?
                          && FindNav(NAV_ITEMS, ParentPath(pathname)).Some?
    ensures |r| > 0 ==> r[|r| - 1].path == pathname
  {
    if pathname == "/dashboard" then []
    else match FindNav(NAV_ITEMS, pathname)
      case Some(item) => [Crumb(item.path, Plain(item.title))]
      case None =>
        match FindNav(NAV_ITEMS, ParentPath(pathname))
        case Some(parent) => [Crumb(parent.path, Plain(parent.title)), Crumb(pathname, Plain(ChildLabel(pathname)))]
        case None => [Crumb(pathname, Plain(CurrentPageLabel))]
  }

  /** Navigation paths are distinct, so an exact match names one item. */
  lemma NavPathsDistinct()
    ensures forall i, j :: 0 <= i < j < |NAV_ITEMS| ==> NAV_ITEMS[i].path != NAV_ITEMS[j].path
  {
  }

  /** Every navigation page other than the dashboard shows itself as its only crumb. */
  lemma NavPageCrumb(i: nat)
    requires 0 < i < |NAV_ITEMS|
    ensures GetBreadcrumb(NAV_ITEMS[i].path) == [Crumb(NAV_ITEMS[i].path, Plain(NAV_ITEMS[i].title))]
  {
    NavPathsDistinct();
    FirstNavMatch(NAV_ITEMS, i);
  }

  /** With distinct paths, looking up an item's path finds that item. */
  lemma {:induction false} FirstNavMatch(items: seq<NavItem>, i: nat)
    requires i < |items|
    requires forall a, b :: 0 <= a < b < |items| ==> items[a].path != items[b].path
    ensures FindNav(items, items[i].path) == Some(items[i])
    decreases i
  {
    if i > 0 {
      assert items[0].path != items[i].path;
      FirstNavMatch(items[1..], i - 1);
    }
  }

  /** No navigation item is at `/undefined`, so a pathname without segments
      never gets a parent crumb. */
  lemma NoUndefinedNavItem()
    ensures FindNav(NAV_ITEMS, "/undefined").None?
  {
  }

  /** When the layout shows two crumbs, its parent crumb links where the
      generic breadcrumb's first crumb links. */
  lemma ParentAgreesWithGenerated(pathname: string)
    requires |GetBreadcrumb(pathname)| == 2
    ensures |Generate(pathname)| > 0
    ensures GetBreadcrumb(pathname)[0].path == Generate(pathname)[0].path
  {
    NoUndefinedNavItem();
    var segs := Segments(pathname);
    assert |segs| > 0;
    assert Generate(pathname) == CrumbsOf(segs);
    CrumbPathsChain(segs);
  }

  /** The two header menus. */
  datatype Menus = Menus(notificationsOpen: bool, userMenuOpen: bool)

  predicate AtMostOneOpen(m: Menus) {
    !(m.notificationsOpen && m.userMenuOpen)
  }

  /** `toggleNotifications`: flip the notification panel, close the user menu. */
  function ToggleNotifications(m: Menus): (r: Menus)
    ensures r.notificationsOpen == !m.notificationsOpen && !r.userMenuOpen
  {
    Menus(!m.notificationsOpen, false)
  }

  /** `toggleUserMenu`: flip the user menu, close the notification panel. */
  function ToggleUserMenu(m: Menus): (r: Menus)
    ensures r.userMenuOpen == !m.userMenuOpen && !r.notificationsOpen
  {
    Menus(false, !m.userMenuOpen)
  }

  /** A click anywhere else in the window. */
  function CloseMenus(m: Menus): (r: Menus)
    ensures !r.notificationsOpen && !r.userMenuOpen
  {
    Menus(false, false)
  }

  /** Every handler leaves at most one menu open, from any state; toggling the
      same menu twice restores it and leaves the other one closed. */
  lemma MenuInvariant(m: Menus)
    ensures AtMostOneOpen(ToggleNotifications(m)) && AtMostOneOpen(ToggleUserMenu(m))
    ensures AtMostOneOpen(CloseMenus(m))
    ensures ToggleNotifications(ToggleNotifications(m)) == Menus(m.notificationsOpen, false)
    ensures ToggleUserMenu(ToggleUserMenu(m)) == Menus(false, m.userMenuOpen)
    ensures ToggleUserMenu(ToggleNotifications(m)) == Menus(false, true)
  {
  }
}
