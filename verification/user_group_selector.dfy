/** The user-group picker on the users page
    (`src/app/users/components/UserGroupSelector.tsx`): every group of the
    tree is listed in preorder, indented by a level read off its path, and
    the group whose id matches the selection is highlighted. */
module UserGroupSelector {
  import opened Wrappers
  import opened Text
  import Breadcrumb

  /** `UserGroupTreeNode`; `parent` and `pathMap` are not read by the picker. */
  datatype UserGroupNode = UserGroupNode(ugid: int, ugName: string, path: string, children: seq<UserGroupNode>)

  /** `getNodeLevel`: 0 for an empty path, else one less than the number of
      non-empty `'/'` segments (so `"/"` gives -1). */
  function NodeLevel(path: string): (level: int)
    ensures path == "" ==> level == 0
    ensures path != "" ==> level == |Segments(path)| - 1
    ensures path != "" ==> -1 <= level < |path|
  {
    SegmentsCount(path);
    if path == "" then 0 else |Segments(path)| - 1
  }

  /** The path `/s1/.../sn` of the segments `s1 … sn`. */
  function PathOf(segs: seq<string>): (p: string)
    ensures |p| > 0 && p[0] == '/'
  {
    "/" + Join(segs, "/")
  }

  predicate ProperSegments(segs: seq<string>) {
    forall i :: 0 <= i < |segs| ==> segs[i] != "" && '/' !in segs[i]
  }

  /** A path written as `/s1/.../sn` has level n - 1, one less than its depth. */
  lemma LevelOfNormalPath(segs: seq<string>)
    requires |segs| > 0 && ProperSegments(segs)
    ensures NodeLevel(PathOf(segs)) == |segs| - 1
  {
    Breadcrumb.NormalPathRoundTrip(segs);
  }

  /** Appending a segment to a normal path goes one level deeper. */
  lemma ChildIsOneDeeper(segs: seq<string>, seg: string)
    requires |segs| > 0 && ProperSegments(segs)
    requires seg != "" && '/' !in seg
    ensures PathOf(segs + [seg]) == PathOf(segs) + "/" + seg
    ensures NodeLevel(PathOf(segs + [seg])) == NodeLevel(PathOf(segs)) + 1
  {
    var longer := segs + [seg];
    JoinSnoc(segs, seg, "/");
    assert ProperSegments(longer) by {
      forall i | 0 <= i < |longer| ensures longer[i] != "" && '/' !in longer[i] {
        if i < |segs| { assert longer[i] == segs[i]; }
      }
    }
    LevelOfNormalPath(segs);
    LevelOfNormalPath(longer);
  }

  /** The bare root path `"/"` has no segments and therefore level -1. */
  lemma SlashIsLevelMinusOne()
    ensures NodeLevel("/") == -1
  {
    assert "/" == "" + "/" + "";
    assert Join(["", ""], "/") == "/";
    SplitJoin(["", ""], '/');
    assert Split("/", '/') == ["", ""];
  }

  /** Highlight rule: the selected id is the decimal text of the group id. */
  predicate IsSelected(selectedId: Option<string>, ugid: int) {
    selectedId.Some? && selectedId.value == IntToString(ugid)
  }

  /** At most one group id matches a given selection. */
  lemma SelectionPicksOneId(selectedId: Option<string>, a: int, b: int)
    requires IsSelected(selectedId, a) && IsSelected(selectedId, b)
    ensures a == b
  {
    IntToStringInjective(a, b);
  }

  /** One rendered line: the id a click reports, its left padding in pixels
      and whether it is highlighted. */
  datatype PickerRow = PickerRow(ugid: int, indent: int, selected: bool)

  function RowFor(n: UserGroupNode, selectedId: Option<string>): (r: PickerRow)
    ensures r.ugid == n.ugid
    ensures r.indent == NodeLevel(n.path) * 16 + 8
    ensures r.selected <==> IsSelected(selectedId, n.ugid)
  {
    PickerRow(n.ugid, NodeLevel(n.path) * 16 + 8, IsSelected(selectedId, n.ugid))
  }

  /** `renderTreeNode`: the node, then all of its children's subtrees, with
      nothing collapsed. */
  function Rows(n: UserGroupNode, selectedId: Option<string>): seq<PickerRow> {
    [RowFor(n, selectedId)] + ForestRows(n.children, selectedId)
  }

  function ForestRows(ns: seq<UserGroupNode>, selectedId: Option<string>): seq<PickerRow> {
    if ns == [] then [] else Rows(ns[0], selectedId) + ForestRows(ns[1..], selectedId)
  }

  /** The group ids of a tree in preorder. */
  function Ugids(n: UserGroupNode): seq<int> {
    [n.ugid] + ForestUgids(n.children)
  }

  function ForestUgids(ns: seq<UserGroupNode>): seq<int> {
    if ns == [] then [] else Ugids(ns[0]) + ForestUgids(ns[1..])
  }

  /** The rows are the whole tree in preorder: one row per group, reporting
      that group's id. */
  lemma {:induction false} RowsArePreorder(ns: seq<UserGroupNode>, selectedId: Option<string>)
    ensures var rows := ForestRows(ns, selectedId);
      |rows| == |ForestUgids(ns)| && forall k :: 0 <= k < |rows| ==> rows[k].ugid == ForestUgids(ns)[k]
    ensures var rows := ForestRows(ns, selectedId);
      forall k :: 0 <= k < |rows| ==> (rows[k].selected <==> IsSelected(selectedId, rows[k].ugid))
    decreases ns
  {
    if ns != [] {
      RowsArePreorder(ns[0].children, selectedId);
      RowsArePreorder(ns[1..], selectedId);
    }
  }

  predicate DistinctInts(xs: seq<int>) {
    forall i, j :: 0 <= i < j < |xs| ==> xs[i] != xs[j]
  }

  /** With distinct group ids, at most one row is highlighted. */
  lemma OneHighlightedRow(root: UserGroupNode, selectedId: Option<string>)
    requires DistinctInts(Ugids(root))
    ensures var rows := Rows(root, selectedId);
      forall i, j :: 0 <= i < |rows| && 0 <= j < |rows| && rows[i].selected && rows[j].selected ==> i == j
  {
    var rows := Rows(root, selectedId);
    var ids := Ugids(root);
    RowsArePreorder(root.children, selectedId);
    var below := ForestRows(root.children, selectedId);
    assert rows == [RowFor(root, selectedId)] + below;
    assert ids == [root.ugid] + ForestUgids(root.children);
    assert forall k :: 0 < k < |rows| ==> rows[k] == below[k - 1];
    assert forall k :: 0 <= k < |rows| ==> rows[k].ugid == ids[k] && (rows[k].selected <==> IsSelected(selectedId, rows[k].ugid));
    forall i, j | 0 <= i < |rows| && 0 <= j < |rows| && rows[i].selected && rows[j].selected
      ensures i == j
    {
      SelectionPicksOneId(selectedId, rows[i].ugid, rows[j].ugid);
      assert ids[i] == ids[j];
    }
  }

  /** Paths that follow the tree: each group's path is `/` plus its own
      segments, which extend its parent's by exactly one. */
  predicate PathsFollowTree(n: UserGroupNode, parentSegs: seq<string>) {
    var segs := Segments(n.path);
    n.path == PathOf(segs)
    && |segs| == |parentSegs| + 1 && segs[..|parentSegs|] == parentSegs
    && forall k :: 0 <= k < |n.children| ==> PathsFollowTree(n.children[k], segs)
  }

  /** Depth of each group in preorder, counting the given starting depth. */
  function Depths(n: UserGroupNode, d: nat): seq<int> {
    [d] + ForestDepths(n.children, d + 1)
  }

  function ForestDepths(ns: seq<UserGroupNode>, d: nat): seq<int> {
    if ns == [] then [] else Depths(ns[0], d) + ForestDepths(ns[1..], d)
  }

  /** Row k is indented by `ds[k] * 16 + 8` pixels. */
  predicate IndentsAre(rows: seq<PickerRow>, ds: seq<int>) {
    |rows| == |ds| && forall k :: 0 <= k < |rows| ==> rows[k].indent == ds[k] * 16 + 8
  }

  lemma IndentsAppend(r1: seq<PickerRow>, d1: seq<int>, r2: seq<PickerRow>, d2: seq<int>)
    requires IndentsAre(r1, d1) && IndentsAre(r2, d2)
    ensures IndentsAre(r1 + r2, d1 + d2)
  {
    var r, d := r1 + r2, d1 + d2;
    forall k | 0 <= k < |r| ensures r[k].indent == d[k] * 16 + 8 {
      if k < |r1| {
        assert r[k] == r1[k] && d[k] == d1[k];
      } else {
        assert r[k] == r2[k - |r1|] && d[k] == d2[k - |r1|];
      }
    }
  }

  /** When paths follow the tree, the indentation read from a path is the
      indentation by depth. */
  lemma {:induction false} IndentFollowsDepth(ns: seq<UserGroupNode>, parentSegs: seq<string>, selectedId: Option<string>)
    requires forall k :: 0 <= k < |ns| ==> PathsFollowTree(ns[k], parentSegs)
    ensures IndentsAre(ForestRows(ns, selectedId), ForestDepths(ns, |parentSegs|))
    decreases ns
  {
    if ns != [] {
      var n := ns[0];
      assert PathsFollowTree(n, parentSegs);
      var segs := Segments(n.path);
      assert NodeLevel(n.path) == |parentSegs|;
      IndentFollowsDepth(n.children, segs, selectedId);
      IndentFollowsDepth(ns[1..], parentSegs, selectedId);
      var head := [RowFor(n, selectedId)];
      assert IndentsAre(head, [|parentSegs|]);
      IndentsAppend(head, [|parentSegs|], ForestRows(n.children, selectedId), ForestDepths(n.children, |parentSegs| + 1));
      IndentsAppend(Rows(n, selectedId), Depths(n, |parentSegs|), ForestRows(ns[1..], selectedId), ForestDepths(ns[1..], |parentSegs|));
    }
  }

  /** What the picker shows: loading before error before the tree, and a
      note when the tree is missing. */
  datatype Screen = Spinner | Failed(message: string) | Tree(rows: seq<PickerRow>) | NoGroups

  const LoadError := "获取用户组树失败，请刷新页面重试"

  /** `fetched` is the outcome of loading the tree: `Err` when the call
      failed, else the (possibly missing) root. */
  function Render(loading: bool, fetched: Result<Option<UserGroupNode>>, selectedId: Option<string>): (s: Screen)
    ensures loading <==> s.Spinner?
    ensures s.Failed? <==> !loading && fetched.Err?
    ensures s.Failed? ==> s.message == LoadError
    ensures s.Tree? <==> !loading && fetched.Ok? && fetched.value.Some?
    ensures s.Tree? ==> s.rows == Rows(fetched.value.value, selectedId)
  {
    if loading then Spinner
    else match fetched
      case Err(_) => Failed(LoadError)
      case Ok(None) => NoGroups
      case Ok(Some(root)) => Tree(Rows(root, selectedId))
  }

  /** A loaded tree is shown whole: one row per group in preorder, each
      reporting its group's id; with distinct ids at most one row is
      highlighted. A failed load shows the same message whatever failed. */
  lemma LoadedTreeShowsEveryGroup(root: UserGroupNode, selectedId: Option<string>, e: string)
    ensures var s := Render(false, Ok(Some(root)), selectedId);
      s.Tree? && |s.rows| == |Ugids(root)| && forall k :: 0 <= k < |s.rows| ==> s.rows[k].ugid == Ugids(root)[k]
    ensures DistinctInts(Ugids(root)) ==>
      var rows := Render(false, Ok(Some(root)), selectedId).rows;
      forall i, j :: 0 <= i < |rows| && 0 <= j < |rows| && rows[i].selected && rows[j].selected ==> i == j
    ensures Render(false, Err(e), selectedId) == Failed(LoadError)
  {
    var rows := Rows(root, selectedId);
    RowsMatchUgids(root, selectedId);
    assert Render(false, Ok(Some(root)), selectedId) == Tree(rows);
    if DistinctInts(Ugids(root)) {
      OneHighlightedRow(root, selectedId);
    }
  }

  /** The rows of one tree report its ids in preorder. */
  lemma RowsMatchUgids(root: UserGroupNode, selectedId: Option<string>)
    ensures var rows := Rows(root, selectedId);
      |rows| == |Ugids(root)| && forall k :: 0 <= k < |rows| ==> rows[k].ugid == Ugids(root)[k]
  {
    RowsArePreorder(root.children, selectedId);
    var rows := Rows(root, selectedId);
    var below := ForestRows(root.children, selectedId);
    var ids := Ugids(root);
    var belowIds := ForestUgids(root.children);
    assert rows == [RowFor(root, selectedId)] + below;
    assert ids == [root.ugid] + belowIds;
    forall k | 0 <= k < |rows| ensures rows[k].ugid == ids[k] {
      if k > 0 {
        assert rows[k] == below[k - 1] && ids[k] == belowIds[k - 1];
      }
    }
  }
}
