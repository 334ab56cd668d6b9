/** The two group trees built on `TreeView`
    (`src/components/tree/TerminalGroupTree.tsx` and
    `src/components/tree/UserGroupTree.tsx`). Both convert the backend's
    group forest into tree nodes the same way, keep the expanded ids as a
    list, and choose between a spinner, an error and the tree. The group
    record is generic in the fields the trees do not read. */
module GroupTree {
  import opened Wrappers
  import opened TreeView
  import Selection

  /** `children?: Group[]`. */
  datatype Subgroups<I> = NoSubgroups | Subgroups(groups: seq<Group<I>>)

  datatype Group<I> = Group(id: string, name: string, info: I, children: Subgroups<I>)

  /** The terminal-group fields besides id, name and children. */
  datatype TerminalGroupInfo = TerminalGroupInfo(description: Option<string>, parentId: Option<string>,
                                                 organizationId: string, level: int, path: string)

  type TerminalGroup = Group<TerminalGroupInfo>

  /** `convertToTreeNodes`, one group at a time: same id and name, the group
      itself as data, absent children stay absent. */
  function ConvertGroup<I>(g: Group<I>): (n: Node<Group<I>>)
    ensures n.id == g.id && n.name == g.name && n.data == g
    ensures n.kids.Undefined? <==> g.children.NoSubgroups?
  {
    Node(g.id, g.name,
         match g.children case NoSubgroups => Undefined case Subgroups(cs) => Defined(Convert(cs)),
         g)
  }

  function Convert<I>(groups: seq<Group<I>>): (r: seq<Node<Group<I>>>)
    ensures |r| == |groups|
    ensures forall i :: 0 <= i < |r| ==> r[i] == ConvertGroup(groups[i])
  {
    if groups == [] then [] else [ConvertGroup(groups[0])] + Convert(groups[1..])
  }

  /** Number of groups in a forest. */
  function GroupCount<I>(g: Group<I>): nat {
    1 + (match g.children case Subgroups(cs) => ForestGroupCount(cs) case NoSubgroups => 0)
  }

  function ForestGroupCount<I>(groups: seq<Group<I>>): nat {
    if groups == [] then 0 else GroupCount(groups[0]) + ForestGroupCount(groups[1..])
  }

  /** The group forest's ids in preorder. */
  function GroupIds<I>(g: Group<I>): seq<string> {
    [g.id] + (match g.children case Subgroups(cs) => ForestGroupIds(cs) case NoSubgroups => [])
  }

  function ForestGroupIds<I>(groups: seq<Group<I>>): seq<string> {
    if groups == [] then [] else GroupIds(groups[0]) + ForestGroupIds(groups[1..])
  }

  /** Conversion keeps the shape: the tree has exactly as many nodes as there
      are groups, and flattening it lists the group ids in preorder. */
  lemma {:induction false} ConvertPreservesShape<I>(groups: seq<Group<I>>)
    ensures ForestSize(Convert(groups)) == ForestGroupCount(groups)
    ensures FlattenIds(Convert(groups)) == ForestGroupIds(groups)
    decreases groups
  {
    if groups != [] {
      var g := groups[0];
      var r := Convert(groups);
      assert r[1..] == Convert(groups[1..]);
      ConvertPreservesShape(groups[1..]);
      match g.children
      case NoSubgroups =>
      case Subgroups(cs) =>
        ConvertPreservesShape(cs);
        if cs == [] {
          assert Convert(cs) == [];
        }
    }
  }

  /** Every node of the converted forest carries, as data, the group with its
      own id and name, so selecting any node reports that node's group. */
  predicate Carries<I>(n: Node<Group<I>>) {
    n.id == n.data.id && n.name == n.data.name
    && match n.kids case Undefined => true case Defined(cs) => AllCarry(cs)
  }

  predicate AllCarry<I>(nodes: seq<Node<Group<I>>>) {
    nodes == [] || (Carries(nodes[0]) && AllCarry(nodes[1..]))
  }

  lemma {:induction false} ConvertCarriesGroups<I>(groups: seq<Group<I>>)
    ensures AllCarry(Convert(groups))
    decreases groups
  {
    if groups != [] {
      var r := Convert(groups);
      assert r[1..] == Convert(groups[1..]);
      ConvertCarriesGroups(groups[1..]);
      match groups[0].children
      case NoSubgroups =>
      case Subgroups(cs) => ConvertCarriesGroups(cs);
    }
  }

  /** `handleSelect`: the parent's `onSelect` receives the node's data. */
  function SelectedGroup<I>(n: Node<Group<I>>): (g: Group<I>)
    ensures Carries(n) ==> g.id == n.id && g.name == n.name
  {
    n.data
  }

  /** `handleExpandToggle(id, expanded)`: append when expanding (repeats
      allowed), drop every copy when collapsing. */
  function ExpandToggle(ids: seq<string>, id: string, expanded: bool): (r: seq<string>)
    ensures expanded ==> r == ids + [id]
    ensures !expanded ==> id !in r && |r| <= |ids|
    ensures forall x :: x != id ==> (x in r <==> x in ids)
  {
    if expanded then ids + [id] else Selection.RemoveAll(ids, id)
  }

  /** The round trip through `TreeView`: the tree reports `!wasExpanded` and
      the list update flips exactly that id in the set the tree reads. */
  lemma ReportedToggleFlips(ids: seq<string>, internal: set<string>, id: string)
    ensures var e := HandleToggle(internal, Some(ids), true, id);
      e.report.Some? && e.report.value.0 == id
      && var next := ExpandToggle(ids, id, e.report.value.1);
      (id in IdSet(next) <==> id !in IdSet(ids))
      && forall x :: x != id ==> (x in IdSet(next) <==> x in IdSet(ids))
  {
  }

  /** What a group tree renders. */
  datatype Screen<I> =
    | Spinner
    | Failed(message: string, retryButton: bool)
    | Panel(addRootButton: bool, body: PanelBody<I>)

  datatype PanelBody<I> = EmptyNote(text: string) | Tree(nodes: seq<Node<Group<I>>>, nodeActions: bool)

  /** Which of the two trees; they differ in the retry button and the empty note. */
  datatype Flavour = TerminalGroups | UserGroups

  function EmptyText(f: Flavour): string {
    match f
    case TerminalGroups => "暂无终端组，请添加"
    case UserGroups => "暂无用户组，请添加"
  }

  /** The render decision: loading before error before the tree; action
      buttons (root and per node) only with `showActions`. */
  function Render<I>(f: Flavour, loading: bool, error: Option<string>, nodes: seq<Node<Group<I>>>,
                     showActions: bool): (s: Screen<I>)
    ensures loading <==> s.Spinner?
    ensures s.Failed? <==> !loading && error.Some?
    ensures s.Failed? ==> s.message == error.value && (s.retryButton <==> f == TerminalGroups)
    ensures s.Panel? ==> s.addRootButton == showActions
    ensures s.Panel? ==> (s.body.Tree? <==> |nodes| > 0)
    ensures s.Panel? && s.body.Tree? ==> s.body.nodes == nodes && s.body.nodeActions == showActions
  {
    if loading then Spinner
    else if error.Some? then Failed(error.value, f == TerminalGroups)
    else Panel(showActions, if |nodes| > 0 then Tree(nodes, showActions) else EmptyNote(EmptyText(f)))
  }

  /** Once the groups are loaded without error, the panel shows the empty
      note exactly when there are none; otherwise its tree, once every node
      has been expanded, lists every fetched group in preorder, with the
      buttons exactly when actions are on. What it shows right after
      loading is `LoadTimeShowsTopGroups`. */
  lemma LoadedGroupsRendered<I>(f: Flavour, groups: seq<Group<I>>, showActions: bool)
    ensures var s := Render(f, false, None, Convert(groups), showActions);
      s.Panel? && s.addRootButton == showActions
      && (s.body.EmptyNote? <==> groups == [])
      && (s.body.EmptyNote? ==> s.body.text == EmptyText(f))
      && (s.body.Tree? ==> s.body.nodeActions == showActions
                           && RowIds(ForestRows(s.body.nodes, IdSet(FlattenIds(s.body.nodes)), 0)) == ForestGroupIds(groups))
  {
    ConvertPreservesShape(groups);
    AllExpandedShowsPreorder(Convert(groups), 0);
  }

  /** Both trees hand `TreeView` their own expanded-id list, which starts
      empty, so right after loading only the top-level groups are shown, one
      row each at level 0, whatever `defaultExpandAll` says. */
  lemma LoadTimeShowsTopGroups<I>(groups: seq<Group<I>>, defaultExpandAll: bool)
    ensures var nodes := Convert(groups);
      var rows := ForestRows(nodes, EffectiveExpanded(Some([]), InitialExpanded(nodes, defaultExpandAll)), 0);
      |rows| == |groups| && forall i :: 0 <= i < |groups| ==> rows[i] == Row(groups[i].id, 0)
  {
    var nodes := Convert(groups);
    ControlledIgnoresDefault(nodes, [], defaultExpandAll);
    NothingExpandedShowsRoots(nodes, 0);
  }

  /** The per-node action buttons a node gets: add-child, edit, delete, or none. */
  datatype NodeAction<I> = AddChild(parentId: string) | Edit(group: Group<I>) | Remove(group: Group<I>)

  function NodeActions<I>(showActions: bool, n: Node<Group<I>>): (r: seq<NodeAction<I>>)
    ensures !showActions <==> r == []
    ensures showActions ==> r == [AddChild(n.id), Edit(n.data), Remove(n.data)]
  {
    if showActions then [AddChild(n.id), Edit(n.data), Remove(n.data)] else []
  }
}
