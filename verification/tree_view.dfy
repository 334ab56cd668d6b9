/** The generic collapsible tree (`src/components/tree/TreeView.tsx`): nodes
    with optional children, preorder id flattening, the expanded-id set
    (internal or supplied by the parent), the toggle handler and which rows
    are rendered at which indentation. */
module TreeView {
  import opened Wrappers

  /** `children?: TreeNode[]`: absent, or a (possibly empty) list. */
  datatype Kids<D> = Undefined | Defined(nodes: seq<Node<D>>)

  datatype Node<D> = Node(id: string, name: string, kids: Kids<D>, data: D)

  /** A node shows an expand button and may show children only when it has at
      least one child. */
  predicate HasChildren<D>(n: Node<D>) {
    n.kids.Defined? && |n.kids.nodes| > 0
  }

  function Size<D>(n: Node<D>): nat {
    1 + (match n.kids case Defined(cs) => ForestSize(cs) case Undefined => 0)
  }

  function ForestSize<D>(nodes: seq<Node<D>>): nat {
    if nodes == [] then 0 else Size(nodes[0]) + ForestSize(nodes[1..])
  }

  /** The ids of a node and its descendants, node first. */
  function NodeIds<D>(n: Node<D>): seq<string> {
    [n.id] + (if HasChildren(n) then FlattenIds(n.kids.nodes) else [])
  }

  /** `flattenNodeIds`: every id of the forest in preorder. */
  function FlattenIds<D>(nodes: seq<Node<D>>): seq<string> {
    if nodes == [] then [] else NodeIds(nodes[0]) + FlattenIds(nodes[1..])
  }

  /** One id per node: the flattened list is as long as the forest is large. */
  lemma {:induction false} FlattenCountsNodes<D>(nodes: seq<Node<D>>)
    ensures |FlattenIds(nodes)| == ForestSize(nodes)
    decreases nodes
  {
    if nodes != [] {
      var n := nodes[0];
      FlattenCountsNodes(nodes[1..]);
      match n.kids
      case Undefined =>
      case Defined(cs) => FlattenCountsNodes(cs);
    }
  }

  /** Flattening a concatenation concatenates the flattenings. */
  lemma {:induction false} FlattenAppend<D>(a: seq<Node<D>>, b: seq<Node<D>>)
    ensures FlattenIds(a + b) == FlattenIds(a) + FlattenIds(b)
    decreases |a|
  {
    if a == [] {
      assert a + b == b;
    } else {
      assert (a + b)[1..] == a[1..] + b;
      FlattenAppend(a[1..], b);
    }
  }

  /** Set view of an id list (`new Set(ids)`). */
  function IdSet(ids: seq<string>): set<string> {
    set x | x in ids
  }

  /** The internal state on mount: every id when `defaultExpandAll`, else none. */
  function InitialExpanded<D>(nodes: seq<Node<D>>, defaultExpandAll: bool): (s: set<string>)
    ensures defaultExpandAll ==> s == IdSet(FlattenIds(nodes))
    ensures !defaultExpandAll ==> s == {}
  {
    if defaultExpandAll then IdSet(FlattenIds(nodes)) else {}
  }

  /** The set actually used: a supplied `expandedIds` list wins over the
      internal state, even when it is empty (an empty array is truthy). */
  function EffectiveExpanded(external: Option<seq<string>>, internal: set<string>): (s: set<string>)
    ensures external.Some? ==> s == IdSet(external.value)
    ensures external.None? ==> s == internal
  {
    match external
    case Some(ids) => IdSet(ids)
    case None => internal
  }

  /** Under parent control, `defaultExpandAll` has no effect: the parent's
      list alone decides, so an empty list shows every node collapsed. */
  lemma ControlledIgnoresDefault<D>(nodes: seq<Node<D>>, ids: seq<string>, defaultExpandAll: bool)
    ensures EffectiveExpanded(Some(ids), InitialExpanded(nodes, defaultExpandAll)) == IdSet(ids)
    ensures EffectiveExpanded(Some([]), InitialExpanded(nodes, defaultExpandAll)) == {}
  {
  }

  /** What a click on an expand button does: the new internal state, and the
      `(id, expanded)` report sent to the parent's callback when there is one. */
  datatype ToggleEffect = ToggleEffect(internal: set<string>, report: Option<(string, bool)>)

  /** `handleToggleExpand`. */
  function HandleToggle(internal: set<string>, external: Option<seq<string>>, hasCallback: bool,
                        id: string): (e: ToggleEffect)
    ensures var wasExpanded := id in EffectiveExpanded(external, internal);
      hasCallback ==> e == ToggleEffect(internal, Some((id, !wasExpanded)))
    ensures !hasCallback ==> e.report.None?
    ensures !hasCallback ==> (id in e.internal <==> id !in EffectiveExpanded(external, internal))
    ensures !hasCallback ==>
              forall x :: x != id ==> (x in e.internal <==> x in EffectiveExpanded(external, internal))
  {
    var current := EffectiveExpanded(external, internal);
    var wasExpanded := id in current;
    var next := if wasExpanded then current - {id} else current + {id};
    if hasCallback then ToggleEffect(internal, Some((id, !wasExpanded)))
    else ToggleEffect(next, None)
  }

  /** Without parent control, toggling the same id twice restores the set. */
  lemma ToggleTwiceRestores(internal: set<string>, id: string)
    ensures HandleToggle(HandleToggle(internal, None, false, id).internal, None, false, id).internal == internal
  {
  }

  /** A rendered row: the node's id and its nesting level. */
  datatype Row = Row(id: string, level: nat)

  /** `paddingLeft`: 16 px per level plus 8. */
  function Indent(level: nat): (px: nat)
    ensures px >= 8 && (px - 8) % 16 == 0 && (px - 8) / 16 == level
  {
    level * 16 + 8
  }

  /** The rows of one node: itself, then its children's rows one level deeper
      when it has children and is expanded. */
  function NodeRows<D>(n: Node<D>, expanded: set<string>, level: nat): seq<Row> {
    [Row(n.id, level)]
    + (if HasChildren(n) && n.id in expanded then ForestRows(n.kids.nodes, expanded, level + 1) else [])
  }

  function ForestRows<D>(nodes: seq<Node<D>>, expanded: set<string>, level: nat): seq<Row> {
    if nodes == [] then [] else NodeRows(nodes[0], expanded, level) + ForestRows(nodes[1..], expanded, level)
  }

  function RowIds(rows: seq<Row>): seq<string> {
    seq(|rows|, i requires 0 <= i < |rows| => rows[i].id)
  }

  lemma RowIdsAppend(a: seq<Row>, b: seq<Row>)
    ensures RowIds(a + b) == RowIds(a) + RowIds(b)
  {
  }

  /** With every id expanded the tree renders all nodes, in the preorder of
      `flattenNodeIds`. */
  lemma {:induction false} AllExpandedShowsPreorder<D>(nodes: seq<Node<D>>, level: nat)
    ensures RowIds(ForestRows(nodes, IdSet(FlattenIds(nodes)), level)) == FlattenIds(nodes)
    decreases nodes
  {
    ExpandedSupersetShowsAll(nodes, IdSet(FlattenIds(nodes)), level);
  }

  /** Any expanded set that contains every id of the forest renders all of it. */
  lemma {:induction false} ExpandedSupersetShowsAll<D>(nodes: seq<Node<D>>, expanded: set<string>, level: nat)
    requires forall x :: x in FlattenIds(nodes) ==> x in expanded
    ensures RowIds(ForestRows(nodes, expanded, level)) == FlattenIds(nodes)
    decreases nodes
  {
    if nodes != [] {
      var n := nodes[0];
      assert FlattenIds(nodes) == NodeIds(n) + FlattenIds(nodes[1..]);
      ExpandedSupersetShowsAll(nodes[1..], expanded, level);
      assert n.id in expanded;
      if HasChildren(n) {
        ExpandedSupersetShowsAll(n.kids.nodes, expanded, level + 1);
      }
      RowIdsAppend(NodeRows(n, expanded, level), ForestRows(nodes[1..], expanded, level));
      RowIdsAppend([Row(n.id, level)],
        if HasChildren(n) && n.id in expanded then ForestRows(n.kids.nodes, expanded, level + 1) else []);
    }
  }

  /** With nothing expanded only the roots are rendered, at the given level. */
  lemma {:induction false} NothingExpandedShowsRoots<D>(nodes: seq<Node<D>>, level: nat)
    ensures ForestRows(nodes, {}, level) == seq(|nodes|, i requires 0 <= i < |nodes| => Row(nodes[i].id, level))
    decreases nodes
  {
    if nodes != [] {
      NothingExpandedShowsRoots(nodes[1..], level);
    }
  }
}
