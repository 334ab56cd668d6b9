/** The site picker (`src/components/SiteSelector.tsx`): a button showing the
    chosen site and a dropdown of every site in the table. Read-only mode
    turns both the dropdown and picking off. Clicks are modelled as events. */
module SiteSelector {
  import opened Wrappers
  import opened Sites

  datatype State = State(open: bool, selected: SiteConfig)

  /** Closed, with the table's first site. */
  const Initial := State(false, SITES[0])

  /** `handleSiteChange`: `reported` is the site handed to `onChange`. */
  datatype Changed = Changed(state: State, reported: Option<SiteConfig>)

  function Pick(s: State, readOnly: bool, site: SiteConfig): (c: Changed)
    ensures readOnly ==> c == Changed(s, None)
    ensures !readOnly ==> c.state.selected == site && !c.state.open && c.reported == Some(site)
  {
    if readOnly then Changed(s, None) else Changed(State(false, site), Some(site))
  }

  /** `toggleDropdown`. */
  function Toggle(s: State, readOnly: bool): (t: State)
    ensures readOnly ==> t == s
    ensures !readOnly ==> t.open == !s.open && t.selected == s.selected
  {
    if readOnly then s else s.(open := !s.open)
  }

  /** A click anywhere else in the document closes the dropdown. */
  function ClickOutside(s: State): (t: State)
    ensures !t.open && t.selected == s.selected
  {
    s.(open := false)
  }

  predicate DropdownShown(s: State, readOnly: bool) {
    s.open && !readOnly
  }

  datatype Event = PickSite(site: SiteConfig) | ToggleClick | Outside

  function Step(s: State, readOnly: bool, e: Event): State {
    match e
    case PickSite(site) => Pick(s, readOnly, site).state
    case ToggleClick => Toggle(s, readOnly)
    case Outside => ClickOutside(s)
  }

  function Run(s: State, readOnly: bool, events: seq<Event>): State
    decreases |events|
  {
    if events == [] then s else Run(Step(s, readOnly, events[0]), readOnly, events[1..])
  }

  /** In read-only mode no sequence of clicks opens the dropdown or changes
      the site. */
  lemma {:induction false} ReadOnlyIsInert(s: State, events: seq<Event>)
    requires !s.open
    ensures Run(s, true, events) == s
    ensures !DropdownShown(Run(s, true, events), true)
    decreases |events|
  {
    if events != [] {
      ReadOnlyIsInert(Step(s, true, events[0]), events[1..]);
    }
  }

  /** Picking only from the table keeps the selection in the table. */
  lemma {:induction false} SelectionStaysInTable(s: State, readOnly: bool, events: seq<Event>)
    requires s.selected in SITES
    requires forall k :: 0 <= k < |events| && events[k].PickSite? ==> events[k].site in SITES
    ensures Run(s, readOnly, events).selected in SITES
    decreases |events|
  {
    if events != [] {
      SelectionStaysInTable(Step(s, readOnly, events[0]), readOnly, events[1..]);
    }
  }

  /** One dropdown line. */
  datatype Entry = Entry(site: SiteConfig, highlighted: bool, comingSoon: bool)

  function Entries(s: State): (es: seq<Entry>)
    ensures |es| == |SITES|
    ensures forall k :: 0 <= k < |es| ==> es[k].site == SITES[k]
    ensures forall k :: 0 <= k < |es| ==> (es[k].highlighted <==> SITES[k].id == s.selected.id)
    ensures forall k :: 0 <= k < |es| ==> (es[k].comingSoon <==> SITES[k].gatewayUrl == ComingSoonGateway)
  {
    seq(|SITES|, k requires 0 <= k < |SITES| =>
      Entry(SITES[k], SITES[k].id == s.selected.id, SITES[k].gatewayUrl == ComingSoonGateway))
  }

  /** Every site but the default is marked as coming soon, and at most one
      line is highlighted — exactly one when the selection is from the table. */
  lemma EntriesShape(s: State)
    ensures forall k :: 0 <= k < |SITES| ==> (Entries(s)[k].comingSoon <==> k != 0)
    ensures forall i, j :: 0 <= i < |SITES| && 0 <= j < |SITES| && Entries(s)[i].highlighted && Entries(s)[j].highlighted ==> i == j
    ensures s.selected in SITES ==> exists k :: 0 <= k < |SITES| && Entries(s)[k].highlighted
  {
    TableInvariants();
    if s.selected in SITES {
      var k :| 0 <= k < |SITES| && SITES[k] == s.selected;
      assert Entries(s)[k].highlighted;
    }
  }
}
