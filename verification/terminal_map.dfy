/** The terminal map page (`src/app/terminals/map/page.tsx`): one large
    fetch, per-status counts, a short list of the first terminals and their
    status dots. The map itself is a placeholder and is not modelled. */
module TerminalMap {
  import opened Wrappers
  import TerminalsPage

  datatype MapRow = MapRow(id: string, name: string, status: int, location: Option<string>)

  const MapPage: int := 1
  const MapPageSize: int := 1000
  const ListLimit: nat := 5

  /** The fetch on mount: the API's first page, 1000 rows, no filters. */
  function MapQuery(): (q: TerminalsPage.Query)
    ensures q.page == 0 && q.size == 1000
    ensures q.keyword.None? && q.status.None? && q.terminalGroupId.None?
  {
    TerminalsPage.Query(MapPage - 1, MapPageSize, None, None, None)
  }

  /** The map asks for what the terminals page asks for on its first page
      with no filter set, only with a larger page. */
  lemma MapQueryIsUnfilteredFirstPage()
    ensures MapQuery() == TerminalsPage.BuildQuery(1, 1000, "", None, None)
  {
  }

  /** `content.filter(t => t.status === s).length`. */
  function CountStatus(rows: seq<MapRow>, s: int): (n: nat)
    ensures n <= |rows|
    decreases |rows|
  {
    if |rows| == 0 then 0
    else (if rows[0].status == s then 1 else 0) + CountStatus(rows[1..], s)
  }

  datatype StatusCounts = StatusCounts(online: nat, offline: nat, alarm: nat, disabled: nat)

  /** The four statistics tiles; every tile shows 0 until data has arrived. */
  function Counts(data: Option<seq<MapRow>>): (c: StatusCounts)
    ensures data.None? ==> c == StatusCounts(0, 0, 0, 0)
    ensures data.Some? ==>
              c.online == CountStatus(data.value, 1) && c.offline == CountStatus(data.value, 0)
              && c.alarm == CountStatus(data.value, 2) && c.disabled == CountStatus(data.value, -1)
  {
    match data
    case None => StatusCounts(0, 0, 0, 0)
    case Some(rows) =>
      StatusCounts(CountStatus(rows, 1), CountStatus(rows, 0), CountStatus(rows, 2), CountStatus(rows, -1))
  }

  predicate KnownStatus(s: int) {
    s == 1 || s == 0 || s == 2 || s == -1
  }

  /** The tiles never count more terminals than were loaded, and they count
      all of them exactly when every status is one of the four known values. */
  lemma {:induction false} CountsBounded(rows: seq<MapRow>)
    ensures var c := Counts(Some(rows)); c.online + c.offline + c.alarm + c.disabled <= |rows|
    ensures var c := Counts(Some(rows));
      c.online + c.offline + c.alarm + c.disabled == |rows|
      <==> forall i :: 0 <= i < |rows| ==> KnownStatus(rows[i].status)
    decreases |rows|
  {
    if |rows| > 0 {
      CountsBounded(rows[1..]);
      var tail := rows[1..];
      assert forall i :: 1 <= i < |rows| ==> rows[i] == tail[i - 1];
      if forall i :: 0 <= i < |tail| ==> KnownStatus(tail[i].status) {
        assert forall i :: 1 <= i < |rows| ==> KnownStatus(rows[i].status);
      }
    }
  }

  /** The location panel under the statistics. */
  datatype ListPanel = ListSpinner | ListRows(shown: seq<MapRow>, hiddenCount: Option<nat>) | NoData

  /** The first five rows, and the "还有 n 个终端未显示" note when there are more. */
  function LocationPanel(loading: bool, data: Option<seq<MapRow>>): (p: ListPanel)
    ensures loading <==> p == ListSpinner
    ensures !loading && (data.None? || |data.value| == 0) <==> p == NoData
    ensures p.ListRows? ==>
      var rows := data.value;
      |p.shown| == (if |rows| < ListLimit then |rows| else ListLimit) && p.shown == rows[..|p.shown|]
      && (p.hiddenCount.Some? <==> |rows| > ListLimit)
      && (p.hiddenCount.Some? ==> |p.shown| + p.hiddenCount.value == |rows|)
  {
    if loading then ListSpinner
    else if data.None? || |data.value| == 0 then NoData
    else
      var rows := data.value;
      var n := if |rows| < ListLimit then |rows| else ListLimit;
      ListRows(rows[..n], if |rows| > ListLimit then Some(|rows| - ListLimit) else None)
  }

  /** Counting over the first rows never finds more than counting over all. */
  lemma {:induction false} CountStatusPrefix(rows: seq<MapRow>, n: nat, st: int)
    requires n <= |rows|
    ensures CountStatus(rows[..n], st) <= CountStatus(rows, st)
    decreases n
  {
    if n > 0 {
      assert rows[..n][1..] == rows[1..][..n - 1];
      CountStatusPrefix(rows[1..], n - 1, st);
    }
  }

  /** The panel and the tiles describe the same loaded rows: with no rows
      the note shows and every tile is 0; once rows are in, the listed rows
      and the "n more" note together account for every row, and no status
      has more dots in the list than on its tile. */
  lemma PanelAgreesWithTiles(data: Option<seq<MapRow>>)
    ensures LocationPanel(false, data) == NoData ==> Counts(data) == StatusCounts(0, 0, 0, 0)
    ensures data.Some? && |data.value| > 0 ==>
      var p := LocationPanel(false, data);
      p.ListRows? && |p.shown| + p.hiddenCount.GetOr(0) == |data.value|
      && forall st :: CountStatus(p.shown, st) <= CountStatus(data.value, st)
  {
    if data.Some? && |data.value| > 0 {
      var p := LocationPanel(false, data);
      forall st ensures CountStatus(p.shown, st) <= CountStatus(data.value, st) {
        CountStatusPrefix(data.value, |p.shown|, st);
      }
    }
  }

  /** The location line: the location when non-empty, else "未设置位置". */
  function LocationText(r: MapRow): (text: string)
    ensures r.location.Some? && r.location.value != "" ==> text == r.location.value
    ensures r.location.None? || r.location.value == "" ==> text == "未设置位置"
  {
    if r.location.Some? && r.location.value != "" then r.location.value else "未设置位置"
  }

  datatype DotColour = Green | Gray | Yellow | Red

  function StatusDot(status: int): (c: DotColour)
    ensures c == Green <==> status == 1
    ensures c == Gray <==> status == 0
    ensures c == Yellow <==> status == 2
    ensures c == Red <==> status != 1 && status != 0 && status != 2
  {
    if status == 1 then Green else if status == 0 then Gray else if status == 2 then Yellow else Red
  }

  /** The dot agrees with the terminals page badge on the three live states;
      a disabled terminal and an unknown status both get the red dot. */
  lemma DotAgreesWithBadge(status: int)
    ensures StatusDot(status) == Green <==> TerminalsPage.StatusLabel(status) == "在线"
    ensures StatusDot(status) == Gray <==> TerminalsPage.StatusLabel(status) == "离线"
    ensures StatusDot(status) == Yellow <==> TerminalsPage.StatusLabel(status) == "告警"
    ensures StatusDot(status) == Red <==> TerminalsPage.StatusLabel(status) in {"禁用", "未知"}
  {
  }
}
