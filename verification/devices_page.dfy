/** The devices page (`src/app/devices/page.tsx`): its search-and-status
    filter over the device list, row selection over the filtered rows, the
    inert bulk action and the status badge. The page works on a fixed mock
    list. */
module DevicesPage {
  import opened Text
  import opened Selection

  datatype Device = Device(id: string, name: string, status: string, location: string)

  const AllStatuses: string := "all"

  /** The mock list the page loads (type, resolution, size and last-online
      time are not modelled). */
  const MOCK_DEVICES: seq<Device> := [
    Device("LED-SZ-001", "深圳南山LED屏", "online", "深圳市南山区科技园"),
    Device("LED-SZ-002", "深圳福田LED屏", "offline", "深圳市福田区CBD"),
    Device("LED-SZ-003", "深圳宝安LED屏", "warning", "深圳市宝安区机场"),
    Device("LED-HK-001", "香港中环LED屏", "online", "香港特别行政区中环"),
    Device("LED-HK-002", "香港尖沙咀LED屏", "online", "香港特别行政区尖沙咀"),
    Device("LED-SZ-004", "深圳龙岗LED屏", "offline", "深圳市龙岗区中心城"),
    Device("LED-SZ-005", "深圳盐田LED屏", "online", "深圳市盐田区海滨路"),
    Device("LED-SZ-006", "深圳罗湖LED屏", "warning", "深圳市罗湖区东门步行街")
  ]

  /** The search term, lower-cased, occurs in the lower-cased name, id or location. */
  predicate MatchesSearch(d: Device, term: string) {
    var t := Lower(term);
    Contains(Lower(d.name), t) || Contains(Lower(d.id), t) || Contains(Lower(d.location), t)
  }

  predicate MatchesStatus(d: Device, filterStatus: string) {
    filterStatus == AllStatuses || d.status == filterStatus
  }

  predicate Keeps(d: Device, term: string, filterStatus: string) {
    MatchesSearch(d, term) && MatchesStatus(d, filterStatus)
  }

  /** `xs` can be obtained from `ys` by deleting elements. */
  predicate IsSubsequence(xs: seq<Device>, ys: seq<Device>)
    decreases |ys|
  {
    if |xs| == 0 then true
    else if |ys| == 0 then false
    else if xs[0] == ys[0] then IsSubsequence(xs[1..], ys[1..])
    else IsSubsequence(xs, ys[1..])
  }

  /** `filteredDevices`. */
  function Filter(devices: seq<Device>, term: string, filterStatus: string): (r: seq<Device>)
    ensures forall i :: 0 <= i < |r| ==> Keeps(r[i], term, filterStatus)
    ensures forall d :: d in devices && Keeps(d, term, filterStatus) ==> d in r
    ensures forall d :: d in r ==> d in devices
    ensures IsSubsequence(r, devices)
    ensures forall d :: multiset(r)[d] == if Keeps(d, term, filterStatus) then multiset(devices)[d] else 0
    decreases |devices|
  {
    if |devices| == 0 then []
    else
      var rest := Filter(devices[1..], term, filterStatus);
      assert devices == [devices[0]] + devices[1..];
      if Keeps(devices[0], term, filterStatus) then [devices[0]] + rest
      else
        SubsequenceDropHead(rest, devices);
        rest
  }

  /** A subsequence of the tail is a subsequence of the whole list. */
  lemma {:induction false} SubsequenceDropHead(xs: seq<Device>, ys: seq<Device>)
    requires |ys| > 0 && IsSubsequence(xs, ys[1..])
    ensures IsSubsequence(xs, ys)
    decreases |ys|, 0
  {
    if |xs| > 0 && xs[0] == ys[0] {
      SubsequenceTail(xs, ys[1..]);
    }
  }

  /** Dropping the first element of a subsequence keeps it a subsequence. */
  lemma {:induction false} SubsequenceTail(xs: seq<Device>, ys: seq<Device>)
    requires |xs| > 0 && IsSubsequence(xs, ys)
    ensures IsSubsequence(xs[1..], ys)
    decreases |ys|, 1
  {
    if |ys| > 0 {
      if xs[0] == ys[0] {
        if |xs| > 1 {
          SubsequenceTail(xs[1..], ys[1..]);
          SubsequenceDropHead(xs[1..], ys);
        }
      } else {
        SubsequenceTail(xs, ys[1..]);
        if |xs| > 1 {
          SubsequenceDropHead(xs[1..], ys);
        }
      }
    }
  }

  /** When every device is kept, the filter returns the list unchanged. */
  lemma {:induction false} FilterKeepsAll(devices: seq<Device>, term: string, filterStatus: string)
    requires forall i :: 0 <= i < |devices| ==> Keeps(devices[i], term, filterStatus)
    ensures Filter(devices, term, filterStatus) == devices
    decreases |devices|
  {
    if |devices| > 0 {
      FilterKeepsAll(devices[1..], term, filterStatus);
      assert [devices[0]] + devices[1..] == devices;
    }
  }

  /** The page as it opens (empty search, status "all") shows every device. */
  lemma NoFilterShowsAll(devices: seq<Device>)
    ensures Filter(devices, "", AllStatuses) == devices
  {
    forall i | 0 <= i < |devices| ensures Keeps(devices[i], "", AllStatuses) {
      EmptyIsContained(Lower(devices[i].name));
    }
    FilterKeepsAll(devices, "", AllStatuses);
  }

  /** Filtering the filtered list again changes nothing. */
  lemma FilterIdempotent(devices: seq<Device>, term: string, filterStatus: string)
    ensures Filter(Filter(devices, term, filterStatus), term, filterStatus) == Filter(devices, term, filterStatus)
  {
    FilterKeepsAll(Filter(devices, term, filterStatus), term, filterStatus);
  }

  /** The search ignores ASCII letter case in the term. */
  lemma SearchIgnoresTermCase(d: Device, term: string)
    ensures MatchesSearch(d, term) <==> MatchesSearch(d, Lower(term))
  {
    LowerIdempotent(term);
  }

  function Ids(devices: seq<Device>): (r: seq<string>)
    ensures |r| == |devices| && forall i :: 0 <= i < |r| ==> r[i] == devices[i].id
  {
    seq(|devices|, i requires 0 <= i < |devices| => devices[i].id)
  }

  /** `handleSelectAll`: select-all over the rows currently shown. */
  function SelectAllShown(selected: seq<string>, devices: seq<Device>, term: string,
                          filterStatus: string): (r: seq<string>)
    ensures |selected| == |Filter(devices, term, filterStatus)| ==> r == []
    ensures |selected| != |Filter(devices, term, filterStatus)| ==>
      r == Ids(Filter(devices, term, filterStatus))
  {
    SelectAll(selected, Ids(Filter(devices, term, filterStatus)))
  }

  datatype PageState = PageState(devices: seq<Device>, selected: seq<string>)

  /** What a bulk button does: the page state afterwards and the console line
      it writes, the action's name after a fixed prefix, with the selection. */
  datatype BulkOutcome = BulkOutcome(state: PageState, logLine: string, loggedIds: seq<string>)

  const BulkLogPrefix: string := "执行批量操作: "

  /** `handleBulkAction` only logs: the four buttons send nothing and leave
      the devices and the selection as they were. */
  function BulkAction(s: PageState, action: string): (r: BulkOutcome)
    ensures r.state == s && r.loggedIds == s.selected
    ensures IsPrefix(BulkLogPrefix, r.logLine) && r.logLine[|BulkLogPrefix|..] == action
  {
    BulkOutcome(s, BulkLogPrefix + action, s.selected)
  }

  /** Bulk actions differ only in what they log: any two leave the same
      state, and the log line tells which action was pressed. */
  lemma BulkActionsOnlyLog(s: PageState, a: string, b: string)
    ensures BulkAction(s, a).state == BulkAction(s, b).state == s
    ensures BulkAction(s, a).logLine == BulkAction(s, b).logLine <==> a == b
  {
    var la, lb := BulkAction(s, a).logLine, BulkAction(s, b).logLine;
    if la == lb {
      assert a == la[|BulkLogPrefix|..] == lb[|BulkLogPrefix|..] == b;
    }
  }

  /** `getStatusBadge`. */
  function StatusLabel(status: string): (text: string)
    ensures status == "online" <==> text == "在线"
    ensures status == "offline" <==> text == "离线"
    ensures status == "warning" <==> text == "告警"
    ensures status !in {"online", "offline", "warning"} <==> text == "未知"
  {
    if status == "online" then "在线"
    else if status == "offline" then "离线"
    else if status == "warning" then "告警"
    else "未知"
  }

  /** The mock ids are distinct, so select-all on the full list gives a
      selection without repeats. */
  lemma MockIdsDistinct()
    ensures Distinct(Ids(MOCK_DEVICES))
  {
  }
}
