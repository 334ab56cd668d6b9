/** Breadcrumbs derived from a pathname (`src/components/Breadcrumb.tsx`):
    one crumb per non-empty path segment, each linking to the path up to
    that segment, labelled from a fixed table, by capitalisation, or as a
    detail page when the segment looks like an id. */
module Breadcrumb {
  import opened Text

  /** A crumb label. The label table is a plain object, so looking a segment
      up in it also finds the members every object inherits; those are
      truthy non-strings and win over capitalisation. */
  datatype Label = Plain(text: string) | Inherited(key: string)

  datatype Crumb = Crumb(path: string, title: Label)

  const DetailLabel: string := "详情"

  const LABELS: map<string, string> := map[
    "dashboard" := "仪表盘",
    "devices" := "设备管理",
    "contents" := "内容管理",
    "users" := "用户管理",
    "permissions" := "权限配置",
    "messages" := "消息中心",
    "analytics" := "数据分析",
    "settings" := "系统设置",
    "playlists" := "播放列表",
    "schedule" := "发布计划",
    "roles" := "角色管理",
    "map" := "设备地图",
    "groups" := "终端组",
    "profile" := "个人资料"
  ]

  /** The members of `Object.prototype` (section 20.1.3 of ECMA-262, with the
      legacy accessors and `__proto__` of its Annex B.2.2). */
  const INHERITED: set<string> := {
    "constructor", "hasOwnProperty", "isPrototypeOf", "propertyIsEnumerable",
    "toLocaleString", "toString", "valueOf", "__proto__",
    "__defineGetter__", "__defineSetter__", "__lookupGetter__", "__lookupSetter__"
  }

  /** `^\d+$`: one or more ASCII digits. */
  predicate IsDigits(s: string) {
    |s| > 0 && forall i :: 0 <= i < |s| ==> IsDigit(s[i])
  }

  /** Positions of the dashes in the 8-4-4-4-12 textual form of a UUID
      (section 3 of RFC 4122). */
  predicate IsUuidDash(i: int) {
    i == 8 || i == 13 || i == 18 || i == 23
  }

  /** The 8-4-4-4-12 form, hex digits in either case (the pattern carries `/i`). */
  predicate IsUuid(s: string) {
    |s| == 36
    && forall i :: 0 <= i < 36 ==> (if IsUuidDash(i) then s[i] == '-' else IsHexDigit(s[i]))
  }

  predicate IsIdSegment(s: string) {
    IsDigits(s) || IsUuid(s)
  }

  /** The label of one segment: the detail label for ids, else the table
      entry, else an inherited member, else the segment with its first
      character upper-cased. */
  function SegmentLabel(segment: string): (title: Label)
    ensures IsIdSegment(segment) ==> title == Plain(DetailLabel)
    ensures !IsIdSegment(segment) && segment in LABELS ==> title == Plain(LABELS[segment])
    ensures !IsIdSegment(segment) && segment !in LABELS && segment in INHERITED ==> title == Inherited(segment)
    ensures !IsIdSegment(segment) && segment !in LABELS && segment !in INHERITED ==> title == Plain(Capitalize(segment))
  {
    if IsIdSegment(segment) then Plain(DetailLabel)
    else if segment in LABELS then Plain(LABELS[segment])
    else if segment in INHERITED then Inherited(segment)
    else Plain(Capitalize(segment))
  }

  /** A segment gets a non-text label exactly when it names an inherited
      member: no table key and no id is one. */
  lemma InheritedLabelsExactly(segment: string)
    ensures SegmentLabel(segment).Inherited? <==> segment in INHERITED
    ensures SegmentLabel(segment).Inherited? ==> SegmentLabel(segment).key == segment
  {
    if segment in INHERITED {
      InheritedKeysAreNotIds(segment);
      TableAndInheritedDisjoint();
    }
  }

  /** No table key is an inherited member, so own entries never clash with them. */
  lemma TableAndInheritedDisjoint()
    ensures LABELS.Keys !! INHERITED
  {
  }

  lemma InheritedKeysAreNotIds(segment: string)
    requires segment in INHERITED
    ensures !IsIdSegment(segment)
  {
    assert !IsDigit(segment[0]) && |segment| != 36;
  }

  /** No table key looks like an id, so every key gets its table label. */
  lemma TableKeysAreNotIds(segment: string)
    requires segment in LABELS
    ensures !IsIdSegment(segment)
    ensures SegmentLabel(segment) == Plain(LABELS[segment])
  {
    assert !IsDigit(segment[0]);
  }

  /** The link of the crumb for segment `i`: `'/' + segments.slice(0, i + 1).join('/')`. */
  function CrumbPath(segments: seq<string>, i: nat): string
    requires i < |segments|
  {
    "/" + Join(segments[..i + 1], "/")
  }

  /** The crumbs for a list of segments, one per segment, in order. */
  function CrumbsOf(segments: seq<string>): (r: seq<Crumb>)
    ensures |r| == |segments|
    ensures forall i :: 0 <= i < |r| ==> r[i].path == CrumbPath(segments, i)
    ensures forall i :: 0 <= i < |r| ==> r[i].title == SegmentLabel(segments[i])
  {
    seq(|segments|, i requires 0 <= i < |segments| =>
      Crumb(CrumbPath(segments, i), SegmentLabel(segments[i])))
  }

  /** `generateBreadcrumbs(pathname)`. */
  function Generate(pathname: string): (r: seq<Crumb>)
    ensures pathname == "/dashboard" ==> r == []
    ensures pathname != "/dashboard" ==> |r| == |Segments(pathname)|
  {
    if pathname == "/dashboard" then [] else CrumbsOf(Segments(pathname))
  }

  /** `items.length > 0 ? items : generateBreadcrumbs(pathname)`. */
  function Crumbs(items: seq<Crumb>, pathname: string): (r: seq<Crumb>)
    ensures |items| > 0 ==> r == items
    ensures |items| == 0 ==> r == Generate(pathname)
  {
    if |items| > 0 then items else Generate(pathname)
  }

  /** The link for segment `i` is the link for segment `i - 1`, a `'/'` and segment `i`. */
  lemma CrumbPathStep(segs: seq<string>, i: nat)
    requires 0 < i < |segs|
    ensures CrumbPath(segs, i) == CrumbPath(segs, i - 1) + "/" + segs[i]
  {
    assert segs[..i + 1] == segs[..i] + [segs[i]];
    JoinSnoc(segs[..i], segs[i], "/");
  }

  /** Each crumb's link extends the previous one by `'/'` and its own segment,
      so every link is a prefix of the next; the first link is `'/'` plus the
      first segment. */
  lemma CrumbPathsChain(segs: seq<string>)
    ensures var r := CrumbsOf(segs);
      (|r| > 0 ==> r[0].path == "/" + segs[0])
      && forall i :: 0 < i < |r| ==>
           r[i].path == r[i - 1].path + "/" + segs[i] && IsPrefix(r[i - 1].path, r[i].path)
  {
    var r := CrumbsOf(segs);
    PathsChain(segs);
    assert forall i :: 0 <= i < |r| ==> r[i].path == CrumbPath(segs, i);
  }

  /** `CrumbPathsChain` on the links alone. */
  lemma PathsChain(segs: seq<string>)
    ensures |segs| > 0 ==> CrumbPath(segs, 0) == "/" + segs[0]
    ensures forall i :: 0 < i < |segs| ==>
      CrumbPath(segs, i) == CrumbPath(segs, i - 1) + "/" + segs[i] && IsPrefix(CrumbPath(segs, i - 1), CrumbPath(segs, i))
  {
    if |segs| > 0 {
      assert segs[..1] == [segs[0]];
    }
    forall i | 0 < i < |segs|
      ensures CrumbPath(segs, i) == CrumbPath(segs, i - 1) + "/" + segs[i] && IsPrefix(CrumbPath(segs, i - 1), CrumbPath(segs, i))
    {
      CrumbPathStep(segs, i);
      assert CrumbPath(segs, i) == CrumbPath(segs, i - 1) + ("/" + segs[i]);
    }
  }

  /** The last crumb links to the pathname with its empty segments removed. */
  lemma LastCrumbIsNormalisedPath(pathname: string)
    requires pathname != "/dashboard" && |Segments(pathname)| > 0
    ensures var r := Generate(pathname);
      r[|r| - 1].path == "/" + Join(Segments(pathname), "/")
  {
    var segs := Segments(pathname);
    assert segs[..|segs|] == segs;
    assert Generate(pathname) == CrumbsOf(segs);
  }

  /** Dropping empty pieces from a list that starts with one empty piece and
      has no other. */
  lemma NonEmptyDropsLeadingEmpty(xs: seq<string>)
    requires forall i :: 0 <= i < |xs| ==> xs[i] != ""
    ensures NonEmpty([""] + xs) == xs
    decreases |xs|
  {
    assert ([""] + xs)[1..] == xs;
    NonEmptyKeepsAll(xs);
  }

  lemma {:induction false} NonEmptyKeepsAll(xs: seq<string>)
    requires forall i :: 0 <= i < |xs| ==> xs[i] != ""
    ensures NonEmpty(xs) == xs
    decreases |xs|
  {
    if |xs| > 0 {
      NonEmptyKeepsAll(xs[1..]);
      assert [xs[0]] + xs[1..] == xs;
    }
  }

  /** A path written as `'/'` followed by non-empty, slash-free segments
      yields exactly those segments, and its last crumb links back to it. */
  lemma NormalPathRoundTrip(segs: seq<string>)
    requires |segs| > 0
    requires forall i :: 0 <= i < |segs| ==> segs[i] != "" && '/' !in segs[i]
    ensures Segments("/" + Join(segs, "/")) == segs
  {
    var xs := [""] + segs;
    assert xs[1..] == segs;
    assert Join(xs, "/") == "" + "/" + Join(segs, "/");
    assert "" + "/" + Join(segs, "/") == "/" + Join(segs, "/");
    forall i | 0 <= i < |xs| ensures '/' !in xs[i] {
      if i > 0 { assert xs[i] == segs[i - 1]; }
    }
    SplitJoin(xs, '/');
    NonEmptyDropsLeadingEmpty(segs);
  }

  /** A detail page under a known section, such as `/devices/42`: the table
      label for the section, then the detail label for the id. */
  lemma SectionDetailCrumbs(section: string, id: string)
    requires section in LABELS && IsIdSegment(id)
    ensures CrumbsOf([section, id])
      == [Crumb("/" + section, Plain(LABELS[section])), Crumb("/" + section + "/" + id, Plain(DetailLabel))]
  {
    var segs := [section, id];
    assert segs[..1] == [section] && segs[..2] == segs;
    TableKeysAreNotIds(section);
    var r := CrumbsOf(segs);
    assert Join([section], "/") == section;
    assert r[0] == Crumb("/" + section, Plain(LABELS[section]));
    assert Join(segs, "/") == section + "/" + Join([id], "/") by {
      assert segs[1..] == [id];
    }
    assert "/" + (section + "/" + id) == "/" + section + "/" + id;
    assert r[1] == Crumb("/" + section + "/" + id, Plain(DetailLabel));
  }

  /** The id test ignores letter case, as the `/i` flag says, and its two
      alternatives never overlap (a UUID has dashes). */
  lemma IdTestIgnoresCase(s: string)
    ensures IsUuid(s) <==> IsUuid(Lower(s))
    ensures IsDigits(s) <==> IsDigits(Lower(s))
    ensures IsUuid(s) ==> !IsDigits(s)
  {
    if IsUuid(s) {
      assert !IsDigit(s[8]);
    }
  }
}
