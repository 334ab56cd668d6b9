/** The add/edit dialog for terminal groups
    (`src/components/dialogs/TerminalGroupDialog.tsx`): the form it opens
    with, the checks and payload of a submit, and the parent picker's
    option list built from the group tree. */
module TerminalGroupDialog {
  import opened Wrappers
  import opened Text
  import opened GroupTree

  // ---------------------------------------------------------------------
  // form

  datatype Form = Form(name: string, description: string, parentId: Option<string>, error: Option<string>)

  /** The form when the dialog opens: the edited group's fields, or blank
      fields under the requested parent. */
  function Open(groupToEdit: Option<TerminalGroup>, parentGroupId: Option<string>): (f: Form)
    ensures f.error.None?
    ensures groupToEdit.None? ==> f.name == "" && f.description == "" && f.parentId == parentGroupId
    ensures groupToEdit.Some? ==>
              f.name == groupToEdit.value.name && f.parentId == groupToEdit.value.info.parentId
    ensures groupToEdit.Some? ==>
              (groupToEdit.value.info.description.Some? ==> f.description == groupToEdit.value.info.description.value)
    ensures groupToEdit.Some? && groupToEdit.value.info.description.None? ==> f.description == ""
  {
    match groupToEdit
    case Some(g) => Form(g.name, g.info.description.GetOr(""), g.info.parentId, None)
    case None => Form("", "", parentGroupId, None)
  }

  const BlankNameError := "组名不能为空"

  /** The body sent to create or update. */
  datatype Payload = Payload(name: string, description: string, parentId: Option<string>)

  datatype Submission = Invalid(error: string) | Save(payload: Payload)

  /** `selectedParentId || null`: an empty id means no parent. */
  function ParentOrNull(parentId: Option<string>): (r: Option<string>)
    ensures r.Some? <==> parentId.Some? && parentId.value != ""
    ensures r.Some? ==> r == parentId
  {
    if parentId.Some? && parentId.value != "" then parentId else None
  }

  /** Submit: a name that is blank after trimming is refused with no save;
      otherwise the trimmed fields are saved. */
  function Submit(f: Form): (s: Submission)
    ensures s.Invalid? <==> forall k :: 0 <= k < |f.name| ==> IsJsSpace(f.name[k])
    ensures s.Invalid? ==> s.error == BlankNameError
    ensures s.Save? ==> s.payload.name != "" && Trim(s.payload.name) == s.payload.name
    ensures s.Save? ==> Trim(s.payload.description) == s.payload.description
    ensures s.Save? ==> s.payload.name == Trim(f.name) && s.payload.description == Trim(f.description)
    ensures s.Save? ==> s.payload.parentId == ParentOrNull(f.parentId)
  {
    TrimEmpty(f.name);
    var name := Trim(f.name);
    if name == "" then Invalid(BlankNameError)
    else
      TrimIdempotent(f.name);
      TrimIdempotent(f.description);
      Save(Payload(name, Trim(f.description), ParentOrNull(f.parentId)))
  }

  /** The dialog after a submit and the save it triggers. `saveError` is the
      save's failure message, if it failed. */
  datatype Dialog = Dialog(form: Form, open: bool, successReported: bool)

  function AfterSubmit(f: Form, saveError: Option<string>): (d: Dialog)
    ensures Submit(f).Invalid? ==> d == Dialog(f.(error := Some(BlankNameError)), true, false)
    ensures Submit(f).Save? && saveError.Some? ==> d.open && !d.successReported && d.form.error == saveError
    ensures Submit(f).Save? && saveError.None? ==> !d.open && d.successReported
  {
    match Submit(f)
    case Invalid(e) => Dialog(f.(error := Some(e)), true, false)
    case Save(_) =>
      if saveError.Some? then Dialog(f.(error := saveError), true, false)
      else Dialog(f, false, true)
  }

  /** The dialog closes, reporting success, exactly when the name is valid and
      the save succeeded; otherwise it stays open with the entered fields, so
      submitting again sends the same thing. */
  lemma DialogClosesIffSaved(f: Form, saveError: Option<string>)
    ensures var d := AfterSubmit(f, saveError);
      (!d.open <==> Submit(f).Save? && saveError.None?) && (d.successReported <==> !d.open)
    ensures var d := AfterSubmit(f, saveError);
      d.open ==> d.form.(error := f.error) == f && Submit(d.form) == Submit(f)
  {
  }

  /** Opening a group for editing and saving it untouched sends back its own
      fields, provided they are already trimmed and the parent id is not the
      empty string. */
  lemma EditUnchangedRoundTrip(g: TerminalGroup)
    requires Trim(g.name) == g.name != ""
    requires g.info.description.Some? ==> Trim(g.info.description.value) == g.info.description.value
    requires g.info.parentId != Some("")
    ensures Submit(Open(Some(g), None)) ==
            Save(Payload(g.name, g.info.description.GetOr(""), g.info.parentId))
  {
    var f := Open(Some(g), None);
    assert Trim(f.description) == f.description by {
      if g.info.description.None? {
        TrimUntouched("");
      }
    }
    TrimEmpty(g.name);
  }

  // ---------------------------------------------------------------------
  // the parent picker

  const Nbsp: char := '\U{00A0}'
  const Branch := "└─ "

  function Repeat(c: char, n: nat): (r: string)
    ensures |r| == n && forall k :: 0 <= k < n ==> r[k] == c
  {
    if n == 0 then "" else [c] + Repeat(c, n - 1)
  }

  /** An option's text: two non-breaking spaces per level, a branch mark below
      the top level, then the group's name. */
  function Label(level: nat, name: string): (text: string)
    ensures |text| == 2 * level + (if level > 0 then 3 else 0) + |name|
    ensures forall k :: 0 <= k < 2 * level ==> text[k] == Nbsp
    ensures level > 0 ==> text[2 * level] == '└'
    ensures text[|text| - |name|..] == name
  {
    Repeat(Nbsp, 2 * level) + (if level > 0 then Branch else "") + name
  }

  /** Leading non-breaking spaces of a string. */
  function LeadingNbsp(s: string): nat {
    if |s| > 0 && s[0] == Nbsp then 1 + LeadingNbsp(s[1..]) else 0
  }

  lemma {:induction false} LeadingNbspOfPrefix(n: nat, t: string)
    requires |t| > 0 ==> t[0] != Nbsp
    ensures LeadingNbsp(Repeat(Nbsp, n) + t) == n
  {
    if n > 0 {
      assert (Repeat(Nbsp, n) + t)[1..] == Repeat(Nbsp, n - 1) + t;
      LeadingNbspOfPrefix(n - 1, t);
    } else {
      assert Repeat(Nbsp, n) + t == t;
    }
  }

  /** The label can be read back: its leading blanks give the level, and
      stripping the indent (and branch mark) gives the name, as long as the
      name does not itself start with a non-breaking space. */
  lemma LabelReadBack(level: nat, name: string)
    requires |name| > 0 ==> name[0] != Nbsp
    ensures LeadingNbsp(Label(level, name)) == 2 * level
    ensures Label(level, name)[2 * level + (if level > 0 then 3 else 0)..] == name
  {
    var t := (if level > 0 then Branch else "") + name;
    assert Label(level, name) == Repeat(Nbsp, 2 * level) + t;
    LeadingNbspOfPrefix(2 * level, t);
  }

  datatype ParentOption = ParentOption(id: string, level: nat, text: string, disabled: bool)

  /** The edit-mode rule: the edited group itself, and any group whose
      (non-empty) path starts with the edited group's (non-empty) path. */
  predicate Excluded(g: TerminalGroup, editing: Option<TerminalGroup>) {
    editing.Some? &&
    (g.id == editing.value.id
     || (g.info.path != "" && editing.value.info.path != "" && IsPrefix(editing.value.info.path, g.info.path)))
  }

  function OptionFor(g: TerminalGroup, level: nat, editing: Option<TerminalGroup>): (o: ParentOption)
    ensures o.id == g.id && o.level == level && o.text == Label(level, g.name)
    ensures o.disabled == Excluded(g, editing)
  {
    ParentOption(g.id, level, Label(level, g.name), Excluded(g, editing))
  }

  /** `buildTreeOptions`: each group followed by the options of its children
      one level deeper (only when it has at least one). */
  function GroupOptions(g: TerminalGroup, level: nat, editing: Option<TerminalGroup>): seq<ParentOption> {
    [OptionFor(g, level, editing)]
    + match g.children
      case Subgroups(cs) => if |cs| > 0 then ForestOptions(cs, level + 1, editing) else []
      case NoSubgroups => []
  }

  function ForestOptions(groups: seq<TerminalGroup>, level: nat, editing: Option<TerminalGroup>): seq<ParentOption> {
    if groups == [] then [] else GroupOptions(groups[0], level, editing) + ForestOptions(groups[1..], level, editing)
  }

  function OptionIds(opts: seq<ParentOption>): seq<string> {
    if opts == [] then [] else [opts[0].id] + OptionIds(opts[1..])
  }

  lemma {:induction false} OptionIdsAppend(a: seq<ParentOption>, b: seq<ParentOption>)
    ensures OptionIds(a + b) == OptionIds(a) + OptionIds(b)
  {
    if a != [] {
      assert (a + b)[0] == a[0] && (a + b)[1..] == a[1..] + b;
      OptionIdsAppend(a[1..], b);
    } else {
      assert a + b == b;
    }
  }

  /** The options list every group once, in preorder: as many options as
      groups, with the ids in the tree's preorder. */
  lemma {:induction false} OptionsArePreorder(groups: seq<TerminalGroup>, level: nat, editing: Option<TerminalGroup>)
    ensures |ForestOptions(groups, level, editing)| == ForestGroupCount(groups)
    ensures OptionIds(ForestOptions(groups, level, editing)) == ForestGroupIds(groups)
    decreases groups
  {
    if groups != [] {
      var g := groups[0];
      OptionsArePreorder(groups[1..], level, editing);
      OptionIdsAppend(GroupOptions(g, level, editing), ForestOptions(groups[1..], level, editing));
      match g.children
      case NoSubgroups =>
        assert OptionIds(GroupOptions(g, level, editing)) == [g.id];
      case Subgroups(cs) =>
        OptionIdsAppend([OptionFor(g, level, editing)], GroupOptions(g, level, editing)[1..]);
        if |cs| > 0 {
          OptionsArePreorder(cs, level + 1, editing);
        } else {
          assert cs == [];
          assert GroupIds(g) == [g.id] + ForestGroupIds(cs) == [g.id];
          assert OptionIds(GroupOptions(g, level, editing)) == [g.id];
        }
    }
  }

  /** Only the ids of options at exactly level `l`. */
  function IdsAtLevel(opts: seq<ParentOption>, l: nat): seq<string> {
    if opts == [] then []
    else (if opts[0].level == l then [opts[0].id] else []) + IdsAtLevel(opts[1..], l)
  }

  lemma {:induction false} IdsAtLevelAppend(a: seq<ParentOption>, b: seq<ParentOption>, l: nat)
    ensures IdsAtLevel(a + b, l) == IdsAtLevel(a, l) + IdsAtLevel(b, l)
  {
    if a != [] {
      assert (a + b)[0] == a[0] && (a + b)[1..] == a[1..] + b;
      IdsAtLevelAppend(a[1..], b, l);
    } else {
      assert a + b == b;
    }
  }

  lemma {:induction false} IdsAtLevelNone(opts: seq<ParentOption>, l: nat)
    requires forall k :: 0 <= k < |opts| ==> opts[k].level != l
    ensures IdsAtLevel(opts, l) == []
  {
    if opts != [] {
      IdsAtLevelNone(opts[1..], l);
    }
  }

  function Ids(groups: seq<TerminalGroup>): (r: seq<string>)
    ensures |r| == |groups| && forall k :: 0 <= k < |groups| ==> r[k] == groups[k].id
  {
    if groups == [] then [] else [groups[0].id] + Ids(groups[1..])
  }

  /** The options of a group: its own, then (when it has children) theirs
      one level deeper. */
  lemma GroupOptionsSplit(g: TerminalGroup, level: nat, editing: Option<TerminalGroup>) returns (below: seq<ParentOption>)
    ensures GroupOptions(g, level, editing) == [OptionFor(g, level, editing)] + below
    ensures below == [] || (g.children.Subgroups? && below == ForestOptions(g.children.groups, level + 1, editing))
  {
    below := GroupOptions(g, level, editing)[1..];
  }

  /** Every option built from `groups` at `level` is at that level or
      deeper, and the list starts at `level`. */
  lemma {:induction false} LevelsFromStart(groups: seq<TerminalGroup>, level: nat, editing: Option<TerminalGroup>)
    ensures var o := ForestOptions(groups, level, editing);
      (forall k :: 0 <= k < |o| ==> o[k].level >= level) && (|o| > 0 ==> o[0].level == level)
    decreases groups
  {
    if groups != [] {
      var g := groups[0];
      LevelsFromStart(groups[1..], level, editing);
      var below := GroupOptionsSplit(g, level, editing);
      if below != [] {
        LevelsFromStart(g.children.groups, level + 1, editing);
      }
    }
  }

  /** Going down the list, each option is at most one level deeper than the
      one before it. */
  lemma {:induction false} LevelsStepByOne(groups: seq<TerminalGroup>, level: nat, editing: Option<TerminalGroup>)
    ensures var o := ForestOptions(groups, level, editing);
      forall k :: 0 <= k < |o| - 1 ==> o[k + 1].level <= o[k].level + 1
    decreases groups
  {
    if groups != [] {
      var g := groups[0];
      var rest := ForestOptions(groups[1..], level, editing);
      LevelsStepByOne(groups[1..], level, editing);
      LevelsFromStart(groups[1..], level, editing);
      var below := GroupOptionsSplit(g, level, editing);
      if below != [] {
        LevelsStepByOne(g.children.groups, level + 1, editing);
        LevelsFromStart(g.children.groups, level + 1, editing);
      }
      var head := [OptionFor(g, level, editing)] + below;
      var o := head + rest;
      assert o == ForestOptions(groups, level, editing);
      forall k | 0 <= k < |o| - 1
        ensures o[k + 1].level <= o[k].level + 1
      {
        if k + 1 < |head| {
          if k > 0 {
            assert o[k] == below[k - 1] && o[k + 1] == below[k];
          }
        } else if k + 1 > |head| {
          assert o[k] == rest[k - |head|] && o[k + 1] == rest[k + 1 - |head|];
        } else {
          assert o[k + 1] == rest[0];
        }
      }
    }
  }

  /** The options at exactly the starting level are the given groups, in order. */
  lemma {:induction false} TopLevelIsGiven(groups: seq<TerminalGroup>, level: nat, editing: Option<TerminalGroup>)
    ensures IdsAtLevel(ForestOptions(groups, level, editing), level) == Ids(groups)
    decreases groups
  {
    if groups != [] {
      var g := groups[0];
      var rest := ForestOptions(groups[1..], level, editing);
      TopLevelIsGiven(groups[1..], level, editing);
      var below := GroupOptionsSplit(g, level, editing);
      if below != [] {
        LevelsFromStart(g.children.groups, level + 1, editing);
        assert forall k :: 0 <= k < |below| ==> below[k].level >= level + 1;
      }
      IdsAtLevelNone(below, level);
      var own := [OptionFor(g, level, editing)];
      assert own[1..] == [];
      assert IdsAtLevel(own, level) == [g.id];
      IdsAtLevelAppend(own, below, level);
      IdsAtLevelAppend(own + below, rest, level);
      assert Ids(groups) == [g.id] + Ids(groups[1..]);
    }
  }

  /** In create mode no option is disabled. */
  lemma {:induction false} CreateModeEnablesAll(groups: seq<TerminalGroup>, level: nat)
    ensures forall o :: o in ForestOptions(groups, level, None) ==> !o.disabled
    decreases groups
  {
    if groups != [] {
      CreateModeEnablesAll(groups[1..], level);
      match groups[0].children
      case NoSubgroups =>
      case Subgroups(cs) =>
        if |cs| > 0 {
          CreateModeEnablesAll(cs, level + 1);
        }
    }
  }

  /** Paths nest: each child's path starts with its parent's path, all the
      way down. */
  predicate Nested(g: TerminalGroup) {
    match g.children
    case NoSubgroups => true
    case Subgroups(cs) => forall k :: 0 <= k < |cs| ==> IsPrefix(g.info.path, cs[k].info.path) && Nested(cs[k])
  }

  /** Every path in the subtree starts with `p`. */
  predicate Under(p: string, g: TerminalGroup) {
    IsPrefix(p, g.info.path)
    && match g.children
       case NoSubgroups => true
       case Subgroups(cs) => forall k :: 0 <= k < |cs| ==> Under(p, cs[k])
  }

  lemma PrefixTransitive(a: string, b: string, c: string)
    requires IsPrefix(a, b) && IsPrefix(b, c)
    ensures IsPrefix(a, c)
  {
    assert c[..|a|] == c[..|b|][..|a|];
  }

  lemma {:induction false} NestedIsUnder(p: string, g: TerminalGroup)
    requires IsPrefix(p, g.info.path) && Nested(g)
    ensures Under(p, g)
    decreases g
  {
    match g.children
    case NoSubgroups =>
    case Subgroups(cs) =>
      forall k | 0 <= k < |cs| ensures Under(p, cs[k]) {
        PrefixTransitive(p, g.info.path, cs[k].info.path);
        NestedIsUnder(p, cs[k]);
      }
  }

  lemma {:induction false} UnderIsDisabled(groups: seq<TerminalGroup>, level: nat, e: TerminalGroup)
    requires e.info.path != ""
    requires forall k :: 0 <= k < |groups| ==> Under(e.info.path, groups[k])
    ensures forall o :: o in ForestOptions(groups, level, Some(e)) ==> o.disabled
    decreases groups
  {
    if groups != [] {
      UnderIsDisabled(groups[1..], level, e);
      var g := groups[0];
      assert Under(e.info.path, g);
      assert OptionFor(g, level, Some(e)).disabled;
      match g.children
      case NoSubgroups =>
      case Subgroups(cs) =>
        if |cs| > 0 {
          UnderIsDisabled(cs, level + 1, e);
        }
    }
  }

  /** When editing a group whose paths nest, the picker disables the group
      and every one of its descendants, so none can become its parent. */
  lemma EditedSubtreeDisabled(e: TerminalGroup, level: nat)
    requires e.info.path != "" && Nested(e)
    ensures forall o :: o in GroupOptions(e, level, Some(e)) ==> o.disabled
  {
    assert IsPrefix(e.info.path, e.info.path);
    NestedIsUnder(e.info.path, e);
    UnderIsDisabled([e], level, Some(e).value);
    assert ForestOptions([e], level, Some(e)) == GroupOptions(e, level, Some(e)) + [];
  }

  /** The test is on text, not on path steps: a sibling whose path merely
      begins with the edited path's text is disabled as well. */
  lemma TextualPrefixDisablesSibling(e: TerminalGroup, s: TerminalGroup, level: nat)
    requires e.info.path == "/1/2" && s.info.path == "/1/23" && s.id != e.id
    ensures OptionFor(s, level, Some(e)).disabled
  {
    assert s.info.path[..|e.info.path|] == e.info.path;
  }
}
