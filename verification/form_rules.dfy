/** The field rules the console's forms declare (`required`, `min`, `max`,
    `pattern` and custom validators) and what a field's value must satisfy
    to pass them. Only `required` looks at an empty value; every other
    rule lets an empty value through. Lengths are counted in characters. */
module FormRules {

  datatype Rule =
    | Required(message: string)
    | MinLength(n: nat, message: string)
    | MaxLength(n: nat, message: string)
    /** A `pattern` or custom validator, as a predicate on the value. */
    | Check(holds: string -> bool, message: string)

  predicate Passes(value: string, rule: Rule) {
    match rule
    case Required(_) => value != ""
    case MinLength(n, _) => value == "" || |value| >= n
    case MaxLength(n, _) => value == "" || |value| <= n
    case Check(holds, _) => value == "" || holds(value)
  }

  /** The messages of the rules a value breaks, in declaration order. */
  function Violations(value: string, rules: seq<Rule>): (errors: seq<string>)
    ensures errors == [] <==> forall k :: 0 <= k < |rules| ==> Passes(value, rules[k])
    ensures |errors| <= |rules|
    ensures forall e :: e in errors <==> exists k :: 0 <= k < |rules| && !Passes(value, rules[k]) && rules[k].message == e
    decreases |rules|
  {
    if rules == [] then []
    else
      var rest := Violations(value, rules[1..]);
      assert forall k :: 1 <= k < |rules| ==> rules[k] == rules[1..][k - 1];
      if Passes(value, rules[0]) then rest else [rules[0].message] + rest
  }

  /** The reported messages are exactly those of the broken rules, one per
      broken rule and in declaration order: `failing` lists the broken
      rules' positions in increasing order and `errors[j]` is the message
      of rule `failing[j]`. */
  lemma ViolationsInOrder(value: string, rules: seq<Rule>) returns (failing: seq<nat>)
    ensures |failing| == |Violations(value, rules)|
    ensures forall j :: 0 <= j < |failing| ==>
      failing[j] < |rules| && Violations(value, rules)[j] == rules[failing[j]].message
    ensures forall j, j' :: 0 <= j < j' < |failing| ==> failing[j] < failing[j']
    ensures forall k :: 0 <= k < |rules| ==> (k in failing <==> !Passes(value, rules[k]))
  {
    failing := BrokenPositions(value, rules);
    var broken := Broken(value, rules);
    forall k | 0 <= k < |rules|
      ensures broken[k] == !Passes(value, rules[k])
    {
    }
  }

  /** Whether each rule is broken, and each rule's message, position by position. */
  function Broken(value: string, rules: seq<Rule>): (r: seq<bool>)
    ensures |r| == |rules| && forall k :: 0 <= k < |rules| ==> r[k] == !Passes(value, rules[k])
  {
    seq(|rules|, k requires 0 <= k < |rules| => !Passes(value, rules[k]))
  }

  function Messages(rules: seq<Rule>): (r: seq<string>)
    ensures |r| == |rules| && forall k :: 0 <= k < |rules| ==> r[k] == rules[k].message
  {
    seq(|rules|, k requires 0 <= k < |rules| => rules[k].message)
  }

  lemma {:induction false} BrokenPositions(value: string, rules: seq<Rule>) returns (failing: seq<nat>)
    ensures ListsBroken(Broken(value, rules), Messages(rules), Violations(value, rules), failing)
    decreases |rules|
  {
    if rules == [] {
      failing := [];
    } else {
      var rest := rules[1..];
      var tail := BrokenPositions(value, rest);
      var broken := Broken(value, rules);
      var messages := Messages(rules);
      assert broken[1..] == Broken(value, rest);
      assert messages[1..] == Messages(rest);
      var head: seq<string> := if broken[0] then [messages[0]] else [];
      assert Violations(value, rules) == head + Violations(value, rest);
      failing := PrependPosition(broken, messages, Violations(value, rest), tail);
    }
  }

  /** `failing` lists, in increasing order, exactly the positions `k` with
      `broken[k]`, and `errors` holds their messages in that order. */
  predicate ListsBroken(broken: seq<bool>, messages: seq<string>, errors: seq<string>, failing: seq<nat>)
    requires |broken| == |messages|
  {
    |failing| == |errors|
    && (forall j :: 0 <= j < |failing| ==> failing[j] < |broken| && errors[j] == messages[failing[j]])
    && (forall j, j' :: 0 <= j < j' < |failing| ==> failing[j] < failing[j'])
    && (forall k :: 0 <= k < |broken| ==> (k in failing <==> broken[k]))
  }

  /** One more rule in front: its position goes first when it is broken,
      and every later position moves one on. */
  lemma PrependPosition(broken: seq<bool>, messages: seq<string>, later: seq<string>, tail: seq<nat>)
    returns (failing: seq<nat>)
    requires |broken| == |messages| >= 1
    requires ListsBroken(broken[1..], messages[1..], later, tail)
    ensures ListsBroken(broken, messages, (if broken[0] then [messages[0]] else []) + later, failing)
  {
    var shifted := Shift(tail);
    ShiftedMembers(tail, shifted);
    var n := if broken[0] then 1 else 0;
    failing := (if broken[0] then [0] else []) + shifted;
    var errors := (if broken[0] then [messages[0]] else []) + later;
    forall j | n <= j < |failing|
      ensures failing[j] == tail[j - n] + 1 && errors[j] == later[j - n]
    {
    }
    forall k | 1 <= k < |broken|
      ensures broken[k] == broken[1..][k - 1]
    {
    }
  }

  /** Every position moved one place on, order kept. */
  function Shift(tail: seq<nat>): (shifted: seq<nat>)
    ensures |shifted| == |tail|
    ensures forall j :: 0 <= j < |tail| ==> shifted[j] == tail[j] + 1
  {
    seq(|tail|, j requires 0 <= j < |tail| => tail[j] + 1)
  }

  /** After the shift, `k + 1` is listed exactly when `k` was, and 0 is not. */
  lemma ShiftedMembers(tail: seq<nat>, shifted: seq<nat>)
    requires |shifted| == |tail| && forall j :: 0 <= j < |tail| ==> shifted[j] == tail[j] + 1
    ensures 0 !in shifted
    ensures forall k: nat :: k + 1 in shifted <==> k in tail
  {
    forall k: nat
      ensures k + 1 in shifted <==> k in tail
    {
      if k in tail {
        var j :| 0 <= j < |tail| && tail[j] == k;
        assert shifted[j] == k + 1;
      }
    }
  }

  /** A required field with a minimum and maximum length passes exactly when
      its length is within the bounds; an empty value reports only the
      required message. */
  lemma LengthRules(value: string, req: string, lo: nat, loMsg: string, hi: nat, hiMsg: string)
    requires lo > 0
    ensures Violations(value, [Required(req), MinLength(lo, loMsg), MaxLength(hi, hiMsg)]) == [] <==> lo <= |value| <= hi
    ensures value == "" ==> Violations(value, [Required(req), MinLength(lo, loMsg), MaxLength(hi, hiMsg)]) == [req]
  {
    var maxOnly := [MaxLength(hi, hiMsg)];
    var minMax := [MinLength(lo, loMsg), MaxLength(hi, hiMsg)];
    var rules := [Required(req), MinLength(lo, loMsg), MaxLength(hi, hiMsg)];
    assert maxOnly[1..] == [];
    var v3 := Violations(value, maxOnly);
    assert v3 == (if Passes(value, maxOnly[0]) then [] else [hiMsg]);
    assert minMax[1..] == maxOnly;
    var v2 := Violations(value, minMax);
    assert v2 == (if Passes(value, minMax[0]) then v3 else [loMsg] + v3);
    assert rules[1..] == minMax;
    assert Violations(value, rules) == (if value != "" then v2 else [req] + v2);
    if value == "" {
      assert v3 == [] && v2 == [];
    }
  }

  /** The same for a required field with only a minimum length. */
  lemma MinRules(value: string, req: string, lo: nat, loMsg: string)
    requires lo > 0
    ensures Violations(value, [Required(req), MinLength(lo, loMsg)]) == [] <==> |value| >= lo
    ensures value == "" ==> Violations(value, [Required(req), MinLength(lo, loMsg)]) == [req]
  {
    var rules := [Required(req), MinLength(lo, loMsg)];
    assert rules[1..] == [MinLength(lo, loMsg)];
    assert rules[1..][1..] == [];
  }

  /** A required field with one further check passes exactly when it is
      non-empty and the check holds. */
  lemma RequiredCheck(value: string, req: string, holds: string -> bool, msg: string)
    ensures Violations(value, [Required(req), Check(holds, msg)]) == [] <==> value != "" && holds(value)
  {
    var rules := [Required(req), Check(holds, msg)];
    assert rules[1..] == [Check(holds, msg)];
    assert rules[1..][1..] == [];
  }
}
