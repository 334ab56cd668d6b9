/** The change-password form (`src/components/profile/ChangePasswordForm.tsx`):
    the rules on the current, new and repeated password, and the reset after
    a successful change. */
module ChangePasswordForm {
  import opened Wrappers
  import opened Text
  import opened FormRules

  datatype Values = Values(oldPassword: string, newPassword: string, confirmPassword: string)

  const Blank := Values("", "", "")

  /** The characters `[a-zA-Z\d@$!%*?&]` admits. */
  predicate PasswordChar(c: char) {
    IsAsciiLetter(c) || IsDigit(c) || c in "@$!%*?&"
  }

  /** `^(?=.*[a-zA-Z])(?=.*\d)[a-zA-Z\d@$!%*?&]+$`. */
  predicate Strong(p: string) {
    |p| > 0
    && (forall k :: 0 <= k < |p| ==> PasswordChar(p[k]))
    && (exists k :: 0 <= k < |p| && IsAsciiLetter(p[k]))
    && (exists k :: 0 <= k < |p| && IsDigit(p[k]))
  }

  const OldRules := [Required("请输入当前密码"), MinLength(6, "密码长度至少为6位")]

  const NewRules := [Required("请输入新密码"), MinLength(8, "新密码长度至少为8位"), Check(Strong, "密码必须包含字母和数字")]

  const MismatchMessage := "两次输入的密码不一致"

  /** The repeat must be given and, when given, equal the new password. */
  function ConfirmRules(newPassword: string): seq<Rule> {
    [Required("请确认新密码"), Check(v => v == newPassword, MismatchMessage)]
  }

  datatype Errors = Errors(oldPassword: seq<string>, newPassword: seq<string>, confirmPassword: seq<string>)

  function Validate(v: Values): (e: Errors)
    ensures e.oldPassword == [] <==> |v.oldPassword| >= 6
    ensures e.newPassword == [] <==> |v.newPassword| >= 8 && Strong(v.newPassword)
    ensures e.confirmPassword == [] <==> v.confirmPassword != "" && v.confirmPassword == v.newPassword
  {
    MinRules(v.oldPassword, "请输入当前密码", 6, "密码长度至少为6位");
    RequiredCheck(v.confirmPassword, "请确认新密码", w => w == v.newPassword, MismatchMessage);
    var rules := NewRules;
    assert rules[1..] == [MinLength(8, "新密码长度至少为8位"), Check(Strong, "密码必须包含字母和数字")];
    assert rules[1..][1..] == [Check(Strong, "密码必须包含字母和数字")];
    assert rules[1..][1..][1..] == [];
    assert Passes(v.newPassword, rules[2]) <==> v.newPassword == "" || Strong(v.newPassword);
    assert (forall k :: 0 <= k < |rules| ==> Passes(v.newPassword, rules[k]))
       <==> Passes(v.newPassword, rules[0]) && Passes(v.newPassword, rules[1]) && Passes(v.newPassword, rules[2]);
    Errors(Violations(v.oldPassword, OldRules), Violations(v.newPassword, NewRules),
           Violations(v.confirmPassword, ConfirmRules(v.newPassword)))
  }

  predicate Valid(e: Errors) {
    e.oldPassword == [] && e.newPassword == [] && e.confirmPassword == []
  }

  /** Eight letters fail the strength rule for want of a digit; adding one
      digit makes a valid new password. */
  lemma LettersAloneAreWeak(p: string)
    requires |p| >= 8 && forall k :: 0 <= k < |p| ==> IsAsciiLetter(p[k])
    ensures Validate(Values("", p, p)).newPassword != []
    ensures Validate(Values("", p + "1", p + "1")).newPassword == []
  {
    var q := p + "1";
    assert IsAsciiLetter(q[0]) && IsDigit(q[|p|]);
    forall k | 0 <= k < |q| ensures PasswordChar(q[k]) {
      if k < |p| { assert q[k] == p[k]; }
    }
  }

  datatype Submitted = Submitted(values: Values, sent: bool, message: Option<string>)

  const SuccessMessage := "密码修改成功"
  const FallbackFailure := "修改密码失败，请稍后重试"

  /** `onFinish` runs only for a valid form. The call's failure is its error
      message, `Some(None)` standing for a thrown non-`Error`; success
      clears every field. */
  function Submit(v: Values, failure: Option<Option<string>>): (s: Submitted)
    ensures !s.sent <==> !Valid(Validate(v))
    ensures !s.sent ==> s.values == v && s.message.None?
    ensures s.sent && failure.None? ==> s.values == Blank && s.message == Some(SuccessMessage)
    ensures s.sent && failure.Some? ==> s.values == v
    ensures s.sent && failure.Some? ==> s.message == Some(failure.value.GetOr(FallbackFailure))
  {
    if !Valid(Validate(v)) then Submitted(v, false, None)
    else match failure
      case None => Submitted(Blank, true, Some(SuccessMessage))
      case Some(m) => Submitted(v, true, Some(m.GetOr(FallbackFailure)))
  }

  /** The form after a successful change is blank, so submitting it again
      sends nothing. */
  lemma ResetFormIsInvalid(v: Values)
    requires Valid(Validate(v))
    ensures !Submit(Submit(v, None).values, None).sent
  {
    assert Validate(Blank).oldPassword != [];
  }
}
