/** The create/edit user dialog (`src/app/users/components/UserForm.tsx`):
    the field rules, the values it opens with, and what a submit does in
    each mode. Edit mode has no backend call yet: it only warns. The email
    format check belongs to the form library and is a parameter here. */
module UserForm {
  import opened Wrappers
  import opened Text
  import opened FormRules

  /** `UserListResponse`, reduced to what the form reads. */
  datatype Role = Role(rid: int, roleName: string)
  datatype UserRow = UserRow(uid: int, username: string, email: Option<string>, roles: seq<Role>)

  /** The form's fields; an untouched field is the empty string or list. */
  datatype Values = Values(username: string, password: string, email: string, phone: string,
                           roles: seq<int>, ugid: Option<int>)

  const UsernameRules := [Required("请输入用户名"), MinLength(3, "用户名至少3个字符"), MaxLength(50, "用户名最多50个字符")]
  const PasswordRules := [Required("请输入密码"), MinLength(6, "密码至少6个字符")]
  const PhoneMessage := "请输入有效的手机号"
  const RolesMessage := "请选择至少一个角色"

  /** `^1[3-9]\d{9}$`: eleven ASCII digits, a 1 and then 3 to 9. */
  predicate IsMobile(p: string) {
    |p| == 11 && p[0] == '1' && '3' <= p[1] <= '9' && forall k :: 2 <= k < 11 ==> IsDigit(p[k])
  }

  function EmailRules(isEmail: string -> bool): seq<Rule> {
    [Required("请输入电子邮箱"), Check(isEmail, "请输入有效的电子邮箱")]
  }

  /** The field errors of a submit; the password field exists only when
      creating. `isEmail` is the form library's email check. */
  datatype Errors = Errors(username: seq<string>, password: seq<string>, email: seq<string>,
                           phone: seq<string>, roles: seq<string>)

  function Validate(editMode: bool, v: Values, isEmail: string -> bool): (e: Errors)
    ensures e.username == [] <==> 3 <= |v.username| <= 50
    ensures e.password == [] <==> editMode || |v.password| >= 6
    ensures e.email == [] <==> v.email != "" && isEmail(v.email)
    ensures e.phone == [] <==> v.phone == "" || IsMobile(v.phone)
    ensures e.roles == [] <==> v.roles != []
  {
    LengthRules(v.username, "请输入用户名", 3, "用户名至少3个字符", 50, "用户名最多50个字符");
    MinRules(v.password, "请输入密码", 6, "密码至少6个字符");
    RequiredCheck(v.email, "请输入电子邮箱", isEmail, "请输入有效的电子邮箱");
    var phone := Violations(v.phone, [Check(IsMobile, PhoneMessage)]);
    assert [Check(IsMobile, PhoneMessage)][1..] == [];
    Errors(Violations(v.username, UsernameRules),
           if editMode then [] else Violations(v.password, PasswordRules),
           Violations(v.email, EmailRules(isEmail)),
           phone,
           if v.roles == [] then [RolesMessage] else [])
  }

  predicate Valid(e: Errors) {
    e.username == [] && e.password == [] && e.email == [] && e.phone == [] && e.roles == []
  }

  /** `isEditMode = !!initialValues` and the values the dialog opens with:
      an edited user's name, email and role ids, or just the group when
      creating. */
  function Prefill(initial: Option<UserRow>, userGroupId: Option<int>): (v: Values)
    ensures initial.Some? ==> v.username == initial.value.username && v.password == "" && v.ugid.None?
    ensures initial.Some? ==> |v.roles| == |initial.value.roles|
    ensures initial.Some? ==> forall k :: 0 <= k < |v.roles| ==> v.roles[k] == initial.value.roles[k].rid
    ensures initial.Some? ==> v.email == initial.value.email.GetOr("")
    ensures initial.None? ==> v == Values("", "", "", "", [], userGroupId)
  {
    match initial
    case Some(u) =>
      Values(u.username, "", u.email.GetOr(""), "", seq(|u.roles|, k requires 0 <= k < |u.roles| => u.roles[k].rid), None)
    case None => Values("", "", "", "", [], userGroupId)
  }

  /** An edited user whose stored name, email and roles satisfy the rules
      can be saved without touching the form: no password is asked for. */
  lemma EditPrefillIsValid(u: UserRow, isEmail: string -> bool)
    requires 3 <= |u.username| <= 50
    requires u.email.Some? && u.email.value != "" && isEmail(u.email.value)
    requires |u.roles| > 0
    ensures Valid(Validate(true, Prefill(Some(u), None), isEmail))
  {
  }

  /** A blank create form reports the required message of each required field. */
  lemma BlankCreateFormErrors(g: Option<int>, isEmail: string -> bool)
    ensures var e := Validate(false, Prefill(None, g), isEmail);
      e.username == ["请输入用户名"] && e.password == ["请输入密码"]
      && e.email == ["请输入电子邮箱"] && e.phone == [] && e.roles == [RolesMessage]
  {
    LengthRules("", "请输入用户名", 3, "用户名至少3个字符", 50, "用户名最多50个字符");
    MinRules("", "请输入密码", 6, "密码至少6个字符");
    var rules := EmailRules(isEmail);
    assert rules[1..] == [Check(isEmail, "请输入有效的电子邮箱")];
    assert rules[1..][1..] == [];
  }

  /** `CreateUserRequest`; the group id is passed on as given, even when
      there is none. */
  datatype CreateRequest = CreateRequest(ugid: Option<int>, username: string, password: string,
                                         email: string, phone: string, roles: seq<int>)

  datatype SubmitResult =
    | Rejected(errors: Errors)
    | EditNotImplemented
    | CreateSent(request: CreateRequest, failure: Option<string>)

  /** `handleSubmit`. `createFailure` is the create call's error message if it
      fails. `onSuccess` runs after an edit warning or a successful create. */
  function Submit(editMode: bool, v: Values, userGroupId: Option<int>, isEmail: string -> bool,
                  createFailure: Option<string>): (r: SubmitResult)
    ensures r.Rejected? <==> !Valid(Validate(editMode, v, isEmail))
    ensures r.EditNotImplemented? <==> editMode && Valid(Validate(editMode, v, isEmail))
    ensures r.CreateSent? ==>
              r.request == CreateRequest(userGroupId, v.username, v.password, v.email, v.phone, v.roles)
              && r.failure == createFailure
  {
    var e := Validate(editMode, v, isEmail);
    if !Valid(e) then Rejected(e)
    else if editMode then EditNotImplemented
    else CreateSent(CreateRequest(userGroupId, v.username, v.password, v.email, v.phone, v.roles), createFailure)
  }

  predicate CallsOnSuccess(r: SubmitResult) {
    r.EditNotImplemented? || (r.CreateSent? && r.failure.None?)
  }

  /** Edit mode never sends a create request, yet a valid edit still reports
      success to the page; a create request always carries a valid
      username, password and a phone that is empty or a mobile number. */
  lemma SubmitOutcomes(editMode: bool, v: Values, g: Option<int>, isEmail: string -> bool, f: Option<string>)
    ensures editMode ==> !Submit(editMode, v, g, isEmail, f).CreateSent?
    ensures editMode && Valid(Validate(editMode, v, isEmail)) ==> CallsOnSuccess(Submit(editMode, v, g, isEmail, f))
    ensures var r := Submit(editMode, v, g, isEmail, f);
      r.CreateSent? ==> 3 <= |r.request.username| <= 50 && |r.request.password| >= 6
                        && (r.request.phone == "" || IsMobile(r.request.phone)) && r.request.roles != []
  {
  }
}
