/** The API client (`src/utils/api.ts`): how a response body in the
    backend's `{code, msg, data}` envelope is unwrapped, how a failed request
    becomes an error message, how the two compose inside the client's
    `try`/`catch`, and how a service client prefixes its URLs. The transport
    is abstracted: a call is given either the body of a 2xx response or the
    failure axios raised. */
module Api {
  import opened Wrappers
  import opened Text

  /** A JSON-shaped JavaScript value; numbers are integers here. */
  datatype Json =
    | JUndefined
    | JNull
    | JBool(b: bool)
    | JNum(n: int)
    | JStr(s: string)
    | JArr(items: seq<Json>)
    | JObj(fields: map<string, Json>)

  /** JavaScript truthiness. */
  predicate Truthy(v: Json) {
    match v
    case JUndefined => false
    case JNull => false
    case JBool(b) => b
    case JNum(n) => n != 0
    case JStr(s) => s != ""
    case _ => true
  }

  /** `String(v)`, as used by `new Error(v)` and template strings. */
  function ToText(v: Json): string {
    match v
    case JUndefined => "undefined"
    case JNull => "null"
    case JBool(b) => if b then "true" else "false"
    case JNum(n) => IntToString(n)
    case JStr(s) => s
    case JArr(items) => ItemsText(items)
    case JObj(_) => "[object Object]"
  }

  /** `Array.prototype.join(',')`, where null and undefined items print as nothing. */
  function ItemsText(items: seq<Json>): string {
    if items == [] then ""
    else
      var first := if items[0].JUndefined? || items[0].JNull? then "" else ToText(items[0]);
      if |items| == 1 then first else first + "," + ItemsText(items[1..])
  }

  /** `v?.key` for the keys the client reads (`data`, `message`, `msg`):
      a key the object does not carry reads as `undefined`, as does any key
      of a non-object. This holds for own keys only; an inherited
      `Object.prototype` name would read as that member instead, and the
      client never asks for one. */
  function Field(v: Json, key: string): (r: Json)
    ensures v.JObj? && key in v.fields ==> r == v.fields[key]
    ensures !(v.JObj? && key in v.fields) ==> r == JUndefined
  {
    if v.JObj? && key in v.fields then v.fields[key] else JUndefined
  }

  // ---------------------------------------------------------------------
  // envelope

  const InvalidBody := "无效的响应数据"
  const RequestFailed := "请求失败"

  /** A body carrying both `code` and `msg` is an envelope. */
  predicate IsEnvelope(body: Json) {
    body.JObj? && "code" in body.fields && "msg" in body.fields
  }

  predicate SuccessCode(code: Json) {
    code == JNum(200) || code == JNum(0)
  }

  /** The body handling in `get`, `post`, `put` and `delete`, which is the
      same in all four: an envelope with code 200 or 0 yields its `data`,
      another envelope fails with its `msg` (or a generic text), any other
      object or array is returned as it is, and anything else is refused. */
  function Unwrap(body: Json): (r: Result<Json>)
    ensures r.Ok? <==>
              (IsEnvelope(body) && SuccessCode(body.fields["code"])) || ((body.JObj? || body.JArr?) && !IsEnvelope(body))
    ensures IsEnvelope(body) && SuccessCode(body.fields["code"]) ==> r == Ok(Field(body, "data"))
    ensures (body.JObj? || body.JArr?) && !IsEnvelope(body) ==> r == Ok(body)
    ensures IsEnvelope(body) && !SuccessCode(body.fields["code"]) && Truthy(body.fields["msg"]) ==>
              r == Err(ToText(body.fields["msg"]))
    ensures IsEnvelope(body) && !SuccessCode(body.fields["code"]) && !Truthy(body.fields["msg"]) ==>
              r == Err(RequestFailed)
    ensures !(body.JObj? || body.JArr?) ==> r == Err(InvalidBody)
  {
    if Truthy(body) && (body.JObj? || body.JArr?) then
      if IsEnvelope(body) then
        var env := body.fields;
        if SuccessCode(env["code"]) then Ok(Field(body, "data"))
        else Err(if Truthy(env["msg"]) then ToText(env["msg"]) else RequestFailed)
      else Ok(body)
    else Err(InvalidBody)
  }

  /** The envelope the backend sends on success. */
  function Envelope(code: int, msg: string, data: Json): (body: Json)
    ensures IsEnvelope(body)
  {
    JObj(map["code" := JNum(code), "msg" := JStr(msg), "data" := data])
  }

  /** Unwrapping a success envelope gives back exactly the data it carries. */
  lemma UnwrapSuccess(msg: string, data: Json)
    ensures Unwrap(Envelope(200, msg, data)) == Ok(data)
    ensures Unwrap(Envelope(0, msg, data)) == Ok(data)
  {
  }

  /** Unwrapping an error envelope gives its message, or the generic text
      when the message is empty. */
  lemma UnwrapFailure(code: int, msg: string, data: Json)
    requires code != 200 && code != 0
    ensures Unwrap(Envelope(code, msg, data)) == Err(if msg == "" then RequestFailed else msg)
  {
    var body := Envelope(code, msg, data);
    assert body.fields["code"] == JNum(code) && body.fields["msg"] == JStr(msg);
  }

  // ---------------------------------------------------------------------
  // errors

  /** What axios rejects with: a non-2xx response, a request that got no
      response, or a request that could not be made (including any error
      thrown inside the client's own `try`). */
  datatype Failure =
    | Status(status: int, data: Json)
    | NoResponse
    | Setup(message: string)

  const Unauthorized := "未授权，请重新登录"
  const Forbidden := "权限不足，无法访问"
  const ServerErrorPrefix := "服务器错误: "
  const NoResponseText := "服务器无响应，请检查网络连接"
  const SetupPrefix := "请求配置错误: "
  const UnknownError := "未知错误"

  /** `data?.message || data?.msg || '未知错误'`, as text. */
  function Detail(data: Json): (d: string)
    ensures Truthy(Field(data, "message")) ==> d == ToText(Field(data, "message"))
    ensures !Truthy(Field(data, "message")) && Truthy(Field(data, "msg")) ==> d == ToText(Field(data, "msg"))
    ensures !Truthy(Field(data, "message")) && !Truthy(Field(data, "msg")) ==> d == UnknownError
  {
    if Truthy(Field(data, "message")) then ToText(Field(data, "message"))
    else if Truthy(Field(data, "msg")) then ToText(Field(data, "msg"))
    else UnknownError
  }

  /** `handleApiError`: the message of the error it throws. */
  function ErrorMessage(f: Failure): (m: string)
    ensures f.Status? && f.status == 401 ==> m == Unauthorized
    ensures f.Status? && f.status == 403 ==> m == Forbidden
    ensures f.Status? && f.status == 500 ==> m == ServerErrorPrefix + Detail(f.data)
    ensures f.Status? && f.status !in {401, 403, 500} ==>
              m == "请求失败 (" + IntToString(f.status) + "): " + Detail(f.data)
    ensures f.NoResponse? ==> m == NoResponseText
    ensures f.Setup? ==> m == SetupPrefix + f.message
  {
    match f
    case Status(status, data) =>
      if status == 401 then Unauthorized
      else if status == 403 then Forbidden
      else if status == 500 then ServerErrorPrefix + Detail(data)
      else "请求失败 (" + IntToString(status) + "): " + Detail(data)
    case NoResponse => NoResponseText
    case Setup(message) => SetupPrefix + message
  }

  /** The six kinds of message a caller can see. */
  datatype Kind = KUnauthorized | KForbidden | KServer | KOtherStatus | KNoResponse | KSetup

  function KindOf(f: Failure): Kind {
    match f
    case Status(s, _) =>
      if s == 401 then KUnauthorized else if s == 403 then KForbidden
      else if s == 500 then KServer else KOtherStatus
    case NoResponse => KNoResponse
    case Setup(_) => KSetup
  }

  /** Reading a message's kind off its opening characters. */
  function Classify(m: string): Kind {
    if m == Unauthorized then KUnauthorized
    else if m == Forbidden then KForbidden
    else if m == NoResponseText then KNoResponse
    else if IsPrefix(ServerErrorPrefix, m) then KServer
    else if IsPrefix("请求失败 (", m) then KOtherStatus
    else KSetup
  }

  lemma PrefixOfConcat(p: string, rest: string)
    ensures IsPrefix(p, p + rest)
  {
    assert (p + rest)[..|p|] == p;
  }

  /** Two texts that differ at position `i` (within both) cannot share a
      prefix through `i`. */
  lemma DifferAt(p: string, q: string, rest: string, i: nat)
    requires i < |p| && i < |q| && p[i] != q[i]
    ensures !IsPrefix(p, q + rest) && q + rest != p
  {
    assert (q + rest)[i] == q[i];
  }

  /** The message determines what went wrong: classifying the message of
      any failure gives back that failure's kind. */
  lemma MessageRevealsKind(f: Failure)
    ensures Classify(ErrorMessage(f)) == KindOf(f)
  {
    var m := ErrorMessage(f);
    match f
    case Status(s, data) =>
      if s == 500 {
        var rest := Detail(data);
        PrefixOfConcat(ServerErrorPrefix, rest);
        DifferAt(Unauthorized, ServerErrorPrefix, rest, 0);
        DifferAt(Forbidden, ServerErrorPrefix, rest, 0);
        DifferAt(NoResponseText, ServerErrorPrefix, rest, 3);
      } else if s != 401 && s != 403 {
        var rest := IntToString(s) + "): " + Detail(data);
        assert m == "请求失败 (" + rest;
        PrefixOfConcat("请求失败 (", rest);
        DifferAt(Unauthorized, "请求失败 (", rest, 0);
        DifferAt(Forbidden, "请求失败 (", rest, 0);
        DifferAt(NoResponseText, "请求失败 (", rest, 0);
        DifferAt(ServerErrorPrefix, "请求失败 (", rest, 0);
      }
    case NoResponse =>
    case Setup(message) =>
      DifferAt(Unauthorized, SetupPrefix, message, 0);
      DifferAt(Forbidden, SetupPrefix, message, 0);
      DifferAt(NoResponseText, SetupPrefix, message, 0);
      DifferAt(ServerErrorPrefix, SetupPrefix, message, 0);
      DifferAt("请求失败 (", SetupPrefix, message, 2);
  }

  // ---------------------------------------------------------------------
  // a whole call

  /** What the transport produced: the body of a 2xx response, or a failure. */
  datatype Outcome = Body(body: Json) | Raised(failure: Failure)

  /** A call through `get`/`post`/`put`/`delete`: the body is unwrapped
      inside the `try`, so an envelope error is caught again and reported
      as a setup error. */
  function Call(o: Outcome): (r: Result<Json>)
    ensures o.Raised? ==> r == Err(ErrorMessage(o.failure))
    ensures o.Body? && Unwrap(o.body).Ok? ==> r == Unwrap(o.body)
    ensures o.Body? && Unwrap(o.body).Err? ==> r == Err(SetupPrefix + Unwrap(o.body).message)
  {
    match o
    case Raised(f) => Err(ErrorMessage(f))
    case Body(body) =>
      match Unwrap(body)
      case Ok(v) => Ok(v)
      case Err(m) => Err(ErrorMessage(Setup(m)))
  }

  /** A backend error in a 2xx envelope reaches the caller as a setup
      error, never as a server error. */
  lemma EnvelopeErrorLooksLikeSetup(code: int, msg: string, data: Json)
    requires code != 200 && code != 0
    ensures Call(Body(Envelope(code, msg, data))) == Err(SetupPrefix + (if msg == "" then RequestFailed else msg))
    ensures Classify(Call(Body(Envelope(code, msg, data))).message) == KSetup
  {
    UnwrapFailure(code, msg, data);
    MessageRevealsKind(Setup(if msg == "" then RequestFailed else msg));
  }

  // ---------------------------------------------------------------------
  // service clients

  datatype Service = AuthService | CoreService | MessageService

  function Prefix(s: Service): (p: string)
    ensures |p| > 1 && p[0] == '/'
  {
    match s
    case AuthService => "/auth/api"
    case CoreService => "/core/api"
    case MessageService => "/message/api/v1"
  }

  /** `ServiceApi`: every URL is sent with the service's prefix in front. */
  function ServiceUrl(s: Service, url: string): (full: string)
    ensures IsPrefix(Prefix(s), full) && full[|Prefix(s)|..] == url
  {
    PrefixOfConcat(Prefix(s), url);
    Prefix(s) + url
  }

  /** The prefixes differ in their second character, so a sent URL names
      exactly one service and one service-relative URL. */
  lemma ServiceUrlInjective(a: Service, u: string, b: Service, v: string)
    requires ServiceUrl(a, u) == ServiceUrl(b, v)
    ensures a == b && u == v
  {
    assert ServiceUrl(a, u)[1] == Prefix(a)[1];
    assert ServiceUrl(b, v)[1] == Prefix(b)[1];
  }
}
