/**
 * The pure parts of the `query-models` handler of public/main.js: the `/v1/models` URL join, the
 * mapping of HTTP failures to messages, and the normalisation of the response body into a model list.
 * The request itself is an input: what `fetch` and `response.json()` produced.
 */
module ModelQuery {
  import opened Wrappers
  import opened Text
  import ModelDisplay

  /** A parsed JSON value (numbers are integers here). */
  datatype Json =
    | JNull
    | JBool(b: bool)
    | JNum(n: int)
    | JStr(s: string)
    | JArr(items: seq<Json>)
    | JObj(fields: map<string, Json>)

  /** One entry of the reply: `{ id: model.id, name: model.id, displayName }`; `None` is `undefined`. */
  datatype ModelInfo = ModelInfo(id: Option<Json>, name: Option<Json>, displayName: string)

  /** `{ success, message, models }` */
  datatype ModelsReply = ModelsReply(success: bool, message: string, models: seq<ModelInfo>)

  /** What the network step produced: a thrown error, or a response with its status and parsed body. */
  datatype FetchOutcome =
    | FetchError(code: Option<string>, name: string, message: string)
    | Response(status: nat, body: Result<Json>)

  const MissingCredentials: string := "缺少API密钥或地址"
  const InvalidKey: string := "API密钥无效或权限不足"
  const Forbidden: string := "API密钥权限不足"
  const NoModelEndpoint: string := "API地址无效或不支持模型查询"
  const CallFailedPrefix: string := "API调用失败: "
  const NoModelData: string := "连接成功，但未找到模型数据"
  const Unreachable: string := "无法连接到API服务器，请检查网络连接和API地址"
  const BadRequest: string := "API请求失败，请检查API地址格式"
  const QueryFailedPrefix: string := "查询模型失败: "

  /**
   * The messages V8 gives the `TypeError`s the normalisation can raise, written word by word so
   * that facts about their characters are checked one short piece at a time.
   */
  const ReadErrorPrefix: string := "Cannot read " + "properties " + "of null " + "(reading "
  const NullBodyError: string := ReadErrorPrefix + "'data')"
  const NullModelError: string := ReadErrorPrefix + "'id')"
  const NotAStringError: string := "modelId.split " + "is not " + "a function"

  /** `api_base.endsWith('/') ? api_base + 'v1/models' : api_base + '/v1/models'`. */
  function ModelsUrl(apiBase: string): (url: string)
    ensures StartsWith(url, apiBase)
    ensures EndsWith(url, "/v1/models")
    ensures |url| == |apiBase| + (if EndsWith(apiBase, "/") then 9 else 10)
  {
    if EndsWith(apiBase, "/") then
      assert apiBase + "v1/models" == apiBase[..|apiBase| - 1] + "/v1/models";
      apiBase + "v1/models"
    else apiBase + "/v1/models"
  }

  /** Decimal digits of a number, as template literals print it. */
  function NatToString(n: nat): (s: string)
    ensures |s| >= 1
    ensures forall i :: 0 <= i < |s| ==> '0' <= s[i] <= '9'
  {
    if n < 10 then [(n + '0' as int) as char] else NatToString(n / 10) + [(n % 10 + '0' as int) as char]
  }

  /** `"连接成功，找到 " + count + " 个可用模型"` */
  function FoundMessage(count: nat): string {
    "连接成功，找到 " + NatToString(count) + " 个可用模型"
  }

  /** The message for a response that is not `ok`: three statuses have their own text, every other one is quoted by number. */
  function StatusMessage(status: nat): (m: string)
    ensures status == 401 ==> m == InvalidKey
    ensures status == 403 ==> m == Forbidden
    ensures status == 404 ==> m == NoModelEndpoint
    ensures status != 401 && status != 403 && status != 404 ==>
      StartsWith(m, CallFailedPrefix) && m[|CallFailedPrefix|..] == NatToString(status)
  {
    if status == 401 then InvalidKey
    else if status == 403 then Forbidden
    else if status == 404 then NoModelEndpoint
    else
      var m := CallFailedPrefix + NatToString(status);
      assert m[..|CallFailedPrefix|] == CallFailedPrefix && m[|CallFailedPrefix|..] == NatToString(status);
      m
  }

  /** 401, 403, 404 and every other status get four different messages. */
  lemma StatusMessagesDistinct(other: nat)
    requires other != 401 && other != 403 && other != 404
    ensures var m := [StatusMessage(401), StatusMessage(403), StatusMessage(404), StatusMessage(other)];
      forall i, j :: 0 <= i < j < 4 ==> m[i] != m[j]
  {
    var o := StatusMessage(other);
    assert o[3] == '调';
    assert InvalidKey[5] != Forbidden[5];
  }

  /** `response.ok`: the status is in the range 200-299. */
  predicate IsOk(status: nat) {
    200 <= status <= 299
  }

  /** `s.includes(t)`. */
  predicate Contains(s: string, t: string) {
    StartsWith(s, t) || (s != [] && Contains(s[1..], t))
  }

  /** Whatever `s` includes is made of characters of `s`. */
  lemma {:induction false} ContainsChars(s: string, t: string)
    ensures Contains(s, t) ==> forall c :: c in t ==> c in s
    decreases |s|
  {
    if StartsWith(s, t) {
      forall c | c in t ensures c in s {
        var i :| 0 <= i < |t| && t[i] == c;
        assert s[i] == c;
      }
    } else if s != [] {
      ContainsChars(s[1..], t);
      if Contains(s[1..], t) {
        forall c | c in t ensures c in s {
          var i :| 0 <= i < |s[1..]| && s[1..][i] == c;
          assert s[i + 1] == c;
        }
      }
    }
  }

  /** The `catch` block: the reply for an error with the given `code`, `name` and `message`. */
  function CatchReply(code: Option<string>, name: string, message: string): (r: ModelsReply)
    ensures !r.success && r.models == []
  {
    if code == Some("ENOTFOUND") || code == Some("ECONNREFUSED") then ModelsReply(false, Unreachable, [])
    else if name == "TypeError" && Contains(message, "fetch") then ModelsReply(false, BadRequest, [])
    else ModelsReply(false, QueryFailedPrefix + message, [])
  }

  /** A `TypeError` whose message has no `h` cannot mention `fetch`, so it is reported with its own message. */
  lemma CatchTypeError(message: string)
    requires 'h' !in message
    ensures CatchReply(None, "TypeError", message) == ModelsReply(false, QueryFailedPrefix + message, [])
  {
    ContainsChars(message, "fetch");
    assert "fetch"[4] == 'h';
  }

  /** None of the three `TypeError` messages of the normalisation has an `h`. */
  lemma TypeErrorsLackH()
    ensures 'h' !in NullBodyError && 'h' !in NullModelError && 'h' !in NotAStringError
  {
  }

  /** Property access `v.key`: only objects carry the keys looked up here. */
  function Get(v: Json, key: string): Option<Json> {
    if v.JObj? && key in v.fields then Some(v.fields[key]) else None
  }

  /** JavaScript truthiness of a property value (`None` is `undefined`). */
  predicate Truthy(v: Option<Json>) {
    match v
    case None => false
    case Some(JNull) => false
    case Some(JBool(b)) => b
    case Some(JNum(n)) => n != 0
    case Some(JStr(s)) => s != ""
    case Some(_) => true
  }

  /**
   * The `if` chain that picks the models array: an array under `data` wins, then an array under
   * `models`, then the body itself when it is an array; a "list" object offers its truthy `data`
   * even when that is no array; otherwise there is none.
   */
  function SelectModels(data: Json): (r: Json)
    requires data != JNull
    ensures Get(data, "data").Some? && Get(data, "data").value.JArr? ==> r == Get(data, "data").value
    ensures !(Get(data, "data").Some? && Get(data, "data").value.JArr?) && Get(data, "models").Some? && Get(data, "models").value.JArr? ==>
      r == Get(data, "models").value
    ensures r.JArr? && r.items != [] ==>
      Get(data, "data") == Some(r) || Get(data, "models") == Some(r) || r == data
  {
    var d := Get(data, "data");
    var m := Get(data, "models");
    if Truthy(d) && d.value.JArr? then d.value
    else if Truthy(m) && m.value.JArr? then m.value
    else if data.JArr? then data
    else if Get(data, "object") == Some(JStr("list")) && Truthy(d) then d.value
    else JArr([])
  }

  /** `getModelDisplayName(model.id)` for any JSON id: falsy ids are unknown, non-strings make `split` throw. */
  function DisplayNameOf(id: Option<Json>): (r: Result<string>)
    ensures r.Failure? <==> Truthy(id) && !id.value.JStr?
    ensures r.Failure? ==> r.message == NotAStringError
    ensures !Truthy(id) ==> r == Success(ModelDisplay.UnknownModel)
    ensures id.Some? && id.value.JStr? ==> r == Success(ModelDisplay.GetModelDisplayName(id.value.s))
  {
    if !Truthy(id) then Success(ModelDisplay.UnknownModel)
    else if id.value.JStr? then Success(ModelDisplay.GetModelDisplayName(id.value.s))
    else Failure(NotAStringError)
  }

  /** `models.map(model => ({ id: model.id, name: model.id, displayName: ... }))`; the first throw aborts. */
  function ToModelInfos(items: seq<Json>): (r: Result<seq<ModelInfo>>)
    ensures r.Success? ==> |r.value| == |items| && forall i :: 0 <= i < |items| ==>
      && r.value[i].id == Get(items[i], "id") && r.value[i].name == r.value[i].id
      && Success(r.value[i].displayName) == DisplayNameOf(Get(items[i], "id"))
    ensures r.Success? <==> forall i :: 0 <= i < |items| ==> items[i] != JNull && DisplayNameOf(Get(items[i], "id")).Success?
    ensures r.Failure? && (forall i :: 0 <= i < |items| ==> items[i] != JNull) ==> r.message == NotAStringError
  {
    if items == [] then Success([])
    else if items[0] == JNull then Failure(NullModelError)
    else
      var id := Get(items[0], "id");
      match DisplayNameOf(id)
      case Failure(e) => Failure(e)
      case Success(shown) =>
        match ToModelInfos(items[1..])
        case Failure(e) => Failure(e)
        case Success(rest) => Success([ModelInfo(id, id, shown)] + rest)
  }

  /** Some entry of the array is `null`. */
  predicate HasNull(items: seq<Json>) {
    exists i :: 0 <= i < |items| && items[i] == JNull
  }

  /**
   * The body of an `ok` response turned into the reply. The debugging pass
   * `models.map(m => ({ id: m.id, name: m.name || m.id }))` runs over every entry first, so a
   * `null` anywhere throws before the naming map starts; only then can an id that is no string
   * make `split` throw.
   */
  function ReplyForBody(data: Json): (r: ModelsReply)
    ensures data == JNull ==> r == ModelsReply(false, QueryFailedPrefix + NullBodyError, [])
    ensures data != JNull && (!SelectModels(data).JArr? || SelectModels(data).items == []) ==>
      r == ModelsReply(true, NoModelData, [])
    ensures data != JNull && SelectModels(data).JArr? && SelectModels(data).items != [] ==>
      var items := SelectModels(data).items;
      if HasNull(items) then r == ModelsReply(false, QueryFailedPrefix + NullModelError, [])
      else if exists i :: 0 <= i < |items| && DisplayNameOf(Get(items[i], "id")).Failure? then
        r == ModelsReply(false, QueryFailedPrefix + NotAStringError, [])
      else
        && r.success && r.message == FoundMessage(|items|) && |r.models| == |items|
        && forall i :: 0 <= i < |items| ==>
          && r.models[i].id == Get(items[i], "id") && r.models[i].name == r.models[i].id
          && Success(r.models[i].displayName) == DisplayNameOf(Get(items[i], "id"))
  {
    TypeErrorsLackH();
    if data == JNull then
      CatchTypeError(NullBodyError);
      CatchReply(None, "TypeError", NullBodyError)
    else
      var models := SelectModels(data);
      if !models.JArr? || models.items == [] then ModelsReply(true, NoModelData, [])
      else if HasNull(models.items) then
        CatchTypeError(NullModelError);
        CatchReply(None, "TypeError", NullModelError)
      else
        match ToModelInfos(models.items)
        case Failure(e) =>
          CatchTypeError(NotAStringError);
          CatchReply(None, "TypeError", e)
        case Success(all) => ModelsReply(true, FoundMessage(|all|), all)
  }

  /**
   * The `query-models` handler: missing credentials are refused before any request; a failed
   * request, a status that is not `ok` and a malformed body all give `success: false` and no
   * models; every listed model is named by its id.
   */
  function QueryModels(apiKey: string, apiBase: string, fetched: FetchOutcome): (r: ModelsReply)
    ensures apiKey == "" || apiBase == "" ==> r == ModelsReply(false, MissingCredentials, [])
    ensures apiKey != "" && apiBase != "" && fetched.FetchError? ==>
      r == CatchReply(fetched.code, fetched.name, fetched.message)
    ensures apiKey != "" && apiBase != "" && fetched.Response? && !IsOk(fetched.status) ==>
      r == ModelsReply(false, StatusMessage(fetched.status), [])
    ensures apiKey != "" && apiBase != "" && fetched.Response? && IsOk(fetched.status) && fetched.body.Failure? ==>
      r == ModelsReply(false, QueryFailedPrefix + fetched.body.message, [])
    ensures apiKey != "" && apiBase != "" && fetched.Response? && IsOk(fetched.status) && fetched.body.Success? ==>
      r == ReplyForBody(fetched.body.value)
    ensures !r.success ==> r.models == []
    ensures forall i :: 0 <= i < |r.models| ==> r.models[i].name == r.models[i].id
    ensures r.success && r.models != [] ==> r.message == FoundMessage(|r.models|)
  {
    if apiKey == "" || apiBase == "" then ModelsReply(false, MissingCredentials, [])
    else
      match fetched
      case FetchError(code, name, message) => CatchReply(code, name, message)
      case Response(status, body) =>
        if !IsOk(status) then ModelsReply(false, StatusMessage(status), [])
        else
          match body
          case Failure(message) => CatchReply(None, "SyntaxError", message)
          case Success(data) => ReplyForBody(data)
  }

  /**
   * Models are listed only from an array under `data`, an array under `models`, or a bare array,
   * in that order of precedence, one model per entry carrying that entry's `id`; the
   * `object === 'list'` branch can never supply any, since its `data` is then not an array.
   */
  lemma ModelsComeFromArrays(data: Json)
    ensures var r := ReplyForBody(data);
      r.models != [] ==>
        var d := Get(data, "data");
        var m := Get(data, "models");
        var arr := if d.Some? && d.value.JArr? then d.value.items
          else if m.Some? && m.value.JArr? then m.value.items
          else data.items;
        && |r.models| == |arr|
        && forall i :: 0 <= i < |arr| ==> r.models[i].id == Get(arr[i], "id")
  {
  }

  /** An `ok` response whose body has no model array is a success with no models. */
  lemma NoArrayMeansEmptySuccess(data: Json)
    requires data != JNull && !data.JArr?
    requires !(Get(data, "data").Some? && Get(data, "data").value.JArr?)
    requires !(Get(data, "models").Some? && Get(data, "models").value.JArr?)
    ensures ReplyForBody(data) == ModelsReply(true, NoModelData, [])
  {
  }

  /** A `null` entry is reported as such even when an earlier entry's id is no string. */
  lemma NullEntryReportedFirst()
    ensures ReplyForBody(JObj(map["data" := JArr([JObj(map["id" := JNum(5)]), JNull])])) ==
      ModelsReply(false, QueryFailedPrefix + NullModelError, [])
  {
    var items := [JObj(map["id" := JNum(5)]), JNull];
    assert items[1] == JNull;
    assert HasNull(items);
  }
}
