/**
 * The relay's proxy endpoint `POST /api/green-api/:idInstance/:method/:apiToken`:
 * validation of the route parameters, construction of the request to the upstream
 * messaging API, and classification of what comes back (a response or an exception)
 * into the status and JSON body sent to the browser.
 */
module Relay {
  import opened Wrappers
  import opened Text
  import Json

  /** Base URL of the upstream messaging API. */
  const UpstreamBase: string := "https://api.green-api.com"

  /** The route's path parameters. */
  datatype Params = Params(idInstance: string, apiMethod: string, apiToken: string)

  /** The two fields of the request body the handler reads; `None` is a field left out. */
  datatype RequestBody = RequestBody(httpMethod: Option<string>, data: Option<Json.Value>)

  /** The request sent upstream. `body == Some(v)` stands for the JSON text of `v`;
      `None` means the request has no body. */
  datatype Outbound = Outbound(url: string, httpMethod: string, contentType: string, body: Option<Json.Value>)

  /** What the upstream call produced. A `Response` carries the status (0 for a missing
      one), the `content-type` header if any and the body text. An `Exception` is anything
      thrown while fetching or while parsing a JSON body, with its `message` and `code`. */
  datatype Upstream =
    | Response(status: nat, contentType: Option<string>, text: string)
    | Exception(message: string, code: Option<string>)

  /** The `error` field of the replies the relay synthesises. */
  datatype Category = InvalidRequest | InvalidCredentials | InvalidApiResponse | NetworkError | InternalServerError

  /** What the relay sends back: either the upstream JSON body with the upstream status, or a
      synthesised error object `{error, message, details?}` with a status of its own. */
  datatype Reply =
    | Relayed(status: nat, payload: string)
    | Failed(status: nat, category: Category, message: string, details: Option<string>)

  /** The text of the `error` field for each category. */
  function CategoryText(c: Category): (t: string)
    ensures t != ""
  {
    match c
    case InvalidRequest => "Неверный запрос"
    case InvalidCredentials => "Неверные учетные данные"
    case InvalidApiResponse => "Неверный ответ API"
    case NetworkError => "Сетевая ошибка"
    case InternalServerError => "Внутренняя ошибка сервера"
  }

  const MissingParamsMessage: string :=
    "Отсутствуют обязательные параметры: idInstance, method или apiToken"
  const PlaceholderMessage: string :=
    "Пожалуйста, введите действительные idInstance и ApiTokenInstance из вашего аккаунта GREEN-API"
  const BadJsonMessage: string :=
    "GREEN-API вернул неверный ответ. Пожалуйста, проверьте ваши учетные данные (idInstance и ApiTokenInstance)."
  const BadJsonDetails: string :=
    "Убедитесь, что вы используете реальные учетные данные из вашего аккаунта GREEN-API, а не заполнители."
  const NetworkMessage: string :=
    "Невозможно подключиться к GREEN-API. Пожалуйста, проверьте ваше интернет-соединение."

  /** The message of a non-JSON reply; it quotes the upstream status as received. */
  function NonJsonMessage(status: nat): (m: string)
    ensures Includes(m, DecimalString(status))
  {
    var before := "GREEN-API вернул не-JSON ответ. Статус: ";
    var after := ". Обычно это означает неверные учетные данные или эндпоинт API.";
    IncludesMiddle(before, DecimalString(status), after);
    before + DecimalString(status) + after
  }

  // ---------------------------------------------------------------------------
  // the route

  /** The path parameters Express extracts for the route
      `/api/green-api/:idInstance/:method/:apiToken`: the path must have exactly these
      segments, and each parameter must be a non-empty segment. */
  function RouteParams(path: string): (r: Option<Params>)
    ensures r.Some? ==> r.value.idInstance != "" && r.value.apiMethod != "" && r.value.apiToken != ""
    ensures r.Some? ==> '/' !in r.value.idInstance && '/' !in r.value.apiMethod && '/' !in r.value.apiToken
  {
    var segs := Split(path, '/');
    if |segs| == 6 && segs[0] == "" && segs[1] == "api" && segs[2] == "green-api"
       && segs[3] != "" && segs[4] != "" && segs[5] != ""
    then Some(Params(segs[3], segs[4], segs[5]))
    else None
  }

  // ---------------------------------------------------------------------------
  // validation and the outbound request

  /** The upstream URL `<base>/waInstance<idInstance>/<method>/<apiToken>`. */
  function UpstreamUrl(p: Params): (u: string)
    ensures StartsWith(u, UpstreamBase + "/waInstance" + p.idInstance + "/")
    ensures |p.apiToken| < |u| && u[|u| - |p.apiToken|..] == p.apiToken
  {
    UpstreamBase + "/waInstance" + p.idInstance + "/" + p.apiMethod + "/" + p.apiToken
  }

  /** `req.body.httpMethod || 'GET'` */
  function OutboundMethod(httpMethod: Option<string>): (m: string)
    ensures m != ""
    ensures m == "GET" || httpMethod == Some(m)
    ensures httpMethod.Some? && httpMethod.value != "" ==> m == httpMethod.value
  {
    if httpMethod.Some? && httpMethod.value != "" then httpMethod.value else "GET"
  }

  /** The request options: the method, the JSON content type, and a body only when
      `req.body.data` is truthy. */
  function OutboundRequest(p: Params, body: RequestBody): (o: Outbound)
    ensures o.url == UpstreamUrl(p) && o.contentType == "application/json"
    ensures o.httpMethod == OutboundMethod(body.httpMethod)
    ensures o.body.Some? ==> o.body == body.data && Json.Truthy(o.body.value)
  {
    var data := if body.data.Some? && Json.Truthy(body.data.value) then body.data else None;
    Outbound(UpstreamUrl(p), OutboundMethod(body.httpMethod), "application/json", data)
  }

  /** The validation steps in order: missing parameters, then placeholder credentials.
      `Failure` is the reply sent at once, without calling upstream; `Success` is the
      request to send. */
  function Prepare(p: Params, body: RequestBody): (r: Result<Outbound, Reply>)
    ensures r.Failure? ==> r.error.Failed? && r.error.status == 400 && r.error.details.None?
    ensures r.Failure? ==> r.error.category == InvalidRequest || r.error.category == InvalidCredentials
    ensures r.Success? ==> r.value == OutboundRequest(p, body)
  {
    if p.idInstance == "" || p.apiMethod == "" || p.apiToken == "" then
      Failure(Failed(400, InvalidRequest, MissingParamsMessage, None))
    else if p.idInstance == "123" || p.apiToken == "asd" then
      Failure(Failed(400, InvalidCredentials, PlaceholderMessage, None))
    else
      Success(OutboundRequest(p, body))
  }

  // ---------------------------------------------------------------------------
  // classification of the upstream outcome

  /** `text.substring(0, 200) + (text.length > 200 ? '...' : '')` */
  function Details(text: string): (d: string)
    ensures |d| <= 203
    ensures |text| <= 200 ==> d == text
    ensures |text| > 200 ==> |d| == 203 && d[..200] == text[..200] && d[200..] == "..."
  {
    if |text| > 200 then text[..200] + "..." else text
  }

  /** A content type the relay treats as JSON: present and containing `application/json`. */
  predicate IsJsonContentType(contentType: Option<string>): (b: bool)
    ensures b <==> contentType.Some? && exists i :: OccursAt(contentType.value, "application/json", i)
  {
    if contentType.None? then false
    else
      IncludesIff(contentType.value, "application/json");
      Includes(contentType.value, "application/json")
  }

  /** The reply for an upstream response. */
  function ClassifyResponse(status: nat, contentType: Option<string>, text: string): (r: Reply)
    ensures r.Relayed? <==> IsJsonContentType(contentType)
    ensures r.Relayed? ==> r.status == status && r.payload == text
    ensures r.Failed? ==> r.status > 0 && r.category == InvalidApiResponse
    ensures r.Failed? ==> r.details.Some? && |r.details.value| <= 203
  {
    if !IsJsonContentType(contentType) then
      Failed(if status == 0 then 500 else status, InvalidApiResponse, NonJsonMessage(status), Some(Details(text)))
    else
      Relayed(status, text)
  }

  /** The reply for an exception, by a priority chain on its message and code. */
  function ClassifyException(message: string, code: Option<string>): (r: Reply)
    ensures r.Failed? && (r.status == 400 || r.status == 503 || r.status == 500)
    ensures r.Failed? ==> (r.status == 400 <==> r.category == InvalidApiResponse)
    ensures r.Failed? ==> (r.status == 503 <==> r.category == NetworkError)
    ensures r.Failed? ==> (r.status == 500 <==> r.category == InternalServerError)
  {
    if Includes(message, "invalid json response body") then
      Failed(400, InvalidApiResponse, BadJsonMessage, Some(BadJsonDetails))
    else if code == Some("ENOTFOUND") || code == Some("ECONNREFUSED") then
      Failed(503, NetworkError, NetworkMessage, Some(message))
    else
      Failed(500, InternalServerError, message, None)
  }

  function Classify(outcome: Upstream): Reply {
    match outcome
    case Response(status, contentType, text) => ClassifyResponse(status, contentType, text)
    case Exception(message, code) => ClassifyException(message, code)
  }

  /** The whole handler. `fetch` stands for the upstream API: it maps the outbound request
      to its outcome. */
  function Handle(p: Params, body: RequestBody, fetch: Outbound -> Upstream): (r: Reply)
    ensures Prepare(p, body).Failure? <==>
      r.Failed? && (r.category == InvalidRequest || r.category == InvalidCredentials)
    ensures r.Relayed? ==>
      var outcome := fetch(OutboundRequest(p, body));
      && Prepare(p, body).Success?
      && outcome.Response? && IsJsonContentType(outcome.contentType)
      && r.status == outcome.status && r.payload == outcome.text
  {
    match Prepare(p, body)
    case Failure(reply) => reply
    case Success(request) => Classify(fetch(request))
  }

  // ---------------------------------------------------------------------------
  // properties of the handler

  /** A missing parameter is reported before anything else, whatever the other parameters,
      the body or the upstream would give. */
  lemma MissingParamsFirst(p: Params, body: RequestBody, fetch: Outbound -> Upstream)
    requires p.idInstance == "" || p.apiMethod == "" || p.apiToken == ""
    ensures Handle(p, body, fetch) == Failed(400, InvalidRequest, MissingParamsMessage, None)
  {
  }

  /** With all three parameters present, the placeholder id `123` or token `asd` is refused
      whatever the method, the body or the upstream would give. */
  lemma PlaceholderRejected(p: Params, body: RequestBody, fetch: Outbound -> Upstream)
    requires p.idInstance != "" && p.apiMethod != "" && p.apiToken != ""
    requires p.idInstance == "123" || p.apiToken == "asd"
    ensures Handle(p, body, fetch) == Failed(400, InvalidCredentials, PlaceholderMessage, None)
  {
  }

  /** The request goes upstream exactly when the parameters are present and are not the
      placeholders. */
  lemma ForwardedIff(p: Params, body: RequestBody)
    ensures Prepare(p, body).Success? <==>
      p.idInstance != "" && p.apiMethod != "" && p.apiToken != ""
      && p.idInstance != "123" && p.apiToken != "asd"
  {
  }

  /** A request refused by validation makes no upstream call: its reply is the same for every
      upstream. */
  lemma RefusalIgnoresUpstream(p: Params, body: RequestBody, f: Outbound -> Upstream, g: Outbound -> Upstream)
    requires Prepare(p, body).Failure?
    ensures Handle(p, body, f) == Handle(p, body, g)
    ensures Handle(p, body, f).Failed? && Handle(p, body, f).status == 400
  {
  }

  /** A request that passes validation is classified by what upstream does with exactly the
      request built from its parameters and body. */
  lemma ForwardedReply(p: Params, body: RequestBody, fetch: Outbound -> Upstream)
    requires Prepare(p, body).Success?
    ensures Handle(p, body, fetch) == Classify(fetch(OutboundRequest(p, body)))
  {
  }

  /** When no parameter contains `/`, the path segments of the upstream URL give the three
      parameters back, the instance id behind the `waInstance` prefix. */
  lemma UpstreamUrlSegments(p: Params)
    requires '/' !in p.idInstance && '/' !in p.apiMethod && '/' !in p.apiToken
    ensures Split(UpstreamUrl(p), '/') ==
      ["https:", "", "api.green-api.com", "waInstance" + p.idInstance, p.apiMethod, p.apiToken]
  {
    var parts := ["https:", "", "api.green-api.com", "waInstance" + p.idInstance, p.apiMethod, p.apiToken];
    JoinOfSix("https:", "", "api.green-api.com", "waInstance" + p.idInstance, p.apiMethod, p.apiToken, '/');
    assert "https:" + "/" + "" + "/" + "api.green-api.com" + "/" + "waInstance" == UpstreamBase + "/waInstance";
    assert Join(parts, '/') == UpstreamUrl(p);
    assert '/' !in "https:" && '/' !in "api.green-api.com" && '/' !in "waInstance";
    SplitJoin(parts, '/');
  }

  /** The outbound method is the one asked for when it is a non-empty string, and `GET`
      otherwise; it is never empty. */
  lemma OutboundMethodChoice(httpMethod: Option<string>)
    ensures OutboundMethod(httpMethod) != ""
    ensures OutboundMethod(httpMethod) == "GET" || httpMethod == Some(OutboundMethod(httpMethod))
    ensures httpMethod.Some? && httpMethod.value != "" ==> OutboundMethod(httpMethod) == httpMethod.value
    ensures httpMethod.None? || httpMethod == Some("") ==> OutboundMethod(httpMethod) == "GET"
  {
  }

  /** Every outbound request declares a JSON content type, and carries a body exactly when
      the caller's `data` is truthy; that body is the caller's data. */
  lemma OutboundBodyIff(p: Params, body: RequestBody)
    ensures OutboundRequest(p, body).contentType == "application/json"
    ensures OutboundRequest(p, body).body.Some? <==> body.data.Some? && Json.Truthy(body.data.value)
    ensures OutboundRequest(p, body).body.Some? ==> OutboundRequest(p, body).body == body.data
  {
  }

  /** A response that is not JSON becomes an "invalid API response" with the upstream status
      (500 in place of a missing one), a message quoting the status as received, and the
      first 200 characters of the text as details. */
  lemma NonJsonReply(status: nat, contentType: Option<string>, text: string)
    requires !IsJsonContentType(contentType)
    ensures var r := ClassifyResponse(status, contentType, text);
      && r.Failed? && r.category == InvalidApiResponse
      && r.status == (if status == 0 then 500 else status) && r.status > 0
      && Includes(r.message, DecimalString(status))
      && r.details == Some(Details(text))
  {
  }

  /** A JSON response is relayed as it is, with its status, success or not. */
  lemma JsonReplyVerbatim(status: nat, contentType: string, text: string)
    requires Includes(contentType, "application/json")
    ensures ClassifyResponse(status, Some(contentType), text) == Relayed(status, text)
  {
  }

  /** A content type with parameters after the media type still counts as JSON. */
  lemma CharsetIsJson()
    ensures IsJsonContentType(Some("application/json; charset=utf-8"))
  {
    assert StartsWith("application/json; charset=utf-8", "application/json");
  }

  /** The test for JSON is case-sensitive: `Application/JSON` is treated as not JSON. */
  lemma UpperCaseIsNotJson()
    ensures !IsJsonContentType(Some("Application/JSON"))
  {
    var s, t := "Application/JSON", "application/json";
    IncludesIff(s, t);
    forall i | 0 <= i ensures !OccursAt(s, t, i) {
      if i == 0 && |t| <= |s| {
        assert s[i..i + |t|][0] == 'A';
      }
    }
  }

  /** The details of a non-JSON reply extend a prefix of the body text: the whole text when
      it has at most 200 characters, else its first 200 followed by `...`. */
  lemma DetailsPrefix(text: string)
    ensures var d := Details(text);
      var n := if |text| <= 200 then |text| else 200;
      && |d| == (if |text| <= 200 then n else n + 3)
      && d[..n] == text[..n]
  {
  }

  /** Every exception becomes exactly one of three replies. A message mentioning an invalid
      JSON body wins over the error code; only then do `ENOTFOUND` and `ECONNREFUSED` give a
      network error that carries the message as details; anything else is an internal error
      whose message is the exception's message. */
  lemma ExceptionClassification(message: string, code: Option<string>)
    ensures var r := ClassifyException(message, code);
      && r.Failed?
      && ((r.status == 400 && r.category == InvalidApiResponse)
          || (r.status == 503 && r.category == NetworkError)
          || (r.status == 500 && r.category == InternalServerError))
      && (r.category == InvalidApiResponse <==> Includes(message, "invalid json response body"))
      && (r.category == NetworkError <==>
            !Includes(message, "invalid json response body")
            && (code == Some("ENOTFOUND") || code == Some("ECONNREFUSED")))
      && (r.category == NetworkError ==> r.details == Some(message))
      && (r.category == InternalServerError ==> r.message == message && r.details.None?)
  {
  }

  /** A refused connection reported with a message of its own is a network error. */
  lemma ConnectionRefused(message: string)
    requires !Includes(message, "invalid json response body")
    ensures Classify(Exception(message, Some("ECONNREFUSED"))).status == 503
    ensures Classify(Exception(message, Some("ECONNREFUSED"))).category == NetworkError
  {
  }

  /** The `error` field of a synthesised reply names its category unambiguously: no two
      categories share a text, so the browser can tell them apart. */
  lemma CategoryTextIdentifies(c1: Category, c2: Category)
    ensures CategoryText(c1) == CategoryText(c2) ==> c1 == c2
  {
  }
}
