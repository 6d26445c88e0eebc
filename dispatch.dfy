/**
 * Request assembly of `APIClient.prototype.request` and `mergeQueryParams`,
 * stated as functions of the client's configuration and the request's
 * parameter buckets, plus the rule that settles the returned promise.
 * The imperative versions that the client runs are in module Client.
 */
module Dispatch {
  import opened Wrappers
  import opened JsValues
  import opened JsObjects
  import opened Foreign
  import opened Signing

  const DefaultDomain := "http://demo.heclouds.com/baasapi/"
  const QueryParametersKey := "$queryParameters"

  /** The fields an APIClient holds after construction. */
  datatype ClientConfig = ClientConfig(
    debug: JsValue,
    accessKey: JsValue,
    accessId: JsValue,
    domain: JsValue,
    rejectUnauthorized: bool,
    ca: JsValue)

  /** The https agent options handed to fetch. */
  datatype Agent = Agent(rejectUnauthorized: bool, ca: JsValue)

  /** The arguments of the `fetch(uri, {method, headers, agent, body})` call; None is `undefined`. */
  datatype FetchCall = FetchCall(
    uri: string,
    httpMethod: string,
    headers: map<string, JsValue>,
    agent: Option<Agent>,
    body: Option<string>)

  /** `/^https:\/\//.test(domain)` */
  predicate IsHttps(domain: JsValue)
  {
    StartsWith(ToStr(domain), "https://")
  }

  /** `method.toUpperCase() === 'GET' || method.toUpperCase() === 'HEAD'` */
  predicate IsGetOrHead(requestMethod: string)
  {
    Upper(requestMethod) == "GET" || Upper(requestMethod) == "HEAD"
  }

  // ---- mergeQueryParams ----

  /** The query map after `mergeQueryParams(parameters, queryParameters)`. */
  function MergedQuery(parameters: map<string, JsValue>, queryParameters: map<string, JsValue>): (r: map<string, JsValue>)
    ensures !Truthy(Lookup(parameters, QueryParametersKey)) ==> r == queryParameters
    ensures var extra := PlainEntries(Lookup(parameters, QueryParametersKey));
            && r.Keys == queryParameters.Keys + extra.Keys
            && (forall k :: k in extra ==> r[k] == extra[k])
            && (forall k :: k in queryParameters && k !in extra ==> r[k] == queryParameters[k])
  {
    var extra := Lookup(parameters, QueryParametersKey);
    if Truthy(extra) then queryParameters + PlainEntries(extra) else queryParameters
  }

  /**
   * `mergeQueryParams`: copies every entry of `parameters.$queryParameters`
   * into `queryParameters` in place, one key at a time.
   */
  method MergeQueryParams(parameters: map<string, JsValue>, queryParameters: Dict)
    modifies queryParameters
    ensures queryParameters.entries == MergedQuery(parameters, old(queryParameters.entries))
  {
    var extra := Lookup(parameters, QueryParametersKey);
    if Truthy(extra) {
      var entries := PlainEntries(extra);
      var names := entries.Keys;
      while names != {}
        invariant names <= entries.Keys
        invariant queryParameters.entries == old(queryParameters.entries) + (entries - names)
        decreases names
      {
        var parameterName :| parameterName in names;
        queryParameters.entries := queryParameters.entries[parameterName := entries[parameterName]];
        names := names - {parameterName};
      }
      assert entries - names == entries;
    }
  }

  // ---- the body, the uri and the agent of a request ----

  /** `Object.assign({}, body, form)`: the form fields override the body's fields. */
  function FormPayload(body: JsValue, form: map<string, JsValue>): map<string, JsValue>
  {
    PlainEntries(body) + form
  }

  /** The payload holds the keys of both, and a form value wins over a body value. */
  lemma FormPayloadCharacterised(body: JsValue, form: map<string, JsValue>)
    ensures var r := FormPayload(body, form);
            && r.Keys == PlainEntries(body).Keys + form.Keys
            && (forall k :: k in form ==> r[k] == form[k])
            && (forall k :: k in PlainEntries(body) && k !in form ==> r[k] == PlainEntries(body)[k])
  {
  }

  /** An empty body contributes nothing to the form payload. */
  lemma FormOverEmptyBody(form: map<string, JsValue>)
    ensures FormPayload(Obj(map[]), form) == form
  {
    var r := FormPayload(Obj(map[]), form);
    assert r.Keys == form.Keys;
    assert forall k :: k in r ==> r[k] == form[k];
  }

  /** The body handed to fetch. */
  function RequestBody(requestMethod: string, body: JsValue, form: map<string, JsValue>, lib: Lib): Option<string>
  {
    if IsGetOrHead(requestMethod) then None
    else if |form| > 0 then Some(lib.querystringStringify(FormPayload(body, form)))
    else Some(lib.jsonStringify(body))
  }

  /** No body exactly for GET and HEAD; otherwise the urlencoded form when there is one, else JSON of the body. */
  lemma RequestBodyCharacterised(requestMethod: string, body: JsValue, form: map<string, JsValue>, lib: Lib)
    ensures var r := RequestBody(requestMethod, body, form, lib);
            && (r.None? <==> IsGetOrHead(requestMethod))
            && (r.Some? && |form| > 0 ==> r.value == lib.querystringStringify(FormPayload(body, form)))
            && (r.Some? && |form| == 0 ==> r.value == lib.jsonStringify(body))
  {
  }

  /** The uri handed to fetch: domain and url, and a query string only when there are query parameters. */
  function RequestUri(domain: JsValue, url: string, queryParameters: map<string, JsValue>, lib: Lib): string
  {
    var base := ToStr(domain) + url;
    if |queryParameters| > 0 then base + "?" + lib.querystringStringify(queryParameters) else base
  }

  /** The uri starts with domain and url, and carries `?` and the query string exactly when there are query parameters. */
  lemma RequestUriCharacterised(domain: JsValue, url: string, queryParameters: map<string, JsValue>, lib: Lib)
    ensures var r := RequestUri(domain, url, queryParameters, lib);
            && StartsWith(r, ToStr(domain) + url)
            && (|queryParameters| == 0 <==> r == ToStr(domain) + url)
            && (|queryParameters| > 0 ==> r[|ToStr(domain) + url|..] == "?" + lib.querystringStringify(queryParameters))
  {
    var base := ToStr(domain) + url;
    var r := RequestUri(domain, url, queryParameters, lib);
    if |queryParameters| > 0 {
      assert r == base + ("?" + lib.querystringStringify(queryParameters));
      assert r[..|base|] == base;
      assert |r| > |base|;
    }
  }

  /** The https agent: only for an https domain, carrying the client's certificate options. */
  function RequestAgent(cfg: ClientConfig): Option<Agent>
  {
    if IsHttps(cfg.domain) then Some(Agent(cfg.rejectUnauthorized, cfg.ca)) else None
  }

  /** An agent exactly for an https domain, carrying rejectUnauthorized and ca. */
  lemma RequestAgentCharacterised(cfg: ClientConfig)
    ensures var r := RequestAgent(cfg);
            && (r.Some? <==> IsHttps(cfg.domain))
            && (r.Some? ==> r.value.rejectUnauthorized == cfg.rejectUnauthorized && r.value.ca == cfg.ca)
  {
  }

  /** The auth code a request carries: path and query parameters signed, query winning, sessionToken removed. */
  function RequestAuthCode(cfg: ClientConfig, requestMethod: string, pathParameters: map<string, JsValue>,
                           queryParameters: map<string, JsValue>, lib: Lib, env: Env): string
  {
    AuthCode(requestMethod, cfg.accessKey, cfg.accessId, Undefined,
             SignedParams(pathParameters, queryParameters), Undefined, lib, env)
  }

  /** Everything `request` hands to fetch. */
  function RequestCall(cfg: ClientConfig, requestMethod: string, url: string, pathParameters: map<string, JsValue>,
                       body: JsValue, headers: map<string, JsValue>, queryParameters: map<string, JsValue>,
                       form: map<string, JsValue>, lib: Lib, env: Env): FetchCall
  {
    FetchCall(
      RequestUri(cfg.domain, url, queryParameters, lib),
      requestMethod,
      headers[AuthCodeHeader := Str(RequestAuthCode(cfg, requestMethod, pathParameters, queryParameters, lib, env))],
      RequestAgent(cfg),
      RequestBody(requestMethod, body, form, lib))
  }

  /** A request call is assembled from its uri, the headers with the auth code written, its agent and its body. */
  lemma RequestCallAssembled(cfg: ClientConfig, requestMethod: string, url: string, pathParameters: map<string, JsValue>,
                             body: JsValue, headers: map<string, JsValue>, queryParameters: map<string, JsValue>,
                             form: map<string, JsValue>, lib: Lib, env: Env, sent: map<string, JsValue>)
    requires sent == headers[AuthCodeHeader := Str(RequestAuthCode(cfg, requestMethod, pathParameters, queryParameters, lib, env))]
    ensures RequestCall(cfg, requestMethod, url, pathParameters, body, headers, queryParameters, form, lib, env)
         == FetchCall(RequestUri(cfg.domain, url, queryParameters, lib), requestMethod, sent,
                      RequestAgent(cfg), RequestBody(requestMethod, body, form, lib))
  {
  }

  /** The parts of a request call, each by the function that computes it. */
  lemma RequestCallParts(cfg: ClientConfig, requestMethod: string, url: string, pathParameters: map<string, JsValue>,
                         body: JsValue, headers: map<string, JsValue>, queryParameters: map<string, JsValue>,
                         form: map<string, JsValue>, lib: Lib, env: Env)
    ensures var c := RequestCall(cfg, requestMethod, url, pathParameters, body, headers, queryParameters, form, lib, env);
            && c.uri == RequestUri(cfg.domain, url, queryParameters, lib)
            && c.httpMethod == requestMethod
            && c.body == RequestBody(requestMethod, body, form, lib)
            && c.agent == RequestAgent(cfg)
            && (forall k :: k in headers && k != AuthCodeHeader ==> k in c.headers && c.headers[k] == headers[k])
            && c.headers[AuthCodeHeader] == Str(RequestAuthCode(cfg, requestMethod, pathParameters, queryParameters, lib, env))
  {
  }

  /** DELETE, PUT and POST carry a body. */
  lemma BodyMethods()
    ensures !IsGetOrHead("DELETE") && !IsGetOrHead("PUT") && !IsGetOrHead("POST")
  {
    assert Upper("DELETE") == "DELETE";
    assert Upper("PUT") == "PUT";
    assert Upper("POST") == "POST";
  }

  /** The only header request writes is authCode; every other header is passed through as given. */
  lemma OnlyAuthCodeHeaderWritten(cfg: ClientConfig, requestMethod: string, url: string, pathParameters: map<string, JsValue>,
                                  body: JsValue, headers: map<string, JsValue>, queryParameters: map<string, JsValue>,
                                  form: map<string, JsValue>, lib: Lib, env: Env)
    ensures var h := RequestCall(cfg, requestMethod, url, pathParameters, body, headers, queryParameters, form, lib, env).headers;
            && h.Keys == headers.Keys + {AuthCodeHeader}
            && (forall k :: k in headers && k != AuthCodeHeader ==> h[k] == headers[k])
            && h[AuthCodeHeader].Str?
            && StartsWith(h[AuthCodeHeader].s, "accessId=" + ToStr(cfg.accessId) + "&nonce=")
  {
    AuthCodeLead(requestMethod, cfg.accessKey, cfg.accessId, Undefined,
                 SignedParams(pathParameters, queryParameters), Undefined, lib, env);
  }

  /** A sessionToken query parameter is sent in the query string but left out of the signed map. */
  lemma SessionTokenSentNotSigned(cfg: ClientConfig, requestMethod: string, url: string, pathParameters: map<string, JsValue>,
                                  body: JsValue, headers: map<string, JsValue>, queryParameters: map<string, JsValue>,
                                  form: map<string, JsValue>, lib: Lib, env: Env)
    requires SessionTokenKey in queryParameters
    ensures RequestCall(cfg, requestMethod, url, pathParameters, body, headers, queryParameters, form, lib, env).uri
            == ToStr(cfg.domain) + url + "?" + lib.querystringStringify(queryParameters)
    ensures SessionTokenKey !in SignedParams(pathParameters, queryParameters)
  {
    RequestCallParts(cfg, requestMethod, url, pathParameters, body, headers, queryParameters, form, lib, env);
    assert |queryParameters| > 0;
  }

  /** A GET or HEAD request in any letter case carries no body, whatever the body and form were. */
  lemma GetAndHeadSendNoBody(body: JsValue, form: map<string, JsValue>, lib: Lib)
    ensures RequestBody("get", body, form, lib).None?
    ensures RequestBody("Head", body, form, lib).None?
    ensures RequestBody("post", body, form, lib).Some?
  {
    assert Upper("get") == "GET";
    assert Upper("Head") == "HEAD";
    assert Upper("post") == "POST";
  }

  /** Body `{a: 1}` with form `{a: 2}` sends the form encoding of `{a: 2}`. */
  lemma FormPrecedenceExample(lib: Lib)
    ensures RequestBody("POST", Obj(map["a" := Num(1)]), map["a" := Num(2)], lib)
            == Some(lib.querystringStringify(map["a" := Num(2)]))
  {
    assert Upper("POST") == "POST";
    assert FormPayload(Obj(map["a" := Num(1)]), map["a" := Num(2)]) == map["a" := Num(2)];
  }

  // ---- the response ----

  /** The status line and body text fetch resolves with. */
  datatype Response = Response(status: int, statusText: string, ok: bool, text: string)

  /** The `{status, statusMessage, response, body}` record handed to the caller. */
  datatype Normalized = Normalized(status: int, statusMessage: string, response: Response, body: JsValue)

  /** How the promise `request` returns settles. */
  datatype Settlement = Resolved(value: Normalized) | Rejected(reason: Normalized)

  /** `ret.json()`, falling back to `ret.text()` when the body is not JSON. */
  function ResponseBody(text: string, lib: Lib): (r: JsValue)
    ensures lib.jsonParse(text).None? ==> r == Str(text)
    ensures lib.jsonParse(text).Some? ==> r == lib.jsonParse(text).value
  {
    match lib.jsonParse(text)
    case Some(v) => v
    case None => Str(text)
  }

  /** `(ret.ok ? resolve : reject)({...})`: resolves exactly when the status is ok, with the same record either way. */
  function Settle(ret: Response, lib: Lib): (r: Settlement)
    ensures r.Resolved? <==> ret.ok
    ensures var n := if r.Resolved? then r.value else r.reason;
            n == Normalized(ret.status, ret.statusText, ret, ResponseBody(ret.text, lib))
  {
    var record := Normalized(ret.status, ret.statusText, ret, ResponseBody(ret.text, lib));
    if ret.ok then Resolved(record) else Rejected(record)
  }
}
