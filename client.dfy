/**
 * The APIClient object: its construction from an options object, the
 * `request` method that signs and sends a request, and the generated
 * endpoint methods as instances of the endpoint template.
 */
module Client {
  import opened Wrappers
  import opened JsValues
  import opened JsObjects
  import opened Foreign
  import opened Signing
  import opened Dispatch
  import opened Endpoints
  import opened Catalog

  const IllegalParametersMessage := "Illegal parameters: All of options.accessKey and options.accessId is required!"
  const DomainMessage := "Domain parameter must be specified as a string."

  /** `lodash.isPlainObject(options) && options.accessKey && options.accessId` */
  predicate OptionsAccepted(options: JsValue)
  {
    options.Obj? && Truthy(Prop(options, "accessKey")) && Truthy(Prop(options, "accessId"))
  }

  /** `value.length === 0` */
  predicate EmptyLength(v: JsValue)
  {
    match v
    case Str(s) => |s| == 0
    case Arr(elems) => |elems| == 0
    case Obj(fields) => "length" in fields && fields["length"] == Num(0)
    case _ => false
  }

  /** The fields the constructor assigns from an options object. */
  function ConfigFrom(options: JsValue): (r: ClientConfig)
    ensures r.debug == Prop(options, "debug")
    ensures r.accessKey == Prop(options, "accessKey") && r.accessId == Prop(options, "accessId")
    ensures Truthy(r.domain)
    ensures Truthy(Prop(options, "domain")) ==> r.domain == Prop(options, "domain")
    ensures !Truthy(Prop(options, "domain")) ==> r.domain == Str(DefaultDomain)
    ensures r.rejectUnauthorized <==> Prop(options, "rejectUnauthorized") != Bool(false)
    ensures IsHttps(r.domain) ==> r.ca == Prop(options, "ca")
    ensures !IsHttps(r.domain) ==> r.ca == Undefined
  {
    var given := Prop(options, "domain");
    var domain := if Truthy(given) then given else Str(DefaultDomain);
    ClientConfig(Prop(options, "debug"), Prop(options, "accessKey"), Prop(options, "accessId"), domain,
                 Prop(options, "rejectUnauthorized") != Bool(false),
                 if IsHttps(domain) then Prop(options, "ca") else Undefined)
  }

  class APIClient {
    var debug: JsValue
    var accessKey: JsValue
    var accessId: JsValue
    var domain: JsValue
    var rejectUnauthorized: bool
    var ca: JsValue

    /** The client's fields as a value. */
    function Snapshot(): ClientConfig
      reads this
    {
      ClientConfig(debug, accessKey, accessId, domain, rejectUnauthorized, ca)
    }

    /** The field assignments of the constructor. */
    constructor (options: JsValue)
      ensures Snapshot() == ConfigFrom(options)
    {
      var given := Prop(options, "domain");
      var d := if Truthy(given) then given else Str(DefaultDomain);
      debug := Prop(options, "debug");
      accessKey := Prop(options, "accessKey");
      accessId := Prop(options, "accessId");
      domain := d;
      rejectUnauthorized := Prop(options, "rejectUnauthorized") != Bool(false);
      ca := Undefined;
      if IsHttps(d) {
        ca := Prop(options, "ca");
      }
    }

    /**
     * `request`: signs the path and query parameters into the authCode
     * header and assembles the arguments of the fetch call.
     */
    method Request(requestMethod: string, url: string, pathParameters: map<string, JsValue>, body: JsValue,
                   headers: Dict, queryParameters: map<string, JsValue>, form: map<string, JsValue>,
                   lib: Lib, env: Env) returns (call: FetchCall)
      modifies headers
      ensures headers.entries == old(headers.entries)[AuthCodeHeader :=
                Str(RequestAuthCode(Snapshot(), requestMethod, pathParameters, queryParameters, lib, env))]
      ensures call == RequestCall(Snapshot(), requestMethod, url, pathParameters, body, old(headers.entries),
                                  queryParameters, form, lib, env)
    {
      // Signing changes nothing but the headers, so it may come before the reads of this client's fields.
      SignRequest(requestMethod, pathParameters, queryParameters, headers, lib, env);
      call := FetchArguments(requestMethod, url, body, headers.entries, queryParameters, form, lib);
      RequestCallAssembled(Snapshot(), requestMethod, url, pathParameters, body, old(headers.entries),
                           queryParameters, form, lib, env, headers.entries);
    }

    /**
     * The rest of `request`: the uri with its query string, the https agent
     * and the payload, which GET and HEAD do not carry.
     */
    method FetchArguments(requestMethod: string, url: string, body: JsValue, headers: map<string, JsValue>,
                          queryParameters: map<string, JsValue>, form: map<string, JsValue>, lib: Lib)
      returns (call: FetchCall)
      ensures call == FetchCall(RequestUri(domain, url, queryParameters, lib), requestMethod, headers,
                                RequestAgent(Snapshot()), RequestBody(requestMethod, body, form, lib))
    {
      var uri := ToStr(domain) + url;
      var agent: Option<Agent> := None;
      if IsHttps(domain) {
        agent := Some(Agent(rejectUnauthorized, ca));
      }
      var payload: Option<string>;
      if |form| > 0 {
        payload := Some(lib.querystringStringify(FormPayload(body, form)));
      } else {
        payload := Some(lib.jsonStringify(body));
      }
      if |queryParameters| > 0 {
        uri := uri + "?" + lib.querystringStringify(queryParameters);
      }
      if IsGetOrHead(requestMethod) {
        payload := None;
      }
      call := FetchCall(uri, requestMethod, headers, agent, payload);
    }

    /** The signing step of `request`: a fresh copy of path and query parameters is handed to wrap4SignatureKey. */
    method SignRequest(requestMethod: string, pathParameters: map<string, JsValue>, queryParameters: map<string, JsValue>,
                       headers: Dict, lib: Lib, env: Env)
      modifies headers
      ensures headers.entries == old(headers.entries)[AuthCodeHeader :=
                Str(RequestAuthCode(Snapshot(), requestMethod, pathParameters, queryParameters, lib, env))]
    {
      var signed := new Dict(pathParameters + queryParameters);
      Wrap4SignatureKey(requestMethod, signed, accessKey, accessId, headers, lib, env);
    }

    /**
     * A generated endpoint method: each declared parameter is placed in its
     * bucket and then checked, returning at the first missing one; then
     * `$queryParameters` is merged and `request` is called.
     */
    method CallEndpoint(ep: Endpoint, parameters: JsValue, lib: Lib, env: Env) returns (outcome: CallOutcome)
      requires parameters == Undefined || parameters.Obj?
      ensures outcome == EndpointOutcome(Snapshot(), ep, parameters, lib, env)
    {
      var ps := PlainEntries(parameters);
      var b := InitialBuckets(ep);
      for i := 0 to |ep.params|
        invariant Fill(ep.params[..i], ps, InitialBuckets(ep)) == Success(b)
      {
        var d := ep.params[i];
        assert ep.params[..i + 1][..i] == ep.params[..i];
        b := Place(b, d, Lookup(ps, d.name));
        if Missing(d, ps) {
          outcome := MissingParameter(MissingPrefix + d.name);
          FillStopsAtFailure(ep.params, i + 1, ps, InitialBuckets(ep));
          return;
        }
      }
      assert ep.params[..|ep.params|] == ep.params;
      var query := new Dict(b.queryParameters);
      MergeQueryParams(ps, query);
      var headers := new Dict(b.headers);
      var call := Request(ep.httpMethod, b.path, b.pathParameters, b.body, headers, query.entries, b.form, lib, env);
      outcome := Dispatched(call);
    }

    method DeleteArchiveByDeviceIdUsingDELETE(parameters: JsValue, lib: Lib, env: Env) returns (outcome: CallOutcome)
      requires parameters == Undefined || parameters.Obj?
      ensures outcome == EndpointOutcome(Snapshot(), DeleteArchiveByDeviceId, parameters, lib, env)
    {
      outcome := CallEndpoint(DeleteArchiveByDeviceId, parameters, lib, env);
    }

    method UpdateUserUsingPUT(parameters: JsValue, lib: Lib, env: Env) returns (outcome: CallOutcome)
      requires parameters == Undefined || parameters.Obj?
      ensures outcome == EndpointOutcome(Snapshot(), UpdateUser, parameters, lib, env)
    {
      outcome := CallEndpoint(UpdateUser, parameters, lib, env);
    }

    method LoginUsingPOST(parameters: JsValue, lib: Lib, env: Env) returns (outcome: CallOutcome)
      requires parameters == Undefined || parameters.Obj?
      ensures outcome == EndpointOutcome(Snapshot(), Login, parameters, lib, env)
    {
      outcome := CallEndpoint(Login, parameters, lib, env);
    }
  }

  /** `new APIClient(options)`: the options check, the field assignments, then the domain length check. */
  method NewAPIClient(options: JsValue) returns (r: Result<APIClient, string>)
    ensures !OptionsAccepted(options) ==> r == Failure(IllegalParametersMessage)
    ensures OptionsAccepted(options) && EmptyLength(ConfigFrom(options).domain) ==> r == Failure(DomainMessage)
    ensures OptionsAccepted(options) && !EmptyLength(ConfigFrom(options).domain) ==>
              r.Success? && fresh(r.value) && r.value.Snapshot() == ConfigFrom(options)
  {
    if !OptionsAccepted(options) {
      return Failure(IllegalParametersMessage);
    }
    var client := new APIClient(options);
    if EmptyLength(client.domain) {
      return Failure(DomainMessage);
    }
    return Success(client);
  }

  /** Only an empty array or an object whose length is 0 trips the domain check; a string domain never does. */
  lemma DomainCheckCatchesOnlyEmptyContainers(options: JsValue)
    ensures EmptyLength(ConfigFrom(options).domain) <==>
              (Prop(options, "domain") == Arr([]) ||
               (Prop(options, "domain").Obj? && "length" in Prop(options, "domain").fields &&
                Prop(options, "domain").fields["length"] == Num(0)))
  {
    var given := Prop(options, "domain");
    if !Truthy(given) {
      assert ConfigFrom(options).domain == Str(DefaultDomain);
      assert |DefaultDomain| > 0;
    }
  }

  /** A non-string domain such as the number 8080 passes the check that asks for a string. */
  lemma NumericDomainAccepted()
    ensures var options := Obj(map["accessKey" := Str("k"), "accessId" := Str("i"), "domain" := Num(8080)]);
            OptionsAccepted(options) && !EmptyLength(ConfigFrom(options).domain)
  {
    var options := Obj(map["accessKey" := Str("k"), "accessId" := Str("i"), "domain" := Num(8080)]);
    assert Prop(options, "domain") == Num(8080);
    assert Prop(options, "accessKey") == Str("k");
    assert Prop(options, "accessId") == Str("i");
  }

  /** With only the credentials given, the client talks plain http to the demo server and rejects bad certificates. */
  lemma CredentialsOnlyDefaults(accessKey: string, accessId: string)
    requires accessKey != "" && accessId != ""
    ensures var options := Obj(map["accessKey" := Str(accessKey), "accessId" := Str(accessId)]);
            var cfg := ConfigFrom(options);
            && OptionsAccepted(options)
            && !EmptyLength(cfg.domain)
            && cfg == ClientConfig(Undefined, Str(accessKey), Str(accessId), Str(DefaultDomain), true, Undefined)
            && RequestAgent(cfg).None?
  {
    var options := Obj(map["accessKey" := Str(accessKey), "accessId" := Str(accessId)]);
    assert Prop(options, "domain") == Undefined;
    assert Prop(options, "debug") == Undefined;
    assert Prop(options, "rejectUnauthorized") == Undefined;
    assert !IsHttps(Str(DefaultDomain)) by {
      assert DefaultDomain[4] != "https://"[4];
    }
  }

  /** An https domain hands the given certificate and the rejectUnauthorized flag to the agent. */
  lemma HttpsAgentCarriesCertificate(options: JsValue)
    requires IsHttps(ConfigFrom(options).domain)
    ensures RequestAgent(ConfigFrom(options)) ==
              Some(Agent(Prop(options, "rejectUnauthorized") != Bool(false), Prop(options, "ca")))
  {
  }
}
