/**
 * Three of the generated endpoint methods, written out as declarations of
 * the endpoint template, with what each one sends.
 */
module Catalog {
  import opened Wrappers
  import opened JsValues
  import opened Foreign
  import opened Signing
  import opened Dispatch
  import opened PathTemplate
  import opened Endpoints

  const SessionHeader := ParamDecl("sessionToken", HeaderParam("session-token"), true)

  /** `deleteArchiveByDeviceIdUsingDELETE` */
  const DeleteArchiveByDeviceId := Endpoint("DELETE", "/v1.0/devices/archivesByDeviceId", JsonContentType,
    [SessionHeader, ParamDecl("archiveName", QueryParam, true), ParamDecl("deviceId", QueryParam, true)])

  /** `updateUserUsingPUT` */
  const UpdateUser := Endpoint("PUT", "/v1.0/users/child/{userId}", JsonContentType,
    [ParamDecl("updateUserRequest", BodyParam, true), ParamDecl("userId", PathParam, true), SessionHeader])

  /** `loginUsingPOST` */
  const Login := Endpoint("POST", "/v1.0/login", FormContentType,
    [ParamDecl("appToken", FormParam, true), ParamDecl("loginName", FormParam, true), ParamDecl("password", FormParam, true)])

  /** The parameter is defined in the call's parameters object. */
  predicate Given(ps: map<string, JsValue>, name: string)
  {
    Lookup(ps, name) != Undefined
  }

  /** The buckets deleteArchiveByDeviceIdUsingDELETE fills, statement by statement. */
  lemma DeleteArchiveFill(ps: map<string, JsValue>)
    ensures var ep := DeleteArchiveByDeviceId;
            var init := InitialBuckets(ep);
            && (!Given(ps, "sessionToken") ==> Prepared(ep, ps) == Failure(MissingPrefix + "sessionToken"))
            && (Given(ps, "sessionToken") && !Given(ps, "archiveName") ==>
                  Prepared(ep, ps) == Failure(MissingPrefix + "archiveName"))
            && (Given(ps, "sessionToken") && Given(ps, "archiveName") && !Given(ps, "deviceId") ==>
                  Prepared(ep, ps) == Failure(MissingPrefix + "deviceId"))
            && (Given(ps, "sessionToken") && Given(ps, "archiveName") && Given(ps, "deviceId") ==>
                  Prepared(ep, ps) == Success(init.(
                    headers := init.headers["session-token" := ps["sessionToken"]],
                    queryParameters := map["archiveName" := ps["archiveName"], "deviceId" := ps["deviceId"]])))
  {
    var ep := DeleteArchiveByDeviceId;
    FillThree(ep.params[0], ep.params[1], ep.params[2], ps, InitialBuckets(ep));
    assert ep.params == [ep.params[0], ep.params[1], ep.params[2]];
  }

  /** deleteArchiveByDeviceIdUsingDELETE checks sessionToken, archiveName and deviceId in that order. */
  lemma DeleteArchiveByDeviceIdChecks(cfg: ClientConfig, ps: map<string, JsValue>, lib: Lib, env: Env)
    ensures var o := EndpointOutcome(cfg, DeleteArchiveByDeviceId, Obj(ps), lib, env);
            && (!Given(ps, "sessionToken") ==> o == MissingParameter("Missing required  parameter: sessionToken"))
            && (Given(ps, "sessionToken") && !Given(ps, "archiveName") ==>
                  o == MissingParameter("Missing required  parameter: archiveName"))
            && (Given(ps, "sessionToken") && Given(ps, "archiveName") && !Given(ps, "deviceId") ==>
                  o == MissingParameter("Missing required  parameter: deviceId"))
  {
    DeleteArchiveFill(ps);
    assert PlainEntries(Obj(ps)) == ps;
    DeleteArchiveMessages();
  }

  /** The three messages deleteArchiveByDeviceIdUsingDELETE can return. */
  lemma DeleteArchiveMessages()
    ensures MissingPrefix + "sessionToken" == "Missing required  parameter: sessionToken"
    ensures MissingPrefix + "archiveName" == "Missing required  parameter: archiveName"
    ensures MissingPrefix + "deviceId" == "Missing required  parameter: deviceId"
  {
  }

  /** The buckets deleteArchiveByDeviceIdUsingDELETE has filled once every parameter is given. */
  function DeleteArchiveBuckets(ps: map<string, JsValue>): Buckets
  {
    var init := InitialBuckets(DeleteArchiveByDeviceId);
    init.(headers := init.headers["session-token" := Lookup(ps, "sessionToken")],
          queryParameters := map["archiveName" := Lookup(ps, "archiveName"), "deviceId" := Lookup(ps, "deviceId")])
  }

  lemma DeleteArchivePrepared(ps: map<string, JsValue>)
    requires Given(ps, "sessionToken") && Given(ps, "archiveName") && Given(ps, "deviceId")
    ensures Prepared(DeleteArchiveByDeviceId, ps) == Success(DeleteArchiveBuckets(ps))
  {
    DeleteArchiveFill(ps);
  }

  /**
   * With all three parameters, deleteArchiveByDeviceIdUsingDELETE sends a
   * DELETE with an empty JSON body whose query carries archiveName and deviceId.
   */
  lemma DeleteArchiveByDeviceIdRequest(cfg: ClientConfig, ps: map<string, JsValue>, lib: Lib, env: Env)
    requires Given(ps, "sessionToken") && Given(ps, "archiveName") && Given(ps, "deviceId")
    ensures var o := EndpointOutcome(cfg, DeleteArchiveByDeviceId, Obj(ps), lib, env);
            var q := MergedQuery(ps, map["archiveName" := ps["archiveName"], "deviceId" := ps["deviceId"]]);
            && o.Dispatched?
            && o.call.httpMethod == "DELETE"
            && o.call.uri == ToStr(cfg.domain) + "/v1.0/devices/archivesByDeviceId" + "?" + lib.querystringStringify(q)
            && o.call.body == Some(lib.jsonStringify(Obj(map[])))
  {
    var b := DeleteArchiveBuckets(ps);
    DeleteArchivePrepared(ps);
    DispatchedCall(cfg, DeleteArchiveByDeviceId, ps, lib, env, b);
    assert "archiveName" in MergedQuery(ps, b.queryParameters);
    BodyMethods();
  }

  /** The session token travels in the session-token header, next to the JSON Content-Type. */
  lemma DeleteArchiveByDeviceIdHeaders(cfg: ClientConfig, ps: map<string, JsValue>, lib: Lib, env: Env)
    requires Given(ps, "sessionToken") && Given(ps, "archiveName") && Given(ps, "deviceId")
    ensures var o := EndpointOutcome(cfg, DeleteArchiveByDeviceId, Obj(ps), lib, env);
            && o.Dispatched?
            && "session-token" in o.call.headers && o.call.headers["session-token"] == ps["sessionToken"]
            && "Content-Type" in o.call.headers && o.call.headers["Content-Type"] == Arr([Str(JsonContentType)])
  {
    var b := DeleteArchiveBuckets(ps);
    DeleteArchivePrepared(ps);
    assert |"session-token"| != |AuthCodeHeader| && |"Content-Type"| != |AuthCodeHeader|;
    assert |"session-token"| != |"Content-Type"|;
    DispatchedHeader(cfg, DeleteArchiveByDeviceId, ps, lib, env, b, "session-token");
    DispatchedHeader(cfg, DeleteArchiveByDeviceId, ps, lib, env, b, "Content-Type");
  }

  /** The path updateUserUsingPUT requests: the template with the userId's `$` patterns expanded in place of `{userId}`. */
  function UserPath(userId: string): string
  {
    "/v1.0/users/child/" + Expand(userId, "{userId}", "/v1.0/users/child/", "")
  }

  /** Substituting a userId into updateUserUsingPUT's path template gives UserPath, which is the userId itself after the prefix when it holds no `$`. */
  lemma UserIdSubstituted(userId: string)
    ensures ReplaceAsWritten(UpdateUser.path, Placeholder("userId"), userId) == UserPath(userId)
    ensures '$' !in userId ==> UserPath(userId) == "/v1.0/users/child/" + userId
  {
    var p, pat := "/v1.0/users/child/", Placeholder("userId");
    assert pat == "{userId}";
    assert p + pat + "" == UpdateUser.path;
    NoEarlyOccurrence(p, pat, "");
    ReplaceAsWrittenFillsPlaceholder(p, pat, "", userId);
    assert p + Expand(userId, pat, p, "") + "" == UserPath(userId);
    if '$' !in userId {
      ExpandWithoutDollar(userId, pat, p, "");
    }
  }

  /** A userId of `$&` puts the placeholder back: the request goes to the unfilled template. */
  lemma DollarUserIdPath()
    ensures UserPath("$&") == "/v1.0/users/child/{userId}"
  {
    assert Expand("$&", "{userId}", "/v1.0/users/child/", "") == "{userId}" + Expand("", "{userId}", "/v1.0/users/child/", "");
  }

  /** The buckets updateUserUsingPUT fills when all its parameters are given. */
  lemma UpdateUserFill(ps: map<string, JsValue>)
    requires Given(ps, "updateUserRequest") && Given(ps, "userId") && Given(ps, "sessionToken")
    ensures var init := InitialBuckets(UpdateUser);
            Prepared(UpdateUser, ps) == Success(init.(
              path := UserPath(ToStr(ps["userId"])),
              body := ps["updateUserRequest"],
              pathParameters := map["userId" := ps["userId"]],
              headers := init.headers["session-token" := ps["sessionToken"]]))
  {
    var ep := UpdateUser;
    var init := InitialBuckets(ep);
    var d1, d2, d3 := ep.params[0], ep.params[1], ep.params[2];
    FillThree(d1, d2, d3, ps, init);
    assert ep.params == [d1, d2, d3];
    var filled := UserPath(ToStr(ps["userId"]));
    UserIdSubstituted(ToStr(ps["userId"]));
    var b1 := init.(body := ps["updateUserRequest"]);
    assert Then(Success(init), d1, ps) == Success(b1);
    var b2 := b1.(path := filled, pathParameters := map["userId" := ps["userId"]]);
    assert Then(Success(b1), d2, ps) == Success(b2);
    var b3 := b2.(headers := init.headers["session-token" := ps["sessionToken"]]);
    assert Then(Success(b2), d3, ps) == Success(b3);
  }

  /** updateUserUsingPUT with all parameters sends a PUT to the path with the userId substituted. */
  lemma UpdateUserTarget(cfg: ClientConfig, ps: map<string, JsValue>, lib: Lib, env: Env)
    requires Given(ps, "updateUserRequest") && Given(ps, "userId") && Given(ps, "sessionToken")
    ensures var o := EndpointOutcome(cfg, UpdateUser, Obj(ps), lib, env);
            && o.Dispatched?
            && o.call.httpMethod == "PUT"
            && o.call.uri == RequestUri(cfg.domain, UserPath(ToStr(ps["userId"])), MergedQuery(ps, map[]), lib)
            && ('$' !in ToStr(ps["userId"]) ==>
                  o.call.uri == RequestUri(cfg.domain, "/v1.0/users/child/" + ToStr(ps["userId"]), MergedQuery(ps, map[]), lib))
  {
    var ep := UpdateUser;
    var init := InitialBuckets(ep);
    var b := init.(path := UserPath(ToStr(ps["userId"])),
                   body := ps["updateUserRequest"],
                   pathParameters := map["userId" := ps["userId"]],
                   headers := init.headers["session-token" := ps["sessionToken"]]);
    assert Prepared(ep, ps) == Success(b) by {
      UpdateUserFill(ps);
    }
    DispatchedCall(cfg, ep, ps, lib, env, b);
    UserIdSubstituted(ToStr(ps["userId"]));
  }

  /** updateUserUsingPUT called with userId `$&` requests the unfilled template path. */
  lemma UpdateUserDollarUserId(cfg: ClientConfig, ps: map<string, JsValue>, lib: Lib, env: Env)
    requires Given(ps, "updateUserRequest") && Given(ps, "sessionToken") && "userId" in ps && ps["userId"] == Str("$&")
    ensures var o := EndpointOutcome(cfg, UpdateUser, Obj(ps), lib, env);
            && o.Dispatched?
            && o.call.uri == RequestUri(cfg.domain, "/v1.0/users/child/{userId}", MergedQuery(ps, map[]), lib)
  {
    UpdateUserTarget(cfg, ps, lib, env);
    DollarUserIdPath();
  }

  /** updateUserUsingPUT with all parameters sends the updateUserRequest as its JSON body, with the session token header. */
  lemma UpdateUserPayload(cfg: ClientConfig, ps: map<string, JsValue>, lib: Lib, env: Env)
    requires Given(ps, "updateUserRequest") && Given(ps, "userId") && Given(ps, "sessionToken")
    ensures var o := EndpointOutcome(cfg, UpdateUser, Obj(ps), lib, env);
            && o.Dispatched?
            && o.call.body == Some(lib.jsonStringify(ps["updateUserRequest"]))
            && "session-token" in o.call.headers && o.call.headers["session-token"] == ps["sessionToken"]
  {
    var ep := UpdateUser;
    var init := InitialBuckets(ep);
    var b := init.(path := UserPath(ToStr(ps["userId"])),
                   body := ps["updateUserRequest"],
                   pathParameters := map["userId" := ps["userId"]],
                   headers := init.headers["session-token" := ps["sessionToken"]]);
    assert Prepared(ep, ps) == Success(b) by {
      UpdateUserFill(ps);
    }
    DispatchedCall(cfg, ep, ps, lib, env, b);
    BodyMethods();
    assert |"session-token"| != |AuthCodeHeader|;
    DispatchedHeader(cfg, ep, ps, lib, env, b, "session-token");
  }

  /** updateUserUsingPUT signs the userId path parameter together with the query parameters. */
  lemma UpdateUserSignsUserId(cfg: ClientConfig, ps: map<string, JsValue>, lib: Lib, env: Env)
    requires Given(ps, "updateUserRequest") && Given(ps, "userId") && Given(ps, "sessionToken")
    ensures var o := EndpointOutcome(cfg, UpdateUser, Obj(ps), lib, env);
            && o.Dispatched?
            && AuthCodeHeader in o.call.headers
            && o.call.headers[AuthCodeHeader] ==
                 Str(AuthCode("PUT", cfg.accessKey, cfg.accessId, Undefined,
                              SignedParams(map["userId" := ps["userId"]], MergedQuery(ps, map[])), Undefined, lib, env))
  {
    var ep := UpdateUser;
    var init := InitialBuckets(ep);
    var b := init.(path := UserPath(ToStr(ps["userId"])),
                   body := ps["updateUserRequest"],
                   pathParameters := map["userId" := ps["userId"]],
                   headers := init.headers["session-token" := ps["sessionToken"]]);
    assert Prepared(ep, ps) == Success(b) by {
      UpdateUserFill(ps);
    }
    DispatchedAuthCode(cfg, ep, ps, lib, env, b);
  }

  /** The buckets loginUsingPOST fills, statement by statement. */
  lemma LoginFill(ps: map<string, JsValue>)
    ensures !Given(ps, "appToken") ==> Prepared(Login, ps) == Failure(MissingPrefix + "appToken")
    ensures Given(ps, "appToken") && !Given(ps, "loginName") ==> Prepared(Login, ps) == Failure(MissingPrefix + "loginName")
    ensures Given(ps, "appToken") && Given(ps, "loginName") && !Given(ps, "password") ==>
              Prepared(Login, ps) == Failure(MissingPrefix + "password")
    ensures Given(ps, "appToken") && Given(ps, "loginName") && Given(ps, "password") ==>
              Prepared(Login, ps) == Success(InitialBuckets(Login).(form :=
                map["appToken" := ps["appToken"], "loginName" := ps["loginName"], "password" := ps["password"]]))
  {
    var ep := Login;
    FillThree(ep.params[0], ep.params[1], ep.params[2], ps, InitialBuckets(ep));
    assert ep.params == [ep.params[0], ep.params[1], ep.params[2]];
  }

  /** loginUsingPOST with all parameters posts the three fields form-encoded. */
  lemma LoginRequest(cfg: ClientConfig, ps: map<string, JsValue>, lib: Lib, env: Env)
    requires Given(ps, "appToken") && Given(ps, "loginName") && Given(ps, "password")
    ensures var o := EndpointOutcome(cfg, Login, Obj(ps), lib, env);
            && o.Dispatched?
            && o.call.httpMethod == "POST"
            && o.call.body == Some(lib.querystringStringify(
                 map["appToken" := ps["appToken"], "loginName" := ps["loginName"], "password" := ps["password"]]))
  {
    var ep := Login;
    var form := map["appToken" := ps["appToken"], "loginName" := ps["loginName"], "password" := ps["password"]];
    var b := InitialBuckets(ep).(form := form);
    assert Prepared(ep, ps) == Success(b) by {
      LoginFill(ps);
    }
    DispatchedCall(cfg, ep, ps, lib, env, b);
    assert RequestBody("POST", Obj(map[]), form, lib) == Some(lib.querystringStringify(form)) by {
      assert "appToken" in form;
      FormOverEmptyBody(form);
      BodyMethods();
    }
  }

  /** loginUsingPOST declares its body as urlencoded. */
  lemma LoginContentType(cfg: ClientConfig, ps: map<string, JsValue>, lib: Lib, env: Env)
    requires Given(ps, "appToken") && Given(ps, "loginName") && Given(ps, "password")
    ensures var o := EndpointOutcome(cfg, Login, Obj(ps), lib, env);
            && o.Dispatched?
            && "Content-Type" in o.call.headers && o.call.headers["Content-Type"] == Arr([Str(FormContentType)])
  {
    var ep := Login;
    var b := InitialBuckets(ep).(form := map["appToken" := ps["appToken"], "loginName" := ps["loginName"],
                                             "password" := ps["password"]]);
    assert Prepared(ep, ps) == Success(b) by {
      LoginFill(ps);
    }
    assert |"Content-Type"| != |AuthCodeHeader|;
    DispatchedHeader(cfg, ep, ps, lib, env, b, "Content-Type");
  }
}
