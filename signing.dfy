/**
 * The request-signing canonicaliser of APIClient (`genAuthCode` and
 * `wrap4SignatureKey`). An auth code is
 *
 *   accessId=<id>&nonce=<nonce>&timestamp=<ms>&signature=<encoded signature>
 *
 * where the signature is HMAC-SHA1, Base64-encoded, of the signature content
 * `UPPER(method)-k1=v1&k2=v2...` under a signing key that is itself the
 * Base64 HMAC-SHA1 of the prefix under the access key. The cryptography is
 * left abstract; what is modelled and proved is the canonical strings.
 */
module Signing {
  import opened Wrappers
  import opened JsValues
  import opened JsObjects
  import opened Text
  import opened Foreign

  const SessionTokenKey := "sessionToken"
  const AuthCodeHeader := "authCode"

  // ---- the prefix: accessId, nonce, timestamp in this fixed order ----

  /** `!nonce ? uuid.v1() : nonce` */
  function NonceText(nonce: JsValue, env: Env): string
  {
    if !Truthy(nonce) then env.uuidV1 else ToStr(nonce)
  }

  /** `!timestamp ? Date.now() : timestamp` */
  function TimestampText(timestamp: JsValue, env: Env): string
  {
    if !Truthy(timestamp) then DecimalString(env.now) else ToStr(timestamp)
  }

  /** The three `key=value` fields of the prefix, in the order the server expects them. */
  function PrefixFields(accessId: JsValue, nonce: JsValue, timestamp: JsValue, env: Env): seq<string>
  {
    ["accessId=" + ToStr(accessId), "nonce=" + NonceText(nonce, env), "timestamp=" + TimestampText(timestamp, env)]
  }

  function AuthPrefix(accessId: JsValue, nonce: JsValue, timestamp: JsValue, env: Env): string
  {
    Join(PrefixFields(accessId, nonce, timestamp, env), "&")
  }

  // ---- the signature content ----

  /** Arrays and plain objects are signed as their JSON text; other values as they are. */
  function SignedValue(v: JsValue, lib: Lib): JsValue
  {
    if v.Arr? || v.Obj? then Str(lib.jsonStringify(v)) else v
  }

  /** `value || lodash.isNumber(value)`: the filter applied after JSON serialisation. */
  predicate Kept(v: JsValue)
  {
    Truthy(v) || v.Num?
  }

  /** `encodeURIComponent(value)` of the value as signed. */
  function EncodedValue(v: JsValue, lib: Lib): string
  {
    lib.encodeURIComponent(ToStr(SignedValue(v, lib)))
  }

  /** Key `k` of `params` contributes a pair to the signature content. */
  predicate Signs(params: map<string, JsValue>, k: string, lib: Lib)
  {
    k in params && Kept(SignedValue(params[k], lib))
  }

  /**
   * The (key, encoded value) pairs that survive the filter, visiting `keys`
   * in order. The keys visited are those of `params`; a key outside it
   * would contribute nothing.
   */
  function Entries(keys: seq<string>, params: map<string, JsValue>, lib: Lib): seq<(string, string)>
  {
    if keys == [] then []
    else
      var last := keys[|keys| - 1];
      Entries(keys[..|keys| - 1], params, lib)
        + (if Signs(params, last, lib) then [(last, EncodedValue(params[last], lib))] else [])
  }

  function PairText(e: (string, string)): string
  {
    e.0 + "=" + e.1
  }

  function PairTexts(es: seq<(string, string)>): (r: seq<string>)
    ensures |r| == |es|
  {
    seq(|es|, i requires 0 <= i < |es| => PairText(es[i]))
  }

  /** The pairs signed for a parameter map, in ascending key order. */
  function SignedEntries(params: map<string, JsValue>, lib: Lib): seq<(string, string)>
  {
    Entries(SortedKeys(params.Keys), params, lib)
  }

  function SignatureContent(requestMethod: string, params: map<string, JsValue>, lib: Lib): string
  {
    Upper(requestMethod) + "-" + Join(PairTexts(SignedEntries(params, lib)), "&")
  }

  // ---- the auth code ----

  function SigningKey(prefix: string, ak: JsValue, lib: Lib): string
  {
    lib.base64(lib.hmacSha1(prefix, ak))
  }

  function Signature(content: string, signingKey: string, lib: Lib): string
  {
    lib.base64(lib.hmacSha1(content, Str(signingKey)))
  }

  /** The signature as it appears in the auth code. */
  function EncodedSignature(requestMethod: string, ak: JsValue, prefix: string, params: map<string, JsValue>, lib: Lib): string
  {
    lib.encodeURIComponent(Signature(SignatureContent(requestMethod, params, lib), SigningKey(prefix, ak, lib), lib))
  }

  function AuthCode(requestMethod: string, ak: JsValue, accessId: JsValue, nonce: JsValue,
                    params: map<string, JsValue>, timestamp: JsValue, lib: Lib, env: Env): string
  {
    var prefix := AuthPrefix(accessId, nonce, timestamp, env);
    prefix + "&signature=" + EncodedSignature(requestMethod, ak, prefix, params, lib)
  }

  lemma EntriesStep(keys: seq<string>, i: nat, params: map<string, JsValue>, lib: Lib)
    requires i < |keys| && keys[i] in params
    ensures PairTexts(Entries(keys[..i + 1], params, lib))
         == PairTexts(Entries(keys[..i], params, lib))
            + (if Kept(SignedValue(params[keys[i]], lib))
               then [keys[i] + "=" + lib.encodeURIComponent(ToStr(SignedValue(params[keys[i]], lib)))] else [])
  {
    assert keys[..i + 1][..i] == keys[..i];
  }

  /** `genAuthCode`: builds the prefix and the signature content step by step, as the source does. */
  method GenAuthCode(requestMethod: string, ak: JsValue, accessId: JsValue, nonce: JsValue,
                     params: map<string, JsValue>, timestamp: JsValue, lib: Lib, env: Env)
    returns (authCode: string)
    ensures authCode == AuthCode(requestMethod, ak, accessId, nonce, params, timestamp, lib, env)
  {
    // 1. the prefix
    var authPrefixString := BuildPrefix(accessId, nonce, timestamp, env);
    // 2. the signing key
    var signingKey := lib.base64(lib.hmacSha1(authPrefixString, ak));
    // 3. the signature content
    var arr := BuildPairs(params, lib);
    var signatureContent := Upper(requestMethod) + "-" + Join(arr, "&");
    // 4. the signature
    var signature := lib.base64(lib.hmacSha1(signatureContent, Str(signingKey)));
    authCode := authPrefixString + "&signature=" + lib.encodeURIComponent(signature);
  }

  /** Step 1 of `genAuthCode`: the three prefix fields pushed in order and joined with '&'. */
  method BuildPrefix(accessId: JsValue, nonce: JsValue, timestamp: JsValue, env: Env) returns (authPrefixString: string)
    ensures authPrefixString == AuthPrefix(accessId, nonce, timestamp, env)
  {
    var arr: seq<string> := [];
    arr := arr + ["accessId=" + ToStr(accessId)];
    arr := arr + ["nonce=" + NonceText(nonce, env)];
    arr := arr + ["timestamp=" + TimestampText(timestamp, env)];
    assert arr == PrefixFields(accessId, nonce, timestamp, env);
    authPrefixString := Join(arr, "&");
  }

  /** Step 3 of `genAuthCode`: the kept `key=value` pairs, visiting the keys in ascending order. */
  method BuildPairs(params: map<string, JsValue>, lib: Lib) returns (arr: seq<string>)
    ensures arr == PairTexts(SignedEntries(params, lib))
  {
    arr := [];
    var paramsKeyArr := SortedKeys(params.Keys);
    SortedKeysCharacterised(params.Keys);
    var i := 0;
    while i < |paramsKeyArr|
      invariant 0 <= i <= |paramsKeyArr|
      invariant arr == PairTexts(Entries(paramsKeyArr[..i], params, lib))
    {
      var paramsKey := paramsKeyArr[i];
      var value := SignedValue(params[paramsKey], lib);
      if Kept(value) {
        arr := arr + [paramsKey + "=" + lib.encodeURIComponent(ToStr(value))];
      }
      EntriesStep(paramsKeyArr, i, params, lib);
      i := i + 1;
    }
    assert paramsKeyArr[..i] == paramsKeyArr;
  }

  /** The map `wrap4SignatureKey` signs for a request: path and query parameters, query winning, without sessionToken. */
  function SignedParams(pathParameters: map<string, JsValue>, queryParameters: map<string, JsValue>): (r: map<string, JsValue>)
    ensures SessionTokenKey !in r
  {
    (pathParameters + queryParameters) - {SessionTokenKey}
  }

  /** The signed map holds every path and query key but sessionToken, and a query value wins over a path value. */
  lemma SignedParamsCharacterised(pathParameters: map<string, JsValue>, queryParameters: map<string, JsValue>)
    ensures var r := SignedParams(pathParameters, queryParameters);
            && r.Keys == (pathParameters.Keys + queryParameters.Keys) - {SessionTokenKey}
            && (forall k :: k in queryParameters && k != SessionTokenKey ==> r[k] == queryParameters[k])
            && (forall k :: k in pathParameters && k !in queryParameters && k != SessionTokenKey ==> r[k] == pathParameters[k])
  {
  }

  /**
   * `wrap4SignatureKey`: deletes sessionToken from the map it is given, signs
   * what is left with a fresh nonce and timestamp, and writes the auth code
   * into the authCode header.
   */
  method Wrap4SignatureKey(requestMethod: string, params: Dict, accessKey: JsValue, accessId: JsValue,
                           headers: Dict, lib: Lib, env: Env)
    requires params != headers
    modifies params, headers
    ensures params.entries == old(params.entries) - {SessionTokenKey}
    ensures headers.entries == old(headers.entries)[AuthCodeHeader :=
      Str(AuthCode(requestMethod, accessKey, accessId, Undefined, params.entries, Undefined, lib, env))]
  {
    params.entries := params.entries - {SessionTokenKey};
    var authCode := GenAuthCode(requestMethod, accessKey, accessId, Undefined, params.entries, Undefined, lib, env);
    headers.entries := headers.entries[AuthCodeHeader := Str(authCode)];
  }

  // ---- properties of the canonical strings ----

  /** Entries keep exactly the keys whose value survives the filter, each with its encoded value. */
  lemma {:induction false} EntriesMembership(keys: seq<string>, params: map<string, JsValue>, lib: Lib)
    ensures forall k, e :: (k, e) in Entries(keys, params, lib)
                           <==> k in keys && Signs(params, k, lib) && e == EncodedValue(params[k], lib)
  {
    if keys != [] {
      var init := keys[..|keys| - 1];
      EntriesMembership(init, params, lib);
      assert keys == init + [keys[|keys| - 1]];
    }
  }

  predicate KeysAscending(es: seq<(string, string)>)
  {
    forall i, j :: 0 <= i < j < |es| ==> LexLeq(es[i].0, es[j].0) && es[i].0 != es[j].0
  }

  /** Visiting strictly ascending keys yields entries in strictly ascending key order. */
  lemma {:induction false} EntriesAscending(keys: seq<string>, params: map<string, JsValue>, lib: Lib)
    requires StrictlyAscending(keys)
    ensures KeysAscending(Entries(keys, params, lib))
  {
    if keys != [] {
      var n := |keys| - 1;
      var init := keys[..n];
      assert StrictlyAscending(init);
      EntriesAscending(init, params, lib);
      EntriesMembership(init, params, lib);
      var es := Entries(init, params, lib);
      forall i | 0 <= i < |es| ensures LexLeq(es[i].0, keys[n]) && es[i].0 != keys[n] {
        assert (es[i].0, es[i].1) in es;
        var j :| 0 <= j < n && init[j] == es[i].0;
      }
    }
  }

  /**
   * The signed pairs of a parameter map: exactly the keys that survive the
   * filter, each with its encoded value, in strictly ascending key order.
   */
  lemma SignedEntriesCharacterised(params: map<string, JsValue>, lib: Lib)
    ensures KeysAscending(SignedEntries(params, lib))
    ensures forall k, e :: (k, e) in SignedEntries(params, lib)
                           <==> Signs(params, k, lib) && e == EncodedValue(params[k], lib)
  {
    var keys := SortedKeys(params.Keys);
    SortedKeysCharacterised(params.Keys);
    EntriesMembership(keys, params, lib);
    EntriesAscending(keys, params, lib);
  }

  /** The filter: what is dropped and what is kept. */
  lemma FilterRule(v: JsValue, lib: Lib)
    ensures v.Num? ==> Kept(SignedValue(v, lib))
    ensures v == Undefined || v == Null || v == Bool(false) || v == Str("") ==> !Kept(SignedValue(v, lib))
    ensures v == Bool(true) || (v.Str? && v.s != "") ==> Kept(SignedValue(v, lib))
    ensures (v.Arr? || v.Obj?) ==> (Kept(SignedValue(v, lib)) <==> lib.jsonStringify(v) != "")
    ensures (v.Arr? || v.Obj?) && JsonNonEmptyForContainers(lib) ==> Kept(SignedValue(v, lib))
  {
  }

  /** A numeric zero is signed as `key=<encoded "0">`. */
  lemma ZeroIsSigned(k: string, lib: Lib)
    ensures SignedEntries(map[k := Num(0)], lib) == [(k, lib.encodeURIComponent("0"))]
  {
    var p := map[k := Num(0)];
    AscendingListingUnique([k], p.Keys);
    assert SortedKeys(p.Keys) == [k];
    assert [k][..0] == [];
    assert DecimalString(0) == "0";
    assert EncodedValue(Num(0), lib) == lib.encodeURIComponent("0");
    assert Entries([k], p, lib) == Entries([], p, lib) + [(k, EncodedValue(Num(0), lib))];
  }

  /** With no parameters the signature content is the upper-cased method and a hyphen. */
  lemma EmptyParamsContent(requestMethod: string, lib: Lib)
    ensures SignatureContent(requestMethod, map[], lib) == Upper(requestMethod) + "-"
  {
    var p: map<string, JsValue> := map[];
    assert p.Keys == {};
  }

  lemma ExampleEntries(lib: Lib)
    ensures SignedEntries(map["b" := Str("2"), "a" := Str("1")], lib)
            == [("a", lib.encodeURIComponent("1")), ("b", lib.encodeURIComponent("2"))]
  {
    var p := map["b" := Str("2"), "a" := Str("1")];
    assert LexLeq("a", "b");
    AscendingListingUnique(["a", "b"], p.Keys);
    var keys := ["a", "b"];
    assert keys[..1] == ["a"] && keys[..1][..0] == [];
    assert EncodedValue(Str("1"), lib) == lib.encodeURIComponent("1");
    assert EncodedValue(Str("2"), lib) == lib.encodeURIComponent("2");
    assert Entries(["a"], p, lib) == [("a", lib.encodeURIComponent("1"))];
  }

  /** `{b: "2", a: "1"}` is signed as `a=1&b=2`, whatever order the keys were inserted in. */
  lemma CanonicalOrderExample(lib: Lib)
    ensures SignatureContent("get", map["b" := Str("2"), "a" := Str("1")], lib)
            == "GET-a=" + lib.encodeURIComponent("1") + "&b=" + lib.encodeURIComponent("2")
  {
    var p := map["b" := Str("2"), "a" := Str("1")];
    ExampleEntries(lib);
    var t := PairTexts(SignedEntries(p, lib));
    assert t[0] == "a=" + lib.encodeURIComponent("1") && t[1] == "b=" + lib.encodeURIComponent("2");
    assert t[1..] == [t[1]];
    assert Join(t, "&") == t[0] + "&" + t[1];
    assert Upper("get") == "GET";
    assert "GET-a=" == "GET-" + "a=" && "&b=" == "&" + "b=";
  }

  // ---- reading the content back ----

  /** How the content is read back: the method before the first '-', then '&'-separated `key=value` pairs. */
  function ParseContent(s: string): Option<(string, seq<(string, string)>)>
  {
    match IndexOf(s, '-')
    case None => None
    case Some(i) =>
      var rest := s[i + 1..];
      Some((s[..i], if rest == "" then [] else SplitPairs(Split(rest, '&'))))
  }

  function SplitPair(p: string): (string, string)
  {
    match IndexOf(p, '=')
    case None => (p, "")
    case Some(i) => (p[..i], p[i + 1..])
  }

  function SplitPairs(ps: seq<string>): (r: seq<(string, string)>)
    ensures |r| == |ps|
  {
    seq(|ps|, i requires 0 <= i < |ps| => SplitPair(ps[i]))
  }

  lemma UpperKeepsHyphenOut(m: string)
    requires '-' !in m
    ensures '-' !in Upper(m)
  {
    forall i | 0 <= i < |m| ensures Upper(m)[i] != '-' {
      assert m[i] != '-';
    }
  }

  /** The content begins with the upper-cased method up to its first hyphen. */
  lemma ContentMethod(requestMethod: string, params: map<string, JsValue>, lib: Lib)
    requires '-' !in requestMethod
    ensures var s := SignatureContent(requestMethod, params, lib);
            IndexOf(s, '-') == Some(|requestMethod|) && s[..|requestMethod|] == Upper(requestMethod)
  {
    UpperKeepsHyphenOut(requestMethod);
    var u := Upper(requestMethod);
    var j := Join(PairTexts(SignedEntries(params, lib)), "&");
    IndexOfAfterPart(u, '-', j);
    assert (u + "-" + j)[..|u|] == u;
  }

  /** Signing binds the method: methods that differ after upper-casing give different contents. */
  lemma MethodBinding(m1: string, m2: string, p1: map<string, JsValue>, p2: map<string, JsValue>, lib: Lib)
    requires '-' !in m1 && '-' !in m2
    requires Upper(m1) != Upper(m2)
    ensures SignatureContent(m1, p1, lib) != SignatureContent(m2, p2, lib)
  {
    ContentMethod(m1, p1, lib);
    ContentMethod(m2, p2, lib);
  }

  /** Joining pair texts with '&' and reading them back gives the pairs. */
  lemma PairTextsRoundTrip(es: seq<(string, string)>)
    requires es != []
    requires forall i :: 0 <= i < |es| ==> '&' !in es[i].0 && '=' !in es[i].0 && '&' !in es[i].1
    ensures SplitPairs(Split(Join(PairTexts(es), "&"), '&')) == es
  {
    var texts := PairTexts(es);
    forall i | 0 <= i < |texts| ensures '&' !in texts[i] {
      assert texts[i] == es[i].0 + "=" + es[i].1;
    }
    SplitJoin(texts, '&');
    forall i | 0 <= i < |es| ensures SplitPair(texts[i]) == es[i] {
      IndexOfAfterPart(es[i].0, '=', es[i].1);
      var t := es[i].0 + "=" + es[i].1;
      assert t[..|es[i].0|] == es[i].0 && t[|es[i].0| + 1..] == es[i].1;
    }
  }

  /**
   * Round trip: when keys hold neither '&' nor '=' and the encoder escapes
   * '&', the content reads back as the method and the signed pairs.
   */
  lemma ContentRoundTrip(requestMethod: string, params: map<string, JsValue>, lib: Lib)
    requires '-' !in requestMethod
    requires forall k :: k in params ==> '&' !in k && '=' !in k
    requires EscapesAmpersand(lib)
    ensures ParseContent(SignatureContent(requestMethod, params, lib))
            == Some((Upper(requestMethod), SignedEntries(params, lib)))
  {
    var es := SignedEntries(params, lib);
    var j := Join(PairTexts(es), "&");
    var s := SignatureContent(requestMethod, params, lib);
    ContentMethod(requestMethod, params, lib);
    assert s[|requestMethod| + 1..] == j;
    if es != [] {
      SignedEntriesCharacterised(params, lib);
      forall i | 0 <= i < |es| ensures '&' !in es[i].0 && '=' !in es[i].0 && '&' !in es[i].1 {
        assert (es[i].0, es[i].1) in es;
      }
      assert PairTexts(es)[0] != "";
      JoinNonEmpty(PairTexts(es), "&");
      PairTextsRoundTrip(es);
    }
  }

  /**
   * Signing binds the parameters: two requests with the same content sign
   * the same method, the same keys, and values with the same encoding.
   */
  lemma ContentBindsParameters(m1: string, p1: map<string, JsValue>, m2: string, p2: map<string, JsValue>, lib: Lib)
    requires '-' !in m1 && '-' !in m2
    requires forall k :: k in p1 ==> '&' !in k && '=' !in k
    requires forall k :: k in p2 ==> '&' !in k && '=' !in k
    requires EscapesAmpersand(lib)
    requires SignatureContent(m1, p1, lib) == SignatureContent(m2, p2, lib)
    ensures Upper(m1) == Upper(m2)
    ensures forall k :: Signs(p2, k, lib) ==> Signs(p1, k, lib)
    ensures forall k :: Signs(p1, k, lib) ==> Signs(p2, k, lib) && EncodedValue(p1[k], lib) == EncodedValue(p2[k], lib)
  {
    ContentRoundTrip(m1, p1, lib);
    ContentRoundTrip(m2, p2, lib);
    SignedEntriesCharacterised(p1, lib);
    SignedEntriesCharacterised(p2, lib);
    forall k | Signs(p1, k, lib) ensures Signs(p2, k, lib) && EncodedValue(p1[k], lib) == EncodedValue(p2[k], lib) {
      assert (k, EncodedValue(p1[k], lib)) in SignedEntries(p1, lib);
    }
    forall k | Signs(p2, k, lib) ensures Signs(p1, k, lib) {
      assert (k, EncodedValue(p2[k], lib)) in SignedEntries(p2, lib);
    }
  }

  // ---- the auth code ----

  lemma PrefixFlat(accessId: JsValue, nonce: JsValue, timestamp: JsValue, env: Env)
    ensures AuthPrefix(accessId, nonce, timestamp, env)
            == "accessId=" + ToStr(accessId) + "&nonce=" + NonceText(nonce, env) + "&timestamp=" + TimestampText(timestamp, env)
  {
    var a, n, t := ToStr(accessId), NonceText(nonce, env), TimestampText(timestamp, env);
    JoinThree("accessId=" + a, "nonce=" + n, "timestamp=" + t, "&");
    Regroup("accessId=" + a + "&", "nonce=", n);
    Regroup("accessId=" + a, "&", "nonce=");
    Regroup("accessId=" + a + "&nonce=" + n + "&", "timestamp=", t);
    Regroup("accessId=" + a + "&nonce=" + n, "&", "timestamp=");
    Separators();
  }

  /** The separators between the fields of an auth code. */
  lemma Separators()
    ensures "&" + "nonce=" == "&nonce="
    ensures "&" + "timestamp=" == "&timestamp="
    ensures "&" + "signature=" == "&signature="
  {
  }

  /** The prefix takes a supplied truthy nonce and timestamp as they are, and fresh ones otherwise. */
  lemma PrefixUsesSuppliedValues(accessId: JsValue, nonce: JsValue, timestamp: JsValue, env: Env)
    ensures Truthy(nonce) && Truthy(timestamp) ==>
              (AuthPrefix(accessId, nonce, timestamp, env)
               == "accessId=" + ToStr(accessId) + "&nonce=" + ToStr(nonce) + "&timestamp=" + ToStr(timestamp))
    ensures !Truthy(nonce) && !Truthy(timestamp) ==>
              (AuthPrefix(accessId, nonce, timestamp, env)
               == "accessId=" + ToStr(accessId) + "&nonce=" + env.uuidV1 + "&timestamp=" + DecimalString(env.now))
  {
    PrefixFlat(accessId, nonce, timestamp, env);
  }

  /** Every auth code opens with `accessId=<id>&nonce=`. */
  lemma AuthCodeLead(requestMethod: string, ak: JsValue, accessId: JsValue, nonce: JsValue,
                     params: map<string, JsValue>, timestamp: JsValue, lib: Lib, env: Env)
    ensures StartsWith(AuthCode(requestMethod, ak, accessId, nonce, params, timestamp, lib, env),
                       "accessId=" + ToStr(accessId) + "&nonce=")
  {
    var prefix := AuthPrefix(accessId, nonce, timestamp, env);
    var code := AuthCode(requestMethod, ak, accessId, nonce, params, timestamp, lib, env);
    var lead := "accessId=" + ToStr(accessId) + "&nonce=";
    PrefixFlat(accessId, nonce, timestamp, env);
    assert prefix[..|lead|] == lead;
    assert code[..|prefix|] == prefix;
  }

  /** The auth code is the join with '&' of the three prefix fields and the signature field. */
  lemma AuthCodeFields(requestMethod: string, ak: JsValue, accessId: JsValue, nonce: JsValue,
                       params: map<string, JsValue>, timestamp: JsValue, lib: Lib, env: Env)
    ensures AuthCode(requestMethod, ak, accessId, nonce, params, timestamp, lib, env)
            == Join(PrefixFields(accessId, nonce, timestamp, env)
                    + ["signature=" + EncodedSignature(requestMethod, ak, AuthPrefix(accessId, nonce, timestamp, env), params, lib)],
                    "&")
  {
    var prefix := AuthPrefix(accessId, nonce, timestamp, env);
    var sig := EncodedSignature(requestMethod, ak, prefix, params, lib);
    JoinAppend(PrefixFields(accessId, nonce, timestamp, env), "&", "signature=" + sig);
    Regroup(prefix + "&", "signature=", sig);
    Regroup(prefix, "&", "signature=");
    Separators();
  }

  /** A `key=value` field holds no '&' when neither part does. */
  lemma FieldText(key: string, value: string)
    requires '&' !in key && '&' !in value
    ensures '&' !in key + value
  {
  }

  /**
   * The auth code begins with its prefix, and when no field holds '&' it is
   * exactly the four fields accessId, nonce, timestamp, signature in that order.
   */
  lemma AuthCodeShape(requestMethod: string, ak: JsValue, accessId: JsValue, nonce: JsValue,
                      params: map<string, JsValue>, timestamp: JsValue, lib: Lib, env: Env)
    ensures StartsWith(AuthCode(requestMethod, ak, accessId, nonce, params, timestamp, lib, env),
                       AuthPrefix(accessId, nonce, timestamp, env) + "&signature=")
    ensures '&' !in ToStr(accessId) && '&' !in NonceText(nonce, env) && '&' !in TimestampText(timestamp, env)
            && EscapesAmpersand(lib) ==>
            Split(AuthCode(requestMethod, ak, accessId, nonce, params, timestamp, lib, env), '&')
            == PrefixFields(accessId, nonce, timestamp, env)
               + ["signature=" + EncodedSignature(requestMethod, ak, AuthPrefix(accessId, nonce, timestamp, env), params, lib)]
  {
    var prefix := AuthPrefix(accessId, nonce, timestamp, env);
    var code := AuthCode(requestMethod, ak, accessId, nonce, params, timestamp, lib, env);
    assert code[..|prefix + "&signature="|] == prefix + "&signature=";
    if '&' !in ToStr(accessId) && '&' !in NonceText(nonce, env) && '&' !in TimestampText(timestamp, env)
       && EscapesAmpersand(lib) {
      var sig := EncodedSignature(requestMethod, ak, prefix, params, lib);
      var fields := PrefixFields(accessId, nonce, timestamp, env) + ["signature=" + sig];
      AuthCodeFields(requestMethod, ak, accessId, nonce, params, timestamp, lib, env);
      FieldText("accessId=", ToStr(accessId));
      FieldText("nonce=", NonceText(nonce, env));
      FieldText("timestamp=", TimestampText(timestamp, env));
      FieldText("signature=", sig);
      forall i | 0 <= i < |fields|
        ensures '&' !in fields[i]
      {
      }
      SplitJoin(fields, '&');
    }
  }

  /** sessionToken never reaches the signature: signing with or without it gives the same auth code. */
  lemma SessionTokenNeverSigned(pathParameters: map<string, JsValue>, queryParameters: map<string, JsValue>,
                                v: JsValue, w: JsValue, requestMethod: string, ak: JsValue, accessId: JsValue,
                                lib: Lib, env: Env)
    ensures SignedParams(pathParameters[SessionTokenKey := w], queryParameters[SessionTokenKey := v])
         == SignedParams(pathParameters - {SessionTokenKey}, queryParameters - {SessionTokenKey})
    ensures AuthCode(requestMethod, ak, accessId, Undefined,
                     SignedParams(pathParameters, queryParameters[SessionTokenKey := v]), Undefined, lib, env)
         == AuthCode(requestMethod, ak, accessId, Undefined,
                     SignedParams(pathParameters, queryParameters - {SessionTokenKey}), Undefined, lib, env)
  {
    var s := SessionTokenKey;
    UpdateThenRemove(pathParameters, s, w);
    UpdateThenRemove(queryParameters, s, v);
    RemoveTwice(pathParameters, s);
    RemoveTwice(queryParameters, s);
    SignedParamsAgree(pathParameters[s := w], queryParameters[s := v], pathParameters - {s}, queryParameters - {s});
    SignedParamsAgree(pathParameters, queryParameters[s := v], pathParameters, queryParameters - {s});
  }

  /** Maps that agree away from sessionToken are signed alike. */
  lemma SignedParamsAgree(p1: map<string, JsValue>, q1: map<string, JsValue>, p2: map<string, JsValue>, q2: map<string, JsValue>)
    requires p1 - {SessionTokenKey} == p2 - {SessionTokenKey}
    requires q1 - {SessionTokenKey} == q2 - {SessionTokenKey}
    ensures SignedParams(p1, q1) == SignedParams(p2, q2)
  {
    SignedParamsSplit(p1, q1);
    SignedParamsSplit(p2, q2);
  }

  /** The signed map is the path parameters overridden by the query parameters, both without sessionToken. */
  lemma SignedParamsSplit(p: map<string, JsValue>, q: map<string, JsValue>)
    ensures SignedParams(p, q) == (p - {SessionTokenKey}) + (q - {SessionTokenKey})
  {
    var l, r := SignedParams(p, q), (p - {SessionTokenKey}) + (q - {SessionTokenKey});
    assert l.Keys == r.Keys;
    forall k | k in l ensures l[k] == r[k] {
      if k in q {
        assert k in q - {SessionTokenKey};
      }
    }
  }
}
