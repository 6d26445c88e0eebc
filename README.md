# BaaS REST SDK client: a Dafny model

This project models the core of the JavaScript BaaS REST SDK: the generated
`APIClient` class and the `genDomain` helper of its code generator.

- **Construction.** `new APIClient(options)` checks the options, fills in
  defaults and stores the certificate only for an https domain.
- **Signing.** Every request carries an `authCode` header:
  `accessId=…&nonce=…&timestamp=…&signature=…`. The signature is an
  HMAC-SHA1 over a canonical string: the upper-cased method, `-`, and the
  sorted `key=encodeURIComponent(value)` pairs of the path and query
  parameters. `sessionToken` is left out, and empty values other than
  numbers are dropped.
- **Request assembly.** `request` merges the maps, chooses between a
  form-encoded and a JSON body, drops the body for GET and HEAD, adds the
  query string only when there is a query, and settles the returned
  promise on `ok`.
- **Endpoint template.** About sixty endpoint methods are generated from
  one template. Each reads its declared parameters into header, query,
  body, form and path buckets, and returns an Error for the first missing
  required parameter. The template is modelled once, with
  `deleteArchiveByDeviceIdUsingDELETE`, `updateUserUsingPUT` and
  `loginUsingPOST` as instances.
- **`genDomain`.** It picks the base address from the Swagger document or
  the build configuration.

JavaScript values are the `JsValues.JsValue` datatype, with truthiness and
`String()` conversion written out. Objects that the source changes in
place (the headers, the query map, the signed copy of the parameters) are
`JsObjects.Dict` objects. HMAC-SHA1, Base64, `encodeURIComponent`,
`JSON.stringify`, `JSON.parse` and `querystring.stringify` are function
values in `Foreign.Lib`. Two properties are assumed, and only by the lemmas
that name them as a premise: `encodeURIComponent` escapes `&`
(`Foreign.EscapesAmpersand`), and `JSON.stringify` of an array or object is
non-empty (`Foreign.JsonNonEmptyForContainers`). Nothing else is stated
about these functions. `uuid.v1()` and
`Date.now()` are the `Foreign.Env` parameter.

Modules: `Wrappers`, `JsValues`/`JsObjects` (js_values.dfy), `Text`
(join, split, key sorting), `Foreign`, `Signing`, `Dispatch`,
`PathTemplate`, `Endpoints`, `Catalog` (the three endpoints), `Client`
(the class), `Generator`.

## Model

| member | source | states |
|---|---|---|
| Client.NewAPIClient | dist/APIClient.js:35-54 | A non-plain-object options value, or a falsy accessKey or accessId, gives the "Illegal parameters" error. Otherwise the fields are assigned, and a domain whose `length` is 0 gives the "Domain parameter" error. Otherwise the result is a fresh client holding ConfigFrom(options) |
| Client.APIClient.constructor | dist/APIClient.js:39-50 | The fields written by the constructor are exactly ConfigFrom(options) |
| Client.ConfigFrom | dist/APIClient.js:39-50 | debug, accessKey and accessId are copied. The domain is always truthy: the given one when truthy, else the demo address. rejectUnauthorized holds unless the option is exactly `false`. ca is the given certificate for an https domain and undefined otherwise |
| Client.DomainCheckCatchesOnlyEmptyContainers | dist/APIClient.js:45-53 | The domain-length error fires exactly for an empty array or an object whose `length` is 0. A string domain never triggers it |
| Client.NumericDomainAccepted | dist/APIClient.js:51-53 | A numeric domain passes the check even though the message asks for a string |
| Client.CredentialsOnlyDefaults | dist/APIClient.js:35-54 | With only the credentials given, the client uses the demo http address, rejectUnauthorized true, no ca, and no https agent |
| Client.HttpsAgentCarriesCertificate | dist/APIClient.js:162-167 | For an https domain the agent carries the rejectUnauthorized flag and the given ca |
| Client.APIClient.Request | dist/APIClient.js:152-201 | Writes only the authCode header, signing path and query parameters with query winning and sessionToken removed. Returns the fetch call RequestCall describes |
| Client.APIClient.SignRequest | dist/APIClient.js:171 | A fresh merge of path and query parameters is signed. The headers gain exactly the authCode entry and the client is untouched |
| Client.APIClient.FetchArguments | dist/APIClient.js:160-187 | Changes nothing. The uri, agent and payload it assembles are RequestUri, RequestAgent and RequestBody of the client's fields |
| Client.APIClient.CallEndpoint | dist/APIClient.js:691-743 | Places each declared parameter, then checks it. Returns at the first missing one. Otherwise merges `$queryParameters` and calls request. Result equals EndpointOutcome |
| Client.APIClient.DeleteArchiveByDeviceIdUsingDELETE | dist/APIClient.js:691-743 | Is the template instance DeleteArchiveByDeviceId |
| Client.APIClient.UpdateUserUsingPUT | dist/APIClient.js:3526-3577 | Is the template instance UpdateUser |
| Client.APIClient.LoginUsingPOST | dist/APIClient.js:2840-2892 | Is the template instance Login |
| Signing.GenAuthCode | dist/APIClient.js:94-126 | Builds exactly the AuthCode string: prefix, `&signature=`, encoded signature of the canonical content |
| Signing.BuildPrefix | dist/APIClient.js:96-100 | Pushing the three fields and joining them gives AuthPrefix |
| Signing.BuildPairs | dist/APIClient.js:108-118 | The loop over the sorted keys collects exactly the `key=value` texts of the signed entries, in order |
| Signing.Wrap4SignatureKey | dist/APIClient.js:74-82 | Deletes sessionToken from the signed map. Sets headers.authCode to the auth code of what is left. Changes nothing else |
| Signing.SignedParamsCharacterised | dist/APIClient.js:172 | The signed map has the keys of path and query parameters except sessionToken. A query value wins over a path value for the same key |
| Signing.SignedParamsSplit | dist/APIClient.js:78 | The signed map is the path parameters overridden by the query parameters, each without sessionToken |
| Signing.SignedEntriesCharacterised | dist/APIClient.js:110-118 | The signed pairs are exactly the keys whose value survives the filter, each with its encoded value, in strictly ascending key order |
| Signing.EntriesMembership | dist/APIClient.js:110-118 | A pair is listed exactly when its key is visited, survives the filter, and carries the encoded value |
| Signing.EntriesAscending | dist/APIClient.js:110-118 | Visiting keys in ascending order yields pairs in ascending key order |
| Signing.FilterRule | dist/APIClient.js:114-115 | Any number (0 included) is kept. undefined, null, false and "" are dropped. true and non-empty strings are kept. Arrays and objects are kept exactly when their JSON text is non-empty |
| Signing.ZeroIsSigned | dist/APIClient.js:110-118 | `{k: 0}` is signed as the single pair `k=<encoded "0">` |
| Signing.EmptyParamsContent | dist/APIClient.js:120 | With no parameters the content is `UPPER(method)-` |
| Signing.ExampleEntries | dist/APIClient.js:110-118 | `{b: "2", a: "1"}` yields the pairs a then b |
| Signing.CanonicalOrderExample | dist/APIClient.js:110-120 | `get` with `{b: "2", a: "1"}` gives `GET-a=<1>&b=<2>`, whatever the insertion order |
| Signing.ContentMethod | dist/APIClient.js:120 | For a method without `-`, the content starts with the upper-cased method, and its first `-` comes right after it |
| Signing.MethodBinding | dist/APIClient.js:120 | Methods that differ after upper-casing give different contents |
| Signing.ContentRoundTrip | dist/APIClient.js:110-120 | Keys may not hold `&` or `=`, and the encoder must escape `&`. Then reading the content back gives the upper-cased method and the signed pairs |
| Signing.PairTextsRoundTrip | dist/APIClient.js:116-120 | Under the same conditions, splitting the `&`-joined `key=value` texts gives back the pairs |
| Signing.ContentBindsParameters | dist/APIClient.js:110-120 | Two requests with equal content have the same upper-cased method, the same signed keys and the same encoded values |
| Signing.AuthCodeLead | dist/APIClient.js:96-100 | Every auth code starts with `accessId=<id>&nonce=` |
| Signing.PrefixFlat | dist/APIClient.js:96-100 | The prefix is `accessId=<id>&nonce=<n>&timestamp=<t>` in this order |
| Signing.PrefixUsesSuppliedValues | dist/APIClient.js:98-99 | A truthy nonce and timestamp are used as given. Falsy ones are replaced by uuid.v1() and Date.now() |
| Signing.AuthCodeShape | dist/APIClient.js:125 | The auth code starts with `prefix&signature=`. Suppose no prefix field holds `&` and the encoder escapes `&`. Then splitting on `&` gives exactly the fields accessId, nonce, timestamp and signature |
| Signing.SessionTokenNeverSigned | dist/APIClient.js:78-79 | A sessionToken in the path or query parameters does not change the signed map or the auth code |
| Dispatch.MergedQuery | dist/APIClient.js:128-137 | With a truthy `$queryParameters`, every one of its entries is written and wins clashes, and other keys are untouched. Without one the query map is unchanged |
| Dispatch.MergeQueryParams | dist/APIClient.js:128-137 | The key-by-key in-place loop leaves the query map equal to MergedQuery |
| Dispatch.FormPayloadCharacterised | dist/APIClient.js:176 | `Object.assign({}, body, form)`: the keys of both, with form values winning |
| Dispatch.FormOverEmptyBody | dist/APIClient.js:176 | Over the empty body `{}` of the generated methods, the payload is the form itself |
| Dispatch.RequestBodyCharacterised | dist/APIClient.js:175-187 | No body exactly for GET or HEAD, in any letter case. Otherwise a non-empty form gives the urlencoded payload and an empty form gives JSON of the body |
| Dispatch.RequestUriCharacterised | dist/APIClient.js:181-183 | Starts with domain+url, and equals it exactly when there are no query parameters. Otherwise `?` and the query string follow |
| Dispatch.RequestAgentCharacterised | dist/APIClient.js:163-168 | An agent exactly for an https domain, carrying rejectUnauthorized and ca |
| Dispatch.RequestCallParts | dist/APIClient.js:170-201 | The fetch call's uri, method, body and agent are those functions. Every header but authCode is passed through. authCode is the signature of path+query |
| Dispatch.OnlyAuthCodeHeaderWritten | dist/APIClient.js:81 | The sent headers are the given ones plus authCode, others unchanged. authCode starts `accessId=<id>&nonce=` |
| Dispatch.SessionTokenSentNotSigned | dist/APIClient.js:172-183 | A sessionToken query parameter stays in the query string but is absent from the signed map |
| Dispatch.GetAndHeadSendNoBody | dist/APIClient.js:185-187 | `get` and `Head` send no body. `post` sends one |
| Dispatch.FormPrecedenceExample | dist/APIClient.js:175-177 | Body `{a: 1}` with form `{a: 2}` sends the encoding of `{a: 2}` |
| Dispatch.ResponseBody | dist/APIClient.js:204-209 | The parsed JSON when the text parses, else the text itself |
| Dispatch.Settle | dist/APIClient.js:212-219 | Resolves exactly when `ok`, with the same {status, statusMessage, response, body} record either way |
| Endpoints.FirstMissing | dist/APIClient.js:706-728 | The index of the first required parameter that is undefined, and none exactly when all are present |
| Endpoints.FillFailsAtFirstMissing | dist/APIClient.js:706-728 | The statements fail exactly when a required parameter is missing. The message is `Missing required  parameter: ` and the first such name in declaration order |
| Endpoints.FillStopsAtFailure | dist/APIClient.js:710-712 | After a failing statement the later ones change nothing: the outcome is that failure |
| Endpoints.FillMapBucket | dist/APIClient.js:714-716 | Query and form buckets hold exactly the defined query and form parameters, under their own names |
| Endpoints.Place | dist/APIClient.js:3549-3550 | A path parameter is substituted into the path as JavaScript's `path.replace` does, `$` patterns included, and recorded even when undefined. Nothing else changes. Any other parameter leaves the path and the path parameters alone, and an undefined one changes nothing |
| Endpoints.FillPathParameters | dist/APIClient.js:3549-3550 | Every declared path parameter is recorded, even when undefined |
| Endpoints.FillSlot | dist/APIClient.js:706-708 | The body and each header hold the last defined value written to them, or their initial value when none was |
| Endpoints.EndpointOutcomeCharacterised | dist/APIClient.js:691-743 | A request is made exactly when no required parameter is missing, with the endpoint's method. Otherwise the first missing one is named |
| Endpoints.DispatchedCall | dist/APIClient.js:730-742 | With every required parameter present the call is dispatched with the endpoint's method. Its uri comes from the filled path and the merged query, and its body from the body and form buckets |
| Endpoints.DispatchedHeader | dist/APIClient.js:733-742 | Every filled header other than authCode is sent with its filled value |
| Endpoints.DispatchedAuthCode | dist/APIClient.js:730-742 | The authCode header signs the filled path parameters together with the merged query |
| Endpoints.UndefinedParametersAreEmpty | dist/APIClient.js:693-695 | Calling with `undefined` behaves as calling with `{}` |
| Catalog.DeleteArchiveFill | dist/APIClient.js:691-728 | sessionToken, archiveName and deviceId are checked in that order. With all three, the session-token header and the two query entries are set |
| Catalog.DeleteArchiveByDeviceIdChecks | dist/APIClient.js:706-728 | The Error names sessionToken, then archiveName, then deviceId, whichever is missing first |
| Catalog.DeleteArchivePrepared | dist/APIClient.js:696-728 | With all three given, the statements produce the JSON headers, the session-token header and the archiveName and deviceId query entries |
| Catalog.DeleteArchiveByDeviceIdRequest | dist/APIClient.js:691-743 | With all three: a DELETE to the path with `?` and the merged query, and body `{}` as JSON |
| Catalog.DeleteArchiveByDeviceIdHeaders | dist/APIClient.js:704-708 | With all three: the session-token header carries the token and Content-Type is `['application/json']` |
| Catalog.UpdateUserFill | dist/APIClient.js:3526-3562 | With all parameters: body is updateUserRequest, the path is UserPath of the userId, userId is a path parameter, and the session-token header is set |
| Catalog.UserIdSubstituted | dist/APIClient.js:3549 | `path.replace('{userId}', userId)` gives `/v1.0/users/child/` followed by the `$`-expanded userId. For a userId without `$` that is the userId itself |
| Catalog.DollarUserIdPath | dist/APIClient.js:3549 | For userId `$&` the substituted path is the unfilled template `/v1.0/users/child/{userId}` |
| Catalog.UpdateUserTarget | dist/APIClient.js:3526-3577 | A PUT to domain + UserPath of the userId, with the merged query. For a userId without `$` the path is `/v1.0/users/child/<userId>` |
| Catalog.UpdateUserDollarUserId | dist/APIClient.js:3526-3577 | Called with userId `$&`, updateUserUsingPUT requests `/v1.0/users/child/{userId}` |
| Catalog.UpdateUserPayload | dist/APIClient.js:3537-3556 | The JSON of updateUserRequest is the body, and the session-token header carries the token |
| Catalog.UpdateUserSignsUserId | dist/APIClient.js:3550 | The auth code signs userId together with the query parameters |
| Catalog.LoginFill | dist/APIClient.js:2840-2875 | appToken, loginName and password are checked in that order, and the form holds all three |
| Catalog.LoginRequest | dist/APIClient.js:2840-2892 | A POST whose body is the form encoding of the three fields |
| Catalog.LoginContentType | dist/APIClient.js:2853 | The login request is sent with Content-Type `['application/x-www-form-urlencoded']` |
| PathTemplate.Find | dist/APIClient.js:3549 | The first occurrence of the placeholder, or none exactly when it does not occur |
| PathTemplate.ReplaceAsWritten | dist/APIClient.js:3549 | With no occurrence of the pattern the string is unchanged |
| PathTemplate.ReplaceAsWrittenFillsPlaceholder | dist/APIClient.js:3549 | When the first occurrence is right after `p`, the text before and after it is kept and the replacement, with its `$` patterns expanded, goes between them |
| PathTemplate.ReplaceLiteral | dist/APIClient.js:3549 | With no occurrence the path is unchanged. Otherwise the text before the first occurrence, then the value, then the text after it. The length changes by the value's length minus the placeholder's |
| PathTemplate.ReplaceLiteralFillsPlaceholder | dist/APIClient.js:3549 | Substituting the first placeholder yields prefix + value + suffix, so the value reads back verbatim |
| PathTemplate.ExpandWithoutDollar | dist/APIClient.js:3549 | A replacement without `$` is inserted as it is |
| PathTemplate.ReplaceAgreesWithoutDollar | dist/APIClient.js:3549 | For values without `$` the JavaScript replace and the verbatim substitution agree |
| PathTemplate.DollarAmpersandRestoresPlaceholder | dist/APIClient.js:3549 | userId `$&` leaves `/v1.0/users/child/{userId}` as written, but gives `/v1.0/users/child/$&` verbatim |
| Generator.GenDomain | src/generator.js:44-59 | Without a document host: the configured protocol, `://`, host and basePath. With a host that has a scheme: host + basePath. Otherwise: the configured protocol, `://`, host and basePath |
| Generator.DocHostOverridesConfig | src/generator.js:44-56 | Once the document names a host, the configured host and basePath play no part. Only the configured protocol still counts |
| Generator.SchemeHostIgnoresConfig | src/generator.js:51-52 | A host with a scheme ignores the configuration altogether, both as written and corrected |
| Generator.DocBasePathIsSuffix | src/generator.js:51-56 | Whenever the document names a host, its basePath is the tail of the domain |
| Generator.UpperCaseSchemeNotRecognised | src/generator.js:51 | The scheme test is case-sensitive. `HTTPS://x` gets `http://` put in front |
| Generator.ShippedFallback | src/generator.js:46-49 | Without a document host, the shipped configuration gives `http://demo.heclouds.com/baasapi` |
| Generator.GenDomainCorrected | src/generator.js:44-59 | Same three branches, with an absent document basePath contributing nothing |
| Generator.CorrectedDomainLayout | src/generator.js:51-56 | Whenever the document names a host, the corrected domain equals the host part (the host, or the configured protocol and `://` before it) followed by exactly the basePath text |
| Generator.CorrectionOnlyTouchesAbsentBasePath | src/generator.js:52-55 | The corrected and as-written versions agree whenever the document states a basePath |
| Generator.AbsentBasePathRendersUndefined | src/generator.js:55 | Host `x.org` with no basePath gives `http://x.orgundefined` as written |
| Generator.AbsentBasePathCorrected | src/generator.js:55 | The same document gives `http://x.org` when corrected |
| Text.SortedKeysCharacterised | dist/APIClient.js:110 | `Object.keys(params).sort()`: strictly ascending, holding exactly the keys |
| Text.AscendingListingUnique | dist/APIClient.js:110 | Any strictly ascending listing of a key set is the sorted one |
| JsValues.Upper | dist/APIClient.js:120 | `toUpperCase()` preserves length and upper-cases each ASCII letter in place |

## Left out

- Network and promises: `fetch`, the https agent and awaiting the response are not modelled. The response is an input to `Dispatch.Settle`.
- Response body reading: `ret.text()` after a failed `ret.json()` is modelled as the same body text. Whether node-fetch allows reading a body twice is not modelled.
- Logging: the `logger` calls and all console output change no state and are left out.
- Cryptography: HMAC-SHA1, Base64 and `encodeURIComponent` are abstract functions. The only property assumed is that `encodeURIComponent` escapes `&`. `Signing.ContentRoundTrip` and `Signing.ContentBindsParameters` require it, and `Signing.AuthCodeShape` states its second half under it.
- Serialisers: `JSON.stringify`, `JSON.parse` and `querystring.stringify` are abstract functions too. The only property assumed is that `JSON.stringify` of an array or object is non-empty, under which `Signing.FilterRule` states that arrays and objects are kept. `JSON.stringify(undefined)` returning `undefined`, not a string, is not modelled.
- Clock and ids: `uuid.v1()` and `Date.now()` are the values in `Foreign.Env`.
- Numbers: only integers are modelled, and `Num(n)` stands for a JavaScript number only when |n| <= 2^53. Floating point, NaN and their `String()` forms are not modelled. From 1e21 on, `String()` switches to exponent form (`1e+21`), which `JsValues.DecimalString` does not model, so a numeric parameter that large would be signed differently.
- Sorting: `Text.SortedKeys` compares strings by code point, while JavaScript's `sort()` compares UTF-16 code units. The two orders differ only for characters outside the Basic Multilingual Plane.
- `JsValues.Upper`: upper-cases ASCII letters only. `toUpperCase` also maps other Unicode letters.
- Key order: objects are maps, so insertion order is not modelled. The serialisers receive maps.
- Dispatch.MergedQuery: treats a truthy `$queryParameters` that is not a plain object as having no entries. In JavaScript a string or array contributes its index keys.
- Dispatch.FormPayload: treats a body that is not a plain object as empty. In JavaScript a string or array body contributes its index keys.
- Endpoints.EndpointOutcome: requires the parameters argument to be `undefined` or an object. `null` makes the source throw a TypeError, and property reads on other primitives are not modelled.
- Endpoint coverage: only three of the roughly sixty generated methods are written out. The rest differ only in their declarations.
- Generator: `genDomain` is the only part of the generator modelled. Loading the Swagger document, mustache templating, file output and certificate copying are I/O.
- Constructor errors: a thrown Error is modelled as a `Failure` result of `Client.NewAPIClient`. A missing endpoint parameter is the `MissingParameter` outcome.

## Findings

| source | as written | input that shows it | evidently intended | confidence | as-written member | corrected member |
|---|---|---|---|---|---|---|
| dist/APIClient.js:3549 | `path.replace('{userId}', value)` uses a string replacement, and JavaScript expands `$$`, `$&`, `` $` `` and `$'` in it | userId `$&` leaves the path as `/v1.0/users/child/{userId}` | the parameter's text appears verbatim in the path | medium, not executed | PathTemplate.DollarAmpersandRestoresPlaceholder | PathTemplate.ReplaceLiteralFillsPlaceholder |
| src/generator.js:52-55 | `${doc.basePath}` renders an absent basePath as `undefined` | a document with host `x.org` and no basePath gives `http://x.orgundefined` | an absent basePath serves the API directly under the host (section "Swagger Object" of the Swagger 2.0 specification) | medium, not executed | Generator.AbsentBasePathRendersUndefined | Generator.AbsentBasePathCorrected |

The endpoint model follows the source and substitutes path parameters with
`PathTemplate.ReplaceAsWritten`. `Catalog.UpdateUserDollarUserId` shows the
finding at the level of `updateUserUsingPUT`.
`PathTemplate.ReplaceAgreesWithoutDollar` proves that it equals the verbatim
`PathTemplate.ReplaceLiteral` for every value without `$`.
