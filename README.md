# Verified model of the agritech API module's demo responder and token injection

The mobile client's `utils/api.ts` sets up two HTTP clients. The authenticated client
runs a request interceptor that attaches the stored access token as
`Authorization: Bearer <token>`. In demo mode, both clients get a mock transport
(`mockAdapter`) that never touches the network. It normalises the request's method
and url. It tests them against six route patterns in a fixed order, where the first
match wins. It then answers with a canned body, status 200 or 201, an empty header
map and the request's own configuration object. A request that no route matches gets
an empty `200 OK`.

The project has three modules:

- `JsText` (`js_text.dfy`) holds the JavaScript semantics the module relies on:
  - `null`/`undefined` as `None`;
  - the truthiness of `a || b` on strings;
  - `toLowerCase` on ASCII letters;
  - the two literal regex shapes the routes use. An anchored `/x$/` has no `m` flag,
    so `$` is the end of input and the test is `EndsWith`. A plain `/x/` is `Contains`.
- `Api` (`api_client.dfy`) holds the request configuration object, which is a class
  because the interceptor writes its header map in place. It also holds the
  interceptor step `InjectToken` and the header map it produces, `WithBearer`.
  `BearerCredential` reads a header value the way section 2.1 of RFC 6750 defines
  it: `credentials = "Bearer" 1*SP b64token`, with the scheme name compared ignoring
  case. It is the reference the interceptor's output is checked against.
- `Demo` (`demo_responder.dfy`) holds the route classifier. `Classify` is the
  source's chain of guarded returns. Beside it is an independent reference: an ordered
  `RouteTable` of (verb, pattern, route) rules with first-match dispatch
  (`FirstMatchIndex`, `Dispatch`). `ClassifyIsTableDispatch` proves the two agree on
  every input. The module also has the canned payloads (`DemoUser`, the demo fields,
  the pest prediction), the statuses and `MockAdapter`.

Where the code is more specific than a plain reading of "method defaults to get" or
"token present", the model follows the code. JavaScript's `||` treats the empty
string as absent, so an empty method string is routed as `get`. An empty stored token
adds no `Authorization` header.

## Model

| member | source | states |
|---|---|---|
| JsText.OrElse | utils/api.ts:50-51 | JavaScript's logical-or default on a string that may be absent: a non-empty string is kept, and an absent or empty one gives the fallback |
| JsText.Truthy | utils/api.ts:24 | no contract: the truthiness test `if (token)`, only a non-empty string is truthy; characterised through `Api.WithBearer` and `Api.InjectToken` |
| JsText.EndsWith | utils/api.ts:54 | the meaning of an anchored literal regex, one that ends in `$` without the `m` flag; a match needs the url to be at least as long as the suffix and to end in the suffix's last character |
| JsText.Contains | utils/api.ts:68 | the meaning of an unanchored literal regex; a match needs the url to be at least as long as the needle, and the empty needle is found in every string |
| JsText.Lower | utils/api.ts:51 | lower-casing keeps the length, and every position holds the lower-cased character of the input |
| JsText.LowerCharEqualIff | utils/api.ts:51 | two characters lower-case alike if and only if they are the same character or the two cases of one ASCII letter |
| JsText.LowerEqualIff | utils/api.ts:51 | two method strings lower-case to the same string if and only if they are equal ignoring ASCII letter case |
| JsText.LowerIsTargetIff | utils/api.ts:51 | against a lower-case target, `toLowerCase()` yields the target if and only if the input spells it in any mixture of cases |
| Api.WithBearer | utils/api.ts:24-26 | a truthy token sets `Authorization` to `"Bearer " + token`; every other header keeps its presence and value; a null or empty token leaves the headers as they were; `Authorization` is present afterwards if and only if the token is truthy or it was present before |
| Api.RequestConfig.constructor | utils/api.ts:21-27 | a request configuration object holds the url, method and header map it is given; the interceptor changes its headers in place and the demo responder echoes the object itself |
| Api.BearerCredential | utils/api.ts:25 | a value read as a Bearer credential starts with the scheme name in any case and a space, continues with spaces only, and ends in the credential, which has the `b64token` syntax |
| Api.BearerValueRoundTrip | utils/api.ts:25 | `Bearer <t>` reads back as exactly `t` if and only if `t` has the `b64token` syntax |
| Api.BearerRoundTrip | utils/api.ts:25 | the written `Authorization` value reads back as exactly the stored token if and only if the token has the `b64token` syntax |
| Api.BearerSchemeIgnoresCase | utils/api.ts:25 | `bearer ab` reads as the credential `ab`: the scheme name is compared ignoring case |
| Api.BearerRejectsInnerSpace | utils/api.ts:25 | `Bearer a b` is not a Bearer credential, because a space is not part of a token |
| Api.WithBearerIdempotent | utils/api.ts:24-26 | running the injection twice with the same token gives the same headers as running it once |
| Api.InjectToken | utils/api.ts:21-28 | the interceptor returns the very config object it received; its headers become `WithBearer` of the old headers; url and method are unchanged; with a null or empty token nothing about the config changes |
| Demo.UrlText | utils/api.ts:50 | a present url is used as it is, and an absent url reads as the empty string |
| Demo.NormalizeMethod | utils/api.ts:51 | the normalised method contains no upper-case ASCII letter |
| Demo.NormalizeMethodIff | utils/api.ts:51 | the normalised method equals a lower-case verb if and only if the request asks for it: an absent or empty method means `get`, any other method names the verb in any case |
| Demo.MethodCaseInsensitive | utils/api.ts:51 | two methods that differ only in letter case select the same route for every url |
| Demo.PostSpellings | utils/api.ts:51 | `POST`, `Post` and `post` select the same route for every url |
| Demo.MissingMethodIsGet | utils/api.ts:51 | an absent method, an empty method, `get` and `GET` select the same route for every url |
| Demo.Classify | utils/api.ts:54-161 | the chain of guarded returns in the source's order; the login, register, reset/forgot/verify and pest routes answer only `post`, the dashboard and field routes only `get`, and an empty url always falls back; characterised completely by `Demo.ClassifyIsTableDispatch` and the route lemmas |
| Demo.RouteOf | utils/api.ts:50-51 | the route of a request configuration: the `post` routes are reached only by requests asking for `post`, the `get` routes only by requests asking for `get`, and an absent or empty url falls back |
| Demo.FirstMatchIndex | utils/api.ts:54-152 | the selected rule matches and no earlier rule does; no selection means that no rule matches |
| Demo.Dispatch | utils/api.ts:54-161 | over a table with no fallback rule, the fallback is chosen if and only if no rule matches |
| Demo.FirstMatchIs | utils/api.ts:54-152 | a rule that matches when no earlier rule does is the one selected |
| Demo.LoginRuleGuard | utils/api.ts:54 | the login rule matches if and only if the verb is `post` and the url ends with `/auth/login` |
| Demo.RegisterRuleGuard | utils/api.ts:68 | the register rule matches if and only if the verb is `post` and the url contains `/auth/register` |
| Demo.AuthMiscRuleGuard | utils/api.ts:81 | the reset/forgot/verify rule matches if and only if the verb is `post` and the url contains one of the three paths |
| Demo.DashboardRuleGuard | utils/api.ts:92 | the dashboard rule matches if and only if the verb is `get` and the url ends with `/dashboard` or `/dashboard/` |
| Demo.FieldDetailRuleGuard | utils/api.ts:108 | the field-detail rule matches if and only if the verb is `get` and the url contains `/fields/` |
| Demo.PestDetectRuleGuard | utils/api.ts:130 | the pest-detection rule matches if and only if the verb is `post` and the url ends with `/pests/detect` |
| Demo.ClassifyIsTableDispatch | utils/api.ts:54-161 | the source's chain of guarded returns selects, for every verb and url, the route of the first matching rule of the ordered table, and the fallback when none matches |
| Demo.LoginRoute | utils/api.ts:54 | a request reaches the login route if and only if it asks for `post` and its url ends with `/auth/login` |
| Demo.RegisterRoute | utils/api.ts:54-68 | a request reaches the register route if and only if it asks for `post`, its url contains `/auth/register`, and the url does not end with `/auth/login` |
| Demo.AuthMiscRoute | utils/api.ts:54-81 | a request reaches the reset/forgot/verify route if and only if it asks for `post`, contains one of those paths, and matched neither login nor register |
| Demo.DashboardRoute | utils/api.ts:92 | a request reaches the dashboard if and only if it asks for `get` and its url ends with `/dashboard` or `/dashboard/` |
| Demo.FieldDetailRoute | utils/api.ts:92-108 | a request reaches the field detail if and only if it asks for `get`, its url contains `/fields/`, and the url does not end with a dashboard path |
| Demo.PestDetectRoute | utils/api.ts:54-130 | a request reaches pest detection if and only if it asks for `post`, its url ends with `/pests/detect`, and the url contains none of the register, reset, forgot or verify paths |
| Demo.OtherVerbsFallBack | utils/api.ts:51-161 | a method that is neither `get` nor `post` in any case always gets the fallback route |
| Demo.MissingUrlFallsBack | utils/api.ts:50-161 | a request with an absent or empty url gets the fallback route, whatever its method |
| Demo.LoginWinsOverRegister | utils/api.ts:54-68 | a `post` url that ends with `/auth/login` and also contains `/auth/register` gets the login route |
| Demo.LoginAndRegisterOverlap | utils/api.ts:54-68 | such urls exist: `post /auth/register/auth/login` is answered by the login route |
| Demo.DashboardWinsOverFields | utils/api.ts:92-108 | a `get` url that ends with `/dashboard` and also contains `/fields/` gets the dashboard route |
| Demo.DashboardAndFieldsOverlap | utils/api.ts:92-108 | such urls exist: `get /fields/7/dashboard` is answered by the dashboard route |
| Demo.LoginNeedsSuffix | utils/api.ts:54 | `/auth/login` followed by more text that does not itself end in `n` never reaches the login route |
| Demo.CallbackIsUnrouted | utils/api.ts:54-161 | the verb `post` with the url `/auth/login/callback` matches no route |
| Demo.LoginPrefixFallsBack | utils/api.ts:51-161 | `POST /auth/login/callback` contains the login path but gets the fallback route |
| Demo.BodyOf | utils/api.ts:39-160 | each route has its own body shape and only the fallback's body is empty; the login and register bodies carry the demo user |
| Demo.StatusOf | utils/api.ts:54-161 | every route answers 200 or 201, and 201 exactly for registration |
| Demo.StatusTextOf | utils/api.ts:54-161 | the status text is `Created` for 201 and `OK` for 200 |
| Demo.MockAdapter | utils/api.ts:46-162 | every request is answered and none fails; the answer echoes the same config object, has an empty header map and status 200 or 201; it is 201 exactly when the request reaches the register route; the status text matches the status; the body is the route's canned body |
| Demo.LoginResponse | utils/api.ts:39-66 | a `post` whose url ends with `/auth/login` gets 200 `OK` with `demo-access-token`, `demo-refresh-token` and the demo user |
| Demo.RegisterResponse | utils/api.ts:39-79 | a `post` whose url contains `/auth/register` and does not end with `/auth/login` gets 201 `Created` with a non-empty message and the demo user |
| Demo.DashboardResponse | utils/api.ts:92-105 | a `get` whose url ends with `/dashboard` or `/dashboard/` gets 200 `OK` with exactly two fields, ids 1 and 2, named `Demo Field A` and `Demo Field B` |
| Demo.FieldDetailResponse | utils/api.ts:108-127 | the field-detail route answers 200 `OK` with a single field whose id is 1 and name `Demo Field A` |
| Demo.PestDetectResponse | utils/api.ts:130-152 | the pest-detection route answers 200 `OK` with a non-empty prediction list whose first score is the literal 0.92 |
| Demo.FallbackResponse | utils/api.ts:154-161 | an unmatched request gets 200 `OK` with an empty body and empty headers, and the same config object |

## Left out

- Creating the two axios instances, the base URL and the common `Content-Type` header
  (utils/api.ts:4-18) are library configuration read from the environment.
- The `AsyncStorage.getItem('access_token')` read (utils/api.ts:22) is device-storage
  I/O. The token it resolves to is a parameter of `InjectToken`. A failing read is
  not modelled.
- The interceptor's error handler (utils/api.ts:29-31) only re-rejects a promise.
- The 300 ms delay before answering (utils/api.ts:48) is timing only.
  `MockAdapter` returns the response itself rather than a promise of it.
- The `IS_DEMO_MODE` switch and the installation of the adapter on both instances
  (utils/api.ts:5, 38, 164-165) are load-time wiring.
- The unauthenticated client has no interceptor, so there is nothing of it to model.
- `confidence_score: 0.92` is kept as the literal `DecimalLiteral(92, -2)`. No
  floating-point value is computed or compared.
- JsText.Lower: lower-cases only the ASCII letters `A`-`Z`. JavaScript's
  `toLowerCase` also maps other Unicode letters. None of them lower-cases to a
  letter of `get` or `post`, so the chosen route is the same.
- General regular-expression semantics are not modelled. Only the suffix and
  substring tests that the six patterns express are modelled.
- Api.BearerRoundTrip: the interceptor (utils/api.ts:25) sends any truthy token as it
  is, whether or not it has the `b64token` syntax. A token outside that syntax is
  written all the same but does not read back as a Bearer credential.
- The request headers are a plain string map. The case-insensitive header lookup of
  axios's header object is not modelled.
