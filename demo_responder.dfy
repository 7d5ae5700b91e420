/**
 * The demo-mode transport: a stateless responder that answers every request from
 * canned data. The request's method and url are normalised, tested against six
 * route patterns in a fixed order (first match wins), and a response is built
 * that carries a status, a status text, an empty header map and the request's own
 * configuration object.
 */
module Demo {
  import opened JsText
  import opened Api

  // ---------------------------------------------------------------------------
  // Routes

  datatype Route = Login | Register | AuthMisc | Dashboard | FieldDetail | PestDetect | Default

  const LoginPath: string := "/auth/login"
  const RegisterPath: string := "/auth/register"
  const ResetPath: string := "/auth/reset"
  const ForgotPath: string := "/auth/forgot"
  const VerifyPath: string := "/auth/verify"
  const DashboardPath: string := "/dashboard"
  const DashboardSlashPath: string := "/dashboard/"
  const FieldsPath: string := "/fields/"
  const PestDetectPath: string := "/pests/detect"

  /** `(config.url || '').toString()` */
  function UrlText(url: Option<string>): (u: string)
    ensures url.Some? ==> u == url.value
    ensures url.None? ==> u == ""
  {
    OrElse(url, "")
  }

  /** `(config.method || 'get').toLowerCase()` */
  function NormalizeMethod(httpMethod: Option<string>): (m: string)
    ensures IsLowerCase(m)
  {
    LowerIsLowerCase(OrElse(httpMethod, "get"));
    Lower(OrElse(httpMethod, "get"))
  }

  /**
   * The request asks for the lower-case `verb`: an absent or empty method means
   * `get`, any other method names the verb in any mixture of letter cases.
   */
  predicate Requests(httpMethod: Option<string>, verb: string)
  {
    if httpMethod.None? || httpMethod.value == "" then verb == "get"
    else EqualsIgnoringCase(httpMethod.value, verb)
  }

  /**
   * The source's chain of guarded returns, in its order. Every route but the
   * fallback belongs to one verb, and an empty url matches no pattern.
   */
  function Classify(verb: string, url: string): (r: Route)
    ensures r in {Login, Register, AuthMisc, PestDetect} ==> verb == "post"
    ensures r in {Dashboard, FieldDetail} ==> verb == "get"
    ensures url == "" ==> r == Default
  {
    if verb == "post" && EndsWith(url, LoginPath) then Login
    else if verb == "post" && Contains(url, RegisterPath) then Register
    else if verb == "post" && (Contains(url, ResetPath) || Contains(url, ForgotPath) || Contains(url, VerifyPath)) then AuthMisc
    else if verb == "get" && (EndsWith(url, DashboardPath) || EndsWith(url, DashboardSlashPath)) then Dashboard
    else if verb == "get" && Contains(url, FieldsPath) then FieldDetail
    else if verb == "post" && EndsWith(url, PestDetectPath) then PestDetect
    else Default
  }

  /** The route a request configuration is answered by. */
  function RouteOf(httpMethod: Option<string>, url: Option<string>): (r: Route)
    ensures r in {Login, Register, AuthMisc, PestDetect} ==> Requests(httpMethod, "post")
    ensures r in {Dashboard, FieldDetail} ==> Requests(httpMethod, "get")
    ensures UrlText(url) == "" ==> r == Default
  {
    NormalizeMethodIff(httpMethod, "post");
    NormalizeMethodIff(httpMethod, "get");
    Classify(NormalizeMethod(httpMethod), UrlText(url))
  }

  // ---------------------------------------------------------------------------
  // The route table: the same dispatch written as an ordered list of rules

  /** A literal regex: an anchored suffix or a substring, with alternatives. */
  datatype Pattern = Suffix(alternatives: seq<string>) | Substring(alternatives: seq<string>)

  predicate PatternMatches(p: Pattern, url: string)
  {
    match p
    case Suffix(xs) => exists k :: 0 <= k < |xs| && EndsWith(url, xs[k])
    case Substring(xs) => exists k :: 0 <= k < |xs| && Contains(url, xs[k])
  }

  datatype Rule = Rule(verb: string, pattern: Pattern, route: Route)

  predicate RuleMatches(rule: Rule, verb: string, url: string)
  {
    verb == rule.verb && PatternMatches(rule.pattern, url)
  }

  const LoginRule: Rule := Rule("post", Suffix([LoginPath]), Login)
  const RegisterRule: Rule := Rule("post", Substring([RegisterPath]), Register)
  const AuthMiscRule: Rule := Rule("post", Substring([ResetPath, ForgotPath, VerifyPath]), AuthMisc)
  const DashboardRule: Rule := Rule("get", Suffix([DashboardPath, DashboardSlashPath]), Dashboard)
  const FieldDetailRule: Rule := Rule("get", Substring([FieldsPath]), FieldDetail)
  const PestDetectRule: Rule := Rule("post", Suffix([PestDetectPath]), PestDetect)

  /** The routes in the order the source tests them. */
  const RouteTable: seq<Rule> :=
    [LoginRule, RegisterRule, AuthMiscRule, DashboardRule, FieldDetailRule, PestDetectRule]

  /** The position of the first rule that matches, if any. */
  function FirstMatchIndex(rules: seq<Rule>, verb: string, url: string): (r: Option<nat>)
    ensures r.Some? ==> r.value < |rules| && RuleMatches(rules[r.value], verb, url)
    ensures r.Some? ==> forall j :: 0 <= j < r.value ==> !RuleMatches(rules[j], verb, url)
    ensures r.None? ==> forall j :: 0 <= j < |rules| ==> !RuleMatches(rules[j], verb, url)
  {
    if rules == [] then None
    else if RuleMatches(rules[0], verb, url) then Some(0)
    else
      match FirstMatchIndex(rules[1..], verb, url)
      case None => None
      case Some(i) => Some(i + 1)
  }

  /** The route of the first matching rule, or the fallback when none matches. */
  function Dispatch(rules: seq<Rule>, verb: string, url: string): (r: Route)
    ensures (forall j :: 0 <= j < |rules| ==> rules[j].route != Default) ==>
      (r == Default <==> forall j :: 0 <= j < |rules| ==> !RuleMatches(rules[j], verb, url))
  {
    match FirstMatchIndex(rules, verb, url)
    case None => Default
    case Some(i) => rules[i].route
  }

  /** A rule that matches when none before it does is the one selected. */
  lemma FirstMatchIs(rules: seq<Rule>, verb: string, url: string, i: nat)
    requires i < |rules| && RuleMatches(rules[i], verb, url)
    requires forall j :: 0 <= j < i ==> !RuleMatches(rules[j], verb, url)
    ensures FirstMatchIndex(rules, verb, url) == Some(i)
  {
  }

  // Each rule of the table matches exactly when the corresponding guard of `Classify` holds.

  lemma LoginRuleGuard(verb: string, url: string)
    ensures RuleMatches(LoginRule, verb, url) <==> verb == "post" && EndsWith(url, LoginPath)
  {
    if EndsWith(url, LoginPath) { assert EndsWith(url, LoginRule.pattern.alternatives[0]); }
  }

  lemma RegisterRuleGuard(verb: string, url: string)
    ensures RuleMatches(RegisterRule, verb, url) <==> verb == "post" && Contains(url, RegisterPath)
  {
    if Contains(url, RegisterPath) { assert Contains(url, RegisterRule.pattern.alternatives[0]); }
  }

  lemma AuthMiscRuleGuard(verb: string, url: string)
    ensures RuleMatches(AuthMiscRule, verb, url) <==>
      verb == "post" && (Contains(url, ResetPath) || Contains(url, ForgotPath) || Contains(url, VerifyPath))
  {
    var xs := AuthMiscRule.pattern.alternatives;
    if Contains(url, ResetPath) { assert Contains(url, xs[0]); }
    if Contains(url, ForgotPath) { assert Contains(url, xs[1]); }
    if Contains(url, VerifyPath) { assert Contains(url, xs[2]); }
    if PatternMatches(AuthMiscRule.pattern, url) {
      var k :| 0 <= k < |xs| && Contains(url, xs[k]);
      assert xs[k] == ResetPath || xs[k] == ForgotPath || xs[k] == VerifyPath;
    }
  }

  lemma DashboardRuleGuard(verb: string, url: string)
    ensures RuleMatches(DashboardRule, verb, url) <==>
      verb == "get" && (EndsWith(url, DashboardPath) || EndsWith(url, DashboardSlashPath))
  {
    var xs := DashboardRule.pattern.alternatives;
    assert |xs| == 2 && xs[0] == DashboardPath && xs[1] == DashboardSlashPath;
    assert PatternMatches(DashboardRule.pattern, url) <==> EndsWith(url, xs[0]) || EndsWith(url, xs[1]) by {
      if PatternMatches(DashboardRule.pattern, url) {
        var k :| 0 <= k < |xs| && EndsWith(url, xs[k]);
        assert k == 0 || k == 1;
      }
    }
  }

  lemma FieldDetailRuleGuard(verb: string, url: string)
    ensures RuleMatches(FieldDetailRule, verb, url) <==> verb == "get" && Contains(url, FieldsPath)
  {
    if Contains(url, FieldsPath) { assert Contains(url, FieldDetailRule.pattern.alternatives[0]); }
  }

  lemma PestDetectRuleGuard(verb: string, url: string)
    ensures RuleMatches(PestDetectRule, verb, url) <==> verb == "post" && EndsWith(url, PestDetectPath)
  {
    if EndsWith(url, PestDetectPath) { assert EndsWith(url, PestDetectRule.pattern.alternatives[0]); }
  }

  /** The source's if-chain is first-match dispatch over the route table. */
  lemma ClassifyIsTableDispatch(verb: string, url: string)
    ensures Classify(verb, url) == Dispatch(RouteTable, verb, url)
  {
    var t := RouteTable;
    LoginRuleGuard(verb, url);
    RegisterRuleGuard(verb, url);
    AuthMiscRuleGuard(verb, url);
    DashboardRuleGuard(verb, url);
    FieldDetailRuleGuard(verb, url);
    PestDetectRuleGuard(verb, url);
    var k := if RuleMatches(t[0], verb, url) then 0
      else if RuleMatches(t[1], verb, url) then 1
      else if RuleMatches(t[2], verb, url) then 2
      else if RuleMatches(t[3], verb, url) then 3
      else if RuleMatches(t[4], verb, url) then 4
      else if RuleMatches(t[5], verb, url) then 5
      else 6;
    assert forall j :: 0 <= j < k ==> !RuleMatches(t[j], verb, url) by {
      forall j | 0 <= j < k ensures !RuleMatches(t[j], verb, url) {
        assert j == 0 || j == 1 || j == 2 || j == 3 || j == 4 || j == 5;
      }
    }
    if k < 6 {
      FirstMatchIs(t, verb, url, k);
    }
  }

  // ---------------------------------------------------------------------------
  // Method normalisation

  /** The normalised method is the lower-case verb exactly when the request asks for it. */
  lemma NormalizeMethodIff(httpMethod: Option<string>, verb: string)
    requires IsLowerCase(verb)
    ensures NormalizeMethod(httpMethod) == verb <==> Requests(httpMethod, verb)
  {
    if httpMethod.None? || httpMethod.value == "" {
      LowerIsTargetIff("get", "get");
      assert EqualsIgnoringCase("get", "get");
    } else {
      LowerIsTargetIff(httpMethod.value, verb);
    }
  }

  /** Methods that differ only in letter case select the same route. */
  lemma MethodCaseInsensitive(a: string, b: string, url: Option<string>)
    requires EqualsIgnoringCase(a, b)
    ensures RouteOf(Some(a), url) == RouteOf(Some(b), url)
  {
    LowerEqualIff(a, b);
  }

  /** `POST`, `Post` and `post` are routed alike. */
  lemma PostSpellings(url: Option<string>)
    ensures RouteOf(Some("POST"), url) == RouteOf(Some("Post"), url) == RouteOf(Some("post"), url)
  {
    MethodCaseInsensitive("POST", "post", url);
    MethodCaseInsensitive("Post", "post", url);
  }

  /** A missing or empty method is routed as `get`. */
  lemma MissingMethodIsGet(url: Option<string>)
    ensures RouteOf(None, url) == RouteOf(Some(""), url) == RouteOf(Some("get"), url) == RouteOf(Some("GET"), url)
  {
    MethodCaseInsensitive("GET", "get", url);
    NormalizeMethodIff(Some("get"), "get");
    NormalizeMethodIff(None, "get");
  }

  // ---------------------------------------------------------------------------
  // Which requests reach which route

  lemma LoginRoute(httpMethod: Option<string>, url: Option<string>)
    ensures RouteOf(httpMethod, url) == Login <==> Requests(httpMethod, "post") && EndsWith(UrlText(url), LoginPath)
  {
    NormalizeMethodIff(httpMethod, "post");
  }

  lemma RegisterRoute(httpMethod: Option<string>, url: Option<string>)
    ensures RouteOf(httpMethod, url) == Register <==>
      Requests(httpMethod, "post") && Contains(UrlText(url), RegisterPath) && !EndsWith(UrlText(url), LoginPath)
  {
    NormalizeMethodIff(httpMethod, "post");
  }

  lemma AuthMiscRoute(httpMethod: Option<string>, url: Option<string>)
    ensures RouteOf(httpMethod, url) == AuthMisc <==>
      var u := UrlText(url);
      Requests(httpMethod, "post") && !EndsWith(u, LoginPath) && !Contains(u, RegisterPath)
      && (Contains(u, ResetPath) || Contains(u, ForgotPath) || Contains(u, VerifyPath))
  {
    NormalizeMethodIff(httpMethod, "post");
  }

  lemma DashboardRoute(httpMethod: Option<string>, url: Option<string>)
    ensures RouteOf(httpMethod, url) == Dashboard <==>
      Requests(httpMethod, "get") && (EndsWith(UrlText(url), DashboardPath) || EndsWith(UrlText(url), DashboardSlashPath))
  {
    NormalizeMethodIff(httpMethod, "get");
  }

  lemma FieldDetailRoute(httpMethod: Option<string>, url: Option<string>)
    ensures RouteOf(httpMethod, url) == FieldDetail <==>
      var u := UrlText(url);
      Requests(httpMethod, "get") && Contains(u, FieldsPath)
      && !EndsWith(u, DashboardPath) && !EndsWith(u, DashboardSlashPath)
  {
    NormalizeMethodIff(httpMethod, "get");
  }

  lemma PestDetectRoute(httpMethod: Option<string>, url: Option<string>)
    ensures RouteOf(httpMethod, url) == PestDetect <==>
      var u := UrlText(url);
      Requests(httpMethod, "post") && EndsWith(u, PestDetectPath)
      && !Contains(u, RegisterPath) && !Contains(u, ResetPath) && !Contains(u, ForgotPath) && !Contains(u, VerifyPath)
  {
    NormalizeMethodIff(httpMethod, "post");
    var u := UrlText(url);
    assert EndsWith(u, PestDetectPath) ==> !EndsWith(u, LoginPath);
  }

  /** A method other than get and post (in any case) is never routed. */
  lemma OtherVerbsFallBack(httpMethod: Option<string>, url: Option<string>)
    requires !Requests(httpMethod, "get") && !Requests(httpMethod, "post")
    ensures RouteOf(httpMethod, url) == Default
  {
    NormalizeMethodIff(httpMethod, "get");
    NormalizeMethodIff(httpMethod, "post");
  }

  /** A missing or empty url matches no pattern, whatever the method. */
  lemma MissingUrlFallsBack(httpMethod: Option<string>)
    ensures RouteOf(httpMethod, None) == Default
    ensures RouteOf(httpMethod, Some("")) == Default
  {
  }

  // ---------------------------------------------------------------------------
  // First match wins

  /** A url that both ends with the login path and contains the register path logs in. */
  lemma LoginWinsOverRegister(httpMethod: Option<string>, url: Option<string>)
    requires Requests(httpMethod, "post")
    requires EndsWith(UrlText(url), LoginPath) && Contains(UrlText(url), RegisterPath)
    ensures RouteOf(httpMethod, url) == Login
  {
    LoginRoute(httpMethod, url);
  }

  /** Such urls exist: `/auth/register/auth/login`. */
  lemma LoginAndRegisterOverlap()
    ensures var u := "/auth/register/auth/login";
      EndsWith(u, LoginPath) && Contains(u, RegisterPath) && RouteOf(Some("post"), Some(u)) == Login
  {
    var u := "/auth/register/auth/login";
    assert RegisterPath <= u[0..];
    LoginRoute(Some("post"), Some(u));
    assert EqualsIgnoringCase("post", "post");
  }

  /** A get url ending with the dashboard path is the dashboard even if it names a field. */
  lemma DashboardWinsOverFields(httpMethod: Option<string>, url: Option<string>)
    requires Requests(httpMethod, "get")
    requires EndsWith(UrlText(url), DashboardPath) && Contains(UrlText(url), FieldsPath)
    ensures RouteOf(httpMethod, url) == Dashboard
  {
    DashboardRoute(httpMethod, url);
  }

  /** Such urls exist: `/fields/7/dashboard`. */
  lemma DashboardAndFieldsOverlap()
    ensures var u := "/fields/7/dashboard";
      EndsWith(u, DashboardPath) && Contains(u, FieldsPath) && RouteOf(Some("get"), Some(u)) == Dashboard
  {
    var u := "/fields/7/dashboard";
    assert FieldsPath <= u[0..];
    DashboardRoute(Some("get"), Some(u));
    assert EqualsIgnoringCase("get", "get");
  }

  /** Login is a suffix test: the login path followed by more text is not the login route. */
  lemma LoginNeedsSuffix(httpMethod: Option<string>, rest: string)
    requires rest != [] && rest[|rest| - 1] != 'n'
    ensures RouteOf(httpMethod, Some(LoginPath + rest)) != Login
  {
    var u := LoginPath + rest;
    assert u[|u| - 1] == rest[|rest| - 1];
  }

  /** `POST /auth/login/callback` contains the login path but falls through to the fallback. */
  lemma LoginPrefixFallsBack()
    ensures RouteOf(Some("POST"), Some("/auth/login/callback")) == Default
  {
    CallbackIsUnrouted();
    assert NormalizeMethod(Some("POST")) == "post" by {
      NormalizeMethodIff(Some("POST"), "post");
      assert EqualsIgnoringCase("POST", "post");
    }
  }

  lemma CallbackIsUnrouted()
    ensures Classify("post", "/auth/login/callback") == Default
  {
    var u := "/auth/login/callback";
    assert 'r' !in u;
    LackingCharNotContained(u, RegisterPath, 7);
    LackingCharNotContained(u, ResetPath, 6);
    LackingCharNotContained(u, ForgotPath, 8);
    LackingCharNotContained(u, VerifyPath, 8);
    assert !EndsWith(u, LoginPath) && !EndsWith(u, PestDetectPath);
  }

  // ---------------------------------------------------------------------------
  // Payloads

  datatype User = User(name: string, email: string, phone: string, role: string)

  const DemoUser: User := User("Demo User", "demo@example.com", "+1234567890", "demo")

  datatype FieldSummary = FieldSummary(id: int, name: string)

  datatype FieldRecord = FieldRecord(
    id: int, name: string, long: string, lat: string, size: string,
    temperature: string, moisture: string, humidity: string)

  /** A decimal literal kept as written, `digits * 10^exponent`; never computed with. */
  datatype DecimalLiteral = DecimalLiteral(digits: int, exponent: int)

  datatype Prediction = Prediction(name: string, className: string, confidenceScore: DecimalLiteral, tips: seq<string>)

  /** The `data` of a mock response, one shape per route. */
  datatype Body =
    | Tokens(accessToken: string, refreshToken: string, user: User)
    | Registered(message: string, user: User)
    | Acknowledged(message: string)
    | FieldList(fields: seq<FieldSummary>)
    | FieldDetails(field: FieldRecord)
      /** `{ data: { predictions } }`: the predictions are nested one level down. */
    | Detection(predictions: seq<Prediction>)
    | EmptyObject

  const DemoFieldA: FieldRecord := FieldRecord(
    1, "Demo Field A", "30.0605", "-1.9441", "10 ha", "24\U{B0}C", "55%", "68%")

  const HealthyPlant: Prediction := Prediction(
    "Healthy plant", "4 Healthy plant", DecimalLiteral(92, -2),
    ["Water consistently and avoid overwatering.", "Provide at least 6 hours of sunlight daily."])

  /** Each route has its own body shape; only the fallback's body is empty. */
  function BodyOf(route: Route): (b: Body)
    ensures b == EmptyObject <==> route == Default
    ensures b.Tokens? <==> route == Login
    ensures b.Registered? <==> route == Register
    ensures b.FieldList? <==> route == Dashboard
    ensures b.FieldDetails? <==> route == FieldDetail
    ensures b.Detection? <==> route == PestDetect
    ensures (b.Tokens? || b.Registered?) ==> b.user == DemoUser
  {
    match route
    case Login => Tokens("demo-access-token", "demo-refresh-token", DemoUser)
    case Register => Registered("Registered (demo) successfully", DemoUser)
    case AuthMisc => Acknowledged("OK (demo)")
    case Dashboard => FieldList([FieldSummary(1, "Demo Field A"), FieldSummary(2, "Demo Field B")])
    case FieldDetail => FieldDetails(DemoFieldA)
    case PestDetect => Detection([HealthyPlant])
    case Default => EmptyObject
  }

  /** Only registration answers 201; everything else, the fallback included, is 200. */
  function StatusOf(route: Route): (s: int)
    ensures s == 200 || s == 201
    ensures s == 201 <==> route == Register
  {
    if route == Register then 201 else 200
  }

  function StatusTextOf(route: Route): (t: string)
    ensures t == (if StatusOf(route) == 201 then "Created" else "OK")
  {
    if route == Register then "Created" else "OK"
  }

  // ---------------------------------------------------------------------------
  // The responder

  datatype Response = Response(
    data: Body, status: int, statusText: string, headers: map<string, string>, config: RequestConfig)

  /**
   * `mockAdapter`: answers any request configuration, never failing. The response
   * echoes the same configuration object and carries no headers.
   */
  function MockAdapter(config: RequestConfig): (r: Response)
    reads config
    ensures r.config == config && r.headers == map[]
    ensures r.status == 200 || r.status == 201
    ensures r.status == 201 <==> RouteOf(config.httpMethod, config.url) == Register
    ensures r.statusText == (if r.status == 201 then "Created" else "OK")
    ensures r.data == BodyOf(RouteOf(config.httpMethod, config.url))
  {
    var route := RouteOf(config.httpMethod, config.url);
    Response(BodyOf(route), StatusOf(route), StatusTextOf(route), map[], config)
  }

  lemma LoginResponse(config: RequestConfig)
    requires Requests(config.httpMethod, "post") && EndsWith(UrlText(config.url), LoginPath)
    ensures var r := MockAdapter(config);
      r.status == 200 && r.statusText == "OK"
      && r.data == Tokens("demo-access-token", "demo-refresh-token", DemoUser)
  {
    LoginRoute(config.httpMethod, config.url);
  }

  lemma RegisterResponse(config: RequestConfig)
    requires Requests(config.httpMethod, "post") && Contains(UrlText(config.url), RegisterPath)
    requires !EndsWith(UrlText(config.url), LoginPath)
    ensures var r := MockAdapter(config);
      r.status == 201 && r.statusText == "Created"
      && r.data.Registered? && r.data.message != "" && r.data.user == DemoUser
  {
    RegisterRoute(config.httpMethod, config.url);
  }

  lemma DashboardResponse(config: RequestConfig)
    requires Requests(config.httpMethod, "get")
    requires EndsWith(UrlText(config.url), DashboardPath) || EndsWith(UrlText(config.url), DashboardSlashPath)
    ensures var r := MockAdapter(config);
      r.status == 200 && r.statusText == "OK" && r.data.FieldList?
      && |r.data.fields| == 2
      && r.data.fields[0].id == 1 && r.data.fields[0].name == "Demo Field A"
      && r.data.fields[1].id == 2 && r.data.fields[1].name == "Demo Field B"
  {
    DashboardRoute(config.httpMethod, config.url);
  }

  lemma FieldDetailResponse(config: RequestConfig)
    requires RouteOf(config.httpMethod, config.url) == FieldDetail
    ensures var r := MockAdapter(config);
      r.status == 200 && r.statusText == "OK" && r.data.FieldDetails?
      && r.data.field.id == 1 && r.data.field.name == "Demo Field A"
  {
  }

  lemma PestDetectResponse(config: RequestConfig)
    requires RouteOf(config.httpMethod, config.url) == PestDetect
    ensures var r := MockAdapter(config);
      r.status == 200 && r.statusText == "OK" && r.data.Detection?
      && |r.data.predictions| > 0 && r.data.predictions[0].confidenceScore == DecimalLiteral(92, -2)
  {
  }

  /** The fallback is an empty success, never an error. */
  lemma FallbackResponse(config: RequestConfig)
    requires RouteOf(config.httpMethod, config.url) == Default
    ensures var r := MockAdapter(config);
      r.status == 200 && r.statusText == "OK" && r.data == EmptyObject
      && r.headers == map[] && r.config == config
  {
  }
}
