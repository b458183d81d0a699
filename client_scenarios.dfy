/**
 * The scenarios of the client's PHPUnit suite, each run on a fresh client against a transport
 * that answers every request with the stub response of the scenario.
 */
module ClientScenarios {
  import opened Wrappers
  import opened ByteStrings
  import opened UrlEncoding
  import opened FormData
  import opened Errors
  import opened Tokens
  import opened Config
  import opened AuthorizationUrl
  import opened OAuth2Client
  import opened AuthorizationUrlExample

  // The suite's literals are written in short pieces (the client secret is
  // "jeDs8rKw_jDJW8MMf-ff8ejs"): the verifier checks a long string literal byte by byte wherever
  // it occurs, and the pieces keep that cost down. The joins are proved where they are needed.

  /** The suite's token endpoint, client secret and authorization code. */
  const TokenUrl: Bytes := AccountsBase + "token"
  const ClientSecret: Bytes := "jeDs8rKw_j" + "DJW8MMf-ff" + "8ejs"
  const AuthCode: Bytes :=
    "4/wEr_dK8S" + "Dkjfpwmc98" + "KejfiwJP-f" + "4wm.kdowmn" + "r82jvmeisj" + "w94mKFIJE4" + "8mcEM"
  /** The resource `testQuery` requests, the same URL as the calendar scope. */
  const CalendarUrl: Bytes := CalendarScope

  /** The form-encoded body of the stub token endpoint. */
  const EncodedGrantBody: Bytes :=
    "access_token=accessvalue" + "&refresh_token=refreshvalue" + "&expires_in=3600"

  /** The JSON body of the stub token endpoint. */
  const JsonGrantBody: Bytes :=
    "{\"access_token\":\"accessvalue\"," + "\"refresh_token\":\"refreshvalue\"," + "\"expires_in\":3600}"

  function EncodedGrantResponse(): Response
  {
    Response(200, map["Content-Type" := FormType], EncodedGrantBody)
  }

  function JsonGrantResponse(): Response
  {
    Response(200, map["Content-Type" := "application/json"], JsonGrantBody)
  }

  /** The token both stub bodies yield, fields as the form-encoded body gives them. */
  function GrantToken(now: int): Token
  {
    map["access_token" := Str("accessvalue"), "refresh_token" := Str("refreshvalue"),
        "expires_in" := Str("3600"), "created" := Int(now)]
  }

  // Proof steps. The literal strings of the suite, split into pieces and joined again: the
  // solver checks each join on its own, and the lemmas below state nothing else.
  lemma DecimalOf3600()
    ensures Decimal(3600) == "3600"
  {
  }

  lemma GrantWordsUnreserved()
    ensures forall i | 0 <= i < |"access_token"| :: IsUnreserved("access_token"[i])
    ensures forall i | 0 <= i < |"refresh_token"| :: IsUnreserved("refresh_token"[i])
    ensures forall i | 0 <= i < |"expires_in"| :: IsUnreserved("expires_in"[i])
    ensures forall i | 0 <= i < |"accessvalue"| :: IsUnreserved("accessvalue"[i])
    ensures forall i | 0 <= i < |"refreshvalue"| :: IsUnreserved("refreshvalue"[i])
    ensures forall i | 0 <= i < |"3600"| :: IsUnreserved("3600"[i])
  {
  }

  // End of proof steps.

  /** Pairs of unreserved text are left as they are by the form encoding. */
  lemma UnreservedPairsUnchanged(ps: seq<Pair>)
    requires forall i | 0 <= i < |ps| ::
      (forall j | 0 <= j < |ps[i].0| :: IsUnreserved(ps[i].0[j]))
      && (forall j | 0 <= j < |ps[i].1| :: IsUnreserved(ps[i].1[j]))
    ensures seq(|ps|, i requires 0 <= i < |ps| => EncodePair(ps[i])) == ps
  {
    forall i | 0 <= i < |ps|
      ensures EncodePair(ps[i]) == ps[i]
    {
      UnreservedUnchanged(ps[i].0);
      UnreservedUnchanged(ps[i].1);
    }
  }

  lemma GrantPairsEncoded(ps: seq<Pair>)
    requires ps == FormGrant("accessvalue", "refreshvalue", 3600)
    ensures seq(|ps|, i requires 0 <= i < |ps| => EncodePair(ps[i])) == ps
  {
    DecimalOf3600();
    GrantWordsUnreserved();
    UnreservedPairsUnchanged(ps);
  }

  // Proof steps. The literal strings of the suite, split into pieces and joined again: the
  // solver checks each join on its own, and the lemmas below state nothing else.
  lemma AccessTokenSegment()
    ensures Segment(("access_token", "accessvalue")) == "access_token=accessvalue"
  {
  }

  lemma RefreshTokenSegment()
    ensures "&" + Segment(("refresh_token", "refreshvalue")) == "&refresh_token=refreshvalue"
  {
  }

  lemma ExpiresInSegment()
    ensures "&" + Segment(("expires_in", "3600")) == "&expires_in=3600"
  {
  }

  // End of proof steps.

  /** Three pairs written as a query string. */
  lemma QueryStringThree(p: Pair, q: Pair, r: Pair)
    ensures QueryString([p, q, r]) == Segment(p) + ("&" + Segment(q)) + ("&" + Segment(r))
  {
    var segs := seq(3, i requires 0 <= i < 3 => Segment([p, q, r][i]));
    assert segs == [Segment(p), Segment(q), Segment(r)];
    assert segs[1..] == [Segment(q), Segment(r)] && segs[1..][1..] == [Segment(r)];
    assert Join(segs[1..], '&') == Segment(q) + ['&'] + Segment(r);
  }

  /** The stub's form-encoded body is the form encoding of the grant. */
  lemma EncodedGrantBodyIsForm()
    ensures FormEncode(FormGrant("accessvalue", "refreshvalue", 3600)) == EncodedGrantBody
  {
    var ps := FormGrant("accessvalue", "refreshvalue", 3600);
    GrantPairsEncoded(ps);
    DecimalOf3600();
    assert ps == [("access_token", "accessvalue"), ("refresh_token", "refreshvalue"), ("expires_in", "3600")];
    QueryStringThree(("access_token", "accessvalue"), ("refresh_token", "refreshvalue"), ("expires_in", "3600"));
    AccessTokenSegment();
    RefreshTokenSegment();
    ExpiresInSegment();
  }

  /** The form stub says it is form-encoded; the JSON stub does not. */
  lemma ContentTypes()
    ensures Contains(FormType, FormType)
    ensures !Contains("application/json", FormType)
  {
    ContainsItself(FormType);
    NotContainedWithoutFirst("application/json", FormType);
  }

  lemma EncodedGrantIsForm(jsonDecode: Bytes -> Option<Token>)
    ensures ResponseFields(EncodedGrantResponse(), jsonDecode) == Some(FormFields(EncodedGrantBody))
  {
    ContentTypes();
  }

  lemma EncodedGrantFields()
    ensures FormFields(EncodedGrantBody)
         == map["access_token" := Str("accessvalue"), "refresh_token" := Str("refreshvalue"),
                "expires_in" := Str("3600")]
  {
    EncodedGrantBodyIsForm();
    DecimalOf3600();
    FormGrantFields("accessvalue", "refreshvalue", 3600);
  }

  /** The stub's form-encoded response parses to the grant token. */
  lemma EncodedGrantParsed(jsonDecode: Bytes -> Option<Token>, now: int)
    ensures ParseTokenResponse(EncodedGrantResponse(), jsonDecode, now) == Ok(GrantToken(now))
  {
    EncodedGrantIsForm(jsonDecode);
    EncodedGrantFields();
  }

  /** The stub's form-encoded response yields the grant token. */
  lemma EncodedGrantExchange(jsonDecode: Bytes -> Option<Token>, now: int)
    ensures ExchangeResult(EncodedGrantResponse(), jsonDecode, now) == Ok(GrantToken(now))
  {
    EncodedGrantParsed(jsonDecode, now);
    GrantTokenNormal(now);
  }

  lemma GrantTokenNormal(now: int)
    ensures Normalize(GrantToken(now)) == GrantToken(now)
  {
    assert "expires" !in GrantToken(now);
  }

  /** The grant's `expires_in`, the string "3600", equals the integer 3600 under `==`. */
  lemma GrantExpiresIn3600(now: int)
    ensures LooseEquals(GrantToken(now)["expires_in"], Int(3600))
  {
    AsIntOfAsString(3600);
    DecimalOf3600();
  }

  /** The extra parameters `testAuth` asks for. */
  const AccessParams: Value := Pairs([("access_type", "offline"), ("approval_prompt", "auto")])

  /** The options `testAuth` sets before its first `authenticate`. */
  function AuthOptions(): Options
  {
    map[
      "authurl" := Text(AuthUrl),
      "clientid" := Text(ClientId),
      "scope" := Items([AdsenseScope, CalendarUrl]),
      "redirecturi" := Text(RedirectUri),
      "requestparams" := AccessParams,
      "sendheaders" := Flag(true)
    ]
  }

  lemma AuthOptionsComplete()
    ensures TextOption(AuthOptions(), "authurl") == Some(AuthUrl)
    ensures TextOption(AuthOptions(), "clientid") == Some(ClientId)
    ensures TextOption(AuthOptions(), "redirecturi") == Some(RedirectUri)
    ensures IsOn(AuthOptions(), "sendheaders")
  {
  }

  lemma AuthCodePresent()
    ensures CodePresent(Some(AuthCode))
  {
  }

  /** The client `testAuth` prepares before its first `authenticate`. */
  method AuthClient(transport: Request -> Response, jsonDecode: Bytes -> Option<Token>)
    returns (client: Client)
    ensures fresh(client)
    ensures client.options == AuthOptions() && client.sent == []
    ensures client.transport == transport && client.jsonDecode == jsonDecode
  {
    client := new Client(map[], transport, jsonDecode);
    client.SetOption("authurl", Text(AuthUrl));
    client.SetOption("clientid", Text(ClientId));
    client.SetOption("scope", Items([AdsenseScope, CalendarUrl]));
    client.SetOption("redirecturi", Text(RedirectUri));
    client.SetOption("requestparams", AccessParams);
    client.SetOption("sendheaders", Flag(true));
  }

  /** The client `testAuthJson` prepares before exchanging a code. */
  method TokenClient(transport: Request -> Response, jsonDecode: Bytes -> Option<Token>)
    returns (client: Client)
    ensures fresh(client)
    ensures client.options == map["tokenurl" := Text(TokenUrl), "clientsecret" := Text(ClientSecret)]
    ensures client.sent == [] && TextOption(client.options, "tokenurl") == Some(TokenUrl)
    ensures client.transport == transport && client.jsonDecode == jsonDecode
  {
    client := new Client(map[], transport, jsonDecode);
    TextOptionSet(client.options, "tokenurl", TokenUrl);
    client.SetOption("tokenurl", Text(TokenUrl));
    client.SetOption("clientsecret", Text(ClientSecret));
  }

  /** A truthy string option just set is read back. */
  lemma TextOptionSet(o: Options, key: Bytes, v: Bytes)
    requires v != [] && v != "0"
    ensures TextOption(o[key := Text(v)], key) == Some(v)
  {
  }

  /**
   * Exchanging the suite's authorization code on a client whose transport always answers
   * `response`: one POST to the token endpoint, and the token the response yields returned
   * and stored.
   */
  method ExchangeWithStub(client: Client, response: Response, token: Token, now: int)
    returns (r: Result<AuthOutcome, Error>)
    requires forall q :: client.transport(q) == response
    requires ExchangeResult(response, client.jsonDecode, now) == Ok(token)
    requires TextOption(client.options, "tokenurl") == Some(TokenUrl)
    modifies client
    ensures r == Ok(Acquired(token))
    ensures |client.sent| == |old(client.sent)| + 1 && client.sent[..|old(client.sent)|] == old(client.sent)
    ensures client.sent[|old(client.sent)|].Post? && client.sent[|old(client.sent)|].url == TokenUrl
    ensures client.sent[|old(client.sent)|] == ExchangePlan(AuthCode, old(client.options)).value
    ensures client.GetToken() == Some(token)
  {
    AuthCodePresent();
    r := client.Authenticate(Some(AuthCode), now);
    assert client.sent[..|old(client.sent)|] == old(client.sent);
  }

  /** The options `testAuth` holds when the code arrives: its first options and the token settings. */
  function AuthTokenOptions(): Options
  {
    AuthOptions()["tokenurl" := Text(TokenUrl)]["clientsecret" := Text(ClientSecret)]
  }

  lemma AuthTokenSettings()
    ensures TextOption(AuthTokenOptions(), "tokenurl") == Some(TokenUrl)
    ensures TextOr(AuthTokenOptions(), "clientid") == ClientId
    ensures TextOr(AuthTokenOptions(), "redirecturi") == RedirectUri
    ensures TextOr(AuthTokenOptions(), "clientsecret") == ClientSecret
  {
    AuthOptionsComplete();
  }

  /**
   * The exchange `testAuth` sends: a POST to the token endpoint carrying the code, the
   * configured client id and redirect URI, and the client secret.
   */
  lemma AuthExchangePlan()
    ensures ExchangePlan(AuthCode, AuthTokenOptions()).Ok?
    ensures
      var q := ExchangePlan(AuthCode, AuthTokenOptions()).value;
      && q.Post? && q.url == TokenUrl
      && ToMap(q.data) == map[
           "grant_type" := "authorization_code", "code" := AuthCode,
           "redirect_uri" := RedirectUri, "client_id" := ClientId,
           "client_secret" := ClientSecret]
  {
    AuthTokenSettings();
  }

  /** Without a code and with `sendheaders` on, `authenticate` redirects and changes nothing. */
  method RedirectWithoutCode(client: Client, now: int) returns (r: Result<AuthOutcome, Error>)
    requires client.options == AuthOptions() && client.sent == []
    modifies client
    ensures CreateUrl(AuthOptions()).Ok? && r == Ok(Redirect(CreateUrl(AuthOptions()).value))
    ensures client.options == AuthOptions() && client.sent == []
  {
    AuthOptionsComplete();
    r := client.Authenticate(None, now);
  }

  /** `testAuth` then sets the token endpoint and the client secret. */
  method AddTokenSettings(client: Client)
    requires client.options == AuthOptions()
    modifies client
    ensures client.options == AuthTokenOptions() && client.sent == old(client.sent)
  {
    client.SetOption("tokenurl", Text(TokenUrl));
    client.SetOption("clientsecret", Text(ClientSecret));
  }

  /**
   * `testAuth`: without a code and with `sendheaders` on, `authenticate` redirects to the
   * authorization URL and sends nothing. Once the token settings are added and a code has
   * arrived, on the same client and with `sendheaders` still on, it exchanges the code instead:
   * exactly one POST, to the token endpoint, carrying the configured client id and redirect
   * URI. It returns and stores the token of the form-encoded grant, stamped with the current
   * time, and its `expires_in` equals 3600 under PHP's loose comparison.
   */
  method AuthScenario(transport: Request -> Response, jsonDecode: Bytes -> Option<Token>, now: int)
    returns (first: Result<AuthOutcome, Error>, second: Result<AuthOutcome, Error>,
             requests: seq<Request>)
    requires forall q :: transport(q) == EncodedGrantResponse()
    ensures CreateUrl(AuthOptions()).Ok? && first == Ok(Redirect(CreateUrl(AuthOptions()).value))
    ensures second == Ok(Acquired(GrantToken(now)))
    ensures LooseEquals(second.value.token["expires_in"], Int(3600))
    ensures |requests| == 1 && requests[0].Post? && requests[0].url == TokenUrl
    ensures ToMap(requests[0].data) == map[
              "grant_type" := "authorization_code", "code" := AuthCode,
              "redirect_uri" := RedirectUri, "client_id" := ClientId,
              "client_secret" := ClientSecret]
  {
    var client := AuthClient(transport, jsonDecode);
    first := RedirectWithoutCode(client, now);
    AddTokenSettings(client);
    AuthTokenSettings();
    EncodedGrantExchange(jsonDecode, now);
    second := ExchangeWithStub(client, EncodedGrantResponse(), GrantToken(now), now);
    AuthExchangePlan();
    GrantExpiresIn3600(now);
    requests := client.sent;
  }

  /** The token the JSON stub yields: `expires_in` an integer, `created` the current time. */
  function JsonGrantToken(now: int): Token
  {
    JsonGrant("accessvalue", "refreshvalue", 3600)["created" := Int(now)]
  }

  lemma JsonGrantIsJson(jsonDecode: Bytes -> Option<Token>)
    ensures ResponseFields(JsonGrantResponse(), jsonDecode) == jsonDecode(JsonGrantBody)
  {
    ContentTypes();
  }

  /** The JSON stub response yields the JSON grant token when the decoder reads its body. */
  lemma JsonGrantExchange(jsonDecode: Bytes -> Option<Token>, now: int)
    requires jsonDecode(JsonGrantBody) == Some(JsonGrant("accessvalue", "refreshvalue", 3600))
    ensures ParseTokenResponse(JsonGrantResponse(), jsonDecode, now) == Ok(JsonGrantToken(now))
    ensures ExchangeResult(JsonGrantResponse(), jsonDecode, now) == Ok(JsonGrantToken(now))
  {
    JsonGrantIsJson(jsonDecode);
    assert "expires" !in JsonGrantToken(now);
  }

  /** The JSON and form-encoded stubs give the same logical token. */
  lemma StubTokensAgree(now: int)
    ensures GrantToken(now).Keys == JsonGrantToken(now).Keys
    ensures forall k | k in GrantToken(now) :: LooseEquals(GrantToken(now)[k], JsonGrantToken(now)[k])
    ensures forall t :: IsValid(GrantToken(now), t) <==> IsValid(JsonGrantToken(now), t)
  {
    GrantFormsAgree("accessvalue", "refreshvalue", 3600, now);
    DecimalOf3600();
  }

  /**
   * `testAuthJson`: with only `tokenurl` and `clientsecret` set and a code present,
   * `authenticate` makes exactly one POST and returns the token of the JSON grant, which
   * agrees field by field with the token of the form-encoded grant.
   */
  method AuthJsonScenario(transport: Request -> Response, jsonDecode: Bytes -> Option<Token>,
                          now: int)
    returns (result: Result<AuthOutcome, Error>, requests: seq<Request>)
    requires forall q :: transport(q) == JsonGrantResponse()
    requires jsonDecode(JsonGrantBody) == Some(JsonGrant("accessvalue", "refreshvalue", 3600))
    ensures result == Ok(Acquired(JsonGrantToken(now)))
    ensures result.value.token["access_token"] == Str("accessvalue")
    ensures result.value.token["refresh_token"] == Str("refreshvalue")
    ensures result.value.token["expires_in"] == Int(3600)
    ensures result.value.token["created"] == Int(now)
    ensures forall k | k in GrantToken(now) :: LooseEquals(GrantToken(now)[k], result.value.token[k])
    ensures |requests| == 1 && requests[0].Post? && requests[0].url == TokenUrl
  {
    var client := TokenClient(transport, jsonDecode);
    JsonGrantExchange(jsonDecode, now);
    result := ExchangeWithStub(client, JsonGrantResponse(), JsonGrantToken(now), now);
    StubTokensAgree(now);
    JsonGrantTokenFields(now);
    requests := client.sent;
  }

  /** The token the suite builds by hand: the stub values with a given creation time and lifetime. */
  function LifetimeToken(created: int, expiresIn: int): Token
  {
    map["access_token" := Str("accessvalue"), "refresh_token" := Str("refreshvalue"),
        "created" := Int(created), "expires_in" := Int(expiresIn)]
  }

  lemma LifetimeTokenStored(created: int, expiresIn: int, now: int)
    ensures Normalize(LifetimeToken(created, expiresIn)) == LifetimeToken(created, expiresIn)
    ensures IsValid(LifetimeToken(created, expiresIn), now) <==> now < created + expiresIn
  {
    assert "expires" !in LifetimeToken(created, expiresIn);
    assert HasLifetime(LifetimeToken(created, expiresIn), created, expiresIn);
  }

  /**
   * `testIsAuth`: no token, not authenticated; a token created now that lasts an hour,
   * authenticated; the same token created 4000 seconds ago, not authenticated.
   */
  method IsAuthScenario(transport: Request -> Response, jsonDecode: Bytes -> Option<Token>,
                        now: int)
    returns (initially: bool, live: bool, stale: bool)
    ensures !initially && live && !stale
  {
    var client := new Client(map[], transport, jsonDecode);
    initially := client.IsAuthenticated(now);
    client.SetToken(LifetimeToken(now, 3600));
    LifetimeTokenStored(now, 3600, now);
    live := client.IsAuthenticated(now);
    client.SetToken(LifetimeToken(now - 4000, 3600));
    LifetimeTokenStored(now - 4000, 3600, now);
    stale := client.IsAuthenticated(now);
  }

  /** The response both query stubs give. */
  function LoremResponse(): Response
  {
    Response(200, map["Content-Type" := "text/html"], "Lorem " + "ipsum " + "dolor sit " + "amet.")
  }

  lemma CalendarUrlHasNoQuery()
    ensures '?' !in CalendarUrl
  {
  }

  /** The signed GET to the calendar URL. */
  lemma FetchedRequest()
    ensures SignedRequest(CalendarUrl, [("param", "value")], [], "accessvalue", true)
         == Get(CalendarUrl + "?access_token=accessvalue", [])
  {
    CalendarUrlHasNoQuery();
    AccessTokenSegment();
  }

  /** The signed POST to the calendar URL. */
  lemma PostedRequest()
    ensures SignedRequest(CalendarUrl, [("param", "value")], [], "accessvalue", false).Post?
    ensures SignedRequest(CalendarUrl, [("param", "value")], [], "accessvalue", false).url == CalendarUrl
    ensures ToMap(SignedRequest(CalendarUrl, [("param", "value")], [], "accessvalue", false).data)
         == map["param" := "value", "access_token" := "accessvalue"]
  {
    var data: seq<Pair> := [("param", "value")];
    assert ToMap(data) == map["param" := "value"];
  }

  lemma LifetimeAccess(created: int, expiresIn: int)
    ensures AccessTokenOf(LifetimeToken(created, expiresIn)) == "accessvalue"
  {
  }

  lemma UserefreshOff(o: Options)
    requires "userefresh" !in o
    ensures !CanRefresh(o)
  {
  }

  /** A query with an invalid token that cannot be refreshed: no request at all. */
  method UnauthenticatedQuery(client: Client, data: seq<Pair>, verb: Option<Bytes>, now: int)
    returns (r: QueryOutcome)
    requires !Authenticated(client.options, now) && !CanRefresh(client.options)
    modifies client
    ensures r == NotAuthenticated
    ensures client.options == old(client.options) && client.sent == old(client.sent)
  {
    r := client.Query(CalendarUrl, data, [], verb, now);
  }

  /** A query with a valid token: exactly the signed request, answered by the stub. */
  method SignedQuery(client: Client, data: seq<Pair>, verb: Option<Bytes>, now: int)
    returns (r: QueryOutcome)
    requires Authenticated(client.options, now)
    requires forall q :: client.transport(q) == LoremResponse()
    modifies client
    ensures r == Responded(LoremResponse()) && client.options == old(client.options)
    ensures client.sent == old(client.sent) + [SignedRequest(CalendarUrl, data, [],
      AccessTokenOf(StoredToken(old(client.options)).value), UsesGet(old(client.options), verb))]
  {
    r := client.Query(CalendarUrl, data, [], verb, now);
  }

  /**
   * `testQuery`: a token that expired (created half an hour ago, lasting ten minutes) and no
   * `userefresh`: `false` and no request. With an hour's lifetime: one POST to the URL whose
   * data holds the parameter and the access token, answered by the stub. With `authmethod`
   * set to `get`: one GET to the URL with `?access_token=accessvalue` appended.
   */
  method QueryScenario(transport: Request -> Response, jsonDecode: Bytes -> Option<Token>,
                       now: int)
    returns (expired: QueryOutcome, posted: QueryOutcome, fetched: QueryOutcome,
             requests: seq<Request>)
    requires forall q :: transport(q) == LoremResponse()
    ensures expired == NotAuthenticated
    ensures posted == Responded(LoremResponse()) && fetched == Responded(LoremResponse())
    ensures |requests| == 2
    ensures requests[0].Post? && requests[0].url == CalendarUrl
    ensures ToMap(requests[0].data) == map["param" := "value", "access_token" := "accessvalue"]
    ensures requests[1] == Get(CalendarUrl + "?access_token=accessvalue", [])
  {
    var client := new Client(map[], transport, jsonDecode);
    var data: seq<Pair> := [("param", "value")];
    expired := QueryExpired(client, data, now);
    posted := QueryPosted(client, data, now);
    fetched := QueryFetched(client, data, now);
    PostedRequest();
    FetchedRequest();
    requests := client.sent;
  }

  /** `testQuery`, first step: a token that expired ten minutes after its creation. */
  method QueryExpired(client: Client, data: seq<Pair>, now: int) returns (r: QueryOutcome)
    requires client.options == map[] && client.sent == []
    modifies client
    ensures r == NotAuthenticated && client.sent == []
    ensures client.options == map["accesstoken" := Fields(LifetimeToken(now - 1800, 600))]
  {
    client.SetToken(LifetimeToken(now - 1800, 600));
    LifetimeTokenStored(now - 1800, 600, now);
    UserefreshOff(client.options);
    r := UnauthenticatedQuery(client, data, Some("get"), now);
  }

  /** `testQuery`, second step: a token lasting an hour, and a POST. */
  method QueryPosted(client: Client, data: seq<Pair>, now: int) returns (r: QueryOutcome)
    requires client.options == map["accesstoken" := Fields(LifetimeToken(now - 1800, 600))]
    requires client.sent == [] && forall q :: client.transport(q) == LoremResponse()
    modifies client
    ensures r == Responded(LoremResponse())
    ensures client.sent == [SignedRequest(CalendarUrl, data, [], "accessvalue", false)]
    ensures client.options == map["accesstoken" := Fields(LifetimeToken(now - 1800, 3600))]
  {
    client.SetToken(LifetimeToken(now - 1800, 3600));
    LifetimeTokenStored(now - 1800, 3600, now);
    LifetimeAccess(now - 1800, 3600);
    r := SignedQuery(client, data, Some("post"), now);
  }

  /** `testQuery`, third step: `authmethod` set to `get`, and a GET. */
  method QueryFetched(client: Client, data: seq<Pair>, now: int) returns (r: QueryOutcome)
    requires client.options == map["accesstoken" := Fields(LifetimeToken(now - 1800, 3600))]
    requires forall q :: client.transport(q) == LoremResponse()
    modifies client
    ensures r == Responded(LoremResponse())
    ensures client.sent == old(client.sent) + [SignedRequest(CalendarUrl, data, [], "accessvalue", true)]
  {
    TextOptionSet(client.options, "authmethod", "get");
    client.SetOption("authmethod", Text("get"));
    LifetimeTokenStored(now - 1800, 3600, now);
    LifetimeAccess(now - 1800, 3600);
    r := SignedQuery(client, data, Some("get"), now);
  }

  /** `testSetOption`: an option just set is stored under its key. */
  method SetOptionScenario(transport: Request -> Response, jsonDecode: Bytes -> Option<Token>)
    returns (stored: Value)
    ensures stored == Text("value")
  {
    var client := new Client(map[], transport, jsonDecode);
    client.SetOption("key", Text("value"));
    stored := client.options["key"];
  }

  /** `testGetOption`: an option placed in the store is read back. */
  method GetOptionScenario(transport: Request -> Response, jsonDecode: Bytes -> Option<Token>)
    returns (read: Option<Value>)
    ensures read == Some(Text("value"))
  {
    var client := new Client(map["key" := Text("value")], transport, jsonDecode);
    read := client.GetOption("key");
  }

  const RandomData: Bytes := "RANDOM " + "STRING OF " + "DATA"

  /**
   * `testSetToken`: a token of one field is stored as given, so is one with `expires_in`,
   * and one with `expires` is stored with that field renamed to `expires_in`.
   */
  method SetTokenScenario(transport: Request -> Response, jsonDecode: Bytes -> Option<Token>)
    returns (plain: Value, withLifetime: Value, renamed: Value)
    ensures plain == Fields(map["access_token" := Str(RandomData)])
    ensures withLifetime == Fields(map["access_token" := Str(RandomData), "expires_in" := Int(3600)])
    ensures renamed == withLifetime
  {
    var client := new Client(map[], transport, jsonDecode);
    client.SetToken(map["access_token" := Str(RandomData)]);
    plain := client.options["accesstoken"];
    client.SetToken(map["access_token" := Str(RandomData), "expires_in" := Int(3600)]);
    withLifetime := client.options["accesstoken"];
    client.SetToken(map["access_token" := Str(RandomData), "expires" := Int(3600)]);
    renamed := client.options["accesstoken"];
    assert renamed.token == withLifetime.token;
  }

  /** `testGetToken`: the token in the store under `accesstoken` is returned. */
  method GetTokenScenario(transport: Request -> Response, jsonDecode: Bytes -> Option<Token>)
    returns (read: Option<Token>)
    ensures read == Some(map["access_token" := Str(RandomData)])
  {
    var token: Token := map["access_token" := Str(RandomData)];
    var client := new Client(map["accesstoken" := Fields(token)], transport, jsonDecode);
    read := client.GetToken();
  }

  /** The token `testRefreshToken` stores: no creation time, a lifetime, a refresh token. */
  function RefreshableToken(): Token
  {
    map["access_token" := Str(RandomData), "expires" := Int(3600),
        "refresh_token" := Str(" " + RandomData)]
  }

  /** The options `testRefreshToken` sets, with the token it stores. */
  function RefreshOptions(): Options
  {
    map[
      "tokenurl" := Text(TokenUrl),
      "clientid" := Text(ClientId),
      "clientsecret" := Text(ClientSecret),
      "redirecturi" := Text(RedirectUri),
      "userefresh" := Flag(true),
      "accesstoken" := Fields(Normalize(RefreshableToken()))]
  }

  lemma RefreshableTokenStored()
    ensures RefreshTokenOf(Normalize(RefreshableToken())) == Some(" " + RandomData)
  {
  }

  /** With those options the refresh request is a POST to the token endpoint with the refresh token. */
  lemma RefreshOptionsPlan()
    ensures StoredToken(RefreshOptions()) == Some(Normalize(RefreshableToken()))
    ensures RefreshPlan(RefreshOptions()).Ok?
    ensures RefreshPlan(RefreshOptions()).value.url == TokenUrl
    ensures ToMap(RefreshPlan(RefreshOptions()).value.data)["grant_type"] == "refresh_token"
    ensures ToMap(RefreshPlan(RefreshOptions()).value.data)["refresh_token"] == " " + RandomData
  {
    RefreshableTokenStored();
    RefreshTextOptions();
  }

  lemma RefreshTextOptions()
    ensures TextOption(RefreshOptions(), "tokenurl") == Some(TokenUrl)
    ensures TextOption(RefreshOptions(), "clientid") == Some(ClientId)
    ensures TextOption(RefreshOptions(), "clientsecret") == Some(ClientSecret)
    ensures TextOption(RefreshOptions(), "redirecturi") == Some(RedirectUri)
  {
  }

  /** The client `testRefreshToken` prepares: the four settings, `userefresh`, and the token. */
  method RefreshClient(transport: Request -> Response, jsonDecode: Bytes -> Option<Token>)
    returns (client: Client)
    ensures fresh(client)
    ensures client.options == RefreshOptions() && client.sent == []
    ensures client.transport == transport && client.jsonDecode == jsonDecode
  {
    client := new Client(map[], transport, jsonDecode);
    client.SetOption("tokenurl", Text(TokenUrl));
    client.SetOption("clientid", Text(ClientId));
    client.SetOption("clientsecret", Text(ClientSecret));
    client.SetOption("redirecturi", Text(RedirectUri));
    client.SetOption("userefresh", Flag(true));
    client.SetToken(RefreshableToken());
  }

  /** Whatever the old token, the form-encoded grant carries its own refresh token. */
  lemma EncodedGrantRefresh(previous: Token, jsonDecode: Bytes -> Option<Token>, now: int)
    ensures RefreshResult(previous, EncodedGrantResponse(), jsonDecode, now) == Ok(GrantToken(now))
  {
    EncodedGrantParsed(jsonDecode, now);
    assert "expires" !in GrantToken(now) && "refresh_token" in GrantToken(now);
  }

  lemma JsonGrantRefresh(previous: Token, jsonDecode: Bytes -> Option<Token>, now: int)
    requires jsonDecode(JsonGrantBody) == Some(JsonGrant("accessvalue", "refreshvalue", 3600))
    ensures RefreshResult(previous, JsonGrantResponse(), jsonDecode, now) == Ok(JsonGrantToken(now))
  {
    JsonGrantExchange(jsonDecode, now);
    assert "expires" !in JsonGrantToken(now) && "refresh_token" in JsonGrantToken(now);
  }

  /**
   * Refreshing a client whose transport always answers `response`: exactly the planned
   * POST, and the new token returned and stored.
   */
  method RefreshWithStub(client: Client, response: Response, token: Token, now: int)
    returns (r: Result<Token, Error>)
    requires client.sent == [] && RefreshPlan(client.options).Ok?
    requires forall q :: client.transport(q) == response
    requires RefreshResult(StoredToken(client.options).value, response, client.jsonDecode, now) == Ok(token)
    modifies client
    ensures r == Ok(token) && client.GetToken() == Some(token)
    ensures client.sent == [RefreshPlan(old(client.options)).value]
  {
    r := client.RefreshToken(now);
  }

  /**
   * `refreshToken` on the client `testRefreshToken` prepares, with a transport always
   * answering `response`: exactly the planned POST, and the token the response yields.
   */
  method PreparedRefresh(transport: Request -> Response, jsonDecode: Bytes -> Option<Token>,
                         response: Response, token: Token, now: int)
    returns (result: Result<Token, Error>, requests: seq<Request>)
    requires forall q :: transport(q) == response
    requires RefreshResult(Normalize(RefreshableToken()), response, jsonDecode, now) == Ok(token)
    ensures result == Ok(token)
    ensures RefreshPlan(RefreshOptions()).Ok? && requests == [RefreshPlan(RefreshOptions()).value]
  {
    var client := RefreshClient(transport, jsonDecode);
    RefreshOptionsPlan();
    result := RefreshWithStub(client, response, token, now);
    requests := client.sent;
  }

  lemma GrantTokenFields(now: int)
    ensures GrantToken(now)["access_token"] == Str("accessvalue")
    ensures GrantToken(now)["refresh_token"] == Str("refreshvalue")
    ensures LooseEquals(GrantToken(now)["expires_in"], Int(3600))
    ensures GrantToken(now)["created"] == Int(now)
  {
    GrantExpiresIn3600(now);
  }

  lemma JsonGrantTokenFields(now: int)
    ensures JsonGrantToken(now)["access_token"] == Str("accessvalue")
    ensures JsonGrantToken(now)["refresh_token"] == Str("refreshvalue")
    ensures JsonGrantToken(now)["expires_in"] == Int(3600)
    ensures JsonGrantToken(now)["created"] == Int(now)
  {
  }

  /**
   * `testRefreshToken`: with the form-encoded stub, `refreshToken` returns the new access
   * and refresh tokens, a lifetime equal to 3600 and the current time as `created`.
   */
  method RefreshScenario(transport: Request -> Response, jsonDecode: Bytes -> Option<Token>,
                         now: int)
    returns (result: Result<Token, Error>, requests: seq<Request>)
    requires forall q :: transport(q) == EncodedGrantResponse()
    ensures result == Ok(GrantToken(now))
    ensures result.value["access_token"] == Str("accessvalue")
    ensures result.value["refresh_token"] == Str("refreshvalue")
    ensures LooseEquals(result.value["expires_in"], Int(3600))
    ensures result.value["created"] == Int(now)
    ensures |requests| == 1 && requests[0].Post? && requests[0].url == TokenUrl
    ensures "grant_type" in ToMap(requests[0].data) && "refresh_token" in ToMap(requests[0].data)
    ensures ToMap(requests[0].data)["grant_type"] == "refresh_token"
    ensures ToMap(requests[0].data)["refresh_token"] == " " + RandomData
  {
    EncodedGrantRefresh(Normalize(RefreshableToken()), jsonDecode, now);
    result, requests := PreparedRefresh(transport, jsonDecode, EncodedGrantResponse(), GrantToken(now), now);
    RefreshOptionsPlan();
    GrantTokenFields(now);
  }

  /** `testRefreshTokenJson`: the same with the JSON stub, where `expires_in` is an integer. */
  method RefreshJsonScenario(transport: Request -> Response, jsonDecode: Bytes -> Option<Token>,
                             now: int)
    returns (result: Result<Token, Error>, requests: seq<Request>)
    requires forall q :: transport(q) == JsonGrantResponse()
    requires jsonDecode(JsonGrantBody) == Some(JsonGrant("accessvalue", "refreshvalue", 3600))
    ensures result == Ok(JsonGrantToken(now))
    ensures result.value["access_token"] == Str("accessvalue")
    ensures result.value["refresh_token"] == Str("refreshvalue")
    ensures result.value["expires_in"] == Int(3600)
    ensures result.value["created"] == Int(now)
    ensures |requests| == 1 && requests[0].Post? && requests[0].url == TokenUrl
    ensures "grant_type" in ToMap(requests[0].data) && "refresh_token" in ToMap(requests[0].data)
    ensures ToMap(requests[0].data)["grant_type"] == "refresh_token"
    ensures ToMap(requests[0].data)["refresh_token"] == " " + RandomData
  {
    JsonGrantRefresh(Normalize(RefreshableToken()), jsonDecode, now);
    result, requests := PreparedRefresh(transport, jsonDecode, JsonGrantResponse(), JsonGrantToken(now), now);
    RefreshOptionsPlan();
    JsonGrantTokenFields(now);
  }
}
