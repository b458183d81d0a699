/**
 * `Joomla\OAuth2\Client`: the authorization-code grant of RFC 6749 driven from a store of
 * options. The client keeps its settings and the current token in that store, exchanges an
 * authorization code or a refresh token at the token endpoint, and signs requests to
 * protected resources with the access token. The HTTP transport and the JSON decoder are
 * given to the client as functions; every request it hands to the transport is logged.
 */
module OAuth2Client {
  import opened Wrappers
  import opened ByteStrings
  import opened FormData
  import opened Errors
  import opened Tokens
  import opened Config
  import opened AuthorizationUrl

  /** A request handed to the HTTP transport. */
  datatype Request =
    | Get(url: Bytes, headers: seq<Pair>)
    | Post(url: Bytes, data: seq<Pair>, headers: seq<Pair>)

  /** What `authenticate` achieves. */
  datatype AuthOutcome =
    | Redirect(url: Bytes)     // `sendheaders` is on: the user agent is sent to the URL
    | Present(url: Bytes)      // the caller is given the URL to show
    | Acquired(token: Token)   // a code was exchanged for this (stored) token

  /** What `query` achieves. */
  datatype QueryOutcome =
    | NotAuthenticated          // PHP `false`: no valid token and no way to refresh it
    | Responded(response: Response)
    | RefreshFailed(error: Error)

  /** The token stored under `accesstoken`, if any. */
  function StoredToken(o: Options): Option<Token>
  {
    if "accesstoken" in o && o["accesstoken"].Fields? then Some(o["accesstoken"].token) else None
  }

  /** The options with `t` stored under `accesstoken`, where `setToken` keeps it. */
  function WithToken(o: Options, t: Token): (r: Options)
    ensures StoredToken(r) == Some(t)
    ensures forall k | k != "accesstoken" :: Lookup(r, k) == Lookup(o, k)
  {
    o["accesstoken" := Fields(t)]
  }

  /** `isAuthenticated`: a token is stored and it is valid at `now`. */
  predicate Authenticated(o: Options, now: int) {
    StoredToken(o).Some? && IsValid(StoredToken(o).value, now)
  }

  /** The non-empty refresh token a token holds, if any. */
  function RefreshTokenOf(t: Token): Option<Bytes>
  {
    if "refresh_token" in t && AsString(t["refresh_token"]) != [] then
      Some(AsString(t["refresh_token"]))
    else None
  }

  /** The access token a token holds, as a string; empty when there is none. */
  function AccessTokenOf(t: Token): Bytes
  {
    if "access_token" in t then AsString(t["access_token"]) else []
  }

  /** The incoming `code` parameter counts only when it is a truthy string. */
  predicate CodePresent(code: Option<Bytes>) {
    code.Some? && Truthy(Text(code.value))
  }

  /** The fields of a token request, in the order they are sent. */
  function ExchangeData(code: Bytes, o: Options): seq<Pair>
  {
    [ ("grant_type", "authorization_code"), ("code", code),
      ("redirect_uri", TextOr(o, "redirecturi")), ("client_id", TextOr(o, "clientid")),
      ("client_secret", TextOr(o, "clientsecret")) ]
  }

  /**
   * The request exchanging `code` at the token endpoint: only `tokenurl` is required, and the
   * form carries the grant type, the code, the redirect URI and the client credentials.
   */
  function ExchangePlan(code: Bytes, o: Options): (r: Result<Request, Error>)
    ensures r.Ok? <==> TextOption(o, "tokenurl").Some?
    ensures r.Err? ==> r.error == ConfigurationError("tokenurl")
    ensures r.Ok? ==>
      && r.value.Post? && r.value.url == TextOption(o, "tokenurl").value && r.value.headers == []
      && ToMap(r.value.data) == map[
           "grant_type" := "authorization_code", "code" := code,
           "redirect_uri" := TextOr(o, "redirecturi"), "client_id" := TextOr(o, "clientid"),
           "client_secret" := TextOr(o, "clientsecret")]
  {
    match TextOption(o, "tokenurl")
    case None => Err(ConfigurationError("tokenurl"))
    case Some(url) =>
      var data := ExchangeData(code, o);
      ToMapFive(data);
      Ok(Post(url, data, []))
  }

  /** The fields of a refresh request, in the order they are sent. */
  function RefreshData(refresh: Bytes, clientId: Bytes, secret: Bytes, redirect: Bytes): seq<Pair>
  {
    [ ("grant_type", "refresh_token"), ("refresh_token", refresh), ("client_id", clientId),
      ("client_secret", secret), ("redirect_uri", redirect) ]
  }

  /**
   * The request refreshing the stored token: a stored refresh token is required first, then
   * `tokenurl`, `clientid`, `clientsecret` and `redirecturi`, in that order.
   */
  function RefreshPlan(o: Options): (r: Result<Request, Error>)
    ensures r.Ok? <==>
      && StoredToken(o).Some? && RefreshTokenOf(StoredToken(o).value).Some?
      && TextOption(o, "tokenurl").Some? && TextOption(o, "clientid").Some?
      && TextOption(o, "clientsecret").Some? && TextOption(o, "redirecturi").Some?
    ensures r.Err? ==>
      r.error ==
        if StoredToken(o).None? || RefreshTokenOf(StoredToken(o).value).None? then MissingRefreshToken
        else if TextOption(o, "tokenurl").None? then ConfigurationError("tokenurl")
        else if TextOption(o, "clientid").None? then ConfigurationError("clientid")
        else if TextOption(o, "clientsecret").None? then ConfigurationError("clientsecret")
        else ConfigurationError("redirecturi")
    ensures r.Ok? ==>
      && r.value.Post? && r.value.url == TextOption(o, "tokenurl").value && r.value.headers == []
      && ToMap(r.value.data) == map[
           "grant_type" := "refresh_token",
           "refresh_token" := RefreshTokenOf(StoredToken(o).value).value,
           "client_id" := TextOption(o, "clientid").value,
           "client_secret" := TextOption(o, "clientsecret").value,
           "redirect_uri" := TextOption(o, "redirecturi").value]
  {
    var refresh := if StoredToken(o).Some? then RefreshTokenOf(StoredToken(o).value) else None;
    if refresh.None? then Err(MissingRefreshToken)
    else
      var url :- Required(o, "tokenurl");
      var clientId :- Required(o, "clientid");
      var secret :- Required(o, "clientsecret");
      var redirect :- Required(o, "redirecturi");
      var data := RefreshData(refresh.value, clientId, secret, redirect);
      ToMapFive(data);
      Ok(Post(url, data, []))
  }

  /** The token a successful exchange stores: the parsed fields, normalised. */
  function ExchangeResult(r: Response, jsonDecode: Bytes -> Option<Token>, now: int)
    : Result<Token, Error>
  {
    match ParseTokenResponse(r, jsonDecode, now)
    case Err(e) => Err(e)
    case Ok(t) => Ok(Normalize(t))
  }

  /**
   * The token a successful refresh stores: the parsed fields, normalised, keeping the old
   * refresh token when the response carries none.
   */
  function RefreshResult(previous: Token, r: Response, jsonDecode: Bytes -> Option<Token>, now: int)
    : Result<Token, Error>
  {
    match ParseTokenResponse(r, jsonDecode, now)
    case Err(e) => Err(e)
    case Ok(t) =>
      if "refresh_token" !in t && "refresh_token" in previous then
        Ok(Normalize(t["refresh_token" := previous["refresh_token"]]))
      else Ok(Normalize(t))
  }

  /**
   * Whether `query` uses GET: an explicit method decides; without one, the `authmethod` option
   * gives the default.
   */
  predicate UsesGet(o: Options, verb: Option<Bytes>) {
    if verb.Some? then verb.value == "get" else TextOption(o, "authmethod") == Some("get")
  }

  /**
   * The request `query` sends: a GET with `access_token=...` appended to the query string
   * (after `?`, or after `&` when the URL already has a query), or a POST whose data holds
   * `access_token` besides the given fields.
   */
  function SignedRequest(url: Bytes, data: seq<Pair>, headers: seq<Pair>, access: Bytes,
                         useGet: bool): (r: Request)
    ensures r.headers == headers
    ensures useGet <==> r.Get?
    ensures r.Get? ==> r.url == url + (if '?' in url then "&" else "?") + Segment(("access_token", access))
    ensures r.Post? ==> r.url == url && ToMap(r.data) == ToMap(data)["access_token" := access]
  {
    if useGet then Get(url + (if '?' in url then "&" else "?") + "access_token=" + access, headers)
    else Post(url, Assign(data, "access_token", access), headers)
  }

  class Client {
    /** The option store; the current token lives under `accesstoken`. */
    var options: Options
    /** Every request handed to the transport, oldest first. */
    var sent: seq<Request>
    const transport: Request -> Response
    const jsonDecode: Bytes -> Option<Token>

    constructor (options: Options, transport: Request -> Response,
                 jsonDecode: Bytes -> Option<Token>)
      ensures this.options == options && sent == []
      ensures this.transport == transport && this.jsonDecode == jsonDecode
    {
      this.options := options;
      this.sent := [];
      this.transport := transport;
      this.jsonDecode := jsonDecode;
    }

    /** `setOption`: the store holds `value` under `key` and is otherwise unchanged. */
    method SetOption(key: Bytes, value: Value)
      modifies this
      ensures options == old(options)[key := value] && sent == old(sent)
      ensures GetOption(key) == Some(value)
    {
      options := options[key := value];
    }

    /** `getOption`: what the store holds under `key`. */
    function GetOption(key: Bytes): (r: Option<Value>)
      reads this
      ensures r.Some? <==> key in options
      ensures r.Some? ==> r.value == options[key]
    {
      Lookup(options, key)
    }

    /** `setToken`: the token, normalised, replaces the stored one. */
    method SetToken(t: Token)
      modifies this
      ensures options == WithToken(old(options), Normalize(t)) && sent == old(sent)
      ensures GetToken() == Some(Normalize(t))
    {
      options := WithToken(options, Normalize(t));
    }

    /** `getToken`: the stored token, or nothing (PHP `null`). */
    function GetToken(): (r: Option<Token>)
      reads this
      ensures r.Some? <==> "accesstoken" in options && options["accesstoken"].Fields?
      ensures r.Some? ==> r.value == options["accesstoken"].token
    {
      StoredToken(options)
    }

    /** `isAuthenticated`: the stored token can be used at `now` without refreshing. */
    function IsAuthenticated(now: int): (b: bool)
      reads this
      ensures b <==> GetToken().Some? && IsValid(GetToken().value, now)
    {
      Authenticated(options, now)
    }

    /**
     * `authenticate`: without a code, the authorization URL to redirect to (with `sendheaders`)
     * or to present; with a code, one POST to the token endpoint, and the token it yields
     * stored and returned.
     */
    method Authenticate(code: Option<Bytes>, now: int) returns (r: Result<AuthOutcome, Error>)
      modifies this
      ensures !CodePresent(code) ==> options == old(options) && sent == old(sent)
      ensures !CodePresent(code) && CreateUrl(options).Err? ==> r == Err(CreateUrl(options).error)
      ensures !CodePresent(code) && CreateUrl(options).Ok? ==>
        r == Ok(if IsOn(options, "sendheaders") then Redirect(CreateUrl(options).value)
                else Present(CreateUrl(options).value))
      ensures CodePresent(code) && ExchangePlan(code.value, old(options)).Err? ==>
        && options == old(options) && sent == old(sent)
        && r == Err(ExchangePlan(code.value, old(options)).error)
      ensures CodePresent(code) && ExchangePlan(code.value, old(options)).Ok? ==>
        var request := ExchangePlan(code.value, old(options)).value;
        var result := ExchangeResult(transport(request), jsonDecode, now);
        && sent == old(sent) + [request]
        && (result.Err? ==> r == Err(result.error) && options == old(options))
        && (result.Ok? ==>
              r == Ok(Acquired(result.value)) && options == WithToken(old(options), result.value))
    {
      if !CodePresent(code) {
        var url := CreateUrl(options);
        if url.Err? {
          r := Err(url.error);
        } else {
          r := Ok(if IsOn(options, "sendheaders") then Redirect(url.value) else Present(url.value));
        }
        return;
      }
      var plan := ExchangePlan(code.value, options);
      if plan.Err? {
        r := Err(plan.error);
        return;
      }
      var response := transport(plan.value);
      sent := sent + [plan.value];
      var parsed := ParseTokenResponse(response, jsonDecode, now);
      match parsed
      case Err(e) => r := Err(e);
      case Ok(t) =>
        SetToken(t);
        r := Ok(Acquired(Normalize(t)));
    }

    /**
     * `refreshToken`: one POST to the token endpoint with the stored refresh token; the token
     * it yields, keeping the old refresh token when no new one is sent, is stored and returned.
     */
    method RefreshToken(now: int) returns (r: Result<Token, Error>)
      modifies this
      ensures RefreshPlan(old(options)).Err? ==>
        && options == old(options) && sent == old(sent)
        && r == Err(RefreshPlan(old(options)).error)
      ensures RefreshPlan(old(options)).Ok? ==>
        var request := RefreshPlan(old(options)).value;
        && sent == old(sent) + [request]
        && r == RefreshResult(StoredToken(old(options)).value, transport(request), jsonDecode, now)
        && (r.Err? ==> options == old(options))
        && (r.Ok? ==> options == WithToken(old(options), r.value))
    {
      var plan := RefreshPlan(options);
      if plan.Err? {
        r := Err(plan.error);
        return;
      }
      var current := StoredToken(options).value;
      var response := transport(plan.value);
      sent := sent + [plan.value];
      var parsed := ParseTokenResponse(response, jsonDecode, now);
      match parsed
      case Err(e) =>
        r := Err(e);
      case Ok(t) =>
        var kept := if "refresh_token" !in t && "refresh_token" in current
                    then t["refresh_token" := current["refresh_token"]] else t;
        SetToken(kept);
        r := Ok(Normalize(kept));
    }

    /**
     * `query`: with a valid token, or once an invalid one is refreshed, exactly one signed
     * request to `url`, whose response is returned unchanged; with an invalid token that
     * cannot be refreshed, `NotAuthenticated` and no request at all.
     */
    method Query(url: Bytes, data: seq<Pair>, headers: seq<Pair>, verb: Option<Bytes>, now: int)
      returns (r: QueryOutcome)
      modifies this
      ensures Authenticated(old(options), now) ==>
        var request := SignedRequest(url, data, headers,
                                     AccessTokenOf(StoredToken(old(options)).value),
                                     UsesGet(old(options), verb));
        && options == old(options) && sent == old(sent) + [request]
        && r == Responded(transport(request))
      ensures !Authenticated(old(options), now) && !CanRefresh(old(options)) ==>
        && r == NotAuthenticated && options == old(options) && sent == old(sent)
      ensures !Authenticated(old(options), now) && CanRefresh(old(options))
              && RefreshPlan(old(options)).Err? ==>
        && r == RefreshFailed(RefreshPlan(old(options)).error)
        && options == old(options) && sent == old(sent)
      ensures !Authenticated(old(options), now) && CanRefresh(old(options))
              && RefreshPlan(old(options)).Ok? ==>
        var plan := RefreshPlan(old(options)).value;
        var refreshed := RefreshResult(StoredToken(old(options)).value, transport(plan), jsonDecode, now);
        && (refreshed.Err? ==>
              r == RefreshFailed(refreshed.error) && options == old(options) && sent == old(sent) + [plan])
        && (refreshed.Ok? ==>
              var request := SignedRequest(url, data, headers, AccessTokenOf(refreshed.value),
                                           UsesGet(old(options), verb));
              && options == WithToken(old(options), refreshed.value)
              && sent == old(sent) + [plan, request]
              && r == Responded(transport(request)))
    {
      // A refresh only replaces the stored token, so the method can be chosen first.
      var useGet := UsesGet(options, verb);
      if !Authenticated(options, now) {
        if !CanRefresh(options) {
          return NotAuthenticated;
        }
        var refreshed := RefreshToken(now);
        if refreshed.Err? {
          return RefreshFailed(refreshed.error);
        }
      }
      r := SendSigned(url, data, headers, useGet);
    }

    /** Sends the request signed with the stored access token and returns its response. */
    method SendSigned(url: Bytes, data: seq<Pair>, headers: seq<Pair>, useGet: bool)
      returns (r: QueryOutcome)
      requires StoredToken(options).Some?
      modifies this
      ensures
        var request := SignedRequest(url, data, headers, AccessTokenOf(StoredToken(old(options)).value),
                                     useGet);
        && options == old(options) && sent == old(sent) + [request]
        && r == Responded(transport(request))
    {
      var request := SignedRequest(url, data, headers, AccessTokenOf(StoredToken(options).value), useGet);
      var response := transport(request);
      sent := sent + [request];
      r := Responded(response);
    }
  }

  /**
   * `query` refreshes an invalid token when `userefresh` is on and the stored token has a
   * refresh token.
   */
  predicate CanRefresh(o: Options) {
    IsOn(o, "userefresh") && StoredToken(o).Some? && RefreshTokenOf(StoredToken(o).value).Some?
  }
}

module OAuth2ClientProperties {
  import opened Wrappers
  import opened ByteStrings
  import opened Tokens
  import opened Config
  import opened OAuth2Client

  /**
   * The token a code exchange stores carries the response's `access_token`, `created` stamped
   * with the time of receipt, and no `expires` alias.
   */
  lemma ExchangedToken(r: Response, jsonDecode: Bytes -> Option<Token>, now: int)
    requires ExchangeResult(r, jsonDecode, now).Ok?
    ensures ResponseFields(r, jsonDecode).Some?
    ensures
      var t := ExchangeResult(r, jsonDecode, now).value;
      var f := ResponseFields(r, jsonDecode).value;
      && "created" in t && t["created"] == Int(now)
      && "access_token" in t && t["access_token"] == f["access_token"]
      && ("refresh_token" in t <==> "refresh_token" in f)
      && ("refresh_token" in f ==> t["refresh_token"] == f["refresh_token"])
      && "expires" !in t
  {
    var p := ParseTokenResponse(r, jsonDecode, now).value;
    assert "created" in p && "access_token" in p;
  }

  /**
   * The token a refresh stores carries the response's `access_token`, `created` stamped with
   * the time of receipt, the response's refresh token when it sends one and the previous one
   * otherwise, and no `expires` alias.
   */
  lemma RefreshedToken(previous: Token, r: Response, jsonDecode: Bytes -> Option<Token>, now: int)
    requires RefreshResult(previous, r, jsonDecode, now).Ok?
    ensures ResponseFields(r, jsonDecode).Some?
    ensures
      var t := RefreshResult(previous, r, jsonDecode, now).value;
      var f := ResponseFields(r, jsonDecode).value;
      && "created" in t && t["created"] == Int(now)
      && "access_token" in t && t["access_token"] == f["access_token"]
      && ("refresh_token" in f ==> "refresh_token" in t && t["refresh_token"] == f["refresh_token"])
      && ("refresh_token" !in f && "refresh_token" in previous ==>
            "refresh_token" in t && t["refresh_token"] == previous["refresh_token"])
      && ("refresh_token" !in f && "refresh_token" !in previous ==> "refresh_token" !in t)
      && "expires" !in t
  {
    var p := ParseTokenResponse(r, jsonDecode, now).value;
    assert "created" in p && "access_token" in p;
    if "refresh_token" !in p && "refresh_token" in previous {
      var q := p["refresh_token" := previous["refresh_token"]];
      assert "created" in q && "access_token" in q && "refresh_token" in q;
    }
  }

  /**
   * An explicit method is never overridden by `authmethod`; without one, `authmethod` set to
   * `get` selects GET and anything else POST.
   */
  lemma ExplicitMethodWins(o: Options, verb: Bytes)
    ensures UsesGet(o, Some(verb)) <==> verb == "get"
    ensures !UsesGet(o, Some("post"))
    ensures UsesGet(o, None) <==> "authmethod" in o && o["authmethod"] == Text("get")
  {
  }

  /** With no token stored, the client is not authenticated at any time. */
  lemma NothingStoredNotAuthenticated(o: Options, now: int)
    requires "accesstoken" !in o
    ensures !Authenticated(o, now)
  {
  }

  /**
   * After a token is stored, the client is authenticated exactly while the normalised token
   * is valid: its `created + expires_in` (or `created + expires`) lies after the current time.
   */
  lemma StoredTokenDecidesValidity(o: Options, t: Token, now: int)
    ensures Authenticated(WithToken(o, Normalize(t)), now) <==> IsValid(Normalize(t), now)
  {
  }
}
