/**
 * The access token as the client stores it, its validity in time, and the reading of a
 * token endpoint response (section 5.1 of RFC 6749) in either of its two wire formats.
 */
module Tokens {
  import opened Wrappers
  import opened ByteStrings
  import opened FormData
  import opened Errors

  /** A token field: a string, or an integer as a JSON body delivers it. */
  datatype Scalar = Str(s: Bytes) | Int(n: int)

  /** A token is a PHP array from field names to values. */
  type Token = map<Bytes, Scalar>

  predicate IsDigits(s: Bytes) {
    |s| >= 1 && forall i | 0 <= i < |s| :: IsDigit(s[i])
  }

  /** PHP's integer reading of a field: an integer, or a string of digits with an optional `-`. */
  function AsInt(v: Scalar): Option<int>
  {
    match v
    case Int(n) => Some(n)
    case Str(s) =>
      if IsDigits(s) then Some(DigitsValue(s))
      else if |s| >= 2 && s[0] == '-' && IsDigits(s[1..]) then Some(-(DigitsValue(s[1..]) as int))
      else None
  }

  /** PHP's string conversion of a field. */
  function AsString(v: Scalar): Bytes
  {
    match v
    case Str(s) => s
    case Int(n) => if n >= 0 then Decimal(n) else "-" + Decimal(-n)
  }

  /** An integer converted to a string reads back as the same integer. */
  lemma AsIntOfAsString(n: int)
    ensures AsInt(Str(AsString(Int(n)))) == Some(n)
  {
    if n >= 0 {
      DecimalRoundTrip(n);
    } else {
      var s := "-" + Decimal(-n);
      assert s[1..] == Decimal(-n);
      DecimalRoundTrip(-n);
    }
  }

  /**
   * PHP's loose `==` on fields as far as tokens need it: identical, or both read as the same
   * integer (so the string "3600" equals the integer 3600).
   */
  predicate LooseEquals(a: Scalar, b: Scalar) {
    a == b || (AsInt(a).Some? && AsInt(a) == AsInt(b))
  }

  /**
   * What `setToken` stores: a token with an `expires` field has it renamed to `expires_in`,
   * keeping its value; every other field is kept as given.
   */
  function Normalize(t: Token): (r: Token)
    ensures "expires" !in r
    ensures "expires" !in t ==> r == t
    ensures "expires" in t ==> "expires_in" in r && r["expires_in"] == t["expires"]
    ensures forall k | k != "expires" && k != "expires_in" :: (k in r <==> k in t)
    ensures forall k | k in t && k != "expires" && k != "expires_in" :: r[k] == t[k]
  {
    if "expires" in t then (t - {"expires"})["expires_in" := t["expires"]] else t
  }

  /** Storing a token twice stores the same token. */
  lemma NormalizeIdempotent(t: Token)
    ensures Normalize(Normalize(t)) == Normalize(t)
  {
  }

  /**
   * `isAuthenticated` on a stored token: it has a non-empty `access_token`, numeric `created`
   * and `expires_in`, and the current time lies strictly before `created + expires_in`.
   */
  predicate IsValid(t: Token, now: int) {
    && "access_token" in t && t["access_token"].Str? && t["access_token"].s != []
    && "created" in t && AsInt(t["created"]).Some?
    && "expires_in" in t && AsInt(t["expires_in"]).Some?
    && now < AsInt(t["created"]).value + AsInt(t["expires_in"]).value
  }

  /** The fields validity reads, given as values. */
  predicate HasLifetime(t: Token, created: int, expiresIn: int) {
    && "access_token" in t && t["access_token"].Str? && t["access_token"].s != []
    && "created" in t && AsInt(t["created"]) == Some(created)
    && "expires_in" in t && AsInt(t["expires_in"]) == Some(expiresIn)
  }

  /** A token is valid until the instant `created + expires_in`, and expired from then on. */
  lemma ValidUntilExpiry(t: Token, created: int, expiresIn: int, now: int)
    requires HasLifetime(t, created, expiresIn)
    ensures IsValid(t, now) <==> now < created + expiresIn
  {
  }

  /** A token valid at some time was valid at every earlier time. */
  lemma ValidEarlier(t: Token, earlier: int, later: int)
    requires earlier <= later && IsValid(t, later)
    ensures IsValid(t, earlier)
  {
  }

  /** A token without `created` or without `expires_in` is never valid. */
  lemma NoLifetimeNotValid(t: Token, now: int)
    requires "created" !in t || "expires_in" !in t
    ensures !IsValid(t, now)
  {
  }

  /** The HTTP response the transport returns. */
  datatype Response = Response(code: int, headers: map<Bytes, Bytes>, body: Bytes)

  /** PHP `strpos(s, part) !== false`: `part` occurs somewhere in `s`. */
  predicate Contains(s: Bytes, part: Bytes) {
    exists i | 0 <= i <= |s| :: part <= s[i..]
  }

  lemma ContainsItself(s: Bytes)
    ensures Contains(s, s)
  {
    assert s <= s[0..];
  }

  /** A text without the first byte of `part` does not contain `part`. */
  lemma NotContainedWithoutFirst(s: Bytes, part: Bytes)
    requires part != [] && part[0] !in s
    ensures !Contains(s, part)
  {
    forall i | 0 <= i <= |s|
      ensures !(part <= s[i..])
    {
      if i < |s| {
        assert s[i..][0] == s[i];
      }
    }
  }

  /** The media type of a form-encoded body. */
  const FormType: Bytes := "x-www-form-urlencoded"

  /**
   * A response is read as form data when its Content-Type header says it is form-encoded; any
   * other response, one without a Content-Type included, is read as JSON.
   */
  predicate IsForm(r: Response) {
    "Content-Type" in r.headers && Contains(r.headers["Content-Type"], FormType)
  }

  /** The token fields of a form-encoded body, every value a string. */
  function FormFields(body: Bytes): Token
  {
    var m := ToMap(ParseForm(body));
    map k | k in m :: Str(m[k])
  }

  /** The fields of the body: form-encoded when the response says so, otherwise JSON. */
  function ResponseFields(r: Response, jsonDecode: Bytes -> Option<Token>): Option<Token>
  {
    if IsForm(r) then Some(FormFields(r.body)) else jsonDecode(r.body)
  }

  /** A response without a Content-Type header is read as JSON. */
  lemma UntypedIsJson(r: Response, jsonDecode: Bytes -> Option<Token>)
    requires "Content-Type" !in r.headers
    ensures ResponseFields(r, jsonDecode) == jsonDecode(r.body)
  {
  }

  /**
   * The token a token endpoint response yields: a 2xx status, a readable body and an
   * `access_token` field are required; `created` is stamped with the current time and every
   * other field is taken from the body.
   */
  function ParseTokenResponse(r: Response, jsonDecode: Bytes -> Option<Token>, now: int)
    : (result: Result<Token, Error>)
    ensures !(200 <= r.code < 300) ==> result == Err(AuthExchangeFailed(r.code))
    ensures 200 <= r.code < 300 ==>
      match ResponseFields(r, jsonDecode)
      case None => result == Err(TokenParseError)
      case Some(f) =>
        && ("access_token" !in f ==> result == Err(TokenParseError))
        && ("access_token" in f ==> result.Ok?)
    ensures result.Ok? ==>
      && ResponseFields(r, jsonDecode).Some?
      && result.value.Keys == ResponseFields(r, jsonDecode).value.Keys + {"created"}
      && result.value["created"] == Int(now)
      && forall k | k in result.value && k != "created" ::
           result.value[k] == ResponseFields(r, jsonDecode).value[k]
  {
    if !(200 <= r.code < 300) then Err(AuthExchangeFailed(r.code))
    else
      match ResponseFields(r, jsonDecode)
      case None => Err(TokenParseError)
      case Some(f) =>
        if "access_token" !in f then Err(TokenParseError)
        else Ok(f["created" := Int(now)])
  }

  /**
   * A token just obtained is valid for exactly `expires_in` seconds from the moment it was
   * received: `created` is that moment.
   */
  lemma AcquiredTokenLifetime(r: Response, jsonDecode: Bytes -> Option<Token>, now: int,
                              t: Token, expiresIn: int, later: int)
    requires ParseTokenResponse(r, jsonDecode, now) == Ok(t)
    requires "access_token" in t && t["access_token"].Str? && t["access_token"].s != []
    requires "expires_in" in Normalize(t) && AsInt(Normalize(t)["expires_in"]) == Some(expiresIn)
    ensures IsValid(Normalize(t), later) <==> later < now + expiresIn
  {
    assert Normalize(t)["created"] == Int(now);
    assert Normalize(t)["access_token"] == t["access_token"];
    ValidUntilExpiry(Normalize(t), now, expiresIn, later);
  }

  /** The grant a token endpoint sends as a form-encoded body: every field a string. */
  function FormGrant(access: Bytes, refresh: Bytes, expiresIn: nat): seq<Pair>
  {
    [("access_token", access), ("refresh_token", refresh), ("expires_in", Decimal(expiresIn))]
  }

  /** The same grant as a JSON decoder delivers it: `expires_in` an integer. */
  function JsonGrant(access: Bytes, refresh: Bytes, expiresIn: nat): Token
  {
    map["access_token" := Str(access), "refresh_token" := Str(refresh), "expires_in" := Int(expiresIn)]
  }

  lemma FormGrantFields(access: Bytes, refresh: Bytes, expiresIn: nat)
    ensures FormFields(FormEncode(FormGrant(access, refresh, expiresIn)))
         == map["access_token" := Str(access), "refresh_token" := Str(refresh),
                "expires_in" := Str(Decimal(expiresIn))]
  {
    var ps := FormGrant(access, refresh, expiresIn);
    ParseFormEncode(ps);
    ToMapThree(ps);
  }

  /** Validity reads only whether the fields are present and what integers they read as. */
  lemma SameValidity(t: Token, u: Token)
    requires t.Keys == u.Keys
    requires forall k | k in t :: LooseEquals(t[k], u[k])
    requires "access_token" in t ==> t["access_token"] == u["access_token"]
    ensures forall now :: IsValid(t, now) <==> IsValid(u, now)
  {
  }

  /** The token a form-encoded grant yields: its three fields as strings, and `created`. */
  lemma FormGrantToken(access: Bytes, refresh: Bytes, expiresIn: nat, code: int,
                       formType: Bytes, jsonDecode: Bytes -> Option<Token>, now: int)
    requires 200 <= code < 300 && access != []
    requires Contains(formType, FormType)
    ensures ParseTokenResponse(Response(code, map["Content-Type" := formType],
                                        FormEncode(FormGrant(access, refresh, expiresIn))),
                               jsonDecode, now)
         == Ok(map["access_token" := Str(access), "refresh_token" := Str(refresh),
                   "expires_in" := Str(Decimal(expiresIn)), "created" := Int(now)])
  {
    FormGrantFields(access, refresh, expiresIn);
  }

  /** The string and the integer forms of a grant's fields agree field by field and in validity. */
  lemma GrantFormsAgree(access: Bytes, refresh: Bytes, expiresIn: nat, now: int)
    requires access != []
    ensures
      var f := map["access_token" := Str(access), "refresh_token" := Str(refresh),
                   "expires_in" := Str(Decimal(expiresIn)), "created" := Int(now)];
      var j := JsonGrant(access, refresh, expiresIn)["created" := Int(now)];
      && f.Keys == j.Keys == {"access_token", "refresh_token", "expires_in", "created"}
      && (forall k | k in f :: LooseEquals(f[k], j[k]))
      && (forall t :: IsValid(f, t) <==> IsValid(j, t))
  {
    var f := map["access_token" := Str(access), "refresh_token" := Str(refresh),
                 "expires_in" := Str(Decimal(expiresIn)), "created" := Int(now)];
    var j := JsonGrant(access, refresh, expiresIn)["created" := Int(now)];
    DecimalRoundTrip(expiresIn);
    assert AsInt(Str(Decimal(expiresIn))) == Some(expiresIn);
    assert LooseEquals(f["expires_in"], j["expires_in"]);
    SameValidity(f, j);
  }

  /**
   * A form-encoded grant and its JSON equivalent yield the same token: the same fields,
   * loosely equal values, the same `created`, and so the same validity at every instant.
   */
  lemma FormAndJsonAgree(access: Bytes, refresh: Bytes, expiresIn: nat, code: int,
                         formType: Bytes, jsonType: Bytes, jsonBody: Bytes,
                         jsonDecode: Bytes -> Option<Token>, now: int)
    requires 200 <= code < 300 && access != []
    requires Contains(formType, FormType) && !Contains(jsonType, FormType)
    requires jsonDecode(jsonBody) == Some(JsonGrant(access, refresh, expiresIn))
    ensures
      var form := Response(code, map["Content-Type" := formType],
                           FormEncode(FormGrant(access, refresh, expiresIn)));
      var json := Response(code, map["Content-Type" := jsonType], jsonBody);
      var f := ParseTokenResponse(form, jsonDecode, now);
      var j := ParseTokenResponse(json, jsonDecode, now);
      && f.Ok? && j.Ok?
      && f.value.Keys == j.value.Keys == {"access_token", "refresh_token", "expires_in", "created"}
      && (forall k | k in f.value :: LooseEquals(f.value[k], j.value[k]))
      && f.value["created"] == j.value["created"] == Int(now)
      && (forall t :: IsValid(f.value, t) <==> IsValid(j.value, t))
  {
    var json := Response(code, map["Content-Type" := jsonType], jsonBody);
    FormGrantToken(access, refresh, expiresIn, code, formType, jsonDecode, now);
    assert !IsForm(json);
    assert ParseTokenResponse(json, jsonDecode, now)
        == Ok(JsonGrant(access, refresh, expiresIn)["created" := Int(now)]);
    GrantFormsAgree(access, refresh, expiresIn, now);
  }
}
