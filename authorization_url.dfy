/**
 * `createUrl`: the URL of the authorization request of section 4.1.1 of RFC 6749, built
 * from the client's options.
 */
module AuthorizationUrl {
  import opened Wrappers
  import opened ByteStrings
  import opened UrlEncoding
  import opened FormData
  import opened Errors
  import opened Config

  /** The `scope` parameter: the scope list joined by spaces and encoded, when there is one. */
  function ScopePairs(o: Options): seq<Pair>
  {
    if "scope" in o && o["scope"].Items? && o["scope"].items != [] then
      [("scope", UrlEncode(Join(o["scope"].items, ' ')))]
    else []
  }

  /** The `state` parameter, as given, when it is set. */
  function StatePairs(o: Options): seq<Pair>
  {
    match TextOption(o, "state")
    case Some(s) => [("state", s)]
    case None => []
  }

  /** The extra `requestparams`, as given and in their order. */
  function ExtraPairs(o: Options): seq<Pair>
  {
    if "requestparams" in o && o["requestparams"].Pairs? then o["requestparams"].entries else []
  }

  /** Each pair appended as `&key=value`. */
  function Appended(ps: seq<Pair>): Bytes
  {
    if ps == [] then [] else "&" + Segment(ps[0]) + Appended(ps[1..])
  }

  /** The fixed pieces of the authorization URL. */
  const ResponseTypeCode: Bytes := "response_type=code"
  const ClientIdPrefix: Bytes := "&client_id="
  const RedirectUriPrefix: Bytes := "&redirect_uri="

  /**
   * The authorization URL for the given endpoint, client id and redirect URI: the endpoint,
   * `?response_type=code`, `client_id`, the encoded `redirect_uri`, the optional `scope` and
   * `state`, and the extra parameters.
   */
  function UrlFor(authUrl: Bytes, clientId: Bytes, redirectUri: Bytes, o: Options): Bytes
  {
    authUrl + "?" + ResponseTypeCode
    + ClientIdPrefix + clientId
    + RedirectUriPrefix + UrlEncode(redirectUri)
    + Appended(ScopePairs(o))
    + Appended(StatePairs(o))
    + Appended(ExtraPairs(o))
  }

  /**
   * `createUrl`: the authorization URL built from the options; the endpoint, the client id
   * and the redirect URI are required, checked in that order.
   */
  function CreateUrl(o: Options): (r: Result<Bytes, Error>)
    ensures r.Ok? <==>
      TextOption(o, "authurl").Some? && TextOption(o, "clientid").Some?
      && TextOption(o, "redirecturi").Some?
    ensures r.Err? ==> r.error == ConfigurationError(
      if TextOption(o, "authurl").None? then "authurl"
      else if TextOption(o, "clientid").None? then "clientid"
      else "redirecturi")
  {
    if TextOption(o, "authurl").None? then Err(ConfigurationError("authurl"))
    else if TextOption(o, "clientid").None? then Err(ConfigurationError("clientid"))
    else if TextOption(o, "redirecturi").None? then Err(ConfigurationError("redirecturi"))
    else Ok(UrlFor(TextOption(o, "authurl").value, TextOption(o, "clientid").value,
                   TextOption(o, "redirecturi").value, o))
  }

  lemma {:induction false} AppendedConcat(ps: seq<Pair>, qs: seq<Pair>)
    ensures Appended(ps + qs) == Appended(ps) + Appended(qs)
    decreases |ps|
  {
    if ps == [] {
      assert ps + qs == qs;
    } else {
      assert (ps + qs)[1..] == ps[1..] + qs;
      AppendedConcat(ps[1..], qs);
    }
  }

  /** A query string is its first segment followed by `&key=value` for every further pair. */
  lemma {:induction false} QueryStringCons(p: Pair, rest: seq<Pair>)
    ensures QueryString([p] + rest) == Segment(p) + Appended(rest)
    decreases |rest|
  {
    var ps := [p] + rest;
    var segs := seq(|ps|, i requires 0 <= i < |ps| => Segment(ps[i]));
    if rest != [] {
      var tail := seq(|rest|, i requires 0 <= i < |rest| => Segment(rest[i]));
      assert segs[1..] == tail;
      assert rest == [rest[0]] + rest[1..];
      QueryStringCons(rest[0], rest[1..]);
    }
  }

  /** The query of the authorization URL: every parameter, in the fixed order. */
  function RequestParams(clientId: Bytes, redirectUri: Bytes, o: Options): seq<Pair>
  {
    [("response_type", "code"), ("client_id", clientId), ("redirect_uri", UrlEncode(redirectUri))]
    + ScopePairs(o) + StatePairs(o) + ExtraPairs(o)
  }

  lemma AppendedOne(k: Bytes, v: Bytes)
    ensures Appended([(k, v)]) == "&" + k + "=" + v
  {
    assert [(k, v)][1..] == [];
  }

  lemma AppendedTwo(p: Pair, q: Pair)
    ensures Appended([p, q]) == "&" + p.0 + "=" + p.1 + ("&" + q.0 + "=" + q.1)
  {
    assert [p, q][1..] == [q];
    AppendedOne(q.0, q.1);
  }

  // Proof step: the fixed pieces, joined from the parameter names.
  lemma FixedPieces()
    ensures Segment(("response_type", "code")) == ResponseTypeCode
    ensures "&" + "client_id" + "=" == ClientIdPrefix
    ensures "&" + "redirect_uri" + "=" == RedirectUriPrefix
  {
  }

  lemma AppendedNamed(clientId: Bytes, encodedUri: Bytes)
    ensures Appended([("client_id", clientId), ("redirect_uri", encodedUri)])
         == ClientIdPrefix + clientId + RedirectUriPrefix + encodedUri
  {
    AppendedTwo(("client_id", clientId), ("redirect_uri", encodedUri));
    FixedPieces();
  }

  lemma QueryOfParams(clientId: Bytes, redirectUri: Bytes, o: Options)
    ensures QueryString(RequestParams(clientId, redirectUri, o))
         == ResponseTypeCode
            + (ClientIdPrefix + clientId + RedirectUriPrefix + UrlEncode(redirectUri)
               + Appended(ScopePairs(o)) + Appended(StatePairs(o)) + Appended(ExtraPairs(o)))
  {
    var named: seq<Pair> := [("client_id", clientId), ("redirect_uri", UrlEncode(redirectUri))];
    var s, t, e := ScopePairs(o), StatePairs(o), ExtraPairs(o);
    var rest := named + s + t + e;
    assert RequestParams(clientId, redirectUri, o) == [("response_type", "code")] + rest;
    QueryStringCons(("response_type", "code"), rest);
    AppendedConcat(named + s + t, e);
    AppendedConcat(named + s, t);
    AppendedConcat(named, s);
    AppendedNamed(clientId, UrlEncode(redirectUri));
    FixedPieces();
  }

  // Proof step: regrouping a concatenation.
  lemma Regroup<T>(u: seq<T>, q: seq<T>, h: seq<T>, n1: seq<T>, n2: seq<T>, n3: seq<T>,
                   n4: seq<T>, a: seq<T>, b: seq<T>, c: seq<T>)
    ensures u + q + h + n1 + n2 + n3 + n4 + a + b + c
         == u + q + (h + (n1 + n2 + n3 + n4 + a + b + c))
  {
  }

  /** The URL is the endpoint, `?`, and the query string of the parameters in order. */
  lemma UrlForIsQueryString(authUrl: Bytes, clientId: Bytes, redirectUri: Bytes, o: Options)
    ensures UrlFor(authUrl, clientId, redirectUri, o)
         == authUrl + "?" + QueryString(RequestParams(clientId, redirectUri, o))
  {
    QueryOfParams(clientId, redirectUri, o);
    var a, b, c := Appended(ScopePairs(o)), Appended(StatePairs(o)), Appended(ExtraPairs(o));
    Regroup(authUrl, "?", ResponseTypeCode, ClientIdPrefix, clientId, RedirectUriPrefix,
            UrlEncode(redirectUri), a, b, c);
  }

  /** `createUrl` yields the authorization endpoint, `?` and the query string of the parameters. */
  lemma CreateUrlQuery(o: Options)
    requires CreateUrl(o).Ok?
    ensures CreateUrl(o).value
         == TextOption(o, "authurl").value + "?"
            + QueryString(RequestParams(TextOption(o, "clientid").value,
                                        TextOption(o, "redirecturi").value, o))
  {
    UrlForIsQueryString(TextOption(o, "authurl").value, TextOption(o, "clientid").value,
                        TextOption(o, "redirecturi").value, o);
  }

  /** The fixed parameters split back, given a client id without `&`. */
  lemma FixedParamsDelimitable(clientId: Bytes, redirectUri: Bytes)
    requires '&' !in clientId
    ensures Delimitable(("response_type", "code")) && Delimitable(("client_id", clientId))
    ensures Delimitable(("redirect_uri", UrlEncode(redirectUri)))
  {
    UrlEncodeAlphabet(redirectUri);
  }

  /** The optional scope and state parameters split back, given a state without `&`. */
  lemma OptionalParamsDelimitable(o: Options)
    requires TextOption(o, "state").Some? ==> '&' !in TextOption(o, "state").value
    ensures forall i | 0 <= i < |ScopePairs(o)| :: Delimitable(ScopePairs(o)[i])
    ensures forall i | 0 <= i < |StatePairs(o)| :: Delimitable(StatePairs(o)[i])
  {
    if ScopePairs(o) != [] {
      UrlEncodeAlphabet(Join(o["scope"].items, ' '));
    }
  }

  /**
   * When the client id, the state and the extra parameters hold no `&` (and the extra keys no
   * `=`), the query splits back into exactly the parameters, in order, and the encoded
   * redirect URI and scope list decode to the configured values.
   */
  lemma RequestParamsReadBack(clientId: Bytes, redirectUri: Bytes, o: Options)
    requires '&' !in clientId
    requires TextOption(o, "state").Some? ==> '&' !in TextOption(o, "state").value
    requires forall i | 0 <= i < |ExtraPairs(o)| :: Delimitable(ExtraPairs(o)[i])
    ensures RawPairs(QueryString(RequestParams(clientId, redirectUri, o)))
         == RequestParams(clientId, redirectUri, o)
    ensures UrlDecode(RequestParams(clientId, redirectUri, o)[2].1) == redirectUri
    ensures ScopePairs(o) != [] ==>
      o["scope"].Items? && UrlDecode(ScopePairs(o)[0].1) == Join(o["scope"].items, ' ')
  {
    var ps := RequestParams(clientId, redirectUri, o);
    UrlDecodeEncode(redirectUri);
    if ScopePairs(o) != [] {
      UrlDecodeEncode(Join(o["scope"].items, ' '));
    }
    FixedParamsDelimitable(clientId, redirectUri);
    OptionalParamsDelimitable(o);
    var fixed := [("response_type", "code"), ("client_id", clientId), ("redirect_uri", UrlEncode(redirectUri))];
    var s, t, e := ScopePairs(o), StatePairs(o), ExtraPairs(o);
    assert ps == fixed + s + t + e;
    forall i | 0 <= i < |ps|
      ensures Delimitable(ps[i])
    {
      if i < 3 {
        assert ps[i] == fixed[i];
      } else if i < 3 + |s| {
        assert ps[i] == s[i - 3];
      } else if i < 3 + |s| + |t| {
        assert ps[i] == t[i - 3 - |s|];
      } else {
        assert ps[i] == e[i - 3 - |s| - |t|];
      }
    }
    RawPairsOfQueryString(ps);
  }
}
