module AuthorizationUrlExample {
  import opened Wrappers
  import opened ByteStrings
  import opened UrlEncoding
  import opened FormData
  import opened Config
  import opened AuthorizationUrl

  predicate AllUnreserved(s: Bytes) { forall i | 0 <= i < |s| :: IsUnreserved(s[i]) }

  lemma EncodeSchemeSeparator()
    ensures UrlEncode("://") == "%3A%2F%2F"
  {
    UrlEncodeCons("://");
    UrlEncodeCons("//");
    UrlEncodeCons("/");
    assert "://"[1..] == "//";
    assert "//"[1..] == "/";
    assert "/"[1..] == [];
  }

  lemma EncodeSlash()
    ensures UrlEncode("/") == "%2F"
  {
    UrlEncodeCons("/");
    assert "/"[1..] == [];
  }

  lemma EncodeWebUrl(scheme: Bytes, host: Bytes, path: Bytes)
    requires AllUnreserved(scheme) && AllUnreserved(host) && AllUnreserved(path)
    ensures UrlEncode(scheme + "://" + host + "/" + path) == scheme + "%3A%2F%2F" + host + "%2F" + path
  {
    UrlEncodeAppend(scheme + "://" + host + "/", path);
    UrlEncodeAppend(scheme + "://" + host, "/");
    UrlEncodeAppend(scheme + "://", host);
    UrlEncodeAppend(scheme, "://");
    EncodeSchemeSeparator();
    EncodeSlash();
    UnreservedUnchanged(scheme);
    UnreservedUnchanged(host);
    UnreservedUnchanged(path);
  }

  lemma EncodeWebUrl2(scheme: Bytes, host: Bytes, dir: Bytes, file: Bytes)
    requires AllUnreserved(scheme) && AllUnreserved(host) && AllUnreserved(dir) && AllUnreserved(file)
    ensures UrlEncode(scheme + "://" + host + "/" + dir + "/" + file)
         == scheme + "%3A%2F%2F" + host + "%2F" + dir + "%2F" + file
  {
    EncodeWebUrl(scheme, host, dir);
    UrlEncodeAppend(scheme + "://" + host + "/" + dir + "/", file);
    UrlEncodeAppend(scheme + "://" + host + "/" + dir, "/");
    EncodeSlash();
    UnreservedUnchanged(file);
  }

  // The suite's literals are written in short pieces (the client id is
  // "01234567891011.apps.googleusercontent.com"): the verifier checks a long string literal byte
  // by byte wherever it occurs, and the pieces keep that cost down.

  /** The Google endpoints and scopes of the suite. */
  const AccountsBase: Bytes := "https://" + "accounts." + "google.com" + "/o/oauth2/"
  const AuthUrl: Bytes := AccountsBase + "auth"
  const ClientId: Bytes := "0123456789" + "1011.apps." + "googleuser" + "content.com"
  const RedirectUri: Bytes := "http://" + "localhost" + "/oauth"
  const ScopeBase: Bytes := "https://" + "www.googleapis" + ".com/auth/"
  const AdsenseScope: Bytes := ScopeBase + "adsense"
  const CalendarScope: Bytes := ScopeBase + "calendar"

  function ExampleOptions(): Options
  {
    map[
      "authurl" := Text(AuthUrl),
      "clientid" := Text(ClientId),
      "scope" := Items([AdsenseScope, CalendarScope]),
      "state" := Text("123456"),
      "redirecturi" := Text(RedirectUri),
      "requestparams" := Pairs([("access_type", "offline"), ("approval_prompt", "auto")])
    ]
  }

  // Proof steps. The literal strings of the suite, split into pieces and joined again: the
  // solver checks each join on its own, and the lemmas below state nothing else.
  lemma RedirectPieces()
    ensures RedirectUri == "http" + "://" + "localhost" + "/" + "oauth"
  {
  }

  lemma RedirectPiecesUnreserved()
    ensures AllUnreserved("http") && AllUnreserved("localhost") && AllUnreserved("oauth")
  {
  }

  lemma RedirectPiecesEncoded()
    ensures "http" + "%3A%2F%2F" + "localhost" + "%2F" + "oauth" == "http%3A%2F%2Flocalhost%2Foauth"
  {
  }

  // End of proof steps.

  /** The suite's redirect URI, encoded. */
  lemma RedirectEncoded()
    ensures UrlEncode(RedirectUri) == "http%3A%2F%2Flocalhost%2Foauth"
  {
    RedirectPieces();
    RedirectPiecesUnreserved();
    RedirectPiecesEncoded();
    EncodeWebUrl("http", "localhost", "oauth");
  }

  // Proof steps. The literal strings of the suite, split into pieces and joined again: the
  // solver checks each join on its own, and the lemmas below state nothing else.
  lemma ScopePrefixSplit()
    ensures ScopeBase == "https" + "://" + "www.googleapis.com" + "/" + "auth" + "/"
  {
  }

  lemma ScopePrefixUnreserved()
    ensures AllUnreserved("https") && AllUnreserved("www.googleapis.com") && AllUnreserved("auth")
  {
  }

  lemma ScopePrefixEncoded()
    ensures "https" + "%3A%2F%2F" + "www.googleapis.com" + "%2F" + "auth" + "%2F" == EncodedPrefix
  {
  }

  // End of proof steps.

  /** A Google API scope, encoded. */
  lemma ScopeEncoded(service: Bytes)
    requires AllUnreserved(service)
    ensures UrlEncode(ScopeBase + service) == EncodedPrefix + service
  {
    ScopePrefixSplit();
    ScopePrefixUnreserved();
    ScopePrefixEncoded();
    EncodeWebUrl2("https", "www.googleapis.com", "auth", service);
  }

  // "https%3A%2F%2Fwww.googleapis.com%2Fauth%2F", in pieces for the same reason.
  const EncodedPrefix: Bytes := "https%3A%2F%2F" + "www.googleapis" + ".com%2Fauth%2F"
  const EncodedAdsense: Bytes := EncodedPrefix + "adsense"
  const EncodedCalendar: Bytes := EncodedPrefix + "calendar"

  lemma ServicePieces()
    ensures AllUnreserved("adsense") && AllUnreserved("calendar")
  {
  }

  lemma ScopesEncoded()
    ensures UrlEncode(AdsenseScope) == EncodedAdsense
    ensures UrlEncode(CalendarScope) == EncodedCalendar
  {
    ServicePieces();
    ScopeEncoded("adsense");
    ScopeEncoded("calendar");
  }

  lemma ExampleScope()
    ensures ScopePairs(ExampleOptions()) == [("scope", EncodedAdsense + "+" + EncodedCalendar)]
  {
    var items := [AdsenseScope, CalendarScope];
    assert ExampleOptions()["scope"] == Items(items);
    UrlEncodeJoin(items);
    ScopesEncoded();
    assert EncodeEach(items) == [EncodedAdsense, EncodedCalendar];
    assert Join(EncodeEach(items), '+') == EncodedAdsense + "+" + EncodedCalendar;
  }

  lemma ExampleTextOptions()
    ensures TextOption(ExampleOptions(), "authurl") == Some(AuthUrl)
    ensures TextOption(ExampleOptions(), "clientid") == Some(ClientId)
    ensures TextOption(ExampleOptions(), "redirecturi") == Some(RedirectUri)
    ensures StatePairs(ExampleOptions()) == [("state", "123456")]
    ensures ExtraPairs(ExampleOptions()) == [("access_type", "offline"), ("approval_prompt", "auto")]
  {
  }

  // Proof steps. The literal strings of the suite, split into pieces and joined again: the
  // solver checks each join on its own, and the lemmas below state nothing else.
  lemma LiteralJoins()
    ensures "?" + "response_type=code" == "?response_type=code"
    ensures "&" + "scope" + "=" == "&scope="
    ensures "&" + "state" + "=" + "123456" == "&state=123456"
  {
  }

  lemma ExtraJoins()
    ensures "&" + "access_type" + "=" + "offline" == "&access_type=offline"
    ensures "&" + "approval_prompt" + "=" + "auto" == "&approval_prompt=auto"
  {
  }

  lemma RegroupExpected<T>(a: seq<T>, q: seq<T>, rt: seq<T>, qrt: seq<T>, cl: seq<T>, c: seq<T>,
                   rd: seq<T>, r: seq<T>, sc: seq<T>, v: seq<T>, t: seq<T>, x: seq<T>)
    requires q + rt == qrt
    ensures a + q + rt + cl + c + rd + r + (sc + v) + t + x
         == a + qrt + cl + c + rd + r + sc + v + t + x
  {
  }

  // End of proof steps.

  lemma ExampleUrlFor()
    ensures CreateUrl(ExampleOptions()) == Ok(UrlFor(AuthUrl, ClientId, RedirectUri, ExampleOptions()))
  {
    ExampleTextOptions();
  }

  /**
   * The authorization URL for a Google client with two scopes, a state and two extra
   * parameters: every parameter in order, the redirect URI and the scopes percent-encoded and
   * the scopes separated by `+`.
   */
  lemma ExampleCreateUrl()
    ensures CreateUrl(ExampleOptions()) == Ok(
      AuthUrl + "?response_type=code"
      + "&client_id=" + ClientId
      + "&redirect_uri=" + "http%3A%2F%2Flocalhost%2Foauth"
      + "&scope=" + (EncodedAdsense + "+" + EncodedCalendar)
      + "&state=123456" + ("&access_type=offline" + "&approval_prompt=auto"))
  {
    var o := ExampleOptions();
    ExampleUrlFor();
    ExampleTextOptions();
    RedirectEncoded();
    ExampleScope();
    AppendedOne("scope", EncodedAdsense + "+" + EncodedCalendar);
    AppendedOne("state", "123456");
    AppendedTwo(("access_type", "offline"), ("approval_prompt", "auto"));
    LiteralJoins();
    ExtraJoins();
    RegroupExpected(AuthUrl, "?", "response_type=code", "?response_type=code", "&client_id=", ClientId,
      "&redirect_uri=", "http%3A%2F%2Flocalhost%2Foauth", "&scope=",
      EncodedAdsense + "+" + EncodedCalendar, "&state=123456",
      "&access_type=offline" + "&approval_prompt=auto");
  }
}
