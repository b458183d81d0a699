# OAuth2 client (Joomla\OAuth2\Client) in Dafny

This project models the OAuth2 authorization-code client `Joomla\OAuth2\Client` and proves
properties of the model. The client keeps its settings and its current access token in one
option store, under the key `accesstoken`. It does five things:

- It builds the authorization URL (`createUrl`): section 4.1.1 of RFC 6749. Only
  `redirect_uri` and the scope list are percent-encoded, as PHP's `urlencode` does it;
  `client_id`, `state` and the extra `requestparams` go into the URL as they are.
- It sends the user agent to that URL, or exchanges an incoming authorization `code` for a
  token at the token endpoint (`authenticate`).
- It exchanges the stored refresh token for a new token (`refreshToken`).
- It decides whether the stored token is still usable (`isAuthenticated`).
- It signs requests to protected resources with the access token (`query`), refreshing the
  token first when it has expired and `userefresh` is on.

Token endpoint responses (section 5.1 of RFC 6749) are read as an
`application/x-www-form-urlencoded` body when their Content-Type says so, and as JSON otherwise,
including when they carry no Content-Type at all.

Modules, in dependency order:

- `Wrappers`: `Option` and `Result`.
- `ByteStrings`: PHP strings as byte strings; join, split and decimal rendering.
- `UrlEncoding`: `urlencode` and `urldecode`, and the round trip between them.
- `FormData`: `k=v&k=v` bodies and query strings, and the PHP array a list of pairs builds.
- `Errors`: the ways an operation fails.
- `Tokens`: the stored token, its normalisation, its validity in time and the parsing of
  token responses.
- `Config`: the option store, PHP truthiness and string options.
- `AuthorizationUrl`: `createUrl` and the shape of its query.
- `AuthorizationUrlExample`: the URL the suite expects, derived from the model.
- `OAuth2Client` / `OAuth2ClientProperties`: the `Client` class and the facts about the tokens
  it stores.
- `ClientScenarios`: each test of the suite replayed against the class, with the test's
  assertions as postconditions.

The class holds two mutable fields:

- `options`: the option store.
- `sent`: the log of every request handed to the transport.

The HTTP transport and the JSON decoder are fixed functions given to the constructor, and the
current time is a parameter of the operations that need it.

## Model

| member | source | states |
|---|---|---|
| OAuth2Client.Client.SetOption | Tests/JOauth2ClientTest.php:206-214 | the store holds the value under the key afterwards, every other key is unchanged, and no request is sent |
| OAuth2Client.Client.GetOption | Tests/JOauth2ClientTest.php:222-230 | the result is present exactly when the store holds the key, and it is what the store holds |
| OAuth2Client.Client.SetToken | Tests/JOauth2ClientTest.php:238-259 | the normalised token replaces the stored one under `accesstoken`, every other option is unchanged, and `GetToken` then returns it |
| OAuth2Client.Client.GetToken | Tests/JOauth2ClientTest.php:268-276 | the result is present exactly when a token is stored under `accesstoken`, and it is that token |
| OAuth2Client.Client.IsAuthenticated | Tests/JOauth2ClientTest.php:124-141 | true exactly when a token is stored and is valid at the given time |
| OAuth2Client.Client.Authenticate | Tests/JOauth2ClientTest.php:74-116 | with no truthy code: no request and no change; it returns a redirect to the `createUrl` URL when `sendheaders` is on, the URL otherwise, or the configuration error. With a code: exactly one request, the exchange POST, is sent, and the normalised token it yields is stored and returned; a failure changes nothing |
| OAuth2Client.Client.RefreshToken | Tests/JOauth2ClientTest.php:284-322 | a missing refresh token or setting fails with no request; otherwise exactly one refresh POST is sent, and the token it yields is stored and returned, keeping the old refresh token when the response has none |
| OAuth2Client.Client.Query | Tests/JOauth2ClientTest.php:174-198 | a valid token: exactly one signed request, whose response is returned unchanged. An invalid token that cannot be refreshed: `NotAuthenticated` (PHP `false`), no request and no change. Otherwise the refresh POST, then (if it succeeds) the request signed with the new token. The request is a GET exactly when the method given is `get`, or, when none is given, when `authmethod` is `get` |
| OAuth2Client.Client.SendSigned | Tests/JOauth2ClientTest.php:188-197 | exactly one request, signed with the stored access token, is sent; its response is returned and the options are unchanged |
| OAuth2Client.WithToken | Tests/JOauth2ClientTest.php:240-245 | the token is then the one stored, and every other option reads as before |
| OAuth2Client.ExchangePlan | Tests/JOauth2ClientTest.php:86-91 | fails exactly when `tokenurl` is missing; otherwise a POST to `tokenurl` whose fields are the grant type `authorization_code`, the code, the redirect URI and the client credentials |
| OAuth2Client.RefreshPlan | Tests/JOauth2ClientTest.php:286-294 | succeeds exactly when a refresh token is stored and all four settings are present; otherwise it names the first missing item; on success a POST to `tokenurl` whose fields are the grant type `refresh_token`, the stored refresh token and the client settings |
| OAuth2Client.SignedRequest | Tests/JOauth2ClientTest.php:182-195 | a GET exactly when asked for, with `access_token=...` appended after `?` (or `&` when the URL already has a query); otherwise a POST to the URL whose fields are the given ones plus `access_token` |
| OAuth2ClientProperties.ExchangedToken | Tests/JOauth2ClientTest.php:91-95 | the stored token carries the response's access and refresh tokens, `created` is the time of receipt, and there is no `expires` alias |
| OAuth2ClientProperties.RefreshedToken | Tests/JOauth2ClientTest.php:294-298 | the same as a code exchange, and the previous refresh token is kept exactly when the response has none |
| OAuth2ClientProperties.NothingStoredNotAuthenticated | Tests/JOauth2ClientTest.php:126 | with no token stored the client is not authenticated at any time |
| OAuth2ClientProperties.StoredTokenDecidesValidity | Tests/JOauth2ClientTest.php:132-140 | after `setToken` the client is authenticated exactly when the normalised token is valid |
| Tokens.Normalize | Tests/JOauth2ClientTest.php:240-259 | `expires` is never kept. A token without it is stored as given; one with it gets `expires_in` set to its value; every other field is kept |
| Tokens.NormalizeIdempotent | Tests/JOauth2ClientTest.php:247-259 | normalising a stored token again changes nothing |
| Tokens.ValidUntilExpiry | Tests/JOauth2ClientTest.php:128-140 | a token is valid exactly while the time is before `created + expires_in` |
| Tokens.ValidEarlier | Tests/JOauth2ClientTest.php:130-140 | a token valid at some time is valid at every earlier time |
| Tokens.NoLifetimeNotValid | Tests/JOauth2ClientTest.php:240-245 | a token without `created` or without `expires_in` is never valid |
| Tokens.AsIntOfAsString | Tests/JOauth2ClientTest.php:94 | an integer rendered as a string reads back as the same integer |
| Tokens.ParseTokenResponse | Tests/JOauth2ClientTest.php:337-369 | a non-2xx status, an unreadable body or a missing `access_token` is an error; otherwise the token is the body's fields plus `created` set to the current time |
| Tokens.AcquiredTokenLifetime | Tests/JOauth2ClientTest.php:91-95 | a token just received is valid for exactly `expires_in` seconds from the time of receipt |
| Tokens.FormGrantFields | Tests/JOauth2ClientTest.php:343 | a form-encoded grant reads back as its three fields, every value a string |
| Tokens.FormGrantToken | Tests/JOauth2ClientTest.php:337-346 | a 2xx form-encoded grant response yields the three fields as strings, plus `created` |
| Tokens.SameValidity | Tests/JOauth2ClientTest.php:92-94 | tokens with the same fields and loosely equal values are valid at the same times |
| Tokens.GrantFormsAgree | Tests/JOauth2ClientTest.php:92-94 | the string and integer forms of a grant have the same fields, loosely equal values and the same validity |
| Tokens.FormAndJsonAgree | Tests/JOauth2ClientTest.php:337-369 | the form-encoded grant and its JSON equivalent both parse; the tokens have the same fields, loosely equal values, the same `created` and the same validity at every time |
| Tokens.NotContainedWithoutFirst | Tests/JOauth2ClientTest.php:365 | a text without the first byte of a pattern does not contain the pattern, so the JSON stub's `application/json` is not read as form data |
| Tokens.ContainsItself | Tests/JOauth2ClientTest.php:342 | a text contains itself, so the form stub's Content-Type marks it as form data |
| Tokens.UntypedIsJson | Tests/JOauth2ClientTest.php:360-369 | a response without a Content-Type header is read through the JSON decoder |
| OAuth2ClientProperties.ExplicitMethodWins | Tests/JOauth2ClientTest.php:189-195 | an explicit method decides between GET and POST, so an explicit `post` is never a GET; without one, `authmethod` set to `get` selects GET |
| Config.Required | Tests/JOauth2ClientTest.php:76-87 | succeeds exactly when the string option is set and truthy; the value is then non-empty; otherwise it fails naming the option |
| AuthorizationUrl.CreateUrl | Tests/JOauth2ClientTest.php:151-165 | succeeds exactly when `authurl`, `clientid` and `redirecturi` are set; otherwise it names the first one missing |
| AuthorizationUrl.CreateUrlQuery | Tests/JOauth2ClientTest.php:158-164 | the URL is the endpoint, `?`, and the query string of the parameters in the fixed order: `response_type`, `client_id`, `redirect_uri`, `scope`, `state`, then the extra parameters |
| AuthorizationUrl.UrlForIsQueryString | Tests/JOauth2ClientTest.php:159-164 | the URL built piece by piece equals the endpoint, `?` and the query string of the ordered parameters |
| AuthorizationUrl.QueryOfParams | Tests/JOauth2ClientTest.php:159-164 | the query string of the ordered parameters is `response_type=code` followed by `&key=value` for each further parameter |
| AuthorizationUrl.QueryStringCons | Tests/JOauth2ClientTest.php:159-164 | a query string is its first segment followed by `&key=value` for each further pair |
| AuthorizationUrl.AppendedConcat | Tests/JOauth2ClientTest.php:162-164 | appending two lists of parameters appends their renderings |
| AuthorizationUrl.RequestParamsReadBack | Tests/JOauth2ClientTest.php:159-164 | when no value holds a separator, the query splits back into exactly the ordered parameters, and the encoded redirect URI and scope list decode to the configured values |
| AuthorizationUrlExample.ExampleCreateUrl | Tests/JOauth2ClientTest.php:151-165 | with the suite's options, `createUrl` returns exactly the URL the suite expects |
| AuthorizationUrlExample.ScopesEncoded | Tests/JOauth2ClientTest.php:162-163 | the two scopes encode to the strings the suite expects |
| AuthorizationUrlExample.RedirectEncoded | Tests/JOauth2ClientTest.php:161 | `http://localhost/oauth` encodes to `http%3A%2F%2Flocalhost%2Foauth` |
| AuthorizationUrlExample.EncodeWebUrl | Tests/JOauth2ClientTest.php:161 | a URL made of unreserved pieces encodes `:` and `/` and keeps the pieces |
| UrlEncoding.UrlDecodeEncode | Tests/JOauth2ClientTest.php:161-163 | decoding an encoded string gives the string back |
| UrlEncoding.UrlEncodeInjective | Tests/JOauth2ClientTest.php:161-163 | different strings encode differently |
| UrlEncoding.UrlEncodeAlphabet | Tests/JOauth2ClientTest.php:161-163 | an encoding holds only unreserved bytes, `+` and `%`, so never `&` or `=` |
| UrlEncoding.UnreservedUnchanged | Tests/JOauth2ClientTest.php:160-164 | a string of unreserved bytes encodes to itself |
| UrlEncoding.UrlEncodeJoin | Tests/JOauth2ClientTest.php:162-163 | encoding a space-joined list is joining the encoded items with `+` |
| UrlEncoding.UrlEncodeAppend | Tests/JOauth2ClientTest.php:161-163 | encoding distributes over concatenation |
| UrlEncoding.DecodeEncodedByte | Tests/JOauth2ClientTest.php:161-163 | decoding reads one encoded byte back and goes on with the rest |
| FormData.RawPairsOfQueryString | Tests/JOauth2ClientTest.php:343 | a query string of pairs without separators splits back into exactly those pairs |
| FormData.SplitSegmentOfSegment | Tests/JOauth2ClientTest.php:343 | `key=value` splits back into its key and value |
| FormData.ParseFormEncode | Tests/JOauth2ClientTest.php:343 | parsing a form-encoded body gives back the pairs encoded, in order |
| FormData.DecodeEncodedPairs | Tests/JOauth2ClientTest.php:343 | decoding the encoded pairs gives back the pairs |
| FormData.EncodedPairDelimitable | Tests/JOauth2ClientTest.php:343 | an encoded pair holds no separator |
| FormData.ToMapKeys | Tests/JOauth2ClientTest.php:156 | the PHP array of a list of pairs has exactly the keys the list has |
| FormData.ToMapAt | Tests/JOauth2ClientTest.php:156 | the value the array holds for a key comes from the last pair with that key |
| FormData.ToMapReplace | Tests/JOauth2ClientTest.php:182-189 | replacing a present key's value updates exactly that entry of the array |
| FormData.Assign | Tests/JOauth2ClientTest.php:182-189 | the array of the result is the array of the input with the key set to the value |
| FormData.ToMapFive | Tests/JOauth2ClientTest.php:286-294 | the array of five pairs is built entry by entry, later pairs winning |
| ByteStrings.Split | Tests/JOauth2ClientTest.php:343 | the pieces hold no separator and join back into the input |
| ByteStrings.SplitOfJoin | Tests/JOauth2ClientTest.php:343 | splitting a join of pieces without the separator gives back the pieces |
| ByteStrings.DecimalRoundTrip | Tests/JOauth2ClientTest.php:343 | the decimal rendering of a number reads back as that number |
| ByteStrings.ConcatAppend | Tests/JOauth2ClientTest.php:162-163 | concatenating two lists of pieces appends their concatenations |
| ClientScenarios.AuthScenario | Tests/JOauth2ClientTest.php:74-96 | on one client: without a code and with `sendheaders` on, `authenticate` redirects to the authorization URL and sends nothing; once `tokenurl` and `clientsecret` are added and a code arrives, with `sendheaders` still on, it sends exactly one POST to the token endpoint carrying the code, the configured client id, redirect URI and secret, and returns `accessvalue`, `refreshvalue`, `expires_in` 3600 and `created` now |
| ClientScenarios.RedirectWithoutCode | Tests/JOauth2ClientTest.php:76-84 | on the first options of `testAuth` and with no code, `authenticate` redirects to the authorization URL, sends nothing and changes nothing |
| ClientScenarios.AuthExchangePlan | Tests/JOauth2ClientTest.php:86-91 | the exchange on `testAuth`'s options is a POST to the token endpoint whose fields are the grant type, the code, the configured redirect URI, client id and client secret |
| ClientScenarios.AuthJsonScenario | Tests/JOauth2ClientTest.php:104-116 | the same with the JSON grant, and the token agrees field by field with the form-encoded one |
| ClientScenarios.IsAuthScenario | Tests/JOauth2ClientTest.php:124-141 | not authenticated with no token, authenticated for `created = now, expires_in = 3600`, not for `created = now - 4000` |
| ClientScenarios.QueryScenario | Tests/JOauth2ClientTest.php:174-198 | an expired token without refresh gives `false` and no request; then one POST, then (with `authmethod` `get`) one GET, each returning the stub response unchanged |
| ClientScenarios.QueryExpired | Tests/JOauth2ClientTest.php:176-183 | `created = now - 1800, expires_in = 600` gives `false` with no request |
| ClientScenarios.QueryPosted | Tests/JOauth2ClientTest.php:185-191 | with `expires_in = 3600` one POST with `param` and `access_token` is sent and its response returned |
| ClientScenarios.QueryFetched | Tests/JOauth2ClientTest.php:193-197 | with `authmethod` `get` one GET with the token in the URL is sent and its response returned |
| ClientScenarios.SetOptionScenario | Tests/JOauth2ClientTest.php:206-214 | the store holds `value` under `key` |
| ClientScenarios.GetOptionScenario | Tests/JOauth2ClientTest.php:222-230 | `getOption` reads `value` from the store |
| ClientScenarios.SetTokenScenario | Tests/JOauth2ClientTest.php:238-259 | the three tokens are stored as the suite expects, `expires` renamed to `expires_in` |
| ClientScenarios.GetTokenScenario | Tests/JOauth2ClientTest.php:268-276 | `getToken` returns the token stored under `accesstoken` |
| ClientScenarios.RefreshScenario | Tests/JOauth2ClientTest.php:284-299 | one POST to the token endpoint with grant type `refresh_token` and the stored refresh token; the form-encoded grant's fields are returned with `created` now |
| ClientScenarios.RefreshJsonScenario | Tests/JOauth2ClientTest.php:307-322 | the same with the JSON grant |
| ClientScenarios.EncodedGrantBodyIsForm | Tests/JOauth2ClientTest.php:343 | the stub body is the form encoding of the three grant fields |
| ClientScenarios.EncodedGrantFields | Tests/JOauth2ClientTest.php:343 | the stub body reads as `access_token`, `refresh_token` and `expires_in` with the suite's values |
| ClientScenarios.StubTokensAgree | Tests/JOauth2ClientTest.php:337-369 | the tokens of the two stub responses have the same fields, loosely equal values and the same validity |
| ClientScenarios.ExchangeWithStub | Tests/JOauth2ClientTest.php:90-91 | with a transport that always returns the given response, `authenticate` sends exactly the exchange POST to the token endpoint, and stores and returns the token |
| ClientScenarios.RefreshWithStub | Tests/JOauth2ClientTest.php:293-294 | with such a transport, `refreshToken` sends exactly the refresh POST and stores and returns the token |

## Left out

- The HTTP transport (`Joomla\Http\Http`) is a fixed function from request to response, and
  the log `sent` counts its calls. Timeouts, transport failures and response headers other
  than Content-Type are not modelled.
- JSON decoding is a function given to the client (`jsonDecode`). Only the form-encoded
  reader is modelled concretely.
- The redirect of `authenticate` is returned as `Redirect(url)`. The `Location` header, the
  application's `close()` and the `$_SERVER` setup are left out.
- `Registry` and `Input` are a plain map of options and an optional `code` parameter.
- `time()` is the parameter `now`.
- Client.php is not part of this model. Where the suite is silent, the model follows the
  class's documented behaviour. This covers the error results, the `refreshToken`
  preconditions and the `query` choice between GET and POST.
- PHP's `parse_str` mangles some keys (`.` and space become `_`, `[]` builds arrays). The
  form reader keeps keys as they are.
- `query` data given as a raw string is not modelled; data is a list of fields.
- A `Bearer` Authorization header is not added to signed requests. The token travels in the
  URL (GET) or in the form fields (POST).
- Config.TextOr: an unset `clientid` or `redirecturi` is sent as an empty form field, where
  PHP holds null.
- OAuth2Client.Client.Query: GET ignores the data fields, as the suite's GET stub takes none.
- OAuth2Client.SignedRequest: the access token is appended to a GET URL as it is, without
  URL-encoding.
- ClientScenarios.QueryScenario: its three steps are the methods QueryExpired, QueryPosted
  and QueryFetched.
