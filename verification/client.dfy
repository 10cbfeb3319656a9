/** The provider client (`client/client.go`, `client/client_generic.go`):
    tokens, the client registry, the redirect and authorization URLs, and
    the calls that go to the provider.  The provider's token endpoint and
    user-info endpoint are oracle functions from the request the client
    builds to the reply it receives. */
module Clients {
  import opened Wrappers
  import opened Strs
  import opened Errors
  import opened Users
  import opened Pkce
  import opened Decoders
  import opened Urls
  import Query

  // ---------------------------------------------------------------------
  // Token

  /** `Token`; a nil `Refresh` pointer is `None`. */
  datatype Token = Token(access: string, refresh: Option<string>)

  /** `Token.Valid`: an access token, and a refresh token that is either
      absent or non-empty. */
  predicate Valid(t: Token) {
    t.access != "" && (t.refresh.None? || t.refresh.value != "")
  }

  /** A present but empty refresh token makes any token invalid. */
  lemma EmptyRefreshIsInvalid(access: string)
    ensures !Valid(Token(access, Some("")))
  {
  }

  /** A token without a refresh token is valid exactly when it has an
      access token; one with a refresh token needs both to be non-empty. */
  lemma TokenValidity(access: string, refresh: string)
    ensures Valid(Token(access, None)) <==> access != ""
    ensures Valid(Token(access, Some(refresh))) <==> access != "" && refresh != ""
  {
  }

  /** `UrlParam`, built by `NewUrlParam(key, value)`. */
  datatype UrlParam = UrlParam(key: string, value: string)

  /** The fields of an `*oauth2.Token` the client reads; an absent refresh
      token is the empty string. */
  datatype TokenReply = TokenReply(accessToken: string, refreshToken: string)

  /** The reply that carries exactly the given token. */
  function ReplyOf(t: Token): TokenReply {
    TokenReply(t.access, t.refresh.GetOr(""))
  }

  /** `parseToken`: an upstream error passes through unchanged; an empty
      refresh token becomes absent; a token that is then not valid is
      refused. */
  function ParseToken(reply: Result<TokenReply, Error>): (r: Result<Token, Error>)
    ensures reply.Failure? ==> r == Failure(reply.error)
    ensures reply.Success? ==> (r.Success? <==> reply.value.accessToken != "")
    ensures reply.Success? && r.Failure? ==> r.error == New("token data is invalid")
    ensures r.Success? ==> Valid(r.value) && reply == Success(ReplyOf(r.value))
  {
    match reply
    case Failure(e) => Failure(e)
    case Success(data) =>
      var t := Token(data.accessToken, if data.refreshToken != "" then Some(data.refreshToken) else None);
      if !Valid(t) then Failure(New("token data is invalid")) else Success(t)
  }

  /** Every valid token survives the reply it would come back in. */
  lemma ParseTokenRoundTrip(t: Token)
    requires Valid(t)
    ensures ParseToken(Success(ReplyOf(t))) == Success(t)
  {
    if t.refresh.Some? {
      assert t.refresh == Some(t.refresh.value);
    }
  }

  // ---------------------------------------------------------------------
  // Client and registry

  /** `ClientConfig`; `DisableSslVerify` is not modelled. */
  datatype ClientConfig = ClientConfig(
    clientId: string,
    authUrl: string,
    tokenUrl: string,
    userInfoUrl: string,
    redirectUrl: string,
    clientSecret: string,
    useState: bool,
    usePKCE: bool,
    generator: Option<Generator>,
    decoderName: string)

  /** `GenericClient`: the endpoint URLs as parsed, the redirect URL as
      configured.  Its `SupportsState`, `SupportsPKCE` and
      `GetPKCEGenerator` return `useState`, `usePKCE` and `generator`. */
  datatype GenericClient = GenericClient(
    clientId: string,
    clientSecret: string,
    authUrl: Url,
    tokenUrl: Url,
    redirectUrl: string,
    userInfoUrl: Url,
    useState: bool,
    usePKCE: bool,
    generator: Option<Generator>,
    decoder: Decoder)

  /** `MapClientRegistry`. */
  type Registry = map<string, GenericClient>

  /** `MapClientRegistry.GetClient`. */
  function GetClient(reg: Registry, name: string): (r: Result<GenericClient, Error>)
    ensures r.Success? <==> name in reg
    ensures r.Success? ==> r.value == reg[name]
    ensures r.Failure? ==> r.error == New("no such client \"" + name + "\"")
  {
    if name in reg then Success(reg[name]) else Failure(New("no such client \"" + name + "\""))
  }

  /** The error of `NewGenericClient` for a decoder name nobody registered. */
  function UnknownDecoder(name: string): Error {
    New("unknown user unmarshaler \"" + name
        + "\". Use generic.RegisterUnmarshaller to register a new unmarshaller type")
  }

  /** `NewGenericClient`: the three endpoint URLs are parsed in order, then
      the decoder is looked up by name. */
  function NewGenericClient(cfg: ClientConfig, decoders: Decoders.Registry): (r: Result<GenericClient, Error>)
    ensures r.Success? <==>
      ParseUrl(cfg.authUrl).Success? && ParseUrl(cfg.tokenUrl).Success?
      && ParseUrl(cfg.userInfoUrl).Success? && cfg.decoderName in decoders
    ensures ParseUrl(cfg.authUrl).Failure? ==> r == Failure(ParseUrl(cfg.authUrl).error)
    ensures ParseUrl(cfg.authUrl).Success? && ParseUrl(cfg.tokenUrl).Failure? ==>
      r == Failure(ParseUrl(cfg.tokenUrl).error)
    ensures ParseUrl(cfg.authUrl).Success? && ParseUrl(cfg.tokenUrl).Success? && ParseUrl(cfg.userInfoUrl).Failure? ==>
      r == Failure(ParseUrl(cfg.userInfoUrl).error)
    ensures (ParseUrl(cfg.authUrl).Success? && ParseUrl(cfg.tokenUrl).Success? && ParseUrl(cfg.userInfoUrl).Success?
             && cfg.decoderName !in decoders) ==> r == Failure(UnknownDecoder(cfg.decoderName))
    ensures r.Success? ==>
      && Canonical(r.value.authUrl) && Canonical(r.value.tokenUrl) && Canonical(r.value.userInfoUrl)
      && r.value.authUrl == ParseUrl(cfg.authUrl).value
      && r.value.tokenUrl == ParseUrl(cfg.tokenUrl).value
      && r.value.userInfoUrl == ParseUrl(cfg.userInfoUrl).value
      && r.value.clientSecret == cfg.clientSecret
      && r.value.decoder == decoders[cfg.decoderName]
      && r.value.clientId == cfg.clientId && r.value.redirectUrl == cfg.redirectUrl
      && r.value.useState == cfg.useState && r.value.usePKCE == cfg.usePKCE
      && r.value.generator == cfg.generator
  {
    match ParseUrl(cfg.authUrl)
    case Failure(e) => Failure(e)
    case Success(authUrl) =>
      match ParseUrl(cfg.tokenUrl)
      case Failure(e) => Failure(e)
      case Success(tokenUrl) =>
        match ParseUrl(cfg.userInfoUrl)
        case Failure(e) => Failure(e)
        case Success(userInfoUrl) =>
          if cfg.decoderName !in decoders then Failure(UnknownDecoder(cfg.decoderName))
          else Success(GenericClient(cfg.clientId, cfg.clientSecret, authUrl, tokenUrl, cfg.redirectUrl,
                                     userInfoUrl, cfg.useState, cfg.usePKCE, cfg.generator,
                                     decoders[cfg.decoderName]))
  }

  /** The message `NewGenericClientRegistry` wraps a failure in. */
  function GenerationFailed(e: Error, name: string): Error {
    Annotated(AddStack(e), "oidc client generation error for provider " + name)
  }

  /** Every configuration builds a client. */
  ghost predicate AllBuild(configs: map<string, ClientConfig>, decoders: Decoders.Registry) {
    forall n :: n in configs ==> NewGenericClient(configs[n], decoders).Success?
  }

  /** The loop of `NewGenericClientRegistry` over the names still to visit,
      in the order the map iteration yields them; `build` is
      `NewGenericClient` with the decoder registry fixed. */
  function AddClients(configs: map<string, ClientConfig>, order: seq<string>,
                      build: ClientConfig -> Result<GenericClient, Error>, acc: Registry): (r: Result<Registry, Error>)
    requires forall i :: 0 <= i < |order| ==> order[i] in configs
    ensures r.Success? <==> forall i :: 0 <= i < |order| ==> build(configs[order[i]]).Success?
    ensures r.Success? ==> forall n :: n in r.value <==> n in acc || n in order
    ensures r.Success? ==> forall n :: n in order ==> r.value[n] == build(configs[n]).value
    ensures r.Success? ==> forall n :: n in acc && n !in order ==> r.value[n] == acc[n]
    ensures r.Failure? ==> exists i :: (0 <= i < |order|
      && build(configs[order[i]]).Failure?
      && r.error == GenerationFailed(build(configs[order[i]]).error, order[i]))
    decreases |order|
  {
    if |order| == 0 then Success(acc)
    else
      var name := order[0];
      match build(configs[name])
      case Failure(e) => Failure(GenerationFailed(e, name))
      case Success(cli) =>
        var r := AddClients(configs, order[1..], build, acc[name := cli]);
        assert forall i :: 1 <= i < |order| ==> order[i] == order[1..][i - 1];
        assert forall n :: n in order ==> n == name || n in order[1..];
        r
  }

  /** `NewGenericClientRegistry`: all or nothing.  Go's map iteration order
      is `order`, which decides only WHICH failing provider is reported. */
  function NewGenericClientRegistry(configs: map<string, ClientConfig>, order: seq<string>,
                                    decoders: Decoders.Registry): (r: Result<Registry, Error>)
    requires forall n :: n in configs <==> n in order
    ensures r.Success? <==> AllBuild(configs, decoders)
    ensures r.Success? ==> r.value.Keys == configs.Keys
    ensures r.Success? ==> forall n :: n in configs ==> r.value[n] == NewGenericClient(configs[n], decoders).value
    ensures r.Failure? ==> exists n :: (n in configs && NewGenericClient(configs[n], decoders).Failure?
      && r.error == GenerationFailed(NewGenericClient(configs[n], decoders).error, n))
  {
    OrderCoversConfigs(configs, order, decoders);
    AddClients(configs, order, cfg => NewGenericClient(cfg, decoders), map[])
  }

  /** Visiting every name of `order` is visiting every configuration. */
  lemma OrderCoversConfigs(configs: map<string, ClientConfig>, order: seq<string>, decoders: Decoders.Registry)
    requires forall n :: n in configs <==> n in order
    ensures AllBuild(configs, decoders) <==>
      forall i :: 0 <= i < |order| ==> NewGenericClient(configs[order[i]], decoders).Success?
  {
    if forall i :: 0 <= i < |order| ==> NewGenericClient(configs[order[i]], decoders).Success? {
      forall n | n in configs ensures NewGenericClient(configs[n], decoders).Success? {
        var i :| 0 <= i < |order| && order[i] == n;
      }
    }
  }

  // ---------------------------------------------------------------------
  // URLs

  /** `buildRedirectUrl`: the configured redirect URL with `token` added to
      its query, which is then re-encoded in key order. */
  function BuildRedirectUrl(base: string, tempSessId: string): (r: Result<string, Error>)
    ensures r.Success? <==> ParseUrl(base).Success?
    ensures r.Failure? ==> r.error == ParseUrl(base).error
  {
    match ParseUrl(base)
    case Failure(e) => Failure(e)
    case Success(u) => Success(UrlText(WithQuery(u, Query.Add(UrlQuery(u), "token", tempSessId))))
  }

  /** The redirect URL parses back to the configured one with `tempSessId`
      appended to the values of `token` and every other parameter kept. */
  lemma RedirectUrlCarriesToken(base: string, tempSessId: string)
    requires ParseUrl(base).Success?
    ensures var u := ParseUrl(base).value;
      var r := ParseUrl(BuildRedirectUrl(base, tempSessId).value);
      && r.Success? && r.value.head == u.head && r.value.fragment == u.fragment
      && Query.Lookup(UrlQuery(r.value), "token") == Query.Lookup(UrlQuery(u), "token") + [tempSessId]
      && forall k :: k != "token" ==> Query.Lookup(UrlQuery(r.value), k) == Query.Lookup(UrlQuery(u), k)
  {
    var u := ParseUrl(base).value;
    var v := Query.Add(UrlQuery(u), "token", tempSessId);
    assert Query.Lookup(v, "token") != [];
    ParseWithQuery(u, v);
  }

  /** A redirect URL that was built is never empty: it has a query. */
  lemma RedirectUrlNonEmpty(base: string, tempSessId: string)
    requires ParseUrl(base).Success?
    ensures BuildRedirectUrl(base, tempSessId).value != ""
  {
    RedirectUrlCarriesToken(base, tempSessId);
  }

  /** The value `oauth2.SetAuthURLParam` leaves for key `k`: the last
      option with that key wins. */
  function LastParam(params: seq<UrlParam>, k: string): Option<string>
    decreases |params|
  {
    if |params| == 0 then None
    else
      match LastParam(params[1..], k)
      case Some(x) => Some(x)
      case None => if params[0].key == k then Some(params[0].value) else None
  }

  /** `opt.setValue(v)` for every option, in order. */
  function SetParams(v: Query.Values, params: seq<UrlParam>): (r: Query.Values)
    requires Query.Valid(v)
    ensures Query.Valid(r)
    ensures forall k :: (Query.Lookup(r, k) ==
      match LastParam(params, k) case Some(x) => [x] case None => Query.Lookup(v, k))
    decreases |params|
  {
    if |params| == 0 then v
    else SetParams(Query.Set(v, params[0].key, params[0].value), params[1..])
  }

  /** What the authorization request carries under each key before the
      options are applied. */
  function BaseQuery(clientId: string, redirectUri: string, scopes: seq<string>, state: string, k: string)
    : seq<string>
  {
    if k == "state" && state != "" then [state]
    else if k == "scope" && |scopes| > 0 then [Join(scopes, " ")]
    else if k == "redirect_uri" && redirectUri != "" then [redirectUri]
    else if k == "client_id" then [clientId]
    else if k == "response_type" then ["code"]
    else []
  }

  /** Section 4.1.1 of RFC 6749, as the oauth2 library fills it: what the
      authorization request carries under each key. */
  function AuthQuery(clientId: string, redirectUri: string, scopes: seq<string>, state: string,
                     params: seq<UrlParam>, k: string): seq<string>
  {
    match LastParam(params, k)
    case Some(x) => [x]
    case None => BaseQuery(clientId, redirectUri, scopes, state, k)
  }

  /** `v.Set(k, x)` when `cond` holds. */
  function SetWhen(v: Query.Values, cond: bool, k: string, x: string): (r: Query.Values)
    requires Query.Valid(v)
    ensures Query.Valid(r)
    ensures forall other :: Query.Lookup(r, other) == if cond && other == k then [x] else Query.Lookup(v, other)
  {
    if cond then Query.Set(v, k, x) else v
  }

  /** The values `AuthCodeURL` starts from and sets before the options. */
  function BaseValues(clientId: string, redirectUri: string, scopes: seq<string>, state: string)
    : (r: Query.Values)
    ensures Query.Valid(r)
    ensures forall k :: Query.Lookup(r, k) == BaseQuery(clientId, redirectUri, scopes, state, k)
  {
    var v0 := SetWhen(SetWhen([], true, "response_type", "code"), true, "client_id", clientId);
    var v1 := SetWhen(v0, redirectUri != "", "redirect_uri", redirectUri);
    var v2 := SetWhen(v1, |scopes| > 0, "scope", Join(scopes, " "));
    SetWhen(v2, state != "", "state", state)
  }

  /** The query `Config.AuthCodeURL` encodes. */
  function AuthCodeValues(clientId: string, redirectUri: string, scopes: seq<string>, state: string,
                          params: seq<UrlParam>): (r: Query.Values)
    ensures Query.Valid(r) && r != []
    ensures forall k :: Query.Lookup(r, k) == AuthQuery(clientId, redirectUri, scopes, state, params, k)
  {
    var r := SetParams(BaseValues(clientId, redirectUri, scopes, state), params);
    assert Query.Lookup(r, "response_type") != [];
    r
  }

  /** `Config.AuthCodeURL`: the endpoint text, `&` when it already holds a
      `?` and `?` otherwise, then the encoded query. */
  function AuthCodeUrl(authUrl: Url, values: Query.Values): string {
    var base := UrlText(authUrl);
    base + (if '?' in base then "&" else "?") + Query.Encode(values)
  }

  /** `BuildAuthURL`. */
  function BuildAuthURL(cli: GenericClient, state: string, scopes: seq<string>, tempSessId: string,
                        params: seq<UrlParam>): (r: Result<Url, Error>)
    ensures ParseUrl(cli.redirectUrl).Failure? ==> r == Failure(ParseUrl(cli.redirectUrl).error)
    ensures ParseUrl(cli.redirectUrl).Success? && Canonical(cli.authUrl) ==> r.Success?
    ensures r.Failure? ==> r.error.External?
  {
    match BuildRedirectUrl(cli.redirectUrl, tempSessId)
    case Failure(e) => Failure(e)
    case Success(redirectUri) =>
      var values := AuthCodeValues(cli.clientId, redirectUri, scopes, state, params);
      AuthCodeUrlParses(cli.authUrl, values);
      ParseUrl(AuthCodeUrl(cli.authUrl, values))
  }

  /** The authorization URL of an endpoint without query or fragment is
      the endpoint with the encoded query. */
  lemma AuthCodeUrlOfPlainEndpoint(authUrl: Url, v: Query.Values)
    requires Canonical(authUrl) && authUrl.fragment == "" && !authUrl.forceQuery && authUrl.rawQuery == ""
    requires Query.Valid(v) && v != []
    ensures ParseUrl(AuthCodeUrl(authUrl, v)) == Success(Url(authUrl.head, false, Query.Encode(v), ""))
  {
    var enc := Query.Encode(v);
    Query.EncodeNonEmpty(v);
    Query.EncodedHasNoDelimiters(Query.Flatten(v));
    assert AuthCodeUrl(authUrl, v) == UrlText(authUrl.(rawQuery := enc));
    ParseTextWithQuery(authUrl, enc);
  }

  /** The authorization URL of an endpoint that has a query extends that
      query after a `&`. */
  lemma AuthCodeUrlOfQueryEndpoint(authUrl: Url, v: Query.Values)
    requires Canonical(authUrl) && authUrl.fragment == "" && (authUrl.forceQuery || authUrl.rawQuery != "")
    ensures ParseUrl(AuthCodeUrl(authUrl, v))
      == Success(Url(authUrl.head, false, authUrl.rawQuery + "&" + Query.Encode(v), ""))
  {
    var enc := Query.Encode(v);
    var q := authUrl.rawQuery + "&" + enc;
    Query.EncodedHasNoDelimiters(Query.Flatten(v));
    assert UrlText(authUrl)[|authUrl.head|] == '?';
    assert AuthCodeUrl(authUrl, v) == UrlText(authUrl.(rawQuery := q));
    assert !HasControl(q) by {
      assert forall c :: c in q ==> c in authUrl.rawQuery || c == '&' || c in enc;
    }
    ParseTextWithQuery(authUrl, q);
  }

  /** Parsing the authorization URL of an endpoint without fragment gives
      the endpoint's own parameters followed by the encoded ones. */
  lemma AuthCodeUrlQuery(authUrl: Url, v: Query.Values)
    requires Canonical(authUrl) && authUrl.fragment == ""
    requires Query.Valid(v) && v != []
    ensures var r := ParseUrl(AuthCodeUrl(authUrl, v));
      && r.Success? && r.value.head == authUrl.head && r.value.fragment == ""
      && forall k :: Query.Lookup(UrlQuery(r.value), k) == Query.Lookup(UrlQuery(authUrl), k) + Query.Lookup(v, k)
  {
    if !authUrl.forceQuery && authUrl.rawQuery == "" {
      AuthCodeUrlOfPlainEndpoint(authUrl, v);
      Query.ParseEncode(v);
    } else {
      AuthCodeUrlOfQueryEndpoint(authUrl, v);
      Query.ParseAppendEncoded(authUrl.rawQuery, v);
    }
  }

  /** The authorization URL of any parsed endpoint parses: a fragment of
      the endpoint ends up after the cut at `#`, so only the endpoint's own
      head and query are checked, and they came from `url.Parse`. */
  lemma AuthCodeUrlParses(authUrl: Url, v: Query.Values)
    requires Query.Valid(v) && v != []
    ensures Canonical(authUrl) ==> ParseUrl(AuthCodeUrl(authUrl, v)).Success?
  {
    if !Canonical(authUrl) {
    } else if authUrl.fragment == "" {
      AuthCodeUrlQuery(authUrl, v);
    } else {
      var body := authUrl.head + (if authUrl.forceQuery || authUrl.rawQuery != "" then "?" + authUrl.rawQuery else "");
      var base := UrlText(authUrl);
      var rest := authUrl.fragment + (if '?' in base then "&" else "?") + Query.Encode(v);
      assert base == body + "#" + authUrl.fragment;
      assert AuthCodeUrl(authUrl, v) == body + ['#'] + rest;
      assert forall c :: c in body ==> c in authUrl.head || c == '?' || c in authUrl.rawQuery;
      CutAtFirst(body, rest, '#');
      assert !HasControl(body);
      assert |body| > 0 ==> body[0] != ':';
    }
  }

  /** The authorization URL: built whenever the redirect URL parses, and
      its query holds what RFC 6749 section 4.1.1 asks for, after the
      endpoint's own parameters. */
  lemma BuildAuthURLQuery(cli: GenericClient, state: string, scopes: seq<string>, tempSessId: string,
                          params: seq<UrlParam>)
    requires Canonical(cli.authUrl) && cli.authUrl.fragment == ""
    requires ParseUrl(cli.redirectUrl).Success?
    ensures var r := BuildAuthURL(cli, state, scopes, tempSessId, params);
      var redirectUri := BuildRedirectUrl(cli.redirectUrl, tempSessId).value;
      && r.Success? && r.value.head == cli.authUrl.head
      && forall k :: Query.Lookup(UrlQuery(r.value), k) ==
           Query.Lookup(UrlQuery(cli.authUrl), k) + AuthQuery(cli.clientId, redirectUri, scopes, state, params, k)
  {
    var redirectUri := BuildRedirectUrl(cli.redirectUrl, tempSessId).value;
    AuthCodeUrlQuery(cli.authUrl, AuthCodeValues(cli.clientId, redirectUri, scopes, state, params));
  }

  /** `BuildAuthURLQuery` at one key. */
  lemma BuildAuthURLQueryAt(cli: GenericClient, state: string, scopes: seq<string>, tempSessId: string,
                            params: seq<UrlParam>, k: string)
    requires Canonical(cli.authUrl) && cli.authUrl.fragment == ""
    requires ParseUrl(cli.redirectUrl).Success?
    ensures var r := BuildAuthURL(cli, state, scopes, tempSessId, params);
      var redirectUri := BuildRedirectUrl(cli.redirectUrl, tempSessId).value;
      && r.Success?
      && Query.Lookup(UrlQuery(r.value), k) ==
           Query.Lookup(UrlQuery(cli.authUrl), k) + AuthQuery(cli.clientId, redirectUri, scopes, state, params, k)
  {
    BuildAuthURLQuery(cli, state, scopes, tempSessId, params);
  }

  // ---------------------------------------------------------------------
  // Calls to the provider

  /** What `Config.Exchange` sends to the token endpoint (section 4.1.3 of
      RFC 6749; the extra parameters carry `code_verifier`, section 4.5 of
      RFC 7636). */
  datatype ExchangeRequest = ExchangeRequest(tokenUrl: string, clientId: string, clientSecret: string,
                                             code: string, redirectUri: string, params: seq<UrlParam>)

  /** What the token source sends to refresh a token (section 6 of RFC 6749). */
  datatype RefreshRequest = RefreshRequest(tokenUrl: string, clientId: string, clientSecret: string,
                                           refreshToken: string)

  /** What `FetchUserByToken` sends to the user-info endpoint. */
  datatype UserInfoRequest = UserInfoRequest(url: string, authorization: string)

  /** An HTTP reply: status, body text, the body as JSON (or why it is not),
      and a failure to read the body. */
  datatype HttpReply = HttpReply(status: int, text: string, body: Body, readErr: Option<Error>)

  type Exchanger = ExchangeRequest -> Result<TokenReply, Error>
  type Refresher = RefreshRequest -> Result<TokenReply, Error>
  type UserInfoEndpoint = UserInfoRequest -> Result<HttpReply, Error>

  /** The exchange request for a code: the redirect URI is rebuilt for the
      same temporary session, as `BuildAuthURL` built it. */
  function ExchangeRequestFor(cli: GenericClient, code: string, tempSessId: string, params: seq<UrlParam>)
    : (r: Result<ExchangeRequest, Error>)
    ensures r.Success? <==> BuildRedirectUrl(cli.redirectUrl, tempSessId).Success?
    ensures r.Success? ==> (r.value.redirectUri == BuildRedirectUrl(cli.redirectUrl, tempSessId).value
      && r.value.code == code && r.value.params == params)
  {
    match BuildRedirectUrl(cli.redirectUrl, tempSessId)
    case Failure(e) => Failure(e)
    case Success(redirectUri) =>
      Success(ExchangeRequest(UrlText(cli.tokenUrl), cli.clientId, cli.clientSecret, code, redirectUri, params))
  }

  /** `FetchTokenByCode`. */
  function FetchTokenByCode(cli: GenericClient, code: string, tempSessId: string, params: seq<UrlParam>,
                            exchange: Exchanger): (r: Result<Token, Error>)
    ensures ParseUrl(cli.redirectUrl).Failure? ==> r == Failure(ParseUrl(cli.redirectUrl).error)
    ensures r.Success? ==> (Valid(r.value)
      && exchange(ExchangeRequestFor(cli, code, tempSessId, params).value) == Success(ReplyOf(r.value)))
  {
    match ExchangeRequestFor(cli, code, tempSessId, params)
    case Failure(e) => Failure(e)
    case Success(req) => ParseToken(exchange(req))
  }

  /** The redirect URI sent with the code is the one the authorization
      request carried, as section 4.1.3 of RFC 6749 requires, whenever no
      extra parameter overrides it. */
  lemma ExchangeRedirectMatchesAuthorization(cli: GenericClient, state: string, scopes: seq<string>,
                                             tempSessId: string, authParams: seq<UrlParam>, code: string,
                                             exchangeParams: seq<UrlParam>)
    requires Canonical(cli.authUrl) && cli.authUrl.fragment == ""
    requires Query.Lookup(UrlQuery(cli.authUrl), "redirect_uri") == []
    requires LastParam(authParams, "redirect_uri").None?
    requires ParseUrl(cli.redirectUrl).Success?
    ensures BuildAuthURL(cli, state, scopes, tempSessId, authParams).Success?
    ensures ExchangeRequestFor(cli, code, tempSessId, exchangeParams).Success?
    ensures Query.Lookup(UrlQuery(BuildAuthURL(cli, state, scopes, tempSessId, authParams).value), "redirect_uri")
      == [ExchangeRequestFor(cli, code, tempSessId, exchangeParams).value.redirectUri]
  {
    var redirectUri := BuildRedirectUrl(cli.redirectUrl, tempSessId).value;
    RedirectUrlNonEmpty(cli.redirectUrl, tempSessId);
    var v := AuthCodeValues(cli.clientId, redirectUri, scopes, state, authParams);
    AuthQueryRedirectUri(v, cli.clientId, redirectUri, scopes, state, authParams);
    AuthCodeUrlParam(cli.authUrl, v, "redirect_uri", redirectUri);
  }

  /** Without an overriding option, a query that follows section 4.1.1 of
      RFC 6749 carries the redirect URI. */
  lemma AuthQueryRedirectUri(v: Query.Values, clientId: string, redirectUri: string, scopes: seq<string>,
                             state: string, params: seq<UrlParam>)
    requires forall k :: Query.Lookup(v, k) == AuthQuery(clientId, redirectUri, scopes, state, params, k)
    requires LastParam(params, "redirect_uri").None? && redirectUri != ""
    ensures Query.Lookup(v, "redirect_uri") == [redirectUri]
  {
    assert AuthQuery(clientId, redirectUri, scopes, state, params, "redirect_uri") == [redirectUri];
  }

  /** A parameter the endpoint does not carry has, in the authorization
      URL, exactly the values the encoded query gives it. */
  lemma AuthCodeUrlParam(authUrl: Url, v: Query.Values, k: string, x: string)
    requires Canonical(authUrl) && authUrl.fragment == ""
    requires Query.Valid(v) && v != []
    requires Query.Lookup(UrlQuery(authUrl), k) == [] && Query.Lookup(v, k) == [x]
    ensures var r := ParseUrl(AuthCodeUrl(authUrl, v));
      r.Success? && Query.Lookup(UrlQuery(r.value), k) == [x]
  {
    AuthCodeUrlQuery(authUrl, v);
  }

  /** The request `FetchUserByToken` sends for a token. */
  function UserInfoRequestFor(cli: GenericClient, t: Token): UserInfoRequest {
    UserInfoRequest(UrlText(cli.userInfoUrl), "Bearer " + t.access)
  }

  /** `FetchUserByToken`: the token guard comes before any request; a
      non-200 status, an unreadable body or a decoder error fails; otherwise
      the user the decoder filled in is returned. */
  function FetchUserByToken(cli: GenericClient, token: Option<Token>, userInfo: UserInfoEndpoint)
    : (r: Result<User, Error>)
    ensures (token.None? || !Valid(token.value)) ==> r == Failure(New("token is invalid"))
    ensures r.Success? <==>
      && token.Some? && Valid(token.value)
      && var reply := userInfo(UserInfoRequestFor(cli, token.value));
      && reply.Success? && reply.value.status == 200 && reply.value.readErr.None?
      && Decode(cli.decoder, reply.value.body, EmptyUser).err.None?
    ensures r.Success? ==>
      r.value == Decode(cli.decoder, userInfo(UserInfoRequestFor(cli, token.value)).value.body, EmptyUser).user
    ensures token.Some? && Valid(token.value) && userInfo(UserInfoRequestFor(cli, token.value)).Success? ==>
      var reply := userInfo(UserInfoRequestFor(cli, token.value)).value;
      reply.status != 200 ==> r == Failure(New("invalid response from oidc server: " + reply.text))
  {
    if token.None? || !Valid(token.value) then Failure(New("token is invalid"))
    else
      match userInfo(UserInfoRequestFor(cli, token.value))
      case Failure(e) => Failure(e)
      case Success(reply) =>
        if reply.status != 200 then Failure(New("invalid response from oidc server: " + reply.text))
        else if reply.readErr.Some? then Failure(reply.readErr.value)
        else
          var d := Decode(cli.decoder, reply.body, EmptyUser);
          if d.err.Some? then Failure(d.err.value) else Success(d.user)
  }

  /** A client with the JSON decoder returns exactly the user an endpoint
      encodes in a 200 reply. */
  lemma FetchUserJsonRoundTrip(cli: GenericClient, t: Token, userInfo: UserInfoEndpoint, u: User, text: string)
    requires cli.decoder == JsonDecoder && Valid(t)
    requires userInfo(UserInfoRequestFor(cli, t)) == Success(HttpReply(200, text, Parsed(UserDocument(u)), None))
    ensures FetchUserByToken(cli, Some(t), userInfo) == Success(u)
  {
    JsonDecoderRoundTrip(u, EmptyUser);
  }

  /** `RefreshToken`: both guards come before any exchange. */
  function RefreshToken(cli: GenericClient, token: Option<Token>, refresh: Refresher): (r: Result<Token, Error>)
    ensures (token.None? || !Valid(token.value)) ==> r == Failure(New("token is invalid"))
    ensures token.Some? && Valid(token.value) && token.value.refresh.None? ==>
      r == Failure(New("refresh token is empty"))
    ensures r.Success? ==> (Valid(r.value) && token.Some? && token.value.refresh.Some?
      && refresh(RefreshRequest(UrlText(cli.tokenUrl), cli.clientId, cli.clientSecret, token.value.refresh.value))
         == Success(ReplyOf(r.value)))
  {
    if token.None? || !Valid(token.value) then Failure(New("token is invalid"))
    else if token.value.refresh.None? then Failure(New("refresh token is empty"))
    else ParseToken(refresh(RefreshRequest(UrlText(cli.tokenUrl), cli.clientId, cli.clientSecret,
                                           token.value.refresh.value)))
  }
}
