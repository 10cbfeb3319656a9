/** The authorization-code flow across the use cases: what Login leaves
    in the store is what Callback checks, Callback consumes the temporary
    session it finds, and the session Callback opens is what UserInfo
    serves. */
module Flows {
  import opened Wrappers
  import opened Strs
  import opened Errors
  import opened Dynamic
  import opened Users
  import opened Sessions
  import opened SessionStore
  import opened Pkce
  import opened Urls
  import opened Clients
  import opened UseCases
  import Query
  import Login
  import Callback
  import UserInfo
  import App

  /** The state Login sends passes Callback's state check against the data
      Login stored, and with PKCE the verifier Callback sends is the one the
      challenge Login sent was made from (section 4.6 of RFC 7636). */
  lemma SecuredDataPassesCallback(cli: GenericClient, data: Bag, src: seq<byte>, sha256: string -> seq<byte>)
    requires !Login.Panics(cli, Some(data))
    ensures var s := Login.Secure(cli, Some(data), src, sha256);
      && Callback.StateMatches(cli, s.data.value, s.state)
      && (cli.usePKCE ==>
            && Callback.VerifierParams(cli, s.data.value) == [UrlParam("code_verifier", s.verifier)]
            && Login.ChallengeFor(cli.generator.value, sha256, s.verifier, s.params[0].value, s.params[1].value))
  {
    var s := Login.Secure(cli, Some(data), src, sha256);
    if cli.useState {
      assert GetString(s.data.value, StateKey, "") == s.state;
    }
    if cli.usePKCE {
      assert GetString(s.data.value, CodeVerifierKey, "") == s.verifier;
    }
  }

  /** A successful Login leaves a temporary session, with an empty user id,
      under the id the URL names, and that session passes Callback's
      checks. */
  lemma LoginLeavesTempSession(reg: Registry, st: Store, providerName: string, scopes: seq<string>, data: Bag,
                               src: seq<byte>, sha256: string -> seq<byte>, id: IdReply)
    requires var r := Login.Execute(reg, st, providerName, scopes, Some(data), src, sha256, id);
      r.Returned? && r.result.Success?
    ensures providerName in reg && id.NewId?
    ensures var r := Login.Execute(reg, st, providerName, scopes, Some(data), src, sha256, id);
      var cli := reg[providerName];
      var s := Login.Secure(cli, Some(data), src, sha256);
      && Get(r.store, id.uuid).Success?
      && Get(r.store, id.uuid).value.userId == ""
      && Callback.StateMatches(cli, r.store[id.uuid].data, s.state)
      && r.result.value == BuildAuthURL(cli, s.state, scopes, id.uuid, s.params).value
  {
    var r := Login.Execute(reg, st, providerName, scopes, Some(data), src, sha256, id);
    var cli := reg[providerName];
    assert r == Login.Start(cli, st, scopes, Some(data), src, sha256, id);
    SecuredDataPassesCallback(cli, data, src, sha256);
  }

  /** The URL Login hands back asks the provider (section 4.1.1 of
      RFC 6749) to return the state Login stored, and to redirect to the
      configured redirect URL with the temporary session's id added as
      `token`; with PKCE it carries the challenge.  The endpoint's own
      query must not already hold those keys. */
  lemma LoginUrlCarriesStateAndSession(cli: GenericClient, st: Store, scopes: seq<string>, data: Bag,
                                       src: seq<byte>, sha256: string -> seq<byte>, id: IdReply)
    requires !Login.Panics(cli, Some(data)) && id.NewId?
    requires Canonical(cli.authUrl) && cli.authUrl.fragment == "" && ParseUrl(cli.redirectUrl).Success?
    requires Query.Lookup(UrlQuery(cli.authUrl), "state") == []
    requires Query.Lookup(UrlQuery(cli.authUrl), "redirect_uri") == []
    requires Query.Lookup(UrlQuery(cli.authUrl), "code_challenge") == []
    ensures var r := Login.Start(cli, st, scopes, Some(data), src, sha256, id);
      var s := Login.Secure(cli, Some(data), src, sha256);
      && r.Returned? && r.result.Success?
      && Query.Lookup(UrlQuery(r.result.value), "state") == (if s.state == "" then [] else [s.state])
      && Query.Lookup(UrlQuery(r.result.value), "redirect_uri") == [BuildRedirectUrl(cli.redirectUrl, id.uuid).value]
      && (cli.usePKCE ==> Query.Lookup(UrlQuery(r.result.value), "code_challenge") == [s.params[0].value])
  {
    var s := Login.Secure(cli, Some(data), src, sha256);
    AuthUrlCarries(cli, s.state, scopes, id.uuid, s.params);
  }

  /** The authorization URL for `state` and extra parameters that are the
      PKCE pair (or nothing) carries the state, the redirect URL and the
      challenge. */
  lemma AuthUrlCarries(cli: GenericClient, state: string, scopes: seq<string>, tempSessId: string,
                       params: seq<UrlParam>)
    requires Canonical(cli.authUrl) && cli.authUrl.fragment == "" && ParseUrl(cli.redirectUrl).Success?
    requires Query.Lookup(UrlQuery(cli.authUrl), "state") == []
    requires Query.Lookup(UrlQuery(cli.authUrl), "redirect_uri") == []
    requires Query.Lookup(UrlQuery(cli.authUrl), "code_challenge") == []
    requires params == [] || (|params| == 2 && params[0].key == "code_challenge" && params[1].key == "code_challenge_method")
    ensures var r := BuildAuthURL(cli, state, scopes, tempSessId, params);
      && r.Success?
      && Query.Lookup(UrlQuery(r.value), "state") == (if state == "" then [] else [state])
      && Query.Lookup(UrlQuery(r.value), "redirect_uri") == [BuildRedirectUrl(cli.redirectUrl, tempSessId).value]
      && (params != [] ==> Query.Lookup(UrlQuery(r.value), "code_challenge") == [params[0].value])
  {
    var redirectUri := BuildRedirectUrl(cli.redirectUrl, tempSessId).value;
    BuildAuthURLQueryAt(cli, state, scopes, tempSessId, params, "state");
    BuildAuthURLQueryAt(cli, state, scopes, tempSessId, params, "redirect_uri");
    BuildAuthURLQueryAt(cli, state, scopes, tempSessId, params, "code_challenge");
    RedirectUrlNonEmpty(cli.redirectUrl, tempSessId);
    PkceQuery(cli.clientId, redirectUri, scopes, state, params);
  }

  /** What the authorization request carries under the keys Callback relies
      on when the extra parameters are the PKCE pair or nothing. */
  lemma PkceQuery(clientId: string, redirectUri: string, scopes: seq<string>, state: string, params: seq<UrlParam>)
    requires redirectUri != ""
    requires params == [] || (|params| == 2 && params[0].key == "code_challenge" && params[1].key == "code_challenge_method")
    ensures AuthQuery(clientId, redirectUri, scopes, state, params, "state") == (if state == "" then [] else [state])
    ensures AuthQuery(clientId, redirectUri, scopes, state, params, "redirect_uri") == [redirectUri]
    ensures params != [] ==> AuthQuery(clientId, redirectUri, scopes, state, params, "code_challenge") == [params[0].value]
  {
    if params != [] {
      var tail := params[1..];
      assert tail[1..] == [];
      assert LastParam(tail, "state").None? && LastParam(tail, "redirect_uri").None?;
      assert LastParam(tail, "code_challenge").None?;
      assert LastParam(params, "code_challenge") == Some(params[0].value);
    }
  }

  /** Once Callback has found the temporary session, the session is gone
      whatever the outcome, so a replay of the same callback is refused as
      unauthorized and changes nothing. */
  lemma CallbackReplayRefused(reg: Registry, st: Store, providerName: string, code: string, state: string,
                              tempSessId: string, exchange: Exchanger, userInfo: UserInfoEndpoint, id: IdReply,
                              code2: string, state2: string, id2: IdReply)
    requires providerName in reg && tempSessId in st
    ensures tempSessId !in Callback.Execute(reg, st, providerName, code, state, tempSessId, exchange, userInfo, id).store
    ensures var st1 := Callback.Execute(reg, st, providerName, code, state, tempSessId, exchange, userInfo, id).store;
      var r2 := Callback.Execute(reg, st1, providerName, code2, state2, tempSessId, exchange, userInfo, id2);
      && r2.store == st1 && r2.result.Failure?
      && GetErrCode(Some(r2.result.error)) == ErrCodeUserUnauthorized
  {
  }

  /** An unknown provider does not consume the temporary session. */
  lemma CallbackUnknownProviderKeepsTempSession(reg: Registry, st: Store, providerName: string, code: string,
                                                state: string, tempSessId: string, exchange: Exchanger,
                                                userInfo: UserInfoEndpoint, id: IdReply)
    requires providerName !in reg
    ensures var r := Callback.Execute(reg, st, providerName, code, state, tempSessId, exchange, userInfo, id);
      && r.store == st && r.result.Failure?
      && GetErrCode(Some(r.result.error)) == ErrCodeEntityNotFound
  {
  }

  /** The session Callback opens (under an id other than the temporary
      one) is served by UserInfo: its data is valid, the token sent is the
      access token WITHOUT the refresh token, and the store is left as it
      is. */
  lemma CallbackSessionServesUserInfo(reg: Registry, st: Store, providerName: string, code: string,
                                      state: string, tempSessId: string, exchange: Exchanger,
                                      userInfo: UserInfoEndpoint, id: IdReply, render: Bag -> string)
    requires providerName != "" && providerName in reg && tempSessId in st
    requires id.NewId? && id.uuid != tempSessId
    requires Callback.Execute(reg, st, providerName, code, state, tempSessId, exchange, userInfo, id).result.Success?
    ensures var r := Callback.Execute(reg, st, providerName, code, state, tempSessId, exchange, userInfo, id);
      var sess := r.result.value.session;
      var token := Callback.TokenFor(reg[providerName], code, tempSessId, st[tempSessId].data, exchange).value;
      && sess.id == id.uuid && sess.id in r.store && IsValid(sess.data)
      && UserInfo.Execute(reg, r.store, sess.id, userInfo, render)
         == UserInfo.Fetch(reg, r.store, sess.id, sess.data, userInfo)
      && UserInfo.StoredToken(sess.data) == Token(token.access, None)
  {
    var cli := reg[providerName];
    var data := st[tempSessId].data;
    var c := Callback.Consume(cli, st, providerName, code, state, tempSessId, data, exchange, userInfo, id);
    var token := Callback.TokenFor(cli, code, tempSessId, data, exchange).value;
    var sess := c.result.value.session;
    AuthDataRoundTrip(providerName, token.access, token.refresh);
    RefreshTokenLost(providerName, token.access, token.refresh);
  }

  /** A temporary session, whose data the login handler fills with only
      `backUrl`, is destroyed by UserInfo and refused as an interrupted
      session. */
  lemma UserInfoDestroysTempSession(reg: Registry, st: Store, sessId: string, userInfo: UserInfoEndpoint,
                                    render: Bag -> string)
    requires sessId in st && ProviderNameKey !in st[sessId].data
    ensures var r := UserInfo.Execute(reg, st, sessId, userInfo, render);
      && r.store == Destroy(st, sessId) && sessId !in r.store
      && r.result.Failure? && GetErrCode(Some(r.result.error)) == ErrCodeSessionInterrupt
  {
  }

  /** A provider configured with state and an out-of-range state length
      passes start-up, and its first Login panics. */
  lemma OutOfRangeLengthPanicsAtLogin(cfg: App.AppConfig, decoders: Decoders.Registry, order: seq<string>, j: int,
                                      st: Store, scopes: seq<string>, data: Option<Bag>, src: seq<byte>,
                                      sha256: string -> seq<byte>, id: IdReply)
    requires forall n :: n in order <==> n in App.Names(cfg.providers)
    requires 0 <= j < |cfg.providers| && App.LastWithName(cfg.providers, j)
    requires cfg.providers[j].useState && !(MinLength <= cfg.providers[j].stateLength <= MaxLength)
    requires App.BuildOidcClientRegistry(cfg, decoders, order).Success?
    ensures var reg := App.BuildOidcClientRegistry(cfg, decoders, order).value;
      Login.Execute(reg, st, cfg.providers[j].providerName, scopes, data, src, sha256, id) == Login.Panicked
  {
    var cli := ClientOf(cfg, decoders, order, j);
    assert App.GeneratorFor(cfg.providers[j]).generator == None;
  }

  /** The client start-up registers for the last entry `j` of a name. */
  lemma ClientOf(cfg: App.AppConfig, decoders: Decoders.Registry, order: seq<string>, j: int) returns (cli: GenericClient)
    requires forall n :: n in order <==> n in App.Names(cfg.providers)
    requires 0 <= j < |cfg.providers| && App.LastWithName(cfg.providers, j)
    requires App.BuildOidcClientRegistry(cfg, decoders, order).Success?
    ensures var reg := App.BuildOidcClientRegistry(cfg, decoders, order).value;
      var built := NewGenericClient(App.ConfigFor(cfg.domain, cfg.providers[j]), decoders);
      && built.Success? && cli == built.value
      && cfg.providers[j].providerName in reg && reg[cfg.providers[j].providerName] == cli
  {
    App.BootstrapRegistry(cfg, decoders, order);
    cli := NewGenericClient(App.ConfigFor(cfg.domain, cfg.providers[j]), decoders).value;
  }
}
