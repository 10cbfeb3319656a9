/** The Callback use case (`usecase/oidc/callback/callback.go`): find the
    temporary session Login created, check the state, exchange the code
    for a token, fetch the user, and open the user's session.  The destroy
    of the temporary session is deferred once it has been found, so it
    happens on every later exit, after everything else. */
module Callback {
  import opened Wrappers
  import opened Errors
  import opened Dynamic
  import opened Users
  import opened Sessions
  import opened SessionStore
  import opened Clients
  import opened UseCases

  /** `Result`: the new session, the user and where to send the browser. */
  datatype Completed = Completed(session: Session, activeUser: User, redirectUrl: string)

  /** The error for a temporary session that is not in the store. */
  function TempSessionMissing(e: Error, tempSessId: string): (r: Error)
    ensures GetErrCode(Some(r)) == ErrCodeUserUnauthorized
    ensures "tempSessId" in GetFields(Some(r)) && GetFields(Some(r))["tempSessId"] == Str(tempSessId)
  {
    Reported(e, "temporary session not found", "tempSessId", Str(tempSessId), ErrCodeUserUnauthorized)
  }

  /** The error for a state that is not the one Login stored. */
  function StateMismatch(): (r: Error)
    ensures GetErrCode(Some(r)) == ErrCodeUserUnauthorized && Text(r) == "state doesn't match"
  {
    WithCode(Some(New("state doesn't match")), ErrCodeUserUnauthorized).value
  }

  /** The error for a code the token endpoint did not exchange. */
  function CodeInvalid(e: Error, code: string): (r: Error)
    ensures GetErrCode(Some(r)) == ErrCodeUserUnauthorized
    ensures "oidcCode" in GetFields(Some(r)) && GetFields(Some(r))["oidcCode"] == Str(code)
    ensures Text(r) == "code is invalid: " + Text(e)
  {
    Reported(e, "code is invalid", "oidcCode", Str(code), ErrCodeUserUnauthorized)
  }

  /** The error for a token the user-info endpoint refused; the field holds
      the `*Token`, a value of no type the model tracks. */
  function TokenInvalid(e: Error): (r: Error)
    ensures GetErrCode(Some(r)) == ErrCodeUserUnauthorized
    ensures "oidcAuthToken" in GetFields(Some(r))
    ensures Text(r) == "token is invalid: " + Text(e)
  {
    Reported(e, "token is invalid", "oidcAuthToken", Other, ErrCodeUserUnauthorized)
  }

  /** Whether the state check passes: it is skipped when the client does
      not use state, and compares with the stored state (default "")
      otherwise. */
  predicate StateMatches(cli: GenericClient, data: Bag, state: string) {
    !cli.useState || state == GetString(data, StateKey, "")
  }

  /** The state check: always passed by a client without state; otherwise
      the request's state must equal the string stored under the state key,
      or be empty when no string is stored there. */
  lemma StateCheck(cli: GenericClient, data: Bag, state: string)
    ensures !cli.useState ==> StateMatches(cli, data, state)
    ensures cli.useState && StateKey in data && data[StateKey].Str? ==>
      (StateMatches(cli, data, state) <==> state == data[StateKey].s)
    ensures cli.useState && !(StateKey in data && data[StateKey].Str?) ==>
      (StateMatches(cli, data, state) <==> state == "")
  {
  }

  /** The exchange parameters: the stored verifier (default "") when the
      client uses PKCE, nothing otherwise. */
  function VerifierParams(cli: GenericClient, data: Bag): (p: seq<UrlParam>)
    ensures |p| <= 1
    ensures cli.usePKCE <==> |p| == 1
    ensures cli.usePKCE ==> p[0] == UrlParam("code_verifier", GetString(data, CodeVerifierKey, ""))
  {
    if cli.usePKCE then [UrlParam("code_verifier", GetString(data, CodeVerifierKey, ""))] else []
  }

  /** The token the exchange gives for the temporary session. */
  function TokenFor(cli: GenericClient, code: string, tempSessId: string, data: Bag, exchange: Exchanger)
    : Result<Token, Error>
  {
    FetchTokenByCode(cli, code, tempSessId, VerifierParams(cli, data), exchange)
  }

  /** The steps after the temporary session was found, up to the point
      where the deferred destroy runs.  Every failure but a failed session
      creation is coded user-unauthorized; no failure changes the store. */
  function Consume(cli: GenericClient, st: Store, providerName: string, code: string, state: string,
                   tempSessId: string, data: Bag, exchange: Exchanger, userInfo: UserInfoEndpoint, id: IdReply)
    : (r: Outcome<Completed>)
    ensures !StateMatches(cli, data, state) ==> r == Outcome(st, Failure(StateMismatch()))
    ensures r.result.Failure? ==> r.store == st
    ensures r.result.Failure? ==>
      GetErrCode(Some(r.result.error)) == ErrCodeUserUnauthorized
      || (id.IdError? && r.result.error == TempSessionFailed(IdGenerationFailed(id.reason)))
    ensures r.result.Success? <==>
      && StateMatches(cli, data, state) && TokenFor(cli, code, tempSessId, data, exchange).Success?
      && FetchUserByToken(cli, Some(TokenFor(cli, code, tempSessId, data, exchange).value), userInfo).Success?
      && id.NewId?
    ensures r.result.Success? ==>
      var token := TokenFor(cli, code, tempSessId, data, exchange).value;
      var user := FetchUserByToken(cli, Some(token), userInfo).value;
      && r.result.value == Completed(Session(id.uuid, user.id, NewAuthData(providerName, token.access, token.refresh)),
                                     user, GetString(data, BackUrlKey, "/"))
      && r.store == st[id.uuid := r.result.value.session]
  {
    if !StateMatches(cli, data, state) then Outcome(st, Failure(StateMismatch()))
    else
      match TokenFor(cli, code, tempSessId, data, exchange)
      case Failure(e) => Outcome(st, Failure(CodeInvalid(e, code)))
      case Success(token) =>
        match FetchUserByToken(cli, Some(token), userInfo)
        case Failure(e) => Outcome(st, Failure(TokenInvalid(e)))
        case Success(user) =>
          var c := Create(st, user.id, Some(NewAuthData(providerName, token.access, token.refresh)), id);
          match c.result
          case Failure(e) => Outcome(c.store, Failure(TempSessionFailed(e)))
          case Success(s) => Outcome(c.store, Success(Completed(s, user, GetString(data, BackUrlKey, "/"))))
  }

  /** `UseCase.Execute`.  An unknown provider fails before the temporary
      session is looked up, so that session survives; once it is found it
      is destroyed on every exit. */
  function Execute(reg: Registry, st: Store, providerName: string, code: string, state: string,
                   tempSessId: string, exchange: Exchanger, userInfo: UserInfoEndpoint, id: IdReply)
    : (r: Outcome<Completed>)
    ensures providerName !in reg ==>
      r == Outcome(st, Failure(ClientNotFound(New("no such client \"" + providerName + "\""), providerName)))
    ensures providerName in reg && tempSessId !in st ==>
      r == Outcome(st, Failure(TempSessionMissing(NotFound(tempSessId), tempSessId)))
    ensures providerName in reg && tempSessId in st ==>
      var c := Consume(reg[providerName], st, providerName, code, state, tempSessId, st[tempSessId].data, exchange, userInfo, id);
      r == Outcome(Destroy(c.store, tempSessId), c.result)
  {
    match GetClient(reg, providerName)
    case Failure(e) => Outcome(st, Failure(ClientNotFound(e, providerName)))
    case Success(cli) =>
      match Get(st, tempSessId)
      case Failure(e) => Outcome(st, Failure(TempSessionMissing(e, tempSessId)))
      case Success(sess) =>
        var c := Consume(cli, st, providerName, code, state, tempSessId, sess.data, exchange, userInfo, id);
        Outcome(Destroy(c.store, tempSessId), c.result)
  }
}
