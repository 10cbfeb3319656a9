/** The UserInfo use case (`usecase/oidc/userinfo/usecase.go`): read the
    session, check its authentication data, and ask the provider for the
    user behind the stored access token.  A session whose data or provider
    is unusable is destroyed on the way out. */
module UserInfo {
  import opened Wrappers
  import opened Errors
  import opened Dynamic
  import opened Users
  import opened Sessions
  import opened SessionStore
  import opened Clients
  import opened UseCases

  /** The error for a session id the store does not hold. */
  function SessionMissing(e: Error, sessId: string): (r: Error)
    ensures GetErrCode(Some(r)) == ErrCodeUserUnauthorized
    ensures "sessId" in GetFields(Some(r)) && GetFields(Some(r))["sessId"] == Str(sessId)
    ensures Text(r) == "session not found: " + Text(e)
  {
    Reported(e, "session not found", "sessId", Str(sessId), ErrCodeUserUnauthorized)
  }

  /** The error for a session without usable authentication data.  The
      `%+v` rendering of the data is the `render` oracle. */
  function AuthDataInvalid(render: Bag -> string, data: Bag, sessId: string): (r: Error)
    ensures GetErrCode(Some(r)) == ErrCodeSessionInterrupt
  {
    var e := New("session authentication data not found or invalid: " + render(data));
    WithCode(WithField(Some(e), "sessId", Str(sessId)), ErrCodeSessionInterrupt).value
  }

  /** The error for a stored provider the registry does not know. */
  function ProviderMissing(e: Error, providerName: string, sessId: string): (r: Error)
    ensures GetErrCode(Some(r)) == ErrCodeEntityNotFound
    ensures "sessId" in GetFields(Some(r)) && GetFields(Some(r))["sessId"] == Str(sessId)
    ensures Text(r) == "client not found for provider " + providerName + ": " + Text(e)
  {
    Reported(e, "client not found for provider " + providerName, "sessId", Str(sessId), ErrCodeEntityNotFound)
  }

  /** The error for a failed user fetch: annotated, but given no code of
      its own, so it reports whatever code the fetch error carried. */
  function FetchFailed(e: Error, sessId: string): (r: Error)
    ensures GetErrCode(Some(r)) == GetErrCode(Some(e))
  {
    var wrapped := Wrap(Some(e), "failed to fetch user by oidc token");
    AnnotationsKeepCode(e, "failed to fetch user by oidc token", "sessId", Str(sessId));
    AnnotationsKeepCode(wrapped.value, "", "sessId", Str(sessId));
    WithField(wrapped, "sessId", Str(sessId)).value
  }

  /** The token rebuilt from the session's data. */
  function StoredToken(data: Bag): Token {
    Token(GetAccessToken(data), GetRefreshToken(data))
  }

  /** The steps after the session's data was found valid. */
  function Fetch(reg: Registry, st: Store, sessId: string, data: Bag, userInfo: UserInfoEndpoint)
    : (r: Outcome<User>)
    ensures GetProviderName(data) !in reg ==>
      r.store == Destroy(st, sessId) && r.result.Failure?
      && GetErrCode(Some(r.result.error)) == ErrCodeEntityNotFound
    ensures GetProviderName(data) in reg ==>
      var f := FetchUserByToken(reg[GetProviderName(data)], Some(StoredToken(data)), userInfo);
      && r.store == st
      && (r.result.Success? <==> f.Success?)
      && (r.result.Success? ==> r.result.value == f.value)
      && (r.result.Failure? ==> GetErrCode(Some(r.result.error)) == GetErrCode(Some(f.error)))
  {
    var providerName := GetProviderName(data);
    match GetClient(reg, providerName)
    case Failure(e) => Outcome(Destroy(st, sessId), Failure(ProviderMissing(e, providerName, sessId)))
    case Success(cli) =>
      match FetchUserByToken(cli, Some(StoredToken(data)), userInfo)
      case Failure(e) => Outcome(st, Failure(FetchFailed(e, sessId)))
      case Success(user) => Outcome(st, Success(user))
  }

  /** `UseCase.Execute`. */
  function Execute(reg: Registry, st: Store, sessId: string, userInfo: UserInfoEndpoint, render: Bag -> string)
    : (r: Outcome<User>)
    ensures sessId !in st ==> r == Outcome(st, Failure(SessionMissing(NotFound(sessId), sessId)))
    ensures sessId in st && !IsValid(st[sessId].data) ==>
      r == Outcome(Destroy(st, sessId), Failure(AuthDataInvalid(render, st[sessId].data, sessId)))
    ensures sessId in st && IsValid(st[sessId].data) ==> r == Fetch(reg, st, sessId, st[sessId].data, userInfo)
  {
    match Get(st, sessId)
    case Failure(e) => Outcome(st, Failure(SessionMissing(e, sessId)))
    case Success(sess) =>
      if !IsValid(sess.data) then Outcome(Destroy(st, sessId), Failure(AuthDataInvalid(render, sess.data, sessId)))
      else Fetch(reg, st, sessId, sess.data, userInfo)
  }
}
