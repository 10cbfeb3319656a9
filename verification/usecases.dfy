/** What the three use cases share: the error codes of
    `internal/usecase/errors.go`, the keys of the temporary session's data,
    and the error every use case reports for an unknown provider. */
module UseCases {
  import opened Wrappers
  import opened Errors
  import opened Dynamic

  const ErrCodeInvalidCredentials := 30400
  const ErrCodeUserUnauthorized := 30401
  const ErrCodeEntityNotFound := 30404
  const ErrCodeInternal := 30500
  const ErrCodeSessionInterrupt := 30501

  /** Where Login keeps the state and the PKCE verifier for Callback, and
      where the caller keeps the page to return to. */
  const StateKey := "oidcState"
  const CodeVerifierKey := "oidcCodeVerifier"
  const BackUrlKey := "backUrl"

  /** `Wrapf(err, "client not found for provider %s", p)`, coded
      entity-not-found. */
  function ClientNotFound(e: Error, providerName: string): (r: Error)
    ensures GetErrCode(Some(r)) == ErrCodeEntityNotFound
    ensures Text(r) == "client not found for provider " + providerName + ": " + Text(e)
  {
    WithCode(Wrap(Some(e), "client not found for provider " + providerName), ErrCodeEntityNotFound).value
  }

  /** `Wrap(err, "failed to create temp session")`: Login and Callback
      both report a failed session creation so, without a code of their
      own. */
  function TempSessionFailed(e: Error): (r: Error)
    ensures GetErrCode(Some(r)) == GetErrCode(Some(e))
    ensures Text(r) == "failed to create temp session: " + Text(e)
  {
    AnnotationsKeepCode(e, "failed to create temp session", "", Other);
    Wrap(Some(e), "failed to create temp session").value
  }

  /** The shape of most use-case errors: wrap with a message, record one
      field, attach a code.  The code and the field are what the caller of
      `GetErrCode` and `GetFields` sees, whatever the cause carried. */
  function Reported(e: Error, message: string, key: string, value: Value, code: int): (r: Error)
    ensures GetErrCode(Some(r)) == code
    ensures key in GetFields(Some(r)) && GetFields(Some(r))[key] == value
    ensures Text(r) == message + ": " + Text(e)
  {
    var wrapped := Wrap(Some(e), message);
    var fielded := WithField(wrapped, key, value);
    WithFieldUpdatesOutermostMap(wrapped.value, key, value);
    var r := WithCode(fielded, code).value;
    assert Find(r, Fielder) == Find(AddStack(fielded.value), Fielder) == Find(fielded.value, Fielder);
    r
  }
}
