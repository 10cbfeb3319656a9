/** The Login use case (`usecase/oidc/login/login.go`): look up the
    provider's client, draw the state and the PKCE pair when the client
    asks for them, keep them in a new temporary session, and build the
    authorization URL that names that session. */
module Login {
  import opened Wrappers
  import opened Strs
  import opened Errors
  import opened Dynamic
  import opened Sessions
  import opened SessionStore
  import opened Pkce
  import opened Base64
  import opened Urls
  import opened Clients
  import opened UseCases

  /** How `Execute` ends.  A panic (a call on the nil generator, or a write
      to a nil data map) happens before the store is touched. */
  datatype LoginOutcome = Returned(store: Store, result: Result<Url, Error>) | Panicked

  /** Whether the security step panics: it must use the generator or store
      into the data map, and one of them is nil. */
  predicate Panics(cli: GenericClient, data: Option<Bag>) {
    (cli.useState || cli.usePKCE) && (cli.generator.None? || data.None?)
  }

  /** A client without state and PKCE never panics, nor does one with a
      generator and a data map; a client with either and no generator
      always does. */
  lemma PanicCases(cli: GenericClient, data: Option<Bag>)
    ensures !cli.useState && !cli.usePKCE ==> !Panics(cli, data)
    ensures cli.generator.Some? && data.Some? ==> !Panics(cli, data)
    ensures (cli.useState || cli.usePKCE) && cli.generator.None? ==> Panics(cli, data)
    ensures (cli.useState || cli.usePKCE) && data.None? ==> Panics(cli, data)
  {
  }

  /** The relation section 4.2 of RFC 7636 puts between a verifier and the
      challenge and method sent for it. */
  predicate ChallengeFor(g: Generator, sha256: string -> seq<byte>, verifier: string,
                         challenge: string, methodName: string) {
    match g.kind
    case Plain => challenge == verifier && methodName == MethodPlain
    case S256 => challenge == RawUrlEncoding(sha256(verifier)) && methodName == MethodS256
  }

  /** What the security step hands on: the state for the URL, the PKCE
      verifier, the extra URL parameters and the data of the temporary
      session. */
  datatype Secured = Secured(state: string, verifier: string, params: seq<UrlParam>, data: Option<Bag>)

  /** The keys the security step adds to the caller's data. */
  function AddedKeys(cli: GenericClient): set<string> {
    (if cli.useState then {StateKey} else {}) + (if cli.usePKCE then {CodeVerifierKey} else {})
  }

  /** The `SecurityClient` branch: the state is drawn first, the PKCE
      verifier from what the random source has left. */
  function Secure(cli: GenericClient, data: Option<Bag>, src: seq<byte>, sha256: string -> seq<byte>)
    : (s: Secured)
    requires !Panics(cli, data)
    ensures !cli.useState ==> s.state == ""
    ensures cli.useState ==> (s.state == "" || |s.state| == cli.generator.value.stateLength)
                             && forall i :: 0 <= i < |s.state| ==> IsAlphaNumeric(s.state[i])
    ensures !cli.usePKCE ==> s.params == []
    ensures cli.usePKCE ==>
      && (s.verifier == "" || |s.verifier| == cli.generator.value.challengeLength)
      && |s.params| == 2 && s.params[0].key == "code_challenge" && s.params[1].key == "code_challenge_method"
      && ChallengeFor(cli.generator.value, sha256, s.verifier, s.params[0].value, s.params[1].value)
    ensures s.data.Some? <==> data.Some?
    ensures data.Some? ==> s.data.value.Keys == data.value.Keys + AddedKeys(cli)
    ensures data.Some? ==> forall k :: k in data.value && k !in AddedKeys(cli) ==> s.data.value[k] == data.value[k]
    ensures cli.useState ==> s.data.value[StateKey] == Str(s.state)
    ensures cli.usePKCE ==> s.data.value[CodeVerifierKey] == Str(s.verifier)
  {
    var drawn := if cli.useState then State(cli.generator.value, src) else Draw("", src);
    var data1 := if cli.useState then Some(data.value[StateKey := Str(drawn.text)]) else data;
    if !cli.usePKCE then Secured(drawn.text, "", [], data1)
    else
      var cv := CodeChallengeVerifier(cli.generator.value, drawn.rest, sha256);
      Secured(drawn.text, cv.verifier,
              [UrlParam("code_challenge", cv.challenge), UrlParam("code_challenge_method", cv.methodName)],
              Some(data1.value[CodeVerifierKey := Str(cv.verifier)]))
  }

  /** The error of a failed URL build for temporary session `id`. */
  function AuthUrlFailed(e: Error, id: string): Error {
    Wrap(Some(e), "failed to build auth url for temp session " + id).value
  }

  /** Everything after the client lookup.  A failed id generation leaves
      the store as it was; a failed URL build leaves the temporary session
      behind.  Neither error carries a use-case code. */
  function Start(cli: GenericClient, st: Store, scopes: seq<string>, data: Option<Bag>,
                 src: seq<byte>, sha256: string -> seq<byte>, id: IdReply): (r: LoginOutcome)
    ensures r.Panicked? <==> Panics(cli, data)
    ensures r.Returned? && id.IdError? ==>
      r.store == st && r.result == Failure(TempSessionFailed(IdGenerationFailed(id.reason)))
    ensures r.Returned? && id.NewId? ==>
      var s := Secure(cli, data, src, sha256);
      && r.store == st[id.uuid := Session(id.uuid, "", s.data.GetOr(map[]))]
      && (r.result.Success? <==> BuildAuthURL(cli, s.state, scopes, id.uuid, s.params).Success?)
      && (r.result.Success? ==> r.result.value == BuildAuthURL(cli, s.state, scopes, id.uuid, s.params).value)
    ensures r.Returned? && r.result.Failure? ==> GetErrCode(Some(r.result.error)) == 0
  {
    if Panics(cli, data) then Panicked
    else
      var s := Secure(cli, data, src, sha256);
      var c := CreateTemp(st, s.data, id);
      match c.result
      case Failure(e) =>
        Returned(c.store, Failure(TempSessionFailed(e)))
      case Success(sess) =>
        match BuildAuthURL(cli, s.state, scopes, sess.id, s.params)
        case Failure(e) =>
          AnnotationsKeepCode(e, "failed to build auth url for temp session " + sess.id, "", Other);
          Returned(c.store, Failure(AuthUrlFailed(e, sess.id)))
        case Success(u) => Returned(c.store, Success(u))
  }

  /** `UseCase.Execute`.  An unknown provider fails with entity-not-found
      before anything else happens. */
  function Execute(reg: Registry, st: Store, providerName: string, scopes: seq<string>, data: Option<Bag>,
                   src: seq<byte>, sha256: string -> seq<byte>, id: IdReply): (r: LoginOutcome)
    ensures providerName !in reg ==>
      r == Returned(st, Failure(ClientNotFound(New("no such client \"" + providerName + "\""), providerName)))
    ensures providerName in reg ==> r == Start(reg[providerName], st, scopes, data, src, sha256, id)
  {
    match GetClient(reg, providerName)
    case Failure(e) => Returned(st, Failure(ClientNotFound(e, providerName)))
    case Success(cli) => Start(cli, st, scopes, data, src, sha256, id)
  }
}
