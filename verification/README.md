# myoidc relying-party core in Dafny

This project models the core of myoidc, a small OAuth2/OpenID Connect
gateway. It signs a browser in at a configured identity provider with the
authorization-code flow, optionally protected by `state` and by PKCE
(RFC 7636). It then keeps the signed-in user in a server-side session.

The model covers these parts:

- **PKCE/state generator** (`Pkce`, with `Base64`). The length checks and
  method selection. The rejection-sampling `random` over a byte stream
  standing for `crypto/rand`. The plain and S256 challenge/verifier pairs.
- **Provider client and client registry** (`Clients`, with `Query` and
  `Urls` for the parts of `net/url` and `oauth2` the client relies on):
  - tokens and their validity;
  - the redirect URL that carries the temporary session id;
  - the authorization URL;
  - the code exchange, the user-info fetch and the refresh;
  - the all-or-nothing registry construction.
- **User-info decoders** (`Decoders`, `Json`, `Users`): the `json`
  decoder and the `oauth0` and `surf` claim-map decoders, plus their
  name registry.
- **Sessions** (`Sessions`) and the **in-memory session store**
  (`SessionStore`), with the typed authentication data of a persistent
  session.
- **The three use cases**:
  - `Login`: draws state and PKCE, creates the temporary session and
    builds the authorization URL;
  - `Callback`: checks state, exchanges the code, fetches the user, opens
    the persistent session, and always destroys the temporary one once
    found;
  - `UserInfo`: serves the user behind a persistent session.

  `UseCases` holds their error codes and data keys.
- **Start-up** (`App`): `buildOidcClientRegistry`, where a later entry with
  the same provider name wins, and the root redirect.
- **`pkg/errors`** (`Errors`): the cause chain of based, message, code and
  field nodes, and `Is`, `As`, `Unwrap`, `GetErrCode` and `GetFields`,
  which walk it.
- **Flows**: properties that cross use cases.
  - The state and verifier Login stores are what Callback checks.
  - A temporary session cannot be replayed.
  - The session Callback opens is one UserInfo serves.
  - A temporary session given to UserInfo is destroyed.
  - An out-of-range PKCE length configured at start-up makes Login panic.

The Go store is a map behind a mutex. Here it is an immutable
`map<string, Session>`, and each use case returns the new store beside
its result (`Outcome`). The effects the code reaches are parameters:

- the random stream is a `seq<byte>`, consumed from the front;
- the UUID source is an `IdReply` (a fresh id or an error);
- SHA-256 is a function;
- the provider's token and user-info endpoints are functions from the
  request the client builds to the reply it receives;
- the `%+v` rendering of a session's data is a function.

A Go `error` is `Option<Error>`; `nil` is `None`.

Two behaviours of the code shape the model:

- **Out-of-range PKCE lengths.** `NewS256PKCEGenerator` and
  `NewPlainPKCEGenerator` return a nil generator with a nil error when a
  length check fails (internal/service/oidc/pkce/pkce.go:39-42 and
  73-76). Start-up therefore succeeds, and the first Login that needs the
  generator panics on the nil value. `Pkce.NewMethodGenerator`,
  `App.CollectConfigs` and `Flows.OutOfRangeLengthPanicsAtLogin` state
  this behaviour.
- **Short random strings.** `random(n)` returns nil, the empty string,
  when a read from the random source fails
  (internal/service/oidc/pkce/pkce.go:109-111). `Pkce.Random` states
  "empty or exactly `n`".

## Model

| member | source | states |
|---|---|---|
| Pkce.ValidateLength | internal/service/oidc/pkce/pkce.go:92-100 | no error exactly when both lengths lie in [32, 96]; the state length is checked first, and the error names the offending value |
| Pkce.NewMethodGenerator | internal/service/oidc/pkce/pkce.go:39-47 | (the plain constructor at lines 73-81 is the same) never reports an error; yields a generator of the requested method and lengths exactly when the lengths are valid, and nil otherwise |
| Pkce.SelectMethod | internal/service/oidc/pkce/pkce.go:25-32 | the plain method is chosen exactly for the name "plain"; every other name, the empty one included, chooses S256 |
| Pkce.NewGenerator | internal/service/oidc/pkce/pkce.go:25-32 | never reports an error; a generator exists exactly when both lengths are in range, and it has the selected method and the given lengths |
| Pkce.Accepted | internal/service/oidc/pkce/pkce.go:112-119 | the stream contributes at most one character per byte, and every character is alphanumeric |
| Pkce.Scan | internal/service/oidc/pkce/pkce.go:112-119 | one buffer fills the output exactly when the characters so far plus the buffer's accepted bytes reach the length; it then keeps the first `length` of them, and otherwise all of them |
| Pkce.Random | internal/service/oidc/pkce/pkce.go:103-123 | the result is empty (a failed read) or exactly `length` alphanumeric characters |
| Pkce.RandomLoopSucceeds | internal/service/oidc/pkce/pkce.go:103-123 | the read loop succeeds exactly when the whole `length`-byte reads available supply enough accepted bytes |
| Pkce.RandomLoopText | internal/service/oidc/pkce/pkce.go:103-123 | a successful loop returns the first characters the stream contributes after what was already collected |
| Pkce.RandomLoopRest | internal/service/oidc/pkce/pkce.go:109-111 | the loop consumes the stream from the front, and a failed read leaves nothing of it |
| Pkce.RandomReadsAcceptedPrefix | internal/service/oidc/pkce/pkce.go:103-123 | `random(n)` is the first `n` accepted bytes of the stream, in order, mapped onto the 62-character alphabet; it fails exactly when the whole reads hold fewer than `n` accepted bytes; what it leaves is a suffix of the stream, and nothing after a failure |
| Pkce.State | internal/service/oidc/pkce/pkce.go:49-51 | the state is empty or has exactly the configured state length, all alphanumeric |
| Pkce.CodeChallengeVerifier | internal/service/oidc/pkce/pkce.go:53-58 | the verifier is empty or has the challenge length, all alphanumeric; plain (lines 87-90): the challenge is the verifier and the method is "plain"; S256: the challenge is the unpadded URL-safe Base64 of SHA-256 of the verifier and the method is "S256" (section 4.2 of RFC 7636) |
| Pkce.EncodeChallenge | internal/service/oidc/pkce/pkce.go:60-66 | the encoded challenge contains no `+`, `/` or `=` |
| Pkce.EncodeChallengeIsRawUrl | internal/service/oidc/pkce/pkce.go:60-66 | replacing `+` and `/` and deleting `=` from standard Base64 gives exactly the unpadded encoding over the URL-safe alphabet of section 5 of RFC 4648 |
| Pkce.ChallengeOfDigestLength | internal/service/oidc/pkce/pkce.go:53-58 | a 32-byte SHA-256 digest gives a 43-character challenge |
| Base64.Encode | internal/service/oidc/pkce/pkce.go:60-66 | every character comes from the alphabet or is padding; unpadded output has ceil(4n/3) characters |
| Base64.AlphabetsCorrespond | internal/service/oidc/pkce/pkce.go:60-66 | the standard and URL-safe alphabets differ only in the characters `+`→`-` and `/`→`_`, and the URL-safe one holds none of `+`, `/` and `=` |
| Errors.Chain | pkg/errors/errors.go:17-19 | the chain starts at the error, each node is followed by the cause it wraps, and the last node is a foreign error |
| Errors.Cause | pkg/errors/errors.go:17-19 | every wrapper's `Cause()` is exactly the error it wraps |
| Errors.Find | pkg/errors/facade.go:98-110 | what `Unwrap[T]` finds implements T |
| Errors.As | pkg/errors/facade.go:87-96 | `As` reports true exactly when it hands back a value, and that value implements the interface |
| Errors.New | pkg/errors/facade.go:5-10 | the error's text is the message, it carries a stack, and it has no code and no fields |
| Errors.AddStack | pkg/errors/errors.go:40-49 | a stack is added only when the chain has none, as one new outermost node; the text is unchanged |
| Errors.Wrap | pkg/errors/facade.go:12-20 | nil stays nil; otherwise the text is "message: cause text", the chain carries a stack, and the outer node holds the message |
| Errors.WithCode | pkg/errors/facade.go:46-54 | nil stays nil; otherwise the text is unchanged and the chain carries a stack |
| Errors.SetOutermostField | pkg/errors/facade.go:56-72 | updating the existing fields node keeps the text and the chain length |
| Errors.WithField | pkg/errors/facade.go:56-72 | nil stays nil; otherwise the text is unchanged and the chain has a fields node |
| Errors.FindSome | pkg/errors/facade.go:74-85 | `Is[T]` holds exactly when `Unwrap[T]` finds a node |
| Errors.IsIffOnChain | pkg/errors/facade.go:74-85 | `Is[T]` holds exactly when some node of the cause chain implements T |
| Errors.FindIsOutermost | pkg/errors/facade.go:98-110 | `Unwrap[T]` returns the outermost node implementing T, and finds none exactly when no node does |
| Errors.GetErrCodeOutermost | pkg/errors/facade.go:128-134 | a non-zero code is that of the outermost code node; a chain without a code node reports 0 |
| Errors.GetFieldsOutermost | pkg/errors/facade.go:136-142 | a non-empty field map is that of the outermost fields node; a chain without a fields node reports the empty map |
| Errors.UnwrapReports | pkg/errors/facade.go:74-142 | `Is[T]` holds exactly when `Unwrap[T]` hands back a T; a non-zero code or a non-empty field map comes only from a chain with such a node; nil is no T, has code 0 and the empty field map |
| Errors.TextEndsWithForeign | pkg/errors/errors.go:13-15 | (with lines 51-53, 69 and 104-106) the text ends with the text of the foreign error at the end of the chain, and is exactly that text when no node adds a message |
| Errors.WithCodeIsOutermost | pkg/errors/facade.go:46-54 | the code `WithCode` attaches is what `GetErrCode` reports, whatever codes the wrapped chain holds |
| Errors.AnnotationsKeepCode | pkg/errors/facade.go:128-134 | `Wrap` and `WithField` never change the reported code |
| Errors.WithFieldUpdatesOutermostMap | pkg/errors/facade.go:56-72 | the fields reported after `WithField` are the previously reported map plus the new key |
| Errors.WithFieldAddsNoNode | pkg/errors/facade.go:56-72 | on a chain that already has fields, `WithField` adds no node |
| Errors.NestedExampleChain | pkg/errors/errors_example.go:24-51 | the example builds one fields node inside two code nodes, and both fields land in that one map |
| Errors.NestedCodeExample | pkg/errors/errors_example.go:24-51 | the example reports the outer code 2, both fields, and the text "test 5 error: my message" |
| Query.Add | internal/service/oidc/client/client_generic.go:210-220 | `Add` appends the value to its key and leaves every other key alone |
| Query.Set | internal/service/oidc/client/client_generic.go:26-42 | `Set` makes the value the key's only one and leaves every other key alone |
| Query.QueryEscape | internal/service/oidc/client/client_generic.go:210-220 | escaped text holds only unreserved characters, `%`, `+` and hex digits |
| Query.UnescapeEscape | internal/service/oidc/client/client_generic.go:210-220 | unescaping undoes escaping |
| Query.ParseEncode | internal/service/oidc/client/client_generic.go:210-220 | parsing an encoded query gives back the same values |
| Query.ParseAppendEncoded | internal/service/oidc/client/client_generic.go:26-42 | appending an encoded query to an existing one appends its values key by key |
| Urls.ParseUrl | internal/service/oidc/client/client_generic.go:158-208 | a URL parses exactly when the part before `#` has no control character and does not start with `:`; a parsed URL keeps the fragment, and a failure is a foreign error |
| Urls.ParseWithQuery | internal/service/oidc/client/client_generic.go:210-220 | a URL printed with a new non-empty query parses back to the same URL carrying that query |
| Urls.ParseUrlText | internal/service/oidc/client/client_generic.go:210-220 | printing a URL in the form `url.Parse` produces, then parsing the text, gives back the same URL |
| Clients.EmptyRefreshIsInvalid | internal/service/oidc/client/client.go:16-18 | a present but empty refresh token makes a token invalid |
| Clients.TokenValidity | internal/service/oidc/client/client.go:16-18 | a token without a refresh token is valid exactly when its access token is non-empty; with a refresh token, exactly when both are non-empty |
| Clients.ParseToken | internal/service/oidc/client/client_generic.go:129-142 | an exchange error passes through; a reply is accepted exactly when its access token is non-empty; an accepted token is valid and is what the reply carried |
| Clients.ParseTokenRoundTrip | internal/service/oidc/client/client_generic.go:129-142 | every valid token survives being sent as a reply and parsed back |
| Clients.GetClient | internal/service/oidc/client/client.go:53-61 | lookup succeeds exactly for a registered name and returns its client; otherwise it fails with "no such client" |
| Clients.NewGenericClient | internal/service/oidc/client/client_generic.go:158-208 | a client is built exactly when all three endpoint URLs parse and the decoder is registered; the errors come in that order: each URL's parse error is returned unchanged, then the unknown-decoder error; the client holds the three parsed URLs, the secret, the decoder and the configured flags and generator |
| Clients.AddClients | internal/service/oidc/client/client_generic.go:222-232 | the loop succeeds exactly when every listed configuration builds; it then adds one client per name, and a failure names a configuration that did not build |
| Clients.NewGenericClientRegistry | internal/service/oidc/client/client_generic.go:222-232 | the registry is built all or nothing: it succeeds exactly when every configuration builds, and then has the configured names, each mapped to its client |
| Clients.BuildRedirectUrl | internal/service/oidc/client/client_generic.go:210-220 | building succeeds exactly when the configured redirect URL parses, and fails with the parse error otherwise |
| Clients.RedirectUrlCarriesToken | internal/service/oidc/client/client_generic.go:210-220 | the built URL has the same base and fragment, gains the temporary session id as its last `token` value, and keeps every other parameter |
| Clients.SetParams | internal/service/oidc/client/client_generic.go:26-42 | after the options are applied, each key holds the last option's value for it, or what it held before |
| Clients.BaseValues | internal/service/oidc/client/client_generic.go:26-42 | the request carries response_type=code, the client id, and the redirect URI, scopes and state when non-empty (section 4.1.1 of RFC 6749) |
| Clients.AuthCodeValues | internal/service/oidc/client/client_generic.go:26-42 | those values with the extra parameters applied over them, last one winning |
| Clients.BuildAuthURL | internal/service/oidc/client/client_generic.go:26-42 | an unparseable redirect URL is the only failure, and it is a foreign error; for an endpoint URL as `url.Parse` produces it, a parseable redirect URL always gives an authorization URL |
| Clients.AuthCodeUrlParses | internal/service/oidc/client/client_generic.go:26-42 | the authorization URL `oauth2` assembles from an endpoint URL as `url.Parse` produces it and a non-empty query parses again |
| Clients.BuildAuthURLQuery | internal/service/oidc/client/client_generic.go:26-42 | for an endpoint URL without a fragment the build succeeds, keeps the endpoint's base, and under each key carries the endpoint's own values followed by the request's values |
| Clients.ExchangeRequestFor | internal/service/oidc/client/client_generic.go:44-58 | the exchange request exists exactly when the redirect URL builds, and carries that URL, the code and the parameters |
| Clients.FetchTokenByCode | internal/service/oidc/client/client_generic.go:44-58 | an unparseable redirect URL fails first; a token obtained is valid and is what the token endpoint replied to that request |
| Clients.ExchangeRedirectMatchesAuthorization | internal/service/oidc/client/client_generic.go:26-58 | the code exchange sends the very redirect_uri the authorization request carried, as section 4.1.3 of RFC 6749 requires |
| Clients.FetchUserByToken | internal/service/oidc/client/client_generic.go:60-93 | a missing or invalid token fails before any request; a user is returned exactly when the endpoint answers 200, the body is read and the decoder succeeds, and it is the decoded user; a non-200 reply fails with its text |
| Clients.FetchUserJsonRoundTrip | internal/service/oidc/client/client_generic.go:60-93 | with the json decoder, a 200 reply encoding a user returns exactly that user |
| Clients.RefreshToken | internal/service/oidc/client/client_generic.go:95-104 | an invalid token and a token without a refresh token fail before any exchange; a refreshed token is valid and is the endpoint's reply to the stored refresh token |
| Decoders.Register | internal/service/oidc/client/generic/unmarshaler.go:16-18 | registering binds the name to the decoder and leaves every other name as it was |
| App.BootDecodersRegistered | internal/service/oidc/client/generic/unmarshaler.go:10-14 | (with internal/app/app.go:25) the decoders known at start-up are exactly "json" and "oauth0", bound to the json and oauth0 decoders |
| Decoders.DecodeItems | internal/service/oidc/client/generic/unmarshaler.go:26-28 | each permission item yields one string ("" for a non-string); the first type error is kept, and there is none exactly when every item is a string or null |
| Decoders.UnmarshalUser | internal/service/oidc/client/generic/unmarshaler.go:26-28 | a malformed body returns the parse error and leaves the user untouched; `null` changes nothing |
| Decoders.DecodedStringField | internal/service/oidc/client/generic/unmarshaler.go:26-28 | each string field ends as the last value given for its tag, or as it was |
| Decoders.DecodedWithoutError | internal/service/oidc/client/generic/unmarshaler.go:26-28 | decoding reports no error exactly when every member is well typed |
| Decoders.JsonDecoderRoundTrip | internal/domain/user.go:3-11 | the json decoder returns exactly the user a document encodes, whatever user it starts from |
| Decoders.ClaimMap | internal/service/oidc/client/generic/oauth0/unmarshaler.go:13-17 | the claim map exists exactly when the body parses to an object or `null`; an object gives its members, `null` the empty map, and a malformed body its parse error |
| Decoders.OAuth0IdAsWritten | internal/service/oidc/client/generic/oauth0/unmarshaler.go:19-20 | as written, the id is a suffix of `sub`, every character removed before it belongs to the prefix's character set, and a non-empty id does not start with one |
| Decoders.OAuth0Id | internal/service/oidc/client/generic/oauth0/unmarshaler.go:19-20 | as intended, a subject starting with "google-oauth2\|" loses exactly that prefix, and any other subject is kept whole |
| Decoders.OAuth0IdOfGoogleSubject | internal/service/oidc/client/generic/oauth0/unmarshaler.go:19-20 | every id prefixed by the provider comes back unchanged |
| Decoders.OAuth0IdAsWrittenOfGoogleSubject | internal/service/oidc/client/generic/oauth0/unmarshaler.go:19-20 | as written, a prefixed id decodes as the unprefixed id would; it comes back unchanged exactly when it is empty or does not start with a character of the prefix, and shorter otherwise |
| Decoders.OAuth0IdAsWrittenLosesDigits | internal/service/oidc/client/generic/oauth0/unmarshaler.go:19-20 | as written, "google-oauth2\|2024" gives "024" where "2024" is meant, and "hello" gives "" |
| Decoders.FromClaims | internal/service/oidc/client/generic/oauth0/unmarshaler.go:19-25 | the claim decoders, with the oauth0 id trimmed as written, never touch permissions |
| Decoders.Decode | internal/service/oidc/client/generic/oauth0/unmarshaler.go:12-28 | a claim decoder fails exactly when the body is not a JSON object or null, and then leaves the user untouched; a malformed body returns the parse error |
| Decoders.OAuth0DecoderRoundTrip | internal/service/oidc/client/generic/oauth0/unmarshaler.go:12-28 | the oauth0 decoder as written recovers a user's login, email and names from the claims a Google-backed provider sends and keeps the permissions; the id comes back as the as-written trim of the bare id: unchanged exactly when it is empty or does not start with a character of "google-oauth2\|", and different otherwise |
| Decoders.DecodeOAuth0Intended | internal/service/oidc/client/generic/oauth0/unmarshaler.go:12-28 | the intended oauth0 decoder fails exactly when the written one does, leaving the user untouched; on success its id is `sub` without the prefix and every other field agrees with the written decoder |
| Decoders.OAuth0IntendedDecoderRoundTrip | internal/service/oidc/client/generic/oauth0/unmarshaler.go:12-28 | the intended oauth0 decoder recovers every field of a user from the claims a Google-backed provider sends, the id included, and keeps the permissions |
| Decoders.SurfDecoderRoundTrip | internal/service/oidc/client/generic/surf/unmarshaler.go:11-26 | the surf decoder recovers a user's id, login, email and names from its claims, and keeps the permissions |
| Decoders.EmptyObjectDecodesEmpty | internal/service/oidc/client/generic/surf/unmarshaler.go:11-26 | every decoder turns an empty object into the empty user without error |
| Json.MapValueSpec | internal/service/oidc/client/generic/surf/unmarshaler.go:18-23 | the claim map holds a key exactly when some member has it, and then holds the last such member's value |
| Json.StringClaim | internal/service/oidc/client/generic/surf/unmarshaler.go:18-23 | a claim reads as its string, and as "" when missing or not a string |
| Sessions.NewSession | internal/service/session/session.go:18-27 | the session has the given ids, and nil data becomes the empty map |
| Sessions.GetString | internal/service/session/session.go:61-67 | a string value is read, and anything else gives the default |
| Sessions.GetStringOfPut | internal/service/session/session.go:61-67 | a string written under a key reads back, and other keys are unaffected |
| Sessions.GetStringIgnoresNonStrings | internal/service/session/session.go:61-67 | a non-string value under a key reads as the default |
| Sessions.NewAuthData | internal/service/session/session.go:29-38 | the data holds exactly the provider name, the access token and the refresh token pointer |
| Sessions.GetRefreshToken | internal/service/session/session.go:53-59 | a refresh token is read exactly when a non-empty string is stored under its key |
| Sessions.IsValidIff | internal/service/session/session.go:40-43 | data is valid exactly when provider name and access token are non-empty strings |
| Sessions.AuthDataRoundTrip | internal/service/session/session.go:29-51 | authentication data reads back its provider name and access token, and is valid exactly when both are non-empty |
| Sessions.RefreshTokenLost | internal/service/session/session.go:31-59 | the refresh token stored as a pointer is never read back, whatever it is |
| SessionStore.IdGenerationFailed | internal/service/session/inmemory/session.go:33-37 | a failed id generation carries no use-case code |
| SessionStore.Create | internal/service/session/inmemory/session.go:32-47 | creation fails exactly when id generation fails, and then changes nothing; otherwise the new session holds the id, owner and data, and is the one session added |
| SessionStore.CreateTemp | internal/service/session/inmemory/session.go:28-30 | the same, with no owner |
| SessionStore.Get | internal/service/session/inmemory/session.go:49-60 | lookup succeeds exactly for a stored id and returns its session; otherwise it fails with not-found |
| SessionStore.Destroy | internal/service/session/inmemory/session.go:62-68 | destroy removes exactly the id and keeps every other session |
| SessionStore.GetAfterCreate | internal/service/session/inmemory/session.go:32-60 | a created session can be read back |
| SessionStore.CreateKeepsOthers | internal/service/session/inmemory/session.go:32-47 | creating leaves every other id reading as before |
| SessionStore.GetAfterDestroy | internal/service/session/inmemory/session.go:49-68 | after destroy the id is not found, and every other id reads as before |
| SessionStore.DestroyIdempotent | internal/service/session/inmemory/session.go:62-68 | destroying an absent id changes nothing, so destroying twice is destroying once |
| SessionStore.StoreSizes | internal/service/session/inmemory/session.go:32-68 | a fresh id grows the store by one; destroying a present id shrinks it by one |
| UseCases.ClientNotFound | internal/usecase/oidc/login/login.go:28-32 | an unknown provider is reported with code entity-not-found and a message naming the provider |
| UseCases.Reported | internal/usecase/oidc/userinfo/usecase.go:28-33 | an error wrapped with a message, one field and a code reports that code and that field value whatever its cause carried, and its text is the message over the cause's |
| UseCases.TempSessionFailed | internal/usecase/oidc/login/login.go:52-56 | a failed session creation keeps the cause's code and prefixes its message |
| Login.Secure | internal/usecase/oidc/login/login.go:34-50 | the state is drawn only with useState and the PKCE pair only with usePKCE; the state and verifier are empty or of the configured lengths; the challenge matches the verifier (section 4.2 of RFC 7636); the data gains exactly the state and verifier keys holding those values, and keeps every other entry |
| Login.PanicCases | internal/usecase/oidc/login/login.go:36-50 | a client with neither state nor PKCE never panics, nor does one with a generator and a data map; a client with either and no generator, or no data map, always does |
| Login.Start | internal/usecase/oidc/login/login.go:34-65 | Login panics exactly when it needs a nil generator or a nil data map; a failed id leaves the store unchanged; otherwise the temporary session with the secured data is stored and the result is the authorization URL for it; no failure carries a code |
| Login.Execute | internal/usecase/oidc/login/login.go:27-65 | an unknown provider fails with entity-not-found and changes nothing; otherwise Login proceeds with the provider's client |
| Callback.TempSessionMissing | internal/usecase/oidc/callback/callback.go:37-42 | a missing temporary session is coded user-unauthorized and names the id in its fields |
| Callback.StateMismatch | internal/usecase/oidc/callback/callback.go:45-52 | a state mismatch is coded user-unauthorized |
| Callback.StateCheck | internal/usecase/oidc/callback/callback.go:46-53 | a client without state always passes; otherwise the request's state must equal the string stored under the state key, or be empty when none is stored |
| Callback.CodeInvalid | internal/usecase/oidc/callback/callback.go:59-64 | a failed exchange is coded user-unauthorized, records the code under `oidcCode`, and reads "code is invalid: " followed by the exchange error |
| Callback.TokenInvalid | internal/usecase/oidc/callback/callback.go:67-72 | a failed user fetch is coded user-unauthorized, records the token under `oidcAuthToken`, and reads "token is invalid: " followed by the fetch error |
| Callback.VerifierParams | internal/usecase/oidc/callback/callback.go:54-57 | with PKCE the exchange sends exactly the stored verifier as `code_verifier`, and otherwise no parameter |
| Callback.Consume | internal/usecase/oidc/callback/callback.go:45-86 | a failure never changes the store and is coded user-unauthorized, unless it is a failed id generation; success comes exactly when the state matches, the exchange and the fetch succeed and an id is issued; it stores a session owned by the user with the token's authentication data and returns the back URL (default "/") |
| Callback.Execute | internal/usecase/oidc/callback/callback.go:30-87 | an unknown provider fails before the lookup and changes nothing; a missing temporary session changes nothing; once it is found it is destroyed on every exit, after the other steps |
| UserInfo.SessionMissing | internal/usecase/oidc/userinfo/usecase.go:28-33 | a missing session is coded user-unauthorized, records the id under `sessId`, and prefixes the cause's message |
| UserInfo.AuthDataInvalid | internal/usecase/oidc/userinfo/usecase.go:35-41 | invalid authentication data is coded session-interrupt |
| UserInfo.ProviderMissing | internal/usecase/oidc/userinfo/usecase.go:43-49 | a stored provider that is no longer registered is coded entity-not-found, records the session id, and names the provider in the message |
| UserInfo.FetchFailed | internal/usecase/oidc/userinfo/usecase.go:51-59 | a failed fetch keeps the fetch error's own code |
| UserInfo.Fetch | internal/usecase/oidc/userinfo/usecase.go:43-62 | an unknown stored provider destroys the session and fails with entity-not-found; otherwise the store is kept and the result is the provider's answer for the stored token |
| UserInfo.Execute | internal/usecase/oidc/userinfo/usecase.go:27-62 | a missing session fails and changes nothing; invalid authentication data destroys the session; valid data goes on to the fetch |
| App.CollectConfigs | internal/app/app.go:88-114 | the loop never stops on a generator error; the result holds every configured name, each with the configuration of its last entry |
| App.BuildOidcClientRegistry | internal/app/app.go:88-121 | collection always succeeds, and the registry is built from what it collected |
| App.BootstrapRegistry | internal/app/app.go:88-121 | no provider is an error; a registry has exactly the configured names; it is built exactly when each name's last entry builds a client, and then holds that client |
| App.LastEntryExists | internal/app/app.go:113 | every configured name has a last entry, the one that wins |
| App.UnknownDecoderFailsStartup | internal/app/app.go:88-121 | a provider whose last entry names a decoder other than "json" and "oauth0" (such as "surf", which start-up never registers) makes start-up fail |
| App.ProviderNameOfRedirectUrl | internal/app/app.go:99 | the callback URL is the domain and the fixed callback path, followed by exactly the provider name |
| App.RedirectUrlsDistinct | internal/app/app.go:99 | two providers get the same callback URL on a domain exactly when they have the same name |
| App.RootRedirect | internal/app/app.go:76-83 | a browser with a session cookie goes to user info, and any other to the login of the "myoidc" provider |
| Flows.SecuredDataPassesCallback | internal/usecase/oidc/callback/callback.go:45-58 | the state Login sends passes Callback's check against the data Login stored; with PKCE, the verifier Callback sends is the one the sent challenge was made from (section 4.6 of RFC 7636) |
| Flows.LoginLeavesTempSession | internal/usecase/oidc/login/login.go:52-64 | a successful Login leaves an ownerless temporary session whose data passes the state check, and the URL is the one built for that session |
| Flows.LoginUrlCarriesStateAndSession | internal/usecase/oidc/login/login.go:58-64 | the authorization URL carries the drawn state, a redirect URI naming the temporary session, and with PKCE the challenge |
| Flows.AuthUrlCarries | internal/service/oidc/client/client_generic.go:26-42 | a built URL carries the state, the redirect URI and the challenge it was given |
| Flows.PkceQuery | internal/service/oidc/client/client_generic.go:26-42 | with the PKCE pair or no extra parameters, the request carries the state (when non-empty), the redirect URI and, with PKCE, the challenge |
| Flows.CallbackReplayRefused | internal/usecase/oidc/callback/callback.go:37-43 | a temporary session is gone after one callback, so replaying it fails with user-unauthorized and changes nothing |
| Flows.CallbackUnknownProviderKeepsTempSession | internal/usecase/oidc/callback/callback.go:31-35 | a callback for an unknown provider leaves the store and the temporary session as they were |
| Flows.CallbackSessionServesUserInfo | internal/usecase/oidc/callback/callback.go:75-86 | the session a callback opens is stored, is valid, and UserInfo answers it by fetching with the access token; the refresh token is lost |
| Flows.UserInfoDestroysTempSession | internal/usecase/oidc/userinfo/usecase.go:35-41 | a temporary session presented to UserInfo is destroyed, with code session-interrupt |
| Flows.OutOfRangeLengthPanicsAtLogin | internal/app/app.go:104-112 | a provider configured with an out-of-range state length starts up, and its Login panics |
| Flows.ClientOf | internal/app/app.go:88-121 | the registered client of a provider is the one built from its last entry |

## Left out

- HTTP handlers, cookies, status-code mapping, the fiber router and
  logging: they only translate use-case results. The root redirect is
  modelled on its cookie value alone.
- Configuration loading (`config.go`) and the `DisableTLSVerify`
  /`DisableSslVerify` toggle: they affect no modelled result.
- The mutex around the store: the model is sequential.
- UUID uniqueness: ids come from an `IdReply` parameter. `Create` with an
  id already in the store replaces that session, as the Go map would.
- `crypto/rand` is a byte stream parameter, and SHA-256 is a function
  parameter. Neither is computed.
- The `oauth2` library and the network: the token and user-info endpoints
  are functions from request to reply. Only the query the library builds
  for the authorization URL is modelled.
- JSON text parsing: a body arrives already parsed (or as a parse error).
  Go's case-insensitive matching of struct tags is not modelled: keys match
  exactly. Numbers are integers; floating point is not modelled.
- Stack capture and `fmt` formatting in `pkg/errors`; the `%+v`
  rendering of session data is a function parameter.
- Query.QueryEscape: a character outside ASCII is kept as it is, where Go
  percent-encodes every byte at or above 0x80.
- Urls.ParseUrl: only the failures the gateway can meet are modelled (a
  control character, a leading `:`). Other `net/url` syntax errors are
  not. The scheme keeps its case, where `url.Parse` lowercases it.
- Urls.UrlText: the scheme, authority and path are printed as they were
  given, and so is the fragment. `URL.String()` re-escapes the path and
  the fragment (`EscapedPath`, `EscapedFragment`). So a redirect URL such as
  `HTTPS://idp/cb path` reaches `redirect_uri` unchanged here, where Go
  sends `https://idp/cb%20path`.
- Query.QueryUnescape: query text is read as a string of bytes. `%XY`
  becomes the one character with code XY, and a literal character is kept
  as one character. A literal non-ASCII character therefore differs from
  its percent-encoded UTF-8 bytes here, while Go sees the same bytes in
  both.
- Decoders.DecodeItems: a repeated "permissions" key builds a fresh list.
  `encoding/json` decodes the second array into the slice it already
  holds: a `null` or mistyped item keeps the element already there, and
  the slice is then cut to the new length. For
  `{"permissions":["a","b"],"permissions":[null]}` Go yields `["a"]` and
  the model `[""]`. A single "permissions" key, the form providers send,
  decodes the same in both.
- Clients that are not a `SecurityClient`: the only client type is the
  generic one, which always is.
- Pkce.ValidateLength: the minimum is 32 as in the code, where section
  4.1 of RFC 7636 asks verifiers to be at least 43 characters.
- Decoders.OAuth0DecoderRoundTrip: the exact round trip holds only for
  ids that are empty or do not start with a character of
  "google-oauth2|", because the code trims a character set; the use cases
  use this decoder as written.
- The decoder registration at start-up: internal/app/app.go:11 and 25
  register through `client.RegisterUnmarshaler` and a `client/oauth0`
  package, while the registry and the oauth0 decoder shown live in
  `client/generic`. The model assumes the registration reaches that one
  registry (`App.BootDecoders`).
- Login.Start: a Go panic is a `Panicked` outcome with no store, since
  nothing after the panic runs.

## Findings

| source | as written | input that shows it | evidently intended | confidence | as-written member | corrected member |
|---|---|---|---|---|---|---|
| internal/service/oidc/client/generic/oauth0/unmarshaler.go:19-20 | `strings.TrimLeft` with "google-oauth2\|" removes every leading character from that set | `sub` "google-oauth2\|2024" gives id "024"; "hello" gives "" | remove the prefix once (`strings.TrimPrefix`), so the id is "2024" | not executed | Decoders.OAuth0IdAsWrittenLosesDigits | Decoders.OAuth0IntendedDecoderRoundTrip |

The use cases decode with the oauth0 decoder as written (`Decoders.Decode`,
`Decoders.OAuth0DecoderRoundTrip`); `Decoders.DecodeOAuth0Intended` is the
corrected decoder, and `Decoders.OAuth0IntendedDecoderRoundTrip` proves the
round trip the code evidently intends.
