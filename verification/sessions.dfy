/** Sessions and the authentication data they carry
    (`service/session/session.go`).  A session's data is a bag of dynamically
    typed values; only values whose dynamic type is exactly `string` are
    visible to `GetString`. */
module Sessions {
  import opened Wrappers
  import opened Dynamic

  /** `map[string]interface{}`. */
  type Bag = map<string, Value>

  datatype Session = Session(id: string, userId: string, data: Bag)

  /** `NewSession`: a nil data map (`None`) is replaced by an empty one. */
  function NewSession(id: string, userId: string, data: Option<Bag>): (s: Session)
    ensures s.id == id && s.userId == userId
    ensures s.data == data.GetOr(map[])
  {
    Session(id, userId, if data.Some? then data.value else map[])
  }

  /** `GetString`: the value under `key` when its dynamic type is `string`,
      and `def` when the key is missing or holds anything else. */
  function GetString(m: Bag, key: string, def: string): (r: string)
    ensures key in m && m[key].Str? ==> r == m[key].s
    ensures !(key in m && m[key].Str?) ==> r == def
  {
    if key in m && m[key].Str? then m[key].s else def
  }

  /** A string put under a key is what `GetString` reads back; every other
      key reads as before. */
  lemma GetStringOfPut(m: Bag, key: string, s: string, other: string, def: string)
    ensures GetString(m[key := Str(s)], key, def) == s
    ensures other != key ==> GetString(m[key := Str(s)], other, def) == GetString(m, other, def)
  {
  }

  /** A value of any other dynamic type under a key reads as the default. */
  lemma GetStringIgnoresNonStrings(m: Bag, key: string, v: Value, def: string)
    requires !v.Str?
    ensures GetString(m[key := v], key, def) == def
  {
  }

  const ProviderNameKey := "providerName"
  const AccessTokenKey := "accessToken"
  const RefreshTokenKey := "refreshToken"

  /** `NewAuthData`: the provider name and access token are stored as
      strings, the refresh token as the `*string` it was given. */
  function NewAuthData(providerName: string, accessToken: string, refreshToken: Option<string>): (r: Bag)
    ensures r.Keys == {ProviderNameKey, AccessTokenKey, RefreshTokenKey}
    ensures r[ProviderNameKey] == Str(providerName) && r[AccessTokenKey] == Str(accessToken)
    ensures r[RefreshTokenKey] == StrPtr(refreshToken)
  {
    map[ProviderNameKey := Str(providerName), AccessTokenKey := Str(accessToken),
        RefreshTokenKey := StrPtr(refreshToken)]
  }

  /** `AuthData.IsValid`. */
  predicate IsValid(data: Bag) {
    GetString(data, ProviderNameKey, "") != "" && GetString(data, AccessTokenKey, "") != ""
  }

  /** `AuthData.GetProviderName`. */
  function GetProviderName(data: Bag): string {
    GetString(data, ProviderNameKey, "")
  }

  /** `AuthData.GetAccessToken`. */
  function GetAccessToken(data: Bag): string {
    GetString(data, AccessTokenKey, "")
  }

  /** `AuthData.GetRefreshToken`: absent unless a non-empty `string` is
      stored under the key. */
  function GetRefreshToken(data: Bag): (r: Option<string>)
    ensures r.Some? <==> RefreshTokenKey in data && data[RefreshTokenKey].Str? && data[RefreshTokenKey].s != ""
    ensures r.Some? ==> r.value == data[RefreshTokenKey].s
  {
    var t := GetString(data, RefreshTokenKey, "");
    if t == "" then None else Some(t)
  }

  /** Authentication data is valid exactly when both its provider name and
      its access token are non-empty strings. */
  lemma IsValidIff(data: Bag)
    ensures IsValid(data) <==>
      (ProviderNameKey in data && data[ProviderNameKey].Str? && data[ProviderNameKey].s != ""
       && AccessTokenKey in data && data[AccessTokenKey].Str? && data[AccessTokenKey].s != "")
  {
  }

  /** The data `NewAuthData` builds reads back its provider name and access
      token, and is valid exactly when both are non-empty. */
  lemma AuthDataRoundTrip(providerName: string, accessToken: string, refreshToken: Option<string>)
    ensures GetProviderName(NewAuthData(providerName, accessToken, refreshToken)) == providerName
    ensures GetAccessToken(NewAuthData(providerName, accessToken, refreshToken)) == accessToken
    ensures IsValid(NewAuthData(providerName, accessToken, refreshToken)) <==> providerName != "" && accessToken != ""
  {
  }

  /** The refresh token `NewAuthData` stores is a `*string`, which
      `GetString` never accepts: it can never be read back, whatever it is. */
  lemma RefreshTokenLost(providerName: string, accessToken: string, refreshToken: Option<string>)
    ensures GetRefreshToken(NewAuthData(providerName, accessToken, refreshToken)) == None
  {
  }
}
