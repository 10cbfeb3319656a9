/** The user-info decoders (`client/generic/unmarshaler.go`,
    `generic/oauth0/unmarshaler.go`, `generic/surf/unmarshaler.go`) and their
    registry.  A decoder fills the user it is given and reports an error;
    the body is the JSON document the HTTP reply carried, or the reason it
    is not JSON. */
module Decoders {
  import opened Wrappers
  import opened Strs
  import opened Errors
  import opened Users
  import opened Json

  datatype Decoder = JsonDecoder | OAuth0Decoder | SurfDecoder

  datatype Body = Unparseable(reason: string) | Parsed(doc: Json)

  /** The error and the user after `UnmarshalUserInfo(body, &user)`. */
  datatype Decoded = Decoded(err: Option<Error>, user: User)

  // ---------------------------------------------------------------------
  // Registry

  type Registry = map<string, Decoder>

  /** The registry as package initialisation leaves it: only "json". */
  const InitialRegistry: Registry := map["json" := JsonDecoder]

  /** `RegisterUnmarshaler`: a later registration under the same name replaces the earlier one. */
  function Register(reg: Registry, name: string, d: Decoder): (r: Registry)
    ensures name in r && r[name] == d
    ensures forall other :: other != name ==> (other in r <==> other in reg)
    ensures forall other :: other != name && other in reg ==> r[other] == reg[other]
  {
    reg[name := d]
  }

  // ---------------------------------------------------------------------
  // JSONUnmarshaler: json.Unmarshal into *domain.User

  /** The JSON names of the string fields of `domain.User`. */
  predicate IsStringTag(tag: string) {
    tag in {"id", "login", "email", "fullName", "firstName", "lastName"}
  }

  function SetStringField(u: User, tag: string, s: string): (r: User)
    requires IsStringTag(tag)
  {
    if tag == "id" then u.(id := s)
    else if tag == "login" then u.(login := s)
    else if tag == "email" then u.(email := s)
    else if tag == "fullName" then u.(fullName := s)
    else if tag == "firstName" then u.(firstName := s)
    else u.(lastName := s)
  }

  function StringField(u: User, tag: string): string
    requires IsStringTag(tag)
  {
    if tag == "id" then u.id
    else if tag == "login" then u.login
    else if tag == "email" then u.email
    else if tag == "fullName" then u.fullName
    else if tag == "firstName" then u.firstName
    else u.lastName
  }

  function FieldTypeError(value: Json, tag: string, goType: string): Error {
    External("json: cannot unmarshal " + KindName(value) + " into Go struct field User." + tag + " of type " + goType)
  }

  /** `encoding/json` keeps the first error it saves and goes on decoding. */
  function KeepFirst(saved: Option<Error>, e: Error): Option<Error> {
    if saved.Some? then saved else Some(e)
  }

  /** The items of a `[]string`: a string is kept, null gives "", any other
      value gives "" and a type error. */
  function DecodeItems(items: seq<Json>, saved: Option<Error>): (r: (seq<string>, Option<Error>))
    ensures |r.0| == |items|
    ensures forall i :: 0 <= i < |items| ==> r.0[i] == (if items[i].JString? then items[i].s else "")
    ensures saved.Some? ==> r.1 == saved
    ensures r.1.None? <==> saved.None? && forall i :: 0 <= i < |items| ==> items[i].JString? || items[i].JNull?
    decreases |items|
  {
    if |items| == 0 then ([], saved)
    else
      var item := items[0];
      var (s, e) :=
        match item
        case JString(x) => (x, saved)
        case JNull => ("", saved)
        case _ => ("", KeepFirst(saved, FieldTypeError(item, "permissions", "string")));
      var (rest, e') := DecodeItems(items[1..], e);
      ([s] + rest, e')
  }

  /** One member of the object: unknown keys are ignored; null leaves a
      string field alone and sets the permissions to nil; a value of the
      wrong kind leaves the field alone and saves a type error. */
  function DecodeMember(u: User, m: Member, saved: Option<Error>): (r: Decoded)
    ensures saved.Some? ==> r.err == saved
  {
    if IsStringTag(m.key) then
      match m.value
      case JString(s) => Decoded(saved, SetStringField(u, m.key, s))
      case JNull => Decoded(saved, u)
      case _ => Decoded(KeepFirst(saved, FieldTypeError(m.value, m.key, "string")), u)
    else if m.key == "permissions" then
      match m.value
      case JArray(items) =>
        var (ps, e) := DecodeItems(items, saved);
        Decoded(e, u.(permissions := ps))
      case JNull => Decoded(saved, u.(permissions := []))
      case _ => Decoded(KeepFirst(saved, FieldTypeError(m.value, "permissions", "[]string")), u)
    else Decoded(saved, u)
  }

  function DecodeMembers(u: User, members: seq<Member>, saved: Option<Error>): (r: Decoded)
    ensures saved.Some? ==> r.err == saved
    decreases |members|
  {
    if |members| == 0 then Decoded(saved, u)
    else
      var d := DecodeMember(u, members[0], saved);
      DecodeMembers(d.user, members[1..], d.err)
  }

  /** `json.Unmarshal(body, user)`: a syntax error or a document that is not
      an object (or null) leaves the user as it was. */
  function UnmarshalUser(body: Body, u: User): (r: Decoded)
    ensures body.Unparseable? ==> r == Decoded(Some(External(body.reason)), u)
    ensures body == Parsed(JNull) ==> r == Decoded(None, u)
  {
    match body
    case Unparseable(reason) => Decoded(Some(External(reason)), u)
    case Parsed(JNull) => Decoded(None, u)
    case Parsed(JObject(members)) => DecodeMembers(u, members, None)
    case Parsed(doc) =>
      Decoded(Some(External("json: cannot unmarshal " + KindName(doc) + " into Go value of type domain.User")), u)
  }

  // ---------------------------------------------------------------------
  // OAuth0Unmarshaler and SurfUnmarshaler: json.Unmarshal into a map

  /** The members of a `map[string]interface{}` after decoding `body`, or the error. */
  function ClaimMap(body: Body): (r: Result<seq<Member>, Error>)
    ensures r.Success? <==> body.Parsed? && (body.doc.JNull? || body.doc.JObject?)
    ensures body == Parsed(JNull) ==> r == Success([])
    ensures body.Parsed? && body.doc.JObject? ==> r == Success(body.doc.members)
    ensures body.Unparseable? ==> r == Failure(External(body.reason))
  {
    match body
    case Unparseable(reason) => Failure(External(reason))
    case Parsed(JNull) => Success([])
    case Parsed(JObject(members)) => Success(members)
    case Parsed(doc) =>
      Failure(External("json: cannot unmarshal " + KindName(doc) + " into Go value of type map[string]interface {}"))
  }

  const GooglePrefix: string := "google-oauth2|"

  /** The user id the oauth0 decoder derives from `sub` as the source writes
      it: `strings.TrimLeft` with the prefix as a CUTSET. */
  function OAuth0IdAsWritten(sub: string): (id: string)
    ensures |id| <= |sub| && id == sub[|sub| - |id|..]
    ensures forall i :: 0 <= i < |sub| - |id| ==> sub[i] in GooglePrefix
    ensures |id| > 0 ==> id[0] !in GooglePrefix
  {
    TrimLeft(sub, GooglePrefix)
  }

  /** The id as intended: the provider prefix removed once, if present. */
  function OAuth0Id(sub: string): (id: string)
    ensures GooglePrefix <= sub ==> sub == GooglePrefix + id
    ensures !(GooglePrefix <= sub) ==> id == sub
  {
    TrimPrefix(sub, GooglePrefix)
  }

  /** The six string fields from the claims; permissions are not touched.
      The oauth0 id is the cutset trim of `sub`, as the source writes it. */
  function FromClaims(u: User, members: seq<Member>, d: Decoder): (r: User)
    requires d != JsonDecoder
    ensures r.permissions == u.permissions
  {
    if d == OAuth0Decoder then
      u.(id := OAuth0IdAsWritten(StringClaim(members, "sub")),
         login := StringClaim(members, "nickname"),
         email := StringClaim(members, "email"),
         firstName := StringClaim(members, "given_name"),
         lastName := StringClaim(members, "family_name"),
         fullName := StringClaim(members, "name"))
    else
      u.(id := StringClaim(members, "eduid"),
         login := StringClaim(members, "eduperson_principal_name"),
         email := StringClaim(members, "email"),
         firstName := StringClaim(members, "given_name"),
         lastName := StringClaim(members, "family_name"),
         fullName := StringClaim(members, "name"))
  }

  /** `UnmarshalUserInfo` of each decoder. */
  function Decode(d: Decoder, body: Body, u: User): (r: Decoded)
    ensures d != JsonDecoder ==> (r.err.None? <==> ClaimMap(body).Success?)
    ensures d != JsonDecoder && r.err.Some? ==> r.user == u
    ensures body.Unparseable? ==> r == Decoded(Some(External(body.reason)), u)
  {
    if d == JsonDecoder then UnmarshalUser(body, u)
    else
      match ClaimMap(body)
      case Failure(e) => Decoded(Some(e), u)
      case Success(members) => Decoded(None, FromClaims(u, members, d))
  }

  /** The oauth0 decoder as intended: the same, except that the id is `sub`
      with the provider prefix removed once. */
  function DecodeOAuth0Intended(body: Body, u: User): (r: Decoded)
    ensures r.err == Decode(OAuth0Decoder, body, u).err
    ensures r.err.Some? ==> r.user == u
    ensures r.err.None? ==>
      && r.user.id == OAuth0Id(StringClaim(ClaimMap(body).value, "sub"))
      && r.user.(id := Decode(OAuth0Decoder, body, u).user.id) == Decode(OAuth0Decoder, body, u).user
  {
    match ClaimMap(body)
    case Failure(e) => Decoded(Some(e), u)
    case Success(members) =>
      Decoded(None, FromClaims(u, members, OAuth0Decoder).(id := OAuth0Id(StringClaim(members, "sub"))))
  }

  // ---------------------------------------------------------------------
  // Properties

  /** The document `encoding/json` would produce for a user. */
  function UserDocument(u: User): Json {
    JObject([
      Member("id", JString(u.id)), Member("login", JString(u.login)), Member("email", JString(u.email)),
      Member("fullName", JString(u.fullName)), Member("firstName", JString(u.firstName)),
      Member("lastName", JString(u.lastName)),
      Member("permissions", JArray(StringItems(u.permissions)))])
  }

  function StringItems(ss: seq<string>): (items: seq<Json>)
    ensures |items| == |ss| && forall i :: 0 <= i < |ss| ==> items[i] == JString(ss[i])
  {
    seq(|ss|, i requires 0 <= i < |ss| => JString(ss[i]))
  }

  /** One string member, decoded at position `k`. */
  lemma DecodeStringMemberAt(u: User, ms: seq<Member>, k: nat)
    requires k < |ms| && IsStringTag(ms[k].key) && ms[k].value.JString?
    ensures DecodeMembers(u, ms[k..], None) == DecodeMembers(SetStringField(u, ms[k].key, ms[k].value.s), ms[k + 1..], None)
  {
    assert ms[k..][1..] == ms[k + 1..];
  }

  /** The members of an encoded user set id and login ... */
  lemma DecodeUserDocumentIds(u: User, start: User)
    ensures var ms := UserDocument(u).members;
      DecodeMembers(start, ms, None) == DecodeMembers(start.(id := u.id, login := u.login), ms[2..], None)
  {
    var ms := UserDocument(u).members;
    DecodeStringMemberAt(start, ms, 0);
    DecodeStringMemberAt(start.(id := u.id), ms, 1);
    assert ms[0..] == ms;
  }

  /** ... then email and full name ... */
  lemma DecodeUserDocumentContact(u: User, start: User)
    ensures var ms := UserDocument(u).members;
      DecodeMembers(start, ms[2..], None) == DecodeMembers(start.(email := u.email, fullName := u.fullName), ms[4..], None)
  {
    var ms := UserDocument(u).members;
    DecodeStringMemberAt(start, ms, 2);
    DecodeStringMemberAt(start.(email := u.email), ms, 3);
  }

  /** ... then first and last name. */
  lemma DecodeUserDocumentNames(u: User, start: User)
    ensures var ms := UserDocument(u).members;
      DecodeMembers(start, ms[4..], None) == DecodeMembers(start.(firstName := u.firstName, lastName := u.lastName), ms[6..], None)
  {
    var ms := UserDocument(u).members;
    DecodeStringMemberAt(start, ms, 4);
    DecodeStringMemberAt(start.(firstName := u.firstName), ms, 5);
  }

  /** ... and the permissions array closes the document without error. */
  lemma DecodeUserDocumentTail(u: User, start: User)
    ensures var ms := UserDocument(u).members;
      DecodeMembers(start, ms[6..], None) == Decoded(None, start.(permissions := u.permissions))
  {
    var ms := UserDocument(u).members;
    var (ps, e) := DecodeItems(StringItems(u.permissions), None);
    assert ps == u.permissions && e.None?;
    assert ms[6..][1..] == [];
  }

  /** The JSON decoder reads back every field of an encoded user, whatever
      user it starts from. */
  lemma JsonDecoderRoundTrip(u: User, start: User)
    ensures Decode(JsonDecoder, Parsed(UserDocument(u)), start) == Decoded(None, u)
  {
    var u2 := start.(id := u.id, login := u.login);
    var u4 := u2.(email := u.email, fullName := u.fullName);
    var u6 := u4.(firstName := u.firstName, lastName := u.lastName);
    DecodeUserDocumentIds(u, start);
    DecodeUserDocumentContact(u, u2);
    DecodeUserDocumentNames(u, u4);
    DecodeUserDocumentTail(u, u6);
  }

  /** Every decoder turns an empty object into the empty user without
      error: a claim that is missing reads as "". */
  lemma EmptyObjectDecodesEmpty(d: Decoder)
    ensures Decode(d, Parsed(JObject([])), EmptyUser) == Decoded(None, EmptyUser)
  {
  }

  /** The last string value among the members with key `tag`. */
  function LastString(members: seq<Member>, tag: string): Option<string>
    decreases |members|
  {
    if |members| == 0 then None
    else
      var m := members[|members| - 1];
      if m.key == tag && m.value.JString? then Some(m.value.s)
      else LastString(members[..|members| - 1], tag)
  }

  /** A member is well typed when it decodes without a type error. */
  predicate WellTyped(m: Member) {
    if IsStringTag(m.key) then m.value.JString? || m.value.JNull?
    else if m.key == "permissions" then
      m.value.JNull? || (m.value.JArray? && forall i :: 0 <= i < |m.value.items| ==> m.value.items[i].JString? || m.value.items[i].JNull?)
    else true
  }

  lemma {:induction false} DecodeMembersSnoc(u: User, members: seq<Member>, saved: Option<Error>)
    requires |members| > 0
    ensures var n := |members| - 1;
      var d := DecodeMembers(u, members[..n], saved);
      DecodeMembers(u, members, saved) == DecodeMember(d.user, members[n], d.err)
    decreases |members|
  {
    var n := |members| - 1;
    if n > 0 {
      var d0 := DecodeMember(u, members[0], saved);
      assert members[1..][..n - 1] == members[..n][1..];
      DecodeMembersSnoc(d0.user, members[1..], d0.err);
    }
  }

  /** A string field of the decoded user holds the last string the document
      gave it, and keeps its old value when the document gave it none: a
      member of the wrong kind, or null, does not disturb it. */
  lemma {:induction false} DecodedStringField(u: User, members: seq<Member>, saved: Option<Error>, tag: string)
    requires IsStringTag(tag)
    ensures StringField(DecodeMembers(u, members, saved).user, tag) == LastString(members, tag).GetOr(StringField(u, tag))
    decreases |members|
  {
    if |members| > 0 {
      var n := |members| - 1;
      DecodeMembersSnoc(u, members, saved);
      DecodedStringField(u, members[..n], saved, tag);
      var d := DecodeMembers(u, members[..n], saved);
      MemberStringField(d.user, members[n], d.err, tag);
    }
  }

  /** One member changes a string field only when it is a string under that field's name. */
  lemma MemberStringField(u: User, m: Member, saved: Option<Error>, tag: string)
    requires IsStringTag(tag)
    ensures StringField(DecodeMember(u, m, saved).user, tag)
         == if m.key == tag && m.value.JString? then m.value.s else StringField(u, tag)
  {
  }

  /** The decoder reports no error exactly when every member is well typed. */
  lemma {:induction false} DecodedWithoutError(u: User, members: seq<Member>)
    ensures DecodeMembers(u, members, None).err.None? <==> forall i :: 0 <= i < |members| ==> WellTyped(members[i])
    decreases |members|
  {
    if |members| > 0 {
      var n := |members| - 1;
      DecodeMembersSnoc(u, members, None);
      DecodedWithoutError(u, members[..n]);
      var d := DecodeMembers(u, members[..n], None);
      MemberError(d.user, members[n], d.err);
      assert forall i :: 0 <= i < n ==> members[..n][i] == members[i];
    }
  }

  /** One member keeps the decoder free of errors exactly when it is well typed. */
  lemma MemberError(u: User, m: Member, saved: Option<Error>)
    ensures DecodeMember(u, m, saved).err.None? <==> saved.None? && WellTyped(m)
  {
    if m.key == "permissions" && m.value.JArray? {
      var r := DecodeItems(m.value.items, saved);
    }
  }

  /** The claims an oauth0 provider sends for a Google account. */
  function GoogleClaims(u: User): seq<Member> {
    [Member("sub", JString(GooglePrefix + u.id)), Member("nickname", JString(u.login)),
     Member("email", JString(u.email)), Member("given_name", JString(u.firstName)),
     Member("family_name", JString(u.lastName)), Member("name", JString(u.fullName))]
  }

  /** The oauth0 decoder as written recovers the names from Google claims,
      and the id with its leading prefix characters trimmed: exactly the id
      when it does not start with one of them, and a shorter one when it
      does. */
  lemma OAuth0DecoderRoundTrip(u: User, start: User)
    ensures Decode(OAuth0Decoder, Parsed(JObject(GoogleClaims(u))), start)
         == Decoded(None, u.(id := OAuth0IdAsWritten(u.id), permissions := start.permissions))
    ensures (|u.id| == 0 || u.id[0] !in GooglePrefix) ==>
      Decode(OAuth0Decoder, Parsed(JObject(GoogleClaims(u))), start) == Decoded(None, u.(permissions := start.permissions))
    ensures |u.id| > 0 && u.id[0] in GooglePrefix ==>
      Decode(OAuth0Decoder, Parsed(JObject(GoogleClaims(u))), start).user.id != u.id
  {
    GoogleClaimsRead(u);
    OAuth0IdAsWrittenOfGoogleSubject(u.id);
    assert FromClaims(start, GoogleClaims(u), OAuth0Decoder)
        == u.(id := OAuth0IdAsWritten(u.id), permissions := start.permissions);
  }

  /** The intended oauth0 decoder recovers the account id and the names
      from Google claims, for every user. */
  lemma OAuth0IntendedDecoderRoundTrip(u: User, start: User)
    ensures DecodeOAuth0Intended(Parsed(JObject(GoogleClaims(u))), start)
         == Decoded(None, u.(permissions := start.permissions))
  {
    GoogleClaimsRead(u);
    OAuth0IdOfGoogleSubject(u.id);
  }

  /** What the claim map of Google claims holds under each claim. */
  lemma GoogleClaimsRead(u: User)
    ensures var ms := GoogleClaims(u);
      && ClaimMap(Parsed(JObject(ms))) == Success(ms)
      && StringClaim(ms, "sub") == GooglePrefix + u.id && StringClaim(ms, "nickname") == u.login
      && StringClaim(ms, "email") == u.email && StringClaim(ms, "given_name") == u.firstName
      && StringClaim(ms, "family_name") == u.lastName && StringClaim(ms, "name") == u.fullName
  {
    var ms := GoogleClaims(u);
    MapValueAt(ms, 0, "sub");
    MapValueAt(ms, 1, "nickname");
    MapValueAt(ms, 2, "email");
    MapValueAt(ms, 3, "given_name");
    MapValueAt(ms, 4, "family_name");
    MapValueAt(ms, 5, "name");
  }

  /** As written, the provider prefix is trimmed together with any leading
      characters of the id that belong to it; an id starting with none of
      them comes back whole. */
  lemma OAuth0IdAsWrittenOfGoogleSubject(id: string)
    ensures OAuth0IdAsWritten(GooglePrefix + id) == OAuth0IdAsWritten(id)
    ensures (|id| == 0 || id[0] !in GooglePrefix) ==> OAuth0IdAsWritten(GooglePrefix + id) == id
    ensures |id| > 0 && id[0] in GooglePrefix ==> |OAuth0IdAsWritten(GooglePrefix + id)| < |id|
  {
    TrimLeftDropsCutset(GooglePrefix, id, GooglePrefix);
  }

  lemma OAuth0IdOfGoogleSubject(id: string)
    ensures OAuth0Id(GooglePrefix + id) == id
  {
    assert GooglePrefix <= GooglePrefix + id;
  }

  /** With the cutset trim the source writes, the same round trip fails:
      a Google account whose id starts with a character of the prefix
      loses that character. */
  lemma OAuth0IdAsWrittenLosesDigits()
    ensures OAuth0IdAsWritten(GooglePrefix + "2024") == "024"
    ensures OAuth0Id(GooglePrefix + "2024") == "2024"
    ensures OAuth0IdAsWritten("hello") == ""
  {
    var s := GooglePrefix + "2024";
    assert s[|GooglePrefix|] == '2' && '2' in GooglePrefix;
    assert s[|GooglePrefix| + 1] == '0' && '0' !in GooglePrefix;
    var id := OAuth0IdAsWritten(s);
    assert |id| == |s| - |GooglePrefix| - 1;
    assert id == s[|GooglePrefix| + 1..] == "024";
    assert "hello"[0] in GooglePrefix && "hello"[1] in GooglePrefix && "hello"[2] in GooglePrefix;
    assert "hello"[4] in GooglePrefix;
  }

  /** The claims a SURFconext provider sends. */
  function SurfClaims(u: User): seq<Member> {
    [Member("eduid", JString(u.id)), Member("eduperson_principal_name", JString(u.login)),
     Member("email", JString(u.email)), Member("given_name", JString(u.firstName)),
     Member("family_name", JString(u.lastName)), Member("name", JString(u.fullName))]
  }

  lemma SurfDecoderRoundTrip(u: User, start: User)
    ensures Decode(SurfDecoder, Parsed(JObject(SurfClaims(u))), start)
         == Decoded(None, u.(permissions := start.permissions))
  {
    var ms := SurfClaims(u);
    MapValueAt(ms, 0, "eduid");
    MapValueAt(ms, 1, "eduperson_principal_name");
    MapValueAt(ms, 2, "email");
    MapValueAt(ms, 3, "given_name");
    MapValueAt(ms, 4, "family_name");
    MapValueAt(ms, 5, "name");
  }
}
