/** A parsed JSON document.  Objects keep their members in document order,
    duplicates included; numbers are integers. */
module Json {
  import opened Wrappers

  datatype Json =
    | JNull
    | JBool(b: bool)
    | JNumber(n: int)
    | JString(s: string)
    | JArray(items: seq<Json>)
    | JObject(members: seq<Member>)

  datatype Member = Member(key: string, value: Json)

  /** The word `encoding/json` uses for a value's kind in its type errors. */
  function KindName(j: Json): string {
    match j
    case JNull => "null"
    case JBool(_) => "bool"
    case JNumber(_) => "number"
    case JString(_) => "string"
    case JArray(_) => "array"
    case JObject(_) => "object"
  }

  /** The value a `map[string]interface{}` holds for `key` after decoding
      the members: the last occurrence wins. */
  function MapValue(members: seq<Member>, key: string): (r: Option<Json>)
    decreases |members|
  {
    if |members| == 0 then None
    else
      var last := members[|members| - 1];
      if last.key == key then Some(last.value)
      else MapValue(members[..|members| - 1], key)
  }

  /** The map holds a key exactly when some member has it, and then holds
      the value of the last such member. */
  lemma {:induction false} MapValueSpec(members: seq<Member>, key: string)
    ensures var r := MapValue(members, key);
      && (r.Some? <==> exists i :: 0 <= i < |members| && members[i].key == key)
      && (r.Some? ==> exists i :: (0 <= i < |members| && members[i] == Member(key, r.value)
                                   && forall j :: i < j < |members| ==> members[j].key != key))
    decreases |members|
  {
    if |members| > 0 && members[|members| - 1].key != key {
      var init := members[..|members| - 1];
      MapValueSpec(init, key);
      assert forall i :: 0 <= i < |init| ==> init[i] == members[i];
    }
  }

  /** `m[key].(string)` with the comma-ok result dropped: the string, or ""
      for a missing key and for any other kind of value. */
  function StringClaim(members: seq<Member>, key: string): (s: string)
    ensures var v := MapValue(members, key); v.Some? && v.value.JString? ==> s == v.value.s
    ensures var v := MapValue(members, key); !(v.Some? && v.value.JString?) ==> s == ""
  {
    match MapValue(members, key)
    case Some(JString(x)) => x
    case _ => ""
  }

  /** A key's map value is the value of its last member. */
  lemma {:induction false} MapValueAt(members: seq<Member>, i: int, key: string)
    requires 0 <= i < |members| && members[i].key == key
    requires forall j :: i < j < |members| ==> members[j].key != key
    ensures MapValue(members, key) == Some(members[i].value)
    decreases |members|
  {
    if i < |members| - 1 {
      var init := members[..|members| - 1];
      MapValueAt(init, i, key);
    }
  }
}
