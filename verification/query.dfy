/** `net/url` query handling: `QueryEscape`/`QueryUnescape`, `url.Values`
    with `Add`, `Set` and `Encode`, and the parsing behind `URL.Query()`.
    Escaping works on characters: an ASCII character outside the unreserved
    set becomes `%XX`, a space becomes `+`, and a non-ASCII character is kept
    as it is (Go would percent-encode its UTF-8 bytes). */
module Query {
  import opened Wrappers
  import opened Strs

  // ---------------------------------------------------------------------
  // Escaping

  const HexDigits: string := "0123456789ABCDEF"

  function HexDigit(n: int): (c: char)
    requires 0 <= n < 16
    ensures IsHex(c) && HexValue(c) == n
  {
    if n < 10 then ('0' as int + n) as char else ('A' as int + n - 10) as char
  }

  predicate IsHex(c: char) {
    '0' <= c <= '9' || 'a' <= c <= 'f' || 'A' <= c <= 'F'
  }

  function HexValue(c: char): (n: int)
    requires IsHex(c)
    ensures 0 <= n < 16
  {
    if '0' <= c <= '9' then c as int - '0' as int
    else if 'a' <= c <= 'f' then c as int - 'a' as int + 10
    else c as int - 'A' as int + 10
  }

  /** Characters a query component keeps as they are: letters, digits,
      `-`, `_`, `.`, `~` (section 2.3 of RFC 3986), and non-ASCII ones. */
  predicate Unreserved(c: char) {
    IsAlphaNumeric(c) || c == '-' || c == '_' || c == '.' || c == '~' || c >= 128 as char
  }

  function EscapeChar(c: char): (r: string)
    ensures 1 <= |r| <= 3
    ensures Unreserved(c) ==> r == [c]
    ensures c == ' ' ==> r == "+"
    ensures !Unreserved(c) && c != ' ' ==>
      |r| == 3 && r[0] == '%' && IsHex(r[1]) && IsHex(r[2]) && 16 * HexValue(r[1]) + HexValue(r[2]) == c as int
  {
    if Unreserved(c) then [c]
    else if c == ' ' then "+"
    else ['%', HexDigit(c as int / 16), HexDigit(c as int % 16)]
  }

  /** `url.QueryEscape`. */
  function QueryEscape(s: string): (r: string)
    ensures forall i :: 0 <= i < |r| ==> Unreserved(r[i]) || r[i] == '%' || r[i] == '+' || IsHex(r[i])
    decreases |s|
  {
    if |s| == 0 then "" else EscapeChar(s[0]) + QueryEscape(s[1..])
  }

  /** `url.QueryUnescape`: `+` is a space, `%XX` the character with that code;
      a `%` not followed by two hex digits makes the whole text invalid. */
  function QueryUnescape(s: string): (r: Option<string>)
    decreases |s|
  {
    if |s| == 0 then Some("")
    else if s[0] == '%' then
      if |s| < 3 || !IsHex(s[1]) || !IsHex(s[2]) then None
      else
        match QueryUnescape(s[3..])
        case None => None
        case Some(t) => Some([(16 * HexValue(s[1]) + HexValue(s[2])) as char] + t)
    else
      match QueryUnescape(s[1..])
      case None => None
      case Some(t) => Some([if s[0] == '+' then ' ' else s[0]] + t)
  }

  lemma {:induction false} UnescapeAfterChar(c: char, t: string)
    ensures QueryUnescape(EscapeChar(c) + t)
         == match QueryUnescape(t) case None => None case Some(u) => Some([c] + u)
  {
    var e := EscapeChar(c);
    if Unreserved(c) || c == ' ' {
      assert (e + t)[1..] == t;
    } else {
      assert (e + t)[3..] == t;
    }
  }

  /** Unescaping undoes escaping, for every text. */
  lemma {:induction false} UnescapeEscape(s: string)
    ensures QueryUnescape(QueryEscape(s)) == Some(s)
    decreases |s|
  {
    if |s| > 0 {
      var rest := QueryEscape(s[1..]);
      assert QueryEscape(s) == EscapeChar(s[0]) + rest;
      UnescapeAfterChar(s[0], rest);
      UnescapeEscape(s[1..]);
      assert [s[0]] + s[1..] == s;
    }
  }

  /** An escaped component holds none of the query's own delimiters, no
      `#` or `?`, and no control character. */
  lemma EscapedHasNoDelimiters(s: string)
    ensures '&' !in QueryEscape(s) && '=' !in QueryEscape(s) && ';' !in QueryEscape(s)
    ensures '#' !in QueryEscape(s) && '?' !in QueryEscape(s)
    ensures !HasControl(QueryEscape(s))
  {
  }

  // ---------------------------------------------------------------------
  // url.Values

  /** One key of a `url.Values` map with its values in insertion order. */
  datatype Entry = Entry(key: string, values: seq<string>)

  /** A `url.Values` map, kept as its entries in increasing key order. */
  type Values = seq<Entry>

  /** The representation invariant: keys strictly increasing, no key without values. */
  ghost predicate Valid(v: Values) {
    && (forall i, j :: 0 <= i < j < |v| ==> Less(v[i].key, v[j].key))
    && (forall i :: 0 <= i < |v| ==> |v[i].values| > 0)
  }

  /** `v[k]`: the values of a key, empty when the key is absent. */
  function Lookup(v: Values, k: string): seq<string>
    decreases |v|
  {
    if |v| == 0 then [] else if v[0].key == k then v[0].values else Lookup(v[1..], k)
  }

  /** `Values.Get`: the first value, or "". */
  function Get(v: Values, k: string): string {
    var vs := Lookup(v, k);
    if |vs| == 0 then "" else vs[0]
  }

  ghost predicate AllBelow(v: Values, k: string) {
    forall i :: 0 <= i < |v| ==> Less(v[i].key, k)
  }

  lemma {:induction false} LookupAbsent(v: Values, k: string)
    requires forall i :: 0 <= i < |v| ==> v[i].key != k
    ensures Lookup(v, k) == []
    decreases |v|
  {
    if |v| > 0 {
      LookupAbsent(v[1..], k);
    }
  }

  /** Inserts or changes one key, keeping the order; `update` gives the new
      values from the old ones (empty when the key is new). */
  function Upsert(v: Values, k: string, update: seq<string> -> seq<string>): (r: Values)
    decreases |v|
  {
    if |v| == 0 then [Entry(k, update([]))]
    else if v[0].key == k then [Entry(k, update(v[0].values))] + v[1..]
    else if Less(k, v[0].key) then [Entry(k, update([]))] + v
    else [v[0]] + Upsert(v[1..], k, update)
  }

  lemma {:induction false} UpsertKeys(v: Values, k: string, update: seq<string> -> seq<string>)
    requires Valid(v)
    ensures var r := Upsert(v, k, update);
      forall i :: 0 <= i < |r| ==> r[i].key == k || exists j :: 0 <= j < |v| && v[j].key == r[i].key
    ensures |Upsert(v, k, update)| > 0 && exists i :: 0 <= i < |Upsert(v, k, update)| && Upsert(v, k, update)[i].key == k
    decreases |v|
  {
    var r := Upsert(v, k, update);
    if |v| > 0 && v[0].key != k && !Less(k, v[0].key) {
      UpsertKeys(v[1..], k, update);
      var r' := Upsert(v[1..], k, update);
      assert r == [v[0]] + r';
      forall i | 0 <= i < |r| ensures r[i].key == k || exists j :: 0 <= j < |v| && v[j].key == r[i].key {
        if i > 0 {
          assert r[i] == r'[i - 1];
          if r'[i - 1].key != k {
            var j :| 0 <= j < |v[1..]| && v[1..][j].key == r'[i - 1].key;
            assert v[j + 1].key == r[i].key;
          }
        } else {
          assert v[0].key == r[0].key;
        }
      }
      var i :| 0 <= i < |r'| && r'[i].key == k;
      assert r[i + 1].key == k;
    } else {
      assert r[0].key == k;
    }
  }

  lemma {:induction false} UpsertValid(v: Values, k: string, update: seq<string> -> seq<string>)
    requires Valid(v)
    requires forall prev :: |update(prev)| > 0
    ensures Valid(Upsert(v, k, update))
    decreases |v|
  {
    if |v| == 0 {
    } else if v[0].key == k {
    } else if Less(k, v[0].key) {
      UpsertValidInFront(v, k, update);
    } else {
      UpsertValid(v[1..], k, update);
      UpsertValidBehind(v, k, update);
    }
  }

  /** A key below the first one goes in front. */
  lemma UpsertValidInFront(v: Values, k: string, update: seq<string> -> seq<string>)
    requires Valid(v) && |v| > 0 && Less(k, v[0].key)
    requires forall prev :: |update(prev)| > 0
    ensures Valid(Upsert(v, k, update))
  {
    LessIrreflexive(k);
    var r := Upsert(v, k, update);
    assert r == [Entry(k, update([]))] + v;
    forall i, j | 0 <= i < j < |r| ensures Less(r[i].key, r[j].key) {
      if i == 0 && j > 1 {
        LessTransitive(k, v[0].key, v[j - 1].key);
      }
    }
  }

  /** A key above the first one goes behind it, into the rest. */
  lemma UpsertValidBehind(v: Values, k: string, update: seq<string> -> seq<string>)
    requires Valid(v) && |v| > 0 && v[0].key != k && !Less(k, v[0].key)
    requires Valid(Upsert(v[1..], k, update))
    ensures Valid(Upsert(v, k, update))
  {
    LessTotal(k, v[0].key);
    UpsertKeys(v[1..], k, update);
    var r := Upsert(v, k, update);
    var r' := Upsert(v[1..], k, update);
    assert r == [v[0]] + r';
    forall i, j | 0 <= i < j < |r| ensures Less(r[i].key, r[j].key) {
      if i == 0 {
        if r'[j - 1].key != k {
          var m :| 0 <= m < |v[1..]| && v[1..][m].key == r'[j - 1].key;
          assert v[m + 1].key == r[j].key;
        }
      }
    }
  }

  lemma {:induction false} UpsertLookup(v: Values, k: string, update: seq<string> -> seq<string>, other: string)
    requires Valid(v)
    ensures Lookup(Upsert(v, k, update), k) == update(Lookup(v, k))
    ensures other != k ==> Lookup(Upsert(v, k, update), other) == Lookup(v, other)
    decreases |v|
  {
    if |v| == 0 {
    } else if v[0].key == k {
    } else if Less(k, v[0].key) {
      forall i | 0 <= i < |v| ensures v[i].key != k {
        if i > 0 {
          LessTransitive(k, v[0].key, v[i].key);
        }
        LessIrreflexive(k);
      }
      LookupAbsent(v, k);
    } else {
      UpsertLookup(v[1..], k, update, other);
    }
  }

  function Append(x: string): seq<string> -> seq<string> {
    prev => prev + [x]
  }

  function Replace(x: string): seq<string> -> seq<string> {
    _ => [x]
  }

  /** `Values.Add`. */
  function Add(v: Values, k: string, x: string): (r: Values)
    requires Valid(v)
    ensures Valid(r)
    ensures Lookup(r, k) == Lookup(v, k) + [x]
    ensures forall other :: other != k ==> Lookup(r, other) == Lookup(v, other)
  {
    UpsertValid(v, k, Append(x));
    UpsertLookup(v, k, Append(x), k);
    forall other | other != k ensures Lookup(Upsert(v, k, Append(x)), other) == Lookup(v, other) {
      UpsertLookup(v, k, Append(x), other);
    }
    Upsert(v, k, Append(x))
  }

  /** `Values.Set`. */
  function Set(v: Values, k: string, x: string): (r: Values)
    requires Valid(v)
    ensures Valid(r)
    ensures Lookup(r, k) == [x]
    ensures forall other :: other != k ==> Lookup(r, other) == Lookup(v, other)
  {
    UpsertValid(v, k, Replace(x));
    UpsertLookup(v, k, Replace(x), k);
    forall other | other != k ensures Lookup(Upsert(v, k, Replace(x)), other) == Lookup(v, other) {
      UpsertLookup(v, k, Replace(x), other);
    }
    Upsert(v, k, Replace(x))
  }

  /** Two valid maps that agree on every key are the same map. */
  lemma {:induction false} ValidExtensional(a: Values, b: Values)
    requires Valid(a) && Valid(b)
    requires forall k :: Lookup(a, k) == Lookup(b, k)
    ensures a == b
    decreases |a|
  {
    if |a| == 0 && |b| > 0 {
      LookupFirst(b);
      assert false;
    } else if |a| > 0 && |b| == 0 {
      LookupFirst(a);
      assert false;
    } else if |a| > 0 {
      var ka, kb := a[0].key, b[0].key;
      if ka != kb {
        LessTotal(ka, kb);
        if Less(ka, kb) {
          KeysAboveFirst(b, ka);
        } else {
          KeysAboveFirst(a, kb);
        }
        assert false;
      }
      assert a[0] == b[0] by {
        assert Lookup(a, ka) == a[0].values && Lookup(b, kb) == b[0].values;
      }
      forall k ensures Lookup(a[1..], k) == Lookup(b[1..], k) {
        if k == ka {
          assert forall i :: 0 <= i < |a[1..]| ==> Less(ka, a[1..][i].key) by {
            forall i | 0 <= i < |a[1..]| ensures Less(ka, a[1..][i].key) {
              assert a[1..][i] == a[i + 1];
            }
          }
          assert forall i :: 0 <= i < |b[1..]| ==> Less(ka, b[1..][i].key) by {
            forall i | 0 <= i < |b[1..]| ensures Less(ka, b[1..][i].key) {
              assert b[1..][i] == b[i + 1];
            }
          }
          KeysAboveFirst(a[1..], ka);
          KeysAboveFirst(b[1..], ka);
        } else {
          assert Lookup(a, k) == Lookup(a[1..], k);
          assert Lookup(b, k) == Lookup(b[1..], k);
        }
      }
      ValidExtensional(a[1..], b[1..]);
    }
  }

  lemma LookupFirst(v: Values)
    requires Valid(v) && |v| > 0
    ensures Lookup(v, v[0].key) == v[0].values != []
  {
  }

  /** A key below the first key of a valid map, or the first key of a map
      whose other keys are larger, has no values in the rest. */
  lemma KeysAboveFirst(v: Values, k: string)
    requires Valid(v)
    requires (|v| > 0 && Less(k, v[0].key)) || (forall i :: 0 <= i < |v| ==> Less(k, v[i].key))
    ensures Lookup(v, k) == []
  {
    forall i | 0 <= i < |v| ensures v[i].key != k {
      if i > 0 && Less(k, v[0].key) {
        LessTransitive(k, v[0].key, v[i].key);
      }
      LessIrreflexive(k);
    }
    LookupAbsent(v, k);
  }

  // ---------------------------------------------------------------------
  // Encoding and parsing

  /** One `key=value` of a query, unescaped. */
  datatype QueryPair = QueryPair(key: string, value: string)

  /** The values of `k` among `ps`, in order. */
  function Project(ps: seq<QueryPair>, k: string): (r: seq<string>)
    ensures |r| <= |ps|
    decreases |ps|
  {
    if |ps| == 0 then []
    else (if ps[0].key == k then [ps[0].value] else []) + Project(ps[1..], k)
  }

  lemma {:induction false} ProjectConcat(a: seq<QueryPair>, b: seq<QueryPair>, k: string)
    ensures Project(a + b, k) == Project(a, k) + Project(b, k)
    decreases |a|
  {
    if |a| == 0 {
      assert a + b == b;
    } else {
      assert (a + b)[1..] == a[1..] + b;
      ProjectConcat(a[1..], b, k);
    }
  }

  /** The pairs of one key, in the order of its values. */
  function EntryPairs(e: Entry): (ps: seq<QueryPair>)
    ensures |ps| == |e.values|
    ensures forall i :: 0 <= i < |ps| ==> ps[i] == QueryPair(e.key, e.values[i])
  {
    seq(|e.values|, i requires 0 <= i < |e.values| => QueryPair(e.key, e.values[i]))
  }

  /** The pairs of a map: keys in increasing order, each key's values in order. */
  function Flatten(v: Values): seq<QueryPair>
    decreases |v|
  {
    if |v| == 0 then [] else EntryPairs(v[0]) + Flatten(v[1..])
  }

  lemma {:induction false} ProjectEntryPairs(e: Entry, k: string)
    ensures Project(EntryPairs(e), k) == if e.key == k then e.values else []
    decreases |e.values|
  {
    var ps := EntryPairs(e);
    if |ps| > 0 {
      var e' := Entry(e.key, e.values[1..]);
      assert ps[1..] == EntryPairs(e');
      ProjectEntryPairs(e', k);
      assert e.values == [e.values[0]] + e.values[1..];
    }
  }

  /** Flattening keeps every key's values: the projection on a key is its lookup. */
  lemma {:induction false} ProjectFlatten(v: Values, k: string)
    requires Valid(v)
    ensures Project(Flatten(v), k) == Lookup(v, k)
    decreases |v|
  {
    if |v| > 0 {
      ProjectConcat(EntryPairs(v[0]), Flatten(v[1..]), k);
      ProjectEntryPairs(v[0], k);
      ProjectFlatten(v[1..], k);
      if v[0].key == k {
        KeysAboveFirst(v[1..], k);
      }
    }
  }

  function PairText(p: QueryPair): string {
    QueryEscape(p.key) + "=" + QueryEscape(p.value)
  }

  function JoinPairs(ps: seq<QueryPair>): string
    decreases |ps|
  {
    if |ps| == 0 then ""
    else if |ps| == 1 then PairText(ps[0])
    else PairText(ps[0]) + "&" + JoinPairs(ps[1..])
  }

  /** `Values.Encode`: escaped `key=value` pairs joined by `&`, keys in
      increasing order, each key's values in insertion order. */
  function Encode(v: Values): (text: string)
    ensures v == [] ==> text == ""
  {
    JoinPairs(Flatten(v))
  }

  /** One `&`-separated piece of a query: a piece holding `;` or empty is
      skipped; so is one whose key or value does not unescape. */
  function ParsePiece(piece: string): (r: Option<QueryPair>)
    ensures r.Some? ==> ';' !in piece && piece != ""
  {
    if ';' in piece || piece == "" then None
    else
      var c := CutAt(piece, '=');
      match (QueryUnescape(c.before), QueryUnescape(c.after))
      case (Some(k), Some(x)) => Some(QueryPair(k, x))
      case _ => None
  }

  /** The loop of `url.parseQuery`, keeping the pairs it appends. */
  function ParsePairs(text: string): seq<QueryPair>
    decreases |text|
  {
    if |text| == 0 then []
    else
      var c := CutAt(text, '&');
      PieceList(c.before) + ParsePairs(c.after)
  }

  function PieceList(piece: string): seq<QueryPair> {
    match ParsePiece(piece)
    case Some(p) => [p]
    case None => []
  }

  /** Folds `Values.Add` over the pairs, from left to right. */
  function AddAll(acc: Values, ps: seq<QueryPair>): (r: Values)
    requires Valid(acc)
    ensures Valid(r)
    ensures forall k :: Lookup(r, k) == Lookup(acc, k) + Project(ps, k)
    decreases |ps|
  {
    if |ps| == 0 then acc
    else
      var r := AddAll(Add(acc, ps[0].key, ps[0].value), ps[1..]);
      assert forall k :: Lookup(r, k) == Lookup(acc, k) + Project(ps, k) by {
        forall k ensures Lookup(r, k) == Lookup(acc, k) + Project(ps, k) {
          assert Project(ps, k) == (if ps[0].key == k then [ps[0].value] else []) + Project(ps[1..], k);
        }
      }
      r
  }

  /** `URL.Query()`: the parsed pairs added in order; errors are dropped. */
  function ParseQuery(text: string): (v: Values)
    ensures Valid(v)
    ensures forall k :: Lookup(v, k) == Project(ParsePairs(text), k)
  {
    AddAll([], ParsePairs(text))
  }

  lemma ParsePieceOfPair(p: QueryPair)
    ensures ParsePiece(PairText(p)) == Some(p)
  {
    var k, x := QueryEscape(p.key), QueryEscape(p.value);
    EscapedHasNoDelimiters(p.key);
    EscapedHasNoDelimiters(p.value);
    assert PairText(p) == k + ['='] + x;
    assert PairText(p)[|k|] == '=';
    CutAtFirst(k, x, '=');
    UnescapeEscape(p.key);
    UnescapeEscape(p.value);
  }

  /** Parsing an encoded pair list gives the pairs back. */
  lemma {:induction false} ParseJoinPairs(ps: seq<QueryPair>)
    ensures ParsePairs(JoinPairs(ps)) == ps
    decreases |ps|
  {
    if |ps| == 1 {
      var t := PairText(ps[0]);
      EscapedHasNoDelimiters(ps[0].key);
      EscapedHasNoDelimiters(ps[0].value);
      assert '&' !in t;
      assert |t| > 0 && CutAt(t, '&') == Cut(t, "", false);
      ParsePieceOfPair(ps[0]);
    } else if |ps| > 1 {
      var t := PairText(ps[0]);
      EscapedHasNoDelimiters(ps[0].key);
      EscapedHasNoDelimiters(ps[0].value);
      assert '&' !in t;
      CutAtFirst(t, JoinPairs(ps[1..]), '&');
      ParsePieceOfPair(ps[0]);
      ParseJoinPairs(ps[1..]);
    }
  }

  /** `Query()` of `Encode()` is the map that was encoded. */
  lemma ParseEncode(v: Values)
    requires Valid(v)
    ensures ParseQuery(Encode(v)) == v
  {
    ParseJoinPairs(Flatten(v));
    forall k ensures Lookup(ParseQuery(Encode(v)), k) == Lookup(v, k) {
      ProjectFlatten(v, k);
    }
    ValidExtensional(ParseQuery(Encode(v)), v);
  }

  /** Every character of an encoded query is unreserved, an escape, a space
      marker, `=` or `&`: no `#`, no `?` and no control character. */
  lemma {:induction false} EncodedHasNoDelimiters(ps: seq<QueryPair>)
    ensures '#' !in JoinPairs(ps) && '?' !in JoinPairs(ps) && !HasControl(JoinPairs(ps))
    decreases |ps|
  {
    if |ps| > 0 {
      EscapedHasNoDelimiters(ps[0].key);
      EscapedHasNoDelimiters(ps[0].value);
      EncodedHasNoDelimiters(ps[1..]);
      assert forall i :: 0 <= i < |PairText(ps[0])| ==> !IsControl(PairText(ps[0])[i]);
      assert forall i :: 0 <= i < |JoinPairs(ps[1..])| ==> !IsControl(JoinPairs(ps[1..])[i]);
    }
  }

  /** Parsing a query whose first `&` follows `before`. */
  lemma ParsePairsSplit(before: string, after: string)
    requires '&' !in before
    ensures ParsePairs(before + "&" + after) == PieceList(before) + ParsePairs(after)
  {
    CutAtFirst(before, after, '&');
  }

  /** Appending `&` and more text to a query appends the pairs of that text. */
  lemma {:induction false} ParsePairsConcat(a: string, b: string)
    ensures ParsePairs(a + "&" + b) == ParsePairs(a) + ParsePairs(b)
    decreases |a|
  {
    if '&' in a {
      var i := IndexOf(a, '&');
      var before, after := a[..i], a[i + 1..];
      SplitAround(a, i);
      ParsePairsConcat(after, b);
      ParsePairsConcatFirst(before, after, b);
    } else {
      ParsePairsConcatLast(a, b);
    }
  }

  lemma SplitAround(a: string, i: int)
    requires 0 <= i < |a|
    ensures a == a[..i] + [a[i]] + a[i + 1..]
  {
  }

  lemma ParsePairsConcatFirst(before: string, after: string, b: string)
    requires '&' !in before
    requires ParsePairs(after + "&" + b) == ParsePairs(after) + ParsePairs(b)
    ensures ParsePairs(before + "&" + after + "&" + b) == ParsePairs(before + "&" + after) + ParsePairs(b)
  {
    var tail := after + "&" + b;
    ConcatAssoc(before, after, b);
    ParsePairsSplit(before, tail);
    ParsePairsSplit(before, after);
    var p, pa, pb := PieceList(before), ParsePairs(after), ParsePairs(b);
    calc {
      ParsePairs(before + "&" + after + "&" + b);
      ParsePairs(before + "&" + tail);
      p + (pa + pb);
      { PairsAssoc(p, pa, pb); }
      (p + pa) + pb;
      ParsePairs(before + "&" + after) + pb;
    }
  }

  lemma PairsAssoc(a: seq<QueryPair>, b: seq<QueryPair>, c: seq<QueryPair>)
    ensures a + (b + c) == (a + b) + c
  {
  }

  lemma ConcatAssoc(before: string, after: string, b: string)
    ensures before + "&" + after + "&" + b == before + "&" + (after + "&" + b)
  {
  }

  lemma ParsePairsConcatLast(a: string, b: string)
    requires '&' !in a
    ensures ParsePairs(a + "&" + b) == ParsePairs(a) + ParsePairs(b)
  {
    ParsePairsSplit(a, b);
    ParsePairsOnePiece(a);
  }

  /** A query without `&` is one piece. */
  lemma ParsePairsOnePiece(a: string)
    requires '&' !in a
    ensures ParsePairs(a) == PieceList(a)
  {
    if |a| > 0 {
      var c := CutAt(a, '&');
      assert c.before == a && c.after == "";
    }
  }

  /** A non-empty map encodes to non-empty text. */
  lemma EncodeNonEmpty(v: Values)
    requires Valid(v) && v != []
    ensures Encode(v) != ""
  {
    var ps := Flatten(v);
    assert ps == EntryPairs(v[0]) + Flatten(v[1..]);
    assert |ps| > 0;
    assert |PairText(ps[0])| > 0;
  }

  /** Appending an encoded map after `&` appends its values to every key. */
  lemma ParseAppendEncoded(q: string, v: Values)
    requires Valid(v)
    ensures forall k :: Lookup(ParseQuery(q + "&" + Encode(v)), k) == Lookup(ParseQuery(q), k) + Lookup(v, k)
  {
    ParsePairsConcat(q, Encode(v));
    ParseEncode(v);
    forall k ensures Lookup(ParseQuery(q + "&" + Encode(v)), k) == Lookup(ParseQuery(q), k) + Lookup(v, k) {
      ProjectConcat(ParsePairs(q), ParsePairs(Encode(v)), k);
    }
  }
}
