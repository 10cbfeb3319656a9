/** The pieces of Go's `strings`, `strconv` and byte-slice handling that the
    gateway relies on, over `string = seq<char>`. */
module Strs {

  /** A Go `byte`. */
  type byte = b: int | 0 <= b < 256

  predicate IsAlphaNumeric(c: char) {
    'A' <= c <= 'Z' || 'a' <= c <= 'z' || '0' <= c <= '9'
  }

  /** `n` consecutive code points starting at `lo`. */
  function CharRange(lo: char, n: nat): (r: string)
    requires lo as int + n <= 0xD800
    ensures |r| == n
    ensures forall i :: 0 <= i < n ==> r[i] == (lo as int + i) as char
  {
    if n == 0 then [] else CharRange(lo, n - 1) + [(lo as int + n - 1) as char]
  }

  /** "ABC...XYZabc...xyz0123456789": upper-case letters, lower-case letters,
      then digits. */
  const AlphaNumerics: string := CharRange('A', 26) + CharRange('a', 26) + CharRange('0', 10)

  lemma AlphaNumericsAreAlphaNumeric()
    ensures |AlphaNumerics| == 62
    ensures forall i :: 0 <= i < |AlphaNumerics| ==> IsAlphaNumeric(AlphaNumerics[i])
  {
  }

  /** `strings.Join`. */
  function Join(parts: seq<string>, sep: string): string
    decreases |parts|
  {
    if |parts| == 0 then ""
    else if |parts| == 1 then parts[0]
    else parts[0] + sep + Join(parts[1..], sep)
  }

  /** Index of the first occurrence of `c`, or -1 (`strings.IndexByte`). */
  function IndexOf(s: string, c: char): (i: int)
    ensures -1 <= i < |s|
    ensures 0 <= i ==> s[i] == c && c !in s[..i]
    ensures i == -1 <==> c !in s
    decreases |s|
  {
    if |s| == 0 then -1
    else if s[0] == c then 0
    else
      var j := IndexOf(s[1..], c);
      assert s[1..] == s[1..][..];
      if j == -1 then -1
      else
        assert s[..j + 1] == [s[0]] + s[1..][..j];
        j + 1
  }

  /** `strings.Cut` on a one-character separator. */
  datatype Cut = Cut(before: string, after: string, found: bool)

  function CutAt(s: string, sep: char): (r: Cut)
    ensures r.found <==> sep in s
    ensures r.found ==> s == r.before + [sep] + r.after && sep !in r.before
    ensures !r.found ==> r.before == s && r.after == ""
  {
    var i := IndexOf(s, sep);
    if i == -1 then Cut(s, "", false)
    else
      assert s == s[..i] + [sep] + s[i + 1..];
      Cut(s[..i], s[i + 1..], true)
  }

  /** Cutting at the first separator of `a + [sep] + b`, when `a` has none, gives `a` and `b`. */
  lemma CutAtFirst(a: string, b: string, sep: char)
    requires sep !in a
    ensures CutAt(a + [sep] + b, sep) == Cut(a, b, true)
  {
    var s := a + [sep] + b;
    var c := CutAt(s, sep);
    assert s[|a|] == sep;
    assert |c.before| == |a|;
    assert c.before == s[..|c.before|] == a;
    assert c.after == s[|a| + 1..] == b;
  }

  /** Both sides of a cut are made of characters of the text. */
  lemma CutAtParts(s: string, sep: char)
    ensures forall x :: x in CutAt(s, sep).before ==> x in s
    ensures forall x :: x in CutAt(s, sep).after ==> x in s
  {
    var c := CutAt(s, sep);
    if c.found {
      assert s == c.before + [sep] + c.after;
    }
  }

  /** `strings.TrimLeft(s, cutset)`: drop every leading character that
      belongs to the SET of characters of `cutset`. */
  function TrimLeft(s: string, cutset: string): (r: string)
    ensures |r| <= |s| && r == s[|s| - |r|..]
    ensures forall i :: 0 <= i < |s| - |r| ==> s[i] in cutset
    ensures |r| > 0 ==> r[0] !in cutset
    decreases |s|
  {
    if |s| > 0 && s[0] in cutset then TrimLeft(s[1..], cutset) else s
  }

  /** Leading characters that all belong to the cutset make no difference
      to `TrimLeft`: they are dropped along with whatever follows them. */
  lemma {:induction false} TrimLeftDropsCutset(p: string, s: string, cutset: string)
    requires forall i :: 0 <= i < |p| ==> p[i] in cutset
    ensures TrimLeft(p + s, cutset) == TrimLeft(s, cutset)
    decreases |p|
  {
    if |p| > 0 {
      assert (p + s)[0] == p[0];
      assert (p + s)[1..] == p[1..] + s;
      TrimLeftDropsCutset(p[1..], s, cutset);
    } else {
      assert p + s == s;
    }
  }

  /** `strings.TrimPrefix(s, prefix)`: drop `prefix` once when `s` starts with it. */
  function TrimPrefix(s: string, prefix: string): (r: string)
    ensures prefix <= s ==> s == prefix + r
    ensures !(prefix <= s) ==> r == s
  {
    if prefix <= s then
      assert s == prefix + s[|prefix|..];
      s[|prefix|..]
    else s
  }

  /** `strings.Replace(s, [from], [to], -1)` for one-character arguments. */
  function ReplaceAll(s: string, from: char, to: char): (r: string)
    ensures |r| == |s|
    ensures forall i :: 0 <= i < |s| ==> r[i] == (if s[i] == from then to else s[i])
  {
    seq(|s|, i requires 0 <= i < |s| => if s[i] == from then to else s[i])
  }

  /** `strings.Replace(s, [c], "", -1)`. */
  function RemoveAll(s: string, c: char): (r: string)
    ensures c !in r
    ensures forall x :: x in r <==> x in s && x != c
    decreases |s|
  {
    if |s| == 0 then ""
    else if s[0] == c then RemoveAll(s[1..], c)
    else [s[0]] + RemoveAll(s[1..], c)
  }

  lemma {:induction false} RemoveAllConcat(a: string, b: string, c: char)
    ensures RemoveAll(a + b, c) == RemoveAll(a, c) + RemoveAll(b, c)
    decreases |a|
  {
    if |a| == 0 {
      assert a + b == b;
    } else {
      assert (a + b)[1..] == a[1..] + b;
      RemoveAllConcat(a[1..], b, c);
    }
  }

  lemma ReplaceAllConcat(a: string, b: string, from: char, to: char)
    ensures ReplaceAll(a + b, from, to) == ReplaceAll(a, from, to) + ReplaceAll(b, from, to)
  {
  }

  /** Decimal text of a natural number. */
  function NatToString(n: nat): (r: string)
    ensures |r| > 0
    decreases n
  {
    var d := ['0' + (n % 10) as char];
    if n < 10 then d else NatToString(n / 10) + d
  }

  /** Go's `%v` / `%d` rendering of an `int`. */
  function IntToString(n: int): (r: string)
    ensures |r| > 0
  {
    if n < 0 then "-" + NatToString(-n) else NatToString(n)
  }

  /** An ASCII control character, as rejected by `net/url`. */
  predicate IsControl(c: char) {
    c < ' ' || c == 127 as char
  }

  predicate HasControl(s: string) {
    exists c :: c in s && IsControl(c)
  }

  /** Text without control characters stays so when concatenated. */
  lemma NoControlInConcat(a: string, b: string)
    requires !HasControl(a) && !HasControl(b)
    ensures !HasControl(a + b)
  {
    assert forall c :: c in a + b ==> c in a || c in b;
  }

  /** Go's `<` on strings: lexicographic order (code-point order is the same
      as the order of the UTF-8 bytes Go compares). */
  predicate Less(a: string, b: string)
    decreases |a|
  {
    if |a| == 0 then |b| > 0
    else if |b| == 0 then false
    else if a[0] == b[0] then Less(a[1..], b[1..])
    else a[0] < b[0]
  }

  lemma {:induction false} LessIrreflexive(a: string)
    ensures !Less(a, a)
    decreases |a|
  {
    if |a| > 0 {
      LessIrreflexive(a[1..]);
    }
  }

  lemma {:induction false} LessTransitive(a: string, b: string, c: string)
    requires Less(a, b) && Less(b, c)
    ensures Less(a, c)
    decreases |a|
  {
    if |a| > 0 && |b| > 0 && |c| > 0 && a[0] == b[0] && b[0] == c[0] {
      LessTransitive(a[1..], b[1..], c[1..]);
    }
  }

  lemma {:induction false} LessTotal(a: string, b: string)
    requires a != b
    ensures Less(a, b) || Less(b, a)
    decreases |a|
  {
    if |a| > 0 && |b| > 0 && a[0] == b[0] {
      assert a == [a[0]] + a[1..] && b == [b[0]] + b[1..];
      LessTotal(a[1..], b[1..]);
    }
  }

  lemma {:induction false} LessAsymmetric(a: string, b: string)
    requires Less(a, b)
    ensures !Less(b, a)
    decreases |a|
  {
    if |a| > 0 && |b| > 0 && a[0] == b[0] {
      LessAsymmetric(a[1..], b[1..]);
    }
  }
}
