/** The PKCE/state generator (`internal/service/oidc/pkce/pkce.go`).
    `crypto/rand` is an input byte stream: a read of `n` bytes succeeds while
    at least `n` bytes remain, and fails (exhausting the stream) otherwise.
    SHA-256 is an oracle parameter from the verifier text to its digest. */
module Pkce {
  import opened Wrappers
  import opened Strs
  import opened Errors
  import opened Base64

  const MethodS256: string := "S256"
  const MethodPlain: string := "plain"
  const MinLength: int := 32
  const MaxLength: int := 96

  /** The 62-character alphabet of `random`. */
  const Charset: string := AlphaNumerics

  /** `Charset[k]`, computed from the three ranges of the alphabet. */
  function CharsetAt(k: int): (c: char)
    requires 0 <= k < 62
    ensures IsAlphaNumeric(c)
  {
    if k < 26 then ('A' as int + k) as char
    else if k < 52 then ('a' as int + k - 26) as char
    else ('0' as int + k - 52) as char
  }

  lemma CharsetAtIsCharset(k: int)
    requires 0 <= k < 62
    ensures |Charset| == 62 && CharsetAt(k) == Charset[k]
  {
    var upper, lower := CharRange('A', 26), CharRange('a', 26);
    assert Charset == upper + lower + CharRange('0', 10);
    if k < 26 {
      assert Charset[k] == upper[k];
    } else if k < 52 {
      assert Charset[k] == lower[k - 26];
    } else {
      assert Charset[k] == CharRange('0', 10)[k - 52];
    }
  }
  /** A byte is kept iff it is below 4 * 62, the largest multiple of 62 under 256. */
  const RejectFrom: int := 4 * 62

  /** A length the constructors accept. */
  type Length = n: int | 32 <= n <= 96 witness 32

  datatype Method = Plain | S256

  /** A constructed generator; Go has one struct per method. */
  datatype Generator = Generator(kind: Method, stateLength: Length, challengeLength: Length)

  /** What a constructor hands back: a generator (nil when absent) and an error. */
  datatype Construction = Construction(generator: Option<Generator>, err: Option<Error>)

  /** `validateLength`: the state length is checked first. */
  function ValidateLength(stateLength: int, challengeLength: int): (r: Option<Error>)
    ensures r.None? <==> MinLength <= stateLength <= MaxLength && MinLength <= challengeLength <= MaxLength
    ensures !(MinLength <= stateLength <= MaxLength) ==>
      r == Some(New("invalid state length: " + IntToString(stateLength)))
    ensures MinLength <= stateLength <= MaxLength && !(MinLength <= challengeLength <= MaxLength) ==>
      r == Some(New("invalid challenge length: " + IntToString(challengeLength)))
  {
    if stateLength < MinLength || stateLength > MaxLength then
      Some(New("invalid state length: " + IntToString(stateLength)))
    else if challengeLength < MinLength || challengeLength > MaxLength then
      Some(New("invalid challenge length: " + IntToString(challengeLength)))
    else None
  }

  /** `NewS256PKCEGenerator` and `NewPlainPKCEGenerator`: a failed length
      check yields NO generator and NO error. */
  function NewMethodGenerator(kind: Method, stateLength: int, challengeLength: int): (c: Construction)
    ensures c.err.None?
    ensures c.generator.Some? <==> ValidateLength(stateLength, challengeLength).None?
    ensures c.generator.Some? ==> c.generator.value == Generator(kind, stateLength, challengeLength)
  {
    if ValidateLength(stateLength, challengeLength).Some? then Construction(None, None)
    else Construction(Some(Generator(kind, stateLength, challengeLength)), None)
  }

  /** Method selection: exactly "plain" selects plain; every other string,
      empty or unknown, selects S256. */
  function SelectMethod(name: string): (m: Method)
    ensures m == Plain <==> name == MethodPlain
  {
    if name == MethodPlain then Plain else S256
  }

  /** `NewPKCEGenerator`. */
  function NewGenerator(name: string, stateLength: int, challengeLength: int): (c: Construction)
    ensures c.err.None?
    ensures c.generator.Some? <==> MinLength <= stateLength <= MaxLength && MinLength <= challengeLength <= MaxLength
    ensures c.generator.Some? ==>
      c.generator.value == Generator(SelectMethod(name), stateLength, challengeLength)
  {
    NewMethodGenerator(SelectMethod(name), stateLength, challengeLength)
  }

  // ---------------------------------------------------------------------
  // random

  /** The character a byte contributes, if it is accepted. */
  function Contribution(b: byte): (s: string)
    ensures |s| <= 1 && (b < RejectFrom <==> |s| == 1)
  {
    if b < RejectFrom then [CharsetAt(b % 62)] else ""
  }

  /** The characters the bytes `bs` contribute, in stream order: an accepted
      byte `b` (below 248) becomes `Charset[b % 62]`; other bytes are skipped. */
  function Accepted(bs: seq<byte>): (s: string)
    ensures |s| <= |bs|
    ensures forall i :: 0 <= i < |s| ==> IsAlphaNumeric(s[i])
  {
    if |bs| == 0 then "" else Contribution(bs[0]) + Accepted(bs[1..])
  }

  lemma {:induction false} AcceptedConcat(a: seq<byte>, b: seq<byte>)
    ensures Accepted(a + b) == Accepted(a) + Accepted(b)
    decreases |a|
  {
    if |a| == 0 {
      assert a + b == b;
    } else {
      assert (a + b)[1..] == a[1..] + b;
      AcceptedConcat(a[1..], b);
      calc {
        Accepted(a + b);
        Contribution(a[0]) + Accepted(a[1..] + b);
        Contribution(a[0]) + (Accepted(a[1..]) + Accepted(b));
      }
    }
  }

  /** The state of the inner loop of `random` after one buffer: the output
      reached `length` (and the function returns), or the buffer ran out first. */
  datatype Scanned = Filled(text: string) | Partial(text: string)

  /** The inner `for _, b := range buf` loop of `random`. */
  function Scan(length: nat, output: string, buf: seq<byte>): (r: Scanned)
    requires |output| < length
    ensures r.Filled? <==> |output + Accepted(buf)| >= length
    ensures r.Filled? ==> r.text == (output + Accepted(buf))[..length]
    ensures r.Partial? ==> r.text == output + Accepted(buf)
    decreases |buf|
  {
    if |buf| == 0 then Partial(output)
    else
      var output' := output + Contribution(buf[0]);
      assert output + Accepted(buf) == output' + Accepted(buf[1..]);
      if |output'| == length then Filled(output') else Scan(length, output', buf[1..])
  }

  /** What a call of `random` produced and what it left of the stream. */
  datatype Draw = Draw(text: string, rest: seq<byte>)

  /** The outer loop of `random`: read a buffer of `length` bytes, scan it,
      repeat.  A failed read returns nil (the empty string). */
  function RandomLoop(length: nat, output: string, src: seq<byte>): (d: Draw)
    requires |output| < length
    ensures d.text == [] || |d.text| == length
    decreases |src|
  {
    if |src| < length then Draw([], [])
    else
      match Scan(length, output, src[..length])
      case Filled(out) => Draw(out, src[length..])
      case Partial(out) => RandomLoop(length, out, src[length..])
  }

  /** `random(length)`, only ever called with a generator's length.  With
      length 0 the Go loop would never return; the generators rule that out. */
  function Random(length: nat, src: seq<byte>): (d: Draw)
    requires 0 < length
    ensures d.text == [] || |d.text| == length
    ensures forall i :: 0 <= i < |d.text| ==> IsAlphaNumeric(d.text[i])
  {
    RandomLoopText(length, "", src);
    assert "" + Accepted(src) == Accepted(src);
    RandomLoop(length, "", src)
  }

  /** The longest prefix of `src` made of whole `length`-byte reads. */
  function WholeReads(src: seq<byte>, length: nat): (w: seq<byte>)
    requires 0 < length
    ensures w <= src
    decreases |src|
  {
    if |src| < length then []
    else
      assert src == src[..length] + src[length..];
      src[..length] + WholeReads(src[length..], length)
  }

  lemma {:induction false} WholeReadsUnfold(src: seq<byte>, length: nat)
    requires 0 < length <= |src|
    ensures Accepted(WholeReads(src, length))
         == Accepted(src[..length]) + Accepted(WholeReads(src[length..], length))
  {
    AcceptedConcat(src[..length], WholeReads(src[length..], length));
  }

  /** The loop succeeds exactly when its whole reads supply enough accepted bytes. */
  lemma {:induction false} RandomLoopSucceeds(length: nat, output: string, src: seq<byte>)
    requires |output| < length
    ensures RandomLoop(length, output, src).text != []
        <==> |output| + |Accepted(WholeReads(src, length))| >= length
    decreases |src|
  {
    if |src| >= length {
      WholeReadsUnfold(src, length);
      match Scan(length, output, src[..length])
      case Filled(out) =>
      case Partial(out) => RandomLoopSucceeds(length, out, src[length..]);
    }
  }

  /** A successful loop returns the first characters the stream contributes. */
  lemma {:induction false} RandomLoopText(length: nat, output: string, src: seq<byte>)
    requires |output| < length
    ensures var d := RandomLoop(length, output, src);
      d.text != [] ==> |output + Accepted(src)| >= length && d.text == (output + Accepted(src))[..length]
    decreases |src|
  {
    if |src| >= length {
      var chunk, more := src[..length], src[length..];
      assert src == chunk + more;
      AcceptedConcat(chunk, more);
      assert output + Accepted(src) == (output + Accepted(chunk)) + Accepted(more);
      match Scan(length, output, chunk)
      case Filled(out) =>
      case Partial(out) => RandomLoopText(length, out, more);
    }
  }

  /** The loop consumes the stream from the front; a failure exhausts it. */
  lemma {:induction false} RandomLoopRest(length: nat, output: string, src: seq<byte>)
    requires |output| < length
    ensures var d := RandomLoop(length, output, src);
      && |d.rest| <= |src| && d.rest == src[|src| - |d.rest|..]
      && (d.text == [] ==> d.rest == [])
    decreases |src|
  {
    if |src| >= length {
      match Scan(length, output, src[..length])
      case Filled(out) =>
      case Partial(out) => RandomLoopRest(length, out, src[length..]);
    }
  }

  lemma {:induction false} AcceptedPrefix(a: seq<byte>, b: seq<byte>)
    requires a <= b
    ensures Accepted(a) <= Accepted(b)
  {
    assert b == a + b[|a|..];
    AcceptedConcat(a, b[|a|..]);
  }

  /** `random(n)` returns the first `n` accepted bytes of the stream, in
      stream order, mapped through the charset; it fails (returns nil) exactly
      when the whole reads available hold fewer than `n` accepted bytes, and
      then leaves nothing of the stream. */
  lemma RandomReadsAcceptedPrefix(length: nat, src: seq<byte>)
    requires 0 < length
    ensures var d := Random(length, src);
      && (d.text != [] <==> |Accepted(WholeReads(src, length))| >= length)
      && (d.text != [] ==> |Accepted(src)| >= length && d.text == Accepted(src)[..length])
      && |d.rest| <= |src| && d.rest == src[|src| - |d.rest|..]
      && (d.text == [] ==> d.rest == [])
  {
    RandomLoopSucceeds(length, "", src);
    RandomLoopText(length, "", src);
    RandomLoopRest(length, "", src);
    assert "" + Accepted(src) == Accepted(src);
  }

  // ---------------------------------------------------------------------
  // State and CodeChallengeVerifier

  /** `State()`: a random string of the generator's state length, or "" when
      the random source failed. */
  function State(g: Generator, src: seq<byte>): (d: Draw)
    ensures d.text == [] || |d.text| == g.stateLength
    ensures forall i :: 0 <= i < |d.text| ==> IsAlphaNumeric(d.text[i])
  {
    Random(g.stateLength, src)
  }

  /** `encode`: standard Base64, then `+` to `-`, `/` to `_`, and every `=` removed. */
  function EncodeChallenge(msg: seq<byte>): (r: string)
    ensures '+' !in r && '/' !in r && '=' !in r
  {
    var s := ReplaceAll(ReplaceAll(StdEncoding(msg), '+', '-'), '/', '_');
    assert '+' !in s;
    RemoveAll(s, '=')
  }

  datatype ChallengeVerifier = ChallengeVerifier(challenge: string, methodName: string, verifier: string, rest: seq<byte>)

  /** `CodeChallengeVerifier()`.  Plain: the challenge IS the verifier.
      S256: the challenge is `encode(SHA256(verifier))`.  A failed random read
      leaves the verifier empty, and S256 still hashes it. */
  function CodeChallengeVerifier(g: Generator, src: seq<byte>, sha256: string -> seq<byte>): (cv: ChallengeVerifier)
    ensures cv.verifier == [] || |cv.verifier| == g.challengeLength
    ensures forall i :: 0 <= i < |cv.verifier| ==> IsAlphaNumeric(cv.verifier[i])
    ensures g.kind == Plain ==> cv.challenge == cv.verifier && cv.methodName == MethodPlain
    ensures g.kind == S256 ==> cv.challenge == RawUrlEncoding(sha256(cv.verifier)) && cv.methodName == MethodS256
  {
    var d := Random(g.challengeLength, src);
    match g.kind
    case Plain => ChallengeVerifier(d.text, "plain", d.text, d.rest)
    case S256 =>
      EncodeChallengeIsRawUrl(sha256(d.text));
      ChallengeVerifier(EncodeChallenge(sha256(d.text)), "S256", d.text, d.rest)
  }

  // ---------------------------------------------------------------------
  // encode against section 5 of RFC 4648

  lemma {:induction false} RemoveAllAbsent(s: string, c: char)
    requires c !in s
    ensures RemoveAll(s, c) == s
    decreases |s|
  {
    if |s| > 0 {
      RemoveAllAbsent(s[1..], c);
      assert s == [s[0]] + s[1..];
    }
  }

  /** The character rewriting of `encode`, one standard-alphabet group at a time. */
  function UrlSafe(s: string): string {
    RemoveAll(ReplaceAll(ReplaceAll(s, '+', '-'), '/', '_'), '=')
  }

  lemma UrlSafeConcat(a: string, b: string)
    ensures UrlSafe(a + b) == UrlSafe(a) + UrlSafe(b)
  {
    ReplaceAllConcat(a, b, '+', '-');
    ReplaceAllConcat(ReplaceAll(a, '+', '-'), ReplaceAll(b, '+', '-'), '/', '_');
    RemoveAllConcat(ReplaceAll(ReplaceAll(a, '+', '-'), '/', '_'), ReplaceAll(ReplaceAll(b, '+', '-'), '/', '_'), '=');
  }

  /** The characters of the standard and of the URL-safe alphabet at the given indices. */
  function AlphabetChars(alphabet: string, idx: seq<int>): (r: string)
    requires forall j :: 0 <= j < |idx| ==> 0 <= idx[j] < |alphabet|
    ensures |r| == |idx| && forall j :: 0 <= j < |idx| ==> r[j] == alphabet[idx[j]]
  {
    seq(|idx|, j requires 0 <= j < |idx| => alphabet[idx[j]])
  }

  lemma UrlSafeOfStdChars(idx: seq<int>)
    requires forall j :: 0 <= j < |idx| ==> 0 <= idx[j] < 64
    ensures |StdAlphabet| == 64 == |UrlAlphabet|
    ensures UrlSafe(AlphabetChars(StdAlphabet, idx)) == AlphabetChars(UrlAlphabet, idx)
  {
    AlphabetsCorrespond();
    var s := AlphabetChars(StdAlphabet, idx);
    var t := ReplaceAll(ReplaceAll(s, '+', '-'), '/', '_');
    assert forall j :: 0 <= j < |t| ==> t[j] == ToUrlChar(s[j]);
    assert '=' !in t;
    RemoveAllAbsent(t, '=');
  }

  /** The alphabet indices of the first group of `m` (two, three or four characters). */
  function GroupIndices(m: seq<byte>): (idx: seq<int>)
    requires |m| > 0
    ensures 2 <= |idx| <= 4 && forall j :: 0 <= j < |idx| ==> 0 <= idx[j] < 64
  {
    if |m| == 1 then [m[0] / 4, (m[0] % 4) * 16]
    else if |m| == 2 then [m[0] / 4, (m[0] % 4) * 16 + m[1] / 16, (m[1] % 16) * 4]
    else [m[0] / 4, (m[0] % 4) * 16 + m[1] / 16, (m[1] % 16) * 4 + m[2] / 64, m[2] % 64]
  }

  /** The padding that follows the first group when padding is on. */
  function GroupPadding(m: seq<byte>): string {
    if |m| == 1 then "==" else if |m| == 2 then "=" else ""
  }

  lemma EncodeUnfold(m: seq<byte>, alphabet: string, pad: bool)
    requires |m| > 0 && |alphabet| == 64
    ensures Encode(m, alphabet, pad)
         == AlphabetChars(alphabet, GroupIndices(m)) + (if pad then GroupPadding(m) else "")
            + (if |m| >= 3 then Encode(m[3..], alphabet, pad) else "")
  {
    var idx := GroupIndices(m);
    var chars := AlphabetChars(alphabet, idx);
    if |m| == 1 {
      assert chars == [alphabet[idx[0]], alphabet[idx[1]]];
    } else if |m| == 2 {
      assert chars == [alphabet[idx[0]], alphabet[idx[1]], alphabet[idx[2]]];
    } else {
      assert chars == [alphabet[idx[0]], alphabet[idx[1]], alphabet[idx[2]], alphabet[idx[3]]];
    }
  }

  lemma UrlSafePadding(m: seq<byte>)
    ensures UrlSafe(GroupPadding(m)) == ""
  {
    assert ReplaceAll(ReplaceAll("=", '+', '-'), '/', '_') == "=";
    assert ReplaceAll(ReplaceAll("==", '+', '-'), '/', '_') == "==";
    assert ReplaceAll(ReplaceAll("", '+', '-'), '/', '_') == "";
  }

  /** `encode` produces exactly the unpadded encoding over the URL-safe
      alphabet of section 5 of RFC 4648. */
  lemma {:induction false} EncodeChallengeIsRawUrl(msg: seq<byte>)
    ensures EncodeChallenge(msg) == RawUrlEncoding(msg)
    decreases |msg|
  {
    assert EncodeChallenge(msg) == UrlSafe(StdEncoding(msg));
    if |msg| > 0 {
      AlphabetsCorrespond();
      var idx := GroupIndices(msg);
      var chars, padding := AlphabetChars(StdAlphabet, idx), GroupPadding(msg);
      var rest := if |msg| >= 3 then StdEncoding(msg[3..]) else "";
      EncodeUnfold(msg, StdAlphabet, true);
      EncodeUnfold(msg, UrlAlphabet, false);
      UrlSafeConcat(chars + padding, rest);
      UrlSafeConcat(chars, padding);
      UrlSafeOfStdChars(idx);
      UrlSafePadding(msg);
      if |msg| >= 3 {
        EncodeChallengeIsRawUrl(msg[3..]);
        assert UrlSafe(rest) == RawUrlEncoding(msg[3..]);
      } else {
        assert UrlSafe(rest) == "";
      }
    }
  }

  /** A SHA-256 digest (32 bytes) gives a 43-character challenge, as in
      section 4.2 of RFC 7636. */
  lemma ChallengeOfDigestLength(digest: seq<byte>)
    requires |digest| == 32
    ensures |EncodeChallenge(digest)| == 43
  {
    EncodeChallengeIsRawUrl(digest);
  }
}
