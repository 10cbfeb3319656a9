/** Base 64 encoding as defined in section 4 (standard alphabet, `=`
    padding) and section 5 (URL- and filename-safe alphabet) of RFC 4648. */
module Base64 {
  import opened Strs

  /** Table 1 of RFC 4648. */
  const StdAlphabet: string := AlphaNumerics + "+/"
  /** Table 2 of RFC 4648. */
  const UrlAlphabet: string := AlphaNumerics + "-_"

  /** Encodes `m` three bytes to four characters; a final group of one or two
      bytes yields two or three characters, followed by `=` padding when `pad`. */
  function Encode(m: seq<byte>, alphabet: string, pad: bool): (r: string)
    requires |alphabet| == 64
    ensures forall i :: 0 <= i < |r| ==> r[i] in alphabet || (pad && r[i] == '=')
    ensures !pad ==> |r| == (4 * |m| + 2) / 3
    decreases |m|
  {
    if |m| == 0 then ""
    else if |m| == 1 then
      [alphabet[m[0] / 4], alphabet[(m[0] % 4) * 16]] + (if pad then "==" else "")
    else if |m| == 2 then
      [alphabet[m[0] / 4], alphabet[(m[0] % 4) * 16 + m[1] / 16], alphabet[(m[1] % 16) * 4]]
      + (if pad then "=" else "")
    else
      [alphabet[m[0] / 4], alphabet[(m[0] % 4) * 16 + m[1] / 16],
       alphabet[(m[1] % 16) * 4 + m[2] / 64], alphabet[m[2] % 64]]
      + Encode(m[3..], alphabet, pad)
  }

  /** `base64.StdEncoding.EncodeToString`. */
  function StdEncoding(m: seq<byte>): string {
    Encode(m, StdAlphabet, true)
  }

  /** The URL-safe alphabet with padding omitted (section 3.2 of RFC 4648
      allows omitting it when the length is known), as section 4.2 of
      RFC 7636 requires for `code_challenge`. */
  function RawUrlEncoding(m: seq<byte>): string {
    Encode(m, UrlAlphabet, false)
  }

  /** The URL-safe character that takes the place of a standard one. */
  function ToUrlChar(c: char): char {
    if c == '+' then '-' else if c == '/' then '_' else c
  }

  lemma AlphabetsCorrespond()
    ensures |StdAlphabet| == 64 && |UrlAlphabet| == 64
    ensures forall i :: 0 <= i < 64 ==> ToUrlChar(StdAlphabet[i]) == UrlAlphabet[i] && StdAlphabet[i] != '='
    ensures '+' !in UrlAlphabet && '/' !in UrlAlphabet && '=' !in UrlAlphabet
  {
    AlphaNumericsAreAlphaNumeric();
    forall i | 0 <= i < 64
      ensures ToUrlChar(StdAlphabet[i]) == UrlAlphabet[i] && StdAlphabet[i] != '='
    {
      if i < 62 {
        assert StdAlphabet[i] == AlphaNumerics[i] == UrlAlphabet[i];
      }
    }
  }
}
