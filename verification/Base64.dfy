/** Section 4 of RFC 4648, as one instance of the codec that the PEM functions rely on. */
module Base64 {
  import opened Options

  type Byte = x: int | 0 <= x < 256

  /** Any codec: decoding can fail. */
  datatype Codec = Codec(encode: seq<Byte> -> string, decode: string -> Option<seq<Byte>>)

  /** The characters of encoded text. */
  predicate InAlphabet(c: char) {
    'A' <= c <= 'Z' || 'a' <= c <= 'z' || '0' <= c <= '9' || c == '+' || c == '/' || c == '='
  }

  /** Decoding undoes encoding, and encoded text keeps to the alphabet. */
  ghost predicate Sound(codec: Codec) {
    forall bytes ::
      && codec.decode(codec.encode(bytes)) == Some(bytes)
      && forall i :: 0 <= i < |codec.encode(bytes)| ==> InAlphabet(codec.encode(bytes)[i])
  }

  function Letter(v: nat): (c: char)
    requires v < 64
    ensures InAlphabet(c) && c != '=' && Sextet(c) == Some(v)
  {
    if v < 26 then ('A' as int + v) as char
    else if v < 52 then ('a' as int + v - 26) as char
    else if v < 62 then ('0' as int + v - 52) as char
    else if v == 62 then '+'
    else '/'
  }

  function Sextet(c: char): (r: Option<nat>)
    ensures r.Some? ==> r.value < 64
  {
    if 'A' <= c <= 'Z' then Some(c as int - 'A' as int)
    else if 'a' <= c <= 'z' then Some(c as int - 'a' as int + 26)
    else if '0' <= c <= '9' then Some(c as int - '0' as int + 52)
    else if c == '+' then Some(62)
    else if c == '/' then Some(63)
    else None
  }

  function Encode(bytes: seq<Byte>): (s: string)
    ensures forall i :: 0 <= i < |s| ==> InAlphabet(s[i])
  {
    if bytes == [] then ""
    else if |bytes| == 1 then [Letter(bytes[0] / 4), Letter(bytes[0] % 4 * 16), '=', '=']
    else if |bytes| == 2 then Head(bytes[0], bytes[1]) + [Letter(bytes[1] % 16 * 4), '=']
    else
      Head(bytes[0], bytes[1]) + [Letter(bytes[1] % 16 * 4 + bytes[2] / 64), Letter(bytes[2] % 64)]
      + Encode(bytes[3..])
  }

  function Head(a: Byte, b: Byte): (s: string)
    ensures |s| == 2 && InAlphabet(s[0]) && InAlphabet(s[1])
  {
    [Letter(a / 4), Letter(a % 4 * 16 + b / 16)]
  }

  /** Groups of four; padding only in the last one. */
  function Decode(s: string): Option<seq<Byte>> {
    if s == "" then Some([])
    else if |s| < 4 then None
    else
      match (Sextet(s[0]), Sextet(s[1]))
      case (Some(p), Some(q)) =>
        if s[2..] == "==" then Some([p * 4 + q / 16])
        else (
          match Sextet(s[2])
          case None => None
          case Some(u) =>
            if s[3..] == "=" then Some([p * 4 + q / 16, q % 16 * 16 + u / 4])
            else
              match (Sextet(s[3]), Decode(s[4..]))
              case (Some(v), Some(rest)) => Some([p * 4 + q / 16, q % 16 * 16 + u / 4, u % 4 * 64 + v] + rest)
              case (_, _) => None
        )
      case (_, _) => None
  }

  /** The sextets of three bytes determine them. */
  lemma Regrouped(a: Byte, b: Byte, c: Byte)
    ensures var p, q, u, v := a / 4, a % 4 * 16 + b / 16, b % 16 * 4 + c / 64, c % 64;
            p < 64 && q < 64 && u < 64 && p * 4 + q / 16 == a && q % 16 * 16 + u / 4 == b && u % 4 * 64 + v == c
  {
  }

  lemma DecodeGroup(s: string, a: Byte, b: Byte, c: Byte)
    requires |s| >= 4 && s[..2] == Head(a, b) && s[2] == Letter(b % 16 * 4 + c / 64) && s[3] == Letter(c % 64)
    ensures Decode(s) == match Decode(s[4..]) case None => None case Some(rest) => Some([a, b, c] + rest)
  {
    Regrouped(a, b, c);
    assert s[0] == s[..2][0] && s[1] == s[..2][1];
    assert s[2..][0] == s[2] && s[3..][0] == s[3];
  }

  predicate Returns(bytes: seq<Byte>) {
    Decode(Encode(bytes)) == Some(bytes)
  }

  lemma OneReturns(bytes: seq<Byte>)
    requires |bytes| == 1
    ensures Returns(bytes)
  {
    assert Encode(bytes)[2..] == "==";
    assert bytes == [bytes[0]];
  }

  lemma TwoReturn(bytes: seq<Byte>)
    requires |bytes| == 2
    ensures Returns(bytes)
  {
    var s := Encode(bytes);
    Regrouped(bytes[0], bytes[1], 0);
    assert s[2..][0] == s[2] != '=' && s[3..] == "=";
    assert bytes == [bytes[0], bytes[1]];
  }

  lemma MoreReturn(bytes: seq<Byte>)
    requires |bytes| > 2 && Returns(bytes[3..])
    ensures Returns(bytes)
  {
    var s := EncodedGroup(bytes);
    DecodeGroup(s, bytes[0], bytes[1], bytes[2]);
    assert bytes == [bytes[0], bytes[1], bytes[2]] + bytes[3..];
  }

  lemma {:induction false} DecodeEncode(bytes: seq<Byte>)
    ensures Returns(bytes)
  {
    if |bytes| == 1 {
      OneReturns(bytes);
    } else if |bytes| == 2 {
      TwoReturn(bytes);
    } else if |bytes| > 2 {
      DecodeEncode(bytes[3..]);
      MoreReturn(bytes);
    }
  }

  lemma EncodedGroup(bytes: seq<Byte>) returns (s: string)
    requires |bytes| > 2
    ensures s == Encode(bytes) && |s| >= 4 && s[..2] == Head(bytes[0], bytes[1])
    ensures s[2] == Letter(bytes[1] % 16 * 4 + bytes[2] / 64) && s[3] == Letter(bytes[2] % 64)
    ensures s[4..] == Encode(bytes[3..])
  {
    s := Encode(bytes);
  }

  lemma StandardIsSound()
    ensures Sound(Codec(Encode, Decode))
  {
    forall bytes ensures Decode(Encode(bytes)) == Some(bytes) {
      DecodeEncode(bytes);
    }
  }

  // ---------------------------------------------------------------- the alphabet and the test vectors of RFC 4648

  /** The alphabet, as table 1 of RFC 4648 has it: letters, digits, plus and slash, in order. */
  lemma AlphabetIs(v: nat)
    requires v < 63
    ensures Letter(0) == 'A' && Letter(26) == 'a' && Letter(52) == '0' && Letter(62) == '+' && Letter(63) == '/'
    ensures v != 25 && v != 51 && v < 61 ==> Letter(v + 1) as int == Letter(v) as int + 1
  {
  }

  /** Section 10 of RFC 4648: the encodings of "f", "fo" and "foo". */
  lemma TestVectors()
    ensures Encode([102]) == "Zg==" && Encode([102, 111]) == "Zm8=" && Encode([102, 111, 111]) == "Zm9v"
  {
    assert [102, 111, 111][3..] == [];
  }
}
