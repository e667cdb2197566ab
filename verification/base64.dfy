/** The standard base64 alphabet with `=` padding (section 4 of RFC 4648), as Go's
    `base64.StdEncoding` encodes and decodes it. The decoder skips `\r` and `\n`, demands
    correct padding and a length that is a multiple of four, and (not being in strict
    mode) ignores the unused low bits of a padded final group. */
module Base64 {
  import opened Wrappers
  import opened Bytes

  const Pad: char := '='

  /** The character for a 6-bit value. */
  function EncodeSextet(i: int): (c: char)
    requires 0 <= i < 64
    ensures DecodeSextet(c) == Some(i)
    ensures c != Pad && c != '\n' && c != '\r' && c != ' '
  {
    if i < 26 then ('A' as int + i) as char
    else if i < 52 then ('a' as int + (i - 26)) as char
    else if i < 62 then ('0' as int + (i - 52)) as char
    else if i == 62 then '+'
    else '/'
  }

  /** The 6-bit value of an alphabet character, or None for any other character. */
  function DecodeSextet(c: char): (r: Option<int>)
    ensures r.Some? ==> 0 <= r.value < 64
    ensures c == Pad || c == '\n' || c == '\r' || c == ' ' ==> r.None?
  {
    if 'A' <= c <= 'Z' then Some(c as int - 'A' as int)
    else if 'a' <= c <= 'z' then Some(c as int - 'a' as int + 26)
    else if '0' <= c <= '9' then Some(c as int - '0' as int + 52)
    else if c == '+' then Some(62)
    else if c == '/' then Some(63)
    else None
  }

  /** True when `s` contains only characters the encoder emits. */
  predicate EncoderOutput(s: string)
  {
    forall i :: 0 <= i < |s| ==> s[i] != '\n' && s[i] != '\r' && s[i] != ' '
  }

  /** Four characters for three bytes. */
  function EncodeGroup(b0: byte, b1: byte, b2: byte): (s: string)
    ensures |s| == 4 && EncoderOutput(s)
  {
    [EncodeSextet(b0 as int / 4), EncodeSextet(b0 as int % 4 * 16 + b1 as int / 16),
     EncodeSextet(b1 as int % 16 * 4 + b2 as int / 64), EncodeSextet(b2 as int % 64)]
  }

  /** `StdEncoding.EncodeToString`. */
  function Encode(b: seq<byte>): (s: string)
    ensures |s| % 4 == 0
    ensures EncoderOutput(s)
    decreases |b|
  {
    if |b| == 0 then ""
    else if |b| == 1 then
      [EncodeSextet(b[0] as int / 4), EncodeSextet(b[0] as int % 4 * 16), Pad, Pad]
    else if |b| == 2 then
      [EncodeSextet(b[0] as int / 4), EncodeSextet(b[0] as int % 4 * 16 + b[1] as int / 16),
       EncodeSextet(b[1] as int % 16 * 4), Pad]
    else EncodeGroup(b[0], b[1], b[2]) + Encode(b[3..])
  }

  /** The input with every `\r` and `\n` removed, which the decoder skips wherever they are. */
  function WithoutNewlines(s: string): (t: string)
    ensures |t| <= |s|
  {
    if |s| == 0 then ""
    else if s[0] == '\n' || s[0] == '\r' then WithoutNewlines(s[1..])
    else [s[0]] + WithoutNewlines(s[1..])
  }

  /** The three bytes four 6-bit values spell; for a padded group only a prefix is kept. */
  function Bytes3(a: int, b: int, c: int, d: int): (r: seq<byte>)
    requires 0 <= a < 64 && 0 <= b < 64 && 0 <= c < 64 && 0 <= d < 64
    ensures |r| == 3
  {
    [(a * 4 + b / 16) as byte, (b % 16 * 16 + c / 4) as byte, (c % 4 * 64 + d) as byte]
  }

  /** A group of four alphabet characters. */
  function DecodeGroup(q: string): (r: Option<seq<byte>>)
    requires |q| == 4
    ensures r.Some? ==> |r.value| == 3
  {
    match (DecodeSextet(q[0]), DecodeSextet(q[1]), DecodeSextet(q[2]), DecodeSextet(q[3]))
    case (Some(a), Some(b), Some(c), Some(d)) => Some(Bytes3(a, b, c, d))
    case _ => None
  }

  /** The last group: four alphabet characters, or three and `=`, or two and `==`. */
  function DecodeFinalGroup(q: string): (r: Option<seq<byte>>)
    requires |q| == 4
    ensures r.Some? ==> 1 <= |r.value| <= 3
  {
    if q[3] != Pad then DecodeGroup(q)
    else if q[2] != Pad then
      match (DecodeSextet(q[0]), DecodeSextet(q[1]), DecodeSextet(q[2]))
      case (Some(a), Some(b), Some(c)) => Some(Bytes3(a, b, c, 0)[..2])
      case _ => None
    else
      match (DecodeSextet(q[0]), DecodeSextet(q[1]))
      case (Some(a), Some(b)) => Some(Bytes3(a, b, 0, 0)[..1])
      case _ => None
  }

  /** Decoding after newlines are gone: whole groups of four, padding only in the last. */
  function DecodeGroups(t: string): (r: Option<seq<byte>>)
    decreases |t|
  {
    if |t| == 0 then Some([])
    else if |t| < 4 then None
    else if |t| == 4 then DecodeFinalGroup(t)
    else
      match DecodeGroup(t[..4])
      case None => None
      case Some(q) =>
        match DecodeGroups(t[4..])
        case None => None
        case Some(rest) => Some(q + rest)
  }

  /** `StdEncoding.DecodeString`: the bytes, or None where Go reports a `CorruptInputError`. */
  function DecodeString(s: string): Option<seq<byte>>
  {
    DecodeGroups(WithoutNewlines(s))
  }

  /** Input with no newline characters is not changed by dropping them. */
  lemma {:induction false} WithoutNewlinesIdentity(s: string)
    requires EncoderOutput(s)
    ensures WithoutNewlines(s) == s
    decreases |s|
  {
    if |s| > 0 {
      assert EncoderOutput(s[1..]);
      WithoutNewlinesIdentity(s[1..]);
      assert [s[0]] + s[1..] == s;
    }
  }

  /** One full group decodes to the three bytes it encodes. */
  lemma GroupRoundTrip(b0: byte, b1: byte, b2: byte)
    ensures DecodeGroup(EncodeGroup(b0, b1, b2)) == Some([b0, b1, b2])
  {
    var x0, x1, x2 := b0 as int, b1 as int, b2 as int;
    var a, b, c, d := x0 / 4, x0 % 4 * 16 + x1 / 16, x1 % 16 * 4 + x2 / 64, x2 % 64;
    assert b / 16 == x0 % 4 && b % 16 == x1 / 16;
    assert c / 4 == x1 % 16 && c % 4 == x2 / 64;
    assert a * 4 + b / 16 == x0;
    assert b % 16 * 16 + c / 4 == x1;
    assert c % 4 * 64 + d == x2;
  }

  /** A one-byte tail `xy==` decodes to its byte. */
  lemma OneByteTail(b0: byte)
    ensures DecodeFinalGroup([EncodeSextet(b0 as int / 4), EncodeSextet(b0 as int % 4 * 16), Pad, Pad])
            == Some([b0])
  {
    var x0 := b0 as int;
    var a, b := x0 / 4, x0 % 4 * 16;
    var q := [EncodeSextet(a), EncodeSextet(b), Pad, Pad];
    assert DecodeSextet(q[0]) == Some(a) && DecodeSextet(q[1]) == Some(b);
    assert b / 16 == x0 % 4;
    assert a * 4 + b / 16 == x0;
    assert Bytes3(a, b, 0, 0)[..1] == [b0];
  }

  /** A two-byte tail `xyz=` decodes to its two bytes. */
  lemma TwoByteTail(b0: byte, b1: byte)
    ensures DecodeFinalGroup([EncodeSextet(b0 as int / 4), EncodeSextet(b0 as int % 4 * 16 + b1 as int / 16),
                              EncodeSextet(b1 as int % 16 * 4), Pad])
            == Some([b0, b1])
  {
    var x0, x1 := b0 as int, b1 as int;
    var a, b, c := x0 / 4, x0 % 4 * 16 + x1 / 16, x1 % 16 * 4;
    var q := [EncodeSextet(a), EncodeSextet(b), EncodeSextet(c), Pad];
    assert DecodeSextet(q[0]) == Some(a) && DecodeSextet(q[1]) == Some(b) && DecodeSextet(q[2]) == Some(c);
    assert q[2] != Pad;
    assert b / 16 == x0 % 4 && b % 16 == x1 / 16;
    assert c / 4 == x1 % 16;
    assert a * 4 + b / 16 == x0;
    assert b % 16 * 16 + c / 4 == x1;
    assert Bytes3(a, b, c, 0)[..2] == [b0, b1];
  }

  /** Decoding what the encoder wrote gives back the bytes (section 4 of RFC 4648). */
  lemma {:induction false} DecodeEncode(b: seq<byte>)
    ensures DecodeString(Encode(b)) == Some(b)
    decreases |b|
  {
    WithoutNewlinesIdentity(Encode(b));
    DecodeGroupsEncode(b);
  }

  lemma {:induction false} DecodeGroupsEncode(b: seq<byte>)
    ensures DecodeGroups(Encode(b)) == Some(b)
    decreases |b|
  {
    if |b| == 1 {
      OneByteTail(b[0]);
      assert [b[0]] == b;
    } else if |b| == 2 {
      TwoByteTail(b[0], b[1]);
      assert [b[0], b[1]] == b;
    } else if |b| > 2 {
      DecodeGroupsEncode(b[3..]);
      GroupRoundTrip(b[0], b[1], b[2]);
      assert [b[0], b[1], b[2]] + b[3..] == b;
      DecodeGroupsStep(EncodeGroup(b[0], b[1], b[2]), [b[0], b[1], b[2]], Encode(b[3..]), b[3..]);
    }
  }

  /** One step of the round trip: a leading full group followed by the rest. */
  lemma DecodeGroupsStep(g: string, q: seq<byte>, rest: string, tail: seq<byte>)
    requires |g| == 4 && g[3] != Pad && DecodeGroup(g) == Some(q)
    requires |rest| % 4 == 0
    requires DecodeGroups(rest) == Some(tail)
    ensures DecodeGroups(g + rest) == Some(q + tail)
  {
    var s := g + rest;
    assert s[..4] == g && s[4..] == rest;
    if |rest| == 0 {
      assert s == g && tail == [];
      assert q + tail == q;
    }
  }
}
