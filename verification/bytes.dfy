/** Bytes, and the UTF-8 encoding Go uses when a string is converted to `[]byte`. */
module Bytes {

  newtype byte = x: int | 0 <= x < 256

  /** The byte Go stores for an ASCII character. */
  function AsciiByte(c: char): (b: byte)
    requires c as int < 128
    ensures b as int == c as int
  {
    c as int as byte
  }

  /** The UTF-8 encoding of one code point, per section 3 of RFC 3629. Every byte of a
      multi-byte sequence is 0x80 or above, so no ASCII byte appears inside one. */
  function EncodeRune(c: char): (b: seq<byte>)
    ensures 1 <= |b| <= 4
    ensures c as int < 128 ==> b == [c as int as byte]
    ensures c as int >= 128 ==> forall i :: 0 <= i < |b| ==> b[i] >= 128
  {
    var n := c as int;
    if n < 0x80 then [n as byte]
    else if n < 0x800 then [(0xC0 + n / 0x40) as byte, (0x80 + n % 0x40) as byte]
    else if n < 0x1_0000 then
      [(0xE0 + n / 0x1000) as byte, (0x80 + n / 0x40 % 0x40) as byte, (0x80 + n % 0x40) as byte]
    else
      [(0xF0 + n / 0x4_0000) as byte, (0x80 + n / 0x1000 % 0x40) as byte,
       (0x80 + n / 0x40 % 0x40) as byte, (0x80 + n % 0x40) as byte]
  }

  /** `[]byte(s)`: the UTF-8 bytes of a string. */
  function Utf8(s: string): seq<byte>
  {
    if |s| == 0 then [] else EncodeRune(s[0]) + Utf8(s[1..])
  }

  /** Encoding a concatenation is concatenating the encodings. */
  lemma {:induction false} Utf8Append(a: string, b: string)
    ensures Utf8(a + b) == Utf8(a) + Utf8(b)
    decreases |a|
  {
    if |a| > 0 {
      assert (a + b)[0] == a[0];
      assert (a + b)[1..] == a[1..] + b;
      Utf8Append(a[1..], b);
      calc {
        Utf8(a + b);
        EncodeRune(a[0]) + Utf8(a[1..] + b);
        EncodeRune(a[0]) + (Utf8(a[1..]) + Utf8(b));
        (EncodeRune(a[0]) + Utf8(a[1..])) + Utf8(b);
      }
    } else {
      assert a + b == b;
    }
  }

  /** An ASCII byte occurs in the encoding of `s` only where the character itself occurs. */
  lemma {:induction false} Utf8AsciiByte(s: string, c: char)
    requires c as int < 128
    ensures AsciiByte(c) in Utf8(s) <==> c in s
    decreases |s|
  {
    if |s| > 0 {
      Utf8AsciiByte(s[1..], c);
      assert Utf8(s) == EncodeRune(s[0]) + Utf8(s[1..]);
      assert s == [s[0]] + s[1..];
      if s[0] as int >= 128 {
        assert AsciiByte(c) !in EncodeRune(s[0]);
      }
    }
  }
}
