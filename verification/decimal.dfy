/** Decimal integers as Go's `strconv.Atoi` reads them and `strconv.Itoa` / `%d` writes
    them, for the 64-bit `int` of the platforms the service runs on. */
module Decimal {
  import opened Wrappers

  const MinInt64: int := -0x8000_0000_0000_0000
  const MaxInt64: int := 0x7FFF_FFFF_FFFF_FFFF
  const MaxUint64: int := 0xFFFF_FFFF_FFFF_FFFF

  predicate InInt64(n: int)
  {
    MinInt64 <= n <= MaxInt64
  }

  predicate IsDigit(c: char)
  {
    '0' <= c <= '9'
  }

  predicate AllDigits(s: string)
  {
    forall i :: 0 <= i < |s| ==> IsDigit(s[i])
  }

  function DigitValue(c: char): (d: nat)
    requires IsDigit(c)
    ensures d < 10
  {
    c as int - '0' as int
  }

  function DigitChar(d: nat): (c: char)
    requires d < 10
    ensures IsDigit(c) && DigitValue(c) == d
  {
    ('0' as int + d) as char
  }

  /** The value of a string of decimal digits, most significant first. */
  function DigitsValue(s: string): nat
    requires AllDigits(s)
  {
    if |s| == 0 then 0 else DigitsValue(s[..|s| - 1]) * 10 + DigitValue(s[|s| - 1])
  }

  /** The longest prefix of `s` made of decimal digits. */
  function DigitPrefix(s: string): (p: string)
    ensures |p| <= |s| && p == s[..|p|]
    ensures AllDigits(p)
    ensures |p| == |s| || !IsDigit(s[|p|])
  {
    if |s| > 0 && IsDigit(s[0]) then [s[0]] + DigitPrefix(s[1..]) else ""
  }

  /** Why `strconv` rejected its input: `ErrSyntax` or `ErrRange`. */
  datatype NumErrorKind = ErrSyntax | ErrRange

  /** `*strconv.NumError` from `Atoi`: the rejected text and the reason. */
  datatype NumError = NumError(num: string, kind: NumErrorKind)

  /** The digits after an optional leading sign. */
  function Unsigned(s: string): string
  {
    if |s| > 0 && (s[0] == '+' || s[0] == '-') then s[1..] else s
  }

  /** `strconv.Atoi(s)`: an optional `+` or `-`, then one or more ASCII digits, with a value
      that fits a signed 64-bit integer. No spaces, underscores or base prefixes. Digits are
      consumed left to right, so a digit run that overflows an unsigned 64-bit value before
      the first bad character is reported as out of range rather than as bad syntax. */
  function Atoi(s: string): (r: Result<int, NumError>)
    ensures r.Ok? <==> |Unsigned(s)| > 0 && AllDigits(Unsigned(s)) && InInt64(SignedValue(s))
    ensures r.Ok? ==> r.value == SignedValue(s)
    ensures r.Err? ==> r.error.num == s
    ensures r.Err? && !AllDigits(Unsigned(s)) && DigitsValue(DigitPrefix(Unsigned(s))) <= MaxUint64
            ==> r.error.kind == ErrSyntax
  {
    var body := Unsigned(s);
    var p := DigitPrefix(body);
    if |body| == 0 || |p| < |body| then
      Err(NumError(s, if DigitsValue(p) > MaxUint64 then ErrRange else ErrSyntax))
    else
      var v: int := if |s| > 0 && s[0] == '-' then 0 - DigitsValue(body) else DigitsValue(body);
      if InInt64(v) then Ok(v) else Err(NumError(s, ErrRange))
  }

  /** The signed value a well-formed `Atoi` input denotes. */
  function SignedValue(s: string): int
  {
    var body := Unsigned(s);
    if !AllDigits(body) then 0
    else if |s| > 0 && s[0] == '-' then 0 - DigitsValue(body) else DigitsValue(body)
  }

  /** The shortest decimal spelling of a natural number. */
  function NatToDigits(n: nat): (s: string)
    ensures |s| >= 1 && AllDigits(s)
    ensures DigitsValue(s) == n
    ensures s[0] != '0' || n == 0
  {
    if n < 10 then [DigitChar(n)]
    else
      var front := NatToDigits(n / 10);
      var s := front + [DigitChar(n % 10)];
      assert s[..|s| - 1] == front;
      s
  }

  /** `strconv.Itoa(n)`, also what `fmt`'s `%d` prints: a minus sign for negatives, then digits. */
  function Itoa(n: int): (s: string)
    ensures |s| >= 1
    ensures n < 0 <==> s[0] == '-'
    ensures forall i :: 0 <= i < |s| ==> IsDigit(s[i]) || (i == 0 && s[i] == '-')
  {
    if n < 0 then "-" + NatToDigits(-n) else NatToDigits(n)
  }

  /** `Atoi` reads back what `Itoa` writes, for every value of Go's 64-bit `int`. */
  lemma AtoiItoa(n: int)
    requires InInt64(n)
    ensures Atoi(Itoa(n)) == Ok(n)
  {
    var s := Itoa(n);
    if n < 0 {
      assert Unsigned(s) == NatToDigits(-n);
    } else {
      assert Unsigned(s) == NatToDigits(n);
    }
    assert DigitPrefix(Unsigned(s)) == Unsigned(s);
  }
}
