/**
  The number conversions of the configuration reader: `atoi` and `strtol` in base 16 (sections
  7.22.1.2 and 7.22.1.4 of ISO/IEC 9899:2011) with a 32-bit `long`, on filtered text, which has no
  white space and no sign. A value that does not fit is the largest `long`.
 */
module Numbers {
  import opened Text

  const LONG_MAX: nat := 0x7FFF_FFFF

  type Base = b: int | b == 10 || b == 16 witness 10

  predicate IsDigit(c: char, base: Base) {
    '0' <= c <= '9' || (base == 16 && ('a' <= c <= 'f' || 'A' <= c <= 'F'))
  }

  function DigitValue(c: char, base: Base): (d: nat)
    requires IsDigit(c, base)
    ensures d < base
  {
    if c <= '9' then c as int - '0' as int
    else if c <= 'F' then c as int - 'A' as int + 10
    else c as int - 'a' as int + 10
  }

  /** The value of `acc` followed by the digits that `s` starts with. */
  function Accumulate(s: string, base: Base, acc: nat): nat {
    if s == "" || !IsDigit(s[0], base) then acc
    else Accumulate(s[1..], base, acc * base + DigitValue(s[0], base))
  }

  function Clamp(n: nat): (r: nat)
    ensures r <= LONG_MAX
    ensures r == n <==> n <= LONG_MAX
  {
    if n <= LONG_MAX then n else LONG_MAX
  }

  /** atoi */
  function Atoi(s: string): nat {
    Clamp(Accumulate(s, 10, 0))
  }

  predicate HasHexPrefix(s: string) {
    |s| >= 2 && s[0] == '0' && (s[1] == 'x' || s[1] == 'X')
  }

  /** strtol(s, NULL, 16); a prefix with no hexadecimal digit behind it reads as zero either way. */
  function Strtol16(s: string): nat {
    Clamp(Accumulate(if HasHexPrefix(s) then s[2..] else s, 16, 0))
  }

  // ---------- Printing ----------

  function DigitChar(d: nat): char
    requires d < 16
  {
    if d < 10 then '0' + d as char else 'a' + (d - 10) as char
  }

  lemma DigitCharIs(d: nat, base: Base)
    requires d < base
    ensures IsDigit(DigitChar(d), base) && DigitValue(DigitChar(d), base) == d
  {
  }

  /** The digits of `n`, most significant first and without leading zeros. */
  function Digits(n: nat, base: Base): (s: string)
    ensures s != "" && forall c | c in s :: IsDigit(c, base)
    decreases n
  {
    if n < base then [DigitChar(n)]
    else Digits(n / base, base) + [DigitChar(n % base)]
  }

  function PrintDecimal(n: nat): string {
    Digits(n, 10)
  }

  function PrintHex(n: nat): string {
    "0x" + Digits(n, 16)
  }

  /** Reading printed digits gives the number back, in front of whatever follows. */
  lemma {:induction false} DigitsRoundTrip(n: nat, base: Base, rest: string)
    ensures Accumulate(Digits(n, base) + rest, base, 0) == Accumulate(rest, base, n)
    decreases n
  {
    DigitCharIs(n % base, base);
    if n < base {
      assert ([DigitChar(n)] + rest)[1..] == rest;
    } else {
      var last := [DigitChar(n % base)];
      assert Digits(n, base) + rest == Digits(n / base, base) + (last + rest);
      DigitsRoundTrip(n / base, base, last + rest);
      assert (last + rest)[1..] == rest;
      assert n == n / base * base + n % base;
    }
  }

  /** A printed number reads back as itself exactly when it fits a `long`. */
  lemma NumberRoundTrip(n: nat)
    ensures Atoi(PrintDecimal(n)) == n <==> n <= LONG_MAX
    ensures Strtol16(PrintHex(n)) == n <==> n <= LONG_MAX
  {
    DigitsRoundTrip(n, 10, "");
    DigitsRoundTrip(n, 16, "");
    assert PrintDecimal(n) + "" == PrintDecimal(n);
    assert PrintHex(n)[2..] == Digits(n, 16) + "";
  }

  lemma PrintedIsKept(n: nat)
    ensures AllKept(PrintDecimal(n)) && AllKept(PrintHex(n))
    ensures '_' !in PrintDecimal(n) && '_' !in PrintHex(n)
  {
  }

  // ---------- Spelt out ----------

  /** What the printed digits are. */
  lemma DigitsSpelt(n: nat, base: Base)
    ensures Digits(n, base) == (if n < base then "" else Digits(n / base, base)) + ["0123456789abcdef"[n % base]]
  {
    assert n < base ==> n % base == n;
    DigitCharSpelt(n % base);
  }

  lemma DigitCharSpelt(d: nat)
    requires d < 16
    ensures DigitChar(d) == "0123456789abcdef"[d]
  {
  }

  /** atoi reads up to the first character that is not a numeral, and no further than the largest `long`. */
  lemma AtoiStops(n: nat, rest: string)
    requires rest == "" || !('0' <= rest[0] <= '9')
    ensures Atoi(Digits(n, 10) + rest) == if n <= 0x7FFF_FFFF then n else 0x7FFF_FFFF
  {
    DigitsRoundTrip(n, 10, rest);
  }

  lemma NoHexPrefix(digits: string, rest: string)
    requires digits != "" && forall c | c in digits :: IsDigit(c, 16)
    requires rest == "" || (rest[0] != 'x' && rest[0] != 'X')
    ensures !HasHexPrefix(digits + rest)
  {
    assert |digits| >= 2 ==> digits[1] in digits;
  }

  /** strtol in base 16 does the same up to the first character that is no hexadecimal digit, with or without a prefix. */
  lemma StrtolStops(n: nat, rest: string)
    requires rest == "" || !('0' <= rest[0] <= '9' || 'a' <= rest[0] <= 'f' || 'A' <= rest[0] <= 'F')
    requires rest == "" || (rest[0] != 'x' && rest[0] != 'X')
    ensures Strtol16(Digits(n, 16) + rest) == if n <= 0x7FFF_FFFF then n else 0x7FFF_FFFF
    ensures Strtol16("0x" + Digits(n, 16) + rest) == if n <= 0x7FFF_FFFF then n else 0x7FFF_FFFF
  {
    DigitsRoundTrip(n, 16, rest);
    var plain := Digits(n, 16) + rest;
    NoHexPrefix(Digits(n, 16), rest);
    assert ("0x" + Digits(n, 16) + rest)[2..] == plain;
  }

  function Upper(s: string): string {
    seq(|s|, i requires 0 <= i < |s| => if 'a' <= s[i] <= 'z' then s[i] - 32 as char else s[i])
  }

  /** strtol does not tell small letters from capitals. */
  lemma {:induction false} AccumulateUpper(s: string, base: Base, acc: nat)
    ensures Accumulate(Upper(s), base, acc) == Accumulate(s, base, acc)
  {
    if s != "" {
      assert Upper(s)[1..] == Upper(s[1..]);
      if IsDigit(s[0], base) {
        AccumulateUpper(s[1..], base, acc * base + DigitValue(s[0], base));
      }
    }
  }

  lemma StrtolUpper(s: string)
    ensures Strtol16(Upper(s)) == Strtol16(s)
  {
    if HasHexPrefix(s) {
      assert Upper(s)[2..] == Upper(s[2..]);
      AccumulateUpper(s[2..], 16, 0);
    } else {
      AccumulateUpper(s, 16, 0);
    }
  }
}
