/** strconv.FormatInt and strconv.ParseInt in base 10 for 64-bit integers, as MemStore counters use them. */
module Decimal {
  import opened Prelude

  const MIN64: int := -0x8000_0000_0000_0000
  const MAX64: int := 0x7fff_ffff_ffff_ffff

  predicate InRange(n: int) { MIN64 <= n <= MAX64 }

  /** Two's-complement wrap of a 64-bit sum. */
  function Wrap(n: int): (r: int)
    ensures InRange(r) && (InRange(n) ==> r == n)
  {
    (n - MIN64) % 0x1_0000_0000_0000_0000 + MIN64
  }

  /** Wrapping loses nothing but multiples of 2^64. */
  lemma WrapIsCongruent(n: int)
    ensures (n - Wrap(n)) % 0x1_0000_0000_0000_0000 == 0
  {}

  const DIGITS: string := "0123456789"

  function Digit(d: nat): char
    requires d < 10
  {
    DIGITS[d]
  }

  function DigitValue(c: char): Option<nat>
  {
    if '0' <= c <= '9' then Some((c as int) - ('0' as int)) else None
  }

  lemma DigitRoundTrip(d: nat)
    requires d < 10
    ensures DigitValue(Digit(d)) == Some(d)
  {}

  function FormatNat(n: nat): (s: string)
    ensures s != "" && '0' <= s[0] <= '9'
  {
    if n < 10 then [Digit(n)] else FormatNat(n / 10) + [Digit(n % 10)]
  }

  function FormatInt(n: int): string { if n < 0 then "-" + FormatNat(-n) else FormatNat(n) }

  /** Value of a non-empty string of digits. */
  function ParseNat(s: string): Option<nat>
  {
    if s == "" then None
    else
      match DigitValue(s[|s| - 1])
      case None => None
      case Some(d) =>
        if |s| == 1 then Some(d)
        else
          match ParseNat(s[..|s| - 1])
          case None => None
          case Some(n) => Some(10 * n + d)
  }

  /** ParseInt(s, 10, 64): an optional sign, digits, and the 64-bit range. */
  function ParseInt(s: string): Option<int>
  {
    if s == "" then None
    else
      var negative := s[0] == '-';
      match ParseNat(if negative || s[0] == '+' then s[1..] else s)
      case None => None
      case Some(n) =>
        var v: int := if negative then -(n as int) else n;
        if InRange(v) then Some(v) else None
  }

  lemma {:induction false} ParseFormatNat(n: nat)
    ensures ParseNat(FormatNat(n)) == Some(n)
  {
    DigitRoundTrip(n % 10);
    if n < 10 {
    } else {
      ParseFormatNat(n / 10);
      var s := FormatNat(n);
      assert s[..|s| - 1] == FormatNat(n / 10);
    }
  }

  /** What FormatInt writes, ParseInt reads back. */
  lemma ParseFormat(n: int)
    requires InRange(n)
    ensures ParseInt(FormatInt(n)) == Some(n)
  {
    var m: nat := if n < 0 then -n else n;
    ParseFormatNat(m);
  }
}
