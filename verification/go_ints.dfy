/** Go's 64-bit integers and the decimal conversions the CLI relies on. */
module GoInts {
  import opened Wrappers

  const MAX_INT64: int := 0x7FFF_FFFF_FFFF_FFFF
  const MIN_INT64: int := -0x8000_0000_0000_0000

  predicate IsInt64(n: int) { MIN_INT64 <= n <= MAX_INT64 }

  /** Two's-complement wrap-around of an exact result to int64. */
  function Wrap64(n: int): (r: int)
    ensures IsInt64(r)
    ensures IsInt64(n) ==> r == n
  {
    (n - MIN_INT64) % 0x1_0000_0000_0000_0000 + MIN_INT64
  }

  /** Go's `%`: the remainder of division truncated toward zero. */
  function Rem(n: int, d: int): int
    requires d > 0
  {
    if n >= 0 then n % d else -((-n) % d)
  }

  predicate IsDigit(c: char) { '0' <= c <= '9' }

  predicate AllDigits(s: string) { forall i | 0 <= i < |s| :: IsDigit(s[i]) }

  function DigitsValue(s: string): nat
    requires AllDigits(s)
  {
    if s == "" then 0
    else DigitsValue(s[..|s| - 1]) * 10 + (s[|s| - 1] - '0') as nat
  }

  predicate HasSign(s: string) { s != "" && (s[0] == '+' || s[0] == '-') }

  function SkipSign(s: string): string { if HasSign(s) then s[1..] else s }

  /** strconv.Atoi on a 64-bit platform: an optional sign and decimal digits
      whose value fits int64; anything else is an error. */
  function Atoi(s: string): (r: Option<int>)
    ensures r.Some? ==> IsInt64(r.value)
  {
    var digits := SkipSign(s);
    if digits == "" || !AllDigits(digits) then None
    else
      var n: int := if s[0] == '-' then -(DigitsValue(digits) as int) else DigitsValue(digits);
      if IsInt64(n) then Some(n) else None
  }

  function DigitChar(d: nat): char
    requires d < 10
  {
    '0' + d as char
  }

  function NatToDigits(n: nat): (s: string)
    ensures s != "" && AllDigits(s) && DigitsValue(s) == n
    ensures n > 0 ==> s[0] != '0'
  {
    if n < 10 then
      var s := [DigitChar(n)];
      assert s[..|s| - 1] == "";
      s
    else
      var front := NatToDigits(n / 10);
      var s := front + [DigitChar(n % 10)];
      assert s[..|s| - 1] == front;
      s
  }

  /** strconv.Itoa. */
  function Itoa(n: int): (s: string)
    ensures s != ""
  {
    if n < 0 then "-" + NatToDigits(-n) else NatToDigits(n)
  }

  /** Parsing what Itoa printed gives the integer back, for every int64. */
  lemma ItoaRoundTrip(n: int)
    requires IsInt64(n)
    ensures Atoi(Itoa(n)) == Some(n)
  {
    if n < 0 {
      assert ("-" + NatToDigits(-n))[1..] == NatToDigits(-n);
    }
  }

  /** A number may be written with either sign, or none; nothing else is one. */
  lemma AtoiSigned(s: string)
    ensures s != "" && AllDigits(s) ==>
              var n: int := DigitsValue(s);
              && Atoi(s) == (if IsInt64(n) then Some(n) else None) && Atoi("+" + s) == Atoi(s)
              && Atoi("-" + s) == if IsInt64(-n) then Some(-n) else None
    ensures s == "" || !AllDigits(s) ==> Atoi("+" + s).None? && Atoi("-" + s).None?
  {
    assert ("+" + s)[1..] == s && ("-" + s)[1..] == s;
    if s != "" && AllDigits(s) { assert IsDigit(s[0]); }
  }
}
