// Decimal text of 64-bit integers, as fmt's %d and strconv.FormatInt write it and as
// strconv.ParseInt(s, 10, 64) reads it back (internal/pkg/utils/helper.go).
module Decimals {
  const MIN_INT64: int := -0x8000_0000_0000_0000
  const MAX_INT64: int := 0x7fff_ffff_ffff_ffff
  const MAX_UINT64: int := 0xffff_ffff_ffff_ffff

  predicate IsInt64(n: int) {
    MIN_INT64 <= n <= MAX_INT64
  }

  // Two's complement wrap-around of Go's signed 64-bit arithmetic.
  function Wrap64(n: int): int {
    if IsInt64(n) then n else (n - MIN_INT64) % (MAX_UINT64 + 1) + MIN_INT64
  }

  // Wrapping around gives the 64-bit value that differs by a multiple of 2^64.
  lemma Wrap64IsCongruent(n: int) returns (k: int)
    ensures IsInt64(Wrap64(n)) && Wrap64(n) == n + k * 0x1_0000_0000_0000_0000
  {
    k := if IsInt64(n) then 0 else -((n - MIN_INT64) / (MAX_UINT64 + 1));
  }

  function Digit(d: nat): char
    requires d < 10
  {
    (d + '0' as int) as char
  }

  predicate IsDigit(c: char) {
    '0' <= c <= '9'
  }

  function FormatNat(n: nat): string {
    if n < 10 then [Digit(n)] else FormatNat(n / 10) + [Digit(n % 10)]
  }

  function Format(n: int): string {
    if n < 0 then "-" + FormatNat(-n) else FormatNat(n)
  }

  // What scanning unsigned digits ends in: the first bad character or the first overflow wins.
  datatype Scanned = Digits(n: nat) | BadSyntax | Overflow

  function Scan(s: string, acc: nat): Scanned {
    if s == [] then Digits(acc)
    else if !IsDigit(s[0]) then BadSyntax
    else
      var next := acc * 10 + (s[0] as int - '0' as int);
      if next > MAX_UINT64 then Overflow else Scan(s[1..], next)
  }

  // The value strconv.ParseInt returns, with whether it returned no error. On a range error the
  // value is the nearest 64-bit bound, on a syntax error it is 0.
  datatype Parsed = Parsed(value: int, ok: bool)

  function ParseInt(s: string): (p: Parsed)
    ensures IsInt64(p.value)
  {
    if s == [] then Parsed(0, false)
    else
      var negative := s[0] == '-';
      var digits := if s[0] == '-' || s[0] == '+' then s[1..] else s;
      if digits == [] then Parsed(0, false)
      else
        match Scan(digits, 0)
        case BadSyntax => Parsed(0, false)
        case Overflow => Parsed(if negative then MIN_INT64 else MAX_INT64, false)
        case Digits(n) =>
          if negative then
            if n > -MIN_INT64 then Parsed(MIN_INT64, false) else Parsed(0 - n as int, true)
          else
            if n > MAX_INT64 then Parsed(MAX_INT64, false) else Parsed(n, true)
  }

  // utils.ParseInt64 drops the error and keeps the value.
  function ParseInt64(s: string): int {
    ParseInt(s).value
  }

  // The digits of n, whatever follows them, scan to n, or overflow as soon as they exceed 64 bits.
  lemma {:induction false} ScanReadsDigits(n: nat, rest: string)
    ensures FormatNat(n) != [] && IsDigit(FormatNat(n)[0])
    ensures Scan(FormatNat(n) + rest, 0) == if n <= MAX_UINT64 then Scan(rest, n) else Overflow
    decreases n
  {
    if n < 10 {
      assert (FormatNat(n) + rest)[1..] == rest;
    } else {
      var last := [Digit(n % 10)];
      ScanReadsDigits(n / 10, last + rest);
      assert FormatNat(n) + rest == FormatNat(n / 10) + (last + rest);
      assert (last + rest)[1..] == rest;
      assert (last + rest)[0] == Digit(n % 10);
    }
  }

  // Parsing the text of any integer gives it back, or the nearest 64-bit bound with an error.
  lemma ParseClampsFormat(n: int)
    ensures ParseInt(Format(n))
      == Parsed(if n < MIN_INT64 then MIN_INT64 else if n > MAX_INT64 then MAX_INT64 else n, IsInt64(n))
    ensures Format(n) != ""
  {
    var m: nat := if n < 0 then -n else n;
    ScanReadsDigits(m, []);
    assert FormatNat(m) + [] == FormatNat(m);
    if n < 0 {
      assert Format(n)[1..] == FormatNat(m);
    }
  }

  lemma ParseUndoesFormat(n: int)
    requires IsInt64(n)
    ensures ParseInt(Format(n)) == Parsed(n, true)
    ensures Format(n) != ""
  {
    ParseClampsFormat(n);
  }

  // The digits of a text, after its sign.
  function Unsigned(s: string): string {
    if s != "" && (s[0] == '-' || s[0] == '+') then s[1..] else s
  }

  lemma {:induction false} ScanNeedsDigits(s: string, acc: nat)
    ensures Scan(s, acc).Digits? ==> forall i | 0 <= i < |s| :: IsDigit(s[i])
    ensures Scan(s, acc).BadSyntax? ==> exists i :: 0 <= i < |s| && !IsDigit(s[i])
  {
    if s != [] && IsDigit(s[0]) {
      ScanNeedsDigits(s[1..], acc * 10 + (s[0] as int - '0' as int));
      assert forall i | 0 <= i < |s[1..]| :: s[1..][i] == s[i + 1];
    }
  }

  lemma FormatIsInjective(m: int, n: int)
    requires IsInt64(m) && IsInt64(n)
    requires Format(m) == Format(n)
    ensures m == n
  {
    ParseUndoesFormat(m);
    ParseUndoesFormat(n);
  }

  // A text that is no number, having no digits or another character among them, is refused, and
  // its value is 0 unless 64 bits were exceeded before that character.
  lemma OnlyDigitsParse(s: string)
    ensures ParseInt(s).ok ==> Unsigned(s) != "" && forall i | 0 <= i < |Unsigned(s)| :: IsDigit(Unsigned(s)[i])
    ensures !ParseInt(s).ok ==> ParseInt(s).value in {0, MIN_INT64, MAX_INT64}
    ensures Unsigned(s) == "" ==> ParseInt(s) == Parsed(0, false)
  {
    ScanNeedsDigits(Unsigned(s), 0);
  }
}
