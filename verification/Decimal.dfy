/** Decimal integers as Go prints and parses them: `%d`, `strconv.ParseInt(s, 10, 64)` and,
    on a 64-bit machine, `strconv.Atoi`. */
module Decimal {
  import opened Options

  const TWO_TO_THE_63: int := 0x8000_0000_0000_0000

  predicate IsInt64(n: int) {
    -TWO_TO_THE_63 <= n < TWO_TO_THE_63
  }

  predicate IsDigit(c: char) {
    '0' <= c <= '9'
  }

  function Digit(d: nat): char
    requires d < 10
  {
    ('0' as int + d) as char
  }

  function FormatNat(n: nat): string {
    if n < 10 then [Digit(n)] else FormatNat(n / 10) + [Digit(n % 10)]
  }

  function FormatInt(n: int): string {
    if n < 0 then "-" + FormatNat(-n) else FormatNat(n)
  }

  predicate AllDigits(s: string) {
    forall i | 0 <= i < |s| :: IsDigit(s[i])
  }

  function ValueOf(s: string): int
    requires AllDigits(s)
  {
    if s == "" then 0 else 10 * ValueOf(s[..|s| - 1]) + (s[|s| - 1] as int - '0' as int)
  }

  /** An optional sign, at least one digit, nothing else, and within 64 bits. */
  function ParseInt(s: string): Option<int> {
    var signed := s != "" && (s[0] == '+' || s[0] == '-');
    var digits := if signed then s[1..] else s;
    if digits == "" || !AllDigits(digits) then None
    else
      var n: int := if s[0] == '-' then -ValueOf(digits) else ValueOf(digits);
      if IsInt64(n) then Some(n) else None
  }

  lemma {:induction false} ValueOfFormat(n: nat)
    ensures FormatNat(n) != "" && AllDigits(FormatNat(n)) && ValueOf(FormatNat(n)) == n
  {
    var s := FormatNat(n);
    if n < 10 {
      assert s[..0] == "";
    } else {
      ValueOfFormat(n / 10);
      assert s[..|s| - 1] == FormatNat(n / 10);
    }
  }

  /** What `%d` prints parses back to the same number, exactly for the 64-bit integers. */
  lemma ParseOfFormat(n: int)
    ensures ParseInt(FormatInt(n)) == if IsInt64(n) then Some(n) else None
  {
    if n < 0 {
      ParseOfFormatNegative(n);
    } else {
      ValueOfFormat(n);
      assert IsDigit(FormatNat(n)[0]);
    }
  }

  lemma ParseOfFormatNegative(n: int)
    requires n < 0
    ensures ParseInt("-" + FormatNat(-n)) == if IsInt64(n) then Some(n) else None
  {
    ValueOfFormat(-n);
    var s := "-" + FormatNat(-n);
    assert s[0] == '-' && s[1..] == FormatNat(-n);
  }

  lemma FormatHasNoColon(n: int)
    ensures ':' !in FormatInt(n)
  {
    ValueOfFormat(if n < 0 then -n else n);
  }
}
