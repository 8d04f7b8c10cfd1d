/** Decimal notation of numbers, as string formatting prints it and as the
    integer conversion reads it. */
module Decimals {
  import opened Wrappers

  const DIGITS: string := "0123456789"

  function Decimal(n: nat): (s: string)
    ensures |s| > 0
  {
    if n < 10 then [DIGITS[n]] else Decimal(n / 10) + [DIGITS[n % 10]]
  }

  predicate IsDigit(c: char) {
    '0' <= c <= '9'
  }

  /** Reads a non-empty row of digits. */
  function ParseDigits(s: string): Option<nat> {
    if |s| == 0 || !IsDigit(s[|s| - 1]) then None
    else
      var d := s[|s| - 1] as int - '0' as int;
      if |s| == 1 then Some(d)
      else match ParseDigits(s[..|s| - 1])
        case None => None
        case Some(high) => Some(10 * high + d)
  }

  function Signed(sign: char, n: int): int {
    if sign == '-' then -n else n
  }

  /** Reads an integer with an optional sign. */
  function ParseInt(s: string): Option<int> {
    if |s| > 0 && (s[0] == '-' || s[0] == '+') then
      match ParseDigits(s[1..])
      case None => None
      case Some(n) => Some(Signed(s[0], n))
    else
      match ParseDigits(s)
      case None => None
      case Some(n) => Some(n)
  }

  lemma {:induction false} DecimalDigits(n: nat)
    ensures ParseDigits(Decimal(n)) == Some(n)
    ensures IsDigit(Decimal(n)[0])
  {
    assert forall d :: 0 <= d < 10 ==> IsDigit(DIGITS[d]) && DIGITS[d] as int - '0' as int == d;
    if n >= 10 {
      DecimalDigits(n / 10);
      assert Decimal(n)[..|Decimal(n)| - 1] == Decimal(n / 10);
    }
  }

  /** What was printed is read back, with a sign in front too. */
  lemma PrintedIsRead(n: nat)
    ensures ParseInt(Decimal(n)) == Some(n)
    ensures ParseInt("-" + Decimal(n)) == Some(-(n as int)) && ParseInt("+" + Decimal(n)) == Some(n)
  {
    DecimalDigits(n);
  }

  /** Nothing but digits after an optional sign is read, and at least one of them. */
  lemma {:induction false} ReadHasDigits(s: string)
    ensures ParseDigits(s).Some? <==> s != [] && forall i :: 0 <= i < |s| ==> '0' <= s[i] <= '9'
  {
    if |s| > 1 {
      ReadHasDigits(s[..|s| - 1]);
    }
  }
}
