/** Decimal numerals. */
module Decimal {
  import opened Wrappers

  function Digit(n: int): char
    requires 0 <= n <= 9
  {
    ('0' as int + n) as char
  }

  function DigitValue(c: char): Option<int> {
    if '0' <= c <= '9' then Some(c as int - '0' as int) else None
  }

  /** `str(n)`. */
  function Print(n: nat): string {
    if n < 10 then [Digit(n)] else Print(n / 10) + [Digit(n % 10)]
  }

  /** `int(s)` of a non-empty run of digits. */
  function Parse(s: string): Option<nat> {
    if s == [] then None
    else
      var last := DigitValue(s[|s| - 1]);
      if last.None? then None
      else if |s| == 1 then Some(last.value)
      else
        var rest := Parse(s[..|s| - 1]);
        if rest.None? then None else Some(rest.value * 10 + last.value)
  }

  lemma {:induction false} ParsePrint(n: nat)
    ensures Parse(Print(n)) == Some(n)
    ensures forall i :: 0 <= i < |Print(n)| ==> DigitValue(Print(n)[i]).Some?
  {
    if n < 10 {
    } else {
      ParsePrint(n / 10);
      assert Print(n)[..|Print(n)| - 1] == Print(n / 10);
    }
  }

  /** A numeral gains its last digit behind the others. */
  lemma PrintAppendsDigit(n: nat, digit: nat)
    requires digit < 10
    ensures Print(digit) == ["0123456789"[digit]]
    ensures n > 0 ==> Print(10 * n + digit) == Print(n) + ["0123456789"[digit]]
  {
    assert Digit(digit) == "0123456789"[digit];
    assert (10 * n + digit) / 10 == n && (10 * n + digit) % 10 == digit;
  }
}
