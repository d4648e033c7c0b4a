/** Numbers as text. */
module Digits {
  /** `str(n)` of a natural number. */
  function Decimal(n: nat): string {
    if n < 10 then ["0123456789"[n]] else Decimal(n / 10) + ["0123456789"[n % 10]]
  }

  /** `str(n)`. */
  function Signed(n: int): string {
    if n < 0 then "-" + Decimal(-n) else Decimal(n)
  }

  /** The number that a text of decimal digits stands for. */
  function ValueOf(s: string): int {
    if s == "" then 0 else 10 * ValueOf(s[..|s| - 1]) + (s[|s| - 1] as int - '0' as int)
  }

  lemma {:induction false} DigitIs(d: nat)
    requires d < 10
    ensures var c := "0123456789"[d];
            '0' <= c <= '9' && c as int - '0' as int == d && (c == '0' <==> d == 0)
  {
  }

  lemma {:induction false} ValueAppend(s: string, d: nat)
    requires d < 10
    ensures ValueOf(s + ["0123456789"[d]]) == 10 * ValueOf(s) + d
  {
    DigitIs(d);
    assert (s + ["0123456789"[d]])[..|s|] == s;
  }

  ghost predicate AllDigits(s: string) {
    forall i :: 0 <= i < |s| ==> '0' <= s[i] <= '9'
  }

  /** The text has digits only, no leading zero, and stands for the number. */
  lemma {:induction false} DecimalIs(n: nat)
    ensures ValueOf(Decimal(n)) == n && AllDigits(Decimal(n))
    ensures |Decimal(n)| >= 1 && (n >= 1 ==> Decimal(n)[0] != '0') && (n == 0 ==> Decimal(n) == "0")
  {
    if n >= 10 {
      DecimalIs(n / 10);
      DigitIs(n % 10);
      ValueAppend(Decimal(n / 10), n % 10);
    } else {
      DigitIs(n);
      ValueAppend("", n);
      assert "" + ["0123456789"[n]] == ["0123456789"[n]];
    }
  }

  /** A minus sign only in front of negative numbers. */
  lemma {:induction false} SignedIs(n: int)
    ensures if n < 0 then Signed(n) != "" && Signed(n)[0] == '-' && ValueOf(Signed(n)[1..]) == 0 - n
            else ValueOf(Signed(n)) == n && '-' !in Signed(n)
  {
    DecimalIs(if n < 0 then 0 - n else n);
    if n < 0 {
      assert Signed(n)[1..] == Decimal(0 - n);
    }
  }
}
