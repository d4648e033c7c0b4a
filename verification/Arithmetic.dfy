/** Multiplication and division in small steps. */
module Arithmetic {

  function Min(a: int, b: int): int {
    if a < b then a else b
  }

  lemma {:induction false} OneMoreRound(c: int, q: int)
    ensures c * (q + 1) == c * q + c
    ensures c >= 0 && q >= 0 ==> c * q >= 0
    ensures q == 0 ==> c * q == 0
  {
  }

  /** `a / b`, counted. */
  function Quotient(a: int, b: nat): (q: nat)
    requires b >= 1
    decreases a
  {
    if a < b then 0 else 1 + Quotient(a - b, b)
  }

  lemma {:induction false} QuotientIsDivision(a: nat, b: nat)
    requires b >= 1
    ensures Quotient(a, b) == a / b
  {
    QuotientBounds(a, b);
    OneMoreRound(b, Quotient(a, b));
    DivisionBounds(a, b);
    QuotientUnique(a, b, Quotient(a, b), a / b);
  }

  lemma {:induction false} DivisionBounds(a: nat, b: nat)
    requires b >= 1
    ensures b * (a / b) <= a < b * (a / b) + b
  {
  }

  lemma {:induction false} QuotientUnique(a: nat, b: nat, p: nat, q: nat)
    requires b * p <= a < b * p + b && b * q <= a < b * q + b
    ensures p == q
  {
    if p < q {
      ProductMonotone(b, p + 1, q);
      OneMoreRound(b, p);
    } else if q < p {
      ProductMonotone(b, q + 1, p);
      OneMoreRound(b, q);
    }
  }

  lemma {:induction false} ProductMonotone(c: nat, a: nat, b: nat)
    requires a <= b
    ensures c * a <= c * b
  {
  }

  lemma {:induction false} QuotientMonotone(a: int, c: int, b: nat)
    requires b >= 1 && a <= c
    ensures Quotient(a, b) <= Quotient(c, b)
    ensures a <= c - b && a >= 0 ==> Quotient(a, b) <= Quotient(c, b) - 1
    decreases c
  {
    if a >= b {
      QuotientMonotone(a - b, c - b, b);
    }
  }

  lemma {:induction false} QuotientBounds(a: nat, b: nat)
    requires b >= 1
    ensures b * Quotient(a, b) <= a < b * (Quotient(a, b) + 1)
  {
    if a >= b {
      QuotientBounds(a - b, b);
      OneMoreRound(b, Quotient(a - b, b));
      OneMoreRound(b, Quotient(a, b));
    }
  }
}
