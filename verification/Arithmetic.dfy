/** The few facts about division and multiples that ticks and ring indices need. */
module Arithmetic {

  lemma NextMultiple(t: int, d: nat)
    ensures (t + 1) * d == t * d + d
  {
  }

  lemma {:induction false} MultipleGap(t: int, u: int, d: nat)
    requires t < u
    ensures t * d + d <= u * d
    decreases u - t
  {
    NextMultiple(u - 1, d);
    if t + 1 < u {
      MultipleGap(t, u - 1, d);
    }
  }

  lemma Division(n: int, d: nat)
    requires d >= 1
    ensures n == n / d * d + n % d && 0 <= n % d < d
  {
  }

  /** Quotient and remainder are unique. */
  lemma DivisionUnique(n: int, d: nat, q: int, r: nat)
    requires r < d && n == q * d + r
    ensures n / d == q && n % d == r
  {
    Division(n, d);
    if q < n / d {
      MultipleGap(q, n / d, d);
    } else if n / d < q {
      MultipleGap(n / d, q, d);
    }
  }

  lemma MultipleDivides(t: nat, d: nat)
    requires d >= 1
    ensures t * d / d == t
  {
    DivisionUnique(t * d, d, t, 0);
  }
}
