/** Floor and ceiling division over the naturals, each characterised by the inequality it decides. */
module Rounding {
  /** The quotient, written by subtraction so that unfolding it stays linear. */
  function Floor(n: nat, d: nat): nat
    requires d > 0
  {
    if n < d then 0 else 1 + Floor(n - d, d)
  }

  function Remainder(n: nat, d: nat): nat
    requires d > 0
  {
    if n < d then n else Remainder(n - d, d)
  }

  function Ceil(n: nat, d: nat): nat
    requires d > 0
  {
    if Remainder(n, d) != 0 then Floor(n, d) + 1 else Floor(n, d)
  }

  function Quotient(n: nat, d: nat, roundUp: bool): nat
    requires d > 0
  {
    if roundUp then Ceil(n, d) else Floor(n, d)
  }

  lemma MulMono(x: nat, y: nat, k: nat)
    requires x <= y
    ensures x * k <= y * k
  {
  }

  lemma Distribute(x: int, y: int, z: int)
    ensures x * (y + z) == x * y + x * z && (y + z) * x == y * x + z * x
  {
  }

  lemma Reassociate(x: nat, y: nat, z: nat)
    ensures x * y * z == x * (y * z)
  {
  }

  lemma MulLess(x: nat, limitX: nat, y: nat, limitY: nat)
    requires x < limitX && y < limitY
    ensures x * y < limitX * limitY
  {
    MulMono(x, limitX, y);
    MulMono(y, limitY - 1, limitX);
    assert y * limitX <= (limitY - 1) * limitX == limitY * limitX - limitX;
  }

  lemma MulCancel(x: nat, y: nat, k: nat)
    requires k > 0 && x * k <= y * k
    ensures x <= y
  {
    if x > y {
      MulMono(y + 1, x, k);
    }
  }

  lemma {:induction false} DivisionLaw(n: nat, d: nat)
    requires d > 0
    ensures Floor(n, d) * d + Remainder(n, d) == n && Remainder(n, d) < d
  {
    if n >= d {
      DivisionLaw(n - d, d);
      assert (1 + Floor(n - d, d)) * d == d + Floor(n - d, d) * d;
    }
  }

  lemma UniqueSplit(b: nat, q: nat, r: nat, q': nat, r': nat)
    requires r < b && r' < b && q * b + r == q' * b + r'
    ensures q == q' && r == r'
  {
    if q < q' {
      MulStep(b, q, q');
    } else if q' < q {
      MulStep(b, q', q);
    }
  }

  lemma MulStep(b: nat, x: nat, y: nat)
    requires x < y
    ensures x * b + b <= y * b
  {
    if x + 1 < y {
      MulStep(b, x, y - 1);
    }
    assert y * b == (y - 1) * b + b;
  }

  lemma MachineSplit(n: nat, d: nat)
    requires d > 0
    ensures n == (n / d) * d + n % d && 0 <= n / d && 0 <= n % d < d
  {
  }

  /** The machine's quotient and remainder. */
  lemma FloorIsDivision(n: nat, d: nat)
    requires d > 0
    ensures Floor(n, d) == n / d && Remainder(n, d) == n % d
  {
    hide Floor, Remainder;
    DivisionLaw(n, d);
    MachineSplit(n, d);
    UniqueSplit(d, Floor(n, d), Remainder(n, d), n / d, n % d);
  }

  lemma FloorBounds(n: nat, d: nat)
    requires d > 0
    ensures Floor(n, d) * d <= n < (Floor(n, d) + 1) * d
  {
    DivisionLaw(n, d);
  }

  lemma CeilBounds(n: nat, d: nat)
    requires d > 0
    ensures n <= Ceil(n, d) * d < n + d
  {
    hide Floor, Remainder;
    DivisionLaw(n, d);
  }

  /** floor(n/d) is the largest k with k*d <= n. */
  lemma FloorGalois(n: nat, d: nat, k: nat)
    requires d > 0
    ensures k <= Floor(n, d) <==> k * d <= n
  {
    FloorBounds(n, d);
    if k <= Floor(n, d) {
      MulMono(k, Floor(n, d), d);
    } else {
      MulMono(Floor(n, d) + 1, k, d);
    }
  }

  /** ceil(n/d) is the smallest k with n <= k*d. */
  lemma CeilGalois(n: nat, d: nat, k: nat)
    requires d > 0
    ensures Ceil(n, d) <= k <==> n <= k * d
  {
    CeilBounds(n, d);
    if Ceil(n, d) <= k {
      MulMono(Ceil(n, d), k, d);
    } else {
      MulMono(k + 1, Ceil(n, d), d);
    }
  }
}
