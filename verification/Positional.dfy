/** Positional numerals over digit sequences, most significant digit first, in any base. */
module Positional {
  import opened Rounding

  predicate InBase(b: nat, ds: seq<nat>) {
    forall i :: 0 <= i < |ds| ==> ds[i] < b
  }

  function Val(b: nat, ds: seq<nat>): nat {
    if ds == [] then 0 else Val(b, ds[..|ds| - 1]) * b + ds[|ds| - 1]
  }

  function Quot(b: nat, n: nat): nat
    requires b > 1
  {
    n / b
  }

  function Rem(b: nat, n: nat): nat
    requires b > 1
  {
    n % b
  }

  lemma Split(b: nat, n: nat)
    requires b > 1
    ensures n == Quot(b, n) * b + Rem(b, n) && Rem(b, n) < b
    ensures n > 0 ==> Quot(b, n) < n
  {
    var q, r := n / b, n % b;
    assert n == q * b + r;
    if n > 0 && q >= n {
      MulAtLeast(b, q);
    }
  }

  lemma MulAtLeast(b: nat, q: nat)
    requires b > 1
    ensures q * b >= q + q
  {
  }

  /** The numeral of `n` without leading zeros; zero is the empty numeral. */
  function Numeral(b: nat, n: nat): seq<nat>
    requires b > 1
  {
    if n == 0 then []
    else
      hide Quot, Rem;
      Split(b, n);
      Numeral(b, Quot(b, n)) + [Rem(b, n)]
  }

  function StripZeros(ds: seq<nat>): seq<nat> {
    if ds != [] && ds[0] == 0 then StripZeros(ds[1..]) else ds
  }

  predicate Canonical(ds: seq<nat>) {
    ds == [] || ds[0] != 0
  }

  function Pow(b: nat, k: nat): nat {
    if k == 0 then 1 else b * Pow(b, k - 1)
  }

  lemma {:induction false} NumeralDenotes(b: nat, n: nat)
    requires b > 1
    ensures InBase(b, Numeral(b, n)) && Canonical(Numeral(b, n)) && Val(b, Numeral(b, n)) == n
  {
    hide Quot, Rem;
    if n != 0 {
      Split(b, n);
      NumeralDenotes(b, Quot(b, n));
      assert Numeral(b, n)[..|Numeral(b, n)| - 1] == Numeral(b, Quot(b, n));
      if Quot(b, n) == 0 {
        assert 0 * b == 0;
      } else {
        assert Numeral(b, Quot(b, n)) != [];
      }
    }
  }

  lemma DivideStep(b: nat, q: nat, r: nat)
    requires b > 1 && r < b
    ensures Quot(b, q * b + r) == q && Rem(b, q * b + r) == r
  {
    var n := q * b + r;
    var q', r' := n / b, n % b;
    assert n == q' * b + r';
    UniqueSplit(b, q, r, q', r');
  }

  /** A canonical numeral is the numeral of its value. */
  lemma {:induction false} CanonicalIsNumeral(b: nat, ds: seq<nat>)
    requires b > 1 && InBase(b, ds) && Canonical(ds)
    ensures Numeral(b, Val(b, ds)) == ds
    ensures ds != [] ==> Val(b, ds) > 0
  {
    hide Quot, Rem;
    if ds != [] {
      var init, last := ds[..|ds| - 1], ds[|ds| - 1];
      CanonicalIsNumeral(b, init);
      NonzeroStays(b, Val(b, init), last);
      DivideStep(b, Val(b, init), last);
      assert init == [] ==> last == ds[0];
      assert init + [last] == ds;
    }
  }

  lemma NonzeroStays(b: nat, x: nat, d: nat)
    requires b > 1
    ensures x > 0 ==> x * b + d > 0
    ensures 0 * b + d == d
  {
  }

  lemma {:induction false} ValOfZeros(b: nat, ds: seq<nat>)
    requires forall i :: 0 <= i < |ds| ==> ds[i] == 0
    ensures Val(b, ds) == 0
  {
    if ds != [] {
      ValOfZeros(b, ds[..|ds| - 1]);
    }
  }

  /** Reading a concatenation: the left part is shifted past the right one. */
  lemma {:induction false} ValConcat(b: nat, left: seq<nat>, right: seq<nat>)
    ensures Val(b, left + right) == Val(b, left) * Pow(b, |right|) + Val(b, right)
  {
    if right == [] {
      assert left + right == left;
    } else {
      var init, last := right[..|right| - 1], right[|right| - 1];
      ValConcat(b, left, init);
      assert (left + right)[..|left + right| - 1] == left + init;
      ShiftOnce(b, Val(b, left), Pow(b, |init|), Val(b, init), last);
    }
  }

  lemma ShiftOnce(b: nat, x: nat, p: nat, y: nat, d: nat)
    ensures (x * p + y) * b + d == x * (b * p) + (y * b + d)
  {
    assert (x * p + y) * b == x * p * b + y * b;
    assert x * p * b == x * (b * p);
  }

  lemma {:induction false} StripKeepsValue(b: nat, ds: seq<nat>)
    requires InBase(b, ds)
    ensures InBase(b, StripZeros(ds)) && Canonical(StripZeros(ds)) && Val(b, StripZeros(ds)) == Val(b, ds)
  {
    if ds != [] && ds[0] == 0 {
      StripKeepsValue(b, ds[1..]);
      ValConcat(b, [0], ds[1..]);
      assert ds == [0] + ds[1..];
    }
  }

  /** Stripping leading zeros leaves the numeral of the value. */
  lemma StripIsNumeral(b: nat, ds: seq<nat>)
    requires b > 1 && InBase(b, ds)
    ensures StripZeros(ds) == Numeral(b, Val(b, ds))
  {
    StripKeepsValue(b, ds);
    CanonicalIsNumeral(b, StripZeros(ds));
  }

  lemma {:induction false} ValBound(b: nat, ds: seq<nat>)
    requires b > 1 && InBase(b, ds)
    ensures Val(b, ds) < Pow(b, |ds|)
  {
    if ds != [] {
      var init, last := ds[..|ds| - 1], ds[|ds| - 1];
      ValBound(b, init);
      MulStep(b, Val(b, init), Pow(b, |init|));
    }
  }

  lemma SingleDigit(b: nat, d: nat)
    ensures Val(b, [d]) == d
  {
    assert [d][..0] == [];
    assert Val(b, []) * b == 0;
  }

  lemma {:induction false} PowGrows(b: nat, k: nat)
    requires b > 1
    ensures Pow(b, k) >= 1 && (k >= 1 ==> Pow(b, k) > 1)
  {
    if k >= 1 {
      PowGrows(b, k - 1);
    }
  }

  lemma {:induction false} PowMonotone(b: nat, j: nat, k: nat)
    requires b >= 1 && j <= k
    ensures 1 <= Pow(b, j) <= Pow(b, k)
  {
    if j < k {
      PowMonotone(b, j, k - 1);
      AtLeast(b, Pow(b, k - 1));
    } else if j > 0 {
      PowMonotone(b, j - 1, k - 1);
      AtLeast(b, Pow(b, k - 1));
    }
  }

  lemma AtLeast(b: nat, p: nat)
    requires b >= 1
    ensures b * p >= p
  {
  }
}
