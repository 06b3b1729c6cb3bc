/** Digit vectors grown from the least significant end, as the program's in-place loops keep them. */
module LittleEndian {
  import opened Positional
  import opened DecimalText
  import opened Rounding
  import opened Sequences

  /** The number denoted by a vector whose first digit is the least significant. */
  function Low(b: nat, ds: seq<nat>): nat {
    if ds == [] then 0 else Low(b, ds[..|ds| - 1]) + ds[|ds| - 1] * Pow(b, |ds| - 1)
  }

  lemma ReverseInBase(b: nat, ds: seq<nat>)
    requires InBase(b, ds)
    ensures InBase(b, Reverse(ds))
  {
  }

  lemma {:induction false} ReverseDenotes(b: nat, ds: seq<nat>)
    ensures Val(b, Reverse(ds)) == Low(b, ds)
  {
    if ds != [] {
      var init, last := ds[..|ds| - 1], ds[|ds| - 1];
      ReverseDenotes(b, init);
      ValConcat(b, [last], Reverse(init));
      SingleDigit(b, last);
    }
  }

  lemma LowPush(b: nat, ds: seq<nat>, d: nat)
    ensures Low(b, ds + [d]) == Low(b, ds) + d * Pow(b, |ds|)
  {
    assert (ds + [d])[..|ds|] == ds;
  }

  /** Splitting a carry into the digit kept and the carry passed on, `p` places up. */
  lemma CarryStep(total: nat, p: nat, q: nat, r: nat)
    requires total == q * 10 + r
    ensures r * p + q * (10 * p) == total * p
  {
    assert q * (10 * p) == (q * 10) * p;
    Distribute(p, q * 10, r);
  }

  /** The number held by a digit vector and a carry still to be pushed. */
  function Held(digits: seq<nat>, carry: nat): nat {
    Low(10, digits) + carry * Pow(10, |digits|)
  }

  lemma HeldPush(digits: seq<nat>, total: nat)
    ensures Held(digits + [total % 10], total / 10) == Held(digits, total)
  {
    LowPush(10, digits, total % 10);
    CarryStep(total, Pow(10, |digits|), total / 10, total % 10);
  }

  lemma HeldDone(digits: seq<nat>)
    ensures Held(digits, 0) == Low(10, digits)
  {
  }

  /** `while carry > 0 { digits.push(carry % 10); carry /= 10 }` */
  method PushCarry(digits: seq<nat>, carry: nat) returns (out: seq<nat>)
    requires InBase(10, digits)
    ensures InBase(10, out) && |out| >= |digits| && Low(10, out) == Held(digits, carry)
  {
    hide Low, Held;
    out := digits;
    var rest := carry;
    while rest > 0
      invariant InBase(10, out) && |out| >= |digits| && Held(out, rest) == Held(digits, carry)
    {
      HeldPush(out, rest);
      out := out + [rest % 10];
      rest := rest / 10;
    }
    HeldDone(out);
  }

  /** The vector read back as text, most significant digit first. */
  function ReadBack(digits: seq<nat>): (s: string)
    requires InBase(10, digits)
    ensures AllDigits(s) && |s| == |digits|
  {
    Text(Reverse(digits))
  }

  lemma ReadBackDenotes(digits: seq<nat>)
    requires InBase(10, digits)
    ensures Value(ReadBack(digits)) == Low(10, digits)
  {
    ReverseDenotes(10, digits);
    DigitsOfText(Reverse(digits));
  }
}
