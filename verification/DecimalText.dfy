/** Decimal digit strings and the numbers they denote. */
module DecimalText {
  import opened Positional


  predicate IsDigit(c: char) {
    '0' <= c <= '9'
  }

  predicate AllDigits(s: string) {
    forall i :: 0 <= i < |s| ==> IsDigit(s[i])
  }

  function Digits(s: string): (ds: seq<nat>)
    requires AllDigits(s)
    ensures |ds| == |s| && InBase(10, ds)
  {
    seq(|s|, i requires 0 <= i < |s| => s[i] as int - '0' as int)
  }

  function DigitChar(d: nat): char
    requires d < 10
  {
    ('0' as int + d) as char
  }

  function Text(ds: seq<nat>): (s: string)
    requires InBase(10, ds)
    ensures |s| == |ds| && AllDigits(s)
  {
    seq(|ds|, i requires 0 <= i < |ds| => DigitChar(ds[i]))
  }

  /** The number a digit string denotes; the empty string denotes zero. */
  function Value(s: string): nat
    requires AllDigits(s)
  {
    Val(10, Digits(s))
  }

  /** The program's `to_string` of an unsigned integer. */
  function NatText(n: nat): (s: string)
    ensures AllDigits(s) && s != []
  {
    NumeralDenotes(10, n);
    if n == 0 then "0" else Text(Numeral(10, n))
  }

  /** `trim_start_matches('0')`. */
  function TrimZeros(s: string): string {
    if s != [] && s[0] == '0' then TrimZeros(s[1..]) else s
  }

  lemma TextOfDigits(s: string)
    requires AllDigits(s)
    ensures Text(Digits(s)) == s
  {
  }

  lemma DigitsOfText(ds: seq<nat>)
    requires InBase(10, ds)
    ensures Digits(Text(ds)) == ds
  {
  }

  lemma {:induction false} TrimIsStrip(s: string)
    requires AllDigits(s)
    ensures AllDigits(TrimZeros(s)) && Digits(TrimZeros(s)) == StripZeros(Digits(s))
  {
    if s != [] && s[0] == '0' {
      TrimIsStrip(s[1..]);
      assert Digits(s[1..]) == Digits(s)[1..];
    }
  }

  /** Trimming leading zeros leaves the canonical text of the value, empty for zero. */
  lemma TrimIsCanonical(s: string)
    requires AllDigits(s)
    ensures AllDigits(TrimZeros(s)) && Value(TrimZeros(s)) == Value(s)
    ensures TrimZeros(s) == if Value(s) == 0 then "" else NatText(Value(s))
  {
    TrimIsStrip(s);
    StripKeepsValue(10, Digits(s));
    StripIsNumeral(10, Digits(s));
    NumeralDenotes(10, Value(s));
    TextOfDigits(TrimZeros(s));
  }

  lemma NatTextValue(n: nat)
    ensures Value(NatText(n)) == n
    ensures n > 0 ==> NatText(n)[0] != '0' && TrimZeros(NatText(n)) == NatText(n)
  {
    NumeralDenotes(10, n);
    if n == 0 {
      assert Digits("0") == [0];
      ValOfZeros(10, [0]);
    } else {
      DigitsOfText(Numeral(10, n));
    }
  }

  lemma NatTextInjective(m: nat, n: nat)
    requires NatText(m) == NatText(n)
    ensures m == n
  {
    NatTextValue(m);
    NatTextValue(n);
  }

  lemma DigitsConcat(s: string, t: string)
    requires AllDigits(s) && AllDigits(t)
    ensures AllDigits(s + t) && Digits(s + t) == Digits(s) + Digits(t)
  {
  }

  lemma ValueConcat(s: string, t: string)
    requires AllDigits(s) && AllDigits(t)
    ensures AllDigits(s + t) && Value(s + t) == Value(s) * Pow(10, |t|) + Value(t)
  {
    hide Val, Pow, Digits;
    DigitsConcat(s, t);
    ValConcat(10, Digits(s), Digits(t));
  }

  lemma ValueBound(s: string)
    requires AllDigits(s)
    ensures Value(s) < Pow(10, |s|)
  {
    ValBound(10, Digits(s));
  }

  lemma OneDigit(c: char)
    requires IsDigit(c)
    ensures AllDigits([c]) && Value([c]) == c as int - '0' as int
  {
    SingleDigit(10, c as int - '0' as int);
    assert Digits([c]) == [c as int - '0' as int];
  }

  function LowerChar(c: char): char {
    if 'A' <= c <= 'Z' then (c as int + 32) as char else c
  }

  /** The 26 capital letters become the small ones and every other character stays. */
  lemma LowersCapitals(c: char)
    ensures 'A' <= c <= 'Z' ==> LowerChar(c) == "abcdefghijklmnopqrstuvwxyz"[c as int - 'A' as int]
    ensures !('A' <= c <= 'Z') ==> LowerChar(c) == c
  {
  }

  /** `to_ascii_lowercase`. */
  function Lower(s: string): (t: string)
    ensures |t| == |s|
  {
    seq(|s|, i requires 0 <= i < |s| => LowerChar(s[i]))
  }

  lemma ZeroText()
    ensures NatText(0) == "0"
  {
  }
}
