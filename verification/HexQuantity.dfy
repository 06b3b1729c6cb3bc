/** Hexadecimal and decimal quantities, crates/uniswap/src/amount.rs. */
module HexQuantity {
  import opened Wrappers
  import opened Positional
  import opened Rounding
  import opened LittleEndian
  import opened DecimalText
  import opened DecimalNumber
  import opened Sequences

  predicate IsHexDigit(c: char) {
    '0' <= c <= '9' || 'a' <= c <= 'f' || 'A' <= c <= 'F'
  }

  predicate AllHex(s: string) {
    forall i :: 0 <= i < |s| ==> IsHexDigit(s[i])
  }

  function HexDigit(c: char): (d: nat)
    requires IsHexDigit(c)
    ensures d < 16
  {
    if c <= '9' then c as int - '0' as int
    else if c <= 'F' then c as int - 'A' as int + 10
    else c as int - 'a' as int + 10
  }

  /** The sixteen digits, in either case. */
  lemma HexDigitsInOrder(d: nat)
    requires d < 16
    ensures IsHexDigit("0123456789abcdef"[d]) && HexDigit("0123456789abcdef"[d]) == d
    ensures IsHexDigit("0123456789ABCDEF"[d]) && HexDigit("0123456789ABCDEF"[d]) == d
  {
  }

  function HexDigits(s: string): (ds: seq<nat>)
    requires AllHex(s)
    ensures |ds| == |s| && InBase(16, ds)
  {
    seq(|s|, i requires 0 <= i < |s| => HexDigit(s[i]))
  }

  /** The number a hex string denotes, in either case. */
  function HexValue(s: string): nat
    requires AllHex(s)
  {
    Val(16, HexDigits(s))
  }

  function HexChar(d: nat): (c: char)
    requires d < 16
    ensures IsHexDigit(c) && HexDigit(c) == d
  {
    if d < 10 then ('0' as int + d) as char else ('a' as int + (d - 10)) as char
  }

  function HexChars(ds: seq<nat>): (s: string)
    requires InBase(16, ds)
    ensures |s| == |ds| && AllHex(s) && HexDigits(s) == ds
  {
    seq(|ds|, i requires 0 <= i < |ds| => HexChar(ds[i]))
  }

  /** The lower-case hex text of `n` without leading zeros; zero is the empty text. */
  function HexText(n: nat): (s: string)
    ensures AllHex(s)
  {
    NumeralDenotes(16, n);
    HexChars(Numeral(16, n))
  }

  // ---------------------------------------------------------------- hex text and its value

  lemma LowerChars(s: string)
    requires AllHex(s)
    ensures Lower(s) == HexChars(HexDigits(s))
  {
    forall i | 0 <= i < |s| ensures Lower(s)[i] == HexChars(HexDigits(s))[i] {
      LowerOfHex(s[i]);
    }
  }

  lemma LowerOfHex(c: char)
    requires IsHexDigit(c)
    ensures LowerChar(c) == HexChar(HexDigit(c))
  {
  }

  lemma {:induction false} TrimHexIsStrip(s: string)
    requires AllHex(s)
    ensures AllHex(TrimZeros(s)) && HexDigits(TrimZeros(s)) == StripZeros(HexDigits(s))
  {
    if s != [] {
      assert HexDigits(s)[0] == 0 <==> s[0] == '0';
      if s[0] == '0' {
        TrimHexIsStrip(s[1..]);
        assert HexDigits(s[1..]) == HexDigits(s)[1..];
      }
    }
  }

  /** Trimming and lower-casing a hex string leaves the canonical hex text of its value. */
  lemma TrimmedHexIsCanonical(s: string)
    requires AllHex(s)
    ensures Lower(TrimZeros(s)) == HexText(HexValue(s))
  {
    TrimHexIsStrip(s);
    LowerChars(TrimZeros(s));
    StripIsNumeral(16, HexDigits(s));
  }

  lemma HexTextValue(n: nat)
    ensures HexValue(HexText(n)) == n && (HexText(n) == "" <==> n == 0)
  {
    NumeralDenotes(16, n);
  }

  lemma HexTextShape(n: nat)
    ensures var s := HexText(n);
            HexValue(s) == n && Lower(s) == s && (s != "" ==> s[0] != '0')
  {
    NumeralDenotes(16, n);
    LowerChars(HexText(n));
  }

  lemma HexTextInjective(m: nat, n: nat)
    ensures HexText(m) == HexText(n) <==> m == n
  {
    HexTextValue(m);
    HexTextValue(n);
  }

  // ---------------------------------------------------------------- hex to decimal

  /** What hex_to_decimal is meant to return. */
  function HexAsDecimal(hex: string): Result<string, string> {
    if hex == "" || !AllHex(hex) then Err("expected a hex quantity") else Ok(NatText(HexValue(hex)))
  }

  /** Multiplying by sixteen in place, digit `j`. */
  lemma SixteenfoldStep(before: seq<nat>, done: seq<nat>, j: nat, h: nat, carry: nat)
    requires j < |before| && |done| == j
    requires Held(done, carry) == 16 * Low(10, before[..j]) + h
    ensures Held(done, before[j] * 16 + carry) == 16 * Low(10, before[..j + 1]) + h
  {
    hide Low, Pow;
    assert before[..j + 1] == before[..j] + [before[j]];
    LowPush(10, before[..j], before[j]);
    Distribute(Pow(10, j), before[j] * 16, carry);
    assert before[j] * 16 * Pow(10, j) == 16 * (before[j] * Pow(10, j));
  }

  /** One hex digit: every decimal digit times sixteen plus the carry, then the carry's own digits. */
  method AppendHexDigit(before: seq<nat>, h: nat) returns (digits: seq<nat>)
    requires InBase(10, before) && h < 16
    ensures InBase(10, digits) && |digits| >= |before| && Low(10, digits) == 16 * Low(10, before) + h
  {
    hide Low, Held;
    digits := before;
    var carry := h;
    var j := 0;
    NothingHeld(h);
    while j < |digits|
      invariant 0 <= j <= |digits| == |before| && InBase(10, digits) && carry < 16
      invariant Held(digits[..j], carry) == 16 * Low(10, before[..j]) + h
      invariant digits[j..] == before[j..]
    {
      assert digits[j] == digits[j..][0] == before[j];
      var product := digits[j] * 16 + carry;
      SixteenfoldStep(before, digits[..j], j, h, carry);
      HeldPush(digits[..j], product);
      assert digits[j := product % 10][..j + 1] == digits[..j] + [product % 10];
      assert digits[j := product % 10][j + 1..] == digits[j..][1..];
      assert before[j..][1..] == before[j + 1..];
      digits := digits[j := product % 10];
      carry := product / 10;
      j := j + 1;
    }
    assert digits[..j] == digits && before[..j] == before;
    digits := PushCarry(digits, carry);
  }

  lemma NothingHeld(h: nat)
    ensures Held([], h) == h && Low(10, []) == 0
  {
  }

  lemma AppendDenotes(hex: string, i: nat)
    requires AllHex(hex) && i < |hex|
    ensures HexValue(hex[..i + 1]) == 16 * HexValue(hex[..i]) + HexDigit(hex[i])
  {
    assert HexDigits(hex[..i + 1])[..i] == HexDigits(hex[..i]);
  }

  /** hex_to_decimal. */
  method HexToDecimal(hex: string) returns (r: Result<string, string>)
    ensures r == HexAsDecimal(hex)
    ensures r.Ok? <==> hex != "" && AllHex(hex)
    ensures r.Ok? ==> AllDigits(r.value) && CanonicalDigits(r.value) && Value(r.value) == HexValue(hex)
    ensures r.Err? ==> r == Err("expected a hex quantity")
  {
    hide Low, HexValue, ReadBack, NatText, HexDigit, Value, CanonicalDigits;
    if hex == "" || !AllHex(hex) {
      return Err("expected a hex quantity");
    }
    var digits: seq<nat> := [0];
    var i := 0;
    ZeroVector();
    while i < |hex|
      invariant 0 <= i <= |hex| && InBase(10, digits)
      invariant Low(10, digits) == HexValue(hex[..i])
    {
      AppendDenotes(hex, i);
      digits := AppendHexDigit(digits, HexDigit(hex[i]));
      i := i + 1;
    }
    assert hex[..i] == hex;
    ReadBackDenotes(digits);
    TrimIsCanonical(ReadBack(digits));
    ZeroText();
    var trimmed := TrimZeros(ReadBack(digits));
    TextIsCanonicalDigits(HexValue(hex));
    r := Ok(if trimmed == "" then "0" else trimmed);
  }

  lemma ZeroVector()
    ensures Low(10, [0]) == 0 && HexValue("") == 0
  {
  }

  // ---------------------------------------------------------------- decimal to hex

  const NOT_DECIMAL: string := "expected an unsigned decimal integer"

  /** What decimal_to_hex is meant to return. */
  function DecimalAsHex(value: string): Result<string, string> {
    if value == "" || !AllDigits(value) then Err(NOT_DECIMAL) else Ok(HexText(Value(value)))
  }

  lemma LongDivisionStep(digits: seq<nat>, j: nat, q: nat, carry: nat)
    requires j < |digits| && Val(10, digits[..j]) == q * 16 + carry
    ensures var current := carry * 10 + digits[j];
            Val(10, digits[..j + 1]) == (q * 10 + current / 16) * 16 + current % 16
  {
    assert digits[..j + 1][..j] == digits[..j];
  }

  lemma ValPush(b: nat, ds: seq<nat>, d: nat)
    ensures Val(b, ds + [d]) == Val(b, ds) * b + d
  {
    assert (ds + [d])[..|ds|] == ds;
  }

  /** One long division by sixteen. */
  method DivideBySixteen(digits: seq<nat>) returns (quotient: seq<nat>, carry: nat)
    requires InBase(10, digits)
    ensures InBase(10, quotient) && carry < 16
    ensures Val(10, quotient) == Quot(16, Val(10, digits)) && carry == Rem(16, Val(10, digits))
  {
    hide Val, Quot, Rem;
    quotient := [];
    carry := 0;
    var j := 0;
    EmptyDenotesZero();
    assert digits[..0] == [];
    while j < |digits|
      invariant 0 <= j <= |digits| && InBase(10, quotient) && carry < 16
      invariant Val(10, digits[..j]) == Val(10, quotient) * 16 + carry
    {
      LongDivisionStep(digits, j, Val(10, quotient), carry);
      var current := carry * 10 + digits[j];
      ValPush(10, quotient, current / 16);
      if quotient != [] || current / 16 != 0 {
        quotient := quotient + [current / 16];
      }
      carry := current % 16;
      j := j + 1;
    }
    assert digits[..j] == digits;
    DivideStep(16, Val(10, quotient), carry);
  }

  lemma EmptyDenotesZero()
    ensures Val(10, []) == 0
  {
  }

  predicate AnyNonzero(digits: seq<nat>) {
    exists i :: 0 <= i < |digits| && digits[i] != 0
  }

  lemma {:induction false} NonzeroIffPositive(digits: seq<nat>)
    ensures AnyNonzero(digits) <==> Val(10, digits) > 0
  {
    if digits != [] {
      var init := digits[..|digits| - 1];
      NonzeroIffPositive(init);
      if i :| 0 <= i < |digits| && digits[i] != 0 {
        assert i < |init| ==> init[i] != 0;
      }
      if i :| 0 <= i < |init| && init[i] != 0 {
        assert digits[i] != 0;
      }
    }
  }

  /** decimal_to_hex; the empty text stands for zero. */
  method DecimalToHex(value: string) returns (r: Result<string, string>)
    ensures r == DecimalAsHex(value)
    ensures r.Ok? <==> value != "" && AllDigits(value)
    ensures r.Ok? ==>
              && AllHex(r.value) && HexValue(r.value) == Value(value) && Lower(r.value) == r.value
              && (r.value != "" ==> r.value[0] != '0')
    ensures r.Err? ==> r == Err("expected an unsigned decimal integer")
  {
    hide Val, Quot, Rem, Digits;
    if value == "" || !AllDigits(value) {
      return Err(NOT_DECIMAL);
    }
    var digits := Digits(value);
    var result: seq<nat> := [];
    while AnyNonzero(digits)
      invariant InBase(10, digits) && InBase(16, result)
      invariant Numeral(16, Value(value)) == Numeral(16, Val(10, digits)) + Reverse(result)
      decreases Val(10, digits)
    {
      hide AnyNonzero, Value;
      NonzeroIffPositive(digits);
      Split(16, Val(10, digits));
      var quotient, carry := DivideBySixteen(digits);
      assert Reverse(result + [carry]) == [carry] + Reverse(result) by {
        assert (result + [carry])[..|result|] == result;
      }
      result := result + [carry];
      digits := quotient;
    }
    NonzeroIffPositive(digits);
    HexTextShape(Value(value));
    ReverseInBase(16, result);
    assert Numeral(16, Value(value)) == [] + Reverse(result) == Reverse(result);
    if result == [] {
      return Ok("");
    }
    r := Ok(HexChars(Reverse(result)));
  }

  // ---------------------------------------------------------------- comparing quantities

  predicate HexPrefixed(s: string) {
    |s| >= 2 && s[0] == '0' && s[1] == 'x'
  }

  /** The number a quantity denotes in either encoding, or why it is not one. */
  function Quantity(s: string): Result<nat, string> {
    if HexPrefixed(s) then
      if s[2..] == "" || !AllHex(s[2..]) then Err("invalid hex quantity") else Ok(HexValue(s[2..]))
    else if s == "" || !AllDigits(s) then Err(NOT_DECIMAL)
    else Ok(Value(s))
  }

  /** A quantity is "0x" and hex digits, or decimal digits; anything else is refused according to its prefix. */
  lemma QuantityMeans(s: string)
    ensures Quantity("0x" + s) == if s != "" && AllHex(s) then Ok(HexValue(s)) else Err("invalid hex quantity")
    ensures |s| < 2 || s[..2] != "0x" ==>
              Quantity(s) == if s != "" && AllDigits(s) then Ok(Value(s))
                             else Err("expected an unsigned decimal integer")
  {
    hide HexValue, Value;
    assert ("0x" + s)[2..] == s;
    assert |s| >= 2 && s[0] == '0' && s[1] == 'x' ==> s[..2] == "0x";
  }

  method Normalize(value: string) returns (r: Result<string, string>)
    ensures match Quantity(value)
            case Ok(n) => r == Ok(HexText(n))
            case Err(reason) => r == Err(reason)
  {
    hide HexText, HexValue, Value;
    if HexPrefixed(value) {
      var hex := value[2..];
      if hex == "" || !AllHex(hex) {
        return Err("invalid hex quantity");
      }
      TrimmedHexIsCanonical(hex);
      return Ok(Lower(TrimZeros(hex)));
    }
    r := DecimalToHex(value);
  }

  /** same_quantity: true exactly when both strings are quantities of equal value; the first bad one is the error. */
  method SameQuantity(left: string, right: string) returns (r: Result<bool, string>)
    ensures match (Quantity(left), Quantity(right))
            case (Ok(m), Ok(n)) => r == Ok(m == n)
            case (Err(reason), _) => r == Err(reason)
            case (Ok(_), Err(reason)) => r == Err(reason)
  {
    hide Quantity, HexText;
    var l := Normalize(left);
    if l.Err? {
      return Err(l.error);
    }
    var n := Normalize(right);
    if n.Err? {
      return Err(n.error);
    }
    HexTextInjective(Quantity(left).value, Quantity(right).value);
    r := Ok(l.value == n.value);
  }

  // ---------------------------------------------------------------- round trips

  /** From hex to decimal and back: the same digits, in lower case and without leading zeros. */
  lemma HexSurvivesDecimal(hex: string)
    requires hex != "" && AllHex(hex)
    ensures HexAsDecimal(hex).Ok?
    ensures DecimalAsHex(HexAsDecimal(hex).value) == Ok(Lower(TrimZeros(hex)))
  {
    hide HexText, HexValue, NatText;
    NatTextValue(HexValue(hex));
    TrimmedHexIsCanonical(hex);
  }

  /** From decimal to hex and back: the canonical decimal, except that zero comes back as an error. */
  lemma DecimalSurvivesHexIff(value: string)
    requires value != "" && AllDigits(value)
    ensures DecimalAsHex(value).Ok?
    ensures HexAsDecimal(DecimalAsHex(value).value) == Ok(NatText(Value(value))) <==> Value(value) > 0
    ensures Value(value) == 0 ==> HexAsDecimal(DecimalAsHex(value).value).Err?
  {
    hide HexText, HexValue, NatText, Value;
    HexTextValue(Value(value));
  }

  /** Being the same quantity is what the two conversions preserve. */
  lemma ConversionsKeepQuantity(hex: string)
    requires hex != "" && AllHex(hex)
    ensures HexAsDecimal(hex).Ok?
    ensures Quantity(HexAsDecimal(hex).value) == Quantity("0x" + hex)
  {
    NatTextValue(HexValue(hex));
    assert ("0x" + hex)[2..] == hex;
    DecimalHasNoPrefix(HexAsDecimal(hex).value);
  }

  lemma DecimalHasNoPrefix(s: string)
    requires AllDigits(s)
    ensures !HexPrefixed(s)
  {
    if |s| >= 2 {
      assert IsDigit(s[1]);
    }
  }
}
