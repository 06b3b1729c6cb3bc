/** Parsing and formatting of token amounts, crates/domain/src/model.rs. */
module Units {
  import opened Wrappers
  import opened Positional
  import opened DecimalText
  import opened DecimalNumber
  import opened DecimalOrder
  import opened Widths

  /** The whitespace that `trim` removes. */
  predicate IsSpace(c: char) {
    var u := c as int;
    9 <= u <= 13 || u == 32 || u == 0x85 || u == 0xA0 || u == 0x1680 || 0x2000 <= u <= 0x200A
    || u == 0x2028 || u == 0x2029 || u == 0x202F || u == 0x205F || u == 0x3000
  }

  function TrimStart(s: string): string {
    if s != "" && IsSpace(s[0]) then TrimStart(s[1..]) else s
  }

  function TrimBack(s: string): string {
    if s != "" && IsSpace(s[|s| - 1]) then TrimBack(s[..|s| - 1]) else s
  }

  function Trim(s: string): string {
    TrimBack(TrimStart(s))
  }

  lemma {:induction false} TrimStartCuts(s: string) returns (i: nat)
    ensures i <= |s| && TrimStart(s) == s[i..] && (forall k :: 0 <= k < i ==> IsSpace(s[k]))
    ensures i < |s| ==> !IsSpace(s[i])
  {
    i := 0;
    if s != "" && IsSpace(s[0]) {
      var j := TrimStartCuts(s[1..]);
      assert forall k :: 0 < k <= j ==> s[k] == s[1..][k - 1];
      i := j + 1;
    }
  }

  lemma {:induction false} TrimBackCuts(s: string) returns (j: nat)
    ensures j <= |s| && TrimBack(s) == s[..j] && (forall k :: j <= k < |s| ==> IsSpace(s[k]))
    ensures j > 0 ==> !IsSpace(s[j - 1])
  {
    j := |s|;
    if s != "" && IsSpace(s[|s| - 1]) {
      j := TrimBackCuts(s[..|s| - 1]);
      assert s[..|s| - 1][..j] == s[..j];
    }
  }

  /** Trimming cuts whitespace off both ends, all of it and nothing else. */
  lemma TrimCutsSpaces(s: string) returns (i: nat, j: nat)
    ensures i <= j <= |s| && Trim(s) == s[i..j]
    ensures forall k :: 0 <= k < i || j <= k < |s| ==> IsSpace(s[k])
    ensures i < j ==> !IsSpace(s[i]) && !IsSpace(s[j - 1])
  {
    i := TrimStartCuts(s);
    var kept := TrimBackCuts(s[i..]);
    j := i + kept;
    assert forall k :: 0 <= k < |s| - i ==> s[i..][k] == s[i + k];
    assert forall k :: j <= k < |s| ==> s[k] == s[i..][k - i];
  }

  /** The largest 256-bit integer, written as the code writes it (here in groups of thirteen digits). */
  const U256_MAX: string :=
    "1157920892373" + "1619542357098" + "5008687907853" + "2699846656405" + "6403945758400" + "7913129639935"

  /** The code's test on a trimmed digit string: longer than the maximum, or as long and textually greater. */
  predicate ExceedsU256(raw: string) {
    |raw| > |U256_MAX| || (|raw| == |U256_MAX| && CompareText(raw, U256_MAX).Greater?)
  }

  function ParseUnitsString(text: string, decimals: nat): Result<string, string> {
    var value := Trim(text);
    if value == "" || value[0] == '-' || value[0] == '+' then Err("amount must be a positive decimal string")
    else
      var whole, fraction := Whole(value), Fraction(value);
      if !AllDigits(whole) || !AllDigits(fraction) then Err("amount must be a decimal string")
      else if |fraction| > decimals then Err("amount has too many decimal places")
      else
        var raw := TrimZeros((if whole == "" then "0" else whole) + PadRight(fraction, decimals));
        if raw == "" then Err("amount must be greater than zero")
        else if ExceedsU256(raw) then Err("amount exceeds uint256")
        else Ok(raw)
  }

  /** parse_units: the same, when the result also fits in 64 bits. */
  function ParseUnits(text: string, decimals: nat): Result<nat, string> {
    match ParseUnitsString(text, decimals)
    case Err(reason) => Err(reason)
    case Ok(raw) =>
      if AllDigits(raw) && Value(raw) < TWO64 then Ok(Value(raw))
      else Err("amount must fit in a non-zero u64 base-unit value")
  }

  function FormatUnitsString(text: string, decimals: nat): Result<string, string> {
    if text == "" || !AllDigits(text) then Err("base units must be an unsigned decimal integer")
    else
      var trimmed := TrimZeros(text);
      var raw := if trimmed == "" then "0" else trimmed;
      if decimals == 0 then Ok(raw) else Ok(PlacePoint(raw, decimals))
  }

  // ---------------------------------------------------------------- the 256-bit bound

  lemma PrefixStep(s: string, k: nat)
    requires AllDigits(s) && k < |s|
    ensures Value(s[..k + 1]) == Value(s[..k]) * 10 + (s[k] as int - '0' as int)
  {
    LastDigit(s[..k + 1]);
    assert s[..k + 1][..k] == s[..k];
  }

  function DigitOf(s: string, i: nat): nat
    requires AllDigits(s) && i < |s|
  {
    s[i] as int - '0' as int
  }

  lemma EmptyIsZero(s: string)
    ensures Value(s[..0]) == 0
  {
    assert s[..0] == "";
  }

  lemma ThirteenDigits(s: string)
    requires AllDigits(s) && |s| == 13
    ensures Value(s) ==
            1_000_000_000_000 * DigitOf(s, 0) + 100_000_000_000 * DigitOf(s, 1) + 10_000_000_000 * DigitOf(s, 2)
            + 1_000_000_000 * DigitOf(s, 3) + 100_000_000 * DigitOf(s, 4) + 10_000_000 * DigitOf(s, 5)
            + 1_000_000 * DigitOf(s, 6) + 100_000 * DigitOf(s, 7) + 10_000 * DigitOf(s, 8) + 1_000 * DigitOf(s, 9)
            + 100 * DigitOf(s, 10) + 10 * DigitOf(s, 11) + DigitOf(s, 12)
  {
    hide Value;
    EmptyIsZero(s);
    PrefixStep(s, 0);
    PrefixStep(s, 1);
    PrefixStep(s, 2);
    PrefixStep(s, 3);
    PrefixStep(s, 4);
    PrefixStep(s, 5);
    PrefixStep(s, 6);
    PrefixStep(s, 7);
    PrefixStep(s, 8);
    PrefixStep(s, 9);
    PrefixStep(s, 10);
    PrefixStep(s, 11);
    PrefixStep(s, 12);
    assert s[..13] == s;
  }

  lemma NextGroup(s: string, n: nat, group: string, g: nat)
    requires AllDigits(s) && Value(s) == n && AllDigits(group) && |group| == 13 && Value(group) == g
    ensures AllDigits(s + group) && Value(s + group) == n * 10_000_000_000_000 + g
  {
    hide Value;
    ValueConcat(s, group);
    assert Pow(10, 4) == 10_000;
    assert Pow(10, 8) == 100_000_000;
    assert Pow(10, 12) == 1_000_000_000_000;
  }

  lemma FirstGroups()
    ensures AllDigits("1157920892373" + "1619542357098")
            && Value("1157920892373" + "1619542357098") == 11579208923731619542357098
  {
    hide Value, Pow;
    ThirteenDigits("1157920892373");
    ThirteenDigits("1619542357098");
    NextGroup("1157920892373", 1157920892373, "1619542357098", 1619542357098);
  }

  lemma MiddleGroups(s: string)
    requires AllDigits(s) && Value(s) == 11579208923731619542357098
    ensures var t := s + "5008687907853" + "2699846656405";
            AllDigits(t) && Value(t) == 1157920892373161954235709850086879078532699846656405
  {
    hide Value, Pow;
    ThirteenDigits("5008687907853");
    ThirteenDigits("2699846656405");
    NextGroup(s, 11579208923731619542357098, "5008687907853", 5008687907853);
    NextGroup(s + "5008687907853", 115792089237316195423570985008687907853, "2699846656405", 2699846656405);
  }

  lemma LastGroups(s: string)
    requires AllDigits(s) && Value(s) == 1157920892373161954235709850086879078532699846656405
    ensures var t := s + "6403945758400" + "7913129639935";
            AllDigits(t) && Value(t) == TWO256 - 1
  {
    hide Value, Pow;
    ThirteenDigits("6403945758400");
    ThirteenDigits("7913129639935");
    NextGroup(s, 1157920892373161954235709850086879078532699846656405, "6403945758400", 6403945758400);
    NextGroup(s + "6403945758400", 11579208923731619542357098500868790785326998466564056403945758400, "7913129639935",
              7913129639935);
  }

  /** The written constant is 2^256 - 1. */
  lemma MaximumIsU256Max()
    ensures AllDigits(U256_MAX) && |U256_MAX| == 78 && Value(U256_MAX) == TWO256 - 1
  {
    hide Value, AllDigits;
    FirstGroups();
    MiddleGroups("1157920892373" + "1619542357098");
    LastGroups("1157920892373" + "1619542357098" + "5008687907853" + "2699846656405");
  }

  /** The code's textual bound is the numeric one. */
  lemma ExceedsIffTooLarge(raw: string)
    requires AllDigits(raw) && NoLeadingZero(raw)
    ensures ExceedsU256(raw) <==> Value(raw) >= TWO256
  {
    hide Value, CompareText;
    MaximumIsU256Max();
    LengthThenText(raw, U256_MAX);
  }

  // ---------------------------------------------------------------- what parsing and formatting mean

  /** The base units a decimal with at most `decimals` places amounts to. */
  function BaseUnits(value: string, decimals: nat): nat
    requires IsDecimal(value) && |Fraction(value)| <= decimals
  {
    Shift(Value(Whole(value) + Fraction(value)), decimals - |Fraction(value)|)
  }

  predicate Payable(value: string, decimals: nat) {
    value != "" && IsDecimal(value) && |Fraction(value)| <= decimals && 0 < BaseUnits(value, decimals) < TWO256
  }

  lemma SignIsNoDigit(value: string)
    requires value != "" && (value[0] == '-' || value[0] == '+')
    ensures !AllDigits(Whole(value))
  {
    assert Whole(value)[0] == value[0];
  }

  lemma BaseUnitsText(value: string, decimals: nat)
    requires IsDecimal(value) && |Fraction(value)| <= decimals
    ensures var digits := (if Whole(value) == "" then "0" else Whole(value)) + PadRight(Fraction(value), decimals);
            AllDigits(digits) && Value(digits) == BaseUnits(value, decimals)
  {
    hide Value, Shift, Whole, Fraction;
    var whole, fraction := Whole(value), Fraction(value);
    var k := decimals - |fraction|;
    AppendZeros(whole + fraction, k);
    assert PadRight(fraction, decimals) == fraction + Zeros(k);
    assert whole + fraction + Zeros(k) == whole + (fraction + Zeros(k));
    if whole == "" {
      PrependZeros(1, fraction + Zeros(k));
      assert Zeros(1) == "0";
      assert whole + (fraction + Zeros(k)) == fraction + Zeros(k);
    }
  }

  /** parse_units_string accepts exactly the unsigned decimals that are a positive number of base units within
      256 bits, and returns the canonical text of that number. */
  lemma ParseMeans(text: string, decimals: nat)
    ensures ParseUnitsString(text, decimals).Ok? <==> Payable(Trim(text), decimals)
    ensures Payable(Trim(text), decimals) ==>
              ParseUnitsString(text, decimals) == Ok(NatText(BaseUnits(Trim(text), decimals)))
  {
    hide Value, Trim, Whole, Fraction, ExceedsU256, BaseUnits, NatText, PadRight;
    var value := Trim(text);
    if value != "" && (value[0] == '-' || value[0] == '+') {
      SignIsNoDigit(value);
    } else if value != "" && IsDecimal(value) && |Fraction(value)| <= decimals {
      BaseUnitsText(value, decimals);
      var digits := (if Whole(value) == "" then "0" else Whole(value)) + PadRight(Fraction(value), decimals);
      TrimIsCanonical(digits);
      TrimmedLead(digits);
      TextIsCanonicalDigits(BaseUnits(value, decimals));
      ExceedsIffTooLarge(TrimZeros(digits));
    }
  }

  /** Which refusal a text meets: no number at all or a sign, something other than digits, more places than the token
      has, nothing, or more than 256 bits. */
  lemma ParseRefuses(text: string, decimals: nat)
    ensures var value := Trim(text);
            var r := ParseUnitsString(text, decimals);
            if value == "" || value[0] == '-'
                || value[0] == '+' then r == Err("amount must be a positive decimal string")
            else if !IsDecimal(value) then r == Err("amount must be a decimal string")
            else if |Fraction(value)| > decimals then r == Err("amount has too many decimal places")
            else if BaseUnits(value, decimals) == 0 then r == Err("amount must be greater than zero")
            else if BaseUnits(value, decimals) >= TWO256 then r == Err("amount exceeds uint256")
            else r.Ok?
  {
    hide Value, Trim, Whole, Fraction, ExceedsU256, BaseUnits, NatText, PadRight;
    var value := Trim(text);
    if value != "" && value[0] != '-' && value[0] != '+' && IsDecimal(value) && |Fraction(value)| <= decimals {
      BaseUnitsText(value, decimals);
      var digits := (if Whole(value) == "" then "0" else Whole(value)) + PadRight(Fraction(value), decimals);
      TrimIsCanonical(digits);
      TrimmedLead(digits);
      TextIsCanonicalDigits(BaseUnits(value, decimals));
      ExceedsIffTooLarge(TrimZeros(digits));
    }
  }

  /** The base units are the number written, scaled up by the decimals: nothing is rounded. */
  lemma BaseUnitsExact(value: string, decimals: nat)
    requires IsDecimal(value) && |Fraction(value)| <= decimals
    ensures Frac(BaseUnits(value, decimals), decimals) == Number(value)
  {
    hide Value, Shift, Frac;
    FracExtend(Value(Whole(value) + Fraction(value)), |Fraction(value)|, decimals - |Fraction(value)|);
  }

  /** format_units_string accepts exactly the digit strings and returns the canonical decimal of the amount. */
  lemma FormatMeans(text: string, decimals: nat)
    ensures FormatUnitsString(text, decimals).Ok? <==> text != "" && AllDigits(text)
    ensures text != "" && AllDigits(text) ==>
              var s := FormatUnitsString(text, decimals).value;
              && s == PlacePoint(NatText(Value(text)), decimals)
              && CanonicalDecimal(s) && |Fraction(s)| <= decimals && Number(s) == Frac(Value(text), decimals)
  {
    hide Value, PlacePoint, CanonicalDecimal, Frac, Number, Fraction;
    if text != "" && AllDigits(text) {
      hide NatText;
      TrimIsCanonical(text);
      ZeroText();
      NoPointToPlace(Value(text));
      PlacePointDenotes(Value(text), decimals);
    }
  }

  // ---------------------------------------------------------------- round trips

  lemma DigitsAreNotSpace(s: string)
    requires IsDecimal(s)
    ensures Trim(s) == s
  {
    if s != "" {
      var i := FirstDot(s);
      assert !IsSpace(s[0]) by {
        if i > 0 { assert s[0] == Whole(s)[0]; }
      }
      assert !IsSpace(s[|s| - 1]) by {
        if i == |s| {
          assert s[|s| - 1] == Whole(s)[|s| - 1];
        } else if i + 1 < |s| {
          assert s[|s| - 1] == Fraction(s)[|Fraction(s)| - 1];
        }
      }
    }
  }

  lemma ScalesDiffer(n: nat, d: nat, e: nat)
    requires n > 0 && d < e
    ensures Frac(n, d) != Frac(n, e)
  {
    hide Frac, Shift;
    FracExtend(n, d, e - d);
    FracOrder(Shift(n, e - d), n, e);
    ShiftGrows(n, e - d);
  }

  lemma ShiftGrows(n: nat, k: nat)
    requires n > 0 && k > 0
    ensures Shift(n, k) > n
  {
    PowGrows(10, k - 1);
    Tenfold(n, Pow(10, k - 1));
  }

  lemma Tenfold(n: nat, p: nat)
    requires n > 0 && p >= 1
    ensures n * (10 * p) > n
  {
    assert n * (10 * p) == 10 * (n * p);
    assert n * p >= n;
  }

  lemma SameScale(n: nat, d: nat, e: nat)
    requires n > 0 && Frac(n, d) == Frac(n, e)
    ensures d == e
  {
    hide Frac;
    if d < e { ScalesDiffer(n, d, e); }
    if e < d { ScalesDiffer(n, e, d); }
  }

  /** An amount shown with `shown` decimals and read back with `read` decimals comes back unchanged exactly when
      the two agree and the amount is positive and within 256 bits. */
  lemma AmountSurvivesIff(amount: nat, shown: nat, read: nat)
    ensures ParseUnitsString(PlacePoint(NatText(amount), shown), read) == Ok(NatText(amount))
            <==> 0 < amount < TWO256 && shown == read
  {
    hide PlacePoint, Frac, Number, BaseUnits, ParseUnitsString, NatText, Value, Fraction, Whole;
    var s := PlacePoint(NatText(amount), shown);
    PlacePointDenotes(amount, shown);
    DigitsAreNotSpace(s);
    ParseMeans(s, read);
    if |Fraction(s)| <= read {
      BaseUnitsExact(s, read);
      var n := BaseUnits(s, read);
      if NatText(n) == NatText(amount) {
        NatTextInjective(n, amount);
        if 0 < amount { SameScale(amount, shown, read); }
      }
      FracOrder(n, amount, read);
    }
    NotEmpty(s);
  }

  lemma NotEmpty(s: string)
    requires CanonicalDecimal(s)
    ensures s != ""
  {
  }

  /** Formatting then parsing returns the digits without leading zeros. */
  lemma FormatThenParse(raw: string, decimals: nat)
    requires raw != "" && AllDigits(raw)
    ensures FormatUnitsString(raw, decimals).Ok?
    ensures ParseUnitsString(FormatUnitsString(raw, decimals).value, decimals) == Ok(TrimZeros(raw))
            <==> 0 < Value(raw) < TWO256
  {
    hide FormatUnitsString, ParseUnitsString, PlacePoint, NatText, Value, CanonicalDecimal, Number;
    FormatMeans(raw, decimals);
    TrimIsCanonical(raw);
    AmountSurvivesIff(Value(raw), decimals, decimals);
    ZeroNeverParses(FormatUnitsString(raw, decimals).value, decimals);
  }

  lemma ZeroNeverParses(text: string, decimals: nat)
    ensures ParseUnitsString(text, decimals) != Ok("")
  {
  }

  /** Parsing then formatting returns the canonical decimal of what was written, and the very text when that was
      canonical already. */
  lemma ParseThenFormat(text: string, decimals: nat)
    requires ParseUnitsString(text, decimals).Ok?
    ensures IsDecimal(Trim(text))
    ensures var raw := ParseUnitsString(text, decimals).value;
            && FormatUnitsString(raw, decimals).Ok?
            && var s := FormatUnitsString(raw, decimals).value;
            && CanonicalDecimal(s) && Number(s) == Number(Trim(text))
            && ParseUnitsString(s, decimals) == Ok(raw)
            && (CanonicalDecimal(Trim(text)) ==> s == Trim(text))
  {
    hide FormatUnitsString, ParseUnitsString, PlacePoint, NatText, Value, CanonicalDecimal, Number, Frac, BaseUnits,
        Trim, Fraction, IsDecimal;
    ParseMeans(text, decimals);
    var n := BaseUnits(Trim(text), decimals);
    NatTextValue(n);
    FormatMeans(NatText(n), decimals);
    BaseUnitsExact(Trim(text), decimals);
    AmountSurvivesIff(n, decimals, decimals);
    var s := FormatUnitsString(NatText(n), decimals).value;
    if CanonicalDecimal(Trim(text)) {
      CanonicalIsUnique(s, Trim(text));
    }
  }

  /** parse_units accepts what the string version accepts below 2^64, with the same number. */
  lemma ParseUnitsFits(text: string, decimals: nat)
    ensures ParseUnits(text, decimals).Ok? <==>
            Payable(Trim(text), decimals) && BaseUnits(Trim(text), decimals) < TWO64
    ensures ParseUnits(text, decimals).Ok? ==> ParseUnits(text, decimals).value == BaseUnits(Trim(text), decimals)
  {
    hide ParseUnitsString, NatText, Value, BaseUnits, Trim, IsDecimal;
    ParseMeans(text, decimals);
    if Payable(Trim(text), decimals) {
      NatTextValue(BaseUnits(Trim(text), decimals));
    }
  }
}
