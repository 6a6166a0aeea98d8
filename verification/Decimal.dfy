/** Exact parsing of a decimal string into millionths. A string stands for the
    bytes of the input, one character a byte. */
module Decimal {
  import opened Wrappers
  import opened Num
  import opened Numerals

  datatype DecimalError = Empty | BadChar | TooManyDecimals | Overflow

  type Parse = Result<nat, DecimalError>

  const MICRO: nat := 1_000_000

  /** Parts before and after the first point; all of it before when there is none. */
  function SplitPoint(s: string): (string, string) {
    if s == "" then ("", "")
    else if s[0] == '.' then ("", s[1..])
    else
      var (i, f) := SplitPoint(s[1..]);
      ([s[0]] + i, f)
  }

  lemma {:induction false} SplitAt(intPart: string, rest: string)
    requires '.' !in intPart && (rest == "" || rest[0] == '.')
    ensures SplitPoint(intPart + rest) == (intPart, if rest == "" then "" else rest[1..])
  {
    if intPart == "" {
      assert intPart + rest == rest;
    } else {
      assert (intPart + rest)[1..] == intPart[1..] + rest;
      SplitAt(intPart[1..], rest);
      assert intPart == [intPart[0]] + intPart[1..];
    }
  }

  /** Millionths named by the digits of both parts. */
  function Micro(intPart: string, fracPart: string): nat
    requires |fracPart| <= 6
  {
    Value(intPart) * MICRO + Value(fracPart) * Pow10(6 - |fracPart|)
  }

  /** Every refusal in the order the checks are made. */
  function Parsed(s: string): Parse {
    var (i, f) := SplitPoint(s);
    if i == "" && f == "" then Err(Empty)
    else if |f| > 6 then Err(TooManyDecimals)
    else if !AllDigits(i) then Err(BadChar)
    else if Value(i) * MICRO > U64_MAX then Err(Overflow)
    else if !AllDigits(f) then Err(BadChar)
    else if Micro(i, f) > U64_MAX then Err(Overflow)
    else Ok(Micro(i, f))
  }

  // ----- the parser -----

  method FindPoint(s: string) returns (intPart: string, fracPart: string)
    ensures (intPart, fracPart) == SplitPoint(s)
  {
    var i := 0;
    while i < |s| && s[i] != '.'
      invariant 0 <= i <= |s| && '.' !in s[..i]
    {
      i := i + 1;
    }
    SplitAt(s[..i], s[i..]);
    assert s[..i] + s[i..] == s;
    if i == |s| {
      assert s[..i] == s;
      return s, "";
    }
    assert s[i..][1..] == s[i + 1..];
    return s[..i], s[i + 1..];
  }

  method OnlyDigits(s: string) returns (ok: bool)
    ensures ok == AllDigits(s)
  {
    for i := 0 to |s|
      invariant forall k :: 0 <= k < i ==> IsDigit(s[k])
    {
      if !IsDigit(s[i]) { return false; }
    }
    ok := true;
  }

  /** Accumulates digits in 64 bits; None when a step leaves the range. */
  method CheckedValue(s: string) returns (r: Option<nat>)
    requires AllDigits(s)
    ensures r == if Value(s) <= U64_MAX then Some(Value(s)) else None
  {
    var value: nat := 0;
    for i := 0 to |s|
      invariant value == Value(s[..i]) && value <= U64_MAX
    {
      assert s[..i + 1][..i] == s[..i];
      ValueGrows(s, i + 1);
      if value * 10 > U64_MAX { return None; }
      value := value * 10 + DigitValue(s[i]);
      if value > U64_MAX { return None; }
    }
    assert s[..|s|] == s;
    r := Some(value);
  }

  method ParseMicro(s: string) returns (r: Parse)
    ensures r == Parsed(s)
  {
    var intPart, fracPart := FindPoint(s);
    if intPart == "" && fracPart == "" { return Err(Empty); }
    if |fracPart| > 6 { return Err(TooManyDecimals); }
    var value: nat := 0;
    if intPart != "" {
      var digits := OnlyDigits(intPart);
      if !digits { return Err(BadChar); }
      var checked := CheckedValue(intPart);
      if checked.None? { return Err(Overflow); }
      value := checked.value;
    }
    value := value * MICRO;
    if value > U64_MAX { return Err(Overflow); }
    if fracPart != "" {
      var digits := OnlyDigits(fracPart);
      if !digits { return Err(BadChar); }
      var frac: nat := 0;
      for i := 0 to |fracPart|
        invariant frac == Value(fracPart[..i])
      {
        assert fracPart[..i + 1][..i] == fracPart[..i];
        frac := frac * 10 + DigitValue(fracPart[i]);
      }
      assert fracPart[..|fracPart|] == fracPart;
      frac := frac * Pow10(6 - |fracPart|);
      value := value + frac;
      if value > U64_MAX { return Err(Overflow); }
    }
    r := Ok(value);
  }

  // ----- what is accepted, and as what -----

  /** Whole digits, then possibly a point and up to six more; at least one digit. */
  ghost predicate IsNumeral(s: string, intPart: string, fracPart: string) {
    && AllDigits(intPart) && AllDigits(fracPart) && |fracPart| <= 6 && intPart + fracPart != ""
    && ((s == intPart && fracPart == "") || s == intPart + "." + fracPart)
  }

  lemma {:induction false} SplitRejoins(s: string)
    ensures var (i, f) := SplitPoint(s); (s == i && f == "") || s == i + "." + f
  {
    if s != "" && s[0] != '.' {
      SplitRejoins(s[1..]);
      var (i, f) := SplitPoint(s[1..]);
      assert s == [s[0]] + s[1..];
      if s[1..] == i + "." + f { assert s == ([s[0]] + i) + "." + f; }
    } else if s != "" {
      assert s == "" + "." + s[1..];
    }
  }

  lemma NumeralSplits(s: string, intPart: string, fracPart: string)
    requires IsNumeral(s, intPart, fracPart)
    ensures SplitPoint(s) == (intPart, fracPart)
  {
    if s == intPart && fracPart == "" {
      assert intPart + "" == intPart;
      SplitAt(intPart, "");
    } else {
      assert s == intPart + ("." + fracPart);
      SplitAt(intPart, "." + fracPart);
    }
  }

  /** Accepted exactly when it is a numeral whose value in millionths fits 64
      bits, as the number v with v * 10^(fraction digits) == all digits * 10^6. */
  lemma ParseIsExact(s: string, v: nat)
    ensures Parsed(s) == Ok(v) <==>
              exists i, f :: IsNumeral(s, i, f) && v * Pow10(|f|) == Value(i + f) * MICRO && v <= U64_MAX
  {
    var (i0, f0) := SplitPoint(s);
    SplitRejoins(s);
    if Parsed(s).Ok? {
      MicroIsValue(i0, f0, v);
      assert IsNumeral(s, i0, f0);
    }
    forall i, f | IsNumeral(s, i, f) && v * Pow10(|f|) == Value(i + f) * MICRO && v <= U64_MAX
      ensures Parsed(s) == Ok(v)
    {
      NumeralSplits(s, i, f);
      MicroIsValue(i, f, v);
    }
  }

  lemma PowSplit(k: nat)
    requires k <= 6
    ensures Pow10(k) * Pow10(6 - k) == MICRO && Pow10(k) > 0
  {
    assert Pow10(1) == 10 && Pow10(2) == 100 && Pow10(3) == 1000;
    assert Pow10(4) == 10_000 && Pow10(5) == 100_000 && Pow10(6) == MICRO;
  }

  lemma Scales(a: nat, b: nat, p: nat, q: nat)
    ensures (a * (p * q) + b * q) * p == (a * p + b) * (p * q)
  {
  }

  lemma CancelFactor(v: nat, w: nat, p: nat)
    requires p > 0 && v * p == w * p
    ensures v == w
  {
  }

  lemma MicroIsValue(intPart: string, fracPart: string, v: nat)
    requires |fracPart| <= 6
    ensures v == Micro(intPart, fracPart) <==> v * Pow10(|fracPart|) == Value(intPart + fracPart) * MICRO
  {
    var p, q := Pow10(|fracPart|), Pow10(6 - |fracPart|);
    PowSplit(|fracPart|);
    ValueConcat(intPart, fracPart);
    Scales(Value(intPart), Value(fracPart), p, q);
    if v * p == Micro(intPart, fracPart) * p { CancelFactor(v, Micro(intPart, fracPart), p); }
  }

  // ----- printing and back -----

  function TrimZeros(s: string): string {
    if s != "" && s[|s| - 1] == '0' then TrimZeros(s[..|s| - 1]) else s
  }

  function Printed(whole: nat, f: nat): string {
    if f == 0 then Digits(whole) else Digits(whole) + "." + TrimZeros(PadNat(f, 6))
  }

  /** The shortest decimal: no leading or trailing zeros, no bare point. */
  function Canonical(micro: nat): string {
    Printed(micro / MICRO, micro % MICRO)
  }

  lemma {:induction false} TrimKeepsValue(s: string)
    ensures |TrimZeros(s)| <= |s| && (AllDigits(s) ==> AllDigits(TrimZeros(s)))
    ensures Value(TrimZeros(s)) * Pow10(|s| - |TrimZeros(s)|) == Value(s)
  {
    if s == "" || s[|s| - 1] != '0' {
    } else {
      var n := |s| - 1;
      TrimKeepsValue(s[..n]);
      ShiftOne(Value(TrimZeros(s)), Pow10(n - |TrimZeros(s)|), 0);
    }
  }

  lemma TrimNonEmpty(s: string)
    requires Value(s) > 0
    ensures TrimZeros(s) != ""
  {
    TrimKeepsValue(s);
    assert Value("") * Pow10(|s|) == 0;
  }

  lemma Fraction(f: nat) returns (t: string)
    requires 0 < f < MICRO
    ensures t == TrimZeros(PadNat(f, 6)) && t != "" && AllDigits(t) && |t| <= 6
    ensures Value(t) * Pow10(6 - |t|) == f
  {
    PowSplit(6);
    PadNatReads(f, 6);
    PadNatIsDigits(f, 6);
    TrimKeepsValue(PadNat(f, 6));
    TrimNonEmpty(PadNat(f, 6));
    t := TrimZeros(PadNat(f, 6));
  }

  lemma ParsedNumeral(s: string, i: string, t: string, whole: nat, f: nat)
    requires IsNumeral(s, i, t) && Value(i) == whole && Value(t) * Pow10(6 - |t|) == f
    requires whole * MICRO + f <= U64_MAX
    ensures Parsed(s) == Ok(whole * MICRO + f)
  {
    NumeralSplits(s, i, t);
  }

  lemma RoundTripParts(whole: nat, f: nat)
    requires f < MICRO && whole * MICRO + f <= U64_MAX
    ensures Parsed(Printed(whole, f)) == Ok(whole * MICRO + f)
  {
    var i := Digits(whole);
    DigitsAreDigits(whole);
    DigitsRead(whole);
    if f == 0 {
      assert Value("") * Pow10(6) == 0;
      ParsedNumeral(i, i, "", whole, 0);
    } else {
      var t := Fraction(f);
      ParsedNumeral(i + "." + t, i, t, whole, f);
    }
  }

  /** Printing and parsing back is the identity on all 64-bit values. */
  lemma RoundTrip(micro: nat)
    requires micro <= U64_MAX
    ensures Parsed(Canonical(micro)) == Ok(micro)
  {
    RoundTripParts(micro / MICRO, micro % MICRO);
  }
}
