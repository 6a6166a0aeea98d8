/** Decimal numerals as strings: printing, padding and reading back. */
module Numerals {
  function DigitChar(d: nat): char
    requires d < 10
  {
    "0123456789"[d]
  }

  function Digits(n: nat): string {
    if n < 10 then [DigitChar(n)] else Digits(n / 10) + [DigitChar(n % 10)]
  }

  function Zeros(k: nat): string {
    if k == 0 then "" else "0" + Zeros(k - 1)
  }

  function PadNat(n: nat, width: nat): string {
    var ds := Digits(n);
    if |ds| >= width then ds else Zeros(width - |ds|) + ds
  }

  function DigitValue(c: char): nat {
    if '0' <= c <= '9' then c as nat - '0' as nat else 0
  }

  function Value(s: string): nat {
    if s == "" then 0 else 10 * Value(s[..|s| - 1]) + DigitValue(s[|s| - 1])
  }

  function Pow10(k: nat): nat {
    if k == 0 then 1 else 10 * Pow10(k - 1)
  }

  lemma {:induction false} DigitsFit(n: nat, k: nat)
    requires k > 0 && n < Pow10(k)
    ensures |Digits(n)| <= k
    decreases k
  {
    if n < 10 {
    } else {
      DigitsFit(n / 10, k - 1);
    }
  }

  lemma {:induction false} DigitsRead(n: nat)
    ensures Value(Digits(n)) == n
    decreases n
  {
    var ds := Digits(n);
    if n >= 10 {
      DigitsRead(n / 10);
      assert ds[..|ds| - 1] == Digits(n / 10);
    } else {
      assert ds[..0] == "";
    }
  }

  lemma {:induction false} ZerosRead(k: nat, s: string)
    ensures |Zeros(k)| == k && Value(Zeros(k) + s) == Value(s)
    decreases k + |s|
  {
    if s != "" {
      ZerosRead(k, s[..|s| - 1]);
      assert (Zeros(k) + s)[..k + |s| - 1] == Zeros(k) + s[..|s| - 1];
    } else if k > 0 {
      ZerosRead(k - 1, "");
      assert Zeros(k) + "" == Zeros(k) && Zeros(k - 1) + "" == Zeros(k - 1);
      ZerosAreZero(k);
    }
  }

  lemma {:induction false} ZerosAreZero(k: nat)
    ensures |Zeros(k)| == k && Value(Zeros(k)) == 0
  {
    if k == 0 {
    } else {
      ZerosAllZero(k);
      ZerosAreZero(k - 1);
      assert Zeros(k)[..k - 1] == Zeros(k - 1) by { ZerosAllZero(k - 1); }
    }
  }

  lemma {:induction false} ZerosAllZero(k: nat)
    ensures |Zeros(k)| == k && forall i :: 0 <= i < k ==> Zeros(k)[i] == '0'
  {
    if k == 0 {
    } else {
      ZerosAllZero(k - 1);
    }
  }

  lemma PadNatReads(n: nat, width: nat)
    requires width > 0 && n < Pow10(width)
    ensures |PadNat(n, width)| == width && Value(PadNat(n, width)) == n
  {
    DigitsFit(n, width);
    DigitsRead(n);
    ZerosRead(width - |Digits(n)|, Digits(n));
  }

  predicate IsDigit(c: char) {
    '0' <= c <= '9'
  }

  predicate AllDigits(s: string) {
    forall i :: 0 <= i < |s| ==> IsDigit(s[i])
  }

  lemma {:induction false} DigitsAreDigits(n: nat)
    ensures AllDigits(Digits(n)) && Digits(n) != ""
    decreases n
  {
    if n < 10 {
    } else {
      DigitsAreDigits(n / 10);
    }
  }

  lemma PadNatIsDigits(n: nat, width: nat)
    ensures AllDigits(PadNat(n, width))
  {
    DigitsAreDigits(n);
    if |Digits(n)| < width { ZerosAllZero(width - |Digits(n)|); }
  }

  lemma {:induction false} ValueGrows(s: string, i: nat)
    requires i <= |s|
    ensures Value(s[..i]) <= Value(s)
  {
    if i == |s| {
      assert s[..i] == s;
    } else {
      assert s[..|s| - 1][..i] == s[..i];
      ValueGrows(s[..|s| - 1], i);
    }
  }

  /** Appending digits shifts what stands before them. */
  lemma {:induction false} ValueConcat(a: string, b: string)
    ensures Value(a + b) == Value(a) * Pow10(|b|) + Value(b)
  {
    if b == "" {
      assert a + b == a;
    } else {
      var n := |b| - 1;
      ValueConcat(a, b[..n]);
      assert (a + b)[..|a + b| - 1] == a + b[..n];
      ShiftOne(Value(a), Pow10(n), Value(b[..n]));
    }
  }

  lemma ShiftOne(a: nat, p: nat, b: nat)
    ensures 10 * (a * p + b) == a * (10 * p) + 10 * b
  {
  }

  lemma {:induction false} ValueBound(s: string)
    ensures Value(s) < Pow10(|s|)
  {
    if s == "" {
    } else {
      ValueBound(s[..|s| - 1]);
    }
  }
}
