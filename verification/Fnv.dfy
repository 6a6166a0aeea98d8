/** 64-bit FNV-1a: xor a byte into the low bits, multiply by the prime, modulo 2^64. */
module Fnv {
  import opened Bits

  type byte = x: nat | x < 256

  const WORD: nat := 0x1_0000_0000_0000_0000
  const FNV_OFFSET: nat := 0xcbf2_9ce4_8422_2325
  const FNV_PRIME: nat := 0x0000_0100_0000_01b3

  /** Exclusive or of the low n bits. */
  function Xor(a: nat, b: nat, n: nat): nat {
    if n == 0 then 0
    else (if a % 2 != b % 2 then 1 else 0) + 2 * Xor(a / 2, b / 2, n - 1)
  }

  /** A byte only touches the low eight bits of the hash. */
  function XorByte(h: nat, b: byte): nat {
    h / 256 * 256 + Xor(h % 256, b, 8)
  }

  function WrappingMul(a: nat, b: nat): nat {
    a * b % WORD
  }

  function Step(h: nat, b: byte): nat {
    WrappingMul(XorByte(h, b), FNV_PRIME)
  }

  function FnvFold(bytes: seq<byte>): nat {
    if bytes == [] then FNV_OFFSET else Step(FnvFold(bytes[..|bytes| - 1]), bytes[|bytes| - 1])
  }

  method Fnv1a(bytes: seq<byte>) returns (h: nat)
    ensures h == FnvFold(bytes)
  {
    h := FNV_OFFSET;
    for i := 0 to |bytes|
      invariant h == FnvFold(bytes[..i])
    {
      assert bytes[..i + 1][..i] == bytes[..i];
      h := XorByte(h, bytes[i]);
      h := WrappingMul(h, FNV_PRIME);
    }
    assert bytes[..|bytes|] == bytes;
  }

  // ----- bits -----

  lemma {:induction false} XorBits(a: nat, b: nat, n: nat, i: nat)
    ensures Bit(Xor(a, b, n), i) <==> i < n && Bit(a, i) != Bit(b, i)
    ensures Xor(a, b, n) < Pow2(n)
    decreases n + i
  {
    if n == 0 {
      ZeroBits(i);
    } else {
      XorBits(a / 2, b / 2, n - 1, if i == 0 then 0 else i - 1);
      assert Xor(a, b, n) / 2 == Xor(a / 2, b / 2, n - 1);
    }
  }

  lemma {:induction false} ZeroBits(i: nat)
    ensures !Bit(0, i)
  {
    if i == 0 {
    } else {
      ZeroBits(i - 1);
    }
  }

  lemma Halve(q: nat, x: nat, p: nat)
    ensures (q * (2 * p) + x) / 2 == q * p + x / 2 && (q * (2 * p) + x) % 2 == x % 2
  {
    assert q * (2 * p) == 2 * (q * p);
  }

  /** Bits of a number put together from a high and a low part. */
  lemma {:induction false} JoinedBits(q: nat, x: nat, n: nat, i: nat)
    requires x < Pow2(n)
    ensures Bit(q * Pow2(n) + x, i) == if i < n then Bit(x, i) else Bit(q, i - n)
    decreases n
  {
    if n == 0 {
      assert q * Pow2(0) + x == q;
    } else {
      Halve(q, x, Pow2(n - 1));
      if i > 0 { JoinedBits(q, x / 2, n - 1, i - 1); }
    }
  }

  /** The byte step is the bitwise exclusive or with the byte, on every bit. */
  lemma XorByteBits(h: nat, b: byte, i: nat)
    ensures Bit(XorByte(h, b), i) <==> (Bit(h, i) != Bit(b, i))
  {
    assert Pow2(8) == 256 by { assert Pow2(4) == 16; }
    XorBits(h % 256, b, 8, i);
    JoinedBits(h / 256, Xor(h % 256, b, 8), 8, i);
    JoinedBits(h / 256, h % 256, 8, i);
    JoinedBits(0, b, 8, i);
    if i >= 8 { ZeroBits(i - 8); }
    assert h / 256 * 256 + h % 256 == h;
  }

  // ----- nothing is lost in a step -----

  lemma {:induction false} XorTwice(a: nat, b: nat, n: nat)
    requires a < Pow2(n)
    ensures Xor(Xor(a, b, n), b, n) == a
  {
    if n == 0 {
    } else {
      XorTwice(a / 2, b / 2, n - 1);
      assert Xor(a, b, n) / 2 == Xor(a / 2, b / 2, n - 1);
    }
  }

  lemma {:induction false} XorSwap(a: nat, b: nat, n: nat)
    ensures Xor(a, b, n) == Xor(b, a, n)
  {
    if n == 0 {
    } else {
      XorSwap(a / 2, b / 2, n - 1);
    }
  }

  lemma SplitByte(q: nat, x: byte)
    ensures (q * 256 + x) / 256 == q && (q * 256 + x) % 256 == x
  {
  }

  lemma XorByteParts(h: nat, b: byte)
    ensures XorByte(h, b) / 256 == h / 256 && XorByte(h, b) % 256 == Xor(h % 256, b, 8)
  {
    assert Pow2(8) == 256 by { assert Pow2(4) == 16; }
    XorBits(h % 256, b, 8, 0);
    SplitByte(h / 256, Xor(h % 256, b, 8));
  }

  lemma SameWord(g: nat, h: nat)
    requires g / 256 == h / 256 && h < WORD
    ensures g < WORD
  {
  }

  lemma XorByteIsWord(h: nat, b: byte)
    requires h < WORD
    ensures XorByte(h, b) < WORD
  {
    XorByteParts(h, b);
    SameWord(XorByte(h, b), h);
  }

  lemma XorByteTwice(h: nat, b: byte)
    ensures XorByte(XorByte(h, b), b) == h
  {
    assert Pow2(8) == 256 by { assert Pow2(4) == 16; }
    XorByteParts(h, b);
    XorTwice(h % 256, b, 8);
  }

  lemma XorByteDiffers(h: nat, b: byte, c: byte)
    requires b != c
    ensures XorByte(h, b) != XorByte(h, c)
  {
    assert Pow2(8) == 256 by { assert Pow2(4) == 16; }
    XorByteParts(h, b);
    XorByteParts(h, c);
    XorSwap(h % 256, b, 8);
    XorSwap(h % 256, c, 8);
    XorTwice(b, h % 256, 8);
    XorTwice(c, h % 256, 8);
  }

  /** The inverse of the prime modulo 2^64, and the multiple of 2^64 it leaves. */
  const INVERSE: nat := 0xce96_5057_aff6_957b
  const TURNS: nat := 887_285_111_055

  lemma PrimeIsInvertible()
    ensures FNV_PRIME * INVERSE == WORD * TURNS + 1
  {
  }

  lemma MultipleGrows(m: int, e: int)
    requires m > 0
    ensures (e >= 1 ==> m * e >= m) && (e <= -1 ==> m * e <= -m)
  {
  }

  lemma SmallMultiple(d: int, m: int, e: int)
    requires m > 0 && d == m * e && -m < d < m
    ensures d == 0
  {
    MultipleGrows(m, e);
  }

  /** If x * p - y * p is a multiple of m and p is invertible, then so is x - y. */
  lemma Cancel(x: int, y: int, p: int, q: int, m: int, t: int, k: int)
    requires x * p - y * p == m * k && p * q == m * t + 1
    ensures x - y == m * (k * q - (x - y) * t)
  {
    var d := x - y;
    assert d * p == m * k;
    assert d * p * q == m * k * q;
    assert d * (p * q) == d * p * q;
    assert d * (m * t + 1) == m * (d * t) + d;
    assert m * k * q == m * (k * q);
    assert m * (k * q - d * t) == m * (k * q) - m * (d * t);
  }

  lemma DivMod(a: nat, m: nat)
    requires m > 0
    ensures a == m * (a / m) + a % m
  {
  }

  /** Multiplying by the prime loses nothing modulo 2^64. */
  lemma MulInjective(x: nat, y: nat)
    requires x < WORD && y < WORD && WrappingMul(x, FNV_PRIME) == WrappingMul(y, FNV_PRIME)
    ensures x == y
  {
    var a, b := x * FNV_PRIME, y * FNV_PRIME;
    DivMod(a, WORD);
    DivMod(b, WORD);
    var k := a / WORD - b / WORD;
    assert WORD * k == WORD * (a / WORD) - WORD * (b / WORD);
    PrimeIsInvertible();
    Cancel(x, y, FNV_PRIME, INVERSE, WORD, TURNS, k);
    SmallMultiple(x - y, WORD, k * INVERSE - (x - y) * TURNS);
  }

  lemma StepInjective(g: nat, h: nat, b: byte)
    requires g < WORD && h < WORD && Step(g, b) == Step(h, b)
    ensures g == h
  {
    XorByteIsWord(g, b);
    XorByteIsWord(h, b);
    MulInjective(XorByte(g, b), XorByte(h, b));
    XorByteTwice(g, b);
    XorByteTwice(h, b);
  }

  lemma StepDiffers(h: nat, b: byte, c: byte)
    requires h < WORD && b != c
    ensures Step(h, b) != Step(h, c)
  {
    XorByteIsWord(h, b);
    XorByteIsWord(h, c);
    XorByteDiffers(h, b, c);
    if Step(h, b) == Step(h, c) { MulInjective(XorByte(h, b), XorByte(h, c)); }
  }

  /** The hash is a 64-bit word. */
  lemma FnvIsWord(bytes: seq<byte>)
    ensures FnvFold(bytes) < WORD
  {
  }

  /** Two strings that differ in a single byte never collide. */
  lemma {:induction false} OneByteNeverCollides(a: seq<byte>, b: seq<byte>, i: nat)
    requires |a| == |b| && i < |a| && a[i] != b[i] && forall j :: 0 <= j < |a| && j != i ==> a[j] == b[j]
    ensures FnvFold(a) != FnvFold(b)
  {
    var n := |a| - 1;
    FnvIsWord(a[..n]);
    FnvIsWord(b[..n]);
    if i == n {
      assert a[..n] == b[..n];
      StepDiffers(FnvFold(a[..n]), a[n], b[n]);
    } else {
      OneByteNeverCollides(a[..n], b[..n], i);
      if FnvFold(a) == FnvFold(b) { StepInjective(FnvFold(a[..n]), FnvFold(b[..n]), a[n]); }
    }
  }
}
