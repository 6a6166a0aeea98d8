/** Price-shape identity of an opportunity: a canonical byte string over the
    class and the sorted legs, hashed by 64-bit FNV-1a. */
module Fingerprint {
  import opened Num
  import opened Instrument
  import opened Bits
  import opened Fnv
  import opened Sorting

  /** Token, is-buy, limit price: what the identity keeps of a leg. */
  datatype Shape = Shape(token: nat, buy: bool, px: nat)

  /** Machine widths of the encoded fields. */
  predicate Encodable(s: Shape) {
    s.token < 0x1_0000_0000_0000_0000 && s.px < 0x1_0000
  }

  function ShapeOf(f: LegFill): Shape {
    Shape(f.token, f.action == Buy, f.limitPx)
  }

  function Shapes(op: Opportunity): seq<Shape> {
    seq(|op.fills|, i requires 0 <= i < |op.fills| => ShapeOf(op.fills[i]))
  }

  predicate Leq(a: Shape, b: Shape) {
    if a.token != b.token then a.token < b.token
    else if a.buy != b.buy then b.buy
    else a.px <= b.px
  }

  lemma LeqIsTotal()
    ensures TotalOrder(Leq) && forall x, y :: Leq(x, y) && Leq(y, x) ==> x == y
  {
  }

  /** The shapes in canonical order. */
  function SortedShapes(op: Opportunity): seq<Shape> {
    Sort(Leq, Shapes(op))
  }

  // ----- bytes -----

  function LeBytes(v: nat, n: nat): (r: seq<byte>)
    ensures |r| == n
  {
    if n == 0 then [] else [v % 256] + LeBytes(v / 256, n - 1)
  }

  function Pow256(n: nat): nat {
    if n == 0 then 1 else 256 * Pow256(n - 1)
  }

  lemma {:induction false} LeBytesInjective(a: nat, b: nat, n: nat)
    requires a < Pow256(n) && b < Pow256(n) && LeBytes(a, n) == LeBytes(b, n)
    ensures a == b
  {
    if n == 0 {
    } else {
      var x, y := LeBytes(a, n), LeBytes(b, n);
      assert x[1..] == LeBytes(a / 256, n - 1) && y[1..] == LeBytes(b / 256, n - 1);
      assert x[0] == y[0];
      LeBytesInjective(a / 256, b / 256, n - 1);
    }
  }

  function ShapeBytes(s: Shape): (r: seq<byte>)
    ensures |r| == 11
  {
    LeBytes(s.token, 8) + [if s.buy then 1 else 0] + LeBytes(s.px, 2)
  }

  lemma ShapeBytesInjective(a: Shape, b: Shape)
    requires Encodable(a) && Encodable(b) && ShapeBytes(a) == ShapeBytes(b)
    ensures a == b
  {
    var x, y := ShapeBytes(a), ShapeBytes(b);
    assert x[..8] == LeBytes(a.token, 8) && y[..8] == LeBytes(b.token, 8);
    assert x[8] == (if a.buy then 1 else 0) && y[8] == (if b.buy then 1 else 0);
    assert x[9..] == LeBytes(a.px, 2) && y[9..] == LeBytes(b.px, 2);
    assert Pow256(2) == 0x1_0000;
    assert Pow256(4) == 0x1_0000_0000;
    assert Pow256(8) == 0x1_0000_0000_0000_0000;
    LeBytesInjective(a.token, b.token, 8);
    LeBytesInjective(a.px, b.px, 2);
  }

  function Flatten(shapes: seq<Shape>): (r: seq<byte>)
    ensures |r| == 11 * |shapes|
  {
    if shapes == [] then [] else ShapeBytes(shapes[0]) + Flatten(shapes[1..])
  }

  lemma {:induction false} FlattenInjective(a: seq<Shape>, b: seq<Shape>)
    requires (forall s :: s in a ==> Encodable(s)) && (forall s :: s in b ==> Encodable(s))
    requires Flatten(a) == Flatten(b)
    ensures a == b
  {
    if a == [] {
    } else {
      var x, y := Flatten(a), Flatten(b);
      assert x[..11] == ShapeBytes(a[0]) && y[..11] == ShapeBytes(b[0]);
      assert x[11..] == Flatten(a[1..]) && y[11..] == Flatten(b[1..]);
      ShapeBytesInjective(a[0], b[0]);
      FlattenInjective(a[1..], b[1..]);
    }
  }

  function ClassByte(c: ArbClass): byte {
    match c
    case C1Long => 1 case C1Short => 2 case C2Long => 3 case C2Short => 4
    case C3Implies => 5 case C3MutEx => 6 case C3Equiv => 7 case C4Lp => 8
  }

  /** The bytes the hash sees. */
  function Canonical(op: Opportunity): seq<byte> {
    [ClassByte(op.cls)] + Flatten(SortedShapes(op))
  }

  ghost predicate EncodableOp(op: Opportunity) {
    forall s :: s in Shapes(op) ==> Encodable(s)
  }

  /** The canonical string names exactly the class and the multiset of leg
      shapes: leg order and sizes never matter, and nothing else is confused. */
  lemma CanonicalIsIdentity(a: Opportunity, b: Opportunity)
    requires EncodableOp(a) && EncodableOp(b)
    ensures Canonical(a) == Canonical(b) <==> a.cls == b.cls && multiset(Shapes(a)) == multiset(Shapes(b))
  {
    var sa, sb := SortedShapes(a), SortedShapes(b);
    LeqIsTotal();
    SortSorts(Leq, Shapes(a));
    SortSorts(Leq, Shapes(b));
    SortKeeps(Leq, Shapes(a));
    SortKeeps(Leq, Shapes(b));
    if Canonical(a) == Canonical(b) {
      assert Canonical(a)[0] == Canonical(b)[0];
      assert Canonical(a)[1..] == Flatten(sa) && Canonical(b)[1..] == Flatten(sb);
      SortedEncodable(a);
      SortedEncodable(b);
      FlattenInjective(sa, sb);
    }
    if multiset(Shapes(a)) == multiset(Shapes(b)) {
      SortedUnique(Leq, sa, sb);
    }
  }

  lemma SortedEncodable(op: Opportunity)
    requires EncodableOp(op)
    ensures forall s :: s in SortedShapes(op) ==> Encodable(s)
  {
    SortKeeps(Leq, Shapes(op));
    forall s | s in SortedShapes(op) ensures Encodable(s) {
      assert s in multiset(SortedShapes(op));
    }
  }

  // ----- the hash -----

  function Fingerprint(op: Opportunity): nat {
    FnvFold(Canonical(op))
  }

  /** Equal shapes get equal fingerprints, and a collision between different
      shapes is a collision of FNV-1a itself on two different strings. */
  lemma CollisionsAreHashCollisions(a: Opportunity, b: Opportunity)
    requires EncodableOp(a) && EncodableOp(b)
    ensures a.cls == b.cls && multiset(Shapes(a)) == multiset(Shapes(b)) ==> Fingerprint(a) == Fingerprint(b)
    ensures Fingerprint(a) == Fingerprint(b) && (a.cls != b.cls || multiset(Shapes(a)) != multiset(Shapes(b)))
            ==> Canonical(a) != Canonical(b) && FnvFold(Canonical(a)) == FnvFold(Canonical(b))
  {
    CanonicalIsIdentity(a, b);
  }

  lemma ClassBytesDiffer(c: ArbClass, d: ArbClass)
    requires c != d
    ensures ClassByte(c) != ClassByte(d)
  {
  }

  /** Opportunities on the same legs in different classes never share a fingerprint,
      hash collisions included. */
  lemma ClassesNeverCollide(a: Opportunity, b: Opportunity)
    requires multiset(Shapes(a)) == multiset(Shapes(b)) && a.cls != b.cls
    ensures Fingerprint(a) != Fingerprint(b)
  {
    LeqIsTotal();
    SortSorts(Leq, Shapes(a));
    SortSorts(Leq, Shapes(b));
    SortKeeps(Leq, Shapes(a));
    SortKeeps(Leq, Shapes(b));
    SortedUnique(Leq, SortedShapes(a), SortedShapes(b));
    ClassBytesDiffer(a.cls, b.cls);
    OneByteNeverCollides(Canonical(a), Canonical(b), 0);
  }

  // ----- the bytes and a value, as persisted -----

  /** The number a little-endian string of bytes stands for. */
  function FromLe(bytes: seq<byte>): nat {
    if bytes == [] then 0 else bytes[0] + 256 * FromLe(bytes[1..])
  }

  lemma {:induction false} LeRoundTrip(v: nat, n: nat)
    requires v < Pow256(n)
    ensures FromLe(LeBytes(v, n)) == v
  {
    if n == 0 {
    } else {
      LeRoundTrip(v / 256, n - 1);
      assert LeBytes(v, n)[1..] == LeBytes(v / 256, n - 1);
    }
  }

  /** Eleven bytes a leg: the token in eight, one for the side, the tick in two, low byte first. */
  ghost predicate Encodes(bytes: seq<byte>, s: Shape) {
    |bytes| == 11 && FromLe(bytes[..8]) == s.token && bytes[8] == (if s.buy then 1 else 0) && FromLe(bytes[9..]) == s.px
  }

  lemma ShapeIsEncoded(s: Shape)
    requires Encodable(s)
    ensures Encodes(ShapeBytes(s), s)
  {
    var b := ShapeBytes(s);
    assert b[..8] == LeBytes(s.token, 8) && b[9..] == LeBytes(s.px, 2);
    assert Pow256(2) == 0x1_0000 && Pow256(4) == 0x1_0000_0000 && Pow256(8) == 0x1_0000_0000_0000_0000;
    LeRoundTrip(s.token, 8);
    LeRoundTrip(s.px, 2);
  }

  lemma {:induction false} FlattenAt(shapes: seq<Shape>, k: nat)
    requires k < |shapes|
    ensures Flatten(shapes)[11 * k..11 * k + 11] == ShapeBytes(shapes[k])
  {
    if k == 0 {
      assert Flatten(shapes)[..11] == ShapeBytes(shapes[0]);
    } else {
      FlattenAt(shapes[1..], k - 1);
      assert Flatten(shapes)[11..] == Flatten(shapes[1..]);
      assert Flatten(shapes)[11 * k..11 * k + 11] == Flatten(shapes[1..])[11 * (k - 1)..11 * (k - 1) + 11];
    }
  }

  /** The string is the class's number, then every leg by token, sells before buys, then tick. */
  lemma CanonicalLayout(op: Opportunity, k: nat)
    requires EncodableOp(op) && k < |op.fills|
    ensures var bytes := Canonical(op);
            && |bytes| == 1 + 11 * |op.fills| && |SortedShapes(op)| == |op.fills|
            && 1 <= bytes[0] <= 8
            && [C1Long, C1Short, C2Long, C2Short, C3Implies, C3MutEx, C3Equiv, C4Lp][bytes[0] - 1] == op.cls
            && Encodes(bytes[1 + 11 * k..12 + 11 * k], SortedShapes(op)[k])
  {
    SortedLength(op);
    SortedEncodable(op);
    var shapes := SortedShapes(op);
    assert shapes[k] in shapes;
    FlattenAt(shapes, k);
    ShapeIsEncoded(shapes[k]);
    assert Canonical(op)[1..] == Flatten(shapes);
    assert Canonical(op)[1 + 11 * k..12 + 11 * k] == Canonical(op)[1..][11 * k..11 * k + 11];
  }

  lemma SortedLength(op: Opportunity)
    ensures |SortedShapes(op)| == |op.fills|
  {
    SortKeeps(Leq, Shapes(op));
    assert |SortedShapes(op)| == |multiset(SortedShapes(op))| == |multiset(Shapes(op))| == |op.fills|;
  }

  /** One byte folded in, checked by its parts: the low byte, its exclusive or, the quotient dropped. */
  lemma OneByte(bytes: seq<byte>, i: nat, b: byte, high: nat, low: nat, mixed: nat, dropped: nat, after: nat)
    requires i < |bytes| && bytes[i] == b && low < 256 && FnvFold(bytes[..i]) == 256 * high + low
    requires Xor(low, b, 8) == mixed && after < WORD
    requires (256 * high + mixed) * FNV_PRIME == dropped * WORD + after
    ensures FnvFold(bytes[..i + 1]) == after
  {
    assert bytes[..i + 1][..i] == bytes[..i];
    Halves(high, low);
    Dropped((256 * high + mixed) * FNV_PRIME, dropped, after);
  }

  lemma Halves(high: nat, low: nat)
    requires low < 256
    ensures (256 * high + low) / 256 == high && (256 * high + low) % 256 == low
  {
  }

  lemma Dropped(all: nat, dropped: nat, after: nat)
    requires all == dropped * WORD + after && after < WORD
    ensures all % WORD == after
  {
  }

  lemma {:induction false} XorZero(a: nat, n: nat)
    requires a < Pow2(n)
    ensures Xor(a, 0, n) == a
  {
    if n == 0 {
    } else {
      XorZero(a / 2, n - 1);
    }
  }

  /** A zero byte mixes nothing in. */
  lemma ZeroByte(bytes: seq<byte>, i: nat, before: nat, dropped: nat, after: nat)
    requires i < |bytes| && bytes[i] == 0 && FnvFold(bytes[..i]) == before && after < WORD
    requires before * FNV_PRIME == dropped * WORD + after
    ensures FnvFold(bytes[..i + 1]) == after
  {
    assert Pow2(8) == 256 by { assert Pow2(4) == 16; }
    XorZero(before % 256, 8);
    OneByte(bytes, i, 0, before / 256, before % 256, before % 256, dropped, after);
  }

  lemma FirstBytes(bytes: seq<byte>)
    requires bytes == [1, 10, 0, 0, 0, 0, 0, 0, 0, 1, 46, 0]
    ensures FnvFold(bytes[..3]) == 0xd08f_3318_6715_de16
  {
    assert bytes[..0] == [];
    OneByte(bytes, 0, 1, 0x00cb_f29c_e484_2223, 37, 36, 0x00cb_f29c_e5de, 0xaf63_bc4c_8601_b62c);
    OneByte(bytes, 1, 10, 0x00af_63bc_4c86_01b6, 44, 38, 0x00af_63bc_4db0, 0x082f_1c07_b4e8_8292);
    ZeroByte(bytes, 2, 0x082f_1c07_b4e8_8292, 0x0008_2f1c_07c2, 0xd08f_3318_6715_de16);
  }

  lemma TokenBytes(bytes: seq<byte>)
    requires bytes == [1, 10, 0, 0, 0, 0, 0, 0, 0, 1, 46, 0]
    requires FnvFold(bytes[..3]) == 0xd08f_3318_6715_de16
    ensures FnvFold(bytes[..6]) == 0xaf35_45c8_4bcf_2cb2
  {
    ZeroByte(bytes, 3, 0xd08f_3318_6715_de16, 0x00d0_8f33_19c9, 0x7931_e877_2a28_5f62);
    ZeroByte(bytes, 4, 0x7931_e877_2a28_5f62, 0x0079_31e8_77f8, 0x182d_647c_a29a_1386);
    ZeroByte(bytes, 5, 0x182d_647c_a29a_1386, 0x0018_2d64_7ccb, 0xaf35_45c8_4bcf_2cb2);
  }

  lemma MiddleBytes(bytes: seq<byte>)
    requires bytes == [1, 10, 0, 0, 0, 0, 0, 0, 0, 1, 46, 0]
    requires FnvFold(bytes[..6]) == 0xaf35_45c8_4bcf_2cb2
    ensures FnvFold(bytes[..9]) == 0x98b9_82a6_4e59_76e6
  {
    ZeroByte(bytes, 6, 0xaf35_45c8_4bcf_2cb2, 0x00af_3545_c975, 0x86b2_4558_d108_f276);
    ZeroByte(bytes, 7, 0x86b2_4558_d108_f276, 0x0086_b245_59b5, 0xe9de_4beb_3233_fe82);
    ZeroByte(bytes, 8, 0xe9de_4beb_3233_fe82, 0x00e9_de4b_ecbf, 0x98b9_82a6_4e59_76e6);
  }

  lemma LastBytes(bytes: seq<byte>)
    requires bytes == [1, 10, 0, 0, 0, 0, 0, 0, 0, 1, 46, 0]
    requires FnvFold(bytes[..9]) == 0x98b9_82a6_4e59_76e6
    ensures FnvFold(bytes[..12]) == 0x43f6_8069_009a_5663
  {
    OneByte(bytes, 9, 1, 0x0098_b982_a64e_5976, 230, 231, 0x0098_b982_a751, 0xdcaf_e797_2205_0a85);
    OneByte(bytes, 10, 46, 0x00dc_afe7_9722_050a, 133, 171, 0x00dc_afe7_9899, 0x03f1_30ce_ce91_2091);
    ZeroByte(bytes, 11, 0x03f1_30ce_ce91_2091, 0x0003_f130_ced5, 0x43f6_8069_009a_5663);
  }

  lemma HashOfString(bytes: seq<byte>)
    requires bytes == [1, 10, 0, 0, 0, 0, 0, 0, 0, 1, 46, 0]
    ensures FnvFold(bytes) == 0x43f6_8069_009a_5663
  {
    FirstBytes(bytes);
    TokenBytes(bytes);
    MiddleBytes(bytes);
    LastBytes(bytes);
    assert bytes[..12] == bytes;
  }

  lemma OneLegString(op: Opportunity)
    requires op.cls == C1Long && |op.fills| == 1
    requires op.fills[0].token == 10 && op.fills[0].action == Buy && op.fills[0].limitPx == 46
    ensures Canonical(op) == [1, 10, 0, 0, 0, 0, 0, 0, 0, 1, 46, 0]
  {
    var shape := Shape(10, true, 46);
    var one := [shape];
    assert Shapes(op) == one && one[..0] == [] && one[1..] == [];
    assert Sort(Leq, one[..0]) == [];
    assert Sort(Leq, one) == Insert(Leq, Sort(Leq, one[..0]), shape) == one;
    LeTen();
    assert Flatten(one) == ShapeBytes(shape) + Flatten(one[1..]);
  }

  /** One leg bought at 46 ticks on token 10, class 1: the value the repository pins for what it persists. */
  lemma PersistedValue(op: Opportunity)
    requires op.cls == C1Long && |op.fills| == 1
    requires op.fills[0].token == 10 && op.fills[0].action == Buy && op.fills[0].limitPx == 46
    ensures Fingerprint(op) == 0x43f6_8069_009a_5663
  {
    OneLegString(op);
    HashOfString(Canonical(op));
  }

  lemma LeTen()
    ensures LeBytes(10, 8) == [10, 0, 0, 0, 0, 0, 0, 0] && LeBytes(46, 2) == [46, 0]
  {
    assert LeBytes(0, 4) == [0, 0, 0, 0];
    assert LeBytes(0, 7) == [0] + ([0] + ([0] + LeBytes(0, 4)));
  }
}
