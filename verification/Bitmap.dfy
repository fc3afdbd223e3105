/** VLAN bitmaps (userspace/switch/switch.h:136-168, 212-227): 512 octets, one bit a VLAN. */
module Bitmap {
  const OCTETS: nat := 512

  type Bitmap = b: seq<bv8> | |b| == OCTETS witness seq(OCTETS, _ => 0)

  const MAX_VLAN: nat := 4094

  predicate ValidVlan(vlan: int) { 1 <= vlan <= MAX_VLAN }

  /** 1 << k */
  function Mask(k: nat): bv8
    requires k < 8
  {
    match k
    case 0 => 0x01
    case 1 => 0x02
    case 2 => 0x04
    case 3 => 0x08
    case 4 => 0x10
    case 5 => 0x20
    case 6 => 0x40
    case 7 => 0x80
  }

  predicate TestOctet(x: bv8, k: nat)
    requires k < 8
  {
    x & Mask(k) != 0
  }

  predicate Test(b: Bitmap, v: nat)
    requires v < 8 * OCTETS
  {
    TestOctet(b[v / 8], v % 8)
  }

  function Set(b: Bitmap, v: nat): Bitmap
    requires v < 8 * OCTETS
  {
    b[v / 8 := b[v / 8] | Mask(v % 8)]
  }

  function Reset(b: Bitmap, v: nat): Bitmap
    requires v < 8 * OCTETS
  {
    b[v / 8 := b[v / 8] & !Mask(v % 8)]
  }

  function Or(a: Bitmap, b: Bitmap): Bitmap { seq(OCTETS, i requires 0 <= i < OCTETS => a[i] | b[i]) }

  function And(a: Bitmap, b: Bitmap): Bitmap { seq(OCTETS, i requires 0 <= i < OCTETS => a[i] & b[i]) }

  function Xor(a: Bitmap, b: Bitmap): Bitmap { seq(OCTETS, i requires 0 <= i < OCTETS => a[i] ^ b[i]) }

  function Inverse(a: Bitmap): Bitmap { seq(OCTETS, i requires 0 <= i < OCTETS => !a[i]) }

  function Full(): Bitmap { seq(OCTETS, _ => 0xFF) }

  function Empty(): Bitmap { seq(OCTETS, _ => 0) }

  // ----- What the operations do to each VLAN --------------------------------

  lemma OctetOr(x: bv8, y: bv8, k: nat)
    requires k < 8
    ensures TestOctet(x | y, k) <==> TestOctet(x, k) || TestOctet(y, k)
  {
  }

  lemma OctetAnd(x: bv8, y: bv8, k: nat)
    requires k < 8
    ensures TestOctet(x & y, k) <==> TestOctet(x, k) && TestOctet(y, k)
  {
  }

  lemma OctetXor(x: bv8, y: bv8, k: nat)
    requires k < 8
    ensures TestOctet(x ^ y, k) <==> TestOctet(x, k) != TestOctet(y, k)
  {
    var m := Mask(k);
    assert (x ^ y) & m == (x & m) ^ (y & m);
    OneBit(x, k);
    OneBit(y, k);
    assert m ^ m == 0 && m ^ 0 == m && 0 ^ m == m;
  }

  lemma OneBit(x: bv8, k: nat)
    requires k < 8
    ensures x & Mask(k) == 0 || x & Mask(k) == Mask(k)
    ensures Mask(k) != 0
  {
  }

  lemma OctetNot(x: bv8, k: nat)
    requires k < 8
    ensures TestOctet(!x, k) <==> !TestOctet(x, k)
  {
  }

  lemma OctetMask(j: nat, k: nat)
    requires j < 8 && k < 8
    ensures TestOctet(Mask(j), k) <==> j == k
  {
  }

  lemma OctetConstants(k: nat)
    requires k < 8
    ensures TestOctet(0xFF, k) && !TestOctet(0, k)
  {
  }

  lemma TestOr(a: Bitmap, b: Bitmap, v: nat)
    requires v < 8 * OCTETS
    ensures Test(Or(a, b), v) <==> Test(a, v) || Test(b, v)
  {
    OctetOr(a[v / 8], b[v / 8], v % 8);
  }

  lemma TestInverse(a: Bitmap, v: nat)
    requires v < 8 * OCTETS
    ensures Test(Inverse(a), v) <==> !Test(a, v)
  {
    OctetNot(a[v / 8], v % 8);
  }

  lemma TestAnd(a: Bitmap, b: Bitmap, v: nat)
    requires v < 8 * OCTETS
    ensures Test(And(a, b), v) <==> Test(a, v) && Test(b, v)
  {
    OctetAnd(a[v / 8], b[v / 8], v % 8);
  }

  lemma TestXor(a: Bitmap, b: Bitmap, v: nat)
    requires v < 8 * OCTETS
    ensures Test(Xor(a, b), v) <==> Test(a, v) != Test(b, v)
  {
    OctetXor(a[v / 8], b[v / 8], v % 8);
  }

  /** The code's way to `a` without `b`: a & (a ^ b). */
  lemma TestDifference(a: Bitmap, b: Bitmap, v: nat)
    requires v < 8 * OCTETS
    ensures Test(And(a, Xor(a, b)), v) <==> Test(a, v) && !Test(b, v)
    ensures Test(And(a, Xor(b, a)), v) <==> Test(a, v) && !Test(b, v)
  {
    TestAnd(a, Xor(a, b), v);
    TestXor(a, b, v);
    TestAnd(a, Xor(b, a), v);
    TestXor(b, a, v);
  }

  lemma TestSet(b: Bitmap, v: nat, w: nat)
    requires v < 8 * OCTETS && w < 8 * OCTETS
    ensures Test(Set(b, v), w) <==> w == v || Test(b, w)
  {
    if v / 8 == w / 8 {
      OctetOr(b[v / 8], Mask(v % 8), w % 8);
      OctetMask(v % 8, w % 8);
    }
  }

  lemma TestReset(b: Bitmap, v: nat, w: nat)
    requires v < 8 * OCTETS && w < 8 * OCTETS
    ensures Test(Reset(b, v), w) <==> w != v && Test(b, w)
  {
    if v / 8 == w / 8 {
      OctetAnd(b[v / 8], !Mask(v % 8), w % 8);
      OctetNot(Mask(v % 8), w % 8);
      OctetMask(v % 8, w % 8);
    }
  }

  lemma TestConstants(v: nat)
    requires v < 8 * OCTETS
    ensures Test(Full(), v) && !Test(Empty(), v)
  {
    OctetConstants(v % 8);
  }

  /** Bitmaps that agree on every bit are the same. */
  lemma SameBits(a: Bitmap, b: Bitmap)
    requires forall v: nat | v < 8 * OCTETS :: Test(a, v) <==> Test(b, v)
    ensures a == b
  {
    forall i | 0 <= i < OCTETS
      ensures a[i] == b[i]
    {
      forall k: nat | k < 8
        ensures TestOctet(a[i], k) <==> TestOctet(b[i], k)
      {
        assert (8 * i + k) / 8 == i && (8 * i + k) % 8 == k;
        assert Test(a, 8 * i + k) <==> Test(b, 8 * i + k);
      }
      SameOctet(a[i], b[i]);
    }
  }

  lemma SameOctet(x: bv8, y: bv8)
    requires forall k: nat | k < 8 :: TestOctet(x, k) <==> TestOctet(y, k)
    ensures x == y
  {
    assert TestOctet(x, 0) <==> TestOctet(y, 0);
    assert TestOctet(x, 1) <==> TestOctet(y, 1);
    assert TestOctet(x, 2) <==> TestOctet(y, 2);
    assert TestOctet(x, 3) <==> TestOctet(y, 3);
    assert TestOctet(x, 4) <==> TestOctet(y, 4);
    assert TestOctet(x, 5) <==> TestOctet(y, 5);
    assert TestOctet(x, 6) <==> TestOctet(y, 6);
    assert TestOctet(x, 7) <==> TestOctet(y, 7);
  }

  // ----- The macros, in place -----------------------------------------------

  /** sw_bitmap_or; the result may be one of the operands, as the backend has it. */
  method BitmapOr(x: array<bv8>, y: array<bv8>, result: array<bv8>)
    requires x.Length == y.Length == result.Length == OCTETS
    modifies result
    ensures result[..] == Or(old(x[..]), old(y[..]))
  {
    for i := 0 to OCTETS
      invariant forall j | 0 <= j < i :: result[j] == old(x[j]) | old(y[j])
      invariant forall j | i <= j < OCTETS :: x[j] == old(x[j]) && y[j] == old(y[j])
    {
      result[i] := x[i] | y[i];
    }
  }

  /** sw_bitmap_and. */
  method BitmapAnd(x: array<bv8>, y: array<bv8>, result: array<bv8>)
    requires x.Length == y.Length == result.Length == OCTETS
    modifies result
    ensures result[..] == And(old(x[..]), old(y[..]))
  {
    for i := 0 to OCTETS
      invariant forall j | 0 <= j < i :: result[j] == old(x[j]) & old(y[j])
      invariant forall j | i <= j < OCTETS :: x[j] == old(x[j]) && y[j] == old(y[j])
    {
      result[i] := x[i] & y[i];
    }
  }

  /** sw_bitmap_xor. */
  method BitmapXor(x: array<bv8>, y: array<bv8>, result: array<bv8>)
    requires x.Length == y.Length == result.Length == OCTETS
    modifies result
    ensures result[..] == Xor(old(x[..]), old(y[..]))
  {
    for i := 0 to OCTETS
      invariant forall j | 0 <= j < i :: result[j] == old(x[j]) ^ old(y[j])
      invariant forall j | i <= j < OCTETS :: x[j] == old(x[j]) && y[j] == old(y[j])
    {
      result[i] := x[i] ^ y[i];
    }
  }

  /** inverse_bitmap. */
  method InvertBitmap(b: array<bv8>)
    requires b.Length == OCTETS
    modifies b
    ensures b[..] == Inverse(old(b[..]))
  {
    for i := 0 to OCTETS
      invariant forall j | 0 <= j < i :: b[j] == !old(b[j])
      invariant forall j | i <= j < OCTETS :: b[j] == old(b[j])
    {
      b[i] := !b[i];
    }
  }
}
