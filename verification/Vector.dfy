/** Priority vectors and their byte-wise order (userspace/lib/vector.c, userspace/include/vector.h). */
module Vector {
  newtype Byte = b: int | 0 <= b < 256
  type Bytes = seq<Byte>

  // struct priority_vector4, struct bridge_id and a port identifier, all packed.
  type Vec4 = v: Bytes | |v| == 22 witness seq(22, _ => 0)
  type BridgeId = v: Bytes | |v| == 8 witness seq(8, _ => 0)
  type PortId = v: Bytes | |v| == 2 witness seq(2, _ => 0)

  /** struct rstp_times; tim_compare asks only whether two of them differ. */
  datatype Times = Times(messageAge: nat, maxAge: nat, helloTime: nat, forwardDelay: nat)

  function Vector4(root: BridgeId, cost: Bytes, bridge: BridgeId, port: PortId): Vec4
    requires |cost| == 4
  {
    root + cost + bridge + port
  }

  function DesignatedBridge(v: Vec4): BridgeId { v[12..20] }

  /** memcmp of two buffers of the same length: the sign of the first difference. */
  function Compare(a: Bytes, b: Bytes): (c: int)
    requires |a| == |b|
    ensures -1 <= c <= 1
  {
    if a == [] then 0
    else if a[0] < b[0] then -1
    else if a[0] > b[0] then 1
    else Compare(a[1..], b[1..])
  }

  lemma {:induction false} CompareIsEquality(a: Bytes, b: Bytes)
    requires |a| == |b|
    ensures Compare(a, b) == 0 <==> a == b
  {
    if a != [] {
      assert a == [a[0]] + a[1..] && b == [b[0]] + b[1..];
      CompareIsEquality(a[1..], b[1..]);
    }
  }

  lemma {:induction false} CompareIsAntisymmetric(a: Bytes, b: Bytes)
    requires |a| == |b|
    ensures Compare(a, b) == -Compare(b, a)
  {
    if a != [] {
      CompareIsAntisymmetric(a[1..], b[1..]);
    }
  }

  lemma {:induction false} CompareIsTransitive(a: Bytes, b: Bytes, c: Bytes)
    requires |a| == |b| == |c| && Compare(a, b) <= 0 && Compare(b, c) <= 0
    ensures Compare(a, c) <= 0
    ensures Compare(a, b) < 0 || Compare(b, c) < 0 ==> Compare(a, c) < 0
  {
    if a != [] && a[0] == b[0] == c[0] {
      CompareIsTransitive(a[1..], b[1..], c[1..]);
    }
  }

  /** The first octet that differs decides, and the smaller one is the better one. */
  predicate FirstDifference(a: Bytes, b: Bytes, k: nat) {
    k < |a| && k < |b| && a[..k] == b[..k] && a[k] < b[k]
  }

  lemma {:induction false} CompareIsLexicographic(a: Bytes, b: Bytes)
    requires |a| == |b|
    ensures Compare(a, b) < 0 <==> exists k :: FirstDifference(a, b, k)
  {
    if a != [] && a[0] == b[0] {
      CompareIsLexicographic(a[1..], b[1..]);
      if k: nat :| FirstDifference(a[1..], b[1..], k) {
        assert a[..k + 1] == [a[0]] + a[1..][..k] && b[..k + 1] == [b[0]] + b[1..][..k];
        assert FirstDifference(a, b, k + 1);
      }
      if k: nat :| FirstDifference(a, b, k) {
        assert a[1..][..k - 1] == a[..k][1..] && b[1..][..k - 1] == b[..k][1..];
        assert FirstDifference(a[1..], b[1..], k - 1);
      }
    } else if a != [] {
      if a[0] < b[0] {
        assert FirstDifference(a, b, 0);
      } else {
        forall k: nat
          ensures !FirstDifference(a, b, k)
        {
          if 0 < k <= |a| {
            assert a[..k][0] != b[..k][0];
          }
        }
      }
    }
  }

  /** Comparing first by one buffer and then by another is comparing them joined. */
  lemma {:induction false} CompareJoined(a: Bytes, b: Bytes, x: Bytes, y: Bytes)
    requires |a| == |b| && |x| == |y|
    ensures Compare(a + x, b + y) == if Compare(a, b) != 0 then Compare(a, b) else Compare(x, y)
  {
    if a == [] {
      assert a + x == x && b + y == y;
    } else {
      assert (a + x)[1..] == a[1..] + x && (b + y)[1..] == b[1..] + y;
      CompareJoined(a[1..], b[1..], x, y);
    }
  }
}
