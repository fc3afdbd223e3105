/** The checksum of outgoing CDP packets (userspace/cdpd/cdp_send.c:216-229), on machines of either
    byte order. */
module CdpChecksum {
  type Word = w: nat | w < 0x1_0000

  /** unsigned long has 64 bits. */
  const ULONG: nat := 0x1_0000_0000_0000_0000

  function Sum(ws: seq<Word>): nat {
    if ws == [] then 0 else ws[0] + Sum(ws[1..])
  }

  /** One's complement addition: the carry is added at the other end. */
  function AddOnes(x: Word, y: Word): Word {
    if x + y > 0xFFFF then x + y - 0xFFFF else x + y
  }

  /** The one's complement sum of some words, as section 1 of RFC 1071 has it. */
  function OnesSum(ws: seq<Word>): Word {
    if ws == [] then 0 else AddOnes(ws[0], OnesSum(ws[1..]))
  }

  lemma {:induction false} OnesSumModulo(ws: seq<Word>)
    ensures OnesSum(ws) % 0xFFFF == Sum(ws) % 0xFFFF
    ensures OnesSum(ws) == 0 <==> Sum(ws) == 0
  {
    if ws != [] {
      OnesSumModulo(ws[1..]);
      var a: int, b: int, s := ws[0], OnesSum(ws[1..]), Sum(ws[1..]);
      AddModulo(a, b, s);
      assert AddOnes(a, b) % 0xFFFF == (a + b) % 0xFFFF;
    }
  }

  lemma AddModulo(a: int, b: int, s: int)
    requires b % 0xFFFF == s % 0xFFFF
    ensures (a + b) % 0xFFFF == (a + s) % 0xFFFF
  {
    assert b - s == 0xFFFF * (b / 0xFFFF - s / 0xFFFF);
  }

  /** The first fold of the 64-bit sum. */
  function Fold(s: nat): nat { s / 0x1_0000 + s % 0x1_0000 }

  /** cdp_checksum of a sum: the second fold is cut to 16 bits, and complemented. */
  function Finish(s: nat): Word {
    0xFFFF - (Fold(s) + Fold(s) / 0x1_0000) % 0x1_0000
  }

  function ChecksumOf(ws: seq<Word>): Word { Finish(Sum(ws) % ULONG) }

  /** What the two folds drop: the carries out of the second one. */
  function Dropped(s: nat): nat { (Fold(s) % 0x1_0000 + Fold(s) / 0x1_0000) / 0x1_0000 }

  lemma FinishModulo(s: nat)
    ensures Finish(s) == 0xFFFF - (Fold(s) % 0x1_0000 + Fold(s) / 0x1_0000 - 0x1_0000 * Dropped(s))
  {
    var f := Fold(s);
    var hi, lo := f / 0x1_0000, f % 0x1_0000;
    assert f + hi == 0x1_0000 * hi + (lo + hi);
    Residue(hi, lo + hi);
  }

  lemma Residue(q: nat, x: nat)
    ensures (0x1_0000 * q + x) % 0x1_0000 == x % 0x1_0000
  {
  }

  /** Adding the checksum to the sum leaves what was dropped, modulo 0xFFFF. */
  lemma Complement(s: nat)
    ensures (s + Finish(s)) % 0xFFFF == Dropped(s) % 0xFFFF
  {
    FinishModulo(s);
    var f, d := Fold(s), Dropped(s);
    var m := (s / 0x1_0000) + (f / 0x1_0000) + d + 1;
    assert s == 0x1_0000 * (s / 0x1_0000) + s % 0x1_0000;
    assert f == 0x1_0000 * (f / 0x1_0000) + f % 0x1_0000;
    assert s + Finish(s) == 0xFFFF * m + d;
    Multiple(m, d);
  }

  lemma Multiple(m: nat, d: nat)
    ensures (0xFFFF * m + d) % 0xFFFF == d % 0xFFFF
  {
  }

  lemma TotalModulo(q: nat, s: nat)
    ensures (Finish(s) + (s + ULONG * q)) % 0xFFFF == (q + Dropped(s)) % 0xFFFF
  {
    Complement(s);
    UlongModulo(s + Finish(s), q, Dropped(s));
  }

  lemma TotalPositive(q: nat, s: nat)
    ensures Finish(s) + (s + ULONG * q) > 0
  {
    if s == 0 {
      assert Fold(0) == 0;
    }
  }

  lemma SumFirst(c: Word, ws: seq<Word>)
    ensures Sum([c] + ws) == c + Sum(ws)
  {
    assert ([c] + ws)[1..] == ws;
  }

  lemma VerifiesIff(ws: seq<Word>, q: nat, s: nat, lost: nat)
    requires Sum(ws) == s + ULONG * q && lost == q + Dropped(s)
    ensures OnesSum([Finish(s)] + ws) == 0xFFFF <==> lost % 0xFFFF == 0
  {
    OnesSumModulo([Finish(s)] + ws);
    SumFirst(Finish(s), ws);
    TotalModulo(q, s);
    TotalPositive(q, s);
    Full(OnesSum([Finish(s)] + ws));
  }

  /** A receiver that adds the checksum as one more word gets 0xFFFF exactly when what was lost,
      beyond 64 bits and in the folds, is nothing, modulo 0xFFFF. */
  lemma ChecksumVerifiesIff(ws: seq<Word>)
    ensures OnesSum([ChecksumOf(ws)] + ws) == 0xFFFF
            <==> (Sum(ws) / ULONG + Dropped(Sum(ws) % ULONG)) % 0xFFFF == 0
  {
    var q, s := Sum(ws) / ULONG, Sum(ws) % ULONG;
    VerifiesIff(ws, q, s, q + Dropped(s));
  }

  lemma Full(x: Word)
    requires x != 0
    ensures x == 0xFFFF <==> x % 0xFFFF == 0
  {
  }

  /** 2 to the 64 is one more than a multiple of 0xFFFF. */
  lemma UlongModulo(x: nat, q: nat, d: nat)
    requires x % 0xFFFF == d % 0xFFFF
    ensures (x + ULONG * q) % 0xFFFF == (q + d) % 0xFFFF
  {
    var k := 0x0001_0001_0001_0001;
    assert ULONG == 0xFFFF * k + 1;
    assert x + ULONG * q == 0xFFFF * (k * q) + (q + x) by {
      assert ULONG * q == 0xFFFF * k * q + q;
    }
    Multiple(k * q, q + x);
    AddModulo(q, x, d);
  }

  /** Two folds are enough for any sum below 2 to the 32, hence for packets of up to 65537 words. */
  lemma TwoFoldsSuffice(ws: seq<Word>)
    requires Sum(ws) < 0x1_0000_0000
    ensures OnesSum([ChecksumOf(ws)] + ws) == 0xFFFF
  {
    Split(Sum(ws), 0, Sum(ws));
    var s := Sum(ws);
    NothingDropped(s);
    VerifiesIff(ws, 0, s, 0);
  }

  lemma NothingDropped(s: nat)
    requires s < 0x1_0000_0000
    ensures Dropped(s) == 0
  {
    var hi, lo := s / 0x1_0000, s % 0x1_0000;
    assert hi <= 0xFFFF;
    if hi + lo > 0xFFFF {
      assert (hi + lo) / 0x1_0000 == 1;
      assert (hi + lo) % 0x1_0000 == hi + lo - 0x1_0000;
    }
  }

  /** Below that the checksum is the one's complement of the one's complement sum, so 0xFFFF for words that are
      all zero and 0 for other words whose sum is a multiple of 0xFFFF. */
  lemma ChecksumIsComplement(ws: seq<Word>)
    requires Sum(ws) < 0x1_0000_0000
    ensures ChecksumOf(ws) == 0xFFFF - OnesSum(ws)
  {
    var s, c := Sum(ws), ChecksumOf(ws);
    TwoFoldsSuffice(ws);
    assert ([c] + ws)[1..] == ws;
    Split(s, 0, s);
    FinishModulo(s);
    NothingDropped(s);
    OnesSumModulo(ws);
    if c == 0xFFFF {
      OnlyZeroFoldsToZero(s);
    }
  }

  lemma OnlyZeroFoldsToZero(s: nat)
    requires Fold(s) % 0x1_0000 + Fold(s) / 0x1_0000 == 0
    ensures s == 0
  {
    assert Fold(s) == 0x1_0000 * (Fold(s) / 0x1_0000) + Fold(s) % 0x1_0000;
    assert s == 0x1_0000 * (s / 0x1_0000) + s % 0x1_0000;
  }

  lemma {:induction false} SumIsBounded(ws: seq<Word>)
    ensures Sum(ws) <= 0xFFFF * |ws|
  {
    if ws != [] {
      SumIsBounded(ws[1..]);
    }
  }

  lemma PacketsVerify(ws: seq<Word>)
    requires |ws| <= 65537
    ensures OnesSum([ChecksumOf(ws)] + ws) == 0xFFFF
  {
    SumIsSmall(ws);
    TwoFoldsSuffice(ws);
  }

  lemma PacketsHoldTheComplement(ws: seq<Word>)
    requires |ws| <= 65537
    ensures ChecksumOf(ws) == 0xFFFF - OnesSum(ws)
  {
    SumIsSmall(ws);
    ChecksumIsComplement(ws);
  }

  lemma Split(x: nat, q: nat, r: nat)
    requires x == ULONG * q + r && r < ULONG
    ensures x / ULONG == q && x % ULONG == r
  {
  }

  // ----- From octets to words -----------------------------------------------

  type Octet = n: nat | n < 0x100

  /** Two octets of memory, read as an unsigned short. */
  function Pair(first: Octet, second: Octet, bigEndian: bool): Word {
    if bigEndian then 0x100 * first + second else first + 0x100 * second
  }

  /** The words that are added up. The last octet of an odd packet is read together with the one
      beyond the packet, and htons makes that the same word on either machine. */
  function Words(data: seq<Octet>, bigEndian: bool, beyond: Octet): (r: seq<Word>)
    ensures |r| == (|data| + 1) / 2
  {
    if data == [] then []
    else if |data| == 1 then [0x100 * data[0] + beyond]
    else [Pair(data[0], data[1], bigEndian)] + Words(data[2..], bigEndian, beyond)
  }

  /** The words of a receiver of the same byte order that pads with a zero octet, as section 2 of
      RFC 1071 has it. */
  function Padded(data: seq<Octet>, bigEndian: bool): seq<Word> {
    if data == [] then []
    else if |data| == 1 then [Pair(data[0], 0, bigEndian)]
    else [Pair(data[0], data[1], bigEndian)] + Padded(data[2..], bigEndian)
  }

  /** How much more the sender adds than the receiver. */
  function Surplus(data: seq<Octet>, bigEndian: bool, beyond: Octet): nat {
    if |data| % 2 == 0 then 0
    else
      var last: nat, next: nat := data[|data| - 1], beyond;
      if bigEndian then next else 0xFF * last + next
  }

  lemma SurplusOfTail(data: seq<Octet>, bigEndian: bool, beyond: Octet)
    requires |data| > 1
    ensures Surplus(data[2..], bigEndian, beyond) == Surplus(data, bigEndian, beyond) < 0xFFFF
  {
    assert |data| % 2 == 1 ==> data[2..][|data| - 3] == data[|data| - 1];
  }

  lemma {:induction false} SenderAddsSurplus(data: seq<Octet>, bigEndian: bool, beyond: Octet)
    ensures Surplus(data, bigEndian, beyond) < 0xFFFF
    ensures Sum(Words(data, bigEndian, beyond)) == Sum(Padded(data, bigEndian)) + Surplus(data, bigEndian, beyond)
  {
    if |data| == 1 {
      SumFirst(0x100 * data[0] + beyond, []);
      SumFirst(Pair(data[0], 0, bigEndian), []);
    } else if |data| > 1 {
      SurplusOfTail(data, bigEndian, beyond);
      SenderAddsSurplus(data[2..], bigEndian, beyond);
      SumFirst(Pair(data[0], data[1], bigEndian), Words(data[2..], bigEndian, beyond));
      SumFirst(Pair(data[0], data[1], bigEndian), Padded(data[2..], bigEndian));
    }
  }

  lemma SurplusModulo(t: nat, d: nat, lost: nat)
    requires (t + d) % 0xFFFF == lost % 0xFFFF && d < 0xFFFF
    ensures t % 0xFFFF == 0 <==> lost % 0xFFFF == d
  {
  }

  /** The complement of a small sum is not zero. */
  lemma FinishOfSmall(s: nat)
    requires s < 0xFFFF
    ensures Finish(s) == 0xFFFF - s
  {
    assert Fold(s) == s;
  }

  lemma PaddedVerifiesIff(ps: seq<Word>, q: nat, s: nat, d: nat)
    requires Sum(ps) + d == s + ULONG * q && s < ULONG && d < 0xFFFF
    ensures OnesSum([Finish(s)] + ps) == 0xFFFF <==> (q + Dropped(s)) % 0xFFFF == d
  {
    var t := Finish(s) + Sum(ps);
    TotalModulo(q, s);
    SurplusModulo(t, d, q + Dropped(s));
    assert t > 0 by {
      if Sum(ps) == 0 {
        assert q > 0 ==> ULONG * q >= ULONG;
        FinishOfSmall(s);
      }
    }
    OnesSumModulo([Finish(s)] + ps);
    SumFirst(Finish(s), ps);
    Full(OnesSum([Finish(s)] + ps));
  }

  /** Such a receiver gets 0xFFFF exactly when what the sender has lost is, modulo 0xFFFF, what it has
      added too much. */
  lemma PacketVerifiesIff(data: seq<Octet>, bigEndian: bool, beyond: Octet)
    ensures var s := Sum(Words(data, bigEndian, beyond));
            OnesSum([ChecksumOf(Words(data, bigEndian, beyond))] + Padded(data, bigEndian)) == 0xFFFF
            <==> (s / ULONG + Dropped(s % ULONG)) % 0xFFFF == Surplus(data, bigEndian, beyond)
  {
    var s := Sum(Words(data, bigEndian, beyond));
    SenderAddsSurplus(data, bigEndian, beyond);
    PaddedVerifiesIff(Padded(data, bigEndian), s / ULONG, s % ULONG, Surplus(data, bigEndian, beyond));
  }

  /** Hence a packet of up to 131074 octets verifies exactly when their number is even, or there is a
      zero beyond it and, but on a big-endian machine, a zero at its end. */
  lemma PacketsVerifyIff(data: seq<Octet>, bigEndian: bool, beyond: Octet)
    requires |data| <= 2 * 65537
    ensures OnesSum([ChecksumOf(Words(data, bigEndian, beyond))] + Padded(data, bigEndian)) == 0xFFFF
            <==> |data| % 2 == 0 || (beyond == 0 && (bigEndian || data[|data| - 1] == 0))
  {
    NothingLost(Words(data, bigEndian, beyond));
    PacketVerifiesIff(data, bigEndian, beyond);
    NoSurplusIff(data, bigEndian, beyond);
  }

  lemma NothingLost(ws: seq<Word>)
    requires |ws| <= 65537
    ensures (Sum(ws) / ULONG + Dropped(Sum(ws) % ULONG)) % 0xFFFF == 0
  {
    SumIsSmall(ws);
    SmallIsNotLost(Sum(ws));
  }

  lemma SumIsSmall(ws: seq<Word>)
    requires |ws| <= 65537
    ensures Sum(ws) < 0x1_0000_0000
  {
    SumIsBounded(ws);
  }

  lemma SmallIsNotLost(s: nat)
    requires s < 0x1_0000_0000
    ensures (s / ULONG + Dropped(s % ULONG)) % 0xFFFF == 0
  {
    Split(s, 0, s);
    NothingDropped(s);
  }

  lemma NoSurplusIff(data: seq<Octet>, bigEndian: bool, beyond: Octet)
    ensures Surplus(data, bigEndian, beyond) == 0
            <==> |data| % 2 == 0 || (beyond == 0 && (bigEndian || data[|data| - 1] == 0))
  {
  }

  // ----- The loop -----------------------------------------------------------

  /** Addition to an unsigned long. */
  function AddLong(sum: nat, w: Word): (r: (nat, nat))
    requires sum < ULONG
    ensures r.0 < ULONG && ULONG * r.1 + r.0 == sum + w
  {
    if sum + w >= ULONG then (sum + w - ULONG, 1) else (sum + w, 0)
  }

  /** The sum, which wraps as an unsigned long. */
  method SumUp(buffer: seq<Octet>, bigEndian: bool, beyond: Octet) returns (sum: nat)
    ensures sum == Sum(Words(buffer, bigEndian, beyond)) % ULONG
  {
    var next := 0;
    sum := 0;
    ghost var wraps := 0;
    assert buffer[0..] == buffer;
    while |buffer| - next > 1
      invariant 0 <= next <= |buffer| && 0 <= sum < ULONG && 0 <= wraps
      invariant ULONG * wraps + sum + Sum(Words(buffer[next..], bigEndian, beyond))
                == Sum(Words(buffer, bigEndian, beyond))
    {
      var w := Pair(buffer[next], buffer[next + 1], bigEndian);
      assert buffer[next..][2..] == buffer[next + 2..];
      SumFirst(w, Words(buffer[next + 2..], bigEndian, beyond));
      var added := AddLong(sum, w);
      sum, wraps, next := added.0, wraps + added.1, next + 2;
    }
    if |buffer| - next == 1 {
      var w := 0x100 * buffer[next] + beyond;
      SumFirst(w, []);
      assert buffer[next..] == [buffer[next]];
      var added := AddLong(sum, w);
      sum, wraps := added.0, wraps + added.1;
    } else {
      assert buffer[next..] == [];
    }
    Split(Sum(Words(buffer, bigEndian, beyond)), wraps, sum);
  }

  /** cdp_checksum. */
  method CdpChecksum(buffer: seq<Octet>, bigEndian: bool, beyond: Octet) returns (checksum: Word)
    ensures checksum == ChecksumOf(Words(buffer, bigEndian, beyond))
  {
    var sum := SumUp(buffer, bigEndian, beyond);
    sum := sum / 0x1_0000 + sum % 0x1_0000;
    checksum := 0xFFFF - (sum + sum / 0x1_0000) % 0x1_0000;
  }
}
