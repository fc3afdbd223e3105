/** Reading a VLAN list back (userspace/cli/command/config_if.c:5-69, 188-236). */
module VlanParse {
  import opened Bitmap
  import opened VlanList

  // ----- Numbers ------------------------------------------------------------

  predicate IsDigit(c: char) { '0' <= c <= '9' }

  predicate AllDigits(s: string) {
    forall i | 0 <= i < |s| :: IsDigit(s[i])
  }

  function Value(s: string): nat
    requires AllDigits(s)
  {
    if s == "" then 0 else 10 * Value(s[..|s| - 1]) + (s[|s| - 1] as int - '0' as int)
  }

  const LONG_MAX: nat := 0x7fff_ffff_ffff_ffff

  /** The low 32 bits, as a signed number. */
  function ToInt(x: nat): int {
    var low := x % 0x1_0000_0000;
    if low >= 0x8000_0000 then low - 0x1_0000_0000 else low
  }

  /** atoi of digits alone, where it is strtol to a 64-bit long that is then cut down to an int. */
  function Atoi(s: string): int
    requires AllDigits(s)
  {
    ToInt(if Value(s) > LONG_MAX then LONG_MAX else Value(s))
  }

  lemma {:induction false} DecimalReadsBack(n: nat)
    ensures AllDigits(Decimal(n)) && Value(Decimal(n)) == n
  {
    if n >= 10 {
      DecimalReadsBack(n / 10);
      assert Decimal(n)[..|Decimal(n)| - 1] == Decimal(n / 10);
    }
  }

  /** What is read is the number modulo 2 to the 32, in the range of an int; and -1 for all numbers beyond
      the range of a long. */
  lemma AtoiWraps(s: string)
    requires AllDigits(s)
    ensures -0x8000_0000 <= Atoi(s) < 0x8000_0000
    ensures Value(s) < 0x8000_0000_0000_0000 ==> (Atoi(s) - Value(s)) % 0x1_0000_0000 == 0
    ensures Value(s) >= 0x8000_0000_0000_0000 ==> Atoi(s) == -1
  {
    var x := Value(s);
    hide Value;
    var low := x % 0x1_0000_0000;
    assert x == 0x1_0000_0000 * (x / 0x1_0000_0000) + low;
    if x <= LONG_MAX {
      var q := x / 0x1_0000_0000;
      Multiple(if low >= 0x8000_0000 then -q - 1 else -q);
    }
  }

  lemma Multiple(q: int)
    ensures (0x1_0000_0000 * q) % 0x1_0000_0000 == 0
  {
  }

  /** So a number is taken for a VLAN exactly if it fits a long and its low 32 bits are one. */
  lemma TakenForVlanIff(s: string)
    requires AllDigits(s)
    ensures ValidVlan(Atoi(s)) <==> Value(s) < 0x8000_0000_0000_0000 && 1 <= Value(s) % 0x1_0000_0000 <= 4094
  {
  }

  /** Numbers beyond the width of an int are not refused: they wrap around. */
  lemma HugeNumbersWrap(v: nat)
    requires ValidVlan(v)
    ensures exists s: string :: AllDigits(s) && Value(s) == 0x1_0000_0000 + v && Atoi(s) == v
  {
    var s := Decimal(0x1_0000_0000 + v);
    DecimalReadsBack(0x1_0000_0000 + v);
    assert Atoi(s) == ToInt(0x1_0000_0000 + v);
  }

  // ----- What a list means --------------------------------------------------

  /** The number of digits that s starts with. */
  function DigitsEnd(s: string): (k: nat)
    ensures k <= |s| && AllDigits(s[..k]) && (k < |s| ==> !IsDigit(s[k]))
  {
    if s == "" || !IsDigit(s[0]) then 0 else 1 + DigitsEnd(s[1..])
  }

  /** Where the first comma is, or the end of s. */
  function FieldEnd(s: string): (k: nat)
    ensures k <= |s| && (k < |s| ==> s[k] == ',') && forall i | 0 <= i < k :: s[i] != ','
  {
    if s == "" || s[0] == ',' then 0 else 1 + FieldEnd(s[1..])
  }

  datatype Field = Number(v: nat) | Interval(lo: nat, hi: nat) | Bad(code: nat)

  function ReadField(f: string): (r: Field)
    ensures r.Number? ==> ValidVlan(r.v)
    ensures r.Interval? ==> ValidVlan(r.lo) && ValidVlan(r.hi)
    ensures r.Bad? ==> r.code == 1 || r.code == 2
  {
    var k := DigitsEnd(f);
    if k == |f| then ReadNumber(f)
    else if f[k] != '-' then Bad(2)
    else if !ValidVlan(Atoi(f[..k])) then Bad(1)
    else ReadInterval(Atoi(f[..k]), f[k + 1..])
  }

  function ReadNumber(f: string): (r: Field)
    requires AllDigits(f)
    ensures r.Number? ==> ValidVlan(r.v)
    ensures !r.Interval? && (r.Bad? ==> r.code == 1)
  {
    if ValidVlan(Atoi(f)) then Number(Atoi(f)) else Bad(1)
  }

  function ReadInterval(lo: nat, g: string): (r: Field)
    requires ValidVlan(lo)
    ensures !r.Number? && (r.Interval? ==> r.lo == lo && ValidVlan(r.hi))
    ensures r.Bad? ==> r.code == 1 || r.code == 2
  {
    if DigitsEnd(g) < |g| then Bad(2) else if ValidVlan(Atoi(g)) then Interval(lo, Atoi(g)) else Bad(1)
  }

  function SetRange(b: Bitmap, lo: nat, hi: nat): Bitmap
    requires hi <= MAX_VLAN
    decreases hi + 1 - lo
  {
    if lo > hi then b else SetRange(Set(b, lo), lo + 1, hi)
  }

  /** The result of reading list s and the bitmap it leaves, having started from b. A field other
      than the last that is a range ends the reading with 2, its VLANs being set. */
  function Parse(s: string, b: Bitmap): (r: (nat, Bitmap))
    ensures r.0 <= 2
    decreases |s|
  {
    var k := FieldEnd(s);
    var rest := if k < |s| then s[k + 1..] else "";
    match ReadField(s[..k])
    case Bad(code) => (code, b)
    case Number(v) => if k == |s| then (0, Set(b, v)) else Parse(rest, Set(b, v))
    case Interval(lo, hi) => (if k == |s| then 0 else 2, SetRange(b, lo, hi))
  }

  // ----- The parser ---------------------------------------------------------

  lemma {:induction false} DigitsEndIs(s: string, k: nat)
    requires k <= |s| && AllDigits(s[..k]) && (k < |s| ==> !IsDigit(s[k]))
    ensures DigitsEnd(s) == k
  {
    if k > 0 {
      assert s[..k][0] == s[0];
      assert s[1..][..k - 1] == s[..k][1..];
      DigitsEndIs(s[1..], k - 1);
    }
  }

  lemma {:induction false} FieldEndIs(s: string, k: nat)
    requires k <= |s| && (k < |s| ==> s[k] == ',') && forall i | 0 <= i < k :: s[i] != ','
    ensures FieldEnd(s) == k
  {
    if k > 0 {
      FieldEndIs(s[1..], k - 1);
    }
  }

  lemma NumberAtEnd(s: string, b: Bitmap)
    requires AllDigits(s)
    ensures Parse(s, b) == if ValidVlan(Atoi(s)) then (0, Set(b, Atoi(s))) else (1, b)
  {
    FieldEndIs(s, |s|);
    assert s[..|s|] == s;
    DigitsEndIs(s, |s|);
  }

  /** Digits up to the first comma. */
  lemma FieldOfDigits(s: string, k: nat)
    requires k < |s| && AllDigits(s[..k]) && s[k] == ','
    ensures FieldEnd(s) == k && ReadField(s[..k]) == ReadNumber(s[..k])
  {
    assert forall i | 0 <= i < k :: s[i] == s[..k][i];
    FieldEndIs(s, k);
    assert s[..k][..k] == s[..k];
    DigitsEndIs(s[..k], k);
  }

  lemma NumberThenComma(s: string, k: nat, b: Bitmap)
    requires k < |s| && AllDigits(s[..k]) && s[k] == ','
    ensures Parse(s, b) == if ValidVlan(Atoi(s[..k])) then Parse(s[k + 1..], Set(b, Atoi(s[..k]))) else (1, b)
  {
    FieldOfDigits(s, k);
  }

  /** The field of s that starts with k digits and a character that is no digit and no comma. */
  lemma FieldWithMark(s: string, k: nat)
    requires k < |s| && AllDigits(s[..k]) && s[k] != ',' && !IsDigit(s[k])
    ensures k < FieldEnd(s)
    ensures ReadField(s[..FieldEnd(s)]) ==
              if s[k] != '-' then Bad(2)
              else if !ValidVlan(Atoi(s[..k])) then Bad(1)
              else ReadInterval(Atoi(s[..k]), s[k + 1..FieldEnd(s)])
  {
    var e := FieldEnd(s);
    assert forall i | 0 <= i < k :: s[i] == s[..k][i];
    var f := s[..e];
    assert f[..k] == s[..k];
    DigitsEndIs(f, k);
    assert f[k + 1..] == s[k + 1..e];
  }

  lemma BadMark(s: string, k: nat, b: Bitmap)
    requires k < |s| && AllDigits(s[..k]) && s[k] != ',' && !IsDigit(s[k])
    requires s[k] != '-' || !ValidVlan(Atoi(s[..k]))
    ensures Parse(s, b) == (if s[k] != '-' then 2 else 1, b)
  {
    FieldWithMark(s, k);
  }

  /** A list that starts with a number, a dash, and more digits up to index m. */
  predicate IntervalUpTo(s: string, k: nat, m: nat) {
    && k < m <= |s| && AllDigits(s[..k]) && s[k] == '-' && ValidVlan(Atoi(s[..k])) && AllDigits(s[k + 1..m])
  }

  lemma IntervalAtEnd(s: string, k: nat, b: Bitmap)
    requires IntervalUpTo(s, k, |s|)
    ensures Parse(s, b) == if ValidVlan(Atoi(s[k + 1..])) then (0, SetRange(b, Atoi(s[..k]), Atoi(s[k + 1..]))) else (1, b)
  {
    assert forall i | 0 <= i < k :: s[i] == s[..k][i];
    assert forall i | k < i < |s| :: s[i] == s[k + 1..][i - k - 1];
    FieldEndIs(s, |s|);
    FieldWithMark(s, k);
    assert s[k + 1..] == s[k + 1..|s|] == s[k + 1..][..|s| - k - 1];
    DigitsEndIs(s[k + 1..], |s| - k - 1);
  }

  lemma IntervalThenComma(s: string, k: nat, m: nat, b: Bitmap)
    requires IntervalUpTo(s, k, m) && m < |s| && s[m] == ','
    ensures Parse(s, b) == if ValidVlan(Atoi(s[k + 1..m])) then (2, SetRange(b, Atoi(s[..k]), Atoi(s[k + 1..m])))
                           else (1, b)
  {
    assert forall i | 0 <= i < k :: s[i] == s[..k][i];
    assert forall i | k < i < m :: s[i] == s[k + 1..m][i - k - 1];
    FieldWithMark(s, k);
    FieldEndIs(s, m);
    DigitsEndIs(s[k + 1..m], m - k - 1);
  }

  lemma IntervalThenBadMark(s: string, k: nat, m: nat, b: Bitmap)
    requires IntervalUpTo(s, k, m) && m < |s| && !IsDigit(s[m]) && s[m] != ','
    ensures Parse(s, b) == (2, b)
  {
    assert forall i | 0 <= i < k :: s[i] == s[..k][i];
    assert forall i | k < i < m :: s[i] == s[k + 1..m][i - k - 1];
    FieldWithMark(s, k);
    BadSecondMark(s, k, m, FieldEnd(s), Atoi(s[..k]));
  }

  lemma BadSecondMark(s: string, k: nat, m: nat, e: nat, lo: nat)
    requires k < m < |s| && AllDigits(s[k + 1..m]) && !IsDigit(s[m]) && s[m] != ',' && ValidVlan(lo)
    requires k < e <= |s| && (e < |s| ==> s[e] == ',') && forall i | k < i < m :: s[i] == s[k + 1..m][i - k - 1]
    ensures ReadInterval(lo, s[k + 1..e]) == Bad(2)
  {
    var g := s[k + 1..e];
    assert e > m;
    assert g[..m - k - 1] == s[k + 1..m];
    DigitsEndIs(g, m - k - 1);
  }

  /** memset(bmp, 0, SW_VLAN_BMP_NO). */
  method ClearBitmap(bmp: array<bv8>)
    requires bmp.Length == OCTETS
    modifies bmp
    ensures bmp[..] == Empty()
  {
    for i := 0 to OCTETS
      invariant forall j | 0 <= j < i :: bmp[j] == 0
    {
      bmp[i] := 0;
    }
  }

  /** sw_forbid_vlan: set the VLAN's bit. */
  method SetVlan(bmp: array<bv8>, v: nat)
    requires bmp.Length == OCTETS && v < 8 * OCTETS
    modifies bmp
    ensures bmp[..] == Set(old(bmp[..]), v)
  {
    bmp[v / 8] := bmp[v / 8] | Mask(v % 8);
  }

  method SetVlans(bmp: array<bv8>, lo: nat, hi: nat)
    requires bmp.Length == OCTETS && hi <= MAX_VLAN
    modifies bmp
    ensures bmp[..] == SetRange(old(bmp[..]), lo, hi)
  {
    var min := lo;
    while min <= hi
      invariant SetRange(bmp[..], min, hi) == SetRange(old(bmp[..]), lo, hi)
    {
      SetVlan(bmp, min);
      min := min + 1;
    }
  }

  /** Where the scan is: inside the first number (state 0) or the second one (state 1) of the field
      that starts at `start`. */
  ghost predicate Scanning(list: string, state: nat, start: nat, last: nat, ptr: nat, min: int) {
    && start <= last <= ptr <= |list| && state <= 1
    && ptr - last <= DigitsEnd(list[last..])
    && (state == 0 ==> start == last)
    && (state == 1 ==> start < last && FirstNumber(list, start, last - 1, min))
  }

  /** The valid number `min` stands at `start`, with a dash behind it. */
  ghost predicate FirstNumber(list: string, start: nat, dash: nat, min: int) {
    && start <= dash < |list| && list[dash] == '-'
    && dash - start == DigitsEnd(list[start..])
    && min == Atoi(list[start..][..dash - start]) && ValidVlan(min)
  }

  lemma StartOfList(list: string)
    ensures list[0..] == list && Scanning(list, 0, 0, 0, 0, 0)
  {
  }

  lemma ScanDigit(list: string, state: nat, start: nat, last: nat, ptr: nat, min: int)
    requires Scanning(list, state, start, last, ptr, min) && ptr < |list| && IsDigit(list[ptr])
    ensures Scanning(list, state, start, last, ptr + 1, min)
  {
    assert list[last..][ptr - last] == list[ptr];
  }

  /** The digits read so far, up to a character that ends them or the end of the list. */
  lemma ScannedDigits(list: string, last: nat, ptr: nat)
    requires last <= ptr <= |list| && ptr - last <= DigitsEnd(list[last..])
    ensures AllDigits(list[last..ptr])
  {
    var k := DigitsEnd(list[last..]);
    assert forall i | 0 <= i < ptr - last :: list[last..ptr][i] == list[last..][..k][i];
  }

  lemma FirstNumberThenDigits(list: string, start: nat, last: nat, ptr: nat, min: int)
    requires Scanning(list, 1, start, last, ptr, min)
    ensures IntervalUpTo(list[start..], last - 1 - start, ptr - start)
    ensures list[start..][last - start..ptr - start] == list[last..ptr] && AllDigits(list[last..ptr])
  {
    ScannedDigits(list, last, ptr);
    var s := list[start..];
    assert s[last - start..ptr - start] == list[last..ptr];
    assert s[last - 1 - start + 1..ptr - start] == list[last..ptr];
  }

  lemma Slices(list: string, start: nat, ptr: nat)
    requires start <= ptr < |list|
    ensures list[start..][..ptr - start] == list[start..ptr] && list[start..][ptr - start] == list[ptr]
    ensures list[start..][ptr - start + 1..] == list[ptr + 1..]
  {
  }

  lemma OnBadMark(list: string, start: nat, ptr: nat, b: Bitmap)
    requires start <= ptr < |list| && !IsDigit(list[ptr]) && list[ptr] != ','
    requires AllDigits(list[start..ptr]) && (list[ptr] != '-' || !ValidVlan(Atoi(list[start..ptr])))
    ensures Parse(list[start..], b) == (if list[ptr] != '-' then 2 else 1, b)
  {
    var s := list[start..];
    assert s[..ptr - start] == list[start..ptr];
    BadMark(s, ptr - start, b);
  }

  lemma OnDash(list: string, start: nat, ptr: nat, min: int)
    requires Scanning(list, 0, start, start, ptr, min) && ptr < |list| && list[ptr] == '-'
    requires AllDigits(list[start..ptr]) && ValidVlan(Atoi(list[start..ptr]))
    ensures Scanning(list, 1, start, ptr + 1, ptr + 1, Atoi(list[start..ptr]))
  {
    assert list[start..][..ptr - start] == list[start..ptr];
    DigitsEndIs(list[start..], ptr - start);
  }

  lemma OnComma(list: string, start: nat, ptr: nat, v: nat, b: Bitmap)
    requires start <= ptr < |list| && list[ptr] == ',' && AllDigits(list[start..ptr])
    requires v == Atoi(list[start..ptr]) && ValidVlan(v)
    ensures Parse(list[start..], b) == Parse(list[ptr + 1..], Set(b, v))
  {
    Slices(list, start, ptr);
    NumberThenComma(list[start..], ptr - start, b);
  }

  lemma OnBadComma(list: string, start: nat, ptr: nat, b: Bitmap)
    requires start <= ptr < |list| && list[ptr] == ',' && AllDigits(list[start..ptr])
    requires !ValidVlan(Atoi(list[start..ptr]))
    ensures Parse(list[start..], b) == (1, b)
  {
    Slices(list, start, ptr);
    NumberThenComma(list[start..], ptr - start, b);
  }

  lemma OnSecondMark(list: string, start: nat, last: nat, ptr: nat, min: int, b: Bitmap)
    requires Scanning(list, 1, start, last, ptr, min) && ptr < |list| && !IsDigit(list[ptr])
    requires AllDigits(list[last..ptr])
    ensures ValidVlan(min)
    ensures Parse(list[start..], b) == if list[ptr] != ',' then (2, b)
                                       else if ValidVlan(Atoi(list[last..ptr])) then
                                         (2, SetRange(b, min, Atoi(list[last..ptr])))
                                       else (1, b)
  {
    FirstNumberThenDigits(list, start, last, ptr, min);
    Slices(list, start, ptr);
    if list[ptr] == ',' {
      IntervalThenComma(list[start..], last - 1 - start, ptr - start, b);
    } else {
      IntervalThenBadMark(list[start..], last - 1 - start, ptr - start, b);
    }
  }

  lemma NumberOnEnd(list: string, last: nat, b: Bitmap)
    requires last <= |list| && AllDigits(list[last..])
    ensures Parse(list[last..], b) == if ValidVlan(Atoi(list[last..])) then (0, Set(b, Atoi(list[last..]))) else (1, b)
  {
    NumberAtEnd(list[last..], b);
  }

  lemma RangeOnEnd(list: string, start: nat, last: nat, min: int, b: Bitmap)
    requires Scanning(list, 1, start, last, |list|, min) && AllDigits(list[last..])
    ensures ValidVlan(min)
    ensures Parse(list[start..], b) == if ValidVlan(Atoi(list[last..])) then (0, SetRange(b, min, Atoi(list[last..])))
                                       else (1, b)
  {
    FirstNumberThenDigits(list, start, last, |list|, min);
    var s := list[start..];
    assert s[last - 1 - start + 1..] == list[last..];
    IntervalAtEnd(s, last - 1 - start, b);
  }

  /** The number, or the second number of a range, that the end of the list completes. */
  method EndOfList(list: string, state: nat, ghost start: nat, last: nat, ptr: nat, min: int, bmp: array<bv8>)
    returns (err: nat)
    requires bmp.Length == OCTETS && Scanning(list, state, start, last, ptr, min) && ptr == |list|
    modifies bmp
    ensures (err, bmp[..]) == Parse(list[start..], old(bmp[..]))
  {
    ScannedDigits(list, last, |list|);
    assert list[last..|list|] == list[last..];
    if state == 0 {
      NumberOnEnd(list, last, bmp[..]);
    } else {
      RangeOnEnd(list, start, last, min, bmp[..]);
    }
    var value := Atoi(list[last..]);
    if !ValidVlan(value) {
      return 1;
    }
    if state == 0 {
      SetVlan(bmp, value);
    } else {
      SetVlans(bmp, min, value);
    }
    return 0;
  }

  /** A character that ends the second number. */
  method EndOfRange(list: string, ghost start: nat, last: nat, ptr: nat, min: int, bmp: array<bv8>) returns (err: nat)
    requires bmp.Length == OCTETS && Scanning(list, 1, start, last, ptr, min)
    requires ptr < |list| && !IsDigit(list[ptr])
    modifies bmp
    ensures err != 0 && (err, bmp[..]) == Parse(list[start..], old(bmp[..]))
  {
    ScannedDigits(list, last, ptr);
    OnSecondMark(list, start, last, ptr, min, bmp[..]);
    if list[ptr] == ',' {
      var max := Atoi(list[last..ptr]);
      if !ValidVlan(max) {
        return 1;
      }
      SetVlans(bmp, min, max);
    }
    return 2;
  }

  datatype Outcome = Stop(err: nat, bits: Bitmap) | Continue(state: nat, field: nat, min: int, bits: Bitmap)

  /** What a character that ends the first number does. */
  function Mark(list: string, start: nat, ptr: nat, b: Bitmap): Outcome
    requires start <= ptr < |list| && AllDigits(list[start..ptr])
  {
    if list[ptr] != '-' && list[ptr] != ',' then Stop(2, b)
    else if !ValidVlan(Atoi(list[start..ptr])) then Stop(1, b)
    else if list[ptr] == '-' then Continue(1, start, Atoi(list[start..ptr]), b)
    else Continue(0, ptr + 1, Atoi(list[start..ptr]), Set(b, Atoi(list[start..ptr])))
  }

  /** What is left to read after it, with the bits set so far, has the same answer as before, unless
      an error has ended the reading. */
  ghost predicate SameAnswer(list: string, start: nat, ptr: nat, b: Bitmap, o: Outcome)
    requires start <= ptr < |list|
  {
    match o
    case Stop(err, bits) => err != 0 && Parse(list[start..], b) == (err, bits)
    case Continue(_, field, _, bits) => field <= |list| && Parse(list[start..], b) == Parse(list[field..], bits)
  }

  lemma ContinueKeepsAnswer(list: string, start: nat, ptr: nat, b: Bitmap, o: Outcome)
    requires start <= ptr < |list| && o.Continue? && o.field == ptr + 1
    requires Parse(list[start..], b) == Parse(list[ptr + 1..], o.bits)
    ensures SameAnswer(list, start, ptr, b, o)
  {
  }

  lemma CommaMark(list: string, start: nat, ptr: nat, v: nat, b: Bitmap)
    requires start <= ptr < |list| && list[ptr] == ',' && AllDigits(list[start..ptr])
    requires v == Atoi(list[start..ptr]) && ValidVlan(v)
    ensures Mark(list, start, ptr, b) == Continue(0, ptr + 1, v, Set(b, v))
  {
  }

  lemma GoodCommaKeepsAnswer(list: string, start: nat, ptr: nat, v: nat, b: Bitmap)
    requires start <= ptr < |list| && list[ptr] == ',' && AllDigits(list[start..ptr])
    requires v == Atoi(list[start..ptr]) && ValidVlan(v)
    ensures SameAnswer(list, start, ptr, b, Mark(list, start, ptr, b))
  {
    CommaMark(list, start, ptr, v, b);
    OnComma(list, start, ptr, v, b);
    ContinueKeepsAnswer(list, start, ptr, b, Mark(list, start, ptr, b));
  }

  lemma StopKeepsAnswer(list: string, start: nat, ptr: nat, b: Bitmap)
    requires start <= ptr < |list| && !IsDigit(list[ptr]) && AllDigits(list[start..ptr])
    requires (list[ptr] != '-' && list[ptr] != ',') || !ValidVlan(Atoi(list[start..ptr]))
    ensures SameAnswer(list, start, ptr, b, Mark(list, start, ptr, b))
  {
    if list[ptr] == ',' {
      OnBadComma(list, start, ptr, b);
    } else {
      OnBadMark(list, start, ptr, b);
    }
  }

  lemma MarkKeepsAnswer(list: string, start: nat, ptr: nat, b: Bitmap)
    requires start <= ptr < |list| && !IsDigit(list[ptr]) && AllDigits(list[start..ptr])
    ensures SameAnswer(list, start, ptr, b, Mark(list, start, ptr, b))
  {
    if (list[ptr] != '-' && list[ptr] != ',') || !ValidVlan(Atoi(list[start..ptr])) {
      StopKeepsAnswer(list, start, ptr, b);
    } else if list[ptr] == ',' {
      GoodCommaKeepsAnswer(list, start, ptr, Atoi(list[start..ptr]), b);
    }
  }

  lemma MarkKeepsScanning(list: string, start: nat, ptr: nat, b: Bitmap)
    requires Scanning(list, 0, start, start, ptr, 0) && ptr < |list| && !IsDigit(list[ptr])
    requires AllDigits(list[start..ptr])
    ensures match Mark(list, start, ptr, b)
            case Stop(_, _) => true
            case Continue(state, field, min, _) => Scanning(list, state, field, ptr + 1, ptr + 1, min)
  {
    if list[ptr] == '-' && ValidVlan(Atoi(list[start..ptr])) {
      OnDash(list, start, ptr, 0);
    }
  }

  /** State 0 of the loop. */
  method EndOfNumber(list: string, ghost start: nat, last: nat, ptr: nat, bmp: array<bv8>)
    returns (err: nat, state: nat, ghost field: nat, min: int)
    requires bmp.Length == OCTETS && start == last <= ptr < |list| && AllDigits(list[last..ptr])
    modifies bmp
    ensures Mark(list, start, ptr, old(bmp[..]))
            == if err == 0 then Continue(state, field, min, bmp[..]) else Stop(err, bmp[..])
  {
    err, state, field, min := 0, 0, start, 0;
    if list[ptr] == '-' {
      min := Atoi(list[last..ptr]);
      if !ValidVlan(min) {
        err := 1;
        return;
      }
      state := 1;
    } else if list[ptr] == ',' {
      min := Atoi(list[last..ptr]);
      if !ValidVlan(min) {
        err := 1;
        return;
      }
      SetVlan(bmp, min);
      field := ptr + 1;
    } else {
      err := 2;
    }
  }

  /** parse_vlan_list: 1 for a VLAN that cannot be, 2 for bad syntax, 0 when all is well. */
  method ParseVlanList(list: string, bmp: array<bv8>) returns (err: nat)
    requires bmp.Length == OCTETS
    modifies bmp
    ensures (err, bmp[..]) == Parse(list, Empty())
  {
    var state: nat, min: int, last: nat, ptr: nat := 0, 0, 0, 0;
    ghost var start: nat := 0;
    ClearBitmap(bmp);
    StartOfList(list);
    while ptr < |list|
      invariant Scanning(list, state, start, last, ptr, min)
      invariant Parse(list[start..], bmp[..]) == Parse(list, Empty())
    {
      if IsDigit(list[ptr]) {
        ScanDigit(list, state, start, last, ptr, min);
      } else if state == 0 {
        ScannedDigits(list, last, ptr);
        MarkKeepsAnswer(list, start, ptr, bmp[..]);
        MarkKeepsScanning(list, start, ptr, bmp[..]);
        err, state, start, min := EndOfNumber(list, start, last, ptr, bmp);
        if err != 0 {
          return;
        }
        last := ptr + 1;
      } else {
        err := EndOfRange(list, start, last, ptr, min, bmp);
        return;
      }
      ptr := ptr + 1;
    }
    err := EndOfList(list, state, start, last, ptr, min, bmp);
  }
}
