/** From a port's allowed VLANs to configuration lines and back. */
module VlanReplay {
  import opened Bitmap
  import opened VlanList
  import opened VlanParse

  // ----- Which lists are accepted -------------------------------------------

  function Fields(s: string): (r: seq<string>)
    ensures |r| > 0
    decreases |s|
  {
    var k := FieldEnd(s);
    if k == |s| then [s] else [s[..k]] + Fields(s[k + 1..])
  }

  /** Single VLANs, the last field being a VLAN or a range. */
  predicate WellFormed(fs: seq<string>)
    requires |fs| > 0
  {
    if |fs| == 1 then !ReadField(fs[0]).Bad? else ReadField(fs[0]).Number? && WellFormed(fs[1..])
  }

  /** No error exactly when every field can be read and none but the last is a range. */
  lemma {:induction false} AcceptedIff(s: string, b: Bitmap)
    ensures Parse(s, b).0 == 0 <==> WellFormed(Fields(s))
    decreases |s|
  {
    var k := FieldEnd(s);
    if k < |s| {
      assert Fields(s)[1..] == Fields(s[k + 1..]);
      if ReadField(s[..k]).Number? {
        AcceptedIff(s[k + 1..], Set(b, ReadField(s[..k]).v));
      }
    } else {
      assert s[..k] == s;
    }
  }

  // ----- Bits ---------------------------------------------------------------

  lemma {:induction false} TestSetRange(b: Bitmap, lo: nat, hi: nat, w: nat)
    requires hi <= MAX_VLAN && w < 8 * OCTETS
    ensures Test(SetRange(b, lo, hi), w) <==> Test(b, w) || lo <= w <= hi
    decreases hi + 1 - lo
  {
    if lo <= hi {
      TestSetRange(Set(b, lo), lo + 1, hi, w);
      TestSet(b, lo, w);
    }
  }

  // ----- What a list means --------------------------------------------------

  /** A number, a dash at index k, and another number. */
  predicate DashAt(f: string, k: nat, lo: nat, hi: nat) {
    && k < |f| && f[k] == '-' && AllDigits(f[..k]) && AllDigits(f[k + 1..])
    && Atoi(f[..k]) == lo && Atoi(f[k + 1..]) == hi
  }

  /** A field is a VLAN exactly when it is the digits of a valid one, and a range exactly when it is
      two such numbers with a dash between them. */
  lemma FieldReads(f: string, lo: nat, hi: nat)
    requires ValidVlan(lo) && ValidVlan(hi)
    ensures ReadField(f) == Number(lo) <==> AllDigits(f) && Atoi(f) == lo
    ensures ReadField(f) == Interval(lo, hi) <==> exists k :: DashAt(f, k, lo, hi)
  {
    var k := DigitsEnd(f);
    if AllDigits(f) {
      DigitsEndIs(f, |f|);
      assert f[..|f|] == f;
    }
    if ReadField(f) == Interval(lo, hi) {
      assert f[k + 1..][..DigitsEnd(f[k + 1..])] == f[k + 1..];
      assert DashAt(f, k, lo, hi);
    }
    if j :| DashAt(f, j, lo, hi) {
      DigitsEndIs(f, j);
      assert f[j + 1..][..|f| - j - 1] == f[j + 1..];
      DigitsEndIs(f[j + 1..], |f| - j - 1);
    }
    if k == |f| {
      assert f[..k] == f;
    }
  }

  predicate Covers(f: Field, w: nat) {
    match f
    case Number(v) => w == v
    case Interval(lo, hi) => lo <= w <= hi
    case Bad(_) => false
  }

  /** How many fields are taken: up to the first range, and none from the first error on. */
  function TakenFields(fs: seq<string>): (n: nat)
    ensures n <= |fs|
  {
    if fs == [] then 0
    else match ReadField(fs[0])
         case Number(_) => 1 + TakenFields(fs[1..])
         case Interval(_, _) => 1
         case Bad(_) => 0
  }

  predicate Listed(fs: seq<string>, n: nat, w: nat)
    requires n <= |fs|
  {
    exists i | 0 <= i < n :: Covers(ReadField(fs[i]), w)
  }

  lemma ListedFirst(fs: seq<string>, n: nat, w: nat)
    requires 0 < n <= |fs|
    ensures Listed(fs, n, w) <==> Covers(ReadField(fs[0]), w) || Listed(fs[1..], n - 1, w)
  {
    var rest := fs[1..];
    assert forall i | 0 <= i < |rest| :: rest[i] == fs[i + 1];
    if i :| 0 <= i < n - 1 && Covers(ReadField(rest[i]), w) {
      assert Covers(ReadField(fs[i + 1]), w);
    }
    if i :| 0 < i < n && Covers(ReadField(fs[i]), w) {
      assert Covers(ReadField(rest[i - 1]), w);
    }
  }

  /** Which VLANs a list sets, in error or not: those of the fields that are taken. */
  lemma {:induction false} ListSets(s: string, b: Bitmap, w: nat)
    requires w < 8 * OCTETS
    ensures Test(Parse(s, b).1, w) <==> Test(b, w) || Listed(Fields(s), TakenFields(Fields(s)), w)
    decreases |s|
  {
    var k, fs := FieldEnd(s), Fields(s);
    assert fs[0] == s[..k];
    match ReadField(s[..k]) {
      case Bad(_) =>
      case Interval(lo, hi) =>
        ListedFirst(fs, 1, w);
        TestSetRange(b, lo, hi, w);
      case Number(v) =>
        ListedFirst(fs, TakenFields(fs), w);
        TestSet(b, v, w);
        if k < |s| {
          assert fs[1..] == Fields(s[k + 1..]);
          ListSets(s[k + 1..], Set(b, v), w);
        }
    }
  }

  function AddAll(b: Bitmap, ts: seq<Token>): Bitmap
    requires AllPrintable(ts)
    decreases |ts|
  {
    if ts == [] then b else AddAll(SetRange(b, Lo(ts[0]), Hi(ts[0])), ts[1..])
  }

  lemma {:induction false} TestAddAll(b: Bitmap, ts: seq<Token>, w: nat)
    requires AllPrintable(ts) && w < 8 * OCTETS
    ensures Test(AddAll(b, ts), w) <==> Test(b, w) || w in Expand(ts)
    decreases |ts|
  {
    if ts != [] {
      TestAddAll(SetRange(b, Lo(ts[0]), Hi(ts[0])), ts[1..], w);
      TestSetRange(b, Lo(ts[0]), Hi(ts[0]), w);
    }
  }

  // ----- Reading back what was printed --------------------------------------

  lemma NumberReadsBack(v: nat)
    requires ValidVlan(v)
    ensures AllDigits(Decimal(v)) && Atoi(Decimal(v)) == v
  {
    DecimalReadsBack(v);
  }

  lemma TokenReadsBack(t: Token)
    requires Printable(t)
    ensures ReadField(Text(t)) == if t.One? then Number(t.v) else Interval(t.lo, t.hi)
    ensures forall i | 0 <= i < |Text(t)| :: Text(t)[i] != ','
  {
    match t
    case One(v) =>
      NumberReadsBack(v);
      DigitsEndIs(Decimal(v), |Decimal(v)|);
    case Span(lo, hi) =>
      NumberReadsBack(lo);
      NumberReadsBack(hi);
      var f, k := Text(t), |Decimal(lo)|;
      assert f[..k] == Decimal(lo);
      assert f[k] == '-';
      assert f[k + 1..] == Decimal(hi);
      DigitsEndIs(f, k);
      DigitsEndIs(Decimal(hi), |Decimal(hi)|);
  }

  predicate RangesLast(ts: seq<Token>) {
    forall i | 0 <= i < |ts| - 1 :: ts[i].One?
  }

  /** How many tokens the parser takes: it stops after a range, the last token or not. */
  function Taken(ts: seq<Token>): (n: nat)
    ensures n <= |ts|
  {
    if ts == [] then 0 else if ts[0].Span? then 1 else 1 + Taken(ts[1..])
  }

  lemma {:induction false} TakenAllIff(ts: seq<Token>)
    ensures Taken(ts) == |ts| <==> RangesLast(ts)
  {
    if ts != [] && ts[0].One? {
      TakenAllIff(ts[1..]);
      assert RangesLast(ts) ==> RangesLast(ts[1..]);
      if RangesLast(ts[1..]) {
        forall i | 0 <= i < |ts| - 1
          ensures ts[i].One?
        {
          assert i > 0 ==> ts[i] == ts[1..][i - 1];
        }
      }
    }
  }

  /** What the parser makes of a printed line. */
  lemma {:induction false} ParsePrinted(ts: seq<Token>, b: Bitmap)
    requires ts != [] && AllPrintable(ts)
    ensures AllPrintable(ts[..Taken(ts)])
    ensures Parse(TextOf(ts), b) == (if Taken(ts) == |ts| then 0 else 2, AddAll(b, ts[..Taken(ts)]))
    decreases |ts|
  {
    var f := Text(ts[0]);
    if |ts| == 1 {
      ParseLast(f, ts[0], b);
      TakeOne(ts, b);
    } else {
      ParseFirst(f, TextOf(ts[1..]), ts[0], b);
      if ts[0].One? {
        ParsePrinted(ts[1..], Set(b, ts[0].v));
        TakeMore(ts, b);
      } else {
        TakeOne(ts, b);
      }
    }
  }

  lemma TakeOne(ts: seq<Token>, b: Bitmap)
    requires ts != [] && Printable(ts[0]) && Taken(ts) == 1
    ensures AllPrintable(ts[..1])
    ensures AddAll(b, ts[..1]) == if ts[0].One? then Set(b, ts[0].v) else SetRange(b, ts[0].lo, ts[0].hi)
  {
    assert ts[..1] == [ts[0]] + [];
    AddOne(b, ts[0], []);
  }

  lemma TakeMore(ts: seq<Token>, b: Bitmap)
    requires ts != [] && Printable(ts[0]) && ts[0].One? && AllPrintable(ts[1..][..Taken(ts[1..])])
    ensures Taken(ts) == 1 + Taken(ts[1..]) && AllPrintable(ts[..Taken(ts)])
    ensures AddAll(b, ts[..Taken(ts)]) == AddAll(Set(b, ts[0].v), ts[1..][..Taken(ts[1..])])
  {
    var rest := ts[1..][..Taken(ts[1..])];
    assert ts[..Taken(ts)] == [ts[0]] + rest;
    AddOne(b, ts[0], rest);
  }

  lemma AddOne(b: Bitmap, t: Token, ts: seq<Token>)
    requires Printable(t) && AllPrintable(ts)
    ensures AllPrintable([t] + ts)
    ensures AddAll(b, [t] + ts) == AddAll(if t.One? then Set(b, t.v) else SetRange(b, t.lo, t.hi), ts)
  {
    assert ([t] + ts)[1..] == ts;
    if t.One? {
      assert SetRange(b, t.v, t.v) == SetRange(Set(b, t.v), t.v + 1, t.v);
    }
  }

  lemma ParseLast(f: string, t: Token, b: Bitmap)
    requires Printable(t) && f == Text(t)
    ensures Parse(f, b) == (0, if t.One? then Set(b, t.v) else SetRange(b, t.lo, t.hi))
  {
    TokenReadsBack(t);
    FieldEndIs(f, |f|);
    assert f[..|f|] == f;
  }

  lemma ParseFirst(f: string, rest: string, t: Token, b: Bitmap)
    requires Printable(t) && f == Text(t)
    ensures Parse(f + "," + rest, b) == if t.One? then Parse(rest, Set(b, t.v)) else (2, SetRange(b, t.lo, t.hi))
  {
    TokenReadsBack(t);
    var s := f + "," + rest;
    FieldEndIs(s, |f|);
    assert s[..|f|] == f;
    assert s[|f| + 1..] == rest;
  }

  // ----- Replaying ----------------------------------------------------------

  /** The forms of `switchport trunk allowed vlan`; All is also what `no switchport trunk` gives. */
  datatype Command = SetTo | AddTo | All | Except | Nothing | Remove

  predicate TakesList(cmd: Command) { cmd.SetTo? || cmd.AddTo? || cmd.Except? || cmd.Remove? }

  /** The VLANs allowed after a command. A list is applied whether or not there was an error in it. */
  function Commanded(cmd: Command, list: string, allowed: Bitmap): Bitmap {
    var bits := Parse(list, Empty()).1;
    match cmd
    case SetTo => bits
    case AddTo => Or(allowed, bits)
    case All => Full()
    case Except => Xor(bits, Full())
    case Nothing => Empty()
    case Remove => And(allowed, Xor(allowed, bits))
  }

  /** What each command means for each VLAN, in terms of the VLANs that its list sets. */
  lemma CommandedBits(cmd: Command, list: string, allowed: Bitmap, v: nat)
    requires v < 8 * OCTETS
    ensures var listed := Test(Parse(list, Empty()).1, v);
            Test(Commanded(cmd, list, allowed), v)
            <==> match cmd
                 case SetTo => listed
                 case AddTo => Test(allowed, v) || listed
                 case All => true
                 case Except => !listed
                 case Nothing => false
                 case Remove => Test(allowed, v) && !listed
  {
    var bits := Parse(list, Empty()).1;
    TestConstants(v);
    match cmd
    case SetTo =>
    case AddTo => TestOr(allowed, bits, v);
    case All =>
    case Except => TestXor(bits, Full(), v);
    case Nothing =>
    case Remove => TestDifference(allowed, bits, v);
  }

  /** The lists in the lines are given to the command one by one, the first to set and the others to
      add. A command without its list is incomplete and does nothing. */
  function Replay(current: Bitmap, lists: seq<string>, first: bool): Bitmap
    decreases |lists|
  {
    if lists == [] then current
    else if lists[0] == "" then Replay(current, lists[1..], false)
    else Replay(Commanded(if first then SetTo else AddTo, lists[0], current), lists[1..], false)
  }

  function Lists(lines: seq<seq<Token>>): (r: seq<string>)
    ensures |r| == |lines|
  {
    if lines == [] then [] else [TextOf(lines[0])] + Lists(lines[1..])
  }

  predicate Lines(lines: seq<seq<Token>>) {
    forall k | 0 <= k < |lines| :: lines[k] != [] && AllPrintable(lines[k])
  }

  /** The tokens that the replay of some lines takes in. */
  function Kept(lines: seq<seq<Token>>): seq<Token> {
    if lines == [] then [] else lines[0][..Taken(lines[0])] + Kept(lines[1..])
  }

  lemma {:induction false} ExpandConcat(a: seq<Token>, b: seq<Token>)
    ensures Expand(a + b) == Expand(a) + Expand(b)
  {
    if a == [] {
      assert a + b == b;
    } else {
      ExpandConcat(a[1..], b);
      assert (a + b)[1..] == a[1..] + b;
    }
  }

  lemma TextIsNotEmpty(ts: seq<Token>)
    requires ts != []
    ensures TextOf(ts) != ""
  {
  }

  lemma {:induction false} ReplayBits(current: Bitmap, lines: seq<seq<Token>>, first: bool, w: nat)
    requires Lines(lines) && w < 8 * OCTETS && (first ==> lines != [])
    ensures Test(Replay(current, Lists(lines), first), w) <==> (!first && Test(current, w)) || w in Expand(Kept(lines))
    decreases |lines|
  {
    if lines != [] {
      var line, rest := lines[0], lines[1..];
      assert Lists(lines)[1..] == Lists(rest);
      TextIsNotEmpty(line);
      ParsePrinted(line, Empty());
      var bits := Parse(TextOf(line), Empty()).1;
      TestAddAll(Empty(), line[..Taken(line)], w);
      TestConstants(w);
      TestOr(current, bits, w);
      ReplayBits(if first then bits else Or(current, bits), rest, false, w);
      ExpandConcat(line[..Taken(line)], Kept(rest));
    }
  }

  // ----- What gets lost -----------------------------------------------------

  predicate AllRangesLast(lines: seq<seq<Token>>) {
    forall k | 0 <= k < |lines| :: RangesLast(lines[k])
  }

  lemma {:induction false} KeptAll(lines: seq<seq<Token>>)
    requires AllRangesLast(lines)
    ensures Kept(lines) == Flatten(lines)
  {
    if lines != [] {
      TakenAllIff(lines[0]);
      assert lines[0][..|lines[0]|] == lines[0];
      KeptAll(lines[1..]);
    }
  }

  lemma {:induction false} KeptIsPart(lines: seq<seq<Token>>, w: nat)
    requires w in Expand(Kept(lines))
    ensures w in Expand(Flatten(lines))
  {
    if lines != [] {
      var line, rest, n := lines[0], lines[1..], Taken(lines[0]);
      assert line == line[..n] + line[n..];
      ExpandConcat(line[..n], line[n..]);
      ExpandConcat(line[..n], Kept(rest));
      ExpandConcat(line, Flatten(rest));
      if w in Expand(Kept(rest)) {
        KeptIsPart(rest, w);
      }
    }
  }

  lemma IncreasingParts(a: seq<nat>, b: seq<nat>)
    requires Increasing(a + b)
    ensures Increasing(a) && Increasing(b)
    ensures forall x, y | x in a && y in b :: x < y
  {
    var s := a + b;
    assert forall i | 0 <= i < |a| :: s[i] == a[i];
    assert forall i | 0 <= i < |b| :: s[|a| + i] == b[i];
    forall x, y | x in a && y in b
      ensures x < y
    {
      var i, j :| 0 <= i < |a| && a[i] == x && 0 <= j < |b| && b[j] == y;
      assert s[i] < s[|a| + j];
    }
  }

  /** A range before the end of its line costs at least the token behind it. */
  lemma {:induction false} SomethingIsLost(lines: seq<seq<Token>>) returns (w: nat)
    requires Lines(lines) && !AllRangesLast(lines) && Increasing(Expand(Flatten(lines)))
    ensures w in Expand(Flatten(lines)) && w !in Expand(Kept(lines))
  {
    var line, rest, n := lines[0], lines[1..], Taken(lines[0]);
    var kept := line[..n];
    ExpandConcat(line, Flatten(rest));
    ExpandConcat(kept, Kept(rest));
    IncreasingParts(Expand(line), Expand(Flatten(rest)));
    TakenAllIff(line);
    if n < |line| {
      w := LostInLine(line, n);
      if w in Expand(Kept(rest)) {
        KeptIsPart(rest, w);
      }
    } else {
      assert kept == line;
      assert forall k | 0 <= k < |rest| :: lines[k + 1] == rest[k];
      assert !AllRangesLast(rest) by {
        var k :| 0 <= k < |lines| && !RangesLast(lines[k]);
        assert k > 0 && lines[k] == rest[k - 1];
      }
      w := SomethingIsLost(rest);
    }
  }

  lemma LostInLine(line: seq<Token>, n: nat) returns (w: nat)
    requires n < |line| && AllPrintable(line) && Increasing(Expand(line))
    ensures w in Expand(line) && w !in Expand(line[..n])
  {
    w := Lo(line[n]);
    assert line == line[..n] + line[n..];
    ExpandConcat(line[..n], line[n..]);
    IncreasingParts(Expand(line[..n]), Expand(line[n..]));
    assert Printable(line[n]);
    assert w in Range(Lo(line[n]), Hi(line[n]));
    assert w in Expand(line[n..]);
  }

  // ----- The round trip -----------------------------------------------------

  predicate Restored(b: Bitmap, allowed: set<nat>) {
    forall v | 1 <= v <= MAX_VLAN :: Test(b, v) <==> v in allowed
  }

  lemma LinesArePrintable(allowed: set<nat>)
    requires Tokens(allowed, 1) != []
    ensures Lines(LinesOf(allowed))
  {
    var lines := LinesOf(allowed);
    TokensArePrintable(allowed, 1);
    LayoutPrintable(SET_LENGTH, [], Tokens(allowed, 1));
    forall k | 0 <= k < |lines|
      ensures lines[k] != []
    {
      LayoutNonEmpty(SET_LENGTH, [], Tokens(allowed, 1), k);
    }
  }

  predicate AllLinesPrintable(lines: seq<seq<Token>>) {
    forall k | 0 <= k < |lines| :: AllPrintable(lines[k])
  }

  lemma {:induction false} LayoutPrintable(prefix: nat, line: seq<Token>, ts: seq<Token>)
    requires AllPrintable(line) && AllPrintable(ts)
    ensures AllLinesPrintable(Layout(prefix, line, ts))
    decreases |ts|
  {
    if ts != [] {
      if prefix + |TextOf(line + [ts[0]])| >= WIDTH {
        LayoutPrintable(ADD_LENGTH, [ts[0]], ts[1..]);
      } else {
        LayoutPrintable(prefix, line + [ts[0]], ts[1..]);
      }
    }
  }

  /** What the port allows after a replay, onto a port that allows `start`: the VLANs restored are
      the ones allowed exactly when no line has a range before its end; and when no VLAN is allowed,
      the line without a list changes nothing. */
  lemma RoundTrip(forbidden: Bitmap, start: Bitmap)
    ensures var allowed := AllowedVlans(forbidden);
            Restored(Replay(start, Lists(LinesOf(allowed)), true), allowed)
            <==> if allowed == {} then Restored(start, {}) else AllRangesLast(LinesOf(allowed))
  {
    var allowed := AllowedVlans(forbidden);
    var lines := LinesOf(allowed);
    PrintedLines(allowed, 0);
    if allowed == {} {
      NothingPrinted(allowed);
      assert Lists([[]]) == [""];
      assert Replay(start, [""], true) == start;
    } else {
      SomethingPrinted(allowed);
      LinesArePrintable(allowed);
      RestoredIff(allowed, start);
    }
  }

  lemma RestoredIff(allowed: set<nat>, start: Bitmap)
    requires forall v | v in allowed :: ValidVlan(v)
    requires Lines(LinesOf(allowed)) && Expand(Flatten(LinesOf(allowed))) == AllowedFrom(allowed, 1)
    ensures Restored(Replay(start, Lists(LinesOf(allowed)), true), allowed) <==> AllRangesLast(LinesOf(allowed))
  {
    var lines := LinesOf(allowed);
    var b := Replay(start, Lists(lines), true);
    AllowedFromIsExact(allowed, 1);
    if AllRangesLast(lines) {
      forall v: nat | ValidVlan(v)
        ensures Test(b, v) <==> v in allowed
      {
        ReplayBits(start, lines, true, v);
        KeptAll(lines);
      }
    } else {
      var w := SomethingIsLost(lines);
      ReplayBits(start, lines, true, w);
      assert !Test(b, w) && w in allowed;
    }
  }

  // ----- What the comma after a range is meant to do ------------------------

  /** The reader that the reset of its state after a range asks for (config_if.c:45-46): it goes on. */
  function ParseOn(s: string, b: Bitmap): (nat, Bitmap)
    decreases |s|
  {
    var k := FieldEnd(s);
    var rest := if k < |s| then s[k + 1..] else "";
    match ReadField(s[..k])
    case Bad(code) => (code, b)
    case Number(v) => if k == |s| then (0, Set(b, v)) else ParseOn(rest, Set(b, v))
    case Interval(lo, hi) => if k == |s| then (0, SetRange(b, lo, hi)) else ParseOn(rest, SetRange(b, lo, hi))
  }

  /** It reads every list that is accepted today in the same way. */
  lemma {:induction false} GoingOnKeepsAccepted(s: string, b: Bitmap)
    requires Parse(s, b).0 == 0
    ensures ParseOn(s, b) == Parse(s, b)
    decreases |s|
  {
    var k := FieldEnd(s);
    var f := ReadField(s[..k]);
    if k < |s| {
      assert f.Number? && Parse(s, b) == Parse(s[k + 1..], Set(b, f.v));
      GoingOnKeepsAccepted(s[k + 1..], Set(b, f.v));
      assert ParseOn(s, b) == ParseOn(s[k + 1..], Set(b, f.v));
    }
  }

  lemma ParseOnLast(f: string, t: Token, b: Bitmap)
    requires Printable(t) && f == Text(t)
    ensures ParseOn(f, b) == (0, if t.One? then Set(b, t.v) else SetRange(b, t.lo, t.hi))
  {
    TokenReadsBack(t);
    FieldEndIs(f, |f|);
    assert f[..|f|] == f;
  }

  lemma ParseOnFirst(f: string, rest: string, t: Token, b: Bitmap)
    requires Printable(t) && f == Text(t)
    ensures ParseOn(f + "," + rest, b) == ParseOn(rest, if t.One? then Set(b, t.v) else SetRange(b, t.lo, t.hi))
  {
    TokenReadsBack(t);
    var s := f + "," + rest;
    FieldEndIs(s, |f|);
    assert s[..|f|] == f;
    assert s[|f| + 1..] == rest;
  }

  lemma {:induction false} ParseOnPrinted(ts: seq<Token>, b: Bitmap)
    requires ts != [] && AllPrintable(ts)
    ensures ParseOn(TextOf(ts), b) == (0, AddAll(b, ts))
    decreases |ts|
  {
    var t, rest := ts[0], ts[1..];
    AddOne(b, t, rest);
    assert ts == [t] + rest;
    if |ts| == 1 {
      ParseOnLast(Text(t), t, b);
    } else {
      ParseOnFirst(Text(t), TextOf(rest), t, b);
      ParseOnPrinted(rest, if t.One? then Set(b, t.v) else SetRange(b, t.lo, t.hi));
    }
  }

  function ReplayOn(current: Bitmap, lists: seq<string>, first: bool): Bitmap
    decreases |lists|
  {
    if lists == [] then current
    else if lists[0] == "" then ReplayOn(current, lists[1..], false)
    else
      var bits := ParseOn(lists[0], Empty()).1;
      ReplayOn(if first then bits else Or(current, bits), lists[1..], false)
  }

  lemma {:induction false} ReplayOnBits(current: Bitmap, lines: seq<seq<Token>>, first: bool, w: nat)
    requires Lines(lines) && w < 8 * OCTETS && (first ==> lines != [])
    ensures Test(ReplayOn(current, Lists(lines), first), w)
            <==> (!first && Test(current, w)) || w in Expand(Flatten(lines))
    decreases |lines|
  {
    if lines != [] {
      var line, rest := lines[0], lines[1..];
      assert Lists(lines)[1..] == Lists(rest);
      TextIsNotEmpty(line);
      ParseOnPrinted(line, Empty());
      var bits := ParseOn(TextOf(line), Empty()).1;
      TestAddAll(Empty(), line, w);
      TestConstants(w);
      TestOr(current, bits, w);
      ReplayOnBits(if first then bits else Or(current, bits), rest, false, w);
      ExpandConcat(line, Flatten(rest));
    }
  }

  /** With that reader nothing is lost: whatever a port allows is restored, unless it allows nothing
      and the port replayed onto allows something. */
  lemma RoundTripGoingOn(forbidden: Bitmap, start: Bitmap)
    ensures var allowed := AllowedVlans(forbidden);
            Restored(ReplayOn(start, Lists(LinesOf(allowed)), true), allowed)
            <==> (allowed == {} ==> Restored(start, {}))
  {
    var allowed := AllowedVlans(forbidden);
    var lines := LinesOf(allowed);
    PrintedLines(allowed, 0);
    if allowed == {} {
      NothingPrinted(allowed);
      assert Lists([[]]) == [""];
      assert ReplayOn(start, [""], true) == start;
    } else {
      SomethingPrinted(allowed);
      LinesArePrintable(allowed);
      AllowedFromIsExact(allowed, 1);
      forall v: nat | ValidVlan(v)
        ensures Test(ReplayOn(start, Lists(lines), true), v) <==> v in allowed
      {
        ReplayOnBits(start, lines, true, v);
      }
    }
  }

  lemma NothingPrinted(allowed: set<nat>)
    requires allowed == {}
    ensures LinesOf(allowed) == [[]]
  {
  }

  lemma SomethingPrinted(allowed: set<nat>)
    requires allowed != {} && forall v | v in allowed :: ValidVlan(v)
    ensures Tokens(allowed, 1) != []
  {
    var v :| v in allowed;
    assert FirstAllowed(allowed, 1) <= v;
  }

  /** VLANs 1, 2, 3 and 5 are written "1-3,5" and come back as 1, 2 and 3. */
  lemma RoundTripFails(start: Bitmap)
    ensures exists forbidden: Bitmap ::
              && AllowedVlans(forbidden) == {1, 2, 3, 5}
              && !Restored(Replay(start, Lists(LinesOf({1, 2, 3, 5})), true), {1, 2, 3, 5})
  {
    var forbidden := Reset(Reset(Reset(Reset(Full(), 1), 2), 3), 5);
    forall v: nat | v < 8 * OCTETS
      ensures Test(forbidden, v) <==> v !in {1, 2, 3, 5}
    {
      TestConstants(v);
      TestReset(Full(), 1, v);
      TestReset(Reset(Full(), 1), 2, v);
      TestReset(Reset(Reset(Full(), 1), 2), 3, v);
      TestReset(Reset(Reset(Reset(Full(), 1), 2), 3), 5, v);
    }
    var allowed := AllowedVlans(forbidden);
    assert allowed == {1, 2, 3, 5};
    RoundTrip(forbidden, start);
    OneLine(allowed);
    assert !RangesLast(LinesOf(allowed)[0]);
  }

  lemma OneLine(allowed: set<nat>)
    requires allowed == {1, 2, 3, 5}
    ensures LinesOf(allowed) == [[Span(1, 3), One(5)]]
  {
    assert FirstAllowed(allowed, 1) == 1 && RunEnd(allowed, 1) == 4;
    assert FirstAllowed(allowed, 4) == 5 && RunEnd(allowed, 5) == 6;
    assert FirstAllowed(allowed, 6) == MAX_VLAN + 1;
    assert Tokens(allowed, 6) == [];
    assert Tokens(allowed, 4) == [One(5)];
    assert Tokens(allowed, 1) == [Span(1, 3), One(5)];
    TextIsShort(Span(1, 3));
    TextIsShort(One(5));
    assert [] + [Span(1, 3)] == [Span(1, 3)];
    assert [Span(1, 3)] + [One(5)] == [Span(1, 3), One(5)];
    assert |TextOf([Span(1, 3), One(5)])| <= 19 by {
      assert [Span(1, 3), One(5)][1..] == [One(5)];
    }
    assert [Span(1, 3), One(5)][1..] == [One(5)];
    assert Layout(SET_LENGTH, [Span(1, 3)], [One(5)]) == [[Span(1, 3), One(5)]] by {
      assert [One(5)][1..] == [];
    }
  }
}
