/** How a port's allowed VLANs are written into a configuration
    (userspace/cli/cfgbuild/cfgbuild.c:8-52). */
module VlanList {
  import opened Bitmap

  /** A VLAN on its own, or three or more in a row. */
  datatype Token = One(v: nat) | Span(lo: nat, hi: nat)

  // ----- Which VLANs --------------------------------------------------------

  /** The printer's bitmap has a bit for each VLAN that is forbidden. */
  function AllowedVlans(forbidden: Bitmap): set<nat> {
    set v: nat | 1 <= v <= MAX_VLAN && !Test(forbidden, v)
  }

  /** The allowed VLANs from v on, in increasing order. */
  function AllowedFrom(allowed: set<nat>, v: nat): seq<nat>
    decreases MAX_VLAN + 1 - v
  {
    if v > MAX_VLAN then [] else if v in allowed then [v] + AllowedFrom(allowed, v + 1) else AllowedFrom(allowed, v + 1)
  }

  predicate Increasing(s: seq<nat>) {
    forall i, j | 0 <= i < j < |s| :: s[i] < s[j]
  }

  lemma {:induction false} AllowedFromIsExact(allowed: set<nat>, v: nat)
    ensures forall w: nat :: w in AllowedFrom(allowed, v) <==> v <= w <= MAX_VLAN && w in allowed
    ensures Increasing(AllowedFrom(allowed, v))
    decreases MAX_VLAN + 1 - v
  {
    if v <= MAX_VLAN {
      AllowedFromIsExact(allowed, v + 1);
      if v in allowed {
        SmallestFirst(v, AllowedFrom(allowed, v + 1));
      }
    }
  }

  lemma SmallestFirst(v: nat, rest: seq<nat>)
    requires Increasing(rest) && forall w | w in rest :: v < w
    ensures Increasing([v] + rest)
  {
    assert forall j | 0 <= j < |rest| :: rest[j] in rest;
  }

  function FirstAllowed(allowed: set<nat>, v: nat): (r: nat)
    requires v <= MAX_VLAN + 1
    ensures v <= r <= MAX_VLAN + 1 && (r <= MAX_VLAN ==> r in allowed)
    ensures forall w: nat | v <= w < r :: w !in allowed
    decreases MAX_VLAN + 1 - v
  {
    if v <= MAX_VLAN && v !in allowed then FirstAllowed(allowed, v + 1) else v
  }

  function RunEnd(allowed: set<nat>, v: nat): (r: nat)
    requires v <= MAX_VLAN + 1
    ensures v <= r <= MAX_VLAN + 1 && (r <= MAX_VLAN ==> r !in allowed)
    ensures forall w: nat | v <= w < r :: w in allowed
    decreases MAX_VLAN + 1 - v
  {
    if v <= MAX_VLAN && v in allowed then RunEnd(allowed, v + 1) else v
  }

  // ----- The tokens ---------------------------------------------------------

  /** The token that starts with allowed VLAN v: two in a row are written as two tokens. */
  function TokenAt(allowed: set<nat>, v: nat): Token
    requires v <= MAX_VLAN
  {
    if RunEnd(allowed, v) - v > 2 then Span(v, RunEnd(allowed, v) - 1) else One(v)
  }

  function Hi(t: Token): nat { if t.One? then t.v else t.hi }

  function Lo(t: Token): nat { if t.One? then t.v else t.lo }

  function Tokens(allowed: set<nat>, v: nat): seq<Token>
    requires v <= MAX_VLAN + 1
    decreases MAX_VLAN + 1 - v
  {
    var first := FirstAllowed(allowed, v);
    if first > MAX_VLAN then []
    else [TokenAt(allowed, first)] + Tokens(allowed, Hi(TokenAt(allowed, first)) + 1)
  }

  function Range(lo: nat, hi: nat): (r: seq<nat>)
    ensures forall w: nat :: w in r <==> lo <= w <= hi
    decreases hi + 1 - lo
  {
    if lo > hi then [] else [lo] + Range(lo + 1, hi)
  }

  /** The VLANs that tokens stand for, in the order written. */
  function Expand(ts: seq<Token>): seq<nat> {
    if ts == [] then [] else Range(Lo(ts[0]), Hi(ts[0])) + Expand(ts[1..])
  }

  lemma {:induction false} SkipForbidden(allowed: set<nat>, v: nat)
    requires v <= MAX_VLAN + 1
    ensures AllowedFrom(allowed, v) == AllowedFrom(allowed, FirstAllowed(allowed, v))
    decreases MAX_VLAN + 1 - v
  {
    if v <= MAX_VLAN && v !in allowed {
      SkipForbidden(allowed, v + 1);
    }
  }

  lemma {:induction false} TakeRun(allowed: set<nat>, lo: nat, hi: nat)
    requires lo <= hi + 1 <= MAX_VLAN + 1
    requires forall w: nat | lo <= w <= hi :: w in allowed
    ensures AllowedFrom(allowed, lo) == Range(lo, hi) + AllowedFrom(allowed, hi + 1)
    decreases hi + 1 - lo
  {
    if lo <= hi {
      TakeRun(allowed, lo + 1, hi);
    }
  }

  lemma ExpandFirst(t: Token, ts: seq<Token>)
    ensures Expand([t] + ts) == Range(Lo(t), Hi(t)) + Expand(ts)
  {
    assert ([t] + ts)[1..] == ts;
  }

  lemma TokenTakesRun(allowed: set<nat>, v: nat)
    requires v <= MAX_VLAN && v in allowed
    ensures var t := TokenAt(allowed, v);
            && Lo(t) == v && v <= Hi(t) <= MAX_VLAN
            && AllowedFrom(allowed, v) == Range(v, Hi(t)) + AllowedFrom(allowed, Hi(t) + 1)
  {
    TakeRun(allowed, v, Hi(TokenAt(allowed, v)));
  }

  lemma OneToken(allowed: set<nat>, first: nat, rest: seq<Token>)
    requires first <= MAX_VLAN && first in allowed
    requires Expand(rest) == AllowedFrom(allowed, Hi(TokenAt(allowed, first)) + 1)
    ensures Expand([TokenAt(allowed, first)] + rest) == AllowedFrom(allowed, first)
  {
    TokenTakesRun(allowed, first);
    ExpandFirst(TokenAt(allowed, first), rest);
  }

  /** The tokens denote the allowed VLANs, each once, in increasing order. */
  lemma {:induction false} TokensDenoteAllowed(allowed: set<nat>, v: nat)
    requires v <= MAX_VLAN + 1
    ensures Expand(Tokens(allowed, v)) == AllowedFrom(allowed, v)
    decreases MAX_VLAN + 1 - v
  {
    var first := FirstAllowed(allowed, v);
    SkipForbidden(allowed, v);
    if first <= MAX_VLAN {
      var next := Hi(TokenAt(allowed, first)) + 1;
      TokensDenoteAllowed(allowed, next);
      OneToken(allowed, first, Tokens(allowed, next));
    }
  }

  /** What the printer can produce: VLANs that exist, and no span of fewer than three. */
  predicate Printable(t: Token) {
    match t
    case One(v) => ValidVlan(v)
    case Span(lo, hi) => ValidVlan(lo) && ValidVlan(hi) && lo + 2 <= hi
  }

  predicate AllPrintable(ts: seq<Token>) {
    forall i | 0 <= i < |ts| :: Printable(ts[i])
  }

  lemma {:induction false} TokensArePrintable(allowed: set<nat>, v: nat)
    requires 1 <= v <= MAX_VLAN + 1
    ensures AllPrintable(Tokens(allowed, v))
    decreases MAX_VLAN + 1 - v
  {
    var first := FirstAllowed(allowed, v);
    if first <= MAX_VLAN {
      TokensArePrintable(allowed, Hi(TokenAt(allowed, first)) + 1);
    }
  }

  // ----- Text ---------------------------------------------------------------

  const DIGITS: string := "0123456789"

  function Decimal(n: nat): (s: string)
    ensures |s| > 0
  {
    if n < 10 then [DIGITS[n]] else Decimal(n / 10) + [DIGITS[n % 10]]
  }

  function Text(t: Token): string {
    match t
    case One(v) => Decimal(v)
    case Span(lo, hi) => Decimal(lo) + "-" + Decimal(hi)
  }

  function TextOf(ts: seq<Token>): string {
    if ts == [] then "" else if |ts| == 1 then Text(ts[0]) else Text(ts[0]) + "," + TextOf(ts[1..])
  }

  lemma DecimalIsShort(n: nat)
    requires n <= MAX_VLAN
    ensures |Decimal(n)| <= 4
  {
    var tens, hundreds := n / 10, n / 10 / 10;
    assert hundreds / 10 < 10;
    assert |Decimal(hundreds / 10)| == 1;
    assert |Decimal(hundreds)| <= 2;
    assert |Decimal(tens)| <= 3;
  }

  lemma TextIsShort(t: Token)
    requires Printable(t)
    ensures |Text(t)| <= 9
  {
    DecimalIsShort(Lo(t));
    DecimalIsShort(Hi(t));
  }

  lemma {:induction false} TextOfAppend(ts: seq<Token>, t: Token)
    ensures TextOf(ts + [t]) == if ts == [] then Text(t) else TextOf(ts) + "," + Text(t)
  {
    if |ts| > 0 {
      TextOfAppend(ts[1..], t);
      assert (ts + [t])[1..] == ts[1..] + [t];
    }
  }

  // ----- Lines --------------------------------------------------------------

  const WIDTH: nat := 80
  const SET_PREFIX: string := " switchport trunk allowed vlan "
  const ADD_PREFIX: string := " switchport trunk allowed vlan add "
  const SET_LENGTH: nat := 31
  const ADD_LENGTH: nat := 35

  lemma PrefixLengths()
    ensures |SET_PREFIX| == SET_LENGTH && |ADD_PREFIX| == ADD_LENGTH
  {
  }

  /** The lines for the tokens `ts` when `line` has been collected behind a prefix already. */
  function Layout(prefix: nat, line: seq<Token>, ts: seq<Token>): (r: seq<seq<Token>>)
    ensures |r| > 0
    decreases |ts|
  {
    if ts == [] then [line]
    else if prefix + |TextOf(line + [ts[0]])| >= WIDTH then [line] + Layout(ADD_LENGTH, [ts[0]], ts[1..])
    else Layout(prefix, line + [ts[0]], ts[1..])
  }

  function LinesOf(allowed: set<nat>): seq<seq<Token>> { Layout(SET_LENGTH, [], Tokens(allowed, 1)) }

  function PrefixOf(k: nat): string { if k == 0 then SET_PREFIX else ADD_PREFIX }

  /** The text of all lines, the first one with `prefix`. */
  function Printed(prefix: string, lines: seq<seq<Token>>): (r: seq<string>)
    ensures |r| == |lines|
    decreases |lines|
  {
    if lines == [] then [] else [prefix + TextOf(lines[0])] + Printed(ADD_PREFIX, lines[1..])
  }

  lemma {:induction false} PrintedAt(prefix: string, lines: seq<seq<Token>>, k: nat)
    requires k < |lines|
    ensures Printed(prefix, lines)[k] == (if k == 0 then prefix else ADD_PREFIX) + TextOf(lines[k])
    decreases k
  {
    if k > 0 {
      PrintedAt(ADD_PREFIX, lines[1..], k - 1);
    }
  }

  function Flatten(lines: seq<seq<Token>>): seq<Token> {
    if lines == [] then [] else lines[0] + Flatten(lines[1..])
  }

  lemma FlattenFirst(line: seq<Token>, rest: seq<seq<Token>>)
    ensures Flatten([line] + rest) == line + Flatten(rest)
  {
    assert ([line] + rest)[1..] == rest;
  }

  /** The layout loses, repeats and reorders nothing. */
  lemma {:induction false} LayoutKeepsTokens(prefix: nat, line: seq<Token>, ts: seq<Token>)
    ensures Flatten(Layout(prefix, line, ts)) == line + ts
    decreases |ts|
  {
    if ts == [] {
      assert [line] + [] == [line];
      FlattenFirst(line, []);
    } else if prefix + |TextOf(line + [ts[0]])| >= WIDTH {
      LayoutKeepsTokens(ADD_LENGTH, [ts[0]], ts[1..]);
      FlattenFirst(line, Layout(ADD_LENGTH, [ts[0]], ts[1..]));
      assert [ts[0]] + ts[1..] == ts;
    } else {
      LayoutKeepsTokens(prefix, line + [ts[0]], ts[1..]);
      assert line + [ts[0]] + ts[1..] == line + ts;
    }
  }

  predicate Fits(prefix: nat, line: seq<Token>) { prefix + |TextOf(line)| < WIDTH }

  lemma OneTokenFits(line: seq<Token>, t: Token)
    requires Printable(t) && line == []
    ensures Fits(ADD_LENGTH, [t]) && Fits(SET_LENGTH, line + [t])
    ensures Fits(ADD_LENGTH, line + [t])
  {
    TextIsShort(t);
    assert line + [t] == [t];
  }

  predicate AllFit(prefix: nat, lines: seq<seq<Token>>)
    decreases |lines|
  {
    lines == [] || (Fits(prefix, lines[0]) && AllFit(ADD_LENGTH, lines[1..]))
  }

  lemma {:induction false} FitsAfterFirst(lines: seq<seq<Token>>, k: nat)
    requires AllFit(ADD_LENGTH, lines) && k < |lines|
    ensures Fits(ADD_LENGTH, lines[k])
    decreases k
  {
    if k > 0 {
      FitsAfterFirst(lines[1..], k - 1);
    }
  }

  lemma {:induction false} LayoutFits(prefix: nat, line: seq<Token>, ts: seq<Token>)
    requires Fits(prefix, line) && AllPrintable(ts)
    ensures AllFit(prefix, Layout(prefix, line, ts))
    decreases |ts|
  {
    if ts == [] {
      assert [line][1..] == [];
    } else if Fits(prefix, line + [ts[0]]) {
      LayoutFits(prefix, line + [ts[0]], ts[1..]);
    } else {
      OneTokenFits([], ts[0]);
      LayoutFits(ADD_LENGTH, [ts[0]], ts[1..]);
      FirstFits(prefix, line, Layout(ADD_LENGTH, [ts[0]], ts[1..]));
    }
  }

  lemma FirstFits(prefix: nat, line: seq<Token>, rest: seq<seq<Token>>)
    requires Fits(prefix, line) && AllFit(ADD_LENGTH, rest)
    ensures AllFit(prefix, [line] + rest)
  {
    assert ([line] + rest)[1..] == rest;
  }

  /** No line but the only one of an empty list is empty. */
  lemma {:induction false} LayoutNonEmpty(prefix: nat, line: seq<Token>, ts: seq<Token>, k: nat)
    requires AllPrintable(ts) && (prefix == SET_LENGTH || prefix == ADD_LENGTH)
    requires (line != [] || ts != []) && k < |Layout(prefix, line, ts)|
    ensures Layout(prefix, line, ts)[k] != []
    decreases |ts|
  {
    if ts != [] {
      assert AllPrintable(ts[1..]);
      if line == [] {
        OneTokenFits(line, ts[0]);
      }
      if Fits(prefix, line + [ts[0]]) {
        LayoutNonEmpty(prefix, line + [ts[0]], ts[1..], k);
      } else if k > 0 {
        LayoutNonEmpty(ADD_LENGTH, [ts[0]], ts[1..], k - 1);
      }
    }
  }

  lemma LineFits(allowed: set<nat>, k: nat)
    requires k < |LinesOf(allowed)|
    ensures Fits(if k == 0 then SET_LENGTH else ADD_LENGTH, LinesOf(allowed)[k])
  {
    TokensArePrintable(allowed, 1);
    LayoutFits(SET_LENGTH, [], Tokens(allowed, 1));
    if k > 0 {
      FitsAfterFirst(LinesOf(allowed)[1..], k - 1);
    }
  }

  /** Every line printed is shorter than 80 characters, and together they denote exactly the allowed
      VLANs from 1 to 4094, each once and in increasing order. */
  lemma PrintedLines(allowed: set<nat>, k: nat)
    requires k < |LinesOf(allowed)|
    ensures |Printed(SET_PREFIX, LinesOf(allowed))[k]| < 80
    ensures Printed(SET_PREFIX, LinesOf(allowed))[k] == PrefixOf(k) + TextOf(LinesOf(allowed)[k])
    ensures Expand(Flatten(LinesOf(allowed))) == AllowedFrom(allowed, 1)
  {
    LineFits(allowed, k);
    PrintedAt(SET_PREFIX, LinesOf(allowed), k);
    PrefixLengths();
    LayoutKeepsTokens(SET_LENGTH, [], Tokens(allowed, 1));
    assert [] + Tokens(allowed, 1) == Tokens(allowed, 1);
    TokensDenoteAllowed(allowed, 1);
  }

  // ----- The printer --------------------------------------------------------

  /** list_vlans_token: the next token and where to go on, or 0 when there is none. */
  method ListVlansToken(bmp: Bitmap, start: nat) returns (next: nat, token: string)
    requires 1 <= start <= MAX_VLAN + 1
    ensures IsNext(AllowedVlans(bmp), start, next, token)
  {
    ghost var allowed := AllowedVlans(bmp);
    var vlan := start;
    token := "";
    while vlan <= MAX_VLAN && Test(bmp, vlan)
      invariant start <= vlan <= MAX_VLAN + 1 && FirstAllowed(allowed, vlan) == FirstAllowed(allowed, start)
    {
      assert vlan !in allowed;
      vlan := vlan + 1;
    }
    if vlan > MAX_VLAN {
      return 0, "";
    }
    token := Decimal(vlan);
    var min := vlan;
    assert min in allowed;
    while vlan <= MAX_VLAN && !Test(bmp, vlan)
      invariant min <= vlan <= MAX_VLAN + 1 && RunEnd(allowed, vlan) == RunEnd(allowed, min)
    {
      assert vlan in allowed;
      vlan := vlan + 1;
    }
    assert vlan <= MAX_VLAN ==> vlan !in allowed;
    RunStops(allowed, min, vlan);
    if vlan - min == 1 {
      return vlan, token;
    }
    if vlan - min > 2 {
      token := token + "-" + Decimal(vlan - 1);
    } else {
      vlan := vlan - 1;
    }
    return vlan, token;
  }

  lemma RunStops(allowed: set<nat>, min: nat, end: nat)
    requires min <= MAX_VLAN && min < end <= MAX_VLAN + 1 && (end <= MAX_VLAN ==> end !in allowed)
    requires RunEnd(allowed, end) == RunEnd(allowed, min) && min in allowed
    ensures RunEnd(allowed, min) == end
    ensures TokenAt(allowed, min) == if end - min > 2 then Span(min, end - 1) else One(min)
  {
  }

  /** `vlan` and `token` are what list_vlans_token gives from `from` on. */
  ghost predicate IsNext(allowed: set<nat>, from: nat, vlan: nat, token: string) {
    && from <= MAX_VLAN + 1
    && (FirstAllowed(allowed, from) > MAX_VLAN ==> vlan == 0)
    && (FirstAllowed(allowed, from) <= MAX_VLAN ==>
          var t := TokenAt(allowed, FirstAllowed(allowed, from));
          vlan == Hi(t) + 1 && token == Text(t))
  }

  /** `out` has been written and `line` collected in `buf`, and the VLANs from `from` on are left. */
  ghost predicate Printing(allowed: set<nat>, from: nat, out: seq<string>, buf: string,
                           prefix: string, line: seq<Token>)
  {
    && from <= MAX_VLAN + 1
    && buf == prefix + TextOf(line)
    && Printed(SET_PREFIX, LinesOf(allowed)) == out + Printed(prefix, Layout(|prefix|, line, Tokens(allowed, from)))
  }

  lemma NextToken(allowed: set<nat>, from: nat, vlan: nat, token: string)
    requires IsNext(allowed, from, vlan, token) && vlan != 0
    ensures from < vlan <= MAX_VLAN + 1
    ensures var t := TokenAt(allowed, FirstAllowed(allowed, from));
            token == Text(t) && Tokens(allowed, from) == [t] + Tokens(allowed, vlan)
  {
  }

  function Piece(line: seq<Token>, token: string): string { if line == [] then token else "," + token }

  lemma Associative(a: string, b: string, c: string, d: string)
    ensures a + (b + c + d) == (a + b) + (c + d)
  {
  }

  lemma LineAppend(prefix: string, line: seq<Token>, t: Token)
    ensures prefix + TextOf(line + [t]) == (prefix + TextOf(line)) + Piece(line, Text(t))
  {
    TextOfAppend(line, t);
    if line == [] {
      assert prefix + "" == prefix;
    } else {
      Associative(prefix, TextOf(line), ",", Text(t));
    }
  }

  lemma SameLine(allowed: set<nat>, from: nat, out: seq<string>, buf: string, prefix: string, line: seq<Token>,
                 vlan: nat, token: string)
    requires Printing(allowed, from, out, buf, prefix, line)
    requires IsNext(allowed, from, vlan, token) && vlan != 0
    requires |buf| + |Piece(line, token)| < WIDTH
    ensures Printing(allowed, vlan, out, buf + Piece(line, token), prefix,
                     line + [TokenAt(allowed, FirstAllowed(allowed, from))])
  {
    PrefixLengths();
    NextToken(allowed, from, vlan, token);
    var t := TokenAt(allowed, FirstAllowed(allowed, from));
    LineAppend(prefix, line, t);
    LayoutSame(|prefix|, line, t, Tokens(allowed, vlan));
  }

  lemma LayoutSame(prefix: nat, line: seq<Token>, t: Token, rest: seq<Token>)
    requires Fits(prefix, line + [t])
    ensures Layout(prefix, line, [t] + rest) == Layout(prefix, line + [t], rest)
  {
    assert ([t] + rest)[1..] == rest;
  }

  lemma NewLine(allowed: set<nat>, from: nat, out: seq<string>, buf: string, prefix: string, line: seq<Token>,
                vlan: nat, token: string)
    requires Printing(allowed, from, out, buf, prefix, line)
    requires IsNext(allowed, from, vlan, token) && vlan != 0
    requires |buf| + |Piece(line, token)| >= WIDTH
    ensures Printing(allowed, vlan, out + [buf], ADD_PREFIX + token, ADD_PREFIX,
                     [TokenAt(allowed, FirstAllowed(allowed, from))])
  {
    PrefixLengths();
    NextToken(allowed, from, vlan, token);
    var t := TokenAt(allowed, FirstAllowed(allowed, from));
    var rest := Tokens(allowed, vlan);
    LineAppend(prefix, line, t);
    PrintedNew(prefix, line, t, rest);
    var more := Printed(ADD_PREFIX, Layout(ADD_LENGTH, [t], rest));
    assert out + ([buf] + more) == (out + [buf]) + more;
  }

  lemma PrintedNew(prefix: string, line: seq<Token>, t: Token, rest: seq<Token>)
    requires !Fits(|prefix|, line + [t])
    ensures Printed(prefix, Layout(|prefix|, line, [t] + rest))
            == [prefix + TextOf(line)] + Printed(ADD_PREFIX, Layout(ADD_LENGTH, [t], rest))
  {
    PrefixLengths();
    assert ([t] + rest)[1..] == rest;
    var lines := Layout(ADD_LENGTH, [t], rest);
    assert ([line] + lines)[1..] == lines;
  }

  lemma LastLine(allowed: set<nat>, from: nat, out: seq<string>, buf: string, prefix: string, line: seq<Token>,
                 token: string)
    requires Printing(allowed, from, out, buf, prefix, line) && IsNext(allowed, from, 0, token)
    ensures Printed(SET_PREFIX, LinesOf(allowed)) == out + [buf]
  {
    assert Tokens(allowed, from) == [];
    assert Printed(prefix, [line]) == [buf];
  }

  /** list_vlans. */
  method ListVlans(bmp: Bitmap) returns (out: seq<string>)
    ensures out == Printed(SET_PREFIX, LinesOf(AllowedVlans(bmp)))
  {
    ghost var allowed := AllowedVlans(bmp);
    out := [];
    var first := true;
    var buf := SET_PREFIX;
    ghost var from, prefix, line := 1, SET_PREFIX, [];
    Start(allowed);
    var vlan, token := ListVlansToken(bmp, 1);
    while vlan != 0
      invariant IsNext(allowed, from, vlan, token)
      invariant Printing(allowed, from, out, buf, prefix, line)
      invariant first == (line == [])
      decreases MAX_VLAN + 2 - from
    {
      NextToken(allowed, from, vlan, token);
      ghost var t := TokenAt(allowed, FirstAllowed(allowed, from));
      if |buf| + |if first then token else "," + token| >= WIDTH {
        NewLine(allowed, from, out, buf, prefix, line, vlan, token);
        out := out + [buf];
        buf := ADD_PREFIX;
        first := true;
        prefix, line := ADD_PREFIX, [t];
      } else {
        SameLine(allowed, from, out, buf, prefix, line, vlan, token);
        line := line + [t];
      }
      buf := buf + if first then token else "," + token;
      first := false;
      from := vlan;
      vlan, token := ListVlansToken(bmp, vlan);
    }
    LastLine(allowed, from, out, buf, prefix, line, token);
    out := out + [buf];
  }

  lemma Start(allowed: set<nat>)
    ensures Printing(allowed, 1, [], SET_PREFIX, SET_PREFIX, [])
  {
    PrefixLengths();
    assert SET_PREFIX + "" == SET_PREFIX;
    var p := Printed(SET_PREFIX, LinesOf(allowed));
    assert [] + p == p;
  }
}
