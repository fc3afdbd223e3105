/** When an abbreviation is resolved and when it is not (userspace/cli/cli.c:63-182), over the siblings of a menu
    and the letters of a token. */
module CliChoice {
  import opened Cli
  import opened Options

  // ----- Letters ------------------------------------------------------------

  predicate IsUpper(c: char) { 'A' <= c <= 'Z' }

  /** The same letter, in upper or lower case. */
  predicate SameLetter(c: char, d: char) {
    c == d || (IsUpper(c) && d as int == c as int + 32) || (IsUpper(d) && c as int == d as int + 32)
  }

  lemma LowerIffSame(c: char, d: char)
    ensures ToLower(c) == ToLower(d) <==> SameLetter(c, d)
  {
  }

  /** The token is what the name begins with, case apart. */
  predicate Starts(token: string, name: string) {
    |token| <= |name| && forall k | 0 <= k < |token| :: SameLetter(token[k], name[k])
  }

  lemma AbbreviatesIffStarts(token: string, name: string)
    ensures Abbreviates(token, name) <==> Starts(token, name)
  {
    if |token| <= |name| {
      var front := name[..|token|];
      forall k | 0 <= k < |token|
        ensures Folded(token)[k] == Folded(front)[k] <==> SameLetter(token[k], name[k])
      {
        LowerIffSame(token[k], name[k]);
      }
    }
  }

  // ----- Visibility ---------------------------------------------------------

  predicate OneBit(bit: bv32) { bit != 0 && bit & (bit - 1) == 0 }

  /** The two words have a bit in common. */
  ghost predicate Meet(word: bv32, filter: bv32) {
    exists bit :: OneBit(bit) && word & bit == bit && filter & bit == bit
  }

  lemma LowestBit(word: bv32, filter: bv32) returns (bit: bv32)
    requires word & filter != 0
    ensures OneBit(bit) && word & bit == bit && filter & bit == bit
  {
    bit := (word & filter) & (0 - (word & filter));
  }

  lemma SharedBit(word: bv32, filter: bv32, bit: bv32)
    requires bit != 0 && word & bit == bit && filter & bit == bit
    ensures word & filter != 0
  {
  }

  lemma MeetIff(word: bv32, filter: bv32)
    ensures word & filter != 0 <==> Meet(word, filter)
  {
    if word & filter != 0 {
      var bit := LowestBit(word, filter);
    } else if bit :| OneBit(bit) && word & bit == bit && filter & bit == bit {
      SharedBit(word, filter, bit);
    }
  }

  lemma ShownMeets(mask: seq<bv32>, filter: bv32, i: nat)
    requires Visible(mask, filter) && i < |mask|
    ensures Meet(mask[i], filter)
  {
    MeetIff(mask[i], filter);
    hide Meet;
  }

  lemma HiddenMisses(mask: seq<bv32>, filter: bv32) returns (i: nat)
    requires !Visible(mask, filter)
    ensures i < |mask| && !Meet(mask[i], filter)
  {
    i :| i < |mask| && mask[i] & filter == 0;
    MeetIff(mask[i], filter);
    hide Meet;
  }

  /** A node is shown exactly if every one of its mask words has a bit in common with the filter. */
  lemma VisibleIff(mask: seq<bv32>, filter: bv32)
    ensures Visible(mask, filter) <==> forall i | 0 <= i < |mask| :: Meet(mask[i], filter)
  {
    hide Visible, Meet;
    if Visible(mask, filter) {
      forall i | 0 <= i < |mask|
        ensures Meet(mask[i], filter)
      {
        ShownMeets(mask, filter, i);
      }
    } else {
      var i := HiddenMisses(mask, filter);
    }
  }

  // ----- Siblings -----------------------------------------------------------

  /** Sibling i is visible and begins with the token. */
  predicate Begins(tree: seq<Node>, token: string, filter: bv32, i: nat) {
    i < |tree| && Visible(tree[i].mask, filter) && Starts(token, tree[i].name)
  }

  /** Of the siblings whose whole name is the token, sibling i is the last one. */
  ghost predicate LastExact(tree: seq<Node>, token: string, filter: bv32, i: nat) {
    && Begins(tree, token, filter, i) && |tree[i].name| == |token|
    && forall j: nat :: i < j && Begins(tree, token, filter, j) ==> |tree[j].name| != |token|
  }

  ghost predicate NoExact(tree: seq<Node>, token: string, filter: bv32) {
    forall j: nat :: Begins(tree, token, filter, j) ==> |tree[j].name| != |token|
  }

  /** Sibling i is the only one that begins with the token. */
  ghost predicate Only(tree: seq<Node>, token: string, filter: bv32, i: nat) {
    Begins(tree, token, filter, i) && forall j: nat :: Begins(tree, token, filter, j) ==> j == i
  }

  /** The token stands for sibling i. */
  ghost predicate StandsFor(tree: seq<Node>, token: string, filter: bv32, i: nat) {
    LastExact(tree, token, filter, i) || (NoExact(tree, token, filter) && Only(tree, token, filter, i))
  }

  ghost predicate Unknown(tree: seq<Node>, token: string, filter: bv32) {
    forall j: nat :: !Begins(tree, token, filter, j)
  }

  /** The matches from sibling `from` on, as indices of siblings in increasing order. */
  ghost predicate AreIndices(tree: seq<Node>, token: string, filter: bv32, from: nat, ms: seq<Node>, at: seq<nat>) {
    && |at| == |ms|
    && (forall k | 0 <= k < |at| :: from <= at[k] && Begins(tree, token, filter, at[k]) && ms[k] == tree[at[k]])
    && (forall k, l | 0 <= k < l < |at| :: at[k] < at[l])
    && forall j: nat :: from <= j && Begins(tree, token, filter, j) ==> j in at
  }

  /** With room enough there is an index for each of them. */
  lemma {:induction false} Indices(tree: seq<Node>, token: string, filter: bv32, from: nat, room: nat)
    returns (at: seq<nat>)
    requires from <= |tree| <= from + room
    ensures AreIndices(tree, token, filter, from, Matches(tree[from..], token, filter, room), at)
    decreases |tree| - from
  {
    if from == |tree| {
      at := [];
    } else {
      AbbreviatesIffStarts(token, tree[from].name);
      assert tree[from..][1..] == tree[from + 1..];
      if Hits(tree[from], token, filter) {
        var later := Indices(tree, token, filter, from + 1, room - 1);
        at := [from] + later;
        OneMoreIndex(tree, token, filter, from, Matches(tree[from + 1..], token, filter, room - 1), later);
      } else {
        at := Indices(tree, token, filter, from + 1, room);
        assert !Begins(tree, token, filter, from);
      }
    }
  }

  lemma OneMoreIndex(tree: seq<Node>, token: string, filter: bv32, from: nat, ms: seq<Node>, later: seq<nat>)
    requires from < |tree| && Begins(tree, token, filter, from) && AreIndices(tree, token, filter, from + 1, ms, later)
    ensures AreIndices(tree, token, filter, from, [tree[from]] + ms, [from] + later)
  {
    assert forall k | 0 <= k < |later| :: later[k] < |tree|;
    hide Begins;
    var at, more := [from] + later, [tree[from]] + ms;
    forall k | 0 <= k < |at|
      ensures from <= at[k] < |tree| && Begins(tree, token, filter, at[k]) && more[k] == tree[at[k]]
      ensures k > 0 ==> at[k] == later[k - 1]
    {
      assert k > 0 ==> at[k] == later[k - 1] && more[k] == ms[k - 1];
    }
    forall j: nat | from <= j && Begins(tree, token, filter, j)
      ensures j in at
    {
      assert j > from ==> j in later;
    }
  }

  lemma AllIndices(tree: seq<Node>, token: string, filter: bv32) returns (at: seq<nat>)
    requires |tree| <= MAX_MATCHES
    ensures AreIndices(tree, token, filter, 0, Matches(tree, token, filter, MAX_MATCHES), at)
  {
    assert tree[0..] == tree;
    at := Indices(tree, token, filter, 0, MAX_MATCHES);
  }

  // ----- The choice ---------------------------------------------------------

  lemma {:induction false} FindExact(tree: seq<Node>, token: string, filter: bv32, n: nat) returns (found: bool, i: nat)
    requires n <= |tree|
    ensures found ==> i < n && Begins(tree, token, filter, i) && |tree[i].name| == |token|
    ensures found ==> forall j: nat :: i < j < n && Begins(tree, token, filter, j) ==> |tree[j].name| != |token|
    ensures !found ==> forall j: nat :: j < n && Begins(tree, token, filter, j) ==> |tree[j].name| != |token|
  {
    if n == 0 {
      found, i := false, 0;
    } else if Begins(tree, token, filter, n - 1) && |tree[n - 1].name| == |token| {
      found, i := true, n - 1;
    } else {
      found, i := FindExact(tree, token, filter, n - 1);
    }
  }

  lemma ExactIsChosen(tree: seq<Node>, token: string, filter: bv32, i: nat)
    requires |tree| <= MAX_MATCHES && LastExact(tree, token, filter, i)
    ensures Choose(tree, token, filter) == One(tree[i])
  {
    var ms := Matches(tree, token, filter, MAX_MATCHES);
    var at := AllIndices(tree, token, filter);
    var k :| 0 <= k < |at| && at[k] == i;
    forall l | k < l < |ms|
      ensures |ms[l].name| != |token|
    {
      assert Begins(tree, token, filter, at[l]) && at[l] > i;
    }
    assert LastOfLength(ms, k, |token|);
    ExactIsLast(ms, token, k);
  }

  lemma NoneIsExact(tree: seq<Node>, token: string, filter: bv32, at: seq<nat>)
    requires |tree| <= MAX_MATCHES && NoExact(tree, token, filter)
    requires AreIndices(tree, token, filter, 0, Matches(tree, token, filter, MAX_MATCHES), at)
    ensures Exact(Matches(tree, token, filter, MAX_MATCHES), token).None?
  {
    var ms := Matches(tree, token, filter, MAX_MATCHES);
    forall k | 0 <= k < |ms|
      ensures |ms[k].name| != |token|
    {
      assert Begins(tree, token, filter, at[k]);
    }
  }

  lemma OnlyIsChosen(tree: seq<Node>, token: string, filter: bv32, i: nat)
    requires |tree| <= MAX_MATCHES && NoExact(tree, token, filter) && Only(tree, token, filter, i)
    ensures Choose(tree, token, filter) == One(tree[i])
  {
    var ms := Matches(tree, token, filter, MAX_MATCHES);
    var at := AllIndices(tree, token, filter);
    NoneIsExact(tree, token, filter, at);
    assert i in at;
    assert forall k | 0 <= k < |at| :: Begins(tree, token, filter, at[k]);
  }

  lemma SomeoneBegins(tree: seq<Node>, token: string, filter: bv32, ms: seq<Node>, at: seq<nat>)
    requires AreIndices(tree, token, filter, 0, ms, at) && at != []
    ensures !Unknown(tree, token, filter)
  {
    assert Begins(tree, token, filter, at[0]);
  }

  lemma NobodyIsChosen(tree: seq<Node>, token: string, filter: bv32)
    requires |tree| <= MAX_MATCHES && Unknown(tree, token, filter)
    ensures Choose(tree, token, filter) == Nobody
  {
    var at := AllIndices(tree, token, filter);
    NoneIsExact(tree, token, filter, at);
    if at != [] {
      SomeoneBegins(tree, token, filter, Matches(tree, token, filter, MAX_MATCHES), at);
    }
  }

  lemma SeveralAreLeft(tree: seq<Node>, token: string, filter: bv32)
    requires |tree| <= MAX_MATCHES && NoExact(tree, token, filter) && !Unknown(tree, token, filter)
    requires forall i: nat :: !Only(tree, token, filter, i)
    ensures Choose(tree, token, filter) == Several
  {
    var at := AllIndices(tree, token, filter);
    NoneIsExact(tree, token, filter, at);
    var j: nat :| Begins(tree, token, filter, j);
    assert j in at;
    assert !Only(tree, token, filter, j);
  }

  /** The three answers, for a menu of up to 128 nodes: a node exactly if the token stands for it, nobody
      exactly if no visible sibling begins with the token, and several in all other cases. */
  lemma ChoiceIff(tree: seq<Node>, token: string, filter: bv32)
    requires |tree| <= 128
    ensures match Choose(tree, token, filter)
            case One(n) => exists i: nat :: StandsFor(tree, token, filter, i) && tree[i] == n
            case Nobody => Unknown(tree, token, filter)
            case Several => !Unknown(tree, token, filter) && forall i: nat :: !StandsFor(tree, token, filter, i)
    ensures forall i: nat :: StandsFor(tree, token, filter, i) ==> Choose(tree, token, filter) == One(tree[i])
    ensures Unknown(tree, token, filter) ==> Choose(tree, token, filter) == Nobody
  {
    forall i: nat | StandsFor(tree, token, filter, i)
      ensures Choose(tree, token, filter) == One(tree[i])
    {
      StandsForIsChosen(tree, token, filter, i);
    }
    var found, i := FindExact(tree, token, filter, |tree|);
    if found {
      assert LastExact(tree, token, filter, i);
      assert StandsFor(tree, token, filter, i);
    } else if Unknown(tree, token, filter) {
      NobodyIsChosen(tree, token, filter);
    } else if i: nat :| Only(tree, token, filter, i) {
      assert StandsFor(tree, token, filter, i);
    } else {
      SeveralAreLeft(tree, token, filter);
      assert forall i: nat :: !LastExact(tree, token, filter, i);
    }
  }

  lemma StandsForIsChosen(tree: seq<Node>, token: string, filter: bv32, i: nat)
    requires |tree| <= MAX_MATCHES && StandsFor(tree, token, filter, i)
    ensures Choose(tree, token, filter) == One(tree[i])
  {
    if LastExact(tree, token, filter, i) {
      ExactIsChosen(tree, token, filter, i);
    } else {
      OnlyIsChosen(tree, token, filter, i);
    }
  }

  /** Upper and lower case make no difference to the answer. */
  lemma CaseMakesNoDifference(tree: seq<Node>, a: string, b: string, filter: bv32)
    requires |a| == |b| && forall k | 0 <= k < |a| :: SameLetter(a[k], b[k])
    ensures Choose(tree, a, filter) == Choose(tree, b, filter)
  {
    forall k | 0 <= k < |a|
      ensures Folded(a)[k] == Folded(b)[k]
    {
      LowerIffSame(a[k], b[k]);
    }
    assert Folded(a) == Folded(b);
    SameMatches(tree, a, b, filter, MAX_MATCHES);
    SameExact(Matches(tree, a, filter, MAX_MATCHES), a, b);
  }

  // ----- Whole lines --------------------------------------------------------

  predicate IsGap(s: string) { forall k | 0 <= k < |s| :: IsSpace(s[k]) }

  /** What follows a token: nothing, or whitespace. */
  predicate EndsToken(s: string) { s == "" || IsSpace(s[0]) }

  /** The tokens of a line with the whitespace in front of each. */
  function Spread(gaps: seq<string>, tokens: seq<string>): string
    requires |gaps| == |tokens|
  {
    if tokens == [] then "" else gaps[0] + tokens[0] + Spread(gaps[1..], tokens[1..])
  }

  predicate Spaced(gaps: seq<string>, tokens: seq<string>) {
    && |gaps| == |tokens|
    && forall k | 0 <= k < |tokens| :: PlainName(tokens[k]) && IsGap(gaps[k]) && (k > 0 ==> gaps[k] != "")
  }

  ghost predicate ChildFor(menu: Node, token: string, filter: bv32, n: Node) {
    && menu.subtree.Some? && |menu.subtree.value| <= MAX_MATCHES
    && exists i: nat :: StandsFor(menu.subtree.value, token, filter, i) && menu.subtree.value[i] == n
  }

  /** Each token stands for the next node of the path. */
  ghost predicate LeadsTo(menu: Node, tokens: seq<string>, path: seq<Node>, filter: bv32)
    decreases |tokens|
  {
    && |path| == |tokens|
    && (tokens != [] ==> ChildFor(menu, tokens[0], filter, path[0]) && LeadsTo(path[0], tokens[1..], path[1..], filter))
  }

  lemma {:induction false} SpacesOf(gap: string, s: string)
    requires IsGap(gap) && (s == "" || !IsSpace(s[0]))
    ensures Spaces(gap + s) == |gap|
  {
    if gap == "" {
      assert gap + s == s;
    } else {
      assert (gap + s)[1..] == gap[1..] + s;
      SpacesOf(gap[1..], s);
    }
  }

  /** The first token of gap + token + s is `token`. */
  lemma TokenAt(gap: string, token: string, s: string)
    requires IsGap(gap) && PlainName(token) && EndsToken(s)
    ensures var line := gap + token + s;
            && Spaces(line) == |gap| < |line| && TokenLength(line[|gap|..]) == |token|
            && line[|gap|..][..|token|] == token && line[|gap| + |token|..] == s
  {
    var line := gap + token + s;
    assert line == gap + (token + s);
    SpacesOf(gap, token + s);
    assert line[|gap|..] == token + s;
    TokenLengthIs(token + s, |token|);
  }

  /** One step over a token that stands for a node. */
  lemma StepOver(menu: Node, gap: string, token: string, s: string, n: Node, filter: bv32, argc: nat)
    requires IsGap(gap) && PlainName(token) && EndsToken(s) && argc < MAX_DEPTH && ChildFor(menu, token, filter, n)
    ensures FirstStep(menu, gap + token + s, filter, argc) == Next(n, token, |gap| + |token|, s != "")
  {
    TokenAt(gap, token, s);
    var i: nat :| StandsFor(menu.subtree.value, token, filter, i) && menu.subtree.value[i] == n;
    StandsForIsChosen(menu.subtree.value, token, filter, i);
  }

  lemma AfterBefore(n: Node, token: string, k: nat, nodes: seq<Node>, tokens: seq<string>, at: nat, o: Outcome)
    ensures After(n, token, k, Before(nodes, tokens, at, o)) == Before([n] + nodes, [token] + tokens, k + at, o)
  {
    if o.Resolved? {
      assert [n] + (nodes + o.path) == ([n] + nodes) + o.path;
      assert [token] + (tokens + o.tokens) == ([token] + tokens) + o.tokens;
    }
  }

  lemma SpacedRest(gaps: seq<string>, tokens: seq<string>)
    requires Spaced(gaps, tokens) && tokens != []
    ensures |gaps| == |tokens| && Spaced(gaps[1..], tokens[1..]) && IsGap(gaps[0]) && PlainName(tokens[0])
    ensures |tokens| > 1 ==> gaps[1] != "" && IsSpace(gaps[1][0])
  {
    var rest := tokens[1..];
    assert forall k | 0 <= k < |rest| :: rest[k] == tokens[k + 1] && gaps[1..][k] == gaps[k + 1];
    assert |tokens| > 1 ==> IsGap(gaps[1]);
    hide PlainName;
  }

  lemma SpreadUnfolds(gaps: seq<string>, tokens: seq<string>)
    requires |gaps| == |tokens| > 0
    ensures Spread(gaps, tokens) == gaps[0] + tokens[0] + Spread(gaps[1..], tokens[1..])
  {
  }

  lemma StillEndsToken(gaps: seq<string>, tokens: seq<string>, s: string)
    requires |gaps| == |tokens| && EndsToken(s) && (tokens != [] ==> gaps[0] != "" && IsSpace(gaps[0][0]))
    ensures EndsToken(Spread(gaps, tokens) + s)
  {
    if tokens == [] {
      assert "" + s == s;
    } else {
      assert (Spread(gaps, tokens) + s)[0] == gaps[0][0];
    }
  }

  lemma Joined(a: string, b: string, c: string, d: string)
    ensures a + b + c + d == a + b + (c + d)
  {
  }

  lemma SpreadEndsToken(gaps: seq<string>, tokens: seq<string>, s: string)
    requires |gaps| == |tokens| > 0 && Spaced(gaps, tokens) && EndsToken(s)
    ensures Spaced(gaps[1..], tokens[1..]) && EndsToken(Spread(gaps[1..], tokens[1..]) + s)
    ensures IsGap(gaps[0]) && PlainName(tokens[0])
    ensures Spread(gaps, tokens) + s == gaps[0] + tokens[0] + (Spread(gaps[1..], tokens[1..]) + s)
    ensures |Spread(gaps, tokens)| == |gaps[0]| + |tokens[0]| + |Spread(gaps[1..], tokens[1..])|
  {
    hide *;
    SpacedRest(gaps, tokens);
    SpreadUnfolds(gaps, tokens);
    StillEndsToken(gaps[1..], tokens[1..], s);
    Joined(gaps[0], tokens[0], Spread(gaps[1..], tokens[1..]), s);
  }

  lemma NothingMore(menu: Node, s: string, filter: bv32, argc: nat)
    requires IsGap(s) && argc < MAX_DEPTH
    ensures Resolve(menu, s, filter, argc) == Resolved([], [])
  {
    SpacesOf(s, "");
    assert s + "" == s;
  }

  /** What the line comes to from behind a token on: nothing more is read when the line ends there. */
  function Rest(menu: Node, s: string, filter: bv32, argc: nat): Outcome {
    if s == "" then Resolved([], []) else Resolve(menu, s, filter, argc)
  }

  lemma RestIsResolve(menu: Node, s: string, filter: bv32, argc: nat)
    requires s != "" || argc < MAX_DEPTH
    ensures Rest(menu, s, filter, argc) == Resolve(menu, s, filter, argc)
  {
    if s == "" {
      NothingMore(menu, s, filter, argc);
    }
  }

  lemma NextIsAfter(menu: Node, line: string, k: nat, n: Node, token: string, filter: bv32, argc: nat)
    requires k <= |line| && FirstStep(menu, line, filter, argc) == Next(n, token, k, line[k..] != "")
    ensures Resolve(menu, line, filter, argc) == After(n, token, k, Rest(n, line[k..], filter, argc + 1))
  {
    hide FirstStep;
    assert [n] + [] == [n] && [token] + [] == [token];
  }

  lemma StepGoesOn(menu: Node, line: string, gap: string, token: string, rest: string, n: Node, filter: bv32, argc: nat)
    requires line == gap + token + rest
    requires IsGap(gap) && PlainName(token) && EndsToken(rest) && argc < MAX_DEPTH && ChildFor(menu, token, filter, n)
    ensures Rest(menu, line, filter, argc) == After(n, token, |gap| + |token|, Rest(n, rest, filter, argc + 1))
  {
    hide *;
    StepOver(menu, gap, token, rest, n, filter, argc);
    TokenAt(gap, token, rest);
    NextIsAfter(menu, line, |gap| + |token|, n, token, filter, argc);
    RestIsResolve(menu, line, filter, argc);
  }

  /** The step, and what the rest of the line comes to. */
  lemma StepAndRest(menu: Node, line: string, rest: string, path: seq<Node>, tokens: seq<string>, k: nat, at: nat,
                    o: Outcome, filter: bv32, argc: nat)
    requires path != [] && tokens != []
    requires Rest(menu, line, filter, argc) == After(path[0], tokens[0], k, Rest(path[0], rest, filter, argc + 1))
    requires Rest(path[0], rest, filter, argc + 1) == Before(path[1..], tokens[1..], at, o)
    ensures Rest(menu, line, filter, argc) == Before(path, tokens, k + at, o)
  {
    hide Rest, Before, After;
    AfterBefore(path[0], tokens[0], k, path[1..], tokens[1..], at, o);
    assert [path[0]] + path[1..] == path && [tokens[0]] + tokens[1..] == tokens;
  }

  lemma PathFrom(menu: Node, tokens: seq<string>, path: seq<Node>, filter: bv32)
    requires tokens != [] && LeadsTo(menu, tokens, path, filter)
    ensures path != [] && ChildFor(menu, tokens[0], filter, path[0]) && LeadsTo(path[0], tokens[1..], path[1..], filter)
    ensures Cli.Reached(path[0], path[1..]) == Cli.Reached(menu, path)
  {
  }

  lemma NoTokens(menu: Node, line: string, gaps: seq<string>, path: seq<Node>, s: string, filter: bv32, argc: nat)
    requires |gaps| == 0 && line == Spread(gaps, []) + s && LeadsTo(menu, [], path, filter)
    ensures var o := Rest(Cli.Reached(menu, path), s, filter, argc);
            Rest(menu, line, filter, argc) == o == Before(path, [], |Spread(gaps, [])|, o)
  {
    assert line == s;
    BeforeNothing(Rest(menu, s, filter, argc));
  }

  /** The first token, when the rest of the line is known to go on. */
  lemma OneMoreToken(menu: Node, line: string, gaps: seq<string>, tokens: seq<string>, path: seq<Node>, s: string,
                     filter: bv32, argc: nat, o: Outcome)
    requires |gaps| == |tokens| == |path| != 0 && Spaced(gaps, tokens) && LeadsTo(menu, tokens, path, filter)
    requires EndsToken(s) && line == Spread(gaps, tokens) + s && argc < MAX_DEPTH
    requires var later := Spread(gaps[1..], tokens[1..]);
             Rest(path[0], later + s, filter, argc + 1) == Before(path[1..], tokens[1..], |later|, o)
    ensures Rest(menu, line, filter, argc) == Before(path, tokens, |Spread(gaps, tokens)|, o)
  {
    hide *;
    var later := Spread(gaps[1..], tokens[1..]);
    SpreadEndsToken(gaps, tokens, s);
    PathFrom(menu, tokens, path, filter);
    StepGoesOn(menu, line, gaps[0], tokens[0], later + s, path[0], filter, argc);
    StepAndRest(menu, line, later + s, path, tokens, |gaps[0]| + |tokens[0]|, |later|, o, filter, argc);
  }

  /** A line whose first tokens stand for the nodes of a path goes on from the end of the path: o is what the
      rest s of the line comes to there. */
  lemma {:induction false} LineGoesOn(menu: Node, line: string, gaps: seq<string>, tokens: seq<string>, path: seq<Node>,
                                      s: string, filter: bv32, argc: nat, o: Outcome)
    requires |gaps| == |tokens| == |path| && Spaced(gaps, tokens) && LeadsTo(menu, tokens, path, filter) && EndsToken(s)
    requires line == Spread(gaps, tokens) + s && argc + |tokens| <= MAX_DEPTH
    requires o == Rest(Cli.Reached(menu, path), s, filter, argc + |tokens|)
    ensures Rest(menu, line, filter, argc) == Before(path, tokens, |Spread(gaps, tokens)|, o)
    decreases |tokens|
  {
    hide *;
    if tokens == [] {
      NoTokens(menu, line, gaps, path, s, filter, argc);
    } else {
      SpreadEndsToken(gaps, tokens, s);
      PathFrom(menu, tokens, path, filter);
      var rest := Spread(gaps[1..], tokens[1..]) + s;
      LineGoesOn(path[0], rest, gaps[1..], tokens[1..], path[1..], s, filter, argc + 1, o);
      OneMoreToken(menu, line, gaps, tokens, path, s, filter, argc, o);
    }
  }

  /** A line of up to 64 tokens that each stand for a node resolves to the path of these nodes: full names, or
      abbreviations that no sibling shares, in any case and with any whitespace; but 64 tokens must end
      the line. */
  lemma AbbreviationsResolve(root: Node, gaps: seq<string>, tokens: seq<string>, path: seq<Node>, s: string, filter: bv32)
    requires |gaps| == |tokens| == |path| && Spaced(gaps, tokens) && LeadsTo(root, tokens, path, filter) && IsGap(s)
    requires |tokens| < 64 || (|tokens| == 64 && s == "")
    ensures Resolve(root, Spread(gaps, tokens) + s, filter, 0) == Resolved(path, tokens)
  {
    var o := Resolved([], []);
    if s != "" {
      NothingMore(Cli.Reached(root, path), s, filter, |tokens|);
    }
    assert Before(path, tokens, |Spread(gaps, tokens)|, o) == Resolved(path, tokens) by {
      assert path + [] == path && tokens + [] == tokens;
    }
    hide Spaced, LeadsTo, Spread, Before, Resolve, IsGap;
    LineGoesOn(root, Spread(gaps, tokens) + s, gaps, tokens, path, s, filter, 0, o);
    RestIsResolve(root, Spread(gaps, tokens) + s, filter, 0);
  }

  /** Any more than that, even whitespace, and the line is too deep, where the program aborts. */
  lemma TooManyTokens(root: Node, gaps: seq<string>, tokens: seq<string>, path: seq<Node>, s: string, filter: bv32)
    requires |gaps| == |tokens| == |path| == 64 && Spaced(gaps, tokens) && LeadsTo(root, tokens, path, filter)
    requires s != "" && IsSpace(s[0])
    ensures Resolve(root, Spread(gaps, tokens) + s, filter, 0) == TooDeep
  {
    var menu := Cli.Reached(root, path);
    assert Rest(menu, s, filter, 64) == TooDeep && Before(path, tokens, |Spread(gaps, tokens)|, TooDeep) == TooDeep;
    hide Spaced, LeadsTo, Spread, Before, Resolve;
    LineGoesOn(root, Spread(gaps, tokens) + s, gaps, tokens, path, s, filter, 0, TooDeep);
    RestIsResolve(root, Spread(gaps, tokens) + s, filter, 0);
  }

  lemma NothingSpread(gaps: seq<string>, tokens: seq<string>)
    requires gaps == [] && tokens == []
    ensures Spread(gaps, tokens) == ""
  {
  }

  /** What a line that begins with a token that stands for nothing comes to. */
  ghost function BadToken(menu: Node, token: string, filter: bv32, start: nat): Outcome
    requires token != ""
  {
    if menu.subtree.None? then Invalid(start)
    else if Unknown(menu.subtree.value, token, filter) then Invalid(start + OkLength(menu.subtree.value, token, |token|))
    else Ambiguous
  }

  ghost predicate StandsForNothing(menu: Node, token: string, filter: bv32) {
    menu.subtree.Some? ==>
      |menu.subtree.value| <= MAX_MATCHES && forall i: nat :: !StandsFor(menu.subtree.value, token, filter, i)
  }

  lemma BadTokenFirst(menu: Node, gap: string, token: string, s: string, filter: bv32, argc: nat)
    requires IsGap(gap) && PlainName(token) && EndsToken(s) && argc < MAX_DEPTH && StandsForNothing(menu, token, filter)
    ensures Resolve(menu, gap + token + s, filter, argc) == BadToken(menu, token, filter, |gap|)
  {
    TokenAt(gap, token, s);
    if menu.subtree.Some? {
      ChoiceIff(menu.subtree.value, token, filter);
    }
    hide Choose, StandsFor, Unknown, Spaces, TokenLength;
  }

  lemma EndOfPath(root: Node, path: seq<Node>, gap: string, token: string, s: string)
    requires PlainName(token) && IsGap(gap)
    ensures token != "" && (path == [] ==> Cli.Reached(root, path) == root)
    ensures gap != "" ==> EndsToken(gap + token + s)
  {
  }

  lemma BadTokenLater(menu: Node, nodes: seq<Node>, tokens: seq<string>, at: nat, token: string, filter: bv32, start: nat)
    requires token != ""
    ensures Before(nodes, tokens, at, BadToken(menu, token, filter, start)) == BadToken(menu, token, filter, at + start)
  {
    hide Unknown, OkLength;
  }

  /** The first token that stands for nothing decides: the line is ambiguous when several visible
      siblings begin with it; invalid from where no sibling at all goes on, when none does; and invalid
      from its start when there is no menu to look it up in. */
  lemma FirstBadTokenDecides(root: Node, gaps: seq<string>, tokens: seq<string>, path: seq<Node>,
                             gap: string, token: string, s: string, filter: bv32)
    requires |gaps| == |tokens| == |path| && Spaced(gaps, tokens) && LeadsTo(root, tokens, path, filter) && |tokens| < MAX_DEPTH
    requires IsGap(gap) && (tokens == [] || gap != "") && PlainName(token) && EndsToken(s)
    requires StandsForNothing(Cli.Reached(root, path), token, filter)
    ensures Resolve(root, Spread(gaps, tokens) + (gap + token + s), filter, 0)
            == BadToken(Cli.Reached(root, path), token, filter, |Spread(gaps, tokens)| + |gap|)
  {
    var rest, menu := gap + token + s, Cli.Reached(root, path);
    hide *;
    EndOfPath(root, path, gap, token, s);
    BadTokenFirst(menu, gap, token, s, filter, |tokens|);
    RestIsResolve(menu, rest, filter, |tokens|);
    RestIsResolve(root, Spread(gaps, tokens) + rest, filter, 0);
    if tokens == [] {
      NoTokens(root, Spread(gaps, tokens) + rest, gaps, path, rest, filter, 0);
      NothingSpread(gaps, tokens);
    } else {
      var o := BadToken(menu, token, filter, |gap|);
      LineGoesOn(root, Spread(gaps, tokens) + rest, gaps, tokens, path, rest, filter, 0, o);
      BadTokenLater(menu, path, tokens, |Spread(gaps, tokens)|, token, filter, |gap|);
    }
  }
}
