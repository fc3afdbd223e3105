/** The command line resolver (userspace/cli/cli.c:20-182) on menus whose nodes all use the default
    tokenizer. */
module Cli {
  import opened Options

  /** struct menu_node: name, mask words before the terminating zero, submenu, and whether it runs. */
  datatype Node = Node(name: string, mask: seq<bv32>, subtree: Option<seq<Node>>, runs: bool)

  const MAX_MATCHES: nat := 128
  const MAX_DEPTH: nat := 64

  // ----- Tokens -------------------------------------------------------------

  predicate IsSpace(c: char) { c == ' ' || c == '\t' }

  /** strspn over whitespace. */
  function Spaces(s: string): (k: nat)
    ensures k <= |s| && (forall i | 0 <= i < k :: IsSpace(s[i])) && (k < |s| ==> !IsSpace(s[k]))
  {
    if s == "" || !IsSpace(s[0]) then 0 else 1 + Spaces(s[1..])
  }

  /** strcspn up to whitespace. */
  function TokenLength(s: string): (k: nat)
    ensures k <= |s| && (forall i | 0 <= i < k :: !IsSpace(s[i])) && (k < |s| ==> IsSpace(s[k]))
  {
    if s == "" || IsSpace(s[0]) then 0 else 1 + TokenLength(s[1..])
  }

  function ToLower(c: char): char { if 'A' <= c <= 'Z' then c - 'A' + 'a' else c }

  function Folded(s: string): (r: string)
    ensures |r| == |s| && forall i | 0 <= i < |s| :: r[i] == ToLower(s[i])
  {
    seq(|s|, i requires 0 <= i < |s| => ToLower(s[i]))
  }

  /** strncasecmp(token, name, length of token) == 0 */
  predicate Abbreviates(token: string, name: string) {
    |token| <= |name| && Folded(token) == Folded(name[..|token|])
  }

  predicate Visible(mask: seq<bv32>, filter: bv32) {
    forall i | 0 <= i < |mask| :: mask[i] & filter != 0
  }

  predicate Hits(n: Node, token: string, filter: bv32) { Visible(n.mask, filter) && Abbreviates(token, n.name) }

  // ----- Which node a token stands for --------------------------------------

  /** The first `room` matches. */
  function Matches(tree: seq<Node>, token: string, filter: bv32, room: nat): seq<Node> {
    if tree == [] || room == 0 then []
    else if Hits(tree[0], token, filter) then [tree[0]] + Matches(tree[1..], token, filter, room - 1)
    else Matches(tree[1..], token, filter, room)
  }

  /** The last match of the token's own length. */
  function Exact(ms: seq<Node>, token: string): (r: Option<Node>)
    ensures r.Some? ==> r.value in ms && |r.value.name| == |token|
    ensures r.None? ==> forall n | n in ms :: |n.name| != |token|
  {
    if ms == [] then None
    else
      var rest := Exact(ms[1..], token);
      if rest.Some? then rest else if |ms[0].name| == |token| then Some(ms[0]) else None
  }

  /** Node i is the last one whose name has the length given. */
  predicate LastOfLength(ms: seq<Node>, i: nat, len: nat) {
    i < |ms| && |ms[i].name| == len && forall j | i < j < |ms| :: |ms[j].name| != len
  }

  lemma {:induction false} ExactIsLast(ms: seq<Node>, token: string, i: nat)
    requires LastOfLength(ms, i, |token|)
    ensures Exact(ms, token) == Some(ms[i])
  {
    if i == 0 {
      assert forall n | n in ms[1..] :: |n.name| != |token|;
    } else {
      assert forall j | i - 1 < j < |ms[1..]| :: ms[1..][j] == ms[j + 1];
      ExactIsLast(ms[1..], token, i - 1);
    }
  }

  datatype Choice = Nobody | One(node: Node) | Several

  function Choose(tree: seq<Node>, token: string, filter: bv32): Choice {
    var ms := Matches(tree, token, filter, MAX_MATCHES);
    match Exact(ms, token)
    case Some(n) => One(n)
    case None => if |ms| == 0 then Nobody else if |ms| == 1 then One(ms[0]) else Several
  }

  // ----- How much of a token is right ---------------------------------------

  /** Some node, filtered out or not, starts like this. */
  predicate Known(tree: seq<Node>, token: string) {
    exists i | 0 <= i < |tree| :: Abbreviates(token, tree[i].name)
  }

  /** The longest prefix shorter than k that some node starts with, or 0. */
  function OkLength(tree: seq<Node>, token: string, k: nat): (r: nat)
    requires 0 < k <= |token|
    ensures r < k && (r > 0 ==> Known(tree, token[..r]))
    ensures forall i: nat | r < i < k :: !Known(tree, token[..i])
  {
    if k == 1 then 0 else if Known(tree, token[..k - 1]) then k - 1 else OkLength(tree, token, k - 1)
  }

  // ----- Resolving a line ---------------------------------------------------

  datatype Outcome =
    | Resolved(path: seq<Node>, tokens: seq<string>)
    | Ambiguous
    | Invalid(offset: nat)
    | TooDeep

  /** What the first token of the rest of a line comes to: an end, or a node, the token itself, the
      place behind it, and whether there is more to read from there. */
  datatype Step = Stop(outcome: Outcome) | Next(node: Node, token: string, offset: nat, more: bool)

  function FirstStep(menu: Node, s: string, filter: bv32, argc: nat): (step: Step)
    ensures step.Next? ==> 0 < step.offset <= |s| && (step.more <==> step.offset < |s|)
    ensures step.Stop? && step.outcome.Resolved? ==> step.outcome == Resolved([], [])
  {
    var skip := Spaces(s);
    var len := TokenLength(s[skip..]);
    var token := s[skip..][..len];
    if argc >= MAX_DEPTH then Stop(TooDeep)
    else if skip == |s| then Stop(Resolved([], []))
    else if menu.subtree.None? then Stop(Invalid(skip))
    else
      match Choose(menu.subtree.value, token, filter)
      case Several => Stop(Ambiguous)
      case Nobody => Stop(Invalid(skip + OkLength(menu.subtree.value, token, len)))
      case One(n) => Next(n, token, skip + len, skip + len < |s|)
  }

  /** What cli_exec makes of the rest `s` of a line, `menu` having been reached with `argc` tokens. */
  function Resolve(menu: Node, s: string, filter: bv32, argc: nat): Outcome
    decreases |s|
  {
    match FirstStep(menu, s, filter, argc)
    case Stop(outcome) => outcome
    case Next(n, token, k, more) =>
      if more then After(n, token, k, Resolve(n, s[k..], filter, argc + 1)) else Resolved([n], [token])
  }

  function After(n: Node, token: string, offset: nat, rest: Outcome): Outcome {
    match rest
    case Resolved(path, tokens) => Resolved([n] + path, [token] + tokens)
    case Invalid(k) => Invalid(offset + k)
    case Ambiguous => Ambiguous
    case TooDeep => TooDeep
  }

  // ----- Abbreviation is sound ----------------------------------------------

  lemma FoldedPrefix(s: string, k: nat)
    requires k <= |s|
    ensures Folded(s)[..k] == Folded(s[..k])
  {
  }

  /** What abbreviates an abbreviated name, its length not being less, is abbreviated as well. */
  lemma AbbreviatesThrough(token: string, name: string, other: string)
    requires Abbreviates(token, name) && Abbreviates(name, other)
    ensures Abbreviates(token, other)
  {
    FoldedPrefix(name, |token|);
    FoldedPrefix(other[..|name|], |token|);
    assert other[..|name|][..|token|] == other[..|token|];
  }

  lemma {:induction false} NoMatches(tree: seq<Node>, token: string, name: string, filter: bv32, room: nat)
    requires Abbreviates(token, name) && Matches(tree, token, filter, room) == [] && room > 0
    ensures Matches(tree, name, filter, room) == []
  {
    if tree != [] {
      if Hits(tree[0], name, filter) {
        AbbreviatesThrough(token, name, tree[0].name);
      }
      NoMatches(tree[1..], token, name, filter, room);
    }
  }

  /** A token with one match: the match is also the only one of its full name. */
  lemma {:induction false} OneMatch(tree: seq<Node>, token: string, n: Node, filter: bv32, room: nat)
    requires Matches(tree, token, filter, room) == [n] && room > 1
    ensures Abbreviates(token, n.name)
    ensures Matches(tree, n.name, filter, room) == [n]
  {
    if Hits(tree[0], token, filter) {
      var rest := Matches(tree[1..], token, filter, room - 1);
      assert ([tree[0]] + rest)[0] == tree[0] && |[tree[0]] + rest| == 1 + |rest|;
      NoMatches(tree[1..], token, n.name, filter, room - 1);
      assert n.name[..|n.name|] == n.name;
    } else {
      OneMatch(tree[1..], token, n, filter, room);
      if Hits(tree[0], n.name, filter) {
        AbbreviatesThrough(token, n.name, tree[0].name);
      }
    }
  }

  /** Only upper and lower case make a difference between tokens of one length that match. */
  lemma {:induction false} SameMatches(tree: seq<Node>, a: string, b: string, filter: bv32, room: nat)
    requires Folded(a) == Folded(b)
    ensures Matches(tree, a, filter, room) == Matches(tree, b, filter, room)
  {
    if tree != [] {
      assert |Folded(a)| == |Folded(b)|;
      SameMatches(tree[1..], a, b, filter, room);
      if room > 0 {
        SameMatches(tree[1..], a, b, filter, room - 1);
      }
    }
  }

  lemma {:induction false} SameExact(ms: seq<Node>, a: string, b: string)
    requires |a| == |b|
    ensures Exact(ms, a) == Exact(ms, b)
  {
    if ms != [] {
      SameExact(ms[1..], a, b);
    }
  }

  lemma {:induction false} MatchesHit(tree: seq<Node>, token: string, filter: bv32, room: nat, n: Node)
    requires n in Matches(tree, token, filter, room)
    ensures n in tree && Hits(n, token, filter)
  {
    if Hits(tree[0], token, filter) {
      if n != tree[0] {
        MatchesHit(tree[1..], token, filter, room - 1, n);
      }
    } else {
      MatchesHit(tree[1..], token, filter, room, n);
    }
  }

  /** The full name of the node that a token stands for stands for the same node. */
  lemma FullNameChooses(tree: seq<Node>, token: string, filter: bv32, n: Node)
    requires Choose(tree, token, filter) == One(n)
    ensures Choose(tree, n.name, filter) == One(n) && n in tree
  {
    var ms := Matches(tree, token, filter, MAX_MATCHES);
    assert n in ms;
    MatchesHit(tree, token, filter, MAX_MATCHES, n);
    if Exact(ms, token).Some? {
      assert n.name[..|token|] == n.name;
      SameMatches(tree, token, n.name, filter, MAX_MATCHES);
      SameExact(ms, token, n.name);
    } else {
      assert ms == [n];
      OneMatch(tree, token, n, filter, MAX_MATCHES);
    }
  }

  predicate PlainName(name: string) {
    name != "" && forall i | 0 <= i < |name| :: !IsSpace(name[i])
  }

  predicate PlainNames(path: seq<Node>) {
    forall i | 0 <= i < |path| :: PlainName(path[i].name)
  }

  /** The line with every token written out. */
  function InFull(path: seq<Node>): string {
    if path == [] then "" else " " + path[0].name + InFull(path[1..])
  }

  function Names(path: seq<Node>): (r: seq<string>)
    ensures |r| == |path|
  {
    if path == [] then [] else [path[0].name] + Names(path[1..])
  }

  lemma {:induction false} TokenLengthIs(s: string, k: nat)
    requires k <= |s| && (forall i | 0 <= i < k :: !IsSpace(s[i])) && (k < |s| ==> IsSpace(s[k]))
    ensures TokenLength(s) == k
  {
    if k > 0 {
      TokenLengthIs(s[1..], k - 1);
    }
  }

  /** The first token of a written out line. */
  lemma FirstToken(n: Node, rest: seq<Node>)
    requires PlainName(n.name)
    ensures var s := " " + n.name + InFull(rest);
            && Spaces(s) == 1 && TokenLength(s[1..]) == |n.name|
            && s[1..][..|n.name|] == n.name && s[1 + |n.name|..] == InFull(rest)
  {
    var s := " " + n.name + InFull(rest);
    assert s[1..] == n.name + InFull(rest);
    assert Spaces(s[1..]) == 0;
    TokenLengthIs(s[1..], |n.name|);
  }

  /** The step on a written out line. */
  lemma FirstStepInFull(menu: Node, n: Node, rest: seq<Node>, filter: bv32, argc: nat)
    requires PlainName(n.name) && argc < MAX_DEPTH && menu.subtree.Some?
    requires Choose(menu.subtree.value, n.name, filter) == One(n)
    ensures FirstStep(menu, " " + n.name + InFull(rest), filter, argc)
            == Next(n, n.name, 1 + |n.name|, rest != [])
  {
    FirstToken(n, rest);
    assert |InFull(rest)| > 0 <==> rest != [];
  }

  /** The path written out resolves to the path. */
  predicate ResolvesInFull(menu: Node, path: seq<Node>, filter: bv32, argc: nat) {
    Resolve(menu, InFull(path), filter, argc) == Resolved(path, Names(path))
  }

  lemma OneMore(menu: Node, n: Node, rest: seq<Node>, filter: bv32, argc: nat)
    requires PlainName(n.name) && argc < MAX_DEPTH && menu.subtree.Some?
    requires Choose(menu.subtree.value, n.name, filter) == One(n)
    requires rest == [] || ResolvesInFull(n, rest, filter, argc + 1)
    ensures ResolvesInFull(menu, [n] + rest, filter, argc)
  {
    NamesFirst(n, rest);
    FirstToken(n, rest);
    FirstStepInFull(menu, n, rest, filter, argc);
    assert rest == [] ==> [n] + rest == [n] && [n.name] + Names(rest) == [n.name];
  }

  lemma StepInFull(menu: Node, s: string, filter: bv32, argc: nat)
    requires FirstStep(menu, s, filter, argc).Next?
    ensures argc < MAX_DEPTH && menu.subtree.Some?
    ensures var n := FirstStep(menu, s, filter, argc).node;
            Choose(menu.subtree.value, n.name, filter) == One(n)
  {
    var token := s[Spaces(s)..][..TokenLength(s[Spaces(s)..])];
    FullNameChooses(menu.subtree.value, token, filter, FirstStep(menu, s, filter, argc).node);
  }

  /** Whatever a line resolves to, the line with every token replaced by the full name of its node
      resolves to the same path. */
  lemma {:induction false} AbbreviationIsSound(menu: Node, s: string, filter: bv32, argc: nat)
    requires Resolve(menu, s, filter, argc).Resolved? && PlainNames(Resolve(menu, s, filter, argc).path)
    ensures var path := Resolve(menu, s, filter, argc).path;
            path != [] ==> ResolvesInFull(menu, path, filter, argc)
    decreases |s|
  {
    var path := Resolve(menu, s, filter, argc).path;
    match FirstStep(menu, s, filter, argc)
    case Stop(_) =>
    case Next(n, _, k, more) =>
      var rest := path[1..];
      assert path == [n] + rest;
      assert PlainName(path[0].name) && forall i | 0 <= i < |rest| :: rest[i] == path[i + 1];
      StepInFull(menu, s, filter, argc);
      if more {
        AbbreviationIsSound(n, s[k..], filter, argc + 1);
      }
      OneMore(menu, n, rest, filter, argc);
  }

  lemma NamesFirst(n: Node, rest: seq<Node>)
    ensures Names([n] + rest) == [n.name] + Names(rest)
    ensures InFull([n] + rest) == " " + n.name + InFull(rest)
  {
    assert ([n] + rest)[1..] == rest;
  }

  // ----- The tokenizer and the resolver, in place ---------------------------

  /** struct tokenize_out, without the partial match. */
  datatype TokenizeOut = TokenizeOut(offset: nat, len: nat, okLen: nat, matches: seq<Node>, exact: Option<Node>)

  method Strspn(s: string) returns (k: nat)
    ensures k == Spaces(s)
  {
    k := 0;
    assert s[0..] == s;
    while k < |s| && IsSpace(s[k])
      invariant k <= |s| && Spaces(s) == k + Spaces(s[k..])
    {
      assert s[k..][1..] == s[k + 1..];
      k := k + 1;
    }
  }

  method Strcspn(s: string) returns (k: nat)
    ensures k == TokenLength(s)
  {
    k := 0;
    assert s[0..] == s;
    while k < |s| && !IsSpace(s[k])
      invariant k <= |s| && TokenLength(s) == k + TokenLength(s[k..])
    {
      assert s[k..][1..] == s[k + 1..];
      k := k + 1;
    }
  }

  /** cli_next_token: whitespace is skipped and a token measured, unless there is none. */
  method CliNextToken(buf: string) returns (out: TokenizeOut, none: bool)
    ensures none <==> Spaces(buf) == |buf|
    ensures out == TokenizeOut(Spaces(buf), if none then 0 else TokenLength(buf[Spaces(buf)..]), 0, [], None)
  {
    var offset := Strspn(buf);
    if offset == |buf| {
      return TokenizeOut(offset, 0, 0, [], None), true;
    }
    var len := Strcspn(buf[offset..]);
    return TokenizeOut(offset, len, 0, [], None), false;
  }

  /** The lookup loop of cli_tokenize. */
  method Lookup(tree: seq<Node>, token: string, filter: bv32) returns (matches: seq<Node>, exact: Option<Node>)
    ensures matches == Matches(tree, token, filter, MAX_MATCHES) && exact == Exact(matches, token)
  {
    matches, exact := [], None;
    var i := 0;
    assert tree[0..] == tree;
    while i < |tree| && |matches| < MAX_MATCHES
      invariant i <= |tree| && |matches| <= MAX_MATCHES
      invariant Matches(tree, token, filter, MAX_MATCHES)
                == matches + Matches(tree[i..], token, filter, MAX_MATCHES - |matches|)
      invariant exact == Exact(matches, token)
    {
      assert tree[i..][1..] == tree[i + 1..];
      if Hits(tree[i], token, filter) {
        MatchesStep(matches, tree[i], Matches(tree[i + 1..], token, filter, MAX_MATCHES - |matches| - 1));
        ExactOfMore(matches, tree[i], token);
        matches := matches + [tree[i]];
        if |token| == |tree[i].name| {
          exact := Some(tree[i]);
        }
      }
      i := i + 1;
    }
    assert matches + [] == matches;
  }

  lemma MatchesStep(ms: seq<Node>, n: Node, rest: seq<Node>)
    ensures ms + ([n] + rest) == (ms + [n]) + rest
  {
  }

  lemma {:induction false} ExactOfMore(ms: seq<Node>, n: Node, token: string)
    ensures Exact(ms + [n], token) == if |n.name| == |token| then Some(n) else Exact(ms, token)
  {
    if ms == [] {
      assert ms + [n] == [n] && [n][1..] == [];
    } else {
      ExactOfMore(ms[1..], n, token);
      assert (ms + [n])[1..] == ms[1..] + [n];
    }
  }

  /** Is there a node, filtered out or not, that starts with the token? */
  method IsKnown(tree: seq<Node>, token: string) returns (known: bool)
    ensures known <==> Known(tree, token)
  {
    for i := 0 to |tree|
      invariant forall j | 0 <= j < i :: !Abbreviates(token, tree[j].name)
    {
      if Abbreviates(token, tree[i].name) {
        return true;
      }
    }
    return false;
  }

  /** The loop that cuts a token without matches down to what is right about it. */
  method CutDown(tree: seq<Node>, token: string) returns (okLen: nat)
    requires token != ""
    ensures okLen == OkLength(tree, token, |token|)
  {
    okLen := |token|;
    var found := false;
    while okLen > 0 && !found
      invariant okLen <= |token|
      invariant !found ==> okLen > 0 && OkLength(tree, token, okLen) == OkLength(tree, token, |token|)
      invariant found ==> okLen == OkLength(tree, token, |token|)
      decreases !found, okLen
    {
      okLen := okLen - 1;
      if okLen == 0 {
        return;
      }
      found := IsKnown(tree, token[..okLen]);
    }
  }

  /** cli_tokenize. The flag says whether whitespace follows the token. */
  method CliTokenize(buf: string, tree: Option<seq<Node>>, filter: bv32) returns (out: TokenizeOut, more: bool)
    ensures out.offset == Spaces(buf)
    ensures Spaces(buf) == |buf| ==> out.len == 0 && out.matches == [] && out.exact == None && !more
    ensures Spaces(buf) < |buf| ==>
              && out.len == TokenLength(buf[out.offset..])
              && (more <==> out.offset + out.len < |buf|)
              && (tree.None? ==> out.matches == [] && out.exact == None && out.okLen == 0)
              && (tree.Some? ==>
                    var token := buf[out.offset..][..out.len];
                    && out.matches == Matches(tree.value, token, filter, MAX_MATCHES)
                    && out.exact == Exact(out.matches, token)
                    && (out.matches == [] ==> out.okLen == OkLength(tree.value, token, out.len)))
  {
    var none;
    out, none := CliNextToken(buf);
    if none {
      return out, false;
    }
    more := out.offset + out.len < |buf| && IsSpace(buf[out.offset + out.len]);
    if tree.None? {
      return;
    }
    var token := buf[out.offset..][..out.len];
    var matches, exact := Lookup(tree.value, token, filter);
    out := out.(matches := matches, exact := exact, okLen := out.len);
    if |matches| == 0 {
      var okLen := CutDown(tree.value, token);
      out := out.(okLen := okLen);
    }
  }

  /** The outcome of a line, given its first step and the outcome of what is left. */
  function Whole(step: Step, rest: Outcome): Outcome {
    match step
    case Stop(outcome) => outcome
    case Next(n, token, k, more) => if more then After(n, token, k, rest) else Resolved([n], [token])
  }

  /** A step within a line of this length; the end of a line adds nothing to the path. */
  predicate Within(step: Step, length: nat) {
    match step
    case Stop(outcome) => outcome.Resolved? ==> outcome == Resolved([], [])
    case Next(_, _, k, _) => 0 < k <= length
  }

  /** The body of the loop of cli_exec. */
  method ExecStep(menu: Node, s: string, filter: bv32, argc: nat) returns (step: Step)
    ensures step == FirstStep(menu, s, filter, argc)
  {
    if argc >= MAX_DEPTH {
      return Stop(TooDeep);
    }
    var out, more := CliTokenize(s, menu.subtree, filter);
    var matches := if out.exact.Some? then [out.exact.value] else out.matches;
    if |matches| > 1 {
      return Stop(Ambiguous);
    }
    if |matches| == 1 {
      return Next(matches[0], s[out.offset..][..out.len], out.offset + out.len, more);
    }
    if out.len == 0 {
      return Stop(Resolved([], []));
    }
    return Stop(Invalid(out.offset + out.okLen));
  }

  method NextStep(menu: Node, s: string, filter: bv32, argc: nat) returns (step: Step, ghost rest: Outcome)
    ensures Whole(step, rest) == Resolve(menu, s, filter, argc) && Within(step, |s|)
    ensures step.Next? && step.more ==> rest == Resolve(step.node, s[step.offset..], filter, argc + 1)
  {
    step := ExecStep(menu, s, filter, argc);
    rest := if step.Next? then Resolve(step.node, s[step.offset..], filter, argc + 1) else TooDeep;
  }

  /** The menu at the end of a path. */
  function Reached(root: Node, path: seq<Node>): Node { if path == [] then root else path[|path| - 1] }

  lemma ReachedMore(root: Node, path: seq<Node>, n: Node)
    ensures Reached(root, path + [n]) == n
  {
  }

  /** The last step: the outcome of the whole line, and the menu reached. */
  method LastStep(root: Node, nodes: seq<Node>, tokens: seq<string>, at: nat, step: Step, ghost rest: Outcome)
    returns (result: Outcome, menu: Node)
    requires step.Next? ==> !step.more
    requires step.Stop? && step.outcome.Resolved? ==> step.outcome == Resolved([], [])
    ensures result == Before(nodes, tokens, at, Whole(step, rest))
    ensures result.Resolved? ==> menu == Reached(root, result.path)
  {
    menu := if nodes == [] then root else nodes[|nodes| - 1];
    match step {
      case Stop(outcome) =>
        BeforeStop(nodes, tokens, at, outcome);
        result := Before(nodes, tokens, at, outcome);
      case Next(n, token, k, _) =>
        menu := n;
        ReachedMore(root, nodes, n);
        result := Resolved(nodes + [n], tokens + [token]);
    }
  }

  /** cli_exec, up to the call of the node's handler: the menu reached says whether there is one. */
  method CliExec(root: Node, buf: string, filter: bv32) returns (result: Outcome, menu: Node)
    ensures result == Resolve(root, buf, filter, 0)
    ensures result.Resolved? ==> menu == Reached(root, result.path)
  {
    menu := root;
    var nodes: seq<Node>, tokens: seq<string>, argc: nat, cmd, at: nat := [], [], 0, buf, 0;
    ghost var answer := Resolve(root, buf, filter, 0);
    BeforeNothing(answer);
    var step;
    ghost var rest;
    step, rest := NextStep(menu, cmd, filter, argc);
    while step.Next? && step.more
      invariant argc == |nodes| && Within(step, |cmd|)
      invariant step.Next? && step.more ==> rest == Resolve(step.node, cmd[step.offset..], filter, argc + 1)
      invariant Before(nodes, tokens, at, Whole(step, rest)) == answer
      decreases |cmd|
    {
      BeforeAfter(nodes, tokens, at, step.node, step.token, step.offset, rest);
      nodes, tokens := nodes + [step.node], tokens + [step.token];
      argc, menu := argc + 1, step.node;
      cmd, at := cmd[step.offset..], at + step.offset;
      step, rest := NextStep(menu, cmd, filter, argc);
    }
    result, menu := LastStep(root, nodes, tokens, at, step, rest);
  }

  lemma BeforeStop(nodes: seq<Node>, tokens: seq<string>, cmd: nat, outcome: Outcome)
    requires outcome.Resolved? ==> outcome == Resolved([], [])
    ensures outcome.Resolved? ==> Before(nodes, tokens, cmd, outcome) == Resolved(nodes, tokens)
    ensures Before(nodes, tokens, cmd, outcome).Resolved? ==> outcome.Resolved?
  {
    assert nodes + [] == nodes && tokens + [] == tokens;
  }

  /** The outcome of a line of which some tokens have been read. */
  function Before(nodes: seq<Node>, tokens: seq<string>, cmd: nat, rest: Outcome): Outcome {
    match rest
    case Resolved(path, more) => Resolved(nodes + path, tokens + more)
    case Invalid(k) => Invalid(cmd + k)
    case Ambiguous => Ambiguous
    case TooDeep => TooDeep
  }

  lemma BeforeNothing(o: Outcome)
    ensures Before([], [], 0, o) == o
  {
    if o.Resolved? {
      assert [] + o.path == o.path && [] + o.tokens == o.tokens;
    }
  }

  lemma BeforeAfter(nodes: seq<Node>, tokens: seq<string>, cmd: nat, n: Node, token: string, offset: nat, rest: Outcome)
    ensures Before(nodes, tokens, cmd, After(n, token, offset, rest))
            == Before(nodes + [n], tokens + [token], cmd + offset, rest)
  {
    if rest.Resolved? {
      assert nodes + ([n] + rest.path) == (nodes + [n]) + rest.path;
      assert tokens + ([token] + rest.tokens) == (tokens + [token]) + rest.tokens;
    }
  }
}
