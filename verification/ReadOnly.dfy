/** The read-only policy for report statements (internal/reporting/readonly.go), on the tokens of a statement. */
module ReadOnly {
  import opened Options

  type Token = string
  type Tokens = seq<Token>

  // ---------------------------------------------------------------------------------------------------------
  // Brackets
  // ---------------------------------------------------------------------------------------------------------

  predicate IsParen(t: Token) { t == "(" || t == ")" }

  /** Balanced brackets, by their grammar: nothing, a token and a balanced rest, or a group and a balanced rest. */
  ghost predicate Balanced(s: Tokens)
    decreases |s|
  {
    || s == []
    || (!IsParen(s[0]) && Balanced(s[1..]))
    || (s[0] == "(" && exists k | 1 <= k < |s| :: s[k] == ")" && Balanced(s[1..k]) && Balanced(s[k + 1..]))
  }

  function Shift(t: Token): int { if t == "(" then 1 else if t == ")" then -1 else 0 }

  function Depth(s: Tokens): int {
    if s == [] then 0 else Depth(s[..|s| - 1]) + Shift(s[|s| - 1])
  }

  /** Balanced brackets, by counting. */
  ghost predicate Level(s: Tokens) {
    Depth(s) == 0 && forall n | 0 <= n <= |s| :: Depth(s[..n]) >= 0
  }

  /** What stands between two places. */
  function Inner(s: Tokens, i: nat, j: nat): (r: Tokens)
    requires i < j <= |s|
    ensures |r| == j - i - 1
  {
    s[i + 1..j]
  }

  lemma {:induction false} DepthConcat(a: Tokens, b: Tokens)
    ensures Depth(a + b) == Depth(a) + Depth(b)
  {
    if b == [] {
      assert a + b == a;
    } else {
      assert (a + b)[..|a + b| - 1] == a + b[..|b| - 1];
      DepthConcat(a, b[..|b| - 1]);
    }
  }

  lemma DepthOfOne(t: Token)
    ensures Depth([t]) == Shift(t)
  {
    assert Depth([t]) == Depth([t][..0]) + Shift(t);
  }

  lemma LevelConcat(a: Tokens, b: Tokens)
    requires Level(a) && Level(b)
    ensures Level(a + b)
  {
    DepthConcat(a, b);
    forall n | 0 <= n <= |a + b| ensures Depth((a + b)[..n]) >= 0 {
      if n <= |a| {
        assert (a + b)[..n] == a[..n];
      } else {
        assert (a + b)[..n] == a + b[..n - |a|];
        DepthConcat(a, b[..n - |a|]);
      }
    }
  }

  lemma LevelGroup(s: Tokens)
    requires Level(s)
    ensures Level(["("] + s + [")"])
  {
    var g := ["("] + s + [")"];
    DepthOfOne("(");
    DepthConcat(["("] + s, [")"]);
    DepthConcat(["("], s);
    DepthOfOne(")");
    forall n | 0 <= n <= |g| ensures Depth(g[..n]) >= 0 {
      if n == |g| {
        assert g[..n] == g;
      } else if n > 0 {
        assert g[..n] == ["("] + s[..n - 1];
        DepthConcat(["("], s[..n - 1]);
      }
    }
  }

  lemma LevelOfOne(t: Token)
    requires !IsParen(t)
    ensures Level([t]) && Level([])
  {
    DepthOfOne(t);
    assert forall n | 0 <= n <= 1 :: [t][..n] == if n == 0 then [] else [t];
  }

  lemma {:induction false} BalancedIsLevel(s: Tokens)
    requires Balanced(s)
    ensures Level(s)
    decreases |s|
  {
    hide Level;
    if s == [] {
      LevelOfOne("");
    } else {
      if !IsParen(s[0]) {
        BalancedIsLevel(s[1..]);
        LevelOfOne(s[0]);
        LevelConcat([s[0]], s[1..]);
        assert s == [s[0]] + s[1..];
      } else {
        var k :| 1 <= k < |s| && s[k] == ")" && Balanced(s[1..k]) && Balanced(s[k + 1..]);
        hide Balanced;
        BalancedIsLevel(s[1..k]);
        BalancedIsLevel(s[k + 1..]);
        GroupThenRest(s, k);
      }
    }
  }

  lemma GroupThenRest(s: Tokens, k: nat)
    requires 1 <= k < |s| && s[0] == "(" && s[k] == ")" && Level(s[1..k]) && Level(s[k + 1..])
    ensures Level(s)
  {
    hide Level;
    var group, rest := s[1..k], s[k + 1..];
    LevelGroup(group);
    LevelConcat(["("] + group + [")"], rest);
    assert s == (["("] + group + [")"]) + rest;
  }

  /** Where the bracket opened at `start` is closed: the first place where the count comes back to zero. */
  function Find(s: Tokens, i: nat, depth: int): Option<nat>
    decreases |s| - i
  {
    if i >= |s| then None
    else if s[i] == ")" && depth == 1 then Some(i)
    else Find(s, i + 1, depth + Shift(s[i]))
  }

  /** What a search has passed, one level deep, when it comes to `i`. */
  lemma {:induction false} FindIsFirst(s: Tokens, start: nat, i: nat)
    requires start < i <= |s| && s[start] == "("
    requires forall n | start < n <= i :: Depth(Inner(s, start, n)) >= 0
    ensures match Find(s, i, 1 + Depth(Inner(s, start, i)))
            case Some(j) =>
              i <= j < |s| && s[j] == ")" && Level(Inner(s, start, j))
              && (forall k | i <= k < |s| && s[k] == ")" && Level(Inner(s, start, k)) :: k == j)
            case None => forall k | i <= k < |s| && s[k] == ")" :: !Level(Inner(s, start, k))
    decreases |s| - i
  {
    hide Level;
    if i < |s| {
      if s[i] == ")" && Depth(Inner(s, start, i)) == 0 {
        ClosedHere(s, start, i);
      } else {
        DepthInside(s, start, i);
        if s[i] == ")" { UnevenIsNotLevel(Inner(s, start, i)); }
        hide Depth;
        FindIsFirst(s, start, i + 1);
      }
    }
  }

  lemma DepthInside(s: Tokens, start: nat, i: nat)
    requires start < i < |s|
    ensures Depth(Inner(s, start, i + 1)) == Depth(Inner(s, start, i)) + Shift(s[i])
  {
    var more := Inner(s, start, i + 1);
    assert more[..|more| - 1] == Inner(s, start, i);
  }

  lemma ClosedHere(s: Tokens, start: nat, i: nat)
    requires start < i < |s| && s[i] == ")" && Depth(Inner(s, start, i)) == 0
    requires forall n | start < n <= i :: Depth(Inner(s, start, n)) >= 0
    ensures Level(Inner(s, start, i))
    ensures forall k | i < k < |s| && s[k] == ")" :: !Level(Inner(s, start, k))
  {
    var inner, more := Inner(s, start, i), Inner(s, start, i + 1);
    DepthInside(s, start, i);
    hide Depth;
    forall n | 0 <= n <= |inner| ensures Depth(inner[..n]) >= 0 { assert inner[..n] == Inner(s, start, start + 1 + n); }
    forall k | i < k < |s| && s[k] == ")" ensures !Level(Inner(s, start, k)) {
      assert Inner(s, start, k)[..|more|] == more;
      BelowIsNotLevel(Inner(s, start, k), |more|);
    }
  }

  lemma BelowIsNotLevel(s: Tokens, n: nat)
    requires n <= |s| && Depth(s[..n]) < 0
    ensures !Level(s)
  {
  }

  lemma UnevenIsNotLevel(s: Tokens)
    requires Depth(s) != 0
    ensures !Level(s)
  {
  }

  lemma {:induction false} LevelIsBalanced(s: Tokens)
    requires Level(s)
    ensures Balanced(s)
    decreases |s|
  {
    if s != [] {
      assert s[..1] == [s[0]];
      DepthOfOne(s[0]);
      assert Depth(s[..1]) >= 0;
      if s[0] == "(" {
        assert Inner(s, 0, 1) == [];
        FindIsFirst(s, 0, 1);
        var j := Find(s, 1, 1);
        if j.None? {
          NeverClosed(s);
        } else {
          var k := j.value;
          LevelRest(s, k);
          LevelIsBalanced(s[1..k]);
          LevelIsBalanced(s[k + 1..]);
        }
      } else {
        LevelTail(s);
        LevelIsBalanced(s[1..]);
      }
    }
  }

  lemma LevelTail(s: Tokens)
    requires Level(s) && s != [] && Shift(s[0]) == 0
    ensures Level(s[1..])
  {
    assert s == [s[0]] + s[1..];
    DepthOfOne(s[0]);
    DepthConcat([s[0]], s[1..]);
    forall n | 0 <= n <= |s[1..]| ensures Depth(s[1..][..n]) >= 0 {
      assert s[..n + 1] == [s[0]] + s[1..][..n];
      DepthConcat([s[0]], s[1..][..n]);
    }
  }

  lemma LevelRest(s: Tokens, k: nat)
    requires Level(s) && 1 <= k < |s| && s[0] == "(" && s[k] == ")" && Level(s[1..k])
    ensures Level(s[k + 1..])
  {
    var g := s[..k + 1];
    assert g == ["("] + s[1..k] + [")"];
    LevelGroup(s[1..k]);
    var rest := s[k + 1..];
    assert s == g + rest;
    DepthConcat(g, rest);
    forall n | 0 <= n <= |rest| ensures Depth(rest[..n]) >= 0 {
      assert s[..k + 1 + n] == g + rest[..n];
      DepthConcat(g, rest[..n]);
    }
  }

  /** The first place where the count comes back to zero. */
  lemma FirstReturn(s: Tokens) returns (n: nat)
    requires Level(s) && s != [] && s[0] == "("
    ensures 1 <= n < |s| && Depth(s[..n + 1]) <= 0 && forall m | 1 <= m <= n :: Depth(s[..m]) > 0
  {
    hide Depth;
    n := 1;
    OpensDeeper(s);
    assert s[..|s|] == s;
    while Depth(s[..n + 1]) > 0
      invariant 1 <= n < |s|
      invariant forall m | 1 <= m <= n :: Depth(s[..m]) > 0
      decreases |s| - n
    {
      n := n + 1;
    }
  }

  lemma OpensDeeper(s: Tokens)
    requires s != [] && s[0] == "("
    ensures Depth(s[..1]) == 1
  {
    assert s[..1] == ["("];
    DepthOfOne("(");
  }

  /** A level text that opens a bracket closes it. */
  lemma NeverClosed(s: Tokens)
    requires Level(s) && s != [] && s[0] == "("
    ensures exists k | 1 <= k < |s| :: s[k] == ")" && Level(Inner(s, 0, k))
  {
    var n := FirstReturn(s);
    assert s[..n + 1][..n] == s[..n];
    var inner := Inner(s, 0, n);
    DepthOfOne("(");
    forall m | 0 <= m <= |inner| ensures Depth(s[..m + 1]) == 1 + Depth(inner[..m]) {
      assert s[..m + 1] == ["("] + inner[..m];
      DepthConcat(["("], inner[..m]);
    }
    assert inner[..|inner|] == inner;
    assert s[n] == ")" && Level(inner);
  }

  lemma BalancedIffLevel(s: Tokens)
    ensures Balanced(s) <==> Level(s)
  {
    if Balanced(s) { BalancedIsLevel(s); }
    if Level(s) { LevelIsBalanced(s); }
  }

  lemma EmptyIsLevel()
    ensures Depth([]) == 0
  {
  }

  /** The bracket at j closes the one at i. */
  ghost predicate Closes(s: Tokens, i: nat, j: nat) {
    i < j < |s| && s[i] == "(" && s[j] == ")" && Balanced(Inner(s, i, j))
  }

  ghost predicate Unclosed(s: Tokens, i: nat) {
    forall j: nat :: !Closes(s, i, j)
  }

  /** The search finds the matching bracket, the only one there is, or none if there is none. */
  lemma FindIsMatch(s: Tokens, start: nat)
    requires start < |s| && s[start] == "("
    ensures match Find(s, start, 0)
            case Some(j) => Closes(s, start, j) && forall k: nat | Closes(s, start, k) :: k == j
            case None => Unclosed(s, start)
  {
    hide Balanced, Level;
    assert Inner(s, start, start + 1) == [];
    EmptyIsLevel();
    FindIsFirst(s, start, start + 1);
    forall k | start < k < |s| ensures Balanced(Inner(s, start, k)) <==> Level(Inner(s, start, k)) {
      BalancedIffLevel(Inner(s, start, k));
    }
  }

  method ClosingParen(tokens: Tokens, start: nat) returns (end: int)
    requires start < |tokens| && tokens[start] == "("
    ensures end >= 0 ==> Closes(tokens, start, end) && forall k: nat | Closes(tokens, start, k) :: k == end
    ensures end < 0 ==> Unclosed(tokens, start)
  {
    FindIsMatch(tokens, start);
    var depth := 0;
    for i := start to |tokens|
      invariant Find(tokens, start, 0) == Find(tokens, i, depth)
    {
      if tokens[i] == "(" { depth := depth + 1; }
      if tokens[i] == ")" {
        depth := depth - 1;
        if depth == 0 { return i; }
      }
    }
    return -1;
  }

  // ---------------------------------------------------------------------------------------------------------
  // The grammar of a query
  // ---------------------------------------------------------------------------------------------------------

  /** Whether a token can name a common table expression: the pattern is not this model's. */
  type NameRule = Token -> bool

  /** SELECT and anything, or WITH, possibly RECURSIVE, and a list of common table expressions. */
  ghost predicate Query(isName: NameRule, s: Tokens)
    decreases |s|, 2
  {
    s != [] &&
    (|| s[0] == "SELECT"
     || (s[0] == "WITH" && |s| > 1 && s[1] == "RECURSIVE" && Ctes(isName, s[2..]))
     || (s[0] == "WITH" && |s| > 1 && s[1] != "RECURSIVE" && Ctes(isName, s[1..])))
  }

  /** A name, a column group if any, AS and a query in brackets; then a comma and more, or SELECT and anything. */
  ghost predicate Ctes(isName: NameRule, s: Tokens)
    decreases |s|, 1
  {
    exists k, e :: Cte(isName, s, k, e) && Continued(isName, s, e)
  }

  ghost predicate Continued(isName: NameRule, s: Tokens, e: int)
    requires 0 <= e && e + 1 < |s|
    decreases |s|, 0
  {
    s[e + 1] == "SELECT" || (s[e + 1] == "," && Ctes(isName, s[e + 2..]))
  }

  /** The expression's AS is at k and the bracket after it is closed at e. */
  ghost predicate Cte(isName: NameRule, s: Tokens, k: int, e: int)
    decreases |s|, 0
  {
    && 1 <= k && k + 1 < e && e + 1 < |s|
    && isName(s[0])
    && (k == 1 || Closes(s, 1, k - 1))
    && s[k] == "AS"
    && Closes(s, k + 1, e)
    && Query(isName, s[k + 2..e])
  }

  lemma ClosesOnce(s: Tokens, i: nat, j: nat, k: nat)
    requires Closes(s, i, j) && Closes(s, i, k)
    ensures j == k
  {
    FindIsMatch(s, i);
  }

  lemma ClosesLater(s: Tokens, n: nat, i: nat, j: nat)
    requires n <= |s|
    ensures Closes(s[n..], i, j) <==> Closes(s, n + i, n + j)
  {
    if i < j && n + j < |s| { assert Inner(s[n..], i, j) == Inner(s, n + i, n + j); }
  }

  /** A list has at most one reading of its first expression. */
  lemma OneReading(isName: NameRule, s: Tokens, k: int, e: int, k2: int, e2: int)
    requires Cte(isName, s, k2, e2)
    requires 1 <= k && (if |s| > 1 && s[1] == "(" then k > 1 && Closes(s, 1, k - 1) else k == 1)
    requires k + 1 < |s| && s[k + 1] == "(" ==> e >= 0 && Closes(s, k + 1, e)
    ensures k2 == k && e2 == e
  {
    hide Query, Balanced;
    if k2 > 1 { ClosesOnce(s, 1, k - 1, k2 - 1); }
    ClosesOnce(s, k + 1, e, e2);
  }

  lemma Reading(isName: NameRule, s: Tokens) returns (k: int, e: int)
    requires Ctes(isName, s)
    ensures Cte(isName, s, k, e) && Continued(isName, s, e)
  {
    k, e :| Cte(isName, s, k, e) && Continued(isName, s, e);
  }

  lemma ReadingIsCtes(isName: NameRule, s: Tokens, k: int, e: int)
    requires Cte(isName, s, k, e) && Continued(isName, s, e)
    ensures Ctes(isName, s)
  {
  }

  /** So the list is one exactly if that reading is right and what follows is. */
  lemma CtesByReading(isName: NameRule, s: Tokens, k: int, e: int)
    requires 1 <= k && (if |s| > 1 && s[1] == "(" then k > 1 && Closes(s, 1, k - 1) else k == 1)
    requires k + 1 < |s| && s[k + 1] == "(" ==> e >= 0 && Closes(s, k + 1, e)
    ensures Ctes(isName, s) <==>
      Cte(isName, s, k, e) && (s[e + 1] == "SELECT" || (s[e + 1] == "," && Ctes(isName, s[e + 2..])))
  {
    hide Query, Balanced, Closes, Ctes;
    if Ctes(isName, s) {
      var k2, e2 := Reading(isName, s);
      OneReading(isName, s, k, e, k2, e2);
    }
    if Cte(isName, s, k, e) && Continued(isName, s, e) { ReadingIsCtes(isName, s, k, e); }
  }

  /** Without a bracket that closes, or without AS and a query in brackets, there is no reading. */
  lemma NoReading(isName: NameRule, s: Tokens)
    requires s == [] || !isName(s[0]) || (|s| > 1 && s[1] == "(" && Unclosed(s, 1))
    ensures !Ctes(isName, s)
  {
    hide Query, Balanced, Ctes;
    if Ctes(isName, s) {
      var k, e := Reading(isName, s);
      assert false;
    }
  }

  /** The place of the AS of the expression that starts at `i`, if it has a name, a closed group if any, and AS (. */
  method FindAs(isName: NameRule, tokens: Tokens, i: nat) returns (as_: int)
    requires i < |tokens|
    ensures as_ < 0 ==> !Ctes(isName, tokens[i..])
    ensures as_ >= 0 ==>
      && i < as_ && as_ + 1 < |tokens| && isName(tokens[i]) && tokens[as_] == "AS" && tokens[as_ + 1] == "("
      && (if tokens[i + 1] == "(" then as_ > i + 1 && Closes(tokens[i..], 1, as_ - i - 1) else as_ == i + 1)
  {
    hide Query, Ctes, Cte, Balanced;
    var list := tokens[i..];
    if !isName(tokens[i]) {
      NoReading(isName, list);
      return -1;
    }
    as_ := i + 1;
    if as_ < |tokens| && tokens[as_] == "(" {
      var end := ClosingParen(tokens, as_);
      GroupEnd(tokens, i, end);
      if end < 0 {
        NoReading(isName, list);
        return -1;
      }
      as_ := end + 1;
    }
    if as_ + 1 >= |tokens| || tokens[as_] != "AS" || tokens[as_ + 1] != "(" {
      NoQuery(isName, list, as_ - i);
      return -1;
    }
  }

  /** The recogniser, which recurses into the brackets and loops over the list. */
  method ReadOnlyQuery(isName: NameRule, tokens: Tokens) returns (r: bool)
    ensures r <==> Query(isName, tokens)
    decreases |tokens|
  {
    if |tokens| == 0 { return false; }
    if tokens[0] == "SELECT" { return true; }
    if tokens[0] != "WITH" { return false; }
    var i := 1;
    if i < |tokens| && tokens[i] == "RECURSIVE" { i := i + 1; }
    NoReading(isName, []);
    hide Query, Ctes, Cte, Closes, Unclosed, Balanced;
    while i < |tokens|
      invariant 1 <= i <= |tokens|
      invariant Query(isName, tokens) <==> Ctes(isName, tokens[i..])
      decreases |tokens| - i
    {
      var as_ := FindAs(isName, tokens, i);
      if as_ < 0 { return false; }
      var end := ClosingParen(tokens, as_ + 1);
      QueryEnd(isName, tokens, i, as_, end);
      if end < 0 { return false; }
      var inner := ReadOnlyQuery(isName, tokens[as_ + 2..end]);
      if !inner { return false; }
      i := end + 1;
      if i < |tokens| && tokens[i] == "," {
        i := i + 1;
        continue;
      }
      return i < |tokens| && tokens[i] == "SELECT";
    }
    assert tokens[i..] == [];
    return false;
  }

  lemma GroupEnd(tokens: Tokens, i: nat, end: int)
    requires i + 1 < |tokens|
    ensures end >= 0 && Closes(tokens, i + 1, end) ==> end > i + 1 && Closes(tokens[i..], 1, end - i)
    ensures Unclosed(tokens, i + 1) ==> Unclosed(tokens[i..], 1)
  {
    forall k: nat ensures Closes(tokens[i..], 1, k) <==> Closes(tokens, i + 1, i + k) { ClosesLater(tokens, i, 1, k); }
    if end >= 0 && Closes(tokens, i + 1, end) { ClosesLater(tokens, i, 1, end - i); }
  }

  lemma NoQuery(isName: NameRule, s: Tokens, k: int)
    requires 1 <= k && (if |s| > 1 && s[1] == "(" then k > 1 && Closes(s, 1, k - 1) else k == 1)
    requires k + 1 >= |s| || s[k] != "AS" || s[k + 1] != "("
    ensures !Ctes(isName, s)
  {
    hide Query, Balanced, Ctes;
    if Ctes(isName, s) {
      var k2, e2 := Reading(isName, s);
      if k2 > 1 { ClosesOnce(s, 1, k - 1, k2 - 1); }
      assert false;
    }
  }

  /** What the list needs, once the brackets of its first query are found. */
  lemma QueryEnd(isName: NameRule, tokens: Tokens, i: nat, as_: nat, end: int)
    requires i < as_ && as_ + 1 < |tokens| && isName(tokens[i]) && tokens[as_] == "AS" && tokens[as_ + 1] == "("
    requires if tokens[i + 1] == "(" then as_ > i + 1 && Closes(tokens[i..], 1, as_ - i - 1) else as_ == i + 1
    requires end >= 0 ==> Closes(tokens, as_ + 1, end)
    requires end < 0 ==> Unclosed(tokens, as_ + 1)
    ensures end < 0 ==> !Ctes(isName, tokens[i..])
    ensures end >= 0 ==> as_ + 1 < end < |tokens|
    ensures end >= 0 ==>
      (Ctes(isName, tokens[i..]) <==>
         && end + 1 < |tokens|
         && Query(isName, tokens[as_ + 2..end])
         && (tokens[end + 1] == "SELECT" || (tokens[end + 1] == "," && Ctes(isName, tokens[end + 2..]))))
  {
    hide Balanced, Query, Ctes;
    var s, k := tokens[i..], as_ - i;
    if end >= 0 {
      var e := end - i;
      ClosesLater(tokens, i, k + 1, e);
      CtesByReading(isName, s, k, e);
      assert s[k + 2..e] == tokens[as_ + 2..end];
      assert end + 1 < |tokens| ==> s[e + 2..] == tokens[end + 2..];
    } else {
      var bracket: nat := k + 1;
      forall j: nat ensures !Closes(s, bracket, j) { ClosesLater(tokens, i, bracket, j); }
      NoBracket(isName, s, k);
    }
  }

  lemma NoBracket(isName: NameRule, s: Tokens, k: nat)
    requires 1 <= k && k + 1 < |s| && (if s[1] == "(" then k > 1 && Closes(s, 1, k - 1) else k == 1)
    requires Unclosed(s, k + 1)
    ensures !Ctes(isName, s)
  {
    hide Query, Balanced, Ctes;
    if Ctes(isName, s) {
      var k2, e2 := Reading(isName, s);
      if k2 > 1 { ClosesOnce(s, 1, k - 1, k2 - 1); }
      assert false;
    }
  }

  // ---------------------------------------------------------------------------------------------------------
  // The whole policy
  // ---------------------------------------------------------------------------------------------------------

  /** The scanner's tokens, and the decoded texts of quoted identifiers by their position. */
  datatype Scan = Scan(tokens: Tokens, quoted: map<nat, Token>, executableComment: bool)

  function FunctionName(scan: Scan, tokens: Tokens, i: nat): Token
    requires i < |tokens|
  {
    if i in scan.quoted then scan.quoted[i] else tokens[i]
  }

  predicate Harmless(scan: Scan, s: Tokens, i: nat)
    requires i < |s|
  {
    && s[i] != ";" && s[i] != ":=" && s[i] != "INTO"
    && !(s[i] == "FOR" && i + 1 < |s| && (s[i + 1] == "UPDATE" || s[i + 1] == "SHARE"))
    && !(s[i] == "LOCK" && i + 3 < |s| && s[i + 1..i + 4] == ["IN", "SHARE", "MODE"])
    && !(FunctionName(scan, s, i) in {"GET_LOCK", "RELEASE_LOCK", "RELEASE_ALL_LOCKS"} && i + 1 < |s| && s[i + 1] == "(")
    && !(FunctionName(scan, s, i) == "LAST_INSERT_ID" && i + 2 < |s| && s[i + 1] == "(" && s[i + 2] != ")")
  }

  function Statement(tokens: Tokens): Tokens {
    if tokens != [] && tokens[|tokens| - 1] == ";" then tokens[..|tokens| - 1] else tokens
  }

  lemma NotBalanced(s: Tokens, n: nat)
    requires n <= |s| && (Depth(s[..n]) < 0 || (n == |s| && Depth(s) != 0))
    ensures !Balanced(s)
  {
    BalancedIffLevel(s);
  }

  lemma CountedBalanced(s: Tokens)
    requires Depth(s) == 0 && forall n | 0 <= n <= |s| :: Depth(s[..n]) >= 0
    ensures Balanced(s)
  {
    BalancedIffLevel(s);
  }

  lemma DepthNext(s: Tokens, i: nat)
    requires i < |s|
    ensures Depth(s[..i + 1]) == Depth(s[..i]) + Shift(s[i])
  {
    assert s[..i + 1][..i] == s[..i];
  }

  /** One pass over the statement: forbidden tokens, and brackets counted. */
  method ScanTokens(scan: Scan, s: Tokens) returns (ok: bool)
    ensures ok <==> (forall i: nat | i < |s| :: Harmless(scan, s, i)) && Balanced(s)
  {
    hide Balanced, Harmless, Depth;
    var depth := 0;
    NothingYet(s);
    for i := 0 to |s|
      invariant depth == Depth(s[..i]) && forall n | 0 <= n <= i :: Depth(s[..n]) >= 0
      invariant forall k: nat | k < i :: Harmless(scan, s, k)
    {
      DepthNext(s, i);
      if s[i] == "(" { depth := depth + 1; }
      if s[i] == ")" {
        depth := depth - 1;
        if depth < 0 {
          NotBalanced(s, i + 1);
          return false;
        }
      }
      if !Harmless(scan, s, i) { return false; }
    }
    assert s[..|s|] == s;
    if depth != 0 {
      NotBalanced(s, |s|);
      return false;
    }
    CountedBalanced(s);
    return true;
  }

  lemma NothingYet(s: Tokens)
    ensures Depth(s[..0]) == 0
  {
  }

  /** A statement passes exactly if nothing in it is forbidden, its brackets balance, and it is a query. */
  method ValidateReadOnlyStatement(isName: NameRule, scan: Scan) returns (valid: bool)
    ensures var s := Statement(scan.tokens);
            valid <==> !scan.executableComment && (forall i: nat | i < |s| :: Harmless(scan, s, i))
                       && Balanced(s) && Query(isName, s)
  {
    hide Balanced, Query, Harmless;
    if scan.executableComment { return false; }
    var s := Statement(scan.tokens);
    valid := ScanTokens(scan, s);
    if valid { valid := ReadOnlyQuery(isName, s); }
  }
}
