/** Query names for the columns of an upload (internal/customdataset/csv.go). */
module QueryNames {
  import opened Options
  import opened Calendar

  const MAX_COLUMNS: nat := 50
  const MAX_LENGTH: nat := 64

  /** What the Unicode tables and the database decide. */
  datatype Rules = Rules(lower: char -> char, blank: string -> bool, reserved: string -> bool)

  predicate IsLetter(c: char) { 'a' <= c <= 'z' }
  predicate IsDigit(c: char) { '0' <= c <= '9' }
  predicate IsNameChar(c: char) { IsLetter(c) || IsDigit(c) || c == '_' }

  predicate AllNameChars(s: string) { forall i | 0 <= i < |s| :: IsNameChar(s[i]) }
  predicate AllDigits(s: string) { forall i | 0 <= i < |s| :: IsDigit(s[i]) }

  /** A usable name: a letter, then letters, digits or underscores, at most 64 in all. */
  predicate NameOk(s: string) { 1 <= |s| <= MAX_LENGTH && IsLetter(s[0]) && AllNameChars(s) }

  // ---------------------------------------------------------------------------------------------------------
  // The base of a name
  // ---------------------------------------------------------------------------------------------------------

  datatype Building = Building(text: string, underscore: bool, overflow: bool)

  function Add(b: Building, c: char, underscore: bool): Building {
    if |b.text| < MAX_LENGTH then Building(b.text + [c], underscore, b.overflow)
    else Building(b.text, underscore, true)
  }

  function Build(rules: Rules, header: string): Building {
    if header == [] then Building("", false, false)
    else
      var b := Build(rules, header[..|header| - 1]);
      var c := rules.lower(header[|header| - 1]);
      if IsLetter(c) || IsDigit(c) then Add(b, c, false)
      else if b.text != "" && !b.underscore then Add(b, '_', true)
      else b
  }

  function TrimRight(s: string): (r: string)
    ensures r <= s
    ensures r != "" ==> r[|r| - 1] != '_'
    ensures s != "" && s[0] != '_' ==> r != ""
  {
    if s != "" && s[|s| - 1] == '_' then TrimRight(s[..|s| - 1]) else s
  }

  function TrimLeft(s: string): string {
    if s != "" && s[0] == '_' then TrimLeft(s[1..]) else s
  }

  function Truncate(s: string, maximum: nat): (r: string)
    ensures |r| <= maximum && r <= s
    ensures s != "" && s[0] != '_' && maximum > 0 ==> r != ""
  {
    if |s| <= maximum then s else TrimRight(s[..maximum])
  }

  function Base(rules: Rules, header: string, index: nat): string {
    var b := Build(rules, header);
    var trimmed := TrimRight(TrimLeft(b.text));
    var named := if trimmed == "" then "column_" + Pad(index + 1, 3) else trimmed;
    var lettered := if IsDigit(named[0]) then "column_" + named else named;
    Truncate(if !b.overflow && rules.reserved(lettered) then lettered + "_column" else lettered, MAX_LENGTH)
  }

  lemma {:induction false} BuildIsPlain(rules: Rules, header: string)
    ensures var t := Build(rules, header).text; AllNameChars(t) && |t| <= MAX_LENGTH && (t != "" ==> t[0] != '_')
  {
    if header != [] { BuildIsPlain(rules, header[..|header| - 1]); }
  }

  lemma {:induction false} PadIsDigits(n: nat, width: nat)
    ensures Pad(n, width) != "" && AllDigits(Pad(n, width))
    decreases n, width
  {
    if !(n < 10 && width <= 1) { PadIsDigits(n / 10, if width == 0 then 0 else width - 1); }
  }

  lemma BaseIsName(rules: Rules, header: string, index: nat)
    ensures NameOk(Base(rules, header, index))
  {
    BuildIsPlain(rules, header);
    PadIsDigits(index + 1, 3);
    var b := Build(rules, header);
    assert TrimLeft(b.text) == b.text;
    var trimmed := TrimRight(TrimLeft(b.text));
    PrefixIsPlain(trimmed, b.text);
    Lettered(rules, trimmed, b.overflow, index);
  }

  lemma Lettered(rules: Rules, trimmed: string, overflow: bool, index: nat)
    requires AllNameChars(trimmed) && (trimmed != "" ==> trimmed[0] != '_')
    ensures var named := if trimmed == "" then "column_" + Pad(index + 1, 3) else trimmed;
            var lettered := if IsDigit(named[0]) then "column_" + named else named;
            NameOk(Truncate(if !overflow && rules.reserved(lettered) then lettered + "_column" else lettered, MAX_LENGTH))
  {
    hide Pad, Truncate;
    PadIsDigits(index + 1, 3);
    var named := if trimmed == "" then "column_" + Pad(index + 1, 3) else trimmed;
    assert AllNameChars(named) && named[0] != '_';
    Prefixed(named);
    var lettered := if IsDigit(named[0]) then "column_" + named else named;
    Reserved(lettered, !overflow && rules.reserved(lettered));
  }

  lemma Prefixed(named: string)
    requires AllNameChars(named) && named != "" && named[0] != '_'
    ensures var lettered := if IsDigit(named[0]) then "column_" + named else named;
            AllNameChars(lettered) && IsLetter(lettered[0])
  {
  }

  lemma Reserved(lettered: string, reserved: bool)
    requires AllNameChars(lettered) && lettered != "" && IsLetter(lettered[0])
    ensures NameOk(Truncate(if reserved then lettered + "_column" else lettered, MAX_LENGTH))
  {
    var full := if reserved then lettered + "_column" else lettered;
    PrefixIsPlain(Truncate(full, MAX_LENGTH), full);
  }

  lemma PrefixIsPlain(p: string, s: string)
    requires p <= s && AllNameChars(s)
    ensures AllNameChars(p)
    ensures p != "" ==> p[0] == s[0]
  {
    forall i | 0 <= i < |p| ensures IsNameChar(p[i]) { assert p[i] == s[i]; }
  }

  // ---------------------------------------------------------------------------------------------------------
  // Collisions
  // ---------------------------------------------------------------------------------------------------------

  function Suffix(collision: nat): string { "_" + Pad(collision, 1) }

  /** The candidate for a collision number; below 100 its suffix has at most three characters. */
  function Candidate(base: string, collision: nat): string
    requires collision < 100
  {
    SuffixIsShort(collision);
    Truncate(base, MAX_LENGTH - |Suffix(collision)|) + Suffix(collision)
  }

  lemma SuffixIsShort(collision: nat)
    requires collision < 100
    ensures 2 <= |Suffix(collision)| <= 3
  {
    assert collision >= 10 ==> Pad(collision, 1) == Pad(collision / 10, 0) + [Digit(collision % 10)];
  }

  function Value(digits: string): int
    requires AllDigits(digits)
  {
    if digits == "" then 0
    else 10 * Value(digits[..|digits| - 1]) + (digits[|digits| - 1] as int - '0' as int)
  }

  lemma {:induction false} ValueOfPad(n: nat, width: nat)
    ensures AllDigits(Pad(n, width))
    ensures Value(Pad(n, width)) == n
    decreases n, width
  {
    PadIsDigits(n, width);
    var s := Pad(n, width);
    if n < 10 && width <= 1 {
      assert s[..0] == "";
    } else {
      ValueOfPad(n / 10, if width == 0 then 0 else width - 1);
      assert s[..|s| - 1] == Pad(n / 10, if width == 0 then 0 else width - 1);
    }
  }

  function TrailingDigits(s: string): string {
    if s != "" && IsDigit(s[|s| - 1]) then TrailingDigits(s[..|s| - 1]) + [s[|s| - 1]] else ""
  }

  lemma {:induction false} DigitsAfterUnderscore(a: string, x: string)
    requires AllDigits(x)
    ensures TrailingDigits(a + "_" + x) == x
  {
    var s := a + "_" + x;
    if x != "" {
      DigitsAfterUnderscore(a, x[..|x| - 1]);
      assert s[..|s| - 1] == a + "_" + x[..|x| - 1];
    }
  }

  lemma CandidateEnds(base: string, k: nat)
    requires k < 100
    ensures TrailingDigits(Candidate(base, k)) == Pad(k, 1)
  {
    SuffixIsShort(k);
    PadIsDigits(k, 1);
    var head := Truncate(base, MAX_LENGTH - |Suffix(k)|);
    DigitsAfterUnderscore(head, Pad(k, 1));
    hide Pad, Truncate, TrailingDigits;
    assert head + "_" + Pad(k, 1) == Candidate(base, k);
  }

  /** Different collision numbers give different names. */
  lemma CandidatesDiffer(base: string, j: nat, k: nat)
    requires j < 100 && k < 100 && Candidate(base, j) == Candidate(base, k)
    ensures j == k
  {
    hide Candidate;
    CandidateEnds(base, j);
    CandidateEnds(base, k);
    ValueOfPad(j, 1);
    ValueOfPad(k, 1);
  }

  lemma CandidateIsName(base: string, k: nat)
    requires NameOk(base) && k < 100
    ensures NameOk(Candidate(base, k))
  {
    SuffixIsShort(k);
    PadIsDigits(k, 1);
    PrefixIsPlain(Truncate(base, MAX_LENGTH - |Suffix(k)|), base);
  }

  /** The candidates tried so far. */
  function Tried(base: string, collision: nat): set<string>
    requires 2 <= collision <= 100
  {
    set k: nat | 2 <= k < collision :: Candidate(base, k)
  }

  /** Distinct candidates that are all used cannot be more than the used names: the pigeonhole argument. */
  lemma {:induction false} Pigeonhole(base: string, collision: nat, used: set<string>)
    requires 2 <= collision <= 100 && Tried(base, collision) <= used
    ensures |Tried(base, collision)| == collision - 2 <= |used|
    decreases collision
  {
    if collision == 2 {
      assert Tried(base, collision) == {};
    } else {
      var last := Candidate(base, collision - 1);
      assert Tried(base, collision) == Tried(base, collision - 1) + {last};
      forall k: nat | 2 <= k < collision - 1 ensures Candidate(base, k) != last {
        if Candidate(base, k) == last { CandidatesDiffer(base, k, collision - 1); }
      }
      Pigeonhole(base, collision - 1, used);
    }
    Smaller(Tried(base, collision), used);
  }

  lemma {:induction false} Smaller(a: set<string>, b: set<string>)
    requires a <= b
    ensures |a| <= |b|
  {
    if a != {} {
      var x :| x in a;
      Smaller(a - {x}, b - {x});
    }
  }

  /** The base if it is free, else the first free candidate. */
  ghost predicate IsChoice(base: string, used: set<string>, name: string) {
    && name !in used
    && (name == base
        || (base in used
            && exists k: nat :: 2 <= k < 100 && name == Candidate(base, k) && Tried(base, k) <= used))
  }

  lemma NextTried(base: string, collision: nat)
    requires 2 <= collision < 100
    ensures Tried(base, collision + 1) == Tried(base, collision) + {Candidate(base, collision)}
  {
    hide Candidate;
  }

  method Choose(base: string, used: set<string>) returns (name: string)
    requires NameOk(base) && |used| < MAX_COLUMNS
    ensures IsChoice(base, used, name) && NameOk(name)
  {
    hide Candidate, Tried, NameOk;
    name := base;
    if name !in used { return; }
    var collision: nat := 2;
    NothingTried(base);
    while name in used
      invariant 2 <= collision <= |used| + 3 && NameOk(name)
      invariant collision == 2 ==> name == base && Tried(base, 2) <= used
      invariant collision > 2 ==> name == Candidate(base, collision - 1) && Tried(base, collision - 1) <= used
      decreases |used| + 3 - collision
    {
      if collision > 2 { NextTried(base, collision - 1); }
      Pigeonhole(base, collision, used);
      SuffixIsShort(collision);
      CandidateIsName(base, collision);
      CandidateIs(base, collision);
      name := Truncate(base, MAX_LENGTH - |Suffix(collision)|) + Suffix(collision);
      collision := collision + 1;
    }
  }

  lemma NothingTried(base: string)
    ensures Tried(base, 2) == {}
  {
  }

  lemma CandidateIs(base: string, k: nat)
    requires k < 100
    ensures |Suffix(k)| <= 3 && Candidate(base, k) == Truncate(base, MAX_LENGTH - |Suffix(k)|) + Suffix(k)
  {
    SuffixIsShort(k);
  }

  function NamesIn(names: seq<string>): set<string> {
    set name | name in names
  }

  ghost predicate HeadersOk(rules: Rules, headers: seq<string>) {
    1 <= |headers| <= MAX_COLUMNS && forall header <- headers :: !rules.blank(header)
  }

  /** The name at `i` is the choice left by the names before it. */
  ghost predicate Chosen(rules: Rules, headers: seq<string>, names: seq<string>, i: nat)
    requires i < |names| && i < |headers|
  {
    NameOk(names[i]) && IsChoice(Base(rules, headers[i], i), NamesIn(names[..i]), names[i])
  }

  lemma ChosenDiffer(rules: Rules, headers: seq<string>, names: seq<string>)
    requires |names| <= |headers|
    requires forall i: nat | i < |names| :: Chosen(rules, headers, names, i)
    ensures forall i, j | 0 <= i < j < |names| :: names[i] != names[j]
  {
    hide Base, NameOk;
    forall i, j | 0 <= i < j < |names| ensures names[i] != names[j] {
      assert Chosen(rules, headers, names, j);
      assert names[..j][i] in names[..j];
    }
  }

  lemma ChosenMore(rules: Rules, headers: seq<string>, names: seq<string>, name: string)
    requires |names| < |headers| && NameOk(name)
    requires forall i: nat | i < |names| :: Chosen(rules, headers, names, i)
    requires IsChoice(Base(rules, headers[|names|], |names|), NamesIn(names), name)
    ensures forall i: nat | i < |names| + 1 :: Chosen(rules, headers, names + [name], i)
    ensures NamesIn(names + [name]) == NamesIn(names) + {name} && name !in NamesIn(names)
  {
    hide Base, NameOk;
    forall i: nat | i < |names| + 1 ensures Chosen(rules, headers, names + [name], i) {
      assert (names + [name])[..i] == names[..i];
      if i < |names| {
        assert Chosen(rules, headers, names, i);
      } else {
        assert names[..i] == names;
      }
    }
  }

  /** Names for all headers: usable, pairwise distinct, each the choice left by those before it. */
  method Names(rules: Rules, headers: seq<string>) returns (names: Option<seq<string>>)
    ensures names.Some? <==> HeadersOk(rules, headers)
    ensures names.Some? ==>
      && |names.value| == |headers|
      && (forall i: nat | i < |headers| :: Chosen(rules, headers, names.value, i))
      && (forall i, j | 0 <= i < j < |headers| :: names.value[i] != names.value[j])
  {
    hide Base, IsChoice, NameOk, Chosen;
    if |headers| == 0 || |headers| > MAX_COLUMNS { return None; }
    var all: seq<string> := [];
    var used: set<string> := {};
    for index := 0 to |headers|
      invariant |all| == index == |used| && used == NamesIn(all)
      invariant forall header <- headers[..index] :: !rules.blank(header)
      invariant forall i: nat | i < index :: Chosen(rules, headers, all, i)
    {
      if rules.blank(headers[index]) { return None; }
      var base := BaseName(rules, headers[index], index);
      BaseIsName(rules, headers[index], index);
      var name := Choose(base, used);
      ChosenMore(rules, headers, all, name);
      used := used + {name};
      all := all + [name];
    }
    ChosenDiffer(rules, headers, all);
    return Some(all);
  }

  method BaseName(rules: Rules, header: string, index: nat) returns (base: string)
    ensures base == Base(rules, header, index)
  {
    var text, underscore, overflow := "", false, false;
    for n := 0 to |header|
      invariant Building(text, underscore, overflow) == Build(rules, header[..n])
    {
      assert header[..n + 1][..n] == header[..n];
      var value := rules.lower(header[n]);
      if IsLetter(value) || IsDigit(value) {
        if |text| < MAX_LENGTH { text := text + [value]; } else { overflow := true; }
        underscore := false;
      } else if |text| != 0 && !underscore {
        if |text| < MAX_LENGTH { text := text + "_"; } else { overflow := true; }
        underscore := true;
      }
    }
    assert header[..|header|] == header;
    base := TrimRight(TrimLeft(text));
    if base == "" { base := "column_" + Pad(index + 1, 3); }
    if IsDigit(base[0]) { base := "column_" + base; }
    if !overflow && rules.reserved(base) { base := base + "_column"; }
    base := Truncate(base, MAX_LENGTH);
  }
}
