/** Test filters: glob patterns, lists of them, and the filter flag with its negative part.

    A C string is the sequence of its characters before the terminating NUL. */
module Filters {

  const UNIVERSAL_FILTER := "*"
  const DISABLE_TEST_FILTER := "DISABLED_*:*/DISABLED_*"

  // ---- What a pattern denotes ----

  function Concat(parts: seq<string>): string
    decreases |parts|
  {
    if parts == [] then "" else parts[0] + Concat(parts[1..])
  }

  /** What one pattern character stands for: `*` for any string, `?` for any character. */
  predicate Fits(c: char, part: string) {
    c == '*' || (c == '?' && |part| == 1) || part == [c]
  }

  predicate FitsAll(glob: string, parts: seq<string>) {
    |parts| == |glob| && forall k | 0 <= k < |glob| :: Fits(glob[k], parts[k])
  }

  /** The string splits into one part for each pattern character. */
  ghost predicate Denotes(glob: string, str: string) {
    exists parts :: FitsAll(glob, parts) && Concat(parts) == str
  }

  // ---- Matching one pattern ----

  predicate AtEnd(pattern: string) {
    pattern == "" || pattern[0] == ':'
  }

  /** The characters before the first `:`. */
  function FirstPattern(s: string): string {
    if AtEnd(s) then "" else [s[0]] + FirstPattern(s[1..])
  }

  predicate PatternMatchesString(pattern: string, str: string)
    decreases |pattern| + |str|
  {
    if AtEnd(pattern) then str == ""
    else if pattern[0] == '?' then str != "" && PatternMatchesString(pattern[1..], str[1..])
    else if pattern[0] == '*' then
      (str != "" && PatternMatchesString(pattern, str[1..])) || PatternMatchesString(pattern[1..], str)
    else str != "" && pattern[0] == str[0] && PatternMatchesString(pattern[1..], str[1..])
  }

  lemma {:induction false} DenotesCons(c: char, glob: string, str: string)
    ensures Denotes([c] + glob, str) <==> exists k | 0 <= k <= |str| :: Fits(c, str[..k]) && Denotes(glob, str[k..])
  {
    if Denotes([c] + glob, str) {
      var parts :| FitsAll([c] + glob, parts) && Concat(parts) == str;
      var k := |parts[0]|;
      assert str[..k] == parts[0] && str[k..] == Concat(parts[1..]);
      forall i | 0 <= i < |glob| ensures Fits(glob[i], parts[1..][i]) {
        assert Fits(([c] + glob)[i + 1], parts[i + 1]);
      }
      assert FitsAll(glob, parts[1..]);
    }
    if k :| 0 <= k <= |str| && Fits(c, str[..k]) && Denotes(glob, str[k..]) {
      var parts :| FitsAll(glob, parts) && Concat(parts) == str[k..];
      var all := [str[..k]] + parts;
      assert all[1..] == parts && FitsAll([c] + glob, all);
      assert Concat(all) == str[..k] + str[k..] == str;
    }
  }

  lemma {:induction false} DenotesNothing(str: string)
    ensures Denotes("", str) <==> str == ""
  {
    assert FitsAll("", []) && Concat([]) == "";
  }

  /** One more character can go to a leading `*`, or the `*` can be empty. */
  lemma {:induction false} DenotesStar(glob: string, str: string)
    ensures Denotes("*" + glob, str) <==> Denotes(glob, str) || (str != "" && Denotes("*" + glob, str[1..]))
  {
    DenotesCons('*', glob, str);
    assert str[0..] == str;
    if str != "" {
      DenotesCons('*', glob, str[1..]);
      if k :| 0 < k <= |str| && Denotes(glob, str[k..]) {
        assert str[1..][k - 1..] == str[k..];
        assert Fits('*', str[1..][..k - 1]);
      }
      if k :| 0 <= k <= |str[1..]| && Denotes(glob, str[1..][k..]) {
        assert str[1..][k..] == str[k + 1..];
        assert Fits('*', str[..k + 1]);
      }
    }
  }

  lemma {:induction false} DenotesOne(c: char, glob: string, str: string)
    requires c != '*'
    ensures Denotes([c] + glob, str) <==> str != "" && (c == '?' || c == str[0]) && Denotes(glob, str[1..])
  {
    DenotesCons(c, glob, str);
    if str != "" {
      assert str[..1] == [str[0]];
    }
  }

  /** The recursive matcher, which keeps the pattern in one of its branches, accepts exactly what the
      pattern before the first `:` denotes. */
  lemma {:induction false} PatternMatches(pattern: string, str: string)
    ensures PatternMatchesString(pattern, str) <==> Denotes(FirstPattern(pattern), str)
    decreases |pattern| + |str|
  {
    if AtEnd(pattern) {
      DenotesNothing(str);
    } else if pattern[0] == '*' {
      DenotesStar(FirstPattern(pattern[1..]), str);
      PatternMatches(pattern[1..], str);
      if str != "" {
        PatternMatches(pattern, str[1..]);
      }
    } else {
      DenotesOne(pattern[0], FirstPattern(pattern[1..]), str);
      if str != "" {
        PatternMatches(pattern[1..], str[1..]);
      }
    }
  }

  // ---- Filters ----

  /** The patterns of a filter, which colons separate. */
  function Patterns(filter: string): (patterns: seq<string>)
    ensures patterns != []
    ensures forall k | 0 <= k < |patterns| :: ':' !in patterns[k]
    decreases |filter|
  {
    if filter == "" then [""]
    else if filter[0] == ':' then [""] + Patterns(filter[1..])
    else
      var rest := Patterns(filter[1..]);
      [[filter[0]] + rest[0]] + rest[1..]
  }

  function Join(patterns: seq<string>): string
    requires patterns != []
    decreases |patterns|
  {
    if |patterns| == 1 then patterns[0] else patterns[0] + ":" + Join(patterns[1..])
  }

  lemma {:induction false} PatternsJoin(filter: string)
    ensures Join(Patterns(filter)) == filter
    decreases |filter|
  {
    if filter != "" {
      PatternsJoin(filter[1..]);
      var rest := Patterns(filter[1..]);
      if filter[0] == ':' {
        assert ([""] + rest)[1..] == rest;
      } else {
        assert ([[filter[0]] + rest[0]] + rest[1..])[1..] == rest[1..];
      }
    }
  }

  ghost predicate FilterDenotes(filter: string, name: string) {
    exists pattern :: pattern in Patterns(filter) && Denotes(pattern, name)
  }

  /** Where the first `ch` is, if there is one. */
  method StrChr(s: string, ch: char) returns (found: bool, at: nat)
    ensures found <==> ch in s
    ensures found ==> at < |s| && s[at] == ch && ch !in s[..at]
  {
    at := 0;
    while at < |s|
      invariant at <= |s| && ch !in s[..at]
    {
      if s[at] == ch {
        return true, at;
      }
      at := at + 1;
    }
    return false, 0;
  }

  lemma {:induction false} NoColon(filter: string)
    requires ':' !in filter
    ensures Patterns(filter) == [filter] && FirstPattern(filter) == filter
    decreases |filter|
  {
    if filter != "" {
      assert filter[0] in filter;
      NoColon(filter[1..]);
      assert [filter[0]] + filter[1..] == filter;
    }
  }

  lemma {:induction false} UpToColon(filter: string, at: nat)
    requires at < |filter| && filter[at] == ':' && ':' !in filter[..at]
    ensures Patterns(filter) == [filter[..at]] + Patterns(filter[at + 1..]) && FirstPattern(filter) == filter[..at]
    decreases |filter|
  {
    if at > 0 {
      assert filter[1..][..at - 1] == filter[..at][1..];
      assert filter[1..][at..] == filter[at + 1..];
      UpToColon(filter[1..], at - 1);
      assert [filter[0]] + filter[1..][..at - 1] == filter[..at];
      assert filter[0] in filter[..at];
    }
  }

  lemma {:induction false} FilterOfOne(filter: string, name: string)
    requires ':' !in filter
    ensures FilterDenotes(filter, name) <==> Denotes(FirstPattern(filter), name)
  {
    NoColon(filter);
  }

  lemma {:induction false} FilterOfMore(filter: string, at: nat, name: string)
    requires at < |filter| && filter[at] == ':' && ':' !in filter[..at]
    ensures FilterDenotes(filter, name) <==> Denotes(FirstPattern(filter), name) || FilterDenotes(filter[at + 1..], name)
  {
    UpToColon(filter, at);
    assert forall pattern :: pattern in Patterns(filter) <==>
      pattern == filter[..at] || pattern in Patterns(filter[at + 1..]);
  }

  /** `MatchesFilter`: some pattern of the filter denotes the name. */
  method MatchesFilter(name: string, filter: string) returns (matches: bool)
    ensures matches <==> FilterDenotes(filter, name)
  {
    var curPattern := filter;
    while true
      invariant FilterDenotes(filter, name) <==> FilterDenotes(curPattern, name)
      decreases |curPattern|
    {
      PatternMatches(curPattern, name);
      var found, at := StrChr(curPattern, ':');
      if found {
        FilterOfMore(curPattern, at, name);
      } else {
        FilterOfOne(curPattern, name);
      }
      if PatternMatchesString(curPattern, name) {
        return true;
      }
      if !found {
        return false;
      }
      curPattern := curPattern[at + 1..];
    }
  }

  /** The positive and the negative part of the filter flag, split at the first `-`. */
  function SplitFlag(flag: string): (string, string) {
    if '-' !in flag then (flag, "")
    else
      var (positive, negative) := Around(flag, '-');
      (if positive == "" then UNIVERSAL_FILTER else positive, negative)
  }

  function Around(s: string, ch: char): (r: (string, string))
    requires ch in s
    ensures s == r.0 + [ch] + r.1 && ch !in r.0
    decreases |s|
  {
    if s[0] == ch then ("", s[1..])
    else
      var (before, after) := Around(s[1..], ch);
      ([s[0]] + before, after)
  }

  lemma {:induction false} AroundIsUnique(s: string, ch: char, at: nat)
    requires at < |s| && s[at] == ch && ch !in s[..at]
    ensures Around(s, ch) == (s[..at], s[at + 1..])
    decreases |s|
  {
    if at > 0 {
      assert s[0] in s[..at] && s[1..][..at - 1] == s[..at][1..];
      AroundIsUnique(s[1..], ch, at - 1);
      assert s[..at] == [s[0]] + s[1..][..at - 1];
    }
  }

  function FullName(testCaseName: string, testName: string): string {
    testCaseName + "." + testName
  }

  /** A test runs under a flag when some positive pattern and no negative one denotes its name. */
  ghost predicate FlagSelects(flag: string, fullName: string) {
    FilterDenotes(SplitFlag(flag).0, fullName) && !FilterDenotes(SplitFlag(flag).1, fullName)
  }

  method FilterMatchesTest(flag: string, testCaseName: string, testName: string) returns (matches: bool)
    ensures matches <==> FlagSelects(flag, testCaseName + "." + testName)
  {
    var fullName := testCaseName + "." + testName;
    var found, dash := StrChr(flag, '-');
    var positive, negative := flag, "";
    if found {
      AroundIsUnique(flag, '-', dash);
      positive, negative := flag[..dash], flag[dash + 1..];
      if positive == "" {
        positive := UNIVERSAL_FILTER;
      }
    }
    matches := MatchesFilter(fullName, positive);
    if matches {
      var excluded := MatchesFilter(fullName, negative);
      matches := !excluded;
    }
  }

  // ---- Laws of flags ----

  lemma {:induction false} UniversalDenotesAll(str: string)
    ensures FilterDenotes(UNIVERSAL_FILTER, str)
  {
    NoColon(UNIVERSAL_FILTER);
    StarDenotesAll(str);
  }

  /** A flag without `-` excludes nothing: the empty negative filter denotes no test name. */
  lemma {:induction false} PositiveFlag(flag: string, testCaseName: string, testName: string)
    requires '-' !in flag
    ensures FlagSelects(flag, FullName(testCaseName, testName)) <==> FilterDenotes(flag, FullName(testCaseName, testName))
  {
    NoColon("");
    DenotesNothing(FullName(testCaseName, testName));
  }

  /** `-negative` selects exactly what `negative` does not denote. */
  lemma {:induction false} NegativeFlag(negative: string, fullName: string)
    ensures FlagSelects("-" + negative, fullName) <==> !FilterDenotes(negative, fullName)
  {
    var flag := "-" + negative;
    AroundIsUnique(flag, '-', 0);
    assert flag[1..] == negative;
    UniversalDenotesAll(fullName);
  }

  /** `positive-negative` selects what `positive` denotes and `negative` does not; the first dash
      separates the two. */
  lemma {:induction false} MixedFlag(positive: string, negative: string, fullName: string)
    requires positive != "" && '-' !in positive
    ensures FlagSelects(positive + "-" + negative, fullName) <==>
      FilterDenotes(positive, fullName) && !FilterDenotes(negative, fullName)
  {
    var flag := positive + "-" + negative;
    assert flag[..|positive|] == positive && flag[|positive| + 1..] == negative;
    AroundIsUnique(flag, '-', |positive|);
  }

  // ---- Laws of patterns ----

  predicate StartsWith(s: string, prefix: string) {
    |prefix| <= |s| && s[..|prefix|] == prefix
  }

  predicate EndsWith(s: string, suffix: string) {
    |suffix| <= |s| && s[|s| - |suffix|..] == suffix
  }

  predicate Contains(s: string, part: string) {
    exists k | 0 <= k <= |s| :: StartsWith(s[k..], part)
  }

  /** A string without the characters that mean something in a pattern or filter. */
  predicate IsLiteral(s: string) {
    '*' !in s && '?' !in s && ':' !in s
  }

  lemma {:induction false} LiteralPrefix(literal: string, glob: string, str: string)
    requires IsLiteral(literal)
    ensures Denotes(literal + glob, str) <==> StartsWith(str, literal) && Denotes(glob, str[|literal|..])
    decreases |literal|
  {
    if literal == "" {
      assert literal + glob == glob && str[0..] == str;
    } else {
      var c, rest := literal[0], literal[1..];
      assert literal + glob == [c] + (rest + glob) && literal == [c] + rest;
      assert c in literal && forall ch | ch in rest :: ch in literal;
      DenotesOne(c, rest + glob, str);
      if str != "" {
        LiteralPrefix(rest, glob, str[1..]);
        assert str == [str[0]] + str[1..];
        assert |literal| <= |str| ==> str[..|literal|] == [str[0]] + str[1..][..|rest|] && str[1..][|rest|..] == str[|literal|..];
      }
    }
  }

  lemma {:induction false} StarDenotesAll(str: string)
    ensures Denotes("*", str)
  {
    assert FitsAll("*", [str]) && Concat([str]) == str;
  }

  /** `literal*`. */
  lemma {:induction false} PrefixPattern(literal: string, str: string)
    requires IsLiteral(literal)
    ensures Denotes(literal + "*", str) <==> StartsWith(str, literal)
  {
    LiteralPrefix(literal, "*", str);
    if StartsWith(str, literal) {
      StarDenotesAll(str[|literal|..]);
    }
  }

  lemma {:induction false} LeadingStar(glob: string, str: string)
    ensures Denotes("*" + glob, str) <==> exists k | 0 <= k <= |str| :: Denotes(glob, str[k..])
  {
    DenotesCons('*', glob, str);
    if k :| 0 <= k <= |str| && Denotes(glob, str[k..]) {
      assert Fits('*', str[..k]);
    }
  }

  /** `*literal`. */
  lemma {:induction false} SuffixPattern(literal: string, str: string)
    requires IsLiteral(literal)
    ensures Denotes("*" + literal, str) <==> EndsWith(str, literal)
  {
    LeadingStar(literal, str);
    forall k | 0 <= k <= |str| ensures Denotes(literal, str[k..]) <==> str[k..] == literal {
      LiteralDenotesItself(literal, str[k..]);
    }
    if EndsWith(str, literal) {
      assert Denotes(literal, str[|str| - |literal|..]);
    }
  }

  lemma {:induction false} LiteralDenotesItself(literal: string, str: string)
    requires IsLiteral(literal)
    ensures Denotes(literal, str) <==> str == literal
  {
    LiteralPrefix(literal, "", str);
    assert literal + "" == literal;
    if StartsWith(str, literal) {
      DenotesNothing(str[|literal|..]);
      assert str == str[..|literal|] + str[|literal|..];
    }
  }

  /** `*literal*`. */
  lemma {:induction false} InfixPattern(literal: string, str: string)
    requires IsLiteral(literal)
    ensures Denotes("*" + (literal + "*"), str) <==> Contains(str, literal)
  {
    LeadingStar(literal + "*", str);
    forall k | 0 <= k <= |str| ensures Denotes(literal + "*", str[k..]) <==> StartsWith(str[k..], literal) {
      PrefixPattern(literal, str[k..]);
    }
  }

  lemma {:induction false} TwoPatterns(first: string, second: string, name: string)
    requires ':' !in first && ':' !in second
    ensures FilterDenotes(first + ":" + second, name) <==> Denotes(first, name) || Denotes(second, name)
  {
    var filter := first + ":" + second;
    assert filter[..|first|] == first && filter[|first| + 1..] == second;
    UpToColon(filter, |first|);
    NoColon(second);
    assert first in Patterns(filter) && second in Patterns(filter);
  }

  /** `prefix*:*infix*`. */
  lemma {:induction false} PrefixOrInfix(prefix: string, infix: string, name: string)
    requires IsLiteral(prefix) && IsLiteral(infix)
    ensures FilterDenotes(prefix + "*" + ":" + ("*" + (infix + "*")), name) <==> StartsWith(name, prefix) || Contains(name, infix)
  {
    TwoPatterns(prefix + "*", "*" + (infix + "*"), name);
    PrefixPattern(prefix, name);
    InfixPattern(infix, name);
  }

  /** `*suffix:*infix*`. */
  lemma {:induction false} SuffixOrInfix(suffix: string, infix: string, name: string)
    requires IsLiteral(suffix) && IsLiteral(infix)
    ensures FilterDenotes("*" + suffix + ":" + ("*" + (infix + "*")), name) <==> EndsWith(name, suffix) || Contains(name, infix)
  {
    TwoPatterns("*" + suffix, "*" + (infix + "*"), name);
    SuffixPattern(suffix, name);
    InfixPattern(infix, name);
  }

  /** The names that disable a test or a test case. */
  predicate IsDisabledName(name: string) {
    StartsWith(name, "DISABLED_") || Contains(name, "/DISABLED_")
  }

  lemma {:induction false} DisabledNames(name: string)
    ensures FilterDenotes(DISABLE_TEST_FILTER, name) <==> IsDisabledName(name)
  {
    assert DISABLE_TEST_FILTER == "DISABLED_" + "*" + ":" + ("*" + ("/DISABLED_" + "*"));
    PrefixOrInfix("DISABLED_", "/DISABLED_", name);
  }
}
