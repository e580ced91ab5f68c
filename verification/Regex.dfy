/** The simple regular expressions of the test framework: the grammar, the language of an expression,
    and the validator and the backtracking matcher proved against them.

    A C string is the sequence of its characters before the terminating NUL; `At` reads the NUL. */
module Regex {
  import opened Wrappers

  /** The greatest value of `size_t`. */
  const SIZE_MAX := 0xFFFF_FFFF_FFFF_FFFF

  predicate NulFree(s: string) {
    forall k | 0 <= k < |s| :: s[k] != '\0'
  }

  function At(s: string, i: nat): char {
    if i < |s| then s[i] else '\0'
  }

  // ---- Character classes ----

  predicate IsInSet(ch: char, chars: string) {
    ch != '\0' && ch in chars
  }

  predicate IsAsciiDigit(ch: char) { '0' <= ch <= '9' }

  predicate IsAsciiPunct(ch: char) { IsInSet(ch, "^-!\"#$%&'()*+,./:;<=>?@[\\]_`{|}~") }

  predicate IsRepeat(ch: char) { IsInSet(ch, "?*+") }

  predicate IsAsciiWhiteSpace(ch: char) { IsInSet(ch, " \U{0C}\n\r\t\U{0B}") }

  predicate IsAsciiWordChar(ch: char) {
    'a' <= ch <= 'z' || 'A' <= ch <= 'Z' || '0' <= ch <= '9' || ch == '_'
  }

  predicate IsValidEscape(c: char) { IsAsciiPunct(c) || IsInSet(c, "dDfnrsStvwW") }

  predicate AtomMatchesChar(escaped: bool, patternChar: char, ch: char) {
    if escaped then
      match patternChar
      case 'd' => IsAsciiDigit(ch)
      case 'D' => !IsAsciiDigit(ch)
      case 'f' => ch == '\U{0C}'
      case 'n' => ch == '\n'
      case 'r' => ch == '\r'
      case 's' => IsAsciiWhiteSpace(ch)
      case 'S' => !IsAsciiWhiteSpace(ch)
      case 't' => ch == '\t'
      case 'v' => ch == '\U{0B}'
      case 'w' => IsAsciiWordChar(ch)
      case 'W' => !IsAsciiWordChar(ch)
      case _ => IsAsciiPunct(patternChar) && patternChar == ch
    else
      (patternChar == '.' && ch != '\n') || patternChar == ch
  }

  // ---- What an atom stands for ----

  datatype Atom = Plain(c: char) | Escaped(c: char)

  /** The printable ASCII characters that are neither letters nor digits nor the space. */
  predicate IsPunctuation(ch: char) {
    '!' <= ch <= '/' || ':' <= ch <= '@' || '[' <= ch <= '`' || '{' <= ch <= '~'
  }

  /** The code of the control character that a letter after a backslash names. */
  function ControlCode(c: char): int {
    match c
    case 't' => 9
    case 'n' => 10
    case 'v' => 11
    case 'f' => 12
    case 'r' => 13
    case _ => -1
  }

  /** The class that a letter after a backslash names: digits, white space, or word characters. */
  predicate InClass(c: char, ch: char) {
    match c
    case 'd' => '0' <= ch <= '9'
    case 's' => 9 <= ch as int <= 13 || ch == ' '
    case 'w' => 'a' <= ch <= 'z' || 'A' <= ch <= 'Z' || '0' <= ch <= '9' || ch == '_'
    case _ => false
  }

  /** `.` stands for all characters but the line feed, and any other plain character for itself; a capital
      letter names the complement of a class. */
  predicate Denotes(a: Atom, ch: char) {
    match a
    case Plain(c) => if c == '.' then ch as int != 10 else ch == c
    case Escaped(c) =>
      if c in "dsw" then InClass(c, ch)
      else if c in "DSW" then !InClass((c as int + 32) as char, ch)
      else if ControlCode(c) >= 0 then ch as int == ControlCode(c)
      else IsPunctuation(c) && ch == c
  }

  /** A letter that may follow a backslash, or any punctuation character. */
  predicate IsSupportedEscape(c: char) {
    c in "dswDSW" || ControlCode(c) >= 0 || IsPunctuation(c)
  }

  lemma {:induction false} PunctuationDecided(ch: char)
    ensures IsAsciiPunct(ch) <==> IsPunctuation(ch)
  {
  }

  /** The cases of the matcher decide what an atom stands for. */
  lemma {:induction false} AtomDecided(escaped: bool, c: char, ch: char)
    ensures AtomMatchesChar(escaped, c, ch) <==> Denotes(if escaped then Escaped(c) else Plain(c), ch)
  {
    PunctuationDecided(c);
  }

  lemma {:induction false} EscapeDecided(c: char)
    ensures IsValidEscape(c) <==> IsSupportedEscape(c)
  {
    PunctuationDecided(c);
  }

  // ---- Grammar ----

  datatype Repeat = Once | Optional | Star | Plus
  datatype Item = Item(atom: Atom, repeat: Repeat)

  /** An expression: `^` if `start`, the items in order, `$` if `end`. */
  datatype Expr = Expr(start: bool, items: seq<Item>, end: bool)

  predicate IsPlain(c: char) { c !in "^$()[]{}|?*+\\" }

  predicate ValidAtom(a: Atom) {
    match a
    case Plain(c) => IsPlain(c)
    case Escaped(c) => IsSupportedEscape(c)
  }

  predicate ValidItems(items: seq<Item>) {
    forall k | 0 <= k < |items| :: ValidAtom(items[k].atom)
  }

  function AtomText(a: Atom): string {
    match a
    case Plain(c) => [c]
    case Escaped(c) => ['\\', c]
  }

  function RepeatText(r: Repeat): string {
    match r
    case Once => ""
    case Optional => "?"
    case Star => "*"
    case Plus => "+"
  }

  function ItemsText(items: seq<Item>): string {
    if items == [] then "" else AtomText(items[0].atom) + RepeatText(items[0].repeat) + ItemsText(items[1..])
  }

  function TailText(items: seq<Item>, end: bool): string {
    ItemsText(items) + if end then "$" else ""
  }

  function Text(e: Expr): string {
    (if e.start then "^" else "") + TailText(e.items, e.end)
  }

  /** `s` is the text of a valid expression. */
  ghost predicate Grammatical(s: string) {
    exists e: Expr :: ValidItems(e.items) && Text(e) == s
  }

  // ---- A parser for the grammar ----

  function RepeatOf(ch: char): Repeat
    requires IsRepeat(ch)
  {
    if ch == '?' then Optional else if ch == '*' then Star else Plus
  }

  function ParseAtom(s: string): Option<Atom>
    requires s != []
  {
    if s[0] == '\\' then if |s| >= 2 && IsSupportedEscape(s[1]) then Some(Escaped(s[1])) else None
    else if IsPlain(s[0]) then Some(Plain(s[0])) else None
  }

  function ParseItem(s: string): (r: Option<(Item, string)>)
    requires s != []
    ensures r.Some? ==> |r.value.1| < |s|
  {
    match ParseAtom(s)
    case None => None
    case Some(a) =>
      var rest := s[|AtomText(a)|..];
      if rest != [] && IsRepeat(rest[0]) then Some((Item(a, RepeatOf(rest[0])), rest[1..]))
      else Some((Item(a, Once), rest))
  }

  function ParseTail(s: string): Option<(seq<Item>, bool)>
    decreases |s|
  {
    if s == [] then Some(([], false))
    else if s == "$" then Some(([], true))
    else
      match ParseItem(s)
      case None => None
      case Some((item, rest)) =>
        match ParseTail(rest)
        case None => None
        case Some((items, end)) => Some(([item] + items, end))
  }

  function Parse(s: string): Option<Expr> {
    var start := s != [] && s[0] == '^';
    match ParseTail(if start then s[1..] else s)
    case None => None
    case Some((items, end)) => Some(Expr(start, items, end))
  }

  lemma {:induction false} ParsedTailIsText(s: string)
    requires ParseTail(s).Some?
    ensures var (items, end) := ParseTail(s).value; ValidItems(items) && TailText(items, end) == s
    decreases |s|
  {
    if s != [] && s != "$" {
      var (item, rest) := ParseItem(s).value;
      ParsedTailIsText(rest);
      var (items, end) := ParseTail(rest).value;
      ParsedItemIsText(s);
      OneMoreItem(item, items, end);
    }
  }

  lemma {:induction false} OneMoreItem(item: Item, items: seq<Item>, end: bool)
    ensures TailText([item] + items, end) == AtomText(item.atom) + RepeatText(item.repeat) + TailText(items, end)
  {
    assert ([item] + items)[1..] == items;
  }

  lemma {:induction false} ParsedItemIsText(s: string)
    requires s != [] && ParseItem(s).Some?
    ensures var (item, rest) := ParseItem(s).value;
      ValidAtom(item.atom) && s == AtomText(item.atom) + RepeatText(item.repeat) + rest
  {
    var a := ParseAtom(s).value;
    assert s == AtomText(a) + s[|AtomText(a)|..];
  }

  /** What follows an item never starts like a repetition. */
  lemma {:induction false} TailStarts(items: seq<Item>, end: bool)
    requires ValidItems(items)
    ensures var t := TailText(items, end);
      && (items == [] ==> t == (if end then "$" else ""))
      && (items != [] ==> t != [] && t != "$" && t[0] !in "^$?*+")
      && (items != [] ==> t == AtomText(items[0].atom) + RepeatText(items[0].repeat) + TailText(items[1..], end))
      && (t != [] ==> !IsRepeat(t[0]) && t[0] != '^')
  {
    if items != [] {
      var t, rest := TailText(items, end), TailText(items[1..], end);
      assert t == AtomText(items[0].atom) + RepeatText(items[0].repeat) + rest;
      assert ValidAtom(items[0].atom);
      assert t[0] == AtomText(items[0].atom)[0];
    }
  }

  lemma {:induction false} ItemParses(item: Item, rest: string)
    requires ValidAtom(item.atom) && (rest != [] ==> !IsRepeat(rest[0]))
    ensures var s := AtomText(item.atom) + RepeatText(item.repeat) + rest;
      s != [] && ParseItem(s) == Some((item, rest))
  {
    var after := RepeatText(item.repeat) + rest;
    var s := AtomText(item.atom) + after;
    assert s == AtomText(item.atom) + RepeatText(item.repeat) + rest;
    assert ParseAtom(s) == Some(item.atom) && s[|AtomText(item.atom)|..] == after;
    match item.repeat {
      case Once => assert after == rest;
      case _ => assert after[1..] == rest;
    }
  }

  lemma {:induction false} TextParsesTail(items: seq<Item>, end: bool)
    requires ValidItems(items)
    ensures ParseTail(TailText(items, end)) == Some((items, end))
    decreases |items|
  {
    TailStarts(items, end);
    if items != [] {
      TailStarts(items[1..], end);
      TextParsesTail(items[1..], end);
      ItemParses(items[0], TailText(items[1..], end));
      assert [items[0]] + items[1..] == items;
    }
  }

  /** The grammar is unambiguous, and `Parse` inverts `Text`. */
  lemma {:induction false} TextParses(e: Expr)
    requires ValidItems(e.items)
    ensures Parse(Text(e)) == Some(e)
  {
    TailStarts(e.items, e.end);
    TextParsesTail(e.items, e.end);
    if e.start {
      assert Text(e)[1..] == TailText(e.items, e.end);
    } else {
      assert Text(e) == TailText(e.items, e.end);
    }
  }

  lemma {:induction false} ParsedIsText(s: string)
    requires Parse(s).Some?
    ensures ValidItems(Parse(s).value.items) && Text(Parse(s).value) == s
  {
    ParsedTailIsText(if s != [] && s[0] == '^' then s[1..] else s);
  }

  // ---- The validator ----

  /** The validator as a recogniser of suffixes: `first` at index 0, `repeatable` when a repetition
      may follow. */
  predicate Recognises(s: string, first: bool, repeatable: bool)
    decreases |s|
  {
    if s == [] then true
    else if s[0] == '\\' then |s| >= 2 && IsSupportedEscape(s[1]) && Recognises(s[2..], false, true)
    else
      && (s[0] == '^' ==> first) && (s[0] == '$' ==> |s| == 1)
      && !IsInSet(s[0], "()[]{}|") && (IsRepeat(s[0]) ==> repeatable)
      && Recognises(s[1..], false, !IsInSet(s[0], "^$?*+"))
  }

  lemma {:induction false} RecognisesTails(s: string, repeatable: bool)
    ensures Recognises(s, false, repeatable) <==>
      ParseTail(s).Some? || (repeatable && s != [] && IsRepeat(s[0]) && ParseTail(s[1..]).Some?)
    decreases |s|
  {
    if s == [] || s == "$" {
    } else if s[0] == '\\' {
      if |s| >= 2 && IsSupportedEscape(s[1]) {
        RecognisesTails(s[2..], true);
        RepeatStartsNothing(s[2..]);
      }
    } else if IsPlain(s[0]) {
      RecognisesTails(s[1..], true);
      RepeatStartsNothing(s[1..]);
    } else {
      RecognisesTails(s[1..], false);
    }
  }

  lemma {:induction false} RepeatStartsNothing(s: string)
    ensures s != [] && IsRepeat(s[0]) ==> ParseTail(s).None?
  {
  }

  /** The recogniser accepts exactly the texts of the grammar. */
  lemma {:induction false} RecognisesGrammar(s: string)
    ensures Recognises(s, true, false) <==> Grammatical(s)
    ensures Grammatical(s) <==> Parse(s).Some?
  {
    if Grammatical(s) {
      var e: Expr :| ValidItems(e.items) && Text(e) == s;
      TextParses(e);
    }
    if Parse(s).Some? {
      ParsedIsText(s);
    }
    if s != [] && s[0] == '^' {
      RecognisesTails(s[1..], false);
    } else {
      RecognisesTails(s, false);
      assert s != [] ==> Recognises(s, true, false) == Recognises(s, false, false);
    }
  }

  /** `ValidateRegex`: keeps going after an error that is not at the end of the text. */
  method ValidateRegex(regex: string) returns (isValid: bool)
    requires NulFree(regex)
    ensures isValid <==> Grammatical(regex)
  {
    isValid := true;
    var repeatable := false;
    var i := 0;
    while At(regex, i) != '\0'
      invariant i <= |regex|
      invariant Recognises(regex, true, false) <==> isValid && Recognises(regex[i..], i == 0, repeatable)
      decreases |regex| - i
    {
      if regex[i] == '\\' {
        i := i + 1;
        if At(regex, i) == '\0' {
          RecognisesGrammar(regex);
          return false;
        }
        EscapeDecided(regex[i]);
        if !IsValidEscape(regex[i]) {
          isValid := false;
        }
        repeatable := true;
      } else {
        var ch := regex[i];
        if ch == '^' && i > 0 {
          isValid := false;
        } else if ch == '$' && At(regex, i + 1) != '\0' {
          isValid := false;
        } else if IsInSet(ch, "()[]{}|") {
          isValid := false;
        } else if IsRepeat(ch) && !repeatable {
          isValid := false;
        }
        repeatable := !IsInSet(ch, "^$?*+");
      }
      i := i + 1;
    }
    RecognisesGrammar(regex);
  }

  // ---- The language of an expression ----

  predicate InItem(item: Item, w: string) {
    && (forall k | 0 <= k < |w| :: Denotes(item.atom, w[k]))
    && (item.repeat == Once ==> |w| == 1)
    && (item.repeat == Optional ==> |w| <= 1)
    && (item.repeat == Plus ==> |w| >= 1)
  }

  ghost predicate InItems(items: seq<Item>, w: string)
    decreases |items|
  {
    if items == [] then w == []
    else exists k | 0 <= k <= |w| :: InItem(items[0], w[..k]) && InItems(items[1..], w[k..])
  }

  /** `str[i..j]` is an occurrence of `e`, where its anchors allow one. */
  ghost predicate Occurs(e: Expr, str: string, i: nat, j: nat)
    requires i <= j <= |str|
  {
    InItems(e.items, str[i..j]) && (e.start ==> i == 0) && (e.end ==> j == |str|)
  }

  ghost predicate OccursSomewhere(e: Expr, str: string) {
    exists i, j | 0 <= i <= j <= |str| :: Occurs(e, str, i, j)
  }

  // ---- The matcher ----

  /** A prefix of `str`, all of it if `end`, is in the language of the items. */
  ghost predicate MatchesHead(items: seq<Item>, end: bool, str: string) {
    exists j | 0 <= j <= |str| :: InItems(items, str[..j]) && (end ==> j == |str|)
  }

  lemma {:induction false} HeadSplits(items: seq<Item>, end: bool, str: string)
    requires items != []
    ensures MatchesHead(items, end, str) <==>
      exists k | 0 <= k <= |str| :: InItem(items[0], str[..k]) && MatchesHead(items[1..], end, str[k..])
  {
    if MatchesHead(items, end, str) {
      var j :| 0 <= j <= |str| && InItems(items, str[..j]) && (end ==> j == |str|);
      var k :| 0 <= k <= j && InItem(items[0], str[..j][..k]) && InItems(items[1..], str[..j][k..]);
      assert str[..j][..k] == str[..k] && str[..j][k..] == str[k..][..j - k];
    }
    if k :| 0 <= k <= |str| && InItem(items[0], str[..k]) && MatchesHead(items[1..], end, str[k..]) {
      var j :| 0 <= j <= |str[k..]| && InItems(items[1..], str[k..][..j]) && (end ==> j == |str[k..]|);
      assert str[..k + j][..k] == str[..k] && str[..k + j][k..] == str[k..][..j];
      assert InItems(items, str[..k + j]);
    }
  }

  lemma {:induction false} NoItemsHead(end: bool, str: string)
    ensures MatchesHead([], end, str) <==> (end ==> str == [])
  {
    assert InItems([], str[..0]);
  }

  lemma {:induction false} OneCharacterHead(items: seq<Item>, end: bool, str: string)
    requires items != [] && items[0].repeat == Once
    ensures MatchesHead(items, end, str) <==>
      str != [] && Denotes(items[0].atom, str[0]) && MatchesHead(items[1..], end, str[1..])
  {
    HeadSplits(items, end, str);
    if str != [] {
      assert str[..1][0] == str[0];
    }
  }

  /** How the matcher finds the first item at the head of the text. */
  lemma {:induction false} FirstItemText(items: seq<Item>, end: bool, regex: string)
    requires items != [] && ValidItems(items) && regex == TailText(items, end)
    ensures regex != [] && (regex[0] == '\\' <==> items[0].atom.Escaped?)
    ensures var rest := if regex[0] == '\\' then regex[1..] else regex;
      && rest != [] && rest[0] == items[0].atom.c
      && (items[0].repeat == Once <==> !IsRepeat(At(rest, 1)))
      && (items[0].repeat == Once ==> rest[1..] == TailText(items[1..], end))
      && (items[0].repeat != Once ==> RepeatOf(rest[1]) == items[0].repeat && rest[2..] == TailText(items[1..], end))
  {
    TailStarts(items, end);
    TailStarts(items[1..], end);
    assert ValidAtom(items[0].atom);
    AfterBackslash(items[0].atom.c, RepeatText(items[0].repeat), TailText(items[1..], end));
    AfterRepeat(items[0].atom.c, items[0].repeat, TailText(items[1..], end));
  }

  lemma {:induction false} AfterBackslash(c: char, repeat: string, tail: string)
    ensures var s := AtomText(Escaped(c)) + repeat + tail; s[0] == '\\' && s[1..] == AtomText(Plain(c)) + repeat + tail
    ensures (AtomText(Plain(c)) + repeat + tail)[0] == c
  {
  }

  lemma {:induction false} AfterRepeat(c: char, repeat: Repeat, tail: string)
    ensures var s := AtomText(Plain(c)) + RepeatText(repeat) + tail;
      if repeat == Once then s[1..] == tail
      else |s| >= 2 && IsRepeat(s[1]) && RepeatOf(s[1]) == repeat && s[2..] == tail
  {
  }

  /** The repetition cannot be longer than `i`, and no shorter one is followed by a match. */
  lemma {:induction false} NoLongerMatch(items: seq<Item>, end: bool, str: string, i: nat)
    requires items != [] && i <= |str|
    requires i == |str| || !Denotes(items[0].atom, str[i]) || (items[0].repeat == Optional && i == 1)
    requires forall k | 0 <= k <= i && (items[0].repeat == Plus ==> k >= 1) :: !MatchesHead(items[1..], end, str[k..])
    ensures !MatchesHead(items, end, str)
  {
    HeadSplits(items, end, str);
    forall k | 0 <= k <= |str| ensures InItem(items[0], str[..k]) ==> !MatchesHead(items[1..], end, str[k..]) {
      if k > i && !Denotes(items[0].atom, str[i]) {
        assert str[..k][i] == str[i];
      }
    }
  }

  /** `i` characters that the first item denotes, followed by a match of the rest. */
  lemma {:induction false} MatchAfter(items: seq<Item>, end: bool, str: string, i: nat)
    requires items != [] && i <= |str| && MatchesHead(items[1..], end, str[i..])
    requires forall k | 0 <= k < i :: Denotes(items[0].atom, str[k])
    requires (items[0].repeat == Plus ==> i >= 1) && (items[0].repeat == Optional ==> i <= 1) && (items[0].repeat == Once ==> i == 1)
    ensures MatchesHead(items, end, str)
  {
    HeadSplits(items, end, str);
    assert InItem(items[0], str[..i]);
  }

  method MatchRepetitionAndRegexAtHead(escaped: bool, c: char, repeat: char, regex: string, str: string,
                                       ghost items: seq<Item>, ghost end: bool) returns (matched: bool)
    requires NulFree(regex) && NulFree(str) && |str| < SIZE_MAX && ValidItems(items) && items != []
    requires items[0].atom == (if escaped then Escaped(c) else Plain(c))
    requires IsRepeat(repeat) && items[0].repeat == RepeatOf(repeat) && regex == TailText(items[1..], end)
    ensures matched <==> MatchesHead(items, end, str)
    decreases |items|, 0
  {
    var minCount := if repeat == '+' then 1 else 0;
    var maxCount := if repeat == '?' then 1 else SIZE_MAX - 1;
    var i := 0;
    while i <= maxCount
      invariant i <= |str| && i <= maxCount + 1
      invariant forall k | 0 <= k < i :: Denotes(items[0].atom, str[k])
      invariant forall k | minCount <= k < i :: !MatchesHead(items[1..], end, str[k..])
      decreases |str| - i
    {
      if i >= minCount {
        matched := MatchRegexAtHead(regex, str[i..], items[1..], end);
        if matched {
          MatchAfter(items, end, str, i);
          return;
        }
      }
      AtomDecided(escaped, c, At(str, i));
      if At(str, i) == '\0' || !AtomMatchesChar(escaped, c, str[i]) {
        NoLongerMatch(items, end, str, i);
        return false;
      }
      i := i + 1;
    }
    NoLongerMatch(items, end, str, i - 1);
    return false;
  }

  method MatchRegexAtHead(regex: string, str: string, ghost items: seq<Item>, ghost end: bool) returns (matched: bool)
    requires NulFree(regex) && NulFree(str) && |str| < SIZE_MAX && ValidItems(items) && regex == TailText(items, end)
    ensures matched <==> MatchesHead(items, end, str)
    decreases |items|, 1
  {
    TailStarts(items, end);
    NoItemsHead(end, str);
    if At(regex, 0) == '\0' {
      return true;
    }
    if regex[0] == '$' {
      return At(str, 0) == '\0';
    }
    FirstItemText(items, end, regex);
    var escaped := regex[0] == '\\';
    var rest := if escaped then regex[1..] else regex;
    if IsRepeat(At(rest, 1)) {
      matched := MatchRepetitionAndRegexAtHead(escaped, rest[0], rest[1], rest[2..], str, items, end);
    } else {
      OneCharacterHead(items, end, str);
      AtomDecided(escaped, rest[0], At(str, 0));
      matched := At(str, 0) != '\0' && AtomMatchesChar(escaped, rest[0], str[0]);
      if matched {
        matched := MatchRegexAtHead(rest[1..], str[1..], items[1..], end);
      }
    }
  }

  // ---- Searching and full matches ----

  /** A C string pointer. */
  datatype CString = Null | Chars(chars: string)

  predicate Usable(s: CString) {
    s.Chars? ==> NulFree(s.chars) && |s.chars| < SIZE_MAX
  }

  lemma {:induction false} OccursFrom(e: Expr, str: string, i: nat)
    requires i <= |str| && (e.start ==> i == 0)
    ensures MatchesHead(e.items, e.end, str[i..]) <==> exists j | i <= j <= |str| :: Occurs(e, str, i, j)
  {
    if MatchesHead(e.items, e.end, str[i..]) {
      var j :| 0 <= j <= |str[i..]| && InItems(e.items, str[i..][..j]) && (e.end ==> j == |str[i..]|);
      assert str[i..][..j] == str[i..i + j];
      assert Occurs(e, str, i, i + j);
    }
    if j :| i <= j <= |str| && Occurs(e, str, i, j) {
      assert str[i..][..j - i] == str[i..j];
    }
  }

  /** `MatchRegexAnywhere`: with `^` only the head is tried, otherwise every suffix in turn. */
  method MatchRegexAnywhere(regex: CString, str: CString, ghost e: Expr) returns (matched: bool)
    requires Usable(regex) && Usable(str) && ValidItems(e.items) && (regex.Chars? ==> regex.chars == Text(e))
    ensures matched <==> regex.Chars? && str.Chars? && OccursSomewhere(e, str.chars)
  {
    if regex.Null? || str.Null? {
      return false;
    }
    TailStarts(e.items, e.end);
    if At(regex.chars, 0) == '^' {
      assert regex.chars[1..] == TailText(e.items, e.end) && str.chars[0..] == str.chars;
      matched := MatchRegexAtHead(regex.chars[1..], str.chars, e.items, e.end);
      OccursFrom(e, str.chars, 0);
      return;
    }
    assert regex.chars == TailText(e.items, e.end);
    var i := 0;
    while true
      invariant i <= |str.chars|
      invariant forall k, j | 0 <= k < i && k <= j <= |str.chars| :: !Occurs(e, str.chars, k, j)
      decreases |str.chars| - i
    {
      matched := MatchRegexAtHead(regex.chars, str.chars[i..], e.items, e.end);
      OccursFrom(e, str.chars, i);
      if matched || At(str.chars, i) == '\0' {
        return;
      }
      i := i + 1;
    }
  }

  /** The last item is a dollar sign that stands for itself. */
  predicate EndsInEscapedDollar(e: Expr) {
    !e.end && e.items != [] && e.items[|e.items| - 1] == Item(Escaped('$'), Once)
  }

  /** What `Init` makes of a valid expression: both anchors, except that a text ending in an escaped
      dollar sign passes for one that has its `$` already. */
  function FullExpr(e: Expr): Expr {
    Expr(true, e.items, !EndsInEscapedDollar(e))
  }

  lemma {:induction false} LastCharacter(items: seq<Item>)
    requires ValidItems(items) && items != []
    ensures ItemsText(items) != []
    ensures ItemsText(items)[|ItemsText(items)| - 1] == '$' <==> items[|items| - 1] == Item(Escaped('$'), Once)
    decreases |items|
  {
    var item := items[0];
    assert ValidAtom(item.atom);
    assert ItemsText(items) == AtomText(item.atom) + RepeatText(item.repeat) + ItemsText(items[1..]);
    if |items| > 1 {
      LastCharacter(items[1..]);
    }
  }

  predicate EndsInDollar(s: string) {
    s != [] && s[|s| - 1] == '$'
  }

  lemma {:induction false} TailEndsInDollar(e: Expr)
    requires ValidItems(e.items)
    ensures EndsInDollar(TailText(e.items, e.end)) <==> e.end || EndsInEscapedDollar(e)
  {
    if e.end {
    } else if e.items != [] {
      LastCharacter(e.items);
      assert TailText(e.items, false) == ItemsText(e.items);
    }
  }

  lemma {:induction false} FullText(regex: string)
    requires Grammatical(regex)
    ensures Parse(regex).Some?
    ensures Text(FullExpr(Parse(regex).value)) ==
      (if At(regex, 0) != '^' then "^" else "") + regex + (if EndsInDollar(regex) then "" else "$")
  {
    assert Parse(regex).Some? by {
      RecognisesGrammar(regex);
    }
    ParsedIsText(regex);
    AnchorsAdded(Parse(regex).value);
  }

  lemma {:induction false} AnchoredText(start: bool, tail: string)
    requires At(tail, 0) != '^'
    ensures var regex := (if start then "^" else "") + tail;
      (EndsInDollar(regex) <==> EndsInDollar(tail)) && (if At(regex, 0) != '^' then "^" else "") + regex == "^" + tail
  {
  }

  lemma {:induction false} AnchorsAdded(e: Expr)
    requires ValidItems(e.items)
    ensures var regex := Text(e);
      Text(FullExpr(e)) == (if At(regex, 0) != '^' then "^" else "") + regex + (if EndsInDollar(regex) then "" else "$")
  {
    var tail, regex := TailText(e.items, e.end), Text(e);
    TailStarts(e.items, e.end);
    TailEndsInDollar(e);
    AnchoredText(e.start, tail);
    if !EndsInDollar(tail) {
      assert TailText(e.items, true) == tail + "$";
    }
  }

  /** The second half of `RE::Init`, which fills the buffer of the full pattern. */
  method Anchored(regex: string) returns (buffer: string)
    requires NulFree(regex) && Grammatical(regex)
    ensures Parse(regex).Some? && buffer == Text(FullExpr(Parse(regex).value))
    ensures NulFree(buffer) && |buffer| <= |regex| + 2
  {
    var len := |regex|;
    buffer := if At(regex, 0) != '^' then "^" else "";
    buffer := buffer + regex;
    if len == 0 || regex[len - 1] != '$' {
      buffer := buffer + "$";
    }
    FullText(regex);
  }

  /** `RE`: the pattern, and the one used for full matches if the pattern is valid. */
  class RE {
    const pattern: CString
    const fullPattern: CString
    const isValid: bool

    /** `Init`. */
    constructor (regex: CString)
      requires Usable(regex) && (regex.Chars? ==> |regex.chars| + 2 < SIZE_MAX)
      ensures pattern == regex && Ready()
    {
      var valid := false;
      var full := Null;
      if regex.Chars? {
        valid := ValidateRegex(regex.chars);
        if valid {
          RecognisesGrammar(regex.chars);
          var buffer := Anchored(regex.chars);
          full := Chars(buffer);
        }
      }
      pattern, fullPattern, isValid := regex, full, valid;
    }

    ghost predicate Ready() {
      && Usable(pattern) && Usable(fullPattern)
      && (isValid <==> pattern.Chars? && Grammatical(pattern.chars))
      && (isValid ==> Parse(pattern.chars).Some?
                      && fullPattern == Chars(Text(FullExpr(Parse(pattern.chars).value))))
    }

    /** A substring of `str` is in the language of the pattern, where its anchors allow it. */
    static method PartialMatch(str: CString, re: RE) returns (matched: bool)
      requires re.Ready() && Usable(str)
      ensures matched <==> re.isValid && str.Chars? && OccursSomewhere(Parse(re.pattern.chars).value, str.chars)
    {
      matched := re.isValid;
      if matched {
        ParsedIsText(re.pattern.chars);
        matched := MatchRegexAnywhere(re.pattern, str, Parse(re.pattern.chars).value);
      }
    }

    /** The whole of `str` is in the language of the items; a prefix of it is enough when the pattern
        ends in an escaped dollar sign. */
    static method FullMatch(str: CString, re: RE) returns (matched: bool)
      requires re.Ready() && Usable(str)
      ensures matched <==> re.isValid && str.Chars? && FullMatches(Parse(re.pattern.chars).value, str.chars)
    {
      matched := re.isValid;
      if matched {
        ParsedIsText(re.pattern.chars);
        ghost var e := Parse(re.pattern.chars).value;
        matched := MatchRegexAnywhere(re.fullPattern, str, FullExpr(e));
        if str.Chars? {
          FullOccurrence(e, str.chars);
        }
      }
    }
  }

  ghost predicate FullMatches(e: Expr, str: string) {
    if EndsInEscapedDollar(e) then exists j | 0 <= j <= |str| :: InItems(e.items, str[..j])
    else InItems(e.items, str)
  }

  lemma {:induction false} FullOccurrence(e: Expr, str: string)
    ensures OccursSomewhere(FullExpr(e), str) <==> FullMatches(e, str)
  {
    assert forall j | 0 <= j <= |str| :: str[0..j] == str[..j];
    assert str[..|str|] == str;
    if j :| 0 <= j <= |str| && InItems(e.items, str[..j]) && (EndsInEscapedDollar(e) || j == |str|) {
      assert Occurs(FullExpr(e), str, 0, j);
    }
  }

  // ---- Exactly when a full match is one ----

  /** Some character that the atom denotes. */
  function Sample(a: Atom): (ch: char)
    requires ValidAtom(a)
    ensures Denotes(a, ch)
  {
    match a
    case Plain(c) => c
    case Escaped(c) =>
      match c
      case 'd' => '0'
      case 'D' => 'a'
      case 'f' => '\U{0C}'
      case 'n' => '\n'
      case 'r' => '\r'
      case 's' => ' '
      case 'S' => 'a'
      case 't' => '\t'
      case 'v' => '\U{0B}'
      case 'w' => 'a'
      case 'W' => ' '
      case _ => c
  }

  function Sentence(items: seq<Item>): string
    requires ValidItems(items)
    decreases |items|
  {
    if items == [] then "" else [Sample(items[0].atom)] + Sentence(items[1..])
  }

  lemma {:induction false} SentenceInItems(items: seq<Item>)
    requires ValidItems(items)
    ensures InItems(items, Sentence(items))
    decreases |items|
  {
    if items != [] {
      SentenceInItems(items[1..]);
      var w := Sentence(items);
      assert w[..1] == [Sample(items[0].atom)] && w[1..] == Sentence(items[1..]);
      assert InItem(items[0], w[..1]);
    }
  }

  lemma {:induction false} EndsWithDollar(items: seq<Item>, w: string)
    requires items != [] && items[|items| - 1] == Item(Escaped('$'), Once) && InItems(items, w)
    ensures w != [] && w[|w| - 1] == '$'
    decreases |items|
  {
    var k :| 0 <= k <= |w| && InItem(items[0], w[..k]) && InItems(items[1..], w[k..]);
    if |items| == 1 {
      assert w[..k][0] == w[0] && Denotes(items[0].atom, w[..k][0]);
    } else {
      EndsWithDollar(items[1..], w[k..]);
    }
  }

  lemma {:induction false} NulFreeParts(a: string, b: string)
    requires NulFree(a + b)
    ensures NulFree(a) && NulFree(b)
  {
    assert forall k | 0 <= k < |a| :: a[k] == (a + b)[k];
    assert forall k | 0 <= k < |b| :: b[k] == (a + b)[|a| + k];
  }

  lemma {:induction false} SampleIsUsable(a: Atom)
    requires ValidAtom(a) && NulFree(AtomText(a))
    ensures Sample(a) != '\0'
  {
    match a
    case Plain(c) => assert AtomText(a)[0] == c;
    case Escaped(c) => assert AtomText(a)[1] == c;
  }

  lemma {:induction false} SentenceIsUsable(items: seq<Item>)
    requires ValidItems(items) && NulFree(ItemsText(items))
    ensures NulFree(Sentence(items)) && |Sentence(items)| <= |ItemsText(items)|
    decreases |items|
  {
    if items != [] {
      var atom, repeat, rest := AtomText(items[0].atom), RepeatText(items[0].repeat), ItemsText(items[1..]);
      NulFreeParts(atom + repeat, rest);
      NulFreeParts(atom, repeat);
      SampleIsUsable(items[0].atom);
      SentenceIsUsable(items[1..]);
    }
  }

  /** The items are a part of the text. */
  lemma {:induction false} ItemsInText(e: Expr)
    requires NulFree(Text(e))
    ensures NulFree(ItemsText(e.items)) && |ItemsText(e.items)| <= |Text(e)|
  {
    var n := if e.start then 1 else 0;
    assert forall k | 0 <= k < |ItemsText(e.items)| :: ItemsText(e.items)[k] == Text(e)[n + k];
  }

  /** For every pattern, `FullMatch` accepts exactly the strings of the language if and only if the
      pattern does not end in an escaped dollar sign. */
  lemma {:induction false} FullMatchIsWholeMatch(e: Expr)
    requires ValidItems(e.items) && NulFree(Text(e)) && |Text(e)| + 2 < SIZE_MAX
    ensures (forall str | Usable(Chars(str)) :: FullMatches(e, str) <==> InItems(e.items, str)) <==> !EndsInEscapedDollar(e)
  {
    if EndsInEscapedDollar(e) {
      var w := Sentence(e.items);
      SentenceInItems(e.items);
      ItemsInText(e);
      SentenceIsUsable(e.items);
      assert Usable(Chars(w + "x"));
      assert (w + "x")[..|w|] == w && FullMatches(e, w + "x");
      if InItems(e.items, w + "x") {
        EndsWithDollar(e.items, w + "x");
      }
    }
  }

  lemma {:induction false} EscapedDollarExample()
    ensures Parse("\\$") == Some(Expr(false, [Item(Escaped('$'), Once)], false))
    ensures FullMatches(Parse("\\$").value, "$x") && !InItems(Parse("\\$").value.items, "$x")
  {
    var items := [Item(Escaped('$'), Once)];
    var e := Expr(false, items, false);
    assert ValidItems(items);
    TextParses(e);
    assert Text(e) == "\\$";
    assert "$x"[..1] == "$" && InItem(items[0], "$x"[..1]) && InItems([], ""[0..]);
    assert "$"[..1] == "$" && "$"[1..] == "" && InItems(items, "$");
    if InItems(items, "$x") {
      EndsWithDollar(items, "$x");
    }
  }

  // ---- Patterns without special characters ----

  /** A pattern character that stands for itself. */
  predicate IsOrdinary(c: char) { IsPlain(c) && c != '.' }

  function PlainItems(s: string): (items: seq<Item>)
    ensures |items| == |s| && forall k | 0 <= k < |s| :: items[k] == Item(Plain(s[k]), Once)
  {
    seq(|s|, k requires 0 <= k < |s| => Item(Plain(s[k]), Once))
  }

  lemma {:induction false} PlainText(s: string)
    ensures ItemsText(PlainItems(s)) == s
    decreases |s|
  {
    if s != "" {
      PlainText(s[1..]);
      assert PlainItems(s)[1..] == PlainItems(s[1..]);
      assert s == [s[0]] + s[1..];
    }
  }

  lemma {:induction false} PlainLanguage(s: string, w: string)
    requires forall k | 0 <= k < |s| :: IsOrdinary(s[k])
    ensures InItems(PlainItems(s), w) <==> w == s
    decreases |s|
  {
    if s != "" {
      var items := PlainItems(s);
      assert items[1..] == PlainItems(s[1..]);
      if k :| 0 <= k <= |w| && InItem(items[0], w[..k]) && InItems(items[1..], w[k..]) {
        PlainLanguage(s[1..], w[k..]);
        assert w[..k][0] == s[0] && w == w[..k] + w[k..] && s == [s[0]] + s[1..];
      }
      if w == s {
        PlainLanguage(s[1..], s[1..]);
        assert w[..1] == [s[0]] && InItem(items[0], w[..1]) && InItems(items[1..], w[1..]);
      }
    }
  }

  predicate IsAt(str: string, s: string, i: nat) {
    i + |s| <= |str| && str[i..i + |s|] == s
  }

  ghost predicate IsSubstring(str: string, s: string) {
    exists i: nat :: IsAt(str, s, i)
  }

  lemma {:induction false} PlainOccurs(s: string, str: string)
    requires forall k | 0 <= k < |s| :: IsOrdinary(s[k])
    ensures OccursSomewhere(Expr(false, PlainItems(s), false), str) <==> IsSubstring(str, s)
  {
    var e := Expr(false, PlainItems(s), false);
    if i, j :| 0 <= i <= j <= |str| && Occurs(e, str, i, j) {
      PlainLanguage(s, str[i..j]);
      assert IsAt(str, s, i);
    }
    if i: nat :| IsAt(str, s, i) {
      PlainLanguage(s, s);
      assert Occurs(e, str, i, i + |s|);
    }
  }

  /** A pattern of ordinary characters is a valid pattern.  It occurs in a string if and only if it is a
      substring, and matches it fully if and only if the two are equal. */
  lemma {:induction false} PlainPatternIsSubstring(s: string, str: string)
    requires forall k | 0 <= k < |s| :: IsOrdinary(s[k])
    ensures Grammatical(s) && Parse(s) == Some(Expr(false, PlainItems(s), false))
    ensures OccursSomewhere(Parse(s).value, str) <==> IsSubstring(str, s)
    ensures FullMatches(Parse(s).value, str) <==> str == s
  {
    var e := Expr(false, PlainItems(s), false);
    PlainText(s);
    assert Text(e) == s;
    TextParses(e);
    PlainOccurs(s, str);
    PlainLanguage(s, str);
  }

  // ---- What the matcher takes the escapes for ----

  /** What the matcher takes the escapes and `.` for: the classes, each capital one the complement of its
      small one, the control characters by their codes, and punctuation for itself. */
  lemma {:induction false} EscapeClasses(c: char, ch: char)
    ensures AtomMatchesChar(true, 'D', ch) <==> !AtomMatchesChar(true, 'd', ch)
    ensures AtomMatchesChar(true, 'S', ch) <==> !AtomMatchesChar(true, 's', ch)
    ensures AtomMatchesChar(true, 'W', ch) <==> !AtomMatchesChar(true, 'w', ch)
    ensures AtomMatchesChar(true, 'd', ch) <==> ch in "0123456789"
    ensures AtomMatchesChar(true, 's', ch) <==> ch as int in {9, 10, 11, 12, 13, 32}
    ensures AtomMatchesChar(true, 'w', ch) <==> ch in "0123456789" || 'a' <= ch <= 'z' || 'A' <= ch <= 'Z' || ch == '_'
    ensures (AtomMatchesChar(true, 't', ch) <==> ch as int == 9) && (AtomMatchesChar(true, 'n', ch) <==> ch as int == 10)
    ensures (AtomMatchesChar(true, 'v', ch) <==> ch as int == 11) && (AtomMatchesChar(true, 'f', ch) <==> ch as int == 12)
    ensures AtomMatchesChar(true, 'r', ch) <==> ch as int == 13
    ensures IsPunctuation(c) ==> (AtomMatchesChar(true, c, ch) <==> ch == c)
    ensures AtomMatchesChar(false, c, ch) <==> if c == '.' then ch as int != 10 else ch == c
  {
    AtomDecided(false, c, ch);
    AtomDecided(true, c, ch);
    AtomDecided(true, 's', ch);
    AtomDecided(true, 'S', ch);
  }
}
