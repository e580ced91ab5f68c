/** Escaping text for an XML report, and reading it back as an XML processor does (sections 2.4, 2.7,
    3.3.3 and 4.1 of XML 1.0).

    A `char` of the source is a byte; it is signed, so a byte from 0x80 on is a negative number. */
module Xml {
  import opened Wrappers
  import opened Octets

  function Append(front: string, r: Option<string>): Option<string> {
    match r
    case None => None
    case Some(back) => Some(front + back)
  }

  // ---- Escaping ----

  predicate Bytes(s: string) {
    forall k | 0 <= k < |s| :: s[k] as int < 256
  }

  function SignedValue(c: char): int {
    if c as int < 128 then c as int else c as int - 256
  }

  predicate IsNormalizableWhitespace(c: char) { c == '\t' || c == '\n' || c == '\r' }

  predicate IsValidXmlCharacter(c: char) { IsNormalizableWhitespace(c) || SignedValue(c) >= 0x20 }

  /** The characters that a report contains, by their codes: tabs, line feeds and carriage returns, and
      from the space up to the last code of 7 bits. */
  predicate IsKept(c: char) {
    var code := c as int;
    code == 9 || code == 10 || code == 13 || 0x20 <= code <= 0x7F
  }

  /** The test on signed characters drops every byte from 0x80 on. */
  lemma {:induction false} ValidIsKept(c: char)
    requires c as int < 256
    ensures IsValidXmlCharacter(c) <==> IsKept(c)
  {
  }

  /** `%02X`. */
  function FormatByte(c: char): string
    requires c as int < 256
  {
    [HexDigit(c as int / 16), HexDigit(c as int % 16)]
  }

  function EscapeChar(ch: char, isAttribute: bool): string
    requires ch as int < 256
  {
    match ch
    case '<' => "&lt;"
    case '>' => "&gt;"
    case '&' => "&amp;"
    case '\'' => if isAttribute then "&apos;" else "'"
    case '"' => if isAttribute then "&quot;" else "\""
    case _ =>
      if !IsValidXmlCharacter(ch) then ""
      else if isAttribute && IsNormalizableWhitespace(ch) then "&#x" + FormatByte(ch) + ";"
      else [ch]
  }

  function Escaped(s: string, isAttribute: bool): string
    requires Bytes(s)
  {
    if s == "" then "" else EscapeChar(s[0], isAttribute) + Escaped(s[1..], isAttribute)
  }

  predicate AllKept(s: string) {
    forall k | 0 <= k < |s| :: IsKept(s[k])
  }

  function OnlyKept(s: string): string {
    if s == "" then "" else (if IsKept(s[0]) then [s[0]] else "") + OnlyKept(s[1..])
  }

  lemma {:induction false} OnlyKeptKeeps(s: string)
    ensures AllKept(OnlyKept(s)) && (AllKept(s) ==> OnlyKept(s) == s)
    decreases |s|
  {
    if s != "" {
      OnlyKeptKeeps(s[1..]);
      if AllKept(s) {
        assert IsKept(s[0]) && AllKept(s[1..]);
        assert s == [s[0]] + s[1..];
      }
    }
  }

  // ---- Reading ----

  predicate StartsWith(s: string, prefix: string) {
    |prefix| <= |s| && s[..|prefix|] == prefix
  }

  /** The character of the reference that starts `s`, and its length.  Character references are read
      with two digits, which is all that is written. */
  function ReadReference(s: string): (r: Option<(char, nat)>)
    ensures r.Some? ==> 0 < r.value.1 <= |s|
  {
    if StartsWith(s, "&lt;") then Some(('<', 4))
    else if StartsWith(s, "&gt;") then Some(('>', 4))
    else if StartsWith(s, "&amp;") then Some(('&', 5))
    else if StartsWith(s, "&apos;") then Some(('\'', 6))
    else if StartsWith(s, "&quot;") then Some(('"', 6))
    else if StartsWith(s, "&#x") && |s| >= 6 && IsHex(s[3]) && IsHex(s[4]) && s[5] == ';' then
      Some(((DigitValue(s[3]) * 16 + DigitValue(s[4])) as char, 6))
    else None
  }

  /** Reads text, or the value of an attribute in double quotes, where a white space character that is
      not written as a reference is read as a space. */
  function Read(s: string, isAttribute: bool): Option<string>
    decreases |s|
  {
    if s == "" then Some("")
    else if s[0] == '&' then
      match ReadReference(s)
      case None => None
      case Some((c, n)) => Append([c], Read(s[n..], isAttribute))
    else if s[0] == '<' || (isAttribute && s[0] == '"') then None
    else
      Append(if isAttribute && IsNormalizableWhitespace(s[0]) then " " else [s[0]], Read(s[1..], isAttribute))
  }

  // ---- Round trip ----

  lemma {:induction false} ReferenceReads(ch: char, isAttribute: bool, rest: string)
    requires ch as int < 256 && EscapeChar(ch, isAttribute) != "" && EscapeChar(ch, isAttribute)[0] == '&'
    ensures ReadReference(EscapeChar(ch, isAttribute) + rest) == Some((ch, |EscapeChar(ch, isAttribute)|))
  {
    var text := EscapeChar(ch, isAttribute);
    var s := text + rest;
    assert s[..|text|] == text;
    if IsNormalizableWhitespace(ch) {
      assert s[..3] == "&#x" && s[1] == '#';
    } else {
      assert s[1] == text[1] && s[2] == text[2];
    }
  }

  lemma {:induction false} CharReads(ch: char, isAttribute: bool, rest: string)
    requires ch as int < 256
    ensures Read(EscapeChar(ch, isAttribute) + rest, isAttribute)
      == Append(if IsKept(ch) then [ch] else "", Read(rest, isAttribute))
  {
    ValidIsKept(ch);
    var text := EscapeChar(ch, isAttribute);
    if text == "" {
      assert text + rest == rest;
      assert Read(rest, isAttribute).Some? ==> "" + Read(rest, isAttribute).value == Read(rest, isAttribute).value;
    } else {
      assert (text + rest)[|text|..] == rest;
      if text[0] == '&' {
        ReferenceReads(ch, isAttribute, rest);
      }
    }
  }

  /** Whatever the text was, the reader gets the characters that are kept, in both modes. */
  lemma {:induction false} EscapedReads(s: string, isAttribute: bool)
    requires Bytes(s)
    ensures Read(Escaped(s, isAttribute), isAttribute) == Some(OnlyKept(s))
    decreases |s|
  {
    if s != "" {
      EscapedReads(s[1..], isAttribute);
      CharReads(s[0], isAttribute, Escaped(s[1..], isAttribute));
    }
  }

  lemma {:induction false} EscapedCons(s: string, i: nat, isAttribute: bool, m: string)
    requires Bytes(s) && i < |s|
    ensures m + Escaped(s[i..], isAttribute) == (m + EscapeChar(s[i], isAttribute)) + Escaped(s[i + 1..], isAttribute)
  {
    assert s[i..][1..] == s[i + 1..];
  }

  /** What is never written as itself. */
  predicate IsSpecial(c: char, isAttribute: bool) {
    c == '<' || c == '>' || c == '&' || (isAttribute && (c == '\'' || c == '"' || IsNormalizableWhitespace(c)))
  }

  predicate AllPlain(s: string, isAttribute: bool) {
    forall k | 0 <= k < |s| :: IsKept(s[k]) && !IsSpecial(s[k], isAttribute)
  }

  /** Only characters that are kept are written, special ones as references only, which `&` starts. */
  predicate Safe(m: string, isAttribute: bool) {
    forall k | 0 <= k < |m| :: IsKept(m[k]) && (IsSpecial(m[k], isAttribute) ==> m[k] == '&')
  }

  lemma {:induction false} CharIsSafe(ch: char, isAttribute: bool)
    requires ch as int < 256
    ensures Safe(EscapeChar(ch, isAttribute), isAttribute)
    ensures IsKept(ch) && !IsSpecial(ch, isAttribute) ==> EscapeChar(ch, isAttribute) == [ch]
  {
    ValidIsKept(ch);
  }

  lemma {:induction false} EscapedIsSafe(s: string, isAttribute: bool)
    requires Bytes(s)
    ensures Safe(Escaped(s, isAttribute), isAttribute)
    ensures AllPlain(s, isAttribute) ==> Escaped(s, isAttribute) == s
    decreases |s|
  {
    if s != "" {
      CharIsSafe(s[0], isAttribute);
      EscapedIsSafe(s[1..], isAttribute);
      assert s == [s[0]] + s[1..];
      assert AllPlain(s, isAttribute) ==> IsKept(s[0]) && !IsSpecial(s[0], isAttribute) && AllPlain(s[1..], isAttribute);
    }
  }

  /** `EscapeXml`: in particular, text of characters that are kept is read back whole, and text without
      special characters is written as it is. */
  method EscapeXml(str: string, isAttribute: bool) returns (m: string)
    requires Bytes(str)
    ensures Read(m, isAttribute) == Some(OnlyKept(str)) && Safe(m, isAttribute)
    ensures AllKept(str) ==> Read(m, isAttribute) == Some(str)
    ensures AllPlain(str, isAttribute) ==> m == str
  {
    m := "";
    var i := 0;
    while i < |str|
      invariant i <= |str| && m + Escaped(str[i..], isAttribute) == Escaped(str, isAttribute)
    {
      EscapedCons(str, i, isAttribute, m);
      m := m + EscapeChar(str[i], isAttribute);
      i := i + 1;
    }
    assert m == Escaped(str, isAttribute);
    EscapedReads(str, isAttribute);
    EscapedIsSafe(str, isAttribute);
    OnlyKeptKeeps(str);
  }

  /** `RemoveInvalidXmlCharacters`: in particular, text of characters that are kept is not changed. */
  method RemoveInvalidXmlCharacters(str: string) returns (output: string)
    requires Bytes(str)
    ensures output == OnlyKept(str) && AllKept(output)
    ensures AllKept(str) ==> output == str
  {
    output := "";
    var i := 0;
    while i < |str|
      invariant i <= |str| && output + OnlyKept(str[i..]) == OnlyKept(str)
    {
      ValidIsKept(str[i]);
      if IsValidXmlCharacter(str[i]) {
        output := output + [str[i]];
      }
      i := i + 1;
    }
    OnlyKeptKeeps(str);
  }

  // ---- CDATA sections ----

  /** Reads character data: references, and sections up to their first terminator. */
  function ReadContent(s: string): Option<string>
    decreases |s|
  {
    if s == "" then Some("")
    else if StartsWith(s, "<![CDATA[") then ReadSection(s[9..])
    else if s[0] == '&' then
      match ReadReference(s)
      case None => None
      case Some((c, n)) => Append([c], ReadContent(s[n..]))
    else if s[0] == '<' then None
    else Append([s[0]], ReadContent(s[1..]))
  }

  /** `]]>` is at position `k` of `s`. */
  predicate TerminatorAt(s: string, k: nat) {
    k + 3 <= |s| && s[k] == ']' && s[k + 1] == ']' && s[k + 2] == '>'
  }

  function ReadSection(s: string): Option<string>
    decreases |s|
  {
    if s == "" then None
    else if TerminatorAt(s, 0) then ReadContent(s[3..])
    else Append([s[0]], ReadSection(s[1..]))
  }

  predicate NoTerminator(s: string) {
    forall k | 0 <= k < |s| :: !TerminatorAt(s, k)
  }

  /** Where the first terminator is; the length if there is none. */
  function FirstTerminator(s: string): (at: nat)
    ensures at <= |s| && (forall k | 0 <= k < at :: !TerminatorAt(s, k)) && (at < |s| ==> TerminatorAt(s, at))
  {
    if s == "" || TerminatorAt(s, 0) then 0
    else
      var at := 1 + FirstTerminator(s[1..]);
      assert forall k | 0 < k < at :: TerminatorAt(s, k) == TerminatorAt(s[1..], k - 1);
      at
  }

  lemma {:induction false} BeforeTerminator(s: string)
    ensures NoTerminator(s[..FirstTerminator(s)])
  {
    var at := FirstTerminator(s);
    forall k | 0 <= k < at ensures !TerminatorAt(s[..at], k) {
      assert !TerminatorAt(s, k);
    }
  }

  /** `strstr` for the terminator. */
  method FindTerminator(s: string) returns (at: nat)
    ensures at == FirstTerminator(s)
  {
    at := 0;
    while at < |s| && !TerminatorAt(s, at)
      invariant at <= |s| && forall k | 0 <= k < at :: !TerminatorAt(s, k)
    {
      at := at + 1;
    }
  }

  /** A segment without terminator is read up to the terminator that is written after it, even if it
      ends in brackets. */
  lemma {:induction false} SegmentReads(segment: string, rest: string)
    requires NoTerminator(segment)
    ensures ReadSection(segment + "]]>" + rest) == Append(segment, ReadContent(rest))
    decreases |segment|
  {
    var s := segment + "]]>" + rest;
    if segment == "" {
      assert s[3..] == rest && TerminatorAt(s, 0);
      AppendNothing(ReadContent(rest));
    } else {
      assert s[1..] == segment[1..] + "]]>" + rest;
      assert !TerminatorAt(s, 0) by {
        assert !TerminatorAt(segment, 0);
      }
      forall k | 0 <= k < |segment[1..]| ensures !TerminatorAt(segment[1..], k) {
        assert !TerminatorAt(segment, k + 1);
      }
      SegmentReads(segment[1..], rest);
      AppendTwice([segment[0]], segment[1..], ReadContent(rest));
      assert [segment[0]] + segment[1..] == segment;
    }
  }

  lemma {:induction false} AppendNothing(r: Option<string>)
    ensures Append("", r) == r
  {
    assert r.Some? ==> "" + r.value == r.value;
  }

  lemma {:induction false} AppendTwice(front: string, middle: string, r: Option<string>)
    ensures Append(front, Append(middle, r)) == Append(front + middle, r)
  {
    assert r.Some? ==> front + (middle + r.value) == front + middle + r.value;
  }

  const OPEN := "<![CDATA["
  const CLOSE := "]]>"
  const ESCAPED_CLOSE := "]]&gt;"

  lemma {:induction false} OpenReads(rest: string)
    ensures ReadContent(OPEN + rest) == ReadSection(rest)
  {
    assert (OPEN + rest)[..9] == OPEN && (OPEN + rest)[9..] == rest;
  }

  lemma {:induction false} GreaterReads(rest: string)
    ensures ReadContent("&gt;" + rest) == Append(">", ReadContent(rest))
  {
    var s := "&gt;" + rest;
    assert s[..4] == "&gt;" && s[4..] == rest;
    assert s[1] == 'g';
  }

  /** Between two sections the terminator is written as character data. */
  lemma {:induction false} EscapedCloseReads(rest: string)
    ensures ReadContent(ESCAPED_CLOSE + rest) == Append(CLOSE, ReadContent(rest))
  {
    var s2 := "&gt;" + rest;
    var s1 := "]" + s2;
    var s0 := "]" + s1;
    GreaterReads(rest);
    assert s1[1..] == s2 && ReadContent(s1) == Append("]", ReadContent(s2));
    assert s0[1..] == s1 && ReadContent(s0) == Append("]", ReadContent(s1));
    AppendTwice("]", ">", ReadContent(rest));
    AppendTwice("]", "]>", ReadContent(rest));
    assert "]" + ">" == "]>" && "]" + "]>" == CLOSE;
    assert s0 == ESCAPED_CLOSE + rest;
  }

  /** What closes a section, stands for its terminator and opens the next section. */
  const SEAM := "]]>]]&gt;<![CDATA["

  lemma {:induction false} Associate(a: string, b: string, c: string, d: string)
    ensures a + (b + c + d) == (a + b) + c + d
    ensures a + (b + c) == (a + b) + c
    ensures (a + b + c) + d == a + (b + (c + d))
  {
  }

  lemma {:induction false} SeamReads(segment: string, rest: string)
    requires NoTerminator(segment)
    ensures ReadSection(segment + SEAM + rest) == Append(segment + CLOSE, ReadSection(rest))
  {
    assert SEAM == CLOSE + ESCAPED_CLOSE + OPEN;
    Associate(CLOSE, ESCAPED_CLOSE, OPEN, rest);
    Associate(segment, SEAM, rest, "");
    Associate(segment, CLOSE, ESCAPED_CLOSE + (OPEN + rest), "");
    SegmentReads(segment, ESCAPED_CLOSE + (OPEN + rest));
    EscapedCloseReads(OPEN + rest);
    OpenReads(rest);
    AppendTwice(segment, CLOSE, ReadSection(rest));
  }

  /** What is written for the rest of the data after the opening of a section. */
  function Sections(data: string): string
    decreases |data|
  {
    var at := FirstTerminator(data);
    if at == |data| then data + CLOSE else data[..at] + SEAM + Sections(data[at + 3..])
  }

  lemma {:induction false} SectionsRead(data: string)
    ensures ReadSection(Sections(data)) == Some(data)
    decreases |data|
  {
    var at := FirstTerminator(data);
    BeforeTerminator(data);
    if at == |data| {
      assert data[..at] == data;
      SegmentReads(data, "");
      assert data + "]]>" + "" == data + CLOSE && data + "" == data;
    } else {
      SectionsRead(data[at + 3..]);
      SeamReads(data[..at], Sections(data[at + 3..]));
      assert data[..at] + CLOSE + data[at + 3..] == data;
    }
  }

  /** `OutputXmlCDataSection`: the report is read back as the data, whatever it contains. */
  method OutputXmlCDataSection(data: string) returns (stream: string)
    ensures ReadContent(stream) == Some(data)
  {
    var segment := data;
    stream := OPEN;
    while true
      invariant stream + Sections(segment) == OPEN + Sections(data)
      decreases |segment|
    {
      var nextSegment := FindTerminator(segment);
      if nextSegment < |segment| {
        Associate(stream, segment[..nextSegment], SEAM, Sections(segment[nextSegment + 3..]));
        stream := stream + segment[..nextSegment];
        stream := stream + SEAM;
        segment := segment[nextSegment + 3..];
      } else {
        Associate(stream, segment, CLOSE, "");
        stream := stream + segment;
        break;
      }
    }
    stream := stream + CLOSE;
    SectionsRead(data);
    OpenReads(Sections(data));
  }
}
