/** Printing bytes as a C string literal, and reading adjacent C string literals back (sections
    6.4.4.4 and 6.4.5 of ISO/IEC 9899:2011, without trigraphs). */
module Printers {
  import opened Wrappers
  import opened Octets

  // ---- Printing ----

  datatype CharFormat = AsIs | HexEscape | SpecialEscape

  predicate IsPrintableAscii(c: Byte) { 0x20 <= c <= 0x7E }

  predicate IsXDigit(c: Byte) { IsHex(c as char) }

  function PrintAsCharLiteral(c: Byte): (string, CharFormat) {
    if c == 0 then ("\\0", SpecialEscape)
    else if c == '\'' as int then ("\\'", SpecialEscape)
    else if c == '\\' as int then ("\\\\", SpecialEscape)
    else if c == 7 then ("\\a", SpecialEscape)
    else if c == 8 then ("\\b", SpecialEscape)
    else if c == 12 then ("\\f", SpecialEscape)
    else if c == 10 then ("\\n", SpecialEscape)
    else if c == 13 then ("\\r", SpecialEscape)
    else if c == 9 then ("\\t", SpecialEscape)
    else if c == 11 then ("\\v", SpecialEscape)
    else if IsPrintableAscii(c) then ([c as char], AsIs)
    else ("\\x" + FormatHexInt(c), HexEscape)
  }

  function PrintAsStringLiteral(c: Byte): (string, CharFormat) {
    if c == '\'' as int then ("'", AsIs)
    else if c == '"' as int then ("\\\"", SpecialEscape)
    else PrintAsCharLiteral(c)
  }

  /** What is printed for the bytes `bs` and the closing quote; `hex` says that the byte before was
      printed as a hexadecimal escape. */
  function Printed(bs: seq<Byte>, hex: bool): string
    decreases |bs|
  {
    if bs == [] then "\""
    else
      (if hex && IsXDigit(bs[0]) then "\" \"" else "")
      + PrintAsStringLiteral(bs[0]).0 + Printed(bs[1..], PrintAsStringLiteral(bs[0]).1 == HexEscape)
  }

  // ---- Reading ----

  predicate IsOctal(ch: char) { '0' <= ch <= '7' }

  /** How many hexadecimal digits `s` starts with: the escape takes all of them. */
  function HexRun(s: string): (n: nat)
    ensures n <= |s| && forall k | 0 <= k < n :: IsHex(s[k])
  {
    if s != [] && IsHex(s[0]) then 1 + HexRun(s[1..]) else 0
  }

  /** How many octal digits `s` starts with, up to `most`. */
  function OctalRun(s: string, most: nat): (n: nat)
    ensures n <= |s| && n <= most && forall k | 0 <= k < n :: IsOctal(s[k]) && IsHex(s[k])
    decreases most
  {
    if most > 0 && s != [] && IsOctal(s[0]) then 1 + OctalRun(s[1..], most - 1) else 0
  }

  function SimpleEscape(ch: char): Option<Byte> {
    match ch
    case '\'' => Some('\'' as int)
    case '"' => Some('"' as int)
    case '?' => Some('?' as int)
    case '\\' => Some('\\' as int)
    case 'a' => Some(7)
    case 'b' => Some(8)
    case 'f' => Some(12)
    case 'n' => Some(10)
    case 'r' => Some(13)
    case 't' => Some(9)
    case 'v' => Some(11)
    case _ => None
  }

  /** The byte of the escape sequence whose text after the backslash starts `s`, and what is left. */
  function ReadEscape(s: string): (r: Option<(Byte, string)>)
    ensures r.Some? ==> |r.value.1| < |s|
  {
    if s == [] then None
    else if s[0] == 'x' then
      var n := HexRun(s[1..]);
      if n > 0 && Value(s[1..][..n], 16) < 256 then Some((Value(s[1..][..n], 16), s[1..][n..])) else None
    else if IsOctal(s[0]) then
      var n := OctalRun(s, 3);
      if Value(s[..n], 8) < 256 then Some((Value(s[..n], 8), s[n..])) else None
    else
      match SimpleEscape(s[0])
      case None => None
      case Some(b) => Some((b, s[1..]))
  }

  function Prepend(b: Byte, r: Option<seq<Byte>>): Option<seq<Byte>> {
    match r
    case None => None
    case Some(bs) => Some([b] + bs)
  }

  /** Reads the rest of a literal, after its opening quote, and the literals that follow. */
  function ReadInside(s: string): Option<seq<Byte>>
    decreases |s|
  {
    if s == [] || s[0] == '\n' then None
    else if s[0] == '"' then ReadOutside(s[1..])
    else if s[0] == '\\' then
      match ReadEscape(s[1..])
      case None => None
      case Some((b, rest)) => Prepend(b, ReadInside(rest))
    else if s[0] as int < 256 then Prepend(s[0] as int, ReadInside(s[1..]))
    else None
  }

  /** Between two literals that are to be joined, or after the last one. */
  function ReadOutside(s: string): Option<seq<Byte>>
    decreases |s|
  {
    if s == [] then Some([])
    else if s[0] == ' ' then ReadOutside(s[1..])
    else if s[0] == '"' then ReadInside(s[1..])
    else None
  }

  function ReadLiterals(s: string): Option<seq<Byte>> {
    if s != [] && s[0] == '"' then ReadInside(s[1..]) else None
  }

  // ---- Round trip ----

  predicate IsOctalByte(c: Byte) { '0' as int <= c <= '7' as int }

  /** No NUL is followed by an octal digit: the escape of the NUL would swallow the digit. */
  predicate NoNulBeforeOctal(bs: seq<Byte>) {
    forall k | 0 <= k < |bs| - 1 :: bs[k] == 0 ==> !IsOctalByte(bs[k + 1])
  }

  function FormatOf(c: Byte): CharFormat { PrintAsStringLiteral(c).1 }

  /** The first character that is printed for `bs` after a byte that was not a hexadecimal escape. */
  lemma {:induction false} PrintedStarts(bs: seq<Byte>)
    ensures Printed(bs, false) != []
    ensures bs != [] && IsOctalByte(bs[0]) ==> Printed(bs, false) == [bs[0] as char] + Printed(bs[1..], false)
    ensures IsOctal(Printed(bs, false)[0]) <==> bs != [] && IsOctalByte(bs[0])
  {
  }

  lemma {:induction false} Reopened(rest: string)
    ensures ReadInside("\" \"" + rest) == ReadInside(rest)
  {
    var s1, s2, s3 := "\" \"" + rest, " \"" + rest, "\"" + rest;
    assert s1[1..] == s2 && ReadInside(s1) == ReadOutside(s2);
    assert s2[1..] == s3 && ReadOutside(s2) == ReadOutside(s3);
    assert s3[1..] == rest && ReadOutside(s3) == ReadInside(rest);
  }

  /** After a hexadecimal escape, what follows cannot be taken for more of its digits. */
  lemma {:induction false} AfterHex(bs: seq<Byte>)
    ensures Printed(bs, true) != [] && !IsHex(Printed(bs, true)[0])
    ensures ReadInside(Printed(bs, true)) == ReadInside(Printed(bs, false))
  {
    if bs != [] && IsXDigit(bs[0]) {
      assert Printed(bs, true) == "\" \"" + Printed(bs, false);
      Reopened(Printed(bs, false));
    }
  }

  lemma {:induction false} HexRunStops(digits: string, rest: string)
    requires forall k | 0 <= k < |digits| :: IsHex(digits[k])
    requires rest != [] && !IsHex(rest[0])
    ensures HexRun(digits + rest) == |digits|
    decreases |digits|
  {
    if digits == [] {
      assert digits + rest == rest;
    } else {
      assert (digits + rest)[1..] == digits[1..] + rest;
      HexRunStops(digits[1..], rest);
    }
  }

  lemma {:induction false} HexEscapeReads(c: Byte, rest: string)
    requires rest != [] && !IsHex(rest[0])
    ensures ReadEscape("x" + FormatHexInt(c) + rest) == Some((c, rest))
  {
    HexValue(c);
    HexRunReads(FormatHexInt(c), c, rest);
  }

  lemma {:induction false} HexRunReads(digits: string, c: Byte, rest: string)
    requires digits != "" && (forall k | 0 <= k < |digits| :: IsHex(digits[k])) && Value(digits, 16) == c
    requires rest != [] && !IsHex(rest[0])
    ensures ReadEscape("x" + digits + rest) == Some((c, rest))
  {
    var s := "x" + digits + rest;
    HexRunStops(digits, rest);
    assert s[1..] == digits + rest;
    assert (digits + rest)[..|digits|] == digits && (digits + rest)[|digits|..] == rest;
  }

  /** The escape of a NUL swallows the octal digits that follow, at most two of them. */
  lemma {:induction false} NulEscapeReads(bs: seq<Byte>) returns (k: nat, b: Byte)
    requires bs != [] && bs[0] == 0
    ensures k < |bs| && (k > 0 <==> |bs| > 1 && IsOctalByte(bs[1])) && (k == 0 ==> b == 0)
    ensures ReadEscape("0" + Printed(bs[1..], false)) == Some((b, Printed(bs[1 + k..], false)))
  {
    var rest := Printed(bs[1..], false);
    var s := "0" + rest;
    k := OctalRun(rest, 2);
    OctalRunSwallows(bs[1..], 2);
    PrintedStarts(bs[1..]);
    assert s[1..] == rest && OctalRun(s, 3) == 1 + k;
    assert s[1 + k..] == rest[k..] && bs[1..][k..] == bs[1 + k..];
    OctalBound(s[..1 + k]);
    b := Value(s[..1 + k], 8);
  }

  lemma {:induction false} OctalRunCons(ch: char, rest: string, most: nat)
    requires IsOctal(ch) && most > 0
    ensures var k := OctalRun(rest, most - 1);
      OctalRun([ch] + rest, most) == 1 + k && ([ch] + rest)[1 + k..] == rest[k..]
  {
    assert ([ch] + rest)[1..] == rest;
  }

  lemma {:induction false} OctalRunSwallows(bs: seq<Byte>, most: nat)
    ensures var k := OctalRun(Printed(bs, false), most);
      k <= |bs| && Printed(bs, false)[k..] == Printed(bs[k..], false)
    decreases most
  {
    PrintedStarts(bs);
    if most > 0 && bs != [] && IsOctalByte(bs[0]) {
      var rest := Printed(bs[1..], false);
      OctalRunSwallows(bs[1..], most - 1);
      var k := OctalRun(rest, most - 1);
      OctalRunCons(bs[0] as char, rest, most);
      assert bs[1..][k..] == bs[1 + k..];
      assert OctalRun(Printed(bs, false), most) == 1 + k;
    } else {
      assert OctalRun(Printed(bs, false), most) == 0;
      assert bs[0..] == bs && Printed(bs, false)[0..] == Printed(bs, false);
    }
  }

  lemma {:induction false} OctalBound(digits: string)
    requires 1 <= |digits| <= 3 && digits[0] == '0' && forall k | 0 <= k < |digits| :: IsOctal(digits[k]) && IsHex(digits[k])
    ensures Value(digits, 8) < 64 && (|digits| == 1 ==> Value(digits, 8) == 0)
  {
    var front := digits[..|digits| - 1];
    assert Value(digits, 8) == Value(front, 8) * 8 + DigitValue(digits[|digits| - 1]);
    if |digits| == 3 {
      assert Value(front, 8) == Value(front[..1], 8) * 8 + DigitValue(front[1]);
      assert front[..1] == ['0'] && front[..1][..0] == "";
      assert front[1] == digits[1];
    } else if |digits| == 2 {
      assert front == ['0'] && front[..0] == "";
    } else {
      assert front == "";
    }
  }

  /** Reading back what was printed gives the bytes themselves when no NUL precedes an octal digit,
      and fewer bytes otherwise. */
  lemma {:induction false} ReadPrinted(bs: seq<Byte>)
    ensures var r := ReadInside(Printed(bs, false));
      && r.Some? && |r.value| <= |bs|
      && (if NoNulBeforeOctal(bs) then r.value == bs else |r.value| < |bs|)
    decreases |bs|
  {
    if bs == [] {
      NothingPrinted();
    } else {
      var k, b := StepReads(bs);
      ReadPrinted(bs[1 + k..]);
      NulTail(bs);
      assert [bs[0]] + bs[1..] == bs;
    }
  }

  lemma {:induction false} NothingPrinted()
    ensures ReadInside(Printed([], false)) == Some([])
  {
    assert "\""[1..] == "";
  }

  lemma {:induction false} NulTail(bs: seq<Byte>)
    requires bs != []
    ensures NoNulBeforeOctal(bs) <==>
      NoNulBeforeOctal(bs[1..]) && !(bs[0] == 0 && |bs| > 1 && IsOctalByte(bs[1]))
  {
    if NoNulBeforeOctal(bs[1..]) && !(bs[0] == 0 && |bs| > 1 && IsOctalByte(bs[1])) {
      forall k | 0 <= k < |bs| - 1 && bs[k] == 0 ensures !IsOctalByte(bs[k + 1]) {
        if k > 0 {
          assert bs[1..][k - 1] == 0 && bs[1..][k] == bs[k + 1];
        }
      }
    }
    if NoNulBeforeOctal(bs) {
      forall k | 0 <= k < |bs[1..]| - 1 && bs[1..][k] == 0 ensures !IsOctalByte(bs[1..][k + 1]) {
        assert bs[k + 1] == 0;
      }
    }
  }

  lemma {:induction false} EscapeReads(escape: string, b: Byte, after: string)
    requires ReadEscape(escape) == Some((b, after))
    ensures ReadInside("\\" + escape) == Prepend(b, ReadInside(after))
  {
    assert ("\\" + escape)[1..] == escape;
  }

  lemma {:induction false} HexByteReads(c: Byte, rest: seq<Byte>)
    ensures ReadInside("\\x" + FormatHexInt(c) + Printed(rest, true)) == Prepend(c, ReadInside(Printed(rest, false)))
  {
    var after := Printed(rest, true);
    AfterHex(rest);
    HexEscapeReads(c, after);
    EscapeReads("x" + FormatHexInt(c) + after, c, after);
    assert "\\x" + FormatHexInt(c) + after == "\\" + ("x" + FormatHexInt(c) + after);
  }

  lemma {:induction false} SpecialByteReads(c: Byte, after: string)
    requires c != 0 && FormatOf(c) == SpecialEscape
    ensures ReadInside(PrintAsStringLiteral(c).0 + after) == Prepend(c, ReadInside(after))
  {
    var text := PrintAsStringLiteral(c).0;
    assert text == ['\\', text[1]] && SimpleEscape(text[1]) == Some(c);
    assert ([text[1]] + after)[1..] == after;
    EscapeReads([text[1]] + after, c, after);
    assert text + after == "\\" + ([text[1]] + after);
  }

  lemma {:induction false} OneByteReads(c: Byte, rest: seq<Byte>)
    requires c != 0
    ensures ReadInside(PrintAsStringLiteral(c).0 + Printed(rest, FormatOf(c) == HexEscape))
         == Prepend(c, ReadInside(Printed(rest, false)))
  {
    var after := Printed(rest, FormatOf(c) == HexEscape);
    match FormatOf(c) {
      case HexEscape => HexByteReads(c, rest);
      case SpecialEscape => SpecialByteReads(c, after);
      case AsIs => assert (PrintAsStringLiteral(c).0 + after)[1..] == after;
    }
  }

  /** The reader takes the first byte, and after a NUL the `k` octal digits that it swallows. */
  lemma {:induction false} StepReads(bs: seq<Byte>) returns (k: nat, b: Byte)
    requires bs != []
    ensures k < |bs| && (k > 0 <==> bs[0] == 0 && |bs| > 1 && IsOctalByte(bs[1])) && (k == 0 ==> b == bs[0])
    ensures ReadInside(Printed(bs, false)) == Prepend(b, ReadInside(Printed(bs[1 + k..], false)))
  {
    PrintedCons(bs, false);
    if bs[0] == 0 {
      k, b := NulEscapeReads(bs);
      NulByteReads(Printed(bs[1..], false), b, Printed(bs[1 + k..], false));
    } else {
      k, b := 0, bs[0];
      OneByteReads(b, bs[1..]);
      assert bs[1 + k..] == bs[1..];
    }
  }

  lemma {:induction false} PrintedCons(bs: seq<Byte>, hex: bool)
    requires bs != []
    ensures Printed(bs, hex) == (if hex && IsXDigit(bs[0]) then "\" \"" else "")
      + PrintAsStringLiteral(bs[0]).0 + Printed(bs[1..], FormatOf(bs[0]) == HexEscape)
    ensures !hex ==> Printed(bs, hex) == PrintAsStringLiteral(bs[0]).0 + Printed(bs[1..], FormatOf(bs[0]) == HexEscape)
  {
  }

  lemma {:induction false} NulByteReads(rest: string, b: Byte, after: string)
    requires ReadEscape("0" + rest) == Some((b, after))
    ensures ReadInside(PrintAsStringLiteral(0).0 + rest) == Prepend(b, ReadInside(after))
  {
    EscapeReads("0" + rest, b, after);
    assert "\\0" + rest == "\\" + ("0" + rest);
  }

  lemma {:induction false} ReadLiteral(bs: seq<Byte>)
    ensures var r := ReadLiterals("\"" + Printed(bs, false));
      r.Some? && (r == Some(bs) <==> NoNulBeforeOctal(bs))
  {
    assert ("\"" + Printed(bs, false))[1..] == Printed(bs, false);
    ReadPrinted(bs);
  }

  // ---- What is printed for every byte ----

  /** The bytes that stand for themselves in a literal. */
  predicate IsPlain(c: Byte) { 0x20 <= c < 0x7F && c != '"' as int && c != '\\' as int }

  /** The bytes that are neither plain nor have an escape sequence of their own. */
  predicate NeedsHex(c: Byte) { 0 < c < 7 || 13 < c < 0x20 || 0x7F <= c }

  lemma {:induction false} BytePrinted(c: Byte)
    ensures PrintAsStringLiteral(c) == ([c as char], AsIs) <==> IsPlain(c)
    ensures FormatOf(c) == HexEscape <==> NeedsHex(c)
    ensures NeedsHex(c) ==> PrintAsStringLiteral(c).0 == "\\x" + FormatHexInt(c)
    ensures !IsPlain(c) && !NeedsHex(c) ==> |PrintAsStringLiteral(c).0| == 2 && PrintAsStringLiteral(c).0[0] == '\\'
  {
  }

  /** The text of byte `k`: the literal is reopened before it only if it would be taken for one more
      digit of the hexadecimal escape before it. */
  function Piece(bs: seq<Byte>, k: nat): string
    requires k < |bs|
  {
    (if k > 0 && NeedsHex(bs[k - 1]) && bs[k] as char in "0123456789ABCDEFabcdef" then "\" \"" else "")
    + PrintAsStringLiteral(bs[k]).0
  }

  function Pieces(bs: seq<Byte>, n: nat): string
    requires n <= |bs|
  {
    if n == 0 then "" else Pieces(bs, n - 1) + Piece(bs, n - 1)
  }

  lemma {:induction false} NextPiece(bs: seq<Byte>, k: nat)
    requires k < |bs|
    ensures Printed(bs[k..], k > 0 && NeedsHex(bs[k - 1])) == Piece(bs, k) + Printed(bs[k + 1..], NeedsHex(bs[k]))
  {
    BytePrinted(bs[k]);
    HexCharacters(bs[k] as char);
    assert bs[k..][1..] == bs[k + 1..];
  }

  lemma {:induction false} Regrouped(a: string, b: string, c: string)
    ensures a + (b + c) == a + b + c
  {
  }

  /** What is printed are the pieces of all bytes. */
  lemma {:induction false} PrintedIsPieces(bs: seq<Byte>, k: nat)
    requires k <= |bs|
    ensures Pieces(bs, k) + Printed(bs[k..], k > 0 && NeedsHex(bs[k - 1])) == Pieces(bs, |bs|) + "\""
    decreases |bs| - k
  {
    if k < |bs| {
      PrintedIsPieces(bs, k + 1);
      NextPiece(bs, k);
      Regrouped(Pieces(bs, k), Piece(bs, k), Printed(bs[k + 1..], NeedsHex(bs[k])));
    }
  }

  predicate AllPlain(bs: seq<Byte>) {
    forall k | 0 <= k < |bs| :: IsPlain(bs[k])
  }

  function Characters(bs: seq<Byte>): string {
    seq(|bs|, k requires 0 <= k < |bs| => bs[k] as char)
  }

  lemma {:induction false} PlainPieces(bs: seq<Byte>, n: nat)
    requires AllPlain(bs) && n <= |bs|
    ensures Pieces(bs, n) == Characters(bs)[..n]
    decreases n
  {
    if n > 0 {
      PlainPieces(bs, n - 1);
      BytePrinted(bs[n - 1]);
    }
  }

  lemma {:induction false} OneTurn(os: string, bs: seq<Byte>, hex: bool, total: string)
    requires bs != [] && os + Printed(bs, hex) == total
    ensures var broken := if hex && IsXDigit(bs[0]) then os + "\" \"" else os;
      broken + PrintAsStringLiteral(bs[0]).0 + Printed(bs[1..], FormatOf(bs[0]) == HexEscape) == total
  {
    PrintedCons(bs, hex);
  }

  lemma {:induction false} AllPieces(bs: seq<Byte>)
    ensures Printed(bs, false) == Pieces(bs, |bs|) + "\""
  {
    PrintedIsPieces(bs, 0);
    WholeIsRest(bs);
    Nothing(Printed(bs, false));
  }

  lemma {:induction false} WholeIsRest<E>(s: seq<E>)
    ensures s[0..] == s
  {
  }

  lemma {:induction false} Nothing(s: string)
    ensures "" + s == s
  {
  }

  lemma {:induction false} AllPlainPieces(bs: seq<Byte>)
    ensures AllPlain(bs) ==> Pieces(bs, |bs|) == Characters(bs)
  {
    if AllPlain(bs) {
      PlainPieces(bs, |bs|);
    }
  }

  /** `PrintCharsAsStringTo`: the pieces of all bytes between quotes, plain bytes as they are.  It
      round-trips exactly the byte strings in which no NUL precedes an octal digit. */
  method PrintCharsAsStringTo(begin: seq<Byte>) returns (os: string)
    ensures ReadLiterals(os).Some?
    ensures ReadLiterals(os) == Some(begin) <==> NoNulBeforeOctal(begin)
    ensures os == "\"" + Pieces(begin, |begin|) + "\""
    ensures AllPlain(begin) ==> os == "\"" + Characters(begin) + "\""
  {
    os := "\"";
    var isPreviousHex := false;
    var index := 0;
    while index < |begin|
      invariant index <= |begin|
      invariant os + Printed(begin[index..], isPreviousHex) == "\"" + Printed(begin, false)
    {
      var cur := begin[index];
      OneTurn(os, begin[index..], isPreviousHex, "\"" + Printed(begin, false));
      assert begin[index..][1..] == begin[index + 1..];
      if isPreviousHex && IsXDigit(cur) {
        os := os + "\" \"";
      }
      var (text, format) := PrintAsStringLiteral(cur);
      os := os + text;
      isPreviousHex := format == HexEscape;
      index := index + 1;
    }
    os := os + "\"";
    ReadLiteral(begin);
    AllPieces(begin);
    AllPlainPieces(begin);
    Regrouped("\"", Pieces(begin, |begin|), "\"");
  }

  /** A NUL and the digit 1 are printed as `"\01"`, which is one byte. */
  lemma {:induction false} NulBeforeOctalExample()
    ensures Printed([0, '1' as int], false) == "\\01\""
    ensures ReadInside("\\01\"").Some? && |ReadInside("\\01\"").value| == 1
  {
    assert Printed(['1' as int], false) == "1\"";
    var k, b := StepReads([0, '1' as int]);
    NothingPrinted();
  }
}
