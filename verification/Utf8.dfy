/** Converting wide strings to UTF-8, and decoding the result by the bit layout of section 3 of RFC
    3629.

    Bit patterns are numbers: chopping off the low `n` bits is division by 2 to the `n`, and setting
    marker bits above them is addition. */
module Utf8 {
  import opened Wrappers
  import opened Octets

  const MAX_CODE_POINT_1 := 0x7F
  const MAX_CODE_POINT_2 := 0x7FF
  const MAX_CODE_POINT_3 := 0xFFFF
  const MAX_CODE_POINT_4 := 0x1F_FFFF

  // ---- Encoding ----

  function Ascii(s: string): (bytes: seq<Byte>)
    requires forall k | 0 <= k < |s| :: s[k] as int < 128
    ensures |bytes| == |s| && forall k | 0 <= k < |s| :: bytes[k] == s[k] as int < 128
  {
    seq(|s|, k requires 0 <= k < |s| => s[k] as int)
  }

  function InvalidText(codePoint: UInt32): (bytes: seq<Byte>)
    ensures |bytes| > 1 && forall k | 0 <= k < |bytes| :: bytes[k] < 128
  {
    Ascii("(Invalid Unicode 0x" + FormatHexInt(codePoint) + ")")
  }

  /** The buffer is read as a C string, so the code point 0 gives nothing. */
  function CodePointToUtf8(codePoint: UInt32): seq<Byte> {
    if codePoint > MAX_CODE_POINT_4 then InvalidText(codePoint)
    else if codePoint <= MAX_CODE_POINT_1 then
      if codePoint == 0 then [] else [codePoint]
    else if codePoint <= MAX_CODE_POINT_2 then
      [0xC0 + codePoint / 64, 0x80 + codePoint % 64]
    else if codePoint <= MAX_CODE_POINT_3 then
      [0xE0 + codePoint / 64 / 64, 0x80 + codePoint / 64 % 64, 0x80 + codePoint % 64]
    else
      [0xF0 + codePoint / 64 / 64 / 64, 0x80 + codePoint / 64 / 64 % 64, 0x80 + codePoint / 64 % 64, 0x80 + codePoint % 64]
  }

  // ---- Wide strings ----

  /** A unit of a wide string whose units have `size` bytes. */
  predicate IsUnit(size: nat, unit: int) {
    0 <= unit < 0x1_0000_0000 && (size == 2 ==> unit < 0x1_0000)
  }

  /** A wide string without its terminator, in units of 2 bytes (UTF-16) or 4 bytes (UTF-32). */
  predicate IsWide(size: nat, str: seq<int>) {
    (size == 2 || size == 4) && forall k | 0 <= k < |str| :: IsUnit(size, str[k])
  }

  function At(str: seq<int>, i: nat): int {
    if i < |str| then str[i] else 0
  }

  predicate IsUtf16SurrogatePair(size: nat, first: int, second: int) {
    size == 2 && 0xD800 <= first < 0xDC00 && 0xDC00 <= second < 0xE000
  }

  function CreateCodePointFromUtf16SurrogatePair(first: int, second: int): int {
    first % 0x400 * 0x400 + second % 0x400 + 0x1_0000
  }

  /** The code points of a string without NUL, with surrogate pairs combined. */
  function CodePoints(size: nat, str: seq<int>): seq<int>
    decreases |str|
  {
    if str == [] then []
    else if |str| > 1 && IsUtf16SurrogatePair(size, str[0], str[1]) then
      [CreateCodePointFromUtf16SurrogatePair(str[0], str[1])] + CodePoints(size, str[2..])
    else [str[0]] + CodePoints(size, str[1..])
  }

  function UpToNul(str: seq<int>): (s: seq<int>)
    ensures |s| <= |str| && s == str[..|s|] && 0 !in s && (|s| < |str| ==> str[|s|] == 0)
  {
    if str == [] || str[0] == 0 then [] else [str[0]] + UpToNul(str[1..])
  }

  /** The units that are converted: up to the first NUL, and no more than `numChars` unless that is -1. */
  function Limited(str: seq<int>, numChars: int): seq<int> {
    var s := UpToNul(str);
    if numChars == -1 || numChars >= |s| then s else if numChars < 0 then [] else s[..numChars]
  }

  function EncodeAll(codePoints: seq<int>): seq<Byte>
    requires forall k | 0 <= k < |codePoints| :: 0 <= codePoints[k] < 0x1_0000_0000
    decreases |codePoints|
  {
    if codePoints == [] then [] else CodePointToUtf8(codePoints[0]) + EncodeAll(codePoints[1..])
  }

  // ---- Decoding ----

  predicate Continues(bytes: seq<Byte>, i: nat) {
    i < |bytes| && 0x80 <= bytes[i] < 0xC0
  }

  function LowBits(bytes: seq<Byte>, i: nat): (n: int)
    requires Continues(bytes, i)
    ensures 0 <= n < 64
  {
    bytes[i] - 0x80
  }

  /** The first code point and how many bytes it takes. */
  function DecodeOne(bytes: seq<Byte>): (r: Option<(nat, nat)>)
    requires bytes != []
    ensures r.Some? ==> 0 < r.value.1 <= |bytes|
  {
    var b: int := bytes[0];
    if b < 0x80 then Some((b, 1))
    else if 0xC0 <= b < 0xE0 && Continues(bytes, 1) then Some(((b - 0xC0) * 64 + LowBits(bytes, 1), 2))
    else if 0xE0 <= b < 0xF0 && Continues(bytes, 1) && Continues(bytes, 2) then
      Some((((b - 0xE0) * 64 + LowBits(bytes, 1)) * 64 + LowBits(bytes, 2), 3))
    else if 0xF0 <= b < 0xF8 && Continues(bytes, 1) && Continues(bytes, 2) && Continues(bytes, 3) then
      Some(((((b - 0xF0) * 64 + LowBits(bytes, 1)) * 64 + LowBits(bytes, 2)) * 64 + LowBits(bytes, 3), 4))
    else None
  }

  function Decode(bytes: seq<Byte>): Option<seq<nat>>
    decreases |bytes|
  {
    if bytes == [] then Some([])
    else
      match DecodeOne(bytes)
      case None => None
      case Some((codePoint, n)) =>
        match Decode(bytes[n..])
        case None => None
        case Some(rest) => Some([codePoint] + rest)
  }

  // ---- Round trip ----

  predicate Encodable(codePoint: int) {
    1 <= codePoint <= MAX_CODE_POINT_4
  }

  /** One code point comes back, and its encoding is the shortest that the layout allows. */
  lemma {:induction false} OneRoundTrip(codePoint: UInt32, rest: seq<Byte>)
    requires Encodable(codePoint)
    ensures var bytes := CodePointToUtf8(codePoint);
      && DecodeOne(bytes + rest) == Some((codePoint, |bytes|))
      && |bytes| == (if codePoint < 0x80 then 1 else if codePoint < 0x800 then 2 else if codePoint < 0x1_0000 then 3 else 4)
  {
  }

  // ---- Code points that are promised to be reported as invalid ----

  lemma {:induction false} InvalidOnlyBeyond(codePoint: UInt32)
    ensures CodePointToUtf8(codePoint) == InvalidText(codePoint) <==> codePoint > 0x1F_FFFF
  {
    if codePoint <= MAX_CODE_POINT_1 {
      assert |CodePointToUtf8(codePoint)| <= 1;
    } else if codePoint <= MAX_CODE_POINT_4 {
      assert CodePointToUtf8(codePoint)[0] >= 0xC0;
    }
  }

  /** What the comment of the function says: the encoding of a Unicode code point, and the text for invalid
      ones beyond. */
  predicate AsPromised(codePoint: UInt32) {
    if codePoint > 0x10_FFFF then CodePointToUtf8(codePoint) == InvalidText(codePoint)
    else Decode(CodePointToUtf8(codePoint)) == Some(if codePoint == 0 then [] else [codePoint])
  }

  /** The promise is kept exactly outside the range from 0x110000 to 0x1FFFFF, in which code points are
      encoded like valid ones. */
  lemma {:induction false} PromiseKept(codePoint: UInt32)
    ensures AsPromised(codePoint) <==> codePoint <= 0x10_FFFF || codePoint > 0x1F_FFFF
  {
    InvalidOnlyBeyond(codePoint);
    if 0 < codePoint <= 0x10_FFFF {
      OneRoundTrip(codePoint, []);
      var bytes := CodePointToUtf8(codePoint);
      assert bytes + [] == bytes && DecodeOne(bytes) == Some((codePoint, |bytes|));
      assert bytes[|bytes|..] == [] && Decode(bytes[|bytes|..]) == Some([]);
      assert [codePoint] + [] == [codePoint];
    }
  }

  /** The first code point beyond Unicode. */
  lemma {:induction false} BeyondUnicodeExample()
    ensures CodePointToUtf8(0x11_0000) == [0xF4, 0x90, 0x80, 0x80] && !AsPromised(0x11_0000)
  {
    assert 0x11_0000 / 64 == 0x4400 && 0x4400 / 64 == 0x110 && 0x110 / 64 == 4;
    PromiseKept(0x11_0000);
  }

  function Prepend(front: seq<nat>, r: Option<seq<nat>>): Option<seq<nat>> {
    match r
    case None => None
    case Some(back) => Some(front + back)
  }

  lemma {:induction false} AsciiDecodes(text: seq<Byte>, rest: seq<Byte>)
    requires forall k | 0 <= k < |text| :: text[k] < 128
    ensures Decode(text + rest) == Prepend(text, Decode(rest))
    decreases |text|
  {
    if text == [] {
      assert text + rest == rest;
      assert Decode(rest).Some? ==> text + Decode(rest).value == Decode(rest).value;
    } else {
      assert (text + rest)[1..] == text[1..] + rest;
      AsciiDecodes(text[1..], rest);
      assert text == [text[0]] + text[1..];
      assert Decode(rest).Some? ==> [text[0]] + (text[1..] + Decode(rest).value) == text + Decode(rest).value;
    }
  }

  /** Decoding what was encoded gives back the code points exactly when all are encodable; otherwise
      it gives more. */
  lemma {:induction false} AllRoundTrip(codePoints: seq<int>)
    requires forall k | 0 <= k < |codePoints| :: 1 <= codePoints[k] < 0x1_0000_0000
    ensures var r := Decode(EncodeAll(codePoints));
      && r.Some? && |r.value| >= |codePoints|
      && (if forall k | 0 <= k < |codePoints| :: Encodable(codePoints[k]) then r.value == codePoints
          else |r.value| > |codePoints|)
    decreases |codePoints|
  {
    if codePoints != [] {
      var first, rest := CodePointToUtf8(codePoints[0]), EncodeAll(codePoints[1..]);
      AllRoundTrip(codePoints[1..]);
      if Encodable(codePoints[0]) {
        OneRoundTrip(codePoints[0], rest);
        assert (first + rest)[|first|..] == rest;
      } else {
        AsciiDecodes(first, rest);
      }
      SomeFails(codePoints);
    }
  }

  lemma {:induction false} SomeFails(codePoints: seq<int>)
    requires codePoints != []
    ensures (forall k | 0 <= k < |codePoints| :: Encodable(codePoints[k])) <==>
      Encodable(codePoints[0]) && forall k | 0 <= k < |codePoints[1..]| :: Encodable(codePoints[1..][k])
  {
    if Encodable(codePoints[0]) && forall k | 0 <= k < |codePoints[1..]| :: Encodable(codePoints[1..][k]) {
      forall k | 0 <= k < |codePoints| ensures Encodable(codePoints[k]) {
        assert k > 0 ==> codePoints[k] == codePoints[1..][k - 1];
      }
    }
  }

  lemma {:induction false} CodePointsInRange(size: nat, str: seq<int>)
    requires IsWide(size, str) && 0 !in str
    ensures forall k | 0 <= k < |CodePoints(size, str)| :: 1 <= CodePoints(size, str)[k] < 0x1_0000_0000
    ensures size == 2 ==> forall k | 0 <= k < |CodePoints(size, str)| :: CodePoints(size, str)[k] <= 0x10_FFFF
    decreases |str|
  {
    if str != [] {
      if |str| > 1 && IsUtf16SurrogatePair(size, str[0], str[1]) {
        CodePointsInRange(size, str[2..]);
      } else {
        CodePointsInRange(size, str[1..]);
      }
    }
  }

  /** The UTF-16 encoding of a code point. */
  function Utf16(codePoint: int): seq<int>
    requires 0 <= codePoint <= 0x10_FFFF
  {
    if codePoint < 0x1_0000 then [codePoint]
    else [0xD800 + (codePoint - 0x1_0000) / 0x400, 0xDC00 + (codePoint - 0x1_0000) % 0x400]
  }

  predicate IsScalar(codePoint: int) {
    0 < codePoint < 0xD800 || 0xE000 <= codePoint <= 0x10_FFFF
  }

  /** Two units are combined exactly if they are the encoding of one code point, and into that. */
  lemma {:induction false} PairsAreEncodings(first: int, second: int)
    ensures IsUtf16SurrogatePair(2, first, second) <==>
      exists codePoint | 0x1_0000 <= codePoint <= 0x10_FFFF :: Utf16(codePoint) == [first, second]
    ensures forall codePoint | 0x1_0000 <= codePoint <= 0x10_FFFF && Utf16(codePoint) == [first, second] ::
      CreateCodePointFromUtf16SurrogatePair(first, second) == codePoint
  {
    if IsUtf16SurrogatePair(2, first, second) {
      assert Utf16(CreateCodePointFromUtf16SurrogatePair(first, second)) == [first, second];
    }
  }

  /** Units of four bytes are code points. */
  lemma {:induction false} WideUnitsAreCodePoints(str: seq<int>)
    ensures CodePoints(4, str) == str
    decreases |str|
  {
    if str != [] {
      WideUnitsAreCodePoints(str[1..]);
      assert str == [str[0]] + str[1..];
    }
  }

  function Utf16All(codePoints: seq<int>): seq<int>
    requires forall k | 0 <= k < |codePoints| :: IsScalar(codePoints[k])
    decreases |codePoints|
  {
    if codePoints == [] then []
    else
      assert IsScalar(codePoints[0]);
      Utf16(codePoints[0]) + Utf16All(codePoints[1..])
  }

  lemma {:induction false} FirstUnits(codePoint: int, rest: seq<int>)
    requires IsScalar(codePoint)
    ensures CodePoints(2, Utf16(codePoint) + rest) == [codePoint] + CodePoints(2, rest)
  {
    var units := Utf16(codePoint) + rest;
    if codePoint < 0x1_0000 {
      assert units[1..] == rest;
    } else {
      PairsAreEncodings(units[0], units[1]);
      assert [units[0], units[1]] == Utf16(codePoint);
      assert units[2..] == rest;
    }
  }

  /** Combining surrogate pairs inverts UTF-16. */
  lemma {:induction false} Utf16RoundTrip(codePoints: seq<int>)
    requires forall k | 0 <= k < |codePoints| :: IsScalar(codePoints[k])
    ensures CodePoints(2, Utf16All(codePoints)) == codePoints
    decreases |codePoints|
  {
    if codePoints != [] {
      assert IsScalar(codePoints[0]);
      Utf16RoundTrip(codePoints[1..]);
      FirstUnits(codePoints[0], Utf16All(codePoints[1..]));
      assert codePoints == [codePoints[0]] + codePoints[1..];
    }
  }

  function EncodeUnits(size: nat, s: seq<int>): seq<Byte>
    requires IsWide(size, s) && 0 !in s
  {
    CodePointsInRange(size, s);
    EncodeAll(CodePoints(size, s))
  }

  /** The first turn of the conversion loop for the units `s`. */
  lemma {:induction false} OneTurn(size: nat, s: seq<int>)
    requires IsWide(size, s) && 0 !in s && s != []
    ensures var pair := |s| > 1 && IsUtf16SurrogatePair(size, s[0], s[1]);
      EncodeUnits(size, s) ==
        CodePointToUtf8(if pair then CreateCodePointFromUtf16SurrogatePair(s[0], s[1]) else s[0])
        + EncodeUnits(size, s[if pair then 2 else 1..])
  {
  }

  /** Where the loop stops, and that the terminator is no half of a pair. */
  lemma {:induction false} LimitedStops(str: seq<int>, numChars: int)
    requires numChars <= |str|
    ensures var limited, count := Limited(str, numChars), if numChars == -1 then |UpToNul(str)| else numChars;
      && |limited| <= |str| && limited == str[..|limited|] && 0 !in limited
      && (|limited| < count ==> str[|limited|] == 0) && (count < |limited| ==> |limited| == 0)
  {
  }

  /** `WideStringToUtf8`. */
  method WideStringToUtf8(size: nat, str: seq<int>, numChars: int) returns (stream: seq<Byte>)
    requires IsWide(size, str) && numChars <= |str|
    ensures var codePoints := CodePoints(size, Limited(str, numChars));
      && Decode(stream).Some?
      && (Decode(stream) == Some(codePoints) <==> forall k | 0 <= k < |codePoints| :: Encodable(codePoints[k]))
      && (size == 2 ==> Decode(stream) == Some(codePoints))
  {
    LimitedStops(str, numChars);
    var count := numChars;
    if numChars == -1 {
      count := WcsLen(str);
    }
    stream := ConvertUnits(size, str, count, Limited(str, numChars));
    UnitsDecode(size, Limited(str, numChars));
  }

  /** The loop of `WideStringToUtf8`. */
  method ConvertUnits(size: nat, str: seq<int>, count: int, ghost limited: seq<int>) returns (stream: seq<Byte>)
    requires IsWide(size, str) && count <= |str| && |limited| <= |str| && limited == str[..|limited|] && 0 !in limited
    requires (|limited| < count ==> str[|limited|] == 0) && (count < |limited| ==> |limited| == 0)
    ensures stream == EncodeUnits(size, limited)
  {
    stream := [];
    ghost var all := EncodeUnits(size, limited);
    var i := 0;
    assert limited[0..] == limited;
    while i < count
      invariant i <= |limited|
      invariant stream + EncodeUnits(size, limited[i..]) == all
    {
      if str[i] == 0 {
        break;
      }
      var codePoint, next := NextCodePoint(size, str, i, count, limited);
      OneTurnAt(size, limited, i, next, codePoint, stream);
      stream := stream + CodePointToUtf8(codePoint);
      i := next;
    }
    assert limited[i..] == [] && stream + [] == stream;
  }

  /** The code point at position `i`, and where the next one starts. */
  method NextCodePoint(size: nat, str: seq<int>, i: nat, count: int, ghost s: seq<int>) returns (codePoint: UInt32, next: nat)
    requires IsWide(size, str) && i < count <= |str| && i < |s| <= |str| && s == str[..|s|]
    requires (|s| < count ==> str[|s|] == 0) && |s| <= count
    ensures Turn(size, s, i, next, codePoint)
  {
    assert IsUnit(size, str[i]);
    if i + 1 < count && IsUtf16SurrogatePair(size, str[i], str[i + 1]) {
      codePoint := CreateCodePointFromUtf16SurrogatePair(str[i], str[i + 1]);
      next := i + 2;
    } else {
      codePoint := str[i];
      next := i + 1;
    }
  }

  /** The units of `s` from `i` up to `next` stand for `codePoint`. */
  predicate Turn(size: nat, s: seq<int>, i: nat, next: nat, codePoint: UInt32) {
    i < |s| &&
    if i + 1 < |s| && IsUtf16SurrogatePair(size, s[i], s[i + 1])
      then next == i + 2 && codePoint == CreateCodePointFromUtf16SurrogatePair(s[i], s[i + 1])
      else next == i + 1 && codePoint == s[i]
  }

  /** The turn at position `i`, which converts the units up to `next`. */
  lemma {:induction false} OneTurnAt(size: nat, s: seq<int>, i: nat, next: nat, codePoint: UInt32, stream: seq<Byte>)
    requires IsWide(size, s) && 0 !in s && Turn(size, s, i, next, codePoint)
    ensures stream + EncodeUnits(size, s[i..]) == stream + CodePointToUtf8(codePoint) + EncodeUnits(size, s[next..])
  {
    var pair := next == i + 2;
    OneTurn(size, s[i..]);
    Suffix(s, i, if pair then 2 else 1);
    Regrouped(stream, CodePointToUtf8(codePoint), EncodeUnits(size, s[next..]));
  }

  lemma {:induction false} Suffix<E>(s: seq<E>, i: nat, k: nat)
    requires i + k <= |s|
    ensures s[i..][k..] == s[i + k..]
  {
  }

  lemma {:induction false} Regrouped<E>(a: seq<E>, b: seq<E>, c: seq<E>)
    ensures a + (b + c) == a + b + c
  {
  }

  lemma {:induction false} UnitsDecode(size: nat, s: seq<int>)
    requires IsWide(size, s) && 0 !in s
    ensures var codePoints, r := CodePoints(size, s), Decode(EncodeUnits(size, s));
      && r.Some? && (r == Some(codePoints) <==> forall k | 0 <= k < |codePoints| :: Encodable(codePoints[k]))
      && (size == 2 ==> r == Some(codePoints))
  {
    CodePointsInRange(size, s);
    AllRoundTrip(CodePoints(size, s));
  }

  /** `wcslen`. */
  method WcsLen(str: seq<int>) returns (n: nat)
    ensures n == |UpToNul(str)|
  {
    n := 0;
    while n < |str| && str[n] != 0
      invariant n <= |UpToNul(str)|
    {
      n := n + 1;
    }
  }
}
