/** Bytes, words, and numbers written with hexadecimal digits. */
module Octets {

  type Byte = b: int | 0 <= b < 256
  type UInt32 = n: int | 0 <= n < 0x1_0000_0000

  predicate IsHex(ch: char) { '0' <= ch <= '9' || 'a' <= ch <= 'f' || 'A' <= ch <= 'F' }

  function DigitValue(ch: char): (value: nat)
    requires IsHex(ch)
    ensures value < 16
  {
    if ch <= '9' then ch as int - '0' as int
    else if ch <= 'F' then ch as int - 'A' as int + 10
    else ch as int - 'a' as int + 10
  }

  function HexDigit(d: nat): (ch: char)
    requires d < 16
    ensures IsHex(ch) && DigitValue(ch) == d
  {
    if d < 10 then ('0' as int + d) as char else ('A' as int + d - 10) as char
  }

  /** The digits in order; small letters are read as well. */
  lemma {:induction false} HexDigits(d: nat)
    requires d < 16
    ensures HexDigit(d) == "0123456789ABCDEF"[d] && DigitValue("0123456789abcdef"[d]) == d
  {
    assert "0123456789ABCDEF"[d] as int == if d < 10 then '0' as int + d else 'A' as int + d - 10;
    assert "0123456789abcdef"[d] as int == if d < 10 then '0' as int + d else 'a' as int + d - 10;
  }

  lemma {:induction false} HexCharacters(ch: char)
    ensures IsHex(ch) <==> ch in "0123456789ABCDEFabcdef"
  {
    if IsHex(ch) {
      var d := DigitValue(ch);
      HexDigits(d);
      assert "0123456789ABCDEFabcdef"[if ch <= 'F' then d else d + 6] == ch;
    }
  }

  /** `%X`. */
  function FormatHexInt(n: nat): (s: string)
    ensures s != "" && forall k | 0 <= k < |s| :: IsHex(s[k])
  {
    (if n < 16 then "" else FormatHexInt(n / 16)) + [HexDigit(n % 16)]
  }

  /** The value of a run of digits, most significant first. */
  function Value(digits: string, base: nat): nat
    requires forall k | 0 <= k < |digits| :: IsHex(digits[k])
    decreases |digits|
  {
    if digits == [] then 0
    else Value(digits[..|digits| - 1], base) * base + DigitValue(digits[|digits| - 1])
  }

  /** The digits have the value of the number, and no needless zero in front. */
  lemma {:induction false} HexValue(n: nat)
    ensures Value(FormatHexInt(n), 16) == n && (n > 0 ==> FormatHexInt(n)[0] != '0')
    decreases n
  {
    var digits := FormatHexInt(n);
    HexDigits(n % 16);
    if n < 16 {
      assert digits[..0] == "";
    } else {
      HexValue(n / 16);
      assert digits[..|digits| - 1] == FormatHexInt(n / 16);
    }
  }
}
