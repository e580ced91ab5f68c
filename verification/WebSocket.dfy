/** The WebSocket frame header (sections 5.2 and 5.3 of RFC 6455) in a structure whose size and mask
    fields share memory: the union is a row of bytes, and the host is little-endian. */
module WebSocket {
  import opened Arithmetic
  import opened Wrappers
  import opened Octets

  const TWO_TO_48 := 0x1_0000_0000_0000
  const TWO_TO_64 := 0x1_0000_0000_0000_0000

  type UInt64 = n: int | 0 <= n < TWO_TO_64

  // ---- Words and bytes ----

  function Power256(k: nat): (p: nat)
    ensures p > 0
  {
    if k == 0 then 1 else 256 * Power256(k - 1)
  }

  /** The `k` low bytes of `n` as a little-endian host stores them. */
  function ToBytes(n: nat, k: nat): (bytes: seq<Byte>)
    ensures |bytes| == k
  {
    if k == 0 then [] else [n % 256] + ToBytes(n / 256, k - 1)
  }

  function FromBytes(bytes: seq<Byte>): (n: nat)
    ensures n < Power256(|bytes|)
    decreases |bytes|
  {
    if bytes == [] then 0
    else
      var rest := FromBytes(bytes[1..]);
      assert bytes[0] + 256 * rest < 256 * Power256(|bytes| - 1);
      bytes[0] + 256 * rest
  }

  lemma {:induction false} FromToBytes(n: nat, k: nat)
    requires n < Power256(k)
    ensures FromBytes(ToBytes(n, k)) == n
    decreases k
  {
    if k > 0 {
      FromToBytes(n / 256, k - 1);
    }
  }

  lemma {:induction false} ToFromBytes(bytes: seq<Byte>)
    ensures ToBytes(FromBytes(bytes), |bytes|) == bytes
    decreases |bytes|
  {
    if bytes != [] {
      ToFromBytes(bytes[1..]);
      QuotientUnique(FromBytes(bytes), 256, FromBytes(bytes[1..]), bytes[0]);
      assert bytes == [bytes[0]] + bytes[1..];
    }
  }

  function Reversed(bytes: seq<Byte>): (r: seq<Byte>)
    ensures |r| == |bytes| && forall k | 0 <= k < |r| :: r[k] == bytes[|bytes| - 1 - k]
    decreases |bytes|
  {
    if bytes == [] then [] else Reversed(bytes[1..]) + [bytes[0]]
  }

  /** The value of bytes in network byte order: the most significant one comes first. */
  function NetworkOrder(bytes: seq<Byte>): (n: nat)
    ensures n < Power256(|bytes|)
    decreases |bytes|
  {
    if bytes == [] then 0
    else
      var front := NetworkOrder(bytes[..|bytes| - 1]);
      assert front * 256 + bytes[|bytes| - 1] < 256 * Power256(|bytes| - 1);
      front * 256 + bytes[|bytes| - 1]
  }

  lemma {:induction false} ReversedIsNetworkOrder(bytes: seq<Byte>)
    ensures FromBytes(Reversed(bytes)) == NetworkOrder(bytes)
    decreases |bytes|
  {
    if bytes != [] {
      var last := |bytes| - 1;
      ReversedIsNetworkOrder(bytes[..last]);
      assert Reversed(bytes)[1..] == Reversed(bytes[..last]) && Reversed(bytes)[0] == bytes[last];
    }
  }

  /** `reversell`: the word with its bytes in the opposite order. */
  function ReversedWord(n: UInt64): (r: UInt64)
  {
    WordSize();
    FromBytes(Reversed(ToBytes(n, 8)))
  }

  lemma {:induction false} WordSize()
    ensures Power256(8) == TWO_TO_64 && Power256(2) == 0x1_0000 && Power256(6) == TWO_TO_48
  {
    assert Power256(2) == 256 * 256 * Power256(0);
    assert Power256(4) == 256 * 256 * Power256(2);
    assert Power256(6) == 256 * 256 * Power256(4);
    assert Power256(8) == 256 * 256 * Power256(6);
  }

  lemma {:induction false} ReversedTwice(n: UInt64)
    ensures ReversedWord(ReversedWord(n)) == n
  {
    WordSize();
    var bytes := ToBytes(n, 8);
    ToFromBytes(Reversed(bytes));
    assert Reversed(Reversed(bytes)) == bytes;
    FromToBytes(n, 8);
  }

  /** `reversell` swaps the bytes of a local union in pairs. */
  method Reversell(bytes: UInt64) returns (whole: UInt64)
    ensures whole == ReversedWord(bytes)
  {
    WordSize();
    var parts := new Byte[8];
    ghost var before := ToBytes(bytes, 8);
    forall k | 0 <= k < 8 {
      parts[k] := ToBytes(bytes, 8)[k];
    }
    var tmp := parts[0];
    parts[0] := parts[7];
    parts[7] := tmp;
    tmp := parts[1];
    parts[1] := parts[6];
    parts[6] := tmp;
    tmp := parts[2];
    parts[2] := parts[5];
    parts[5] := tmp;
    tmp := parts[3];
    parts[3] := parts[4];
    parts[4] := tmp;
    assert parts[..] == Reversed(before);
    whole := FromBytes(parts[..]);
  }

  lemma {:induction false} ToBytesDrop(n: nat, k: nat, j: nat)
    requires j <= k
    ensures ToBytes(n, k)[j..] == ToBytes(n / Power256(j), k - j)
    decreases j
  {
    if j > 0 {
      ToBytesDrop(n / 256, k - 1, j - 1);
      assert ToBytes(n, k)[j..] == ToBytes(n / 256, k - 1)[j - 1..];
      DivideTwice(n, Power256(j - 1));
    }
  }

  lemma {:induction false} DivideTwice(n: nat, d: nat)
    requires d > 0
    ensures n / 256 / d == n / (256 * d)
  {
    var q := n / 256 / d;
    assert n == 256 * (n / 256) + n % 256 && n / 256 == d * q + n / 256 % d;
    var r := 256 * (n / 256 % d) + n % 256;
    assert n == (256 * d) * q + r && 0 <= r < 256 * d;
    QuotientIs(n, 256 * d, q, r);
  }

  lemma {:induction false} QuotientIs(n: int, d: int, q: int, r: int)
    requires d > 0 && n == d * q + r && 0 <= r < d
    ensures n / d == q
  {
    var e := n / d - q;
    assert d * e == r - n % d;
    assert e >= 1 ==> d * e >= d;
    assert e <= -1 ==> d * e <= -d;
  }

  // ---- Masking ----

  function Power2(k: nat): nat {
    if k == 0 then 1 else 2 * Power2(k - 1)
  }

  /** Exclusive or of the `k` low bits. */
  function XorBits(a: nat, b: nat, k: nat): (x: nat)
    ensures x < Power2(k)
  {
    if k == 0 then 0 else 2 * XorBits(a / 2, b / 2, k - 1) + if a % 2 == b % 2 then 0 else 1
  }

  lemma {:induction false} XorBitsTwice(a: nat, b: nat, k: nat)
    requires a < Power2(k)
    ensures XorBits(XorBits(a, b, k), b, k) == a
    decreases k
  {
    if k > 0 {
      XorBitsTwice(a / 2, b / 2, k - 1);
      var x, bit := XorBits(a / 2, b / 2, k - 1), if a % 2 == b % 2 then 0 else 1;
      assert XorBits(a, b, k) / 2 == x && XorBits(a, b, k) % 2 == bit;
    }
  }

  lemma {:induction false} ByteSize()
    ensures Power2(8) == 256
  {
    assert Power2(4) == 2 * 2 * 2 * 2 * Power2(0);
  }

  function Xor(a: Byte, b: Byte): Byte {
    ByteSize();
    XorBits(a, b, 8)
  }

  lemma {:induction false} XorTwice(a: Byte, b: Byte)
    ensures Xor(Xor(a, b), b) == a
  {
    ByteSize();
    XorBitsTwice(a, b, 8);
  }

  /** Bit `i` of `n`. */
  function Bit(n: nat, i: nat): nat {
    if i == 0 then n % 2 else Bit(n / 2, i - 1)
  }

  lemma {:induction false} XorBit(a: nat, b: nat, k: nat, i: nat)
    requires i < k
    ensures Bit(XorBits(a, b, k), i) == if Bit(a, i) != Bit(b, i) then 1 else 0
    decreases i
  {
    var x, bit := XorBits(a / 2, b / 2, k - 1), if a % 2 == b % 2 then 0 else 1;
    assert XorBits(a, b, k) / 2 == x && XorBits(a, b, k) % 2 == bit;
    if i > 0 {
      XorBit(a / 2, b / 2, k - 1, i - 1);
    }
  }

  /** `Xor` is the exclusive or: a bit of the result is set if and only if the two bits differ. */
  lemma {:induction false} XorIsExclusiveOr(a: Byte, b: Byte, i: nat)
    requires i < 8
    ensures Bit(Xor(a, b), i) == 1 <==> Bit(a, i) != Bit(b, i)
  {
    XorBit(a, b, 8, i);
  }

  /** A byte is determined by its bits, so there is only one such function. */
  lemma {:induction false} BitsDetermine(a: nat, b: nat, k: nat)
    requires a < Power2(k) && b < Power2(k) && forall i: nat | i < k :: Bit(a, i) == Bit(b, i)
    ensures a == b
    decreases k
  {
    if k > 0 {
      assert Bit(a, 0) == Bit(b, 0);
      forall i: nat | i < k - 1 ensures Bit(a / 2, i) == Bit(b / 2, i) {
        assert Bit(a, i + 1) == Bit(b, i + 1);
      }
      BitsDetermine(a / 2, b / 2, k - 1);
    }
  }

  lemma {:induction false} ZeroBit(i: nat)
    ensures Bit(0, i) == 0
    decreases i
  {
    if i > 0 {
      ZeroBit(i - 1);
    }
  }

  lemma {:induction false} BitIsBit(n: nat, i: nat)
    ensures Bit(n, i) == 0 || Bit(n, i) == 1
    decreases i
  {
    if i > 0 {
      BitIsBit(n / 2, i - 1);
    }
  }

  lemma {:induction false} XorZero(b: Byte)
    ensures Xor(0, b) == b
  {
    ByteSize();
    forall i: nat | i < 8 ensures Bit(Xor(0, b), i) == Bit(b, i) {
      XorBit(0, b, 8, i);
      ZeroBit(i);
      BitIsBit(b, i);
    }
    BitsDetermine(Xor(0, b), b, 8);
  }

  type Mask = m: seq<Byte> | |m| == 4 witness [0, 0, 0, 0]

  /** The first `n` bytes of `payload` with the mask applied (section 5.3). */
  function Masked(payload: seq<Byte>, mask: Mask, n: nat): (r: seq<Byte>)
    ensures |r| == |payload|
    ensures forall c | 0 <= c < |payload| :: r[c] == if c < n then Xor(payload[c], mask[c % 4]) else payload[c]
  {
    seq(|payload|, c requires 0 <= c < |payload| => if c < n then Xor(payload[c], mask[c % 4]) else payload[c])
  }

  lemma {:induction false} MaskedTwice(payload: seq<Byte>, mask: Mask, n: nat)
    ensures Masked(Masked(payload, mask, n), mask, n) == payload
  {
    forall c | 0 <= c < |payload| ensures Masked(Masked(payload, mask, n), mask, n)[c] == payload[c] {
      XorTwice(payload[c], mask[c % 4]);
    }
  }

  /** A payload of zeros shows the mask, over and over. */
  lemma {:induction false} MaskedZeros(payload: seq<Byte>, mask: Mask)
    requires forall c | 0 <= c < |payload| :: payload[c] == 0
    ensures forall c | 0 <= c < |payload| :: Masked(payload, mask, |payload|)[c] == mask[c % 4]
  {
    forall c | 0 <= c < |payload| ensures Masked(payload, mask, |payload|)[c] == mask[c % 4] {
      XorZero(mask[c % 4]);
    }
  }

  /** The bits of the masked payload: those of the mask, over and over, turn those of the payload. */
  lemma {:induction false} MaskedBits(payload: seq<Byte>, mask: Mask, n: nat, c: nat, i: nat)
    requires c < |payload| && i < 8
    ensures var bit := Bit(payload[c], i);
      Bit(Masked(payload, mask, n)[c], i) == if c < n && Bit(mask[c % 4], i) == 1 then 1 - bit else bit
  {
    BitIsBit(payload[c], i);
    BitIsBit(mask[c % 4], i);
    XorBit(payload[c], mask[c % 4], 8, i);
  }

  // ---- Frames ----

  /** `htons` and `ntohs`. */
  function SwappedShort(n: nat): nat
    requires n < 0x1_0000
  {
    n % 256 * 256 + n / 256
  }

  /** The size that a header with this size byte and these union bytes stands for, as it is read: the
      16-bit member is used for the 64-bit size and the other way round. */
  function SizeRead(size: Byte, v: seq<Byte>): UInt64
    requires |v| == 16
  {
    if size % 128 == 0x7F then
      WordSize();
      ReversedWord(FromBytes(v[..2]))
    else if size % 128 == 0x7E then SwappedShort(FromBytes(v[..8]) % 0x1_0000)
    else size % 128
  }

  /** The size that the standard reads from the same header: the size fields are in network byte order. */
  function SizeOnWire(size: Byte, v: seq<Byte>): UInt64
    requires |v| == 16
  {
    WordSize();
    if size % 128 == 0x7F then NetworkOrder(v[..8])
    else if size % 128 == 0x7E then NetworkOrder(v[..2])
    else size % 128
  }

  /** Where the mask lies in the union. */
  function MaskAt(size: Byte): nat {
    if size % 128 == 0x7F then 8 else if size % 128 == 0x7E then 2 else 0
  }

  lemma {:induction false} LowShort(v: seq<Byte>)
    requires |v| == 16
    ensures var high: int := v[1]; FromBytes(v[..8]) % 0x1_0000 == v[0] + 256 * high
  {
    var low: int, high: int, rest := v[0], v[1], FromBytes(v[2..8]);
    assert v[..8][1..][1..] == v[2..8];
    assert FromBytes(v[..8]) == low + 256 * (high + 256 * rest);
    QuotientUnique(FromBytes(v[..8]), 0x1_0000, rest, low + 256 * high);
  }

  lemma {:induction false} ShortReads(size: nat, v: seq<Byte>)
    requires size < 0x1_0000 && |v| == 16 && v[..2] == ToBytes(SwappedShort(size), 2)
    ensures SwappedShort(FromBytes(v[..8]) % 0x1_0000) == size && NetworkOrder(v[..2]) == size
  {
    var low, high: Byte := size / 256, size % 256;
    assert ToBytes(SwappedShort(size), 2) == [low, high] by {
      assert SwappedShort(size) % 256 == low && SwappedShort(size) / 256 == high;
      assert ToBytes(high, 1) == [high] + ToBytes(0, 0);
    }
    LowShort(v);
    assert v[0] == v[..2][0] && v[1] == v[..2][1];
    TwoBytes(high, low);
    assert Reversed(v[..2]) == [high, low];
    ReversedIsNetworkOrder(v[..2]);
  }

  lemma {:induction false} TimesTwice(a: nat, b: nat, c: nat)
    ensures a * (b * c) == (a * b) * c
  {
  }

  lemma {:induction false} LeadingZeros(zeros: nat, rest: seq<Byte>)
    ensures FromBytes(seq(zeros, _ => 0) + rest) == Power256(zeros) * FromBytes(rest)
    decreases zeros
  {
    if zeros == 0 {
      assert seq(0, _ => 0) + rest == rest;
    } else {
      LeadingZeros(zeros - 1, rest);
      TimesTwice(256, Power256(zeros - 1), FromBytes(rest));
      assert (seq(zeros, _ => 0) + rest)[1..] == seq(zeros - 1, _ => 0) + rest;
    }
  }

  /** Reading a 64-bit size through the 16-bit member loses its low 48 bits. */
  lemma {:induction false} LongReads(size: UInt64, v: seq<Byte>)
    requires |v| == 16 && v[..8] == ToBytes(ReversedWord(size), 8)
    ensures FromBytes(v[..2]) < TWO_TO_64
    ensures ReversedWord(FromBytes(v[..2])) == size / TWO_TO_48 * TWO_TO_48 && NetworkOrder(v[..8]) == size
  {
    WordSize();
    var bytes := ToBytes(size, 8);
    assert v[..8] == Reversed(bytes) by {
      ToFromBytes(Reversed(bytes));
    }
    assert Reversed(v[..8]) == bytes;
    ReversedIsNetworkOrder(v[..8]);
    FromToBytes(size, 8);
    assert v[..2] == v[..8][..2] == [bytes[7], bytes[6]];
    TwoBytes(bytes[7], bytes[6]);
    ReversedShort(bytes[7], bytes[6]);
    assert [bytes[6], bytes[7]] == bytes[6..];
    ToBytesDrop(size, 8, 6);
    TopBytes(size);
  }

  lemma {:induction false} TwoBytes(a: Byte, b: Byte)
    ensures var high: int := b; FromBytes([a, b]) == a + 256 * high < 0x1_0000
  {
    assert [a, b][1..] == [b] && [b][1..] == [];
  }

  lemma {:induction false} ReversedShort(a: Byte, b: Byte)
    ensures FromBytes([a, b]) < TWO_TO_64 && ReversedWord(FromBytes([a, b])) == TWO_TO_48 * FromBytes([b, a])
  {
    TwoBytes(a, b);
    SmallWord(a, b);
    WordSize();
    ReversedEight(a, b);
    LeadingZeros(6, [b, a]);
  }

  lemma {:induction false} ReversedEight(a: Byte, b: Byte)
    ensures Reversed([a, b, 0, 0, 0, 0, 0, 0]) == seq(6, _ => 0) + [b, a]
  {
  }

  lemma {:induction false} SmallWord(a: Byte, b: Byte)
    ensures var high: int := b; ToBytes(a + 256 * high, 8) == [a, b, 0, 0, 0, 0, 0, 0]
  {
    var high: int := b;
    assert ToBytes(0, 3) == [0, 0, 0] && ToBytes(0, 6) == [0, 0, 0] + ToBytes(0, 3);
    assert (a + 256 * high) % 256 == a && (a + 256 * high) / 256 == high;
    assert ToBytes(b, 7) == [b] + ToBytes(0, 6);
  }

  lemma {:induction false} TopBytes(size: UInt64)
    ensures FromBytes(ToBytes(size / TWO_TO_48, 2)) == size / TWO_TO_48
  {
    WordSize();
    FromToBytes(size / TWO_TO_48, 2);
  }

  /** What comes back for a size: the size itself up to 16 bits, otherwise all but its low 48 bits. */
  function ReadBack(size: UInt64): UInt64 {
    if size <= 0xFFFF then size else size / TWO_TO_48 * TWO_TO_48
  }

  /** Exactly the sizes up to 16 bits, and the multiples of 2 to the 48, survive. */
  lemma {:induction false} ReadBackIsExact(size: UInt64)
    ensures ReadBack(size) == size <==> size <= 0xFFFF || size % TWO_TO_48 == 0
  {
  }

  /** The length of a header (section 5.2): two bytes, the shortest size field that is wide enough, and
      the mask. */
  function HeaderLength(size: UInt64, masked: bool): nat {
    2 + (if size <= 125 then 0 else if size <= 0xFFFF then 2 else 8) + if masked then 4 else 0
  }

  /** A frame: the mask bit and short size in `size`, the union `v`, and the payload. */
  class Frame {
    var size: Byte
    const v: array<Byte>
    const payload: array<Byte>

    predicate Valid() {
      v.Length == 16 && v != payload
    }

    predicate IsMasked()
      reads this
    {
      size >= 0x80
    }

    /** `get_ws_payload_size`. */
    function PayloadSize(): UInt64
      requires Valid()
      reads this, v
    {
      SizeRead(size, v[..])
    }

    function WireSize(): UInt64
      requires Valid()
      reads this, v
    {
      SizeOnWire(size, v[..])
    }

    /** `get_ws_frame_mask`: the mask that the returned pointer leads to. */
    function FrameMask(): Option<Mask>
      requires Valid()
      reads this, v
    {
      if !IsMasked() then None
      else
        var mask: Mask := v[MaskAt(size)..MaskAt(size) + 4];
        Some(mask)
    }

    /** `get_ws_header_size`. */
    function HeaderSize(): nat
      reads this
    {
      match size
      case 0xFF => 14
      case 0xFE => 8
      case 0x7F => 10
      case 0x7E => 4
      case _ => if IsMasked() then 6 else 2
    }

    /** The mask is the last part of the header, which the payload follows: `v` begins after the first two
        bytes of the header. */
    lemma {:induction false} MaskEndsHeader()
      requires Valid() && IsMasked()
      ensures 2 + MaskAt(size) + 4 == HeaderSize()
      ensures FrameMask().Some? && FrameMask().value == v[HeaderSize() - 6..HeaderSize() - 2]
    {
    }

    method StoreMask(mask: Mask)
      requires Valid()
      modifies v
      ensures v[..] == old(v[..])[..MaskAt(size)] + mask + old(v[..])[MaskAt(size) + 4..]
    {
      var at := MaskAt(size);
      v[at] := mask[0];
      v[at + 1] := mask[1];
      v[at + 2] := mask[2];
      v[at + 3] := mask[3];
    }

    /** Assigns the 16-bit or the 64-bit member of the union. */
    method StoreWord(word: UInt64, k: nat)
      requires Valid() && k <= 8
      modifies v
      ensures v[..] == ToBytes(word, k) + old(v[..])[k..]
    {
      var bytes := ToBytes(word, k);
      var i := 0;
      while i < k
        invariant i <= k
        invariant forall j | 0 <= j < 16 :: v[j] == if j < i then bytes[j] else old(v[..])[j]
      {
        v[i] := bytes[i];
        i := i + 1;
      }
    }

    /** `set_ws_payload_size`: the header is the shortest one for the size and says the size to anyone who
        reads it by the standard, the mask is carried along, and `PayloadSize` reads back what it can. */
    method SetPayloadSize(newSize: UInt64)
      requires Valid()
      modifies this, v
      ensures IsMasked() == old(IsMasked()) && FrameMask() == old(FrameMask())
      ensures HeaderSize() == HeaderLength(newSize, IsMasked())
      ensures WireSize() == newSize && PayloadSize() == ReadBack(newSize)
    {
      var mask := FrameMask();
      StoreSize(newSize);
      if mask.Some? {
        ghost var before := v[..];
        StoreMask(mask.value);
        MaskBesideSize(size, before, mask.value);
      }
    }

    /** The first size that does not fit 16 bits: the header says it, but it reads back as 0. */
    method LostSizeExample()
      requires Valid()
      modifies this, v
      ensures WireSize() == 0x1_0000 && PayloadSize() == 0
    {
      SetPayloadSize(0x1_0000);
    }

    method StoreSize(newSize: UInt64)
      requires Valid()
      modifies this, v
      ensures IsMasked() == old(IsMasked()) && HeaderSize() == HeaderLength(newSize, IsMasked())
      ensures WireSize() == newSize && PayloadSize() == ReadBack(newSize)
    {
      var flag := if IsMasked() then 0x80 else 0;
      if newSize > 0xFFFF {
        size := flag + 0x7F;
        var word := Reversell(newSize);
        StoreWord(word, 8);
        assert v[..8] == ToBytes(word, 8);
      } else if newSize > 0x7D {
        size := flag + 0x7E;
        StoreWord(SwappedShort(newSize), 2);
        assert v[..2] == ToBytes(SwappedShort(newSize), 2);
      } else {
        size := flag + newSize;
      }
      SizeSurvives(newSize, size, v[..]);
    }

    /** `mask_ws_frame`; `mask` holds the random bytes. */
    method MaskFrame(mask: Mask)
      requires Valid() && PayloadSize() <= payload.Length
      modifies this, v, payload
      ensures PayloadSize() == old(PayloadSize()) && IsMasked() && FrameMask().Some?
      ensures if old(IsMasked()) then size == old(size) && v[..] == old(v[..]) && payload[..] == old(payload[..])
        else FrameMask() == Some(mask) && size % 128 == old(size) && payload[..] == Masked(old(payload[..]), mask, PayloadSize())
    {
      var count := PayloadSize();
      if IsMasked() {
        return;
      }
      AddMask(mask);
      assert payload[..] == old(payload[..]);
      XorPayload(mask, count);
    }

    /** Sets the mask bit and stores the mask. */
    method AddMask(mask: Mask)
      requires Valid() && !IsMasked()
      modifies this, v
      ensures PayloadSize() == old(PayloadSize()) && size == old(size) + 0x80 && FrameMask() == Some(mask)
    {
      ghost var before := v[..];
      FlagBesideSize(size, size + 0x80, before);
      size := size + 0x80;
      StoreMask(mask);
      MaskBesideSize(size, before, mask);
    }

    /** `unmask_ws_frame`. */
    method UnmaskFrame()
      requires Valid() && PayloadSize() <= payload.Length
      modifies this, payload
      ensures PayloadSize() == old(PayloadSize()) && !IsMasked() && size == old(size) % 128
      ensures payload[..] ==
        if old(IsMasked()) then Masked(old(payload[..]), old(FrameMask()).value, PayloadSize()) else old(payload[..])
    {
      var count := PayloadSize();
      if !IsMasked() {
        return;
      }
      var mask := FrameMask().value;
      FlagBesideSize(size, size - 0x80, v[..]);
      size := size - 0x80;
      XorPayload(mask, count);
    }

    /** The loop of both: the mask is applied in place. */
    method XorPayload(mask: Mask, count: nat)
      requires count <= payload.Length
      modifies payload
      ensures payload[..] == Masked(old(payload[..]), mask, count)
    {
      var c := 0;
      while c < count
        invariant c <= count
        invariant payload[..] == Masked(old(payload[..]), mask, c)
      {
        payload[c] := Xor(payload[c], mask[c % 4]);
        c := c + 1;
      }
    }

    /** Unmasking undoes masking, whatever the random bytes are. */
    method MaskAndUnmask(mask: Mask)
      requires Valid() && !IsMasked() && PayloadSize() <= payload.Length
      modifies this, v, payload
      ensures payload[..] == old(payload[..]) && size == old(size) && PayloadSize() == old(PayloadSize())
    {
      MaskFrame(mask);
      UnmaskFrame();
      MaskedTwice(old(payload[..]), mask, old(PayloadSize()));
    }
  }

  lemma {:induction false} SizeSurvives(newSize: UInt64, size: Byte, v: seq<Byte>)
    requires |v| == 16
    requires newSize > 0xFFFF ==> size % 128 == 0x7F && v[..8] == ToBytes(ReversedWord(newSize), 8)
    requires 0x7D < newSize <= 0xFFFF ==> size % 128 == 0x7E && v[..2] == ToBytes(SwappedShort(newSize), 2)
    requires newSize <= 0x7D ==> size % 128 == newSize
    ensures SizeRead(size, v) == ReadBack(newSize) && SizeOnWire(size, v) == newSize
  {
    if newSize > 0xFFFF {
      LongReads(newSize, v);
    } else if newSize > 0x7D {
      ShortReads(newSize, v);
    }
  }

  /** The mask bit is no part of the size. */
  lemma {:induction false} FlagBesideSize(size: Byte, flagged: Byte, v: seq<Byte>)
    requires |v| == 16 && size % 128 == flagged % 128
    ensures SizeRead(size, v) == SizeRead(flagged, v) && MaskAt(size) == MaskAt(flagged)
  {
  }

  /** Writing the mask does not touch the bytes that the size is read from. */
  lemma {:induction false} MaskBesideSize(size: Byte, v: seq<Byte>, mask: Mask)
    requires |v| == 16
    ensures var w := v[..MaskAt(size)] + mask + v[MaskAt(size) + 4..];
      SizeRead(size, w) == SizeRead(size, v) && SizeOnWire(size, w) == SizeOnWire(size, v)
  {
    var w := v[..MaskAt(size)] + mask + v[MaskAt(size) + 4..];
    if size % 128 == 0x7F {
      assert w[..2] == v[..2] && w[..8] == v[..8];
    } else if size % 128 == 0x7E {
      assert w[..2] == v[..2];
      LowShort(v);
      LowShort(w);
    }
  }
}
