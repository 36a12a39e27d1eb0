/** The checksum loop. */
module Crc16 {
  // CRC-16/CCITT-FALSE as the VietQR builder computes it (vietqr-payload.ts), against polynomial
  // division over GF(2) as section 4.7.3 of the EMVCo QR Code Specification for Payment Systems
  // (Merchant-Presented Mode) requires: polynomial x^16 + x^12 + x^5 + 1, initial value FFFF.
  // Bits are listed most significant first.

  import opened CrcRegister

  type Bits = seq<bool>
  type Register = b: Bits | |b| == 16 witness seq(16, _ => false)

  // ------------------------------------------------------------------------------ the program

  function AddByte(crc: bv16, b: Byte): bv16 {
    Shifts(XorWords(crc, Aligned(b)), 8)
  }

  function Crc(bytes: seq<Byte>): bv16 {
    if bytes == [] then 0xffff else AddByte(Crc(bytes[..|bytes| - 1]), bytes[|bytes| - 1])
  }

  /** Kept in 32 bits and masked, as in the source. */
  method Crc16Ccitt(bytes: seq<Byte>) returns (crc: bv32)
    ensures crc == Wide(Crc(bytes))
  {
    hide Shift, Crc, Wide, XorWords, Aligned, WideShift, WideMix;
    crc := 0xffff;
    NoBytes();
    assert bytes[..0] == [];
    for k := 0 to |bytes|
      invariant crc == Wide(Crc(bytes[..k]))
    {
      var b := bytes[k];
      NextByte(bytes, k);
      MixWide(Crc(bytes[..k]), b);
      crc := WideMix(crc, b);
      ghost var mixed := XorWords(Crc(bytes[..k]), Aligned(b));
      for i := 0 to 8
        invariant crc == Wide(Shifts(mixed, i))
      {
        ShiftWide(Shifts(mixed, i));
        crc := WideShift(crc);
      }
    }
    assert bytes[..|bytes|] == bytes;
  }

  lemma NoBytes()
    ensures Wide(Crc([])) == 0xffff
  {
  }

  lemma NextByte(bytes: seq<Byte>, k: nat)
    requires k < |bytes|
    ensures Crc(bytes[..k + 1]) == Shifts(XorWords(Crc(bytes[..k]), Aligned(bytes[k])), 8)
  {
    hide Shifts, XorWords, Aligned;
    assert bytes[..k + 1][..k] == bytes[..k];
  }

  // ----------------------------------------------------------------------- the bitwise register

  function Zeros(n: nat): Bits {
    seq(n, _ => false)
  }

  function Xor(a: Bits, b: Bits): (r: Bits)
    requires |a| == |b|
    ensures |r| == |a|
  {
    seq(|a|, i requires 0 <= i < |a| => a[i] != b[i])
  }

  // x^12 + x^5 + 1: the generator without its leading x^16.
  predicate Tap(i: nat) {
    i == 3 || i == 10 || i == 15
  }

  function Low(): Register {
    seq(16, i requires 0 <= i < 16 => Tap(i))
  }

  /** x^16 + x^12 + x^5 + 1 */
  function Generator(): Bits {
    [true] + Low()
  }

  /** Takes in one message bit: shift it in, and subtract the generator if a one falls out. */
  function Feed(c: Register, m: bool): Register {
    seq(16, i requires 0 <= i < 16 => (i < 15 && c[i + 1]) != ((c[0] != m) && Tap(i)))
  }

  function FeedAll(c: Register, message: Bits): Register {
    if message == [] then c else Feed(FeedAll(c, message[..|message| - 1]), message[|message| - 1])
  }

  function Ones(): Register {
    seq(16, _ => true)
  }

  function BitsOf(c: bv16): Register {
    [c & 0x8000 != 0, c & 0x4000 != 0, c & 0x2000 != 0, c & 0x1000 != 0,
     c & 0x0800 != 0, c & 0x0400 != 0, c & 0x0200 != 0, c & 0x0100 != 0,
     c & 0x0080 != 0, c & 0x0040 != 0, c & 0x0020 != 0, c & 0x0010 != 0,
     c & 0x0008 != 0, c & 0x0004 != 0, c & 0x0002 != 0, c & 0x0001 != 0]
  }

  function ByteBits(b: Byte): (bits: Bits)
    ensures |bits| == 8
  {
    [b & 0x80 != 0, b & 0x40 != 0, b & 0x20 != 0, b & 0x10 != 0,
     b & 0x08 != 0, b & 0x04 != 0, b & 0x02 != 0, b & 0x01 != 0]
  }

  function MessageBits(bytes: seq<Byte>): Bits {
    if bytes == [] then [] else MessageBits(bytes[..|bytes| - 1]) + ByteBits(bytes[|bytes| - 1])
  }

  lemma DoubledList(c: bv16)
    ensures BitsOf(Double(c)) == BitsOf(c)[1..] + [false]
  {
  }

  lemma FlippedList(c: bv16)
    ensures BitsOf(XorWords(c, 0x1021)) == Xor(BitsOf(c), Low())
  {
    FlippedBits(c);
    XorLow(BitsOf(c));
    hide XorWords, Xor, Low;
  }

  lemma XorLow(a: Register)
    ensures Xor(a, Low()) == [a[0], a[1], a[2], !a[3], a[4], a[5], a[6], a[7],
                              a[8], a[9], !a[10], a[11], a[12], a[13], a[14], !a[15]]
  {
  }

  lemma FirstIsTop(c: bv16)
    ensures BitsOf(c)[0] == HasTop(c)
  {
  }

  /** Shifting a register into whose top a message bit was mixed is feeding that bit. */
  lemma ShiftIsFeed(c: bv16, m: bool)
    ensures BitsOf(Shift(XorWords(c, Top(m)))) == Feed(BitsOf(c), m)
  {
    ShiftForm(c, m);
    FirstIsTop(c);
    DoubledList(c);
    FlippedList(Double(c));
    hide Shift, Top, XorWords, Double, HasTop, BitsOf;
  }

  lemma WordTops(b: Byte, k: nat)
    requires k < 8
    ensures HasTop(Word(b, k)) == ByteBits(b)[k]
  {
    WordBits(b);
    hide Word, HasTop;
  }

  lemma {:induction false} FedIsFeedAll(c: bv16, b: Byte, k: nat)
    requires k <= 8
    ensures BitsOf(Fed(c, b, k)) == FeedAll(BitsOf(c), ByteBits(b)[..k])
  {
    hide BitsOf, Feed, Shift, Top, HasTop, Word, ByteBits, XorWords;
    if k > 0 {
      FedIsFeedAll(c, b, k - 1);
      assert ByteBits(b)[..k][..k - 1] == ByteBits(b)[..k - 1];
      WordTops(b, k - 1);
      ShiftIsFeed(Fed(c, b, k - 1), ByteBits(b)[k - 1]);
    }
  }

  lemma AddByteIsFeedAll(c: bv16, b: Byte)
    ensures BitsOf(AddByte(c, b)) == FeedAll(BitsOf(c), ByteBits(b))
  {
    ShiftsSplit(c, b, 8);
    WordBits(b);
    OnlyTop(Fed(c, b, 8));
    FedIsFeedAll(c, b, 8);
    hide BitsOf, Fed, Word, Shifts, XorWords, HasTop, ByteBits;
    assert ByteBits(b)[..8] == ByteBits(b);
  }

  lemma {:induction false} FeedBoth(c: Register, a: Bits, b: Bits)
    ensures FeedAll(c, a + b) == FeedAll(FeedAll(c, a), b)
    decreases |b|
  {
    hide Feed;
    if b == [] {
      assert a + b == a;
    } else {
      var n := |b| - 1;
      FeedBoth(c, a, b[..n]);
      assert (a + b)[..|a| + n] == a + b[..n];
    }
  }

  lemma StartIsOnes()
    ensures BitsOf(0xffff) == Ones()
  {
  }

  /** The byte-wise program feeds the message bit by bit into a register of ones. */
  lemma {:induction false} CrcIsFeedAll(bytes: seq<Byte>)
    ensures BitsOf(Crc(bytes)) == FeedAll(Ones(), MessageBits(bytes))
  {
    hide BitsOf, AddByte, ByteBits, Feed, Ones;
    if bytes == [] {
      StartIsOnes();
    } else {
      var n := |bytes| - 1;
      CrcIsFeedAll(bytes[..n]);
      AddByteIsFeedAll(Crc(bytes[..n]), bytes[n]);
      FeedBoth(Ones(), MessageBits(bytes[..n]), ByteBits(bytes[n]));
    }
  }
}
