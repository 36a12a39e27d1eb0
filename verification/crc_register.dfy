/** The 16-bit shift register of the checksum loop in vietqr-payload.ts: facts about single words,
    kept apart from everything that talks about sequences.  The word operations have names so
    that proofs about several of them need no bit arithmetic. */
module CrcRegister {
  type Byte = bv8

  function XorWords(a: bv16, b: bv16): bv16 {
    a ^ b
  }

  function Double(w: bv16): bv16 {
    w << 1
  }

  predicate HasTop(w: bv16) {
    w & 0x8000 != 0
  }

  /** One turn of the inner loop. */
  function Shift(crc: bv16): bv16 {
    if HasTop(crc) then XorWords(Double(crc), 0x1021) else Double(crc)
  }

  function Top(m: bool): bv16 {
    if m then 0x8000 else 0
  }

  function Aligned(b: Byte): bv16 {
    (b as bv16) << 8
  }

  // The source's steps, on a 32-bit number with the upper half masked off after each shift.
  function Wide(c: bv16): bv32 {
    c as bv32
  }

  predicate WideTop(crc: bv32) {
    crc & 0x8000 != 0
  }

  function WideDouble(crc: bv32): bv32 {
    (crc << 1) & 0xffff
  }

  function WideSubtract(crc: bv32): bv32 {
    ((crc << 1) ^ 0x1021) & 0xffff
  }

  function WideShift(crc: bv32): bv32 {
    if WideTop(crc) then WideSubtract(crc) else WideDouble(crc)
  }

  function WideMix(crc: bv32, b: Byte): bv32 {
    crc ^ ((b as bv32) << 8)
  }

  // --------------------------------------------------------------- facts about one operation

  lemma MixWide(crc: bv16, b: Byte)
    ensures WideMix(Wide(crc), b) == Wide(XorWords(crc, Aligned(b)))
  {
  }

  lemma TopWide(c: bv16)
    ensures WideTop(Wide(c)) == HasTop(c)
  {
  }

  lemma DoubleWide(c: bv16)
    ensures WideDouble(Wide(c)) == Wide(Double(c))
  {
  }

  lemma SubtractWide(c: bv16)
    ensures WideSubtract(Wide(c)) == Wide(XorWords(Double(c), 0x1021))
  {
    hide *;
    WideIs(c);
    SubtractIs(c as bv32);
    FlippedIs(c);
    WideIs((c << 1) ^ 0x1021);
    MaskedSubtract(c);
  }

  lemma WideIs(c: bv16)
    ensures Wide(c) == c as bv32
  {
  }

  lemma SubtractIs(x: bv32)
    ensures WideSubtract(x) == ((x << 1) ^ 0x1021) & 0xffff
  {
  }

  lemma FlippedIs(c: bv16)
    ensures XorWords(Double(c), 0x1021) == (c << 1) ^ 0x1021
  {
  }

  lemma MaskedSubtract(c: bv16)
    ensures (((c as bv32) << 1) ^ 0x1021) & 0xffff == ((c << 1) ^ 0x1021) as bv32
  {
  }

  lemma DoubleXor(c: bv16, w: bv16)
    ensures Double(XorWords(c, w)) == XorWords(Double(c), Double(w))
  {
  }

  lemma TopXor(c: bv16, w: bv16)
    ensures HasTop(XorWords(c, w)) == (HasTop(c) != HasTop(w))
  {
  }

  lemma OnlyTop(c: bv16)
    ensures HasTop(0x8000) && !HasTop(0) && Double(0x8000) == 0 && Double(0) == 0
    ensures XorWords(c, 0) == c
  {
  }

  lemma XorSwap(a: bv16, b: bv16, c: bv16)
    ensures XorWords(XorWords(a, b), c) == XorWords(XorWords(a, c), b)
  {
  }

  // ------------------------------------------------------------------------------- one shift

  lemma ShiftWide(crc: bv16)
    ensures WideShift(Wide(crc)) == Wide(Shift(crc))
  {
    TopWide(crc);
    DoubleWide(crc);
    SubtractWide(crc);
    hide Wide, Double, HasTop, XorWords, WideTop, WideDouble, WideSubtract;
  }

  lemma ShiftForm(c: bv16, m: bool)
    ensures Shift(XorWords(c, Top(m))) == if HasTop(c) != m then XorWords(Double(c), 0x1021) else Double(c)
  {
    TopXor(c, Top(m));
    DoubleXor(c, Top(m));
    OnlyTop(Double(c));
    hide Double, HasTop, XorWords;
  }

  /** Mixing a word in and shifting is mixing in its top bit, shifting, and keeping the rest. */
  lemma SplitShift(c: bv16, w: bv16)
    ensures Shift(XorWords(c, w)) == XorWords(Shift(XorWords(c, Top(HasTop(w)))), Double(w))
  {
    ShiftForm(c, HasTop(w));
    TopXor(c, w);
    DoubleXor(c, w);
    XorSwap(Double(c), Double(w), 0x1021);
    hide Double, HasTop, XorWords;
  }

  lemma FlippedBits(c: bv16)
    ensures var d := XorWords(c, 0x1021);
            && (d & 0x8000 != 0 <==> c & 0x8000 != 0) && (d & 0x4000 != 0 <==> c & 0x4000 != 0)
            && (d & 0x2000 != 0 <==> c & 0x2000 != 0) && (d & 0x1000 != 0 <==> c & 0x1000 == 0)
            && (d & 0x0800 != 0 <==> c & 0x0800 != 0) && (d & 0x0400 != 0 <==> c & 0x0400 != 0)
            && (d & 0x0200 != 0 <==> c & 0x0200 != 0) && (d & 0x0100 != 0 <==> c & 0x0100 != 0)
            && (d & 0x0080 != 0 <==> c & 0x0080 != 0) && (d & 0x0040 != 0 <==> c & 0x0040 != 0)
            && (d & 0x0020 != 0 <==> c & 0x0020 == 0) && (d & 0x0010 != 0 <==> c & 0x0010 != 0)
            && (d & 0x0008 != 0 <==> c & 0x0008 != 0) && (d & 0x0004 != 0 <==> c & 0x0004 != 0)
            && (d & 0x0002 != 0 <==> c & 0x0002 != 0) && (d & 0x0001 != 0 <==> c & 0x0001 == 0)
  {
  }

  // ------------------------------------------------------------------------ the eight shifts

  function Shifts(crc: bv16, times: nat): bv16 {
    if times == 0 then crc else Shift(Shifts(crc, times - 1))
  }

  // What is left of the message byte after k shifts.
  function Word(b: Byte, k: nat): bv16 {
    if k == 0 then Aligned(b) else Double(Word(b, k - 1))
  }

  /** The register when the bits of the byte are taken one at a time. */
  function Fed(c: bv16, b: Byte, k: nat): bv16 {
    if k == 0 then c else Shift(XorWords(Fed(c, b, k - 1), Top(HasTop(Word(b, k - 1)))))
  }

  /** Mixing the whole byte first is the same as taking its bits one at a time. */
  lemma {:induction false} ShiftsSplit(c: bv16, b: Byte, k: nat)
    ensures Shifts(XorWords(c, Aligned(b)), k) == XorWords(Fed(c, b, k), Word(b, k))
  {
    hide Shift, Top, HasTop, XorWords, Aligned, Double;
    if k > 0 {
      ShiftsSplit(c, b, k - 1);
      SplitShift(Fed(c, b, k - 1), Word(b, k - 1));
    }
  }

  lemma WordBits(b: Byte)
    ensures Word(b, 8) == 0
    ensures (HasTop(Word(b, 0)) <==> b & 0x80 != 0) && (HasTop(Word(b, 1)) <==> b & 0x40 != 0)
    ensures (HasTop(Word(b, 2)) <==> b & 0x20 != 0) && (HasTop(Word(b, 3)) <==> b & 0x10 != 0)
    ensures (HasTop(Word(b, 4)) <==> b & 0x08 != 0) && (HasTop(Word(b, 5)) <==> b & 0x04 != 0)
    ensures (HasTop(Word(b, 6)) <==> b & 0x02 != 0) && (HasTop(Word(b, 7)) <==> b & 0x01 != 0)
  {
  }
}
