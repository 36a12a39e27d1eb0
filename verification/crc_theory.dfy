/** What the checksum detects. */
module CrcTheory {
  // The checksum is the remainder of a division over GF(2), and it never misses a burst of up to
  // sixteen bits.

  import opened CrcRegister
  import opened Crc16

  // ------------------------------------------------------------------- division by the generator

  /** The product of a polynomial and the generator, by schoolbook shift and add. */
  function Product(q: Bits): (r: Bits)
    ensures |r| == |q| + 16
  {
    if q == [] then Zeros(16)
    else
      var n := |q| - 1;
      Xor(Product(q[..n]) + [false], Zeros(n) + (if q[n] then Generator() else Zeros(17)))
  }

  /** The message times x^16, with the initial value added at the front. */
  function Dividend(message: Bits): (r: Bits)
    ensures |r| == |message| + 16
  {
    Xor(message + Zeros(16), Ones() + Zeros(|message|))
  }

  ghost predicate Divides(message: Bits, q: Bits, remainder: Register) {
    |q| == |message| && Dividend(message) == Xor(Product(q), Zeros(|message|) + remainder)
  }

  function Quotient(message: Bits): (q: Bits)
    ensures |q| == |message|
  {
    if message == [] then []
    else
      var n := |message| - 1;
      Quotient(message[..n]) + [FeedAll(Ones(), message[..n])[0] != message[n]]
  }

  lemma NextDividend(message: Bits, n: nat)
    requires |message| == n + 1
    ensures Dividend(message)
            == Xor(Dividend(message[..n]) + [false], Zeros(n) + ([message[n]] + Zeros(16)))
  {
  }

  lemma NextLine(product: Bits, c: Register, m: bool, n: nat)
    requires |product| == n + 16
    ensures var line := if c[0] != m then Generator() else Zeros(17);
            Xor(Xor(product, Zeros(n) + c) + [false], Zeros(n) + ([m] + Zeros(16)))
            == Xor(Xor(product + [false], Zeros(n) + line), Zeros(n + 1) + Feed(c, m))
  {
  }

  lemma {:induction false} FeedAllDivides(message: Bits)
    ensures Divides(message, Quotient(message), FeedAll(Ones(), message))
  {
    hide Feed, Xor, Zeros, Ones, Generator;
    if message == [] {
      EmptyDivision();
    } else {
      var n := |message| - 1;
      FeedAllDivides(message[..n]);
      NextDividend(message, n);
      NextLine(Product(Quotient(message[..n])), FeedAll(Ones(), message[..n]), message[n], n);
      assert Quotient(message)[..n] == Quotient(message[..n]);
    }
  }

  lemma EmptyDivision()
    ensures Divides([], [], Ones())
  {
  }

  // ------------------------------------------------------------------------------- uniqueness

  lemma {:induction false} ProductPrefix(q: Bits, k: nat, j: nat)
    requires j < k <= |q|
    ensures Product(q)[j] == Product(q[..k])[j]
  {
    if k < |q| {
      ProductPrefix(q[..|q| - 1], k, j);
      assert q[..|q| - 1][..k] == q[..k];
    } else {
      assert q[..k] == q;
    }
  }

  lemma ProductBit(q: Bits, k: nat)
    requires k < |q|
    ensures Product(q)[k] == (Product(q[..k])[k] != q[k])
  {
    ProductPrefix(q, k + 1, k);
    LastProductBit(q[..k + 1]);
    hide Product;
    assert q[..k + 1][..k] == q[..k];
  }

  lemma LastProductBit(q: Bits)
    requires q != []
    ensures var k := |q| - 1; Product(q)[k] == (Product(q[..k])[k] != q[k])
  {
  }

  lemma {:induction false} ProductDetermines(p: Bits, q: Bits, k: nat)
    requires k <= |p| == |q| && forall j | 0 <= j < k :: Product(p)[j] == Product(q)[j]
    ensures p[..k] == q[..k]
  {
    if k > 0 {
      ProductDetermines(p, q, k - 1);
      ProductBit(p, k - 1);
      ProductBit(q, k - 1);
    }
  }

  /** A remainder of fewer than sixteen degrees, and its quotient, are unique. */
  lemma DivisionIsUnique(message: Bits, p: Bits, r: Register, q: Bits, s: Register)
    requires Divides(message, p, r) && Divides(message, q, s)
    ensures p == q && r == s
  {
    var n := |message|;
    var left, right := Xor(Product(p), Zeros(n) + r), Xor(Product(q), Zeros(n) + s);
    forall j | 0 <= j < n ensures Product(p)[j] == Product(q)[j] {
      assert left[j] == right[j];
    }
    ProductDetermines(p, q, n);
    assert p[..n] == p && q[..n] == q;
    forall i | 0 <= i < 16 ensures r[i] == s[i] {
      assert left[n + i] == right[n + i];
    }
  }

  /** The program computes the remainder of the message, with FFFF added in front and sixteen
      zeros behind, divided by x^16 + x^12 + x^5 + 1: that register and no other. */
  lemma CrcIsTheRemainder(bytes: seq<Byte>, r: Register)
    ensures (exists q :: Divides(MessageBits(bytes), q, r)) <==> r == BitsOf(Crc(bytes))
  {
    var message := MessageBits(bytes);
    FeedAllDivides(message);
    CrcIsFeedAll(bytes);
    hide Divides, BitsOf, Crc;
    if q :| Divides(message, q, r) {
      DivisionIsUnique(message, q, r, Quotient(message), BitsOf(Crc(bytes)));
    }
  }

  // ------------------------------------------------------------------------------------ bursts

  lemma FeedIsInjective(c: Register, d: Register, m: bool)
    requires Feed(c, m) == Feed(d, m)
    ensures c == d
  {
    assert Feed(c, m)[15] == Feed(d, m)[15];
    assert c[0] == d[0];
    forall k | 1 <= k < 16 ensures c[k] == d[k] {
      assert Feed(c, m)[k - 1] == Feed(d, m)[k - 1];
    }
  }

  lemma {:induction false} FeedAllIsInjective(c: Register, d: Register, message: Bits)
    requires FeedAll(c, message) == FeedAll(d, message)
    ensures c == d
  {
    hide Feed;
    if message != [] {
      var n := |message| - 1;
      FeedIsInjective(FeedAll(c, message[..n]), FeedAll(d, message[..n]), message[n]);
      FeedAllIsInjective(c, d, message[..n]);
    }
  }

  lemma FeedBack(c: Register, d: Register, x: bool, y: bool, rest: Bits)
    requires |rest| <= 15 && Xor(Feed(c, x), Feed(d, y)) == rest + Zeros(16 - |rest|)
    ensures Xor(c, d) == [x != y] + rest + Zeros(15 - |rest|)
  {
    var a, b := Feed(c, x), Feed(d, y);
    assert Xor(a, b)[15] == (a[15] != b[15]) && !Xor(a, b)[15];
    assert (c[0] != x) == (d[0] != y);
    var expected := [x != y] + rest + Zeros(15 - |rest|);
    forall k | 1 <= k < 16 ensures (c[k] != d[k]) == expected[k] {
      assert Xor(a, b)[k - 1] == (a[k - 1] != b[k - 1]);
      assert expected[k] == (rest + Zeros(16 - |rest|))[k - 1];
    }
  }

  /** Registers that agree after at most sixteen bits differed exactly as those bits did. */
  lemma {:induction false} AgreementMeans(c: Register, d: Register, xs: Bits, ys: Bits)
    requires |xs| == |ys| <= 16 && FeedAll(c, xs) == FeedAll(d, ys)
    ensures Xor(c, d) == Xor(xs, ys) + Zeros(16 - |xs|)
    decreases |xs|
  {
    if xs != [] {
      assert xs == [xs[0]] + xs[1..] && ys == [ys[0]] + ys[1..];
      FeedBoth(c, [xs[0]], xs[1..]);
      FeedBoth(d, [ys[0]], ys[1..]);
      AgreementMeans(Feed(c, xs[0]), Feed(d, ys[0]), xs[1..], ys[1..]);
      hide Feed, FeedAll;
      FeedBack(c, d, xs[0], ys[0], Xor(xs[1..], ys[1..]));
      assert Xor(xs, ys) == [xs[0] != ys[0]] + Xor(xs[1..], ys[1..]);
      assert Xor(c, d) == Xor(xs, ys) + Zeros(16 - |xs|);
    } else {
      assert Xor(c, d) == Zeros(16);
    }
  }

  lemma BurstChangesRegister(c: Register, xs: Bits, ys: Bits)
    requires |xs| == |ys| <= 16 && FeedAll(c, xs) == FeedAll(c, ys)
    ensures xs == ys
  {
    AgreementMeans(c, c, xs, ys);
    var difference := Xor(xs, ys) + Zeros(16 - |xs|);
    forall i | 0 <= i < |xs| ensures xs[i] == ys[i] {
      assert Xor(c, c)[i] == difference[i];
      assert Xor(xs, ys)[i] == difference[i];
    }
  }

  lemma {:induction false} MessageLength(bytes: seq<Byte>)
    ensures |MessageBits(bytes)| == 8 * |bytes|
  {
    if bytes != [] {
      MessageLength(bytes[..|bytes| - 1]);
    }
  }

  lemma ByteBitsAreInjective(a: Byte, b: Byte)
    requires ByteBits(a) == ByteBits(b)
    ensures a == b
  {
  }

  lemma {:induction false} MessageBitsAreInjective(a: seq<Byte>, b: seq<Byte>)
    requires |a| == |b| && MessageBits(a) == MessageBits(b)
    ensures a == b
  {
    if a != [] {
      var n := |a| - 1;
      var p, q := MessageBits(a[..n]), MessageBits(b[..n]);
      MessageLength(a[..n]);
      MessageLength(b[..n]);
      assert p == MessageBits(a)[..8 * n] && q == MessageBits(b)[..8 * n];
      assert ByteBits(a[n]) == MessageBits(a)[8 * n..] && ByteBits(b[n]) == MessageBits(b)[8 * n..];
      ByteBitsAreInjective(a[n], b[n]);
      MessageBitsAreInjective(a[..n], b[..n]);
      assert a == a[..n] + [a[n]] && b == b[..n] + [b[n]];
    }
  }

  lemma SameBurst(before: Bits, xs: Bits, ys: Bits, behind: Bits)
    requires |xs| == |ys| <= 16
    requires FeedAll(Ones(), before + xs + behind) == FeedAll(Ones(), before + ys + behind)
    ensures xs == ys
  {
    var c := FeedAll(Ones(), before);
    FeedBoth(Ones(), before + xs, behind);
    FeedBoth(Ones(), before + ys, behind);
    FeedBoth(Ones(), before, xs);
    FeedBoth(Ones(), before, ys);
    hide FeedAll;
    FeedAllIsInjective(FeedAll(c, xs), FeedAll(c, ys), behind);
    BurstChangesRegister(c, xs, ys);
  }

  lemma Cut(x: Bits, y: Bits, i: nat, j: nat)
    requires |x| == |y| && i <= j <= |x|
    requires forall k | 0 <= k < |x| && !(i <= k < j) :: x[k] == y[k]
    ensures x == x[..i] + x[i..j] + x[j..] && y == x[..i] + y[i..j] + x[j..]
  {
  }

  /** Two messages of one length that differ only inside sixteen consecutive bits have different
      checksums. */
  lemma BurstsAreDetected(a: seq<Byte>, b: seq<Byte>, from: nat, width: nat)
    requires |a| == |b| && a != b && width <= 16
    requires var x, y := MessageBits(a), MessageBits(b);
             |x| == |y| && forall i | 0 <= i < |x| && !(from <= i < from + width) :: x[i] == y[i]
    ensures Crc(a) != Crc(b)
  {
    var x, y := MessageBits(a), MessageBits(b);
    var i := if from <= |x| then from else |x|;
    var j := if from + width <= |x| then from + width else |x|;
    Cut(x, y, i, j);
    CrcIsFeedAll(a);
    CrcIsFeedAll(b);
    hide BitsOf, Crc, FeedAll, MessageBits;
    if Crc(a) == Crc(b) {
      SameBurst(x[..i], x[i..j], y[i..j], x[j..]);
      MessageBitsAreInjective(a, b);
    }
  }
}
