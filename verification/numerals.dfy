/** Positional numerals. */
module Numerals {
  // String(n), toString(16).toUpperCase(), padStart and their inverse.

  function DigitChar(d: nat): char
    requires d < 16
  {
    "0123456789ABCDEF"[d]
  }

  predicate IsDigit(c: char) {
    '0' <= c <= '9'
  }

  predicate IsNumeralChar(c: char) {
    IsDigit(c) || 'A' <= c <= 'F'
  }

  function CharValue(c: char): nat {
    if IsDigit(c) then c as nat - '0' as nat
    else if 'A' <= c <= 'F' then c as nat - 'A' as nat + 10
    else 0
  }

  function Numeral(n: nat, base: nat): (s: string)
    requires 2 <= base <= 16
    ensures s != ""
    ensures forall i | 0 <= i < |s| :: IsNumeralChar(s[i]) && (base == 10 ==> IsDigit(s[i]))
  {
    DivMod(n, base);
    if n < base then [DigitChar(n)] else Numeral(n / base, base) + [DigitChar(n % base)]
  }

  lemma DivMod(n: nat, base: nat)
    requires base >= 2
    ensures n == n / base * base + n % base && n % base < base
    ensures n >= base ==> n / base < n
  {
  }

  function Repeat(c: char, n: nat): string {
    seq(n, _ => c)
  }

  function PadStart(s: string, width: nat): string {
    if |s| >= width then s else Repeat('0', width - |s|) + s
  }

  function Value(s: string, base: nat): nat {
    if s == "" then 0 else Value(s[..|s| - 1], base) * base + CharValue(s[|s| - 1])
  }

  lemma DigitValue(d: nat)
    requires d < 16
    ensures CharValue(DigitChar(d)) == d
  {
  }

  /** Reading a numeral gives the number back, so numerals are injective. */
  lemma {:induction false} NumeralReads(n: nat, base: nat)
    requires 2 <= base <= 16
    ensures Value(Numeral(n, base), base) == n
  {
    DivMod(n, base);
    if n < base {
      DigitValue(n);
    } else {
      NumeralReads(n / base, base);
      DigitValue(n % base);
    }
  }

  lemma {:induction false} LeadingZeros(k: nat, s: string, base: nat)
    ensures Value(Repeat('0', k) + s, base) == Value(s, base)
    decreases |s|, k
  {
    var t := Repeat('0', k) + s;
    if s == "" {
      if k > 0 {
        LeadingZeros(k - 1, s, base);
        assert t[..k - 1] == Repeat('0', k - 1) + s;
      }
    } else {
      LeadingZeros(k, s[..|s| - 1], base);
      assert t[..|t| - 1] == Repeat('0', k) + s[..|s| - 1];
    }
  }

  function Power(base: nat, k: nat): nat {
    if k == 0 then 1 else base * Power(base, k - 1)
  }

  lemma {:induction false} NumeralLength(n: nat, base: nat, k: nat)
    requires 2 <= base <= 16 && k >= 1 && n < Power(base, k)
    ensures |Numeral(n, base)| <= k
  {
    if n >= base {
      assert k >= 2 by {
        assert Power(base, 0) == 1;
      }
      Quotient(n, base, Power(base, k - 1));
      NumeralLength(n / base, base, k - 1);
    }
  }

  lemma Quotient(n: nat, base: nat, bound: nat)
    requires base >= 1 && n < base * bound
    ensures n / base < bound
  {
  }

  /** A padded numeral has the padded width and still reads back. */
  lemma PaddedReads(n: nat, base: nat, width: nat)
    requires 2 <= base <= 16 && width >= 1 && n < Power(base, width)
    ensures |PadStart(Numeral(n, base), width)| == width
    ensures Value(PadStart(Numeral(n, base), width), base) == n
    ensures forall i | 0 <= i < width :: IsNumeralChar(PadStart(Numeral(n, base), width)[i])
    ensures base == 10 ==> forall i | 0 <= i < width :: IsDigit(PadStart(Numeral(n, base), width)[i])
  {
    var s := Numeral(n, base);
    NumeralReads(n, base);
    NumeralLength(n, base, width);
    LeadingZeros(width - |s|, s, base);
  }
}
