/** What a reading says, character by character (recognition.py). */
module ReadingEffects {
  // White space, digits, letters, blank marks and numbers as literal characters; and which curve a
  // confidence goes through.

  import opened Contracts
  import opened Recognition
  import opened Numerals
  import Calibration
  import CatalogueRanking

  const DIGITS: string := "0123456789"

  // Tab to carriage return, the four separators, space, and Unicode's other spaces.
  const SPACES: string :=
    "\t\n\U{000B}\U{000C}\r\U{001C}\U{001D}\U{001E}\U{001F} \U{0085}\U{00A0}\U{1680}"
    + "\U{2000}\U{2001}\U{2002}\U{2003}\U{2004}\U{2005}\U{2006}\U{2007}\U{2008}\U{2009}\U{200A}"
    + "\U{2028}\U{2029}\U{202F}\U{205F}\U{3000}"

  predicate Latin(c: char) {
    'a' <= c <= 'z' || 'A' <= c <= 'Z'
  }

  lemma AlphabetIs(c: char)
    ensures Contracts.IsDigit(c) <==> c in DIGITS
    ensures IsAlphanumeric(c) <==> c in DIGITS || Latin(c)
  {
    if Contracts.IsDigit(c) {
      assert DIGITS[c as int - '0' as int] == c;
    }
  }

  lemma SpacesAre(c: char)
    ensures IsSpace(c) <==> c in SPACES
  {
    var n := c as int;
    if 9 <= n <= 13 {
      assert SPACES[n - 9] == c;
    } else if 28 <= n <= 32 {
      assert SPACES[5 + (n - 28)] == c;
    } else if 8192 <= n <= 8202 {
      assert SPACES[13 + (n - 8192)] == c;
    } else if IsSpace(c) {
      assert SPACES[10] == 133 as char && SPACES[11] == 160 as char && SPACES[12] == 5760 as char;
      assert SPACES[24] == 8232 as char && SPACES[25] == 8233 as char && SPACES[26] == 8239 as char;
      assert SPACES[27] == 8287 as char && SPACES[28] == 12288 as char;
    }
  }

  ghost predicate OnlySpaces(s: string) {
    forall c | c in s :: c in SPACES
  }

  lemma {:induction false} LeftIs(s: string)
    ensures exists a :: OnlySpaces(a) && s == a + StripLeft(s)
  {
    if s != "" && IsSpace(s[0]) {
      LeftIs(s[1..]);
      SpacesAre(s[0]);
      var a :| OnlySpaces(a) && s[1..] == a + StripLeft(s[1..]);
      assert OnlySpaces([s[0]] + a);
      assert s == [s[0]] + a + StripLeft(s);
    } else {
      assert OnlySpaces("") && s == "" + StripLeft(s);
    }
  }

  lemma {:induction false} RightIs(s: string)
    ensures exists b :: OnlySpaces(b) && s == StripRight(s) + b
  {
    if s != "" && IsSpace(s[|s| - 1]) {
      var n := |s| - 1;
      RightIs(s[..n]);
      SpacesAre(s[n]);
      var b :| OnlySpaces(b) && s[..n] == StripRight(s[..n]) + b;
      assert OnlySpaces(b + [s[n]]);
      assert s == StripRight(s) + (b + [s[n]]);
    } else {
      assert OnlySpaces("") && s == StripRight(s) + "";
    }
  }

  ghost predicate Framed(s: string, a: string, inner: string, b: string) {
    OnlySpaces(a) && OnlySpaces(b) && s == a + inner + b
  }

  /** Stripping takes spaces off both ends, all of them, and nothing else. */
  lemma StripIs(s: string)
    ensures exists a, b :: Framed(s, a, Strip(s), b)
    ensures Strip(s) != "" ==> Strip(s)[0] !in SPACES && Strip(s)[|Strip(s)| - 1] !in SPACES
  {
    LeftIs(s);
    RightIs(StripLeft(s));
    StripIsFinal(s);
    if Strip(s) != "" {
      SpacesAre(Strip(s)[0]);
      SpacesAre(Strip(s)[|Strip(s)| - 1]);
    }
    hide StripLeft, StripRight, OnlySpaces;
    var a :| OnlySpaces(a) && s == a + StripLeft(s);
    var b :| OnlySpaces(b) && StripLeft(s) == StripRight(StripLeft(s)) + b;
    assert Framed(s, a, Strip(s), b);
  }

  /** A cell is read if it shows one digit, or for a room one letter or digit; a room cell is blank
      if it shows nothing, a hyphen, a minus sign or a long dash. */
  lemma CellShows(digitsOnly: bool, cell: Cell)
    ensures GoodCell(digitsOnly, cell) <==>
              && cell != [] && |Strip(cell[0].text)| == 1
              && (Strip(cell[0].text)[0] in DIGITS || (!digitsOnly && Latin(Strip(cell[0].text)[0])))
    ensures BlankCell(cell) <==> cell != [] && Strip(cell[0].text) in {"", "-", "\U{2212}", "\U{2014}"}
  {
    if cell != [] {
      var shown := Shown(cell);
      if |shown| == 1 {
        AlphabetIs(shown[0]);
      }
      assert [0x2212 as char] == "\U{2212}" && [0x2014 as char] == "\U{2014}";
      hide StripLeft, StripRight;
    }
  }

  // ------------------------------------------------------------------------------------ numbers

  lemma {:induction false} NumberIsItsValue(s: string)
    requires forall i | 0 <= i < |s| :: Contracts.IsDigit(s[i])
    ensures ParseNat(s) == Numerals.Value(s, 10)
  {
    if s != "" {
      NumberIsItsValue(s[..|s| - 1]);
    }
  }

  /** A quantity is the number its decimal digits denote; more than 4300 of them raise. */
  lemma NumbersAre(p: Policy, cell: Cell, row: nat, n: nat)
    ensures cell != [] && Strip(cell[0].text) == Numeral(n, 10) && |Numeral(n, 10)| <= 4300 && 1 <= n <= p.quantityMax ==>
              && RecognizeQuantity(p, cell, row).Quantity?
              && RecognizeQuantity(p, cell, row).field.value == Number(n)
    ensures RecognizeQuantity(p, cell, row).TooManyDigits? <==>
              && cell != [] && |Strip(cell[0].text)| > 4300
              && forall c | c in Strip(cell[0].text) :: c in DIGITS
  {
    QuantityReadExactlyWhen(p, cell, row);
    if cell != [] {
      var shown := Strip(cell[0].text);
      forall c ensures Contracts.IsDigit(c) <==> c in DIGITS {
        AlphabetIs(c);
      }
      if shown == Numeral(n, 10) {
        NumeralReads(n, 10);
        NumberIsItsValue(shown);
      }
      hide StripLeft, StripRight, Numeral, Numerals.Value, ParseNat, Contracts.IsDigit, RecognizeQuantity;
      assert (forall i | 0 <= i < |shown| :: Contracts.IsDigit(shown[i])) <==> forall c | c in shown :: c in DIGITS;
    }
  }

  // -------------------------------------------------------------------------------- confidences

  /** Each kind of field has its own curve: its points map as they say, and a field without a curve
      keeps the recogniser's confidence. */
  lemma CurveIsUsed(p: Policy, f: Family, confidence: real)
    ensures f !in p.calibrators ==> Calibrate(p, f, confidence) == confidence
    ensures f in p.calibrators ==>
              forall i | 0 <= i < |p.calibrators[f]| :: Calibrate(p, f, p.calibrators[f][i].raw) == p.calibrators[f][i].calibrated
  {
    if f in p.calibrators {
      forall i | 0 <= i < |p.calibrators[f]|
        ensures Calibrate(p, f, p.calibrators[f][i].raw) == p.calibrators[f][i].calibrated {
        Calibration.CurveHitsItsPoints(p.calibrators[f], i);
      }
    }
  }
}
