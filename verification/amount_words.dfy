/** Amounts in Vietnamese words (vietnamese-amount-words.ts), and a reader that undoes them.

    A wording is a list of words joined by single spaces; the scales of two words ("nghìn tỷ",
    "triệu tỷ") are two words of that list. */
module AmountWords {
  datatype Word =
    | Khong | Mot | Hai | Ba | Bon | Nam | Sau | Bay | Tam | Chin
    | Tram | Muoi | Ten | Le
    | OneAfterTens | FourAfterTens | FiveAfterTens
    | Nghin | Trieu | Ty | Dong

  datatype Result = Ok(text: string) | RangeError

  const MAX_SAFE_INTEGER := 9007199254740991

  function Text(w: Word): string {
    match w
    case Khong => "không"
    case Mot => "một"
    case Hai => "hai"
    case Ba => "ba"
    case Bon => "bốn"
    case Nam => "năm"
    case Sau => "sáu"
    case Bay => "bảy"
    case Tam => "tám"
    case Chin => "chín"
    case Tram => "trăm"
    case Muoi => "mươi"
    case Ten => "mười"
    case Le => "lẻ"
    case OneAfterTens => "mốt"
    case FourAfterTens => "tư"
    case FiveAfterTens => "lăm"
    case Nghin => "nghìn"
    case Trieu => "triệu"
    case Ty => "tỷ"
    case Dong => "đồng"
  }

  /** words.join(' ') */
  function Join(words: seq<Word>): string {
    if words == [] then ""
    else if |words| == 1 then Text(words[0])
    else Text(words[0]) + " " + Join(words[1..])
  }

  function Digit(d: nat): Word
    requires d <= 9
  {
    [Khong, Mot, Hai, Ba, Bon, Nam, Sau, Bay, Tam, Chin][d]
  }

  function Scale(index: nat): seq<Word>
    requires index <= 5
  {
    [[], [Nghin], [Trieu], [Ty], [Nghin, Ty], [Trieu, Ty]][index]
  }

  function Units(units: nat, tens: nat): Word
    requires units <= 9
  {
    if units == 1 && tens >= 2 then OneAfterTens
    else if units == 4 && tens >= 2 then FourAfterTens
    else if units == 5 && tens >= 1 then FiveAfterTens
    else Digit(units)
  }

  function Hundreds(hundreds: nat, force: bool): seq<Word>
    requires hundreds <= 9
  {
    if hundreds > 0 || force then [Digit(hundreds), Tram] else []
  }

  function Tens(hundreds: nat, tens: nat, units: nat, force: bool): seq<Word>
    requires tens <= 9
  {
    if tens >= 2 then [Digit(tens), Muoi]
    else if tens == 1 then [Ten]
    else if units > 0 && (hundreds > 0 || force) then [Le]
    else []
  }

  function ThreeDigits(value: nat, force: bool): seq<Word>
    requires value <= 999
  {
    var hundreds, tens, units := value / 100, value % 100 / 10, value % 10;
    Hundreds(hundreds, force) + Tens(hundreds, tens, units, force)
    + (if units > 0 then [Units(units, tens)] else [])
  }

  function Groups(n: nat): (g: seq<nat>)
    ensures forall i | 0 <= i < |g| :: g[i] <= 999
  {
    if n == 0 then [] else [n % 1000] + Groups(n / 1000)
  }

  ghost predicate Grouped(groups: seq<nat>) {
    |groups| <= 6 && forall i | 0 <= i < |groups| :: groups[i] <= 999
  }

  /** The words of groups k-1 down to 0; a small group after a higher one shows its hundreds. */
  function Spoken(groups: seq<nat>, k: nat, higher: bool): seq<Word>
    requires Grouped(groups) && k <= |groups|
  {
    if k == 0 then []
    else if groups[k - 1] == 0 then Spoken(groups, k - 1, higher)
    else ThreeDigits(groups[k - 1], higher && groups[k - 1] < 100) + Scale(k - 1) + Spoken(groups, k - 1, true)
  }

  function AmountInWords(n: nat): seq<Word>
    requires n <= MAX_SAFE_INTEGER
  {
    FewGroups(n);
    if n == 0 then [Khong, Dong] else Spoken(Groups(n), |Groups(n)|, false) + [Dong]
  }

  function Thousands(k: nat): nat {
    if k == 0 then 1 else 1000 * Thousands(k - 1)
  }

  lemma {:induction false} GroupsBound(n: nat, k: nat)
    requires n < Thousands(k)
    ensures |Groups(n)| <= k
  {
    if n != 0 {
      GroupsBound(n / 1000, k - 1);
    }
  }

  lemma FewGroups(n: nat)
    requires n <= MAX_SAFE_INTEGER
    ensures Grouped(Groups(n))
  {
    assert Thousands(6) == 1000000000000000000;
    GroupsBound(n, 6);
  }

  // ------------------------------------------------------------------------------ the program

  method ReadThreeDigits(value: nat, force: bool) returns (words: seq<Word>)
    requires value <= 999
    ensures words == ThreeDigits(value, force)
  {
    var hundreds, tens, units := value / 100, value % 100 / 10, value % 10;
    words := [];
    if hundreds > 0 || force {
      words := words + [Digit(hundreds), Tram];
    }
    if tens >= 2 {
      words := words + [Digit(tens), Muoi];
    } else if tens == 1 {
      words := words + [Ten];
    } else if units > 0 && (hundreds > 0 || force) {
      words := words + [Le];
    }
    if units > 0 {
      words := words + [Units(units, tens)];
    }
  }

  method SplitThousands(amount: nat) returns (groups: seq<nat>)
    ensures groups == Groups(amount)
  {
    groups := [];
    var remainder := amount;
    while remainder > 0
      invariant groups + Groups(remainder) == Groups(amount)
    {
      groups := groups + [remainder % 1000];
      remainder := remainder / 1000;
    }
  }

  method Speak(groups: seq<nat>) returns (words: seq<Word>)
    requires Grouped(groups)
    ensures words == Spoken(groups, |groups|, false)
  {
    hide ThreeDigits, Scale, Spoken;
    words := [];
    var hasHigherGroup := false;
    var index := |groups|;
    while index > 0
      invariant 0 <= index <= |groups|
      invariant words + Spoken(groups, index, hasHigherGroup) == Spoken(groups, |groups|, false)
    {
      NextGroup(groups, index, hasHigherGroup);
      index := index - 1;
      var group := groups[index];
      if group == 0 {
        continue;
      }
      var spoken := ReadThreeDigits(group, hasHigherGroup && group < 100);
      words := words + spoken + Scale(index);
      hasHigherGroup := true;
    }
    NextGroup(groups, 0, hasHigherGroup);
  }

  method ToVietnameseAmountWords(integerVnd: int) returns (r: Result)
    ensures 0 <= integerVnd <= MAX_SAFE_INTEGER ==> r == Ok(Join(AmountInWords(integerVnd)))
    ensures !(0 <= integerVnd <= MAX_SAFE_INTEGER) ==> r == RangeError
  {
    if !(0 <= integerVnd <= MAX_SAFE_INTEGER) {
      return RangeError;
    }
    if integerVnd == 0 {
      return Ok(Join([Khong, Dong]));
    }
    var groups := SplitThousands(integerVnd);
    FewGroups(integerVnd);
    var words := Speak(groups);
    return Ok(Join(words + [Dong]));
  }

  lemma NextGroup(groups: seq<nat>, k: nat, higher: bool)
    requires Grouped(groups) && k <= |groups|
    ensures Spoken(groups, k, higher)
            == (if k == 0 then []
                else if groups[k - 1] == 0 then Spoken(groups, k - 1, higher)
                else ThreeDigits(groups[k - 1], higher && groups[k - 1] < 100) + Scale(k - 1)
                     + Spoken(groups, k - 1, true))
  {
  }

  // ------------------------------------------------------------------------------- the reader

  /** What a listener keeps: the settled total, the last scaled group, the group being heard and
      the digit just heard. */
  datatype Heard = Heard(total: nat, last: nat, group: nat, digit: nat)

  function Scaled(h: Heard, scale: nat): Heard {
    Heard(h.total + h.last, (h.group + h.digit) * scale, 0, 0)
  }

  function Hear(h: Heard, w: Word): Heard {
    match w
    case Khong => h.(digit := 0)
    case Mot => h.(digit := 1)
    case Hai => h.(digit := 2)
    case Ba => h.(digit := 3)
    case Bon => h.(digit := 4)
    case Nam => h.(digit := 5)
    case Sau => h.(digit := 6)
    case Bay => h.(digit := 7)
    case Tam => h.(digit := 8)
    case Chin => h.(digit := 9)
    case OneAfterTens => h.(digit := 1)
    case FourAfterTens => h.(digit := 4)
    case FiveAfterTens => h.(digit := 5)
    case Tram => h.(group := h.group + h.digit * 100, digit := 0)
    case Muoi => h.(group := h.group + h.digit * 10, digit := 0)
    case Ten => h.(group := h.group + 10, digit := 0)
    case Le => h
    case Nghin => Scaled(h, 1000)
    case Trieu => Scaled(h, 1000000)
    case Ty => if h.group + h.digit > 0 then Scaled(h, 1000000000) else h.(last := h.last * 1000000000)
    case Dong => h
  }

  function HearAll(h: Heard, words: seq<Word>): Heard {
    if words == [] then h else Hear(HearAll(h, words[..|words| - 1]), words[|words| - 1])
  }

  function Sum(h: Heard): nat {
    h.total + h.last + h.group + h.digit
  }

  function ReadWords(words: seq<Word>): nat {
    Sum(HearAll(Heard(0, 0, 0, 0), words))
  }

  /** Word by word, up to the next space. */
  function FirstWord(s: string): string {
    if s == "" || s[0] == ' ' then "" else [s[0]] + FirstWord(s[1..])
  }

  function WordOf(s: string): Word {
    if s == "không" then Khong else if s == "một" then Mot else if s == "hai" then Hai
    else if s == "ba" then Ba else if s == "bốn" then Bon else if s == "năm" then Nam
    else if s == "sáu" then Sau else if s == "bảy" then Bay else if s == "tám" then Tam
    else if s == "chín" then Chin else if s == "trăm" then Tram else if s == "mươi" then Muoi
    else if s == "mười" then Ten else if s == "lẻ" then Le else if s == "mốt" then OneAfterTens
    else if s == "tư" then FourAfterTens else if s == "lăm" then FiveAfterTens
    else if s == "nghìn" then Nghin else if s == "triệu" then Trieu else if s == "tỷ" then Ty
    else Dong
  }

  lemma {:induction false} FirstWordIsPrefix(s: string)
    ensures FirstWord(s) <= s
    ensures FirstWord(s) == s || s[|FirstWord(s)|] == ' '
  {
    if s != "" && s[0] != ' ' {
      FirstWordIsPrefix(s[1..]);
    }
  }

  function Lex(s: string): seq<Word>
    decreases |s|
  {
    FirstWordIsPrefix(s);
    var first := FirstWord(s);
    if first == s then [WordOf(first)] else [WordOf(first)] + Lex(s[|first| + 1..])
  }

  function ReadAmount(text: string): nat {
    ReadWords(Lex(text))
  }

  // ------------------------------------------------------------------------------- round trip

  lemma {:induction false} FirstWordStops(w: string, rest: string)
    requires forall i | 0 <= i < |w| :: w[i] != ' '
    requires rest != "" ==> rest[0] == ' '
    ensures FirstWord(w + rest) == w
  {
    if w == "" {
      assert w + rest == rest;
    } else {
      assert (w + rest)[1..] == w[1..] + rest;
      FirstWordStops(w[1..], rest);
    }
  }

  lemma TextIsOneWord(w: Word)
    ensures forall i | 0 <= i < |Text(w)| :: Text(w)[i] != ' '
    ensures WordOf(Text(w)) == w
  {
  }

  /** Joining with spaces loses nothing. */
  lemma {:induction false} LexUndoesJoin(words: seq<Word>)
    requires words != []
    ensures Lex(Join(words)) == words
  {
    var w, rest := words[0], words[1..];
    TextIsOneWord(w);
    hide Text, WordOf;
    if rest == [] {
      FirstWordStops(Text(w), "");
      assert Text(w) + "" == Text(w);
    } else {
      var text := Text(w) + " " + Join(rest);
      LexUndoesJoin(rest);
      FirstWordStops(Text(w), " " + Join(rest));
      assert text == Text(w) + (" " + Join(rest));
      assert text[|Text(w)| + 1..] == Join(rest);
    }
  }

  lemma {:induction false} HearBoth(h: Heard, a: seq<Word>, b: seq<Word>)
    ensures HearAll(h, a + b) == HearAll(HearAll(h, a), b)
    decreases |b|
  {
    if b == [] {
      assert a + b == a;
    } else {
      var n := |b| - 1;
      HearBoth(h, a, b[..n]);
      assert (a + b)[..|a| + n] == a + b[..n];
    }
  }

  lemma HearOne(h: Heard, w: Word)
    ensures HearAll(h, [w]) == Hear(h, w)
  {
  }

  lemma HearTwo(h: Heard, v: Word, w: Word)
    ensures HearAll(h, [v, w]) == Hear(Hear(h, v), w)
  {
    assert [v, w][..1] == [v];
    HearOne(h, v);
  }

  lemma HearHundreds(h: Heard, hundreds: nat, force: bool)
    requires hundreds <= 9 && h.group == 0 && h.digit == 0
    ensures HearAll(h, Hundreds(hundreds, force)) == h.(group := hundreds * 100)
  {
    HearTwo(h, Digit(hundreds), Tram);
  }

  lemma HearTens(h: Heard, hundreds: nat, tens: nat, units: nat, force: bool)
    requires tens <= 9 && h.digit == 0
    ensures HearAll(h, Tens(hundreds, tens, units, force)) == h.(group := h.group + tens * 10)
  {
    HearTwo(h, Digit(tens), Muoi);
    HearOne(h, Ten);
    HearOne(h, Le);
  }

  lemma HearLast(h: Heard, units: nat, tens: nat)
    requires units <= 9 && h.digit == 0
    ensures HearAll(h, if units > 0 then [Units(units, tens)] else []) == h.(digit := units)
  {
  }

  lemma HearParts(h: Heard, hundreds: nat, tens: nat, units: nat, force: bool)
    requires hundreds <= 9 && tens <= 9 && units <= 9 && h.group == 0 && h.digit == 0
    ensures HearAll(h, Hundreds(hundreds, force) + Tens(hundreds, tens, units, force)
                       + (if units > 0 then [Units(units, tens)] else []))
            == Heard(h.total, h.last, hundreds * 100 + tens * 10, units)
  {
    var a, b := Hundreds(hundreds, force), Tens(hundreds, tens, units, force);
    HearBoth(h, a + b, if units > 0 then [Units(units, tens)] else []);
    HearBoth(h, a, b);
    hide Digit, Units, Hundreds, Tens, Hear, HearAll;
    HearHundreds(h, hundreds, force);
    HearTens(HearAll(h, a), hundreds, tens, units, force);
    HearLast(HearAll(h, a + b), units, tens);
  }

  lemma DecimalDigits(value: nat)
    requires value <= 999
    ensures value / 100 <= 9 && value % 100 / 10 <= 9 && value % 10 <= 9
    ensures value == value / 100 * 100 + value % 100 / 10 * 10 + value % 10
  {
  }

  lemma HearGroup(h: Heard, value: nat, force: bool)
    requires value <= 999 && h.group == 0 && h.digit == 0
    ensures var after := HearAll(h, ThreeDigits(value, force));
            after.total == h.total && after.last == h.last && after.group + after.digit == value
  {
    hide HearAll, Hear, Units, Hundreds, Tens;
    DecimalDigits(value);
    HearParts(h, value / 100, value % 100 / 10, value % 10, force);
  }

  lemma HearScale(h: Heard, index: nat)
    requires 1 <= index <= 5 && h.group + h.digit > 0
    ensures HearAll(h, Scale(index)) == Heard(h.total + h.last, (h.group + h.digit) * Thousands(index), 0, 0)
  {
    assert Thousands(1) == 1000 && Thousands(2) == 1000000 && Thousands(3) == 1000000000;
    assert Thousands(4) == 1000 * 1000000000 && Thousands(5) == 1000000 * 1000000000;
    HearOne(h, Nghin);
    HearOne(h, Trieu);
    HearOne(h, Ty);
    HearTwo(h, Nghin, Ty);
    HearTwo(h, Trieu, Ty);
  }

  /** What groups k-1 down to 0 are worth. */
  function Worth(groups: seq<nat>, k: nat): nat
    requires k <= |groups|
  {
    if k == 0 then 0 else groups[k - 1] * Thousands(k - 1) + Worth(groups, k - 1)
  }

  lemma {:induction false} HearSpoken(h: Heard, groups: seq<nat>, k: nat, higher: bool)
    requires Grouped(groups) && k <= |groups| && h.group == 0 && h.digit == 0
    ensures Sum(HearAll(h, Spoken(groups, k, higher))) == Sum(h) + Worth(groups, k)
    decreases k
  {
    hide ThreeDigits, Scale, Hear, HearAll;
    if k == 0 {
      NothingHeard(h);
    } else {
      var v := groups[k - 1];
      if v == 0 {
        HearSpoken(h, groups, k - 1, higher);
      } else {
        var words, scale, rest := ThreeDigits(v, higher && v < 100), Scale(k - 1), Spoken(groups, k - 1, true);
        HearBoth(h, words + scale, rest);
        HearBoth(h, words, scale);
        HearGroup(h, v, higher && v < 100);
        var h1 := HearAll(h, words);
        if k > 1 {
          HearScale(h1, k - 1);
          HearSpoken(HearAll(h1, scale), groups, k - 1, true);
        } else {
          NoScale();
          NothingHeard(h1);
        }
      }
    }
  }

  lemma NothingHeard(h: Heard)
    ensures HearAll(h, []) == h
  {
  }

  lemma NoScale()
    ensures Scale(0) == []
  {
  }

  lemma {:induction false} WorthShifts(groups: seq<nat>, k: nat)
    requires 1 <= k <= |groups|
    ensures Worth(groups, k) == groups[0] + 1000 * Worth(groups[1..], k - 1)
  {
    if k > 1 {
      WorthShifts(groups, k - 1);
      assert groups[1..][k - 2] == groups[k - 1];
      assert groups[k - 1] * Thousands(k - 1) == 1000 * (groups[k - 1] * Thousands(k - 2));
    } else {
      assert Thousands(0) == 1 && Worth(groups, 0) == 0 && Worth(groups[1..], 0) == 0;
    }
  }

  lemma {:induction false} GroupsAreWorth(n: nat)
    ensures Worth(Groups(n), |Groups(n)|) == n
  {
    if n != 0 {
      GroupsAreWorth(n / 1000);
      assert Groups(n)[1..] == Groups(n / 1000);
      WorthShifts(Groups(n), |Groups(n)|);
    }
  }

  lemma WordsReadBack(n: nat)
    requires n <= MAX_SAFE_INTEGER
    ensures ReadWords(AmountInWords(n)) == n
  {
    var start := Heard(0, 0, 0, 0);
    if n == 0 {
      HearTwo(start, Khong, Dong);
    } else {
      FewGroups(n);
      GroupsAreWorth(n);
      var groups := Groups(n);
      HearSpoken(start, groups, |groups|, false);
      var spoken := Spoken(groups, |groups|, false);
      HearBoth(start, spoken, [Dong]);
      HearOne(HearAll(start, spoken), Dong);
    }
  }

  /** The reader recovers every amount from its wording, for every safe integer. */
  lemma AmountReadsBack(n: nat)
    requires n <= MAX_SAFE_INTEGER
    ensures ReadAmount(Join(AmountInWords(n))) == n
  {
    WordsReadBack(n);
    LexUndoesJoin(AmountInWords(n));
  }

  /** So no two amounts share a wording. */
  lemma WordingsAreDistinct(m: nat, n: nat)
    requires m <= MAX_SAFE_INTEGER && n <= MAX_SAFE_INTEGER
    requires Join(AmountInWords(m)) == Join(AmountInWords(n))
    ensures m == n
  {
    AmountReadsBack(m);
    AmountReadsBack(n);
  }
}
