/** Where each word of an amount stands. */
module Wording {
  // The listener of AmountWords hears mốt as một and passes over lẻ, so what is read back does not
  // say which form is spoken where.  That is said here (vietnamese-amount-words.ts).

  import opened AmountWords

  datatype Option<+T> = None | Some(value: T)

  predicate IsDigit(w: Word) {
    w.Khong? || w.Mot? || w.Hai? || w.Ba? || w.Bon? || w.Nam? || w.Sau? || w.Bay? || w.Tam? || w.Chin?
  }

  predicate IsScale(w: Word) {
    w.Nghin? || w.Trieu? || w.Ty?
  }

  /** Whether w may stand between the word before and the word behind it. */
  predicate Stands(before: Option<Word>, w: Word, behind: Option<Word>) {
    && (w == OneAfterTens || w == FourAfterTens ==> before == Some(Muoi))
    && (w == FiveAfterTens ==> before == Some(Muoi) || before == Some(Ten))
    && (w == Mot || w == Bon || w == Nam ==> before != Some(Muoi))
    && (w == Nam ==> before != Some(Ten))
    && (w == Le ==> before == Some(Tram) && behind.Some? && IsDigit(behind.value) && behind.value != Khong)
    && (w == Tram || w == Muoi ==> before.Some? && IsDigit(before.value))
    && (w == Muoi ==> before != Some(Khong) && before != Some(Mot))
    && (w == Khong ==> behind == Some(Tram) || (before == None && behind == Some(Dong)))
    && (IsDigit(w) && before == Some(Tram) ==> behind == Some(Muoi))
    && (before.Some? && IsScale(before.value) ==> w == Dong || IsScale(w) || (IsDigit(w) && behind == Some(Tram)))
    && (w == Dong ==> behind == None)
  }

  function First(words: seq<Word>, otherwise: Option<Word>): Option<Word> {
    if words == [] then otherwise else Some(words[0])
  }

  function Last(words: seq<Word>, otherwise: Option<Word>): Option<Word> {
    if words == [] then otherwise else Some(words[|words| - 1])
  }

  predicate AllStand(before: Option<Word>, words: seq<Word>, behind: Option<Word>)
    decreases |words|
  {
    words == [] || (Stands(before, words[0], First(words[1..], behind)) && AllStand(Some(words[0]), words[1..], behind))
  }

  lemma {:induction false} BothStand(before: Option<Word>, a: seq<Word>, b: seq<Word>, behind: Option<Word>)
    requires AllStand(before, a, First(b, behind)) && AllStand(Last(a, before), b, behind)
    ensures AllStand(before, a + b, behind)
    decreases |a|
  {
    hide Stands;
    if a == [] {
      assert a + b == b;
    } else {
      BothStand(Some(a[0]), a[1..], b, behind);
      assert (a + b)[1..] == a[1..] + b;
    }
  }

  lemma {:induction false} EachStands(before: Option<Word>, words: seq<Word>, behind: Option<Word>, i: nat)
    requires AllStand(before, words, behind) && i < |words|
    ensures Stands(if i == 0 then before else Some(words[i - 1]), words[i], if i + 1 < |words| then Some(words[i + 1]) else behind)
    decreases i
  {
    hide Stands;
    if i > 0 {
      EachStands(Some(words[0]), words[1..], behind, i - 1);
    }
  }

  lemma OneStands(before: Option<Word>, w: Word, behind: Option<Word>)
    requires Stands(before, w, behind)
    ensures AllStand(before, [w], behind)
  {
    assert [w][1..] == [];
  }

  lemma TwoStand(before: Option<Word>, v: Word, w: Word, behind: Option<Word>)
    requires Stands(before, v, Some(w)) && Stands(Some(v), w, behind)
    ensures AllStand(before, [v, w], behind)
  {
    hide Stands;
    assert [v, w][1..] == [w] && [w][1..] == [];
    assert AllStand(Some(v), [w], behind);
  }

  predicate Boundary(w: Option<Word>) {
    w.None? || IsScale(w.value)
  }

  predicate Closing(w: Option<Word>) {
    w.Some? && (IsScale(w.value) || w.value == Dong)
  }

  lemma DigitsAre(d: nat)
    requires d <= 9
    ensures IsDigit(Digit(d)) && (Digit(d) == Khong <==> d == 0) && (Digit(d) == Mot <==> d == 1)
    ensures (Digit(d) == Bon <==> d == 4) && (Digit(d) == Nam <==> d == 5)
  {
  }

  lemma HundredsStand(before: Option<Word>, hundreds: nat, force: bool, behind: Option<Word>)
    requires hundreds <= 9 && Boundary(before) && behind.Some?
    ensures AllStand(before, Hundreds(hundreds, force), behind)
  {
    DigitsAre(hundreds);
    hide Digit;
    if hundreds > 0 || force {
      TwoStand(before, Digit(hundreds), Tram, behind);
    }
  }

  lemma TensStand(before: Option<Word>, hundreds: nat, tens: nat, units: nat, force: bool, behind: Option<Word>)
    requires tens <= 9 && units <= 9
    requires if hundreds > 0 || force then before == Some(Tram) else before == None
    requires units > 0 ==> behind == Some(Units(units, tens))
    ensures AllStand(before, Tens(hundreds, tens, units, force), behind)
  {
    DigitsAre(tens);
    DigitsAre(units);
    hide Digit;
    if tens >= 2 {
      TwoStand(before, Digit(tens), Muoi, behind);
    } else if tens == 1 {
      OneStands(before, Ten, behind);
    } else if units > 0 && (hundreds > 0 || force) {
      OneStands(before, Le, behind);
    }
  }

  lemma UnitsStand(before: Option<Word>, tens: nat, units: nat, behind: Option<Word>)
    requires tens <= 9 && 0 < units <= 9 && Closing(behind)
    requires if tens >= 2 then before == Some(Muoi) else if tens == 1 then before == Some(Ten) else before == Some(Le) || before == None
    ensures AllStand(before, [Units(units, tens)], behind)
  {
    DigitsAre(units);
    hide Digit;
    OneStands(before, Units(units, tens), behind);
  }

  lemma PartsStand(before: Option<Word>, h: seq<Word>, t: seq<Word>, u: seq<Word>, behind: Option<Word>)
    requires AllStand(before, h, First(t + u, behind)) && AllStand(Last(h, before), t, First(u, behind))
    requires AllStand(Last(t, Last(h, before)), u, behind)
    ensures AllStand(before, h + t + u, behind)
  {
    hide Stands, AllStand;
    BothStand(Last(h, before), t, u, behind);
    BothStand(before, h, t + u, behind);
    assert h + t + u == h + (t + u);
  }

  lemma UnitsPartStands(before: Option<Word>, tens: nat, units: nat, behind: Option<Word>)
    requires tens <= 9 && units <= 9 && Closing(behind)
    requires units > 0 ==>
               if tens >= 2 then before == Some(Muoi) else if tens == 1 then before == Some(Ten)
               else before == Some(Le) || before == None
    ensures AllStand(before, if units > 0 then [Units(units, tens)] else [], behind)
  {
    if units > 0 {
      UnitsStand(before, tens, units, behind);
    }
  }

  lemma DigitsOf(value: nat)
    requires value <= 999
    ensures value == 100 * (value / 100) + 10 * (value % 100 / 10) + value % 10
  {
  }

  /** The words of one group stand right between a scale, or nothing, and the next scale or đồng. */
  lemma GroupStands(before: Option<Word>, value: nat, force: bool, behind: Option<Word>)
    requires 0 < value <= 999 && Boundary(before) && Closing(behind)
    requires force <==> before.Some? && value < 100
    ensures AllStand(before, ThreeDigits(value, force), behind)
  {
    var hundreds, tens, units := value / 100, value % 100 / 10, value % 10;
    var h, t := Hundreds(hundreds, force), Tens(hundreds, tens, units, force);
    var u := if units > 0 then [Units(units, tens)] else [];
    DigitsOf(value);
    hide Stands, AllStand, Units, Digit;
    UnitsPartStands(Last(t, Last(h, before)), tens, units, behind);
    if hundreds == 0 && !force {
      TensStandAlone(tens, units, First(u, behind));
    } else {
      TensStand(Some(Tram), hundreds, tens, units, force, First(u, behind));
    }
    HundredsStand(before, hundreds, force, First(t + u, behind));
    PartsStand(before, h, t, u, behind);
  }

  lemma TensStandAlone(tens: nat, units: nat, behind: Option<Word>)
    requires tens <= 9 && units <= 9
    requires units > 0 ==> behind == Some(Units(units, tens))
    ensures AllStand(None, Tens(0, tens, units, false), behind)
  {
    TensStand(None, 0, tens, units, false, behind);
  }

  lemma ScaleStands(before: Option<Word>, k: nat, behind: Option<Word>)
    requires k <= 5 && !Boundary(before)
    requires behind.Some? && (behind.value == Dong || IsDigit(behind.value) || k == 0)
    ensures k > 0 ==> AllStand(before, Scale(k), behind) && Scale(k) != [] && IsScale(Scale(k)[0]) && IsScale(Scale(k)[|Scale(k)| - 1])
    ensures k == 0 ==> Scale(k) == []
  {
    if k == 4 || k == 5 {
      TwoStand(before, Scale(k)[0], Ty, behind);
    } else if k > 0 {
      OneStands(before, Scale(k)[0], behind);
    }
  }

  lemma GroupEnds(value: nat, force: bool)
    requires 0 < value <= 999
    ensures ThreeDigits(value, force) != []
    ensures var g := ThreeDigits(value, force); !IsScale(g[|g| - 1]) && g[|g| - 1] != Dong && (force || value >= 100 ==> IsDigit(g[0]))
  {
  }

  lemma LastGroupStands(groups: seq<nat>, before: Option<Word>)
    requires Grouped(groups) && |groups| >= 1 && groups[0] > 0 && Boundary(before)
    ensures AllStand(before, Spoken(groups, 1, before.Some?) + [Dong], None)
    ensures before.Some? ==> IsDigit((Spoken(groups, 1, true) + [Dong])[0])
  {
    hide ThreeDigits, Stands, AllStand;
    var force := before.Some? && groups[0] < 100;
    var group := ThreeDigits(groups[0], force);
    NextGroup(groups, 1, before.Some?);
    NextGroup(groups, 0, true);
    GroupEnds(groups[0], force);
    GroupStands(before, groups[0], force, Some(Dong));
    DongBehind(Last(group, None));
    BothStand(before, group, [Dong], None);
    assert Spoken(groups, 1, before.Some?) + [Dong] == group + [Dong] && Scale(0) == [];
  }

  lemma ThreeStand(before: Option<Word>, a: seq<Word>, b: seq<Word>, c: seq<Word>)
    requires a != [] && b != [] && c != []
    requires AllStand(before, a, First(b, None)) && AllStand(Last(a, None), b, First(c, None)) && AllStand(Last(b, None), c, None)
    ensures AllStand(before, a + (b + c), None)
  {
    hide Stands, AllStand;
    BothStand(Last(a, None), b, c, None);
    BothStand(before, a, b + c, None);
  }

  lemma GroupThenRest(before: Option<Word>, value: nat, force: bool, k: nat, rest: seq<Word>)
    requires 0 < value <= 999 && Boundary(before) && (force <==> before.Some? && value < 100) && 1 <= k <= 5
    requires rest != [] && (IsDigit(rest[0]) || rest[0] == Dong) && AllStand(Last(Scale(k), None), rest, None)
    ensures AllStand(before, ThreeDigits(value, force) + (Scale(k) + rest), None)
    ensures before.Some? ==> IsDigit((ThreeDigits(value, force) + (Scale(k) + rest))[0])
  {
    var group, scale := ThreeDigits(value, force), Scale(k);
    GroupEnds(value, force);
    ScaleIsScale(k);
    assert Closing(Some(scale[0])) && !Boundary(Some(group[|group| - 1]));
    hide ThreeDigits, Stands, AllStand, Scale, IsDigit, IsScale, Boundary, Closing;
    ScaleStands(Some(group[|group| - 1]), k, Some(rest[0]));
    GroupStands(before, value, force, Some(scale[0]));
    ThreeStand(before, group, scale, rest);
  }

  lemma NextGroupStands(groups: seq<nat>, k: nat, before: Option<Word>)
    requires Grouped(groups) && 2 <= k <= |groups| && groups[k - 1] > 0 && Boundary(before)
    requires var rest := Spoken(groups, k - 1, true) + [Dong];
             AllStand(Last(Scale(k - 1), None), rest, None) && (IsDigit(rest[0]) || rest[0] == Dong)
    ensures AllStand(before, Spoken(groups, k, before.Some?) + [Dong], None)
    ensures before.Some? ==> IsDigit((Spoken(groups, k, true) + [Dong])[0])
  {
    var value, rest := groups[k - 1], Spoken(groups, k - 1, true) + [Dong];
    var force := before.Some? && value < 100;
    NextGroup(groups, k, before.Some?);
    GroupThenRest(before, value, force, k - 1, rest);
    hide *;
    Regroup(ThreeDigits(value, force), Scale(k - 1), Spoken(groups, k - 1, true));
  }

  lemma Regroup(a: seq<Word>, b: seq<Word>, c: seq<Word>)
    ensures a + b + c + [Dong] == a + (b + (c + [Dong]))
  {
  }

  /** The groups still to come, and đồng, stand right behind what was spoken. */
  lemma {:induction false} SpokenStands(groups: seq<nat>, k: nat, before: Option<Word>)
    requires Grouped(groups) && k <= |groups| && Boundary(before)
    requires before.None? ==> exists i :: 0 <= i < k && groups[i] > 0
    ensures AllStand(before, Spoken(groups, k, before.Some?) + [Dong], None)
    ensures before.Some? ==> IsDigit((Spoken(groups, k, true) + [Dong])[0]) || (Spoken(groups, k, true) + [Dong])[0] == Dong
  {
    hide ThreeDigits, Stands, Scale, AllStand;
    if k == 0 {
      NextGroup(groups, 0, before.Some?);
      assert [] + [Dong] == [Dong];
      DongStands(before);
    } else if groups[k - 1] == 0 {
      NextGroup(groups, k, before.Some?);
      SpokenStands(groups, k - 1, before);
    } else if k == 1 {
      LastGroupStands(groups, before);
    } else {
      ScaleIsScale(k - 1);
      SpokenStands(groups, k - 1, Last(Scale(k - 1), None));
      NextGroupStands(groups, k, before);
    }
  }

  lemma DongStands(before: Option<Word>)
    requires Boundary(before)
    ensures AllStand(before, [Dong], None)
  {
    OneStands(before, Dong, None);
  }

  lemma DongBehind(before: Option<Word>)
    requires before.Some? && !IsScale(before.value)
    ensures AllStand(before, [Dong], None)
  {
    OneStands(before, Dong, None);
  }

  lemma ScaleIsScale(k: nat)
    requires 1 <= k <= 5
    ensures Scale(k) != [] && IsScale(Scale(k)[0]) && IsScale(Scale(k)[|Scale(k)| - 1])
  {
  }

  lemma {:induction false} SomeGroup(n: nat)
    requires n > 0
    ensures exists i :: 0 <= i < |Groups(n)| && Groups(n)[i] > 0
  {
    var rest := Groups(n / 1000);
    assert Groups(n) == [n % 1000] + rest;
    if n % 1000 == 0 {
      SomeGroup(n / 1000);
      hide Groups;
      var i :| 0 <= i < |rest| && rest[i] > 0;
      assert ([n % 1000] + rest)[i + 1] == rest[i];
    } else {
      assert ([n % 1000] + rest)[0] > 0;
    }
  }

  /** In the words of every amount, mốt and tư stand behind mươi only, lăm behind mươi or mười only,
      and một, bốn and năm never there; lẻ stands between trăm and a last digit, and no digit
      follows trăm without lẻ unless it counts tens; không is spoken for missing hundreds only, and
      every group behind a scale shows its hundreds. */
  lemma EveryWordStands(n: nat, i: nat)
    requires n <= 9007199254740991 && i < |AmountInWords(n)|
    ensures var words := AmountInWords(n);
            Stands(if i == 0 then None else Some(words[i - 1]), words[i], if i + 1 < |words| then Some(words[i + 1]) else None)
  {
    FewGroups(n);
    if n == 0 {
      TwoStand(None, Khong, Dong, None);
    } else {
      SomeGroup(n);
      SpokenStands(Groups(n), |Groups(n)|, None);
    }
    EachStands(None, AmountInWords(n), None, i);
  }
}
