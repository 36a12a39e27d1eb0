/** Field recognisers (recognition.py). */
module Recognition {
  // The backend is any function from crops to hypotheses; a cell below is what it returned for
  // one crop.  Catalogue ranking and calibration are those of their own modules.

  import opened Contracts
  import opened Calibration
  import CatalogueRanking

  // What the constructor of Hypothesis admits.
  type Hypothesis = h: CatalogueRanking.Hypothesis | h.text != "" && IsScore(h.confidence)
    witness CatalogueRanking.Hypothesis("?", 0.0)

  type Cell = seq<Hypothesis>

  datatype Family = IdFamily | RoomFamily | QuantityFamily | ItemFamily

  datatype PolicyFields = PolicyFields(
    roomMax: nat, quantityMax: nat, candidateLimit: nat, autoAccept: bool,
    ranking: CatalogueRanking.Policy, calibrators: map<Family, seq<Point>>)

  // What the constructors of RecognitionPolicy and ConfidenceCalibrator admit.
  ghost predicate ValidPolicy(p: PolicyFields) {
    p.roomMax >= 1 && p.quantityMax >= 1 && p.candidateLimit >= 1
    && forall f | f in p.calibrators :: ValidCurve(p.calibrators[f])
  }

  type Policy = p: PolicyFields | ValidPolicy(p)
    ghost witness PolicyFields(1, 1, 1, true, CatalogueRanking.DEFAULT_POLICY, map[])

  datatype Catalogue = Unconfigured | Catalogue(rules: CatalogueRanking.TextRules, entries: seq<CatalogueRanking.Entry>)

  /** A loaded catalogue: three-digit codes and names that are not blank. */
  ghost predicate ValidCatalogue(c: Catalogue) {
    c.Catalogue? ==>
      forall i | 0 <= i < |c.entries| :: IsCode(c.entries[i].item.id) && !Blank(c.entries[i].item.name)
  }

  datatype ItemRecognition = ItemRecognition(field: FieldResult, itemId: Option<string>)

  function Calibrate(p: Policy, f: Family, confidence: real): real {
    if f in p.calibrators then Calibrated(p.calibrators[f], confidence) else confidence
  }

  lemma CalibrateStaysAScore(p: Policy, f: Family, confidence: real)
    requires IsScore(confidence)
    ensures IsScore(Calibrate(p, f, confidence))
  {
    if f in p.calibrators {
      CalibrationStaysAScore(p.calibrators[f], confidence);
    }
  }

  function Take(cell: Cell, limit: nat): Cell {
    if |cell| <= limit then cell else cell[..limit]
  }

  function FieldError(code: Code, field: FieldId): Warning {
    Warning(code, Error, field, None)
  }

  function Unapproved(p: Policy, field: FieldId): seq<Warning> {
    if p.autoAccept then [] else [FieldError(RecognitionUnapproved, field)]
  }

  lemma UnapprovedIsAnError(p: Policy, field: FieldId)
    ensures HasError(Unapproved(p, field)) <==> !p.autoAccept
  {
    if !p.autoAccept {
      assert Unapproved(p, field)[0].severity == Error;
    }
  }

  function InvalidField(field: FieldId, raw: Option<string>, code: Code, confidence: Option<real>,
                        candidates: seq<Candidate>): FieldResult {
    FieldResult(field, NoValue, raw, confidence, [FieldError(code, field)], candidates)
  }

  // ---------------------------------------------------------------- fixed cells: id and room

  datatype Scan = Scan(warnings: seq<Warning>, values: string, confidences: seq<real>, raw: string, blankSeen: bool)

  predicate BlankMark(s: string) {
    s == "" || s == "-" || s == [0x2212 as char] || s == [0x2014 as char]
  }

  predicate Allowed(digitsOnly: bool, s: string) {
    if digitsOnly then AsciiDigits(s) else AsciiAlphanumeric(s)
  }

  function ScanCell(p: Policy, field: FieldId, family: Family, digitsOnly: bool, cell: Cell, s: Scan): Scan {
    if cell == [] then s.(warnings := s.warnings + [FieldError(CellMissing, field)])
    else
      var top := cell[0];
      var read := s.(raw := s.raw + top.text);
      var value := Strip(top.text);
      if !digitsOnly && BlankMark(value) then read.(blankSeen := true)
      else if |value| != 1 || !Allowed(digitsOnly, value) || s.blankSeen
      then read.(warnings := s.warnings + [FieldError(CellInvalid, field)])
      else read.(values := s.values + value,
                 confidences := s.confidences + [Calibrate(p, family, top.confidence)])
  }

  function ScanStart(field: FieldId, cells: seq<Cell>, digitsOnly: bool, expected: nat): Scan {
    Scan(if (if digitsOnly then |cells| != expected else |cells| > expected) then [FieldError(CellCount, field)] else [],
         "", [], "", false)
  }

  function ScanCells(p: Policy, field: FieldId, family: Family, digitsOnly: bool, cells: seq<Cell>, start: Scan): Scan {
    if cells == [] then start
    else ScanCell(p, field, family, digitsOnly, Take(cells[|cells| - 1], 2),
                  ScanCells(p, field, family, digitsOnly, cells[..|cells| - 1], start))
  }

  function Lowest(xs: seq<real>): real
    requires xs != []
  {
    if |xs| == 1 then xs[0]
    else
      var rest := Lowest(xs[..|xs| - 1]);
      if xs[|xs| - 1] < rest then xs[|xs| - 1] else rest
  }

  function ScanResult(p: Policy, field: FieldId, digitsOnly: bool, used: nat, s: Scan): FieldResult {
    var raw := if s.raw == "" then None else Some(s.raw);
    var confidence := if s.confidences == [] then None else Some(Lowest(s.confidences));
    var readable := s.warnings == [] && s.values != "" && (digitsOnly ==> |s.values| == used);
    if readable
    then FieldResult(field, Text(s.values), raw, confidence, Unapproved(p, field),
                     if confidence.Some? then [Candidate(s.values, confidence.value, None)] else [])
    else FieldResult(field, NoValue, raw, confidence,
                     if s.warnings == [] then [FieldError(ValueMissing, field)] else s.warnings, [])
  }

  function TakeCells(cells: seq<Cell>, expected: nat): seq<Cell> {
    if |cells| <= expected then cells else cells[..expected]
  }

  function FixedCells(p: Policy, field: FieldId, family: Family, cells: seq<Cell>, digitsOnly: bool, expected: nat)
    : FieldResult
  {
    var used := TakeCells(cells, expected);
    ScanResult(p, field, digitsOnly, |used|,
               ScanCells(p, field, family, digitsOnly, used, ScanStart(field, cells, digitsOnly, expected)))
  }

  method RecognizeFixedCells(p: Policy, field: FieldId, family: Family, cells: seq<Cell>, digitsOnly: bool, expected: nat)
    returns (r: FieldResult)
    ensures r == FixedCells(p, field, family, cells, digitsOnly, expected)
  {
    hide ScanCells, Strip, Allowed, ScanResult, Calibrate;
    var s := ScanStart(field, cells, digitsOnly, expected);
    ghost var start := s;
    var used := TakeCells(cells, expected);
    NoCells(p, field, family, digitsOnly, start);
    assert used[..0] == [];
    for index := 0 to |used|
      invariant s == ScanCells(p, field, family, digitsOnly, used[..index], start)
    {
      NextCell(p, field, family, digitsOnly, used, index, start);
      var hypotheses := Take(used[index], 2);
      if hypotheses == [] {
        s := s.(warnings := s.warnings + [FieldError(CellMissing, field)]);
        continue;
      }
      var top := hypotheses[0];
      var value := Strip(top.text);
      s := s.(raw := s.raw + top.text);
      if !digitsOnly && BlankMark(value) {
        s := s.(blankSeen := true);
        continue;
      }
      if |value| != 1 || !Allowed(digitsOnly, value) {
        s := s.(warnings := s.warnings + [FieldError(CellInvalid, field)]);
        continue;
      }
      if s.blankSeen {
        s := s.(warnings := s.warnings + [FieldError(CellInvalid, field)]);
        continue;
      }
      s := s.(values := s.values + value, confidences := s.confidences + [Calibrate(p, family, top.confidence)]);
    }
    assert used[..|used|] == used;
    r := ScanResult(p, field, digitsOnly, |used|, s);
  }

  lemma NoCells(p: Policy, field: FieldId, family: Family, digitsOnly: bool, start: Scan)
    ensures ScanCells(p, field, family, digitsOnly, [], start) == start
  {
  }

  lemma NextCell(p: Policy, field: FieldId, family: Family, digitsOnly: bool, cells: seq<Cell>, i: nat, start: Scan)
    requires i < |cells|
    ensures ScanCells(p, field, family, digitsOnly, cells[..i + 1], start)
            == ScanCell(p, field, family, digitsOnly, Take(cells[i], 2),
                        ScanCells(p, field, family, digitsOnly, cells[..i], start))
  {
    assert cells[..i + 1][..i] == cells[..i];
  }

  function RecognizeId(p: Policy, cells: seq<Cell>): FieldResult {
    FixedCells(p, IdField, IdFamily, cells, true, 6)
  }

  function RecognizeRoom(p: Policy, cells: seq<Cell>): FieldResult {
    var r := FixedCells(p, RoomField, RoomFamily, cells, false, p.roomMax);
    if r.value.Text? && !(1 <= |r.value.text| <= p.roomMax && AsciiAlphanumeric(r.value.text))
    then r.(value := NoValue, warnings := r.warnings + [FieldError(RoomInvalid, RoomField)])
    else r
  }

  // What a cell shows at its best reading, once stripped.
  function Shown(cell: Cell): string
    requires cell != []
  {
    Strip(cell[0].text)
  }

  predicate GoodCell(digitsOnly: bool, cell: Cell) {
    cell != [] && |Shown(cell)| == 1 && Allowed(digitsOnly, Shown(cell)) && (digitsOnly || !BlankMark(Shown(cell)))
  }

  predicate BlankCell(cell: Cell) {
    cell != [] && BlankMark(Shown(cell))
  }

  /** The first k cells show one allowed character each; for a room the rest are blank. */
  ghost predicate Shaped(digitsOnly: bool, cells: seq<Cell>, k: nat) {
    && k <= |cells|
    && (forall i | 0 <= i < k :: GoodCell(digitsOnly, cells[i]))
    && (forall i | k <= i < |cells| :: BlankCell(cells[i]))
    && (digitsOnly ==> k == |cells|)
  }

  /** The k of Shaped, if there is one. */
  function LettersShown(digitsOnly: bool, cells: seq<Cell>): Option<nat> {
    if cells == [] then Some(0)
    else
      var before := LettersShown(digitsOnly, cells[..|cells| - 1]);
      if before == Some(|cells| - 1) && GoodCell(digitsOnly, cells[|cells| - 1]) then Some(|cells|)
      else if !digitsOnly && BlankCell(cells[|cells| - 1]) then before
      else None
  }

  lemma {:induction false} ShapedIsShown(digitsOnly: bool, cells: seq<Cell>, k: nat)
    requires Shaped(digitsOnly, cells, k)
    ensures LettersShown(digitsOnly, cells) == Some(k)
  {
    hide GoodCell, BlankCell;
    if cells != [] {
      var n := |cells| - 1;
      if k == |cells| {
        assert Shaped(digitsOnly, cells[..n], n);
        ShapedIsShown(digitsOnly, cells[..n], n);
      } else {
        assert Shaped(digitsOnly, cells[..n], k);
        ShapedIsShown(digitsOnly, cells[..n], k);
        NeverBoth(digitsOnly, cells[n]);
      }
    }
  }

  lemma NeverBoth(digitsOnly: bool, cell: Cell)
    ensures digitsOnly || !GoodCell(digitsOnly, cell) || !BlankCell(cell)
  {
  }

  lemma {:induction false} ShownIsShaped(digitsOnly: bool, cells: seq<Cell>, k: nat)
    requires LettersShown(digitsOnly, cells) == Some(k)
    ensures Shaped(digitsOnly, cells, k)
  {
    hide GoodCell, BlankCell;
    if cells != [] {
      var n := |cells| - 1;
      if k == |cells| && LettersShown(digitsOnly, cells[..n]) == Some(n) && GoodCell(digitsOnly, cells[n]) {
        ShownIsShaped(digitsOnly, cells[..n], n);
      } else {
        ShownIsShaped(digitsOnly, cells[..n], k);
      }
      assert forall i | 0 <= i < n :: cells[..n][i] == cells[i];
    }
  }

  lemma ShapedExactlyWhen(digitsOnly: bool, cells: seq<Cell>, k: nat)
    ensures LettersShown(digitsOnly, cells) == Some(k) <==> Shaped(digitsOnly, cells, k)
  {
    hide *;
    if LettersShown(digitsOnly, cells) == Some(k) {
      ShownIsShaped(digitsOnly, cells, k);
    }
    if Shaped(digitsOnly, cells, k) {
      ShapedIsShown(digitsOnly, cells, k);
    }
  }

  /** What a scan has established; a scan with a warning never loses it. */
  ghost predicate ScanOk(digitsOnly: bool, cells: seq<Cell>, start: Scan, s: Scan) {
    var shown := LettersShown(digitsOnly, cells);
    && |s.values| == |s.confidences| <= |cells|
    && (forall i | 0 <= i < |s.confidences| :: IsScore(s.confidences[i]))
    && start.warnings <= s.warnings
    && (s.warnings != start.warnings ==> HasError(s.warnings))
    && (s.warnings == start.warnings <==> shown.Some?)
    && (shown.Some? ==>
          && |s.values| == shown.value
          && (s.blankSeen <==> shown.value < |cells|)
          && (forall i | 0 <= i < shown.value :: GoodCell(digitsOnly, cells[i]) && s.values[i] == Shown(cells[i])[0]))
  }

  lemma TopSurvives(cell: Cell)
    ensures (Take(cell, 2) == [] <==> cell == []) && (cell != [] ==> Take(cell, 2)[0] == cell[0])
  {
  }

  lemma {:induction false} ScanStep(p: Policy, field: FieldId, family: Family, digitsOnly: bool, cells: seq<Cell>, start: Scan)
    requires start.values == "" && start.confidences == [] && !start.blankSeen
    ensures ScanOk(digitsOnly, cells, start, ScanCells(p, field, family, digitsOnly, cells, start))
  {
    if cells != [] {
      var n := |cells| - 1;
      var before := ScanCells(p, field, family, digitsOnly, cells[..n], start);
      ScanStep(p, field, family, digitsOnly, cells[..n], start);
      OneCell(p, field, family, digitsOnly, cells, start, before);
    }
  }

  lemma OneCell(p: Policy, field: FieldId, family: Family, digitsOnly: bool, cells: seq<Cell>, start: Scan, before: Scan)
    requires cells != [] && ScanOk(digitsOnly, cells[..|cells| - 1], start, before)
    ensures ScanOk(digitsOnly, cells, start,
                   ScanCell(p, field, family, digitsOnly, Take(cells[|cells| - 1], 2), before))
  {
    var n := |cells| - 1;
    var cell := cells[n];
    var after := ScanCell(p, field, family, digitsOnly, Take(cell, 2), before);
    TopSurvives(cell);
    if cell != [] && !digitsOnly && BlankCell(cell) {
      BlankScan(digitsOnly, cells, start, before, after);
    } else if GoodCell(digitsOnly, cell) && !before.blankSeen {
      CalibrateStaysAScore(p, family, cell[0].confidence);
      GoodScan(digitsOnly, cells, start, before, after, Calibrate(p, family, cell[0].confidence));
    } else {
      hide Strip, BlankMark, Allowed, Calibrate, Take, StripLeft, StripRight, ScanOk;
      assert after.warnings[|before.warnings|].severity == Error;
      FaultyScan(digitsOnly, cells, start, before, after);
    }
  }

  lemma FaultyScan(digitsOnly: bool, cells: seq<Cell>, start: Scan, before: Scan, after: Scan)
    requires cells != [] && ScanOk(digitsOnly, cells[..|cells| - 1], start, before)
    requires digitsOnly || !BlankCell(cells[|cells| - 1])
    requires !GoodCell(digitsOnly, cells[|cells| - 1]) || before.blankSeen
    requires after.values == before.values && after.confidences == before.confidences && before.warnings < after.warnings
    requires after.warnings[|before.warnings|].severity == Error
    ensures ScanOk(digitsOnly, cells, start, after)
  {
    hide GoodCell, BlankCell;
  }

  lemma BlankScan(digitsOnly: bool, cells: seq<Cell>, start: Scan, before: Scan, after: Scan)
    requires cells != [] && ScanOk(digitsOnly, cells[..|cells| - 1], start, before)
    requires !digitsOnly && BlankCell(cells[|cells| - 1])
    requires after.values == before.values && after.confidences == before.confidences && after.warnings == before.warnings
    requires after.blankSeen
    ensures ScanOk(digitsOnly, cells, start, after)
  {
    var n := |cells| - 1;
    NeverBoth(digitsOnly, cells[n]);
    hide GoodCell, BlankCell;
    assert forall i | 0 <= i < n :: cells[..n][i] == cells[i];
  }

  lemma GoodScan(digitsOnly: bool, cells: seq<Cell>, start: Scan, before: Scan, after: Scan, confidence: real)
    requires cells != [] && ScanOk(digitsOnly, cells[..|cells| - 1], start, before)
    requires GoodCell(digitsOnly, cells[|cells| - 1]) && !before.blankSeen && (digitsOnly || !BlankCell(cells[|cells| - 1]))
    requires after.values == before.values + Shown(cells[|cells| - 1]) && IsScore(confidence)
    requires after.confidences == before.confidences + [confidence] && after.warnings == before.warnings && !after.blankSeen
    ensures ScanOk(digitsOnly, cells, start, after)
  {
    var n := |cells| - 1;
    assert |Shown(cells[n])| == 1;
    hide GoodCell, BlankCell, Shown;
    assert forall i | 0 <= i < n :: cells[..n][i] == cells[i];
  }

  lemma {:induction false} LowestIsAScore(xs: seq<real>)
    requires xs != [] && forall i | 0 <= i < |xs| :: IsScore(xs[i])
    ensures IsScore(Lowest(xs))
  {
    if |xs| > 1 {
      LowestIsAScore(xs[..|xs| - 1]);
    }
  }

  /** A header field holds text exactly when no cell count was wrong and the cells are shaped
      right; the text is what the cells show.  Otherwise it carries an error. */
  ghost predicate HeaderSound(p: Policy, digitsOnly: bool, cells: seq<Cell>, expected: nat, r: FieldResult) {
    && FieldOk(r) && CodesOk(r.candidates)
    && !r.value.Number?
    && (r.value.NoValue? ==> HasError(r.warnings))
    && (r.value.Text? <==>
          && (if digitsOnly then |cells| == expected else |cells| <= expected)
          && (exists k: nat :: k >= 1 && Shaped(digitsOnly, cells, k)))
    && (r.value.Text? ==>
          && 1 <= |r.value.text| <= |cells| <= expected
          && Shaped(digitsOnly, cells, |r.value.text|)
          && (forall i | 0 <= i < |r.value.text| :: [r.value.text[i]] == Shown(cells[i]))
          && r.warnings == Unapproved(p, r.id))
  }

  lemma FixedCellsAreSound(p: Policy, field: FieldId, family: Family, cells: seq<Cell>, digitsOnly: bool, expected: nat)
    requires expected >= 1
    ensures HeaderSound(p, digitsOnly, cells, expected, FixedCells(p, field, family, cells, digitsOnly, expected))
    ensures FixedCells(p, field, family, cells, digitsOnly, expected).id == field
  {
    var start := ScanStart(field, cells, digitsOnly, expected);
    var used := TakeCells(cells, expected);
    ScanStep(p, field, family, digitsOnly, used, start);
    var s := ScanCells(p, field, family, digitsOnly, used, start);
    hide ScanCells, ScanOk, HeaderSound, ScanStart, TakeCells, ScanResult;
    ResultIsSound(p, field, digitsOnly, cells, expected, s);
  }

  lemma ResultIsSound(p: Policy, field: FieldId, digitsOnly: bool, cells: seq<Cell>, expected: nat, s: Scan)
    requires expected >= 1
    requires ScanOk(digitsOnly, TakeCells(cells, expected), ScanStart(field, cells, digitsOnly, expected), s)
    ensures HeaderSound(p, digitsOnly, cells, expected, ScanResult(p, field, digitsOnly, |TakeCells(cells, expected)|, s))
    ensures ScanResult(p, field, digitsOnly, |TakeCells(cells, expected)|, s).id == field
  {
    var start := ScanStart(field, cells, digitsOnly, expected);
    var used := TakeCells(cells, expected);
    var r := ScanResult(p, field, digitsOnly, |used|, s);
    CountIsRight(digitsOnly, cells, expected, field, s);
    OnlyOneShape(digitsOnly, used);
    if s.confidences != [] {
      LowestIsAScore(s.confidences);
      ScoreIsConfidence(Lowest(s.confidences));
    }
    if r.value.Text? {
      assert used == cells && LettersShown(digitsOnly, used) == Some(|s.values|);
      ShapedText(digitsOnly, cells, r.value.text);
      hide GoodCell, BlankCell, LettersShown, Lowest, Shown, Shaped, HeaderSound;
      TextIsSound(p, digitsOnly, cells, expected, r);
    } else {
      hide GoodCell, BlankCell, LettersShown, Lowest, Shown, Shaped, HeaderSound, IsScore, FieldOk;
      assert r.warnings == s.warnings || r.warnings[0].severity == Error;
      NoTextIsSound(p, digitsOnly, cells, expected, r);
    }
  }

  lemma TextIsSound(p: Policy, digitsOnly: bool, cells: seq<Cell>, expected: nat, r: FieldResult)
    requires FieldOk(r) && CodesOk(r.candidates) && r.value.Text? && r.warnings == Unapproved(p, r.id)
    requires if digitsOnly then |cells| == expected else |cells| <= expected
    requires 1 <= |r.value.text| <= |cells| && Shaped(digitsOnly, cells, |r.value.text|)
    requires forall i | 0 <= i < |r.value.text| :: cells[i] != [] && [r.value.text[i]] == Shown(cells[i])
    ensures HeaderSound(p, digitsOnly, cells, expected, r)
  {
    hide Shaped, Shown, FieldOk, CodesOk, Unapproved;
  }

  lemma NoTextIsSound(p: Policy, digitsOnly: bool, cells: seq<Cell>, expected: nat, r: FieldResult)
    requires FieldOk(r) && CodesOk(r.candidates) && r.value.NoValue? && HasError(r.warnings)
    requires (if digitsOnly then |cells| == expected else |cells| <= expected) ==>
               forall k: nat | k >= 1 :: !Shaped(digitsOnly, cells, k)
    ensures HeaderSound(p, digitsOnly, cells, expected, r)
  {
    hide Shaped, FieldOk, CodesOk, HasError;
  }

  lemma OnlyOneShape(digitsOnly: bool, cells: seq<Cell>)
    ensures forall k: nat :: Shaped(digitsOnly, cells, k) <==> LettersShown(digitsOnly, cells) == Some(k)
  {
    forall k: nat ensures Shaped(digitsOnly, cells, k) <==> LettersShown(digitsOnly, cells) == Some(k) {
      ShapedExactlyWhen(digitsOnly, cells, k);
    }
  }

  lemma ScoreIsConfidence(x: real)
    requires IsScore(x)
    ensures IsConfidence(x)
  {
  }

  lemma CountIsRight(digitsOnly: bool, cells: seq<Cell>, expected: nat, field: FieldId, s: Scan)
    requires ScanOk(digitsOnly, TakeCells(cells, expected), ScanStart(field, cells, digitsOnly, expected), s)
    ensures s.warnings == [] || HasError(s.warnings)
    ensures s.warnings == [] <==>
              && (if digitsOnly then |cells| == expected else |cells| <= expected)
              && LettersShown(digitsOnly, TakeCells(cells, expected)).Some?
    ensures s.warnings == [] ==> TakeCells(cells, expected) == cells
  {
    var start := ScanStart(field, cells, digitsOnly, expected);
    assert start.warnings != [] ==> s.warnings[0] == start.warnings[0];
  }

  lemma ShapedText(digitsOnly: bool, cells: seq<Cell>, text: string)
    requires |text| <= |cells|
    requires forall i | 0 <= i < |text| :: GoodCell(digitsOnly, cells[i]) && text[i] == Shown(cells[i])[0]
    ensures forall i | 0 <= i < |text| :: cells[i] != [] && [text[i]] == Shown(cells[i])
  {
  }

  lemma OneLetter(digitsOnly: bool, cell: Cell)
    requires GoodCell(digitsOnly, cell)
    ensures |Shown(cell)| == 1 && [Shown(cell)[0]] == Shown(cell) && Allowed(digitsOnly, Shown(cell))
  {
  }

  lemma LettersAreAllowed(digitsOnly: bool, cells: seq<Cell>, text: string)
    requires 1 <= |text| <= |cells| && Shaped(digitsOnly, cells, |text|)
    requires forall i | 0 <= i < |text| :: cells[i] != [] && [text[i]] == Shown(cells[i])
    ensures if digitsOnly then AsciiDigits(text) else AsciiAlphanumeric(text)
  {
    forall i | 0 <= i < |text| ensures if digitsOnly then IsDigit(text[i]) else IsAlphanumeric(text[i]) {
      OneLetter(digitsOnly, cells[i]);
      assert [text[i]][0] == text[i];
    }
  }

  /** The identifier is read exactly when there are six cells that each show one digit. */
  lemma IdReadExactlyWhen(p: Policy, cells: seq<Cell>)
    ensures var r := RecognizeId(p, cells);
            && HeaderSound(p, true, cells, 6, r) && r.id == IdField
            && (r.value.Text? <==> |cells| == 6 && forall i | 0 <= i < 6 :: GoodCell(true, cells[i]))
            && (r.value.Text? ==> |r.value.text| == 6 && AsciiDigits(r.value.text))
  {
    FixedCellsAreSound(p, IdField, IdFamily, cells, true, 6);
    var r := RecognizeId(p, cells);
    hide FixedCells;
    if |cells| == 6 && forall i | 0 <= i < 6 :: GoodCell(true, cells[i]) {
      assert Shaped(true, cells, 6);
    }
    if r.value.Text? {
      LettersAreAllowed(true, cells, r.value.text);
    }
  }

  /** The room is read exactly when the cells, no more than configured, show at least one letter
      or digit each and then only blanks; the engine's own second check never acts. */
  lemma RoomReadExactlyWhen(p: Policy, cells: seq<Cell>)
    ensures var r := RecognizeRoom(p, cells);
            && r == FixedCells(p, RoomField, RoomFamily, cells, false, p.roomMax)
            && HeaderSound(p, false, cells, p.roomMax, r) && r.id == RoomField
            && (r.value.Text? <==> |cells| <= p.roomMax && exists k: nat :: k >= 1 && Shaped(false, cells, k))
            && (r.value.Text? ==> 1 <= |r.value.text| <= p.roomMax && AsciiAlphanumeric(r.value.text))
  {
    FixedCellsAreSound(p, RoomField, RoomFamily, cells, false, p.roomMax);
    var r := FixedCells(p, RoomField, RoomFamily, cells, false, p.roomMax);
    hide FixedCells;
    if r.value.Text? {
      LettersAreAllowed(false, cells, r.value.text);
    }
  }

  /** What the result record demands of an accepted room. */
  predicate RoomFits(r: FieldResult) {
    r.value.Text? ==> 1 <= |r.value.text| <= 4 && AsciiAlphanumeric(r.value.text)
  }

  const LETTER: Cell := [CatalogueRanking.Hypothesis("A", 1.0)]

  /** The recogniser by itself, given any number of cells, reads only rooms the result record
      allows if and only if it is configured for at most four. */
  lemma RoomsFitExactlyWhen(p: Policy)
    ensures (forall cells :: RoomFits(RecognizeRoom(p, cells))) <==> p.roomMax <= 4
  {
    forall cells ensures p.roomMax <= 4 ==> RoomFits(RecognizeRoom(p, cells)) {
      RoomReadExactlyWhen(p, cells);
    }
    if p.roomMax > 4 {
      FiveLetters(p);
    }
  }

  /** Five cells that show a letter each are one such input. */
  lemma FiveLetters(p: Policy)
    requires p.roomMax > 4
    ensures !RoomFits(RecognizeRoom(p, seq(5, _ => LETTER)))
  {
    var cells := seq(5, _ => LETTER);
    assert GoodCell(false, LETTER);
    assert Shaped(false, cells, 5);
    RoomReadExactlyWhen(p, cells);
    hide RecognizeRoom, GoodCell, BlankCell;
    var room := RecognizeRoom(p, cells);
    ShapedExactlyWhen(false, cells, 5);
    ShapedExactlyWhen(false, cells, |room.value.text|);
  }

  // ---------------------------------------------------------------------- quantity and item

  function DigitValue(c: char): nat
    requires IsDigit(c)
  {
    c as int - '0' as int
  }

  function ParseNat(s: string): nat
    requires forall i | 0 <= i < |s| :: IsDigit(s[i])
  {
    if s == "" then 0 else ParseNat(s[..|s| - 1]) * 10 + DigitValue(s[|s| - 1])
  }

  function QuantityCandidates(p: Policy, cell: Cell): seq<Candidate> {
    if cell == [] then []
    else
      var h := cell[|cell| - 1];
      QuantityCandidates(p, cell[..|cell| - 1])
      + (if Blank(h.text) then [] else [Candidate(Strip(h.text), Calibrate(p, QuantityFamily, h.confidence), None)])
  }

  // Python refuses to convert more decimal digits than this, leading zeros included.
  const MAX_INT_DIGITS := 4300

  datatype QuantityOutcome = Quantity(field: FieldResult) | TooManyDigits

  function RecognizeQuantity(p: Policy, cell: Cell, row: nat): QuantityOutcome {
    var hypotheses := Take(cell, p.candidateLimit);
    var id := QuantityField(row);
    if hypotheses == [] then Quantity(InvalidField(id, None, QuantityMissing, None, []))
    else
      var raw := Strip(hypotheses[0].text);
      var confidence := Some(Calibrate(p, QuantityFamily, hypotheses[0].confidence));
      var candidates := QuantityCandidates(p, hypotheses);
      if !AsciiDigits(raw) then Quantity(InvalidField(id, Some(raw), QuantityNotDigits, confidence, candidates))
      else if |raw| > MAX_INT_DIGITS then TooManyDigits
      else if ParseNat(raw) <= 0 || ParseNat(raw) > p.quantityMax
      then Quantity(InvalidField(id, Some(raw), QuantityOutOfRange, confidence, candidates))
      else Quantity(FieldResult(id, Number(ParseNat(raw)), Some(raw), confidence, Unapproved(p, id), candidates))
  }

  lemma {:induction false} QuantityCandidatesOk(p: Policy, cell: Cell)
    ensures forall i | 0 <= i < |QuantityCandidates(p, cell)| :: CandidateOk(QuantityCandidates(p, cell)[i])
    ensures CodesOk(QuantityCandidates(p, cell))
  {
    if cell != [] {
      QuantityCandidatesOk(p, cell[..|cell| - 1]);
      CalibrateStaysAScore(p, QuantityFamily, cell[|cell| - 1].confidence);
    }
  }

  /** The reading is a number too long for int(), which then raises. */
  predicate Overlong(cell: Cell) {
    cell != [] && AsciiDigits(Shown(cell)) && |Shown(cell)| > MAX_INT_DIGITS
  }

  /** Recognition raises exactly on an overlong number.  Else a quantity is read exactly when the
      best reading is all digits and in range, and it is that number; otherwise the field carries
      an error. */
  lemma QuantityReadExactlyWhen(p: Policy, cell: Cell, row: nat)
    ensures RecognizeQuantity(p, cell, row).TooManyDigits? <==> Overlong(cell)
    ensures var outcome := RecognizeQuantity(p, cell, row);
            outcome.Quantity? ==>
              var r := outcome.field;
              && FieldOk(r) && CodesOk(r.candidates) && r.id == QuantityField(row) && !r.value.Text?
              && (r.value.Number? <==>
                    cell != [] && AsciiDigits(Shown(cell)) && 1 <= ParseNat(Shown(cell)) <= p.quantityMax)
              && (r.value.Number? ==> r.value.number == ParseNat(Shown(cell)) && r.warnings == Unapproved(p, r.id))
              && (r.value.NoValue? ==> HasError(r.warnings))
  {
    var hypotheses := Take(cell, p.candidateLimit);
    assert cell != [] ==> hypotheses != [] && hypotheses[0] == cell[0];
    QuantityCandidatesOk(p, hypotheses);
    if hypotheses != [] {
      CalibrateStaysAScore(p, QuantityFamily, hypotheses[0].confidence);
    }
    var outcome := RecognizeQuantity(p, cell, row);
    assert outcome.Quantity? && outcome.field.value.NoValue? ==> outcome.field.warnings[0].severity == Error;
  }

  const LONG_NUMBER: string := seq(4301, _ => '1')
  const LONG_QUANTITY: Cell := [CatalogueRanking.Hypothesis(LONG_NUMBER, 1.0)]

  /** Ones, 4301 of them, are such a number. */
  lemma LongNumberRaises(p: Policy, row: nat)
    ensures Overlong(LONG_QUANTITY) && RecognizeQuantity(p, LONG_QUANTITY, row).TooManyDigits?
  {
    assert |LONG_NUMBER| == 4301 && LONG_NUMBER[0] == '1' && LONG_NUMBER[4300] == '1';
    assert Shown(LONG_QUANTITY) == LONG_NUMBER;
    QuantityReadExactlyWhen(p, LONG_QUANTITY, row);
  }

  datatype ItemOutcome = Recognized(item: ItemRecognition) | RankingFailed

  function ItemHypotheses(p: Policy, cell: Cell): seq<CatalogueRanking.Hypothesis> {
    seq(|cell|, i requires 0 <= i < |cell| =>
      CatalogueRanking.Hypothesis(cell[i].text, Calibrate(p, ItemFamily, cell[i].confidence)))
  }

  function CandidatesOf(matches: seq<CatalogueRanking.Match>): seq<Candidate> {
    seq(|matches|, i requires 0 <= i < |matches| =>
      Candidate(matches[i].name, matches[i].score, Some(matches[i].itemId)))
  }

  function RecognizeItem(p: Policy, c: Catalogue, cell: Cell, row: nat): ItemOutcome {
    var hypotheses := Take(cell, p.candidateLimit);
    var field := ItemField(row);
    var raw := if hypotheses == [] then None else Some(hypotheses[0].text);
    var confidence := if hypotheses == [] then None
                      else Some(Calibrate(p, ItemFamily, hypotheses[0].confidence));
    if c.Unconfigured? then Recognized(ItemRecognition(InvalidField(field, raw, CatalogueUnconfigured, confidence, []), None))
    else
      match CatalogueRanking.Ranking(c.rules, c.entries, if raw.Some? then raw.value else "",
                                     ItemHypotheses(p, hypotheses), p.ranking)
      case Err(_) => RankingFailed
      case Ok(matches) =>
        if matches != [] && matches[0].accepted
        then Recognized(ItemRecognition(
               FieldResult(field, Text(matches[0].name), raw, confidence, Unapproved(p, field), CandidatesOf(matches)),
               Some(matches[0].itemId)))
        else Recognized(ItemRecognition(
               InvalidField(field, raw, if matches == [] then ItemUnrecognized else ItemNeedsReview, confidence,
                            CandidatesOf(matches)),
               None))
  }

  ghost predicate InCatalogue(c: Catalogue, id: string, name: string) {
    c.Catalogue? && exists e :: e in c.entries && e.item.id == id && e.item.name == name
  }

  lemma ConfidencesStayOk(p: Policy, cell: Cell, raw: string)
    ensures CatalogueRanking.ConfidencesOk(CatalogueRanking.Observations(raw, ItemHypotheses(p, cell)))
  {
    forall i | 0 <= i < |cell| ensures IsScore(Calibrate(p, ItemFamily, cell[i].confidence)) {
      CalibrateStaysAScore(p, ItemFamily, cell[i].confidence);
    }
  }

  ghost predicate ItemSound(p: Policy, c: Catalogue, row: nat, r: ItemRecognition) {
    && FieldOk(r.field) && CodesOk(r.field.candidates) && r.field.id == ItemField(row)
    && (r.itemId.Some? <==> r.field.value.Text?)
    && (r.itemId.None? ==> r.field.value.NoValue? && HasError(r.field.warnings))
    && (r.itemId.Some? ==>
          && InCatalogue(c, r.itemId.value, r.field.value.text)
          && IsCode(r.itemId.value) && !Blank(r.field.value.text)
          && r.field.warnings == Unapproved(p, r.field.id))
  }

  /** Ranking is never refused, and the field names an item exactly when it carries that item's
      code, both straight from the catalogue; otherwise it carries an error. */
  lemma ItemRecognitionIsSound(p: Policy, c: Catalogue, cell: Cell, row: nat)
    requires ValidCatalogue(c)
    ensures RecognizeItem(p, c, cell, row).Recognized?
    ensures ItemSound(p, c, row, RecognizeItem(p, c, cell, row).item)
  {
    var hypotheses := Take(cell, p.candidateLimit);
    if hypotheses != [] {
      CalibrateStaysAScore(p, ItemFamily, hypotheses[0].confidence);
    }
    if c.Catalogue? {
      var raw := if hypotheses == [] then "" else hypotheses[0].text;
      RankingIsUsable(p, c, hypotheses, raw);
      var ranking := CatalogueRanking.Ranking(c.rules, c.entries, raw, ItemHypotheses(p, hypotheses), p.ranking).value;
      hide CatalogueRanking.Ranking, Take, Calibrate, ValidCatalogue, InCatalogue, IsCode, Blank, FieldOk, CodesOk, HasError;
      var r := RecognizeItem(p, c, cell, row).item;
      if ranking != [] && ranking[0].accepted {
        NamedIsSound(p, c, row, r, ranking);
      } else {
        UnnamedIsSound(p, c, row, r);
      }
    } else {
      hide Take, Calibrate;
      UnnamedIsSound(p, c, row, RecognizeItem(p, c, cell, row).item);
    }
  }

  lemma UnnamedIsSound(p: Policy, c: Catalogue, row: nat, r: ItemRecognition)
    requires r.itemId.None? && r.field.id == ItemField(row) && r.field.value.NoValue?
    requires r.field.confidence.Some? ==> IsScore(r.field.confidence.value)
    requires r.field.warnings != [] && r.field.warnings[0].severity == Error
    requires CodesOk(r.field.candidates) && forall i | 0 <= i < |r.field.candidates| :: CandidateOk(r.field.candidates[i])
    ensures ItemSound(p, c, row, r)
  {
  }

  lemma NamedIsSound(p: Policy, c: Catalogue, row: nat, r: ItemRecognition, ranking: seq<CatalogueRanking.Match>)
    requires ranking != [] && r.itemId == Some(ranking[0].itemId) && r.field.value == Text(ranking[0].name)
    requires r.field.id == ItemField(row) && r.field.warnings == Unapproved(p, r.field.id)
    requires r.field.confidence.Some? ==> IsScore(r.field.confidence.value)
    requires CodesOk(r.field.candidates) && forall i | 0 <= i < |r.field.candidates| :: CandidateOk(r.field.candidates[i])
    requires InCatalogue(c, ranking[0].itemId, ranking[0].name) && IsCode(ranking[0].itemId) && !Blank(ranking[0].name)
    ensures ItemSound(p, c, row, r)
  {
    hide InCatalogue, IsCode, Blank, CodesOk, CandidateOk, Unapproved;
  }


  lemma RankingIsUsable(p: Policy, c: Catalogue, cell: Cell, raw: string)
    requires ValidCatalogue(c) && c.Catalogue?
    ensures var ranking := CatalogueRanking.Ranking(c.rules, c.entries, raw, ItemHypotheses(p, cell), p.ranking);
            && ranking.Ok?
            && (forall i | 0 <= i < |CandidatesOf(ranking.value)| :: CandidateOk(CandidatesOf(ranking.value)[i]))
            && CodesOk(CandidatesOf(ranking.value))
            && (forall i | 0 <= i < |ranking.value| ::
                  var m := ranking.value[i];
                  InCatalogue(c, m.itemId, m.name) && IsCode(m.itemId) && !Blank(m.name))
  {
    ConfidencesStayOk(p, cell, raw);
    hide CatalogueRanking.Matches, CatalogueRanking.Best, CatalogueRanking.AllOffers;
    CatalogueRanking.ScoresAreScores(c.rules, c.entries, raw, ItemHypotheses(p, cell), p.ranking);
    var ranking := CatalogueRanking.Ranking(c.rules, c.entries, raw, ItemHypotheses(p, cell), p.ranking);
    MatchesGiveCandidates(c, ranking.value);
  }

  lemma MatchesGiveCandidates(c: Catalogue, matches: seq<CatalogueRanking.Match>)
    requires ValidCatalogue(c) && c.Catalogue?
    requires forall m | m in matches ::
               0.0 <= m.score <= 1.0 && (exists e :: e in c.entries && e.item.id == m.itemId && e.item.name == m.name)
    ensures forall i | 0 <= i < |CandidatesOf(matches)| :: CandidateOk(CandidatesOf(matches)[i])
    ensures CodesOk(CandidatesOf(matches))
    ensures forall m | m in matches :: InCatalogue(c, m.itemId, m.name) && IsCode(m.itemId) && !Blank(m.name)
  {
  }
}
