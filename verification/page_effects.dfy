/** What a page's fields and rows become (recognition.py, validation.py, pipeline.py). */
module PageEffects {
  // The result of a page field by field: readings, confidences, candidates and warning codes.

  import opened Contracts
  import opened Calibration
  import opened Sorting
  import opened Recognition
  import opened Validation
  import opened PagePipeline
  import CatalogueRanking

  // ------------------------------------------------------------------------------ header cells

  /** The best readings of the cells, one after the other. */
  function Joined(cells: seq<Cell>): string {
    if cells == [] then ""
    else
      var n := |cells| - 1;
      Joined(cells[..n]) + (if cells[n] == [] then "" else cells[n][0].text)
  }

  ghost predicate BlankAmong(cells: seq<Cell>) {
    exists j :: 0 <= j < |cells| && BlankCell(cells[j])
  }

  /** A cell that shows anything but one letter or digit, or follows a blank one; a blank room cell
      itself is fine. */
  ghost predicate Misread(digitsOnly: bool, cells: seq<Cell>, i: nat)
    requires i < |cells|
  {
    && cells[i] != [] && (digitsOnly || !BlankCell(cells[i]))
    && (!GoodCell(digitsOnly, cells[i]) || (!digitsOnly && BlankAmong(cells[..i])))
  }

  ghost predicate MisreadAmong(digitsOnly: bool, cells: seq<Cell>) {
    exists i :: 0 <= i < |cells| && Misread(digitsOnly, cells, i)
  }

  predicate Raised(ws: seq<Warning>, code: Code, field: FieldId) {
    Warning(code, Error, field, None) in ws
  }

  /** What a scan has noted: all readings; a missing cell and a misread one each by its own code. */
  ghost predicate Noted(field: FieldId, digitsOnly: bool, cells: seq<Cell>, start: Scan, s: Scan) {
    && s.raw == Joined(cells)
    && (s.blankSeen <==> !digitsOnly && BlankAmong(cells))
    && (Raised(s.warnings, CellMissing, field) <==> [] in cells)
    && (Raised(s.warnings, CellInvalid, field) <==> MisreadAmong(digitsOnly, cells))
    && (forall w | w in s.warnings ::
          w in start.warnings || w == Warning(CellMissing, Error, field, None) || w == Warning(CellInvalid, Error, field, None))
  }

  /** Without a warning, the calibrated confidence of every cell up to the first blank. */
  ghost predicate Weighed(p: Policy, family: Family, cells: seq<Cell>, start: Scan, s: Scan) {
    && |start.warnings| <= |s.warnings| && |s.confidences| <= |cells|
    && (|s.warnings| == |start.warnings| ==>
          && (s.blankSeen || |s.confidences| == |cells|)
          && forall i | 0 <= i < |s.confidences| ::
               cells[i] != [] && s.confidences[i] == Calibrate(p, family, cells[i][0].confidence))
  }

  /** What one cell adds to the scan. */
  ghost predicate Answered(p: Policy, field: FieldId, family: Family, digitsOnly: bool, cell: Cell, before: Scan, after: Scan) {
    var blank := cell != [] && !digitsOnly && BlankCell(cell);
    var good := !blank && GoodCell(digitsOnly, cell) && !before.blankSeen;
    && after.raw == before.raw + (if cell == [] then "" else cell[0].text)
    && after.blankSeen == (before.blankSeen || blank)
    && after.confidences == before.confidences + (if good then [Calibrate(p, family, cell[0].confidence)] else [])
    && after.warnings == before.warnings + (if cell == [] then [Warning(CellMissing, Error, field, None)]
                                            else if blank || good then []
                                            else [Warning(CellInvalid, Error, field, None)])
  }

  lemma CellAnswer(p: Policy, field: FieldId, family: Family, digitsOnly: bool, cell: Cell, before: Scan)
    ensures Answered(p, field, family, digitsOnly, cell, before, ScanCell(p, field, family, digitsOnly, Take(cell, 2), before))
  {
    TopSurvives(cell);
    hide StripLeft, StripRight, Allowed, Calibrate;
  }

  lemma PrefixMisreads(digitsOnly: bool, cells: seq<Cell>, n: nat)
    requires n + 1 == |cells|
    ensures BlankAmong(cells) <==> BlankAmong(cells[..n]) || BlankCell(cells[n])
    ensures MisreadAmong(digitsOnly, cells) <==> MisreadAmong(digitsOnly, cells[..n]) || Misread(digitsOnly, cells, n)
    ensures [] in cells <==> [] in cells[..n] || cells[n] == []
  {
    hide GoodCell, BlankCell;
    forall i | 0 <= i < n ensures cells[..n][i] == cells[i] && cells[..n][..i] == cells[..i] {
    }
    if BlankAmong(cells[..n]) {
      var j :| 0 <= j < n && BlankCell(cells[..n][j]);
      assert BlankCell(cells[j]);
    }
    if MisreadAmong(digitsOnly, cells[..n]) {
      var i :| 0 <= i < n && Misread(digitsOnly, cells[..n], i);
      assert Misread(digitsOnly, cells, i);
    }
    if MisreadAmong(digitsOnly, cells) {
      var i :| 0 <= i <= n && Misread(digitsOnly, cells, i);
      assert i < n ==> Misread(digitsOnly, cells[..n], i);
    }
  }

  lemma {:induction false} ScanNotes(p: Policy, field: FieldId, family: Family, digitsOnly: bool, cells: seq<Cell>, start: Scan)
    requires start == Scan(start.warnings, "", [], "", false)
    requires !Raised(start.warnings, CellMissing, field) && !Raised(start.warnings, CellInvalid, field)
    ensures Noted(field, digitsOnly, cells, start, ScanCells(p, field, family, digitsOnly, cells, start))
    ensures Weighed(p, family, cells, start, ScanCells(p, field, family, digitsOnly, cells, start))
  {
    hide ScanCell, Misread, GoodCell, BlankCell, Calibrate;
    if cells != [] {
      var n := |cells| - 1;
      var before := ScanCells(p, field, family, digitsOnly, cells[..n], start);
      ScanNotes(p, field, family, digitsOnly, cells[..n], start);
      var after := ScanCells(p, field, family, digitsOnly, cells, start);
      CellAnswer(p, field, family, digitsOnly, cells[n], before);
      hide ScanCells, Noted, Weighed;
      OneMoreNoted(p, field, family, digitsOnly, cells, start, before, after);
      OneMoreWeighed(p, field, family, digitsOnly, cells, start, before, after);
    }
  }

  lemma OneMoreNoted(p: Policy, field: FieldId, family: Family, digitsOnly: bool, cells: seq<Cell>, start: Scan, before: Scan, after: Scan)
    requires cells != [] && Noted(field, digitsOnly, cells[..|cells| - 1], start, before)
    requires Answered(p, field, family, digitsOnly, cells[|cells| - 1], before, after)
    ensures Noted(field, digitsOnly, cells, start, after)
  {
    var n := |cells| - 1;
    PrefixMisreads(digitsOnly, cells, n);
    assert Misread(digitsOnly, cells, n) <==>
      cells[n] != [] && (digitsOnly || !BlankCell(cells[n])) && (!GoodCell(digitsOnly, cells[n]) || before.blankSeen);
    hide Misread, MisreadAmong, BlankAmong, GoodCell, BlankCell, Calibrate;
    assert cells[n] == [] ==> !Misread(digitsOnly, cells, n);
    assert forall w :: w in after.warnings <==> w in before.warnings || w in after.warnings[|before.warnings|..];
  }

  lemma OneMoreWeighed(p: Policy, field: FieldId, family: Family, digitsOnly: bool, cells: seq<Cell>, start: Scan, before: Scan,
                       after: Scan)
    requires cells != [] && Weighed(p, family, cells[..|cells| - 1], start, before)
    requires Answered(p, field, family, digitsOnly, cells[|cells| - 1], before, after)
    ensures Weighed(p, family, cells, start, after)
  {
    hide GoodCell, BlankCell, Calibrate;
    var n := |cells| - 1;
    assert forall i | 0 <= i < n :: cells[..n][i] == cells[i];
  }

  lemma {:induction false} LowestIsLeast(xs: seq<real>)
    requires xs != []
    ensures Lowest(xs) in xs && forall x | x in xs :: Lowest(xs) <= x
  {
    if |xs| > 1 {
      LowestIsLeast(xs[..|xs| - 1]);
      assert forall x | x in xs :: x in xs[..|xs| - 1] || x == xs[|xs| - 1];
    }
  }

  /** The least calibrated confidence of the first k cells. */
  ghost predicate LeastOf(p: Policy, family: Family, cells: seq<Cell>, k: nat, least: real)
    requires k <= |cells| && forall i | 0 <= i < k :: cells[i] != []
  {
    && (forall i | 0 <= i < k :: least <= Calibrate(p, family, cells[i][0].confidence))
    && (exists i :: 0 <= i < k && least == Calibrate(p, family, cells[i][0].confidence))
  }

  ghost predicate HeaderRead(p: Policy, field: FieldId, family: Family, cells: seq<Cell>, r: FieldResult) {
    && r.value.Text? && |r.value.text| <= |cells| && (forall i | 0 <= i < |r.value.text| :: cells[i] != [])
    && r.confidence.Some? && LeastOf(p, family, cells, |r.value.text|, r.confidence.value)
    && r.candidates == [Candidate(r.value.text, r.confidence.value, None)]
    && r.warnings == (if p.autoAccept then [] else [Warning(RecognitionUnapproved, Error, field, None)])
  }

  ghost predicate HeaderUnread(field: FieldId, digitsOnly: bool, wrongCount: bool, used: seq<Cell>, r: FieldResult) {
    && r.value.NoValue? && r.candidates == []
    && (Raised(r.warnings, CellCount, field) <==> wrongCount)
    && (Raised(r.warnings, CellMissing, field) <==> [] in used)
    && (Raised(r.warnings, CellInvalid, field) <==> MisreadAmong(digitsOnly, used))
    && (Raised(r.warnings, ValueMissing, field) <==> !wrongCount && [] !in used && !MisreadAmong(digitsOnly, used))
    && (forall w | w in r.warnings :: w.code in {CellCount, CellMissing, CellInvalid, ValueMissing})
  }

  /** Identifier or room: the raw text is every reading of the cells looked at.  A value that was
      read has the least calibrated confidence of its cells, is its own only candidate, and is
      warned about exactly if nothing may be accepted unseen.  Otherwise the warnings name each
      kind of fault found, or that nothing was written. */
  lemma HeaderFieldIs(p: Policy, field: FieldId, family: Family, cells: seq<Cell>, digitsOnly: bool, expected: nat)
    ensures var r := FixedCells(p, field, family, cells, digitsOnly, expected);
            var used := if |cells| <= expected then cells else cells[..expected];
            var wrongCount := if digitsOnly then |cells| != expected else |cells| > expected;
            && r.id == field && r.raw == (if Joined(used) == "" then None else Some(Joined(used)))
            && (HeaderRead(p, field, family, cells, r) || HeaderUnread(field, digitsOnly, wrongCount, used, r))
  {
    var start := ScanStart(field, cells, digitsOnly, expected);
    var used := TakeCells(cells, expected);
    var s := ScanCells(p, field, family, digitsOnly, used, start);
    assert |start.warnings| > 0 ==> start.warnings[0].code == CellCount;
    ScanNotes(p, field, family, digitsOnly, used, start);
    ScanStep(p, field, family, digitsOnly, used, start);
    LettersAreConfidences(digitsOnly, used, start, s);
    var r := ScanResult(p, field, digitsOnly, |used|, s);
    hide ScanCells, ScanOk, Noted, Weighed, LeastOf, HeaderRead, HeaderUnread, MisreadAmong, Lowest;
    assert r.raw == (if Joined(used) == "" then None else Some(Joined(used))) by {
      RawIs(field, digitsOnly, used, start, s);
    }
    if r.value.Text? {
      TextIsRead(p, field, family, digitsOnly, cells, start, s);
    } else {
      NoTextIsUnread(field, digitsOnly, used, start, s, |used|, p);
    }
  }

  lemma RawIs(field: FieldId, digitsOnly: bool, cells: seq<Cell>, start: Scan, s: Scan)
    requires Noted(field, digitsOnly, cells, start, s)
    ensures s.raw == Joined(cells)
  {
  }

  lemma LettersAreConfidences(digitsOnly: bool, cells: seq<Cell>, start: Scan, s: Scan)
    requires ScanOk(digitsOnly, cells, start, s)
    ensures |s.values| == |s.confidences| <= |cells| && start.warnings <= s.warnings
    ensures start.warnings != [] ==> s.warnings[0] == start.warnings[0]
  {
    hide LettersShown, GoodCell;
  }

  lemma TextIsRead(p: Policy, field: FieldId, family: Family, digitsOnly: bool, cells: seq<Cell>, start: Scan, s: Scan)
    requires start.warnings == [] == s.warnings && s.values != "" && |s.values| == |s.confidences|
    requires Weighed(p, family, cells, start, s)
    ensures HeaderRead(p, field, family, cells, ScanResult(p, field, digitsOnly, |s.values|, s))
  {
    hide Calibrate, Lowest;
    LowestIsLeast(s.confidences);
    var i :| 0 <= i < |s.confidences| && s.confidences[i] == Lowest(s.confidences);
    assert Lowest(s.confidences) == Calibrate(p, family, cells[i][0].confidence);
    forall k | 0 <= k < |s.values| ensures Lowest(s.confidences) <= Calibrate(p, family, cells[k][0].confidence) {
      assert s.confidences[k] in s.confidences;
    }
    assert LeastOf(p, family, cells, |s.values|, Lowest(s.confidences));
  }

  lemma NoTextIsUnread(field: FieldId, digitsOnly: bool, used: seq<Cell>, start: Scan, s: Scan, n: nat, p: Policy)
    requires |start.warnings| <= 1 && start.warnings <= s.warnings
    requires start.warnings != [] ==> start.warnings[0] == Warning(CellCount, Error, field, None)
    requires Noted(field, digitsOnly, used, start, s)
    requires ScanResult(p, field, digitsOnly, n, s).value.NoValue?
    ensures HeaderUnread(field, digitsOnly, start.warnings != [], used, ScanResult(p, field, digitsOnly, n, s))
  {
    var r := ScanResult(p, field, digitsOnly, n, s);
    assert r.warnings == if s.warnings == [] then [Warning(ValueMissing, Error, field, None)] else s.warnings;
    assert r.candidates == [];
    hide MisreadAmong, BlankAmong, ScanResult, Joined;
    FaultsAreNamed(field, digitsOnly, used, start, s);
    if s.warnings == [] {
      assert Warning(ValueMissing, Error, field, None) in r.warnings;
    }
  }

  lemma FaultsAreNamed(field: FieldId, digitsOnly: bool, used: seq<Cell>, start: Scan, s: Scan)
    requires |start.warnings| <= 1 && start.warnings <= s.warnings
    requires start.warnings != [] ==> start.warnings[0] == Warning(CellCount, Error, field, None)
    requires Noted(field, digitsOnly, used, start, s)
    ensures Raised(s.warnings, CellCount, field) <==> start.warnings != []
    ensures s.warnings == [] <==> start.warnings == [] && [] !in used && !MisreadAmong(digitsOnly, used)
    ensures forall w | w in s.warnings :: w.code in {CellCount, CellMissing, CellInvalid}
  {
    hide MisreadAmong, BlankAmong, Joined;
    assert start.warnings != [] ==> s.warnings[0] == Warning(CellCount, Error, field, None);
    assert s.warnings != [] ==> s.warnings[0] in s.warnings;
  }

  /** The identifier is six digit cells, the room as many cells as configured. */
  lemma HeadersAre(p: Policy, cells: seq<Cell>)
    ensures var id := RecognizeId(p, cells);
            var used := if |cells| <= 6 then cells else cells[..6];
            && id.id == IdField && id.raw == (if Joined(used) == "" then None else Some(Joined(used)))
            && (HeaderRead(p, IdField, IdFamily, cells, id) || HeaderUnread(IdField, true, |cells| != 6, used, id))
    ensures var room := RecognizeRoom(p, cells);
            var used := if |cells| <= p.roomMax then cells else cells[..p.roomMax];
            && room.id == RoomField && room.raw == (if Joined(used) == "" then None else Some(Joined(used)))
            && (HeaderRead(p, RoomField, RoomFamily, cells, room) || HeaderUnread(RoomField, false, |cells| > p.roomMax, used, room))
  {
    HeaderFieldIs(p, IdField, IdFamily, cells, true, 6);
    HeaderFieldIs(p, RoomField, RoomFamily, cells, false, p.roomMax);
    RoomReadExactlyWhen(p, cells);
    hide FixedCells, HeaderRead, HeaderUnread, HeaderSound, Shaped;
  }

  // ----------------------------------------------------------------------------- quantity, item

  ghost predicate IsQuantityCandidate(p: Policy, looked: Cell, c: Candidate) {
    exists h :: h in looked && Strip(h.text) != "" && c == Candidate(Strip(h.text), Calibrate(p, QuantityFamily, h.confidence), None)
  }

  lemma {:induction false} QuantityCandidatesAre(p: Policy, cell: Cell)
    ensures forall c :: c in QuantityCandidates(p, cell) <==> IsQuantityCandidate(p, cell, c)
  {
    hide Strip, Calibrate;
    if cell != [] {
      var n := |cell| - 1;
      QuantityCandidatesAre(p, cell[..n]);
      assert forall h :: h in cell <==> h in cell[..n] || h == cell[n];
      forall c ensures c in QuantityCandidates(p, cell) <==> IsQuantityCandidate(p, cell, c) {
        if c in QuantityCandidates(p, cell[..n]) {
          assert IsQuantityCandidate(p, cell[..n], c);
        }
      }
    }
  }

  /** Why a quantity was not read, if so. */
  predicate QuantityFault(p: Policy, cell: Cell, code: Code) {
    match code
    case QuantityMissing => cell == []
    case QuantityNotDigits => cell != [] && !AsciiDigits(Strip(cell[0].text))
    case QuantityOutOfRange =>
      cell != [] && AsciiDigits(Strip(cell[0].text)) && !(1 <= ParseNat(Strip(cell[0].text)) <= p.quantityMax)
    case _ => false
  }

  /** The field carries the stripped best reading with its calibrated confidence, the readings that
      are not blank as candidates, and the one warning that is due. */
  lemma QuantityFieldIs(p: Policy, cell: Cell, row: nat)
    requires RecognizeQuantity(p, cell, row).Quantity?
    ensures var r := RecognizeQuantity(p, cell, row).field;
            var looked := if |cell| <= p.candidateLimit then cell else cell[..p.candidateLimit];
            && r.id == QuantityField(row)
            && r.raw == (if cell == [] then None else Some(Strip(cell[0].text)))
            && r.confidence == (if cell == [] then None else Some(Calibrate(p, QuantityFamily, cell[0].confidence)))
            && (forall c :: c in r.candidates <==> IsQuantityCandidate(p, looked, c))
            && (r.value.Number? ==> r.warnings == (if p.autoAccept then [] else [Warning(RecognitionUnapproved, Error, r.id, None)]))
            && (r.value.NoValue? ==>
                  && |r.warnings| == 1 && r.warnings[0] == Warning(r.warnings[0].code, Error, r.id, None)
                  && QuantityFault(p, cell, r.warnings[0].code))
  {
    var looked := Take(cell, p.candidateLimit);
    QuantityCandidatesAre(p, looked);
    QuantityReadExactlyWhen(p, cell, row);
    hide QuantityCandidates, Calibrate, StripLeft, StripRight, ParseNat;
  }

  /** The candidates are the matches of the calibrated readings, one by one. */
  ghost predicate Matched(c: Catalogue, p: Policy, raw: string, looked: Cell, cs: seq<Candidate>)
    requires c.Catalogue?
  {
    var ranking := CatalogueRanking.Ranking(c.rules, c.entries, raw, ItemHypotheses(p, looked), p.ranking);
    && ranking.Ok? && |cs| == |ranking.value|
    && forall k | 0 <= k < |cs| :: cs[k] == Candidate(ranking.value[k].name, ranking.value[k].score, Some(ranking.value[k].itemId))
  }

  /** Likewise for an item: the unstripped best reading, every match of the catalogue in its order
      as a candidate, and without a catalogue, a match or a safe match the warning that says so. */
  lemma ItemFieldIs(p: Policy, c: Catalogue, cell: Cell, row: nat)
    requires ValidCatalogue(c)
    ensures RecognizeItem(p, c, cell, row).Recognized?
    ensures var r := RecognizeItem(p, c, cell, row).item;
            && r.field.id == ItemField(row)
            && r.field.raw == (if cell == [] then None else Some(cell[0].text))
            && r.field.confidence == (if cell == [] then None else Some(Calibrate(p, ItemFamily, cell[0].confidence)))
            && (c.Unconfigured? ==> r.field.candidates == [])
            && (c.Catalogue? ==>
                  Matched(c, p, if cell == [] then "" else cell[0].text,
                          if |cell| <= p.candidateLimit then cell else cell[..p.candidateLimit], r.field.candidates))
            && (r.itemId.Some? ==>
                  && r.field.candidates != [] && r.field.candidates[0].itemId == r.itemId
                  && r.field.value == Text(r.field.candidates[0].value)
                  && r.field.warnings == (if p.autoAccept then [] else [Warning(RecognitionUnapproved, Error, r.field.id, None)]))
            && (r.itemId.None? ==>
                  r.field.value.NoValue? && r.field.warnings == [Warning(if c.Unconfigured? then CatalogueUnconfigured
                                                                        else if r.field.candidates == [] then ItemUnrecognized
                                                                        else ItemNeedsReview, Error, r.field.id, None)])
  {
    ItemRecognitionIsSound(p, c, cell, row);
    hide Calibrate, CatalogueRanking.Ranking, ItemSound, ValidCatalogue;
  }

  // ------------------------------------------------------------------------------------- rows

  predicate Empty(f: FieldResult, id: FieldId, ws: seq<Warning>) {
    f == FieldResult(id, NoValue, None, None, ws, [])
  }

  /** A row without both crops is unavailable and uncertain, one called blank is not looked at, and
      any other has the fields its two crops are read as. */
  lemma RowIs(e: Engine, row: nat, input: RowInput)
    requires ValidCatalogue(e.catalogue) && RecognizeRow(e, row, input).Some?
    ensures var r := RecognizeRow(e, row, input).value;
            && r.row == row
            && (input.item.None? || input.quantity.None? ==>
                  && r.blank == Uncertain && r.itemId.None?
                  && Empty(r.item, ItemField(row), [Warning(RecognitionUnavailable, Error, ItemField(row), Some(row))])
                  && Empty(r.quantity, QuantityField(row), [Warning(RecognitionUnavailable, Error, QuantityField(row), Some(row))]))
            && (input.item.Some? && input.quantity.Some? ==>
                  && r.blank == input.blank
                  && (input.blank == BlankRow ==>
                        r.itemId.None? && Empty(r.item, ItemField(row), []) && Empty(r.quantity, QuantityField(row), []))
                  && (input.blank != BlankRow ==>
                        && Recognized(ItemRecognition(r.item, r.itemId)) == RecognizeItem(e.policy, e.catalogue, input.item.value, row)
                        && Quantity(r.quantity) == RecognizeQuantity(e.policy, input.quantity.value, row)))
  {
    hide RecognizeItem, RecognizeQuantity;
    if input.item.Some? {
      ItemRecognitionIsSound(e.policy, e.catalogue, input.item.value, row);
    }
  }

  // ------------------------------------------------------------------------------- validation

  predicate BlankText(f: FieldResult) {
    !f.value.Text? || Strip(f.value.text) == ""
  }

  predicate Omitted(r: RowEvidence) {
    r.blank == BlankRow && BlankText(r.item) && !r.quantity.value.Number?
  }

  /** What validation adds to the two fields of a row: a half pair is an error of the missing half,
      an item of no catalogue one of the item. */
  predicate Completed(i: ItemResult, r: RowEvidence) {
    var unpaired, unresolved := Warning(PairIncomplete, Error, r.item.id, Some(r.row)),
                                Warning(CatalogueItemUnresolved, Error, r.item.id, Some(r.row));
    && i.row == r.row && i.itemId == r.itemId
    && i.item == r.item.(warnings := r.item.warnings
                                     + (if BlankText(r.item) && r.quantity.value.Number? then [unpaired] else [])
                                     + (if !BlankText(r.item) && r.itemId.None? then [unresolved] else []))
    && i.quantity == r.quantity.(warnings := r.quantity.warnings
                                             + (if !BlankText(r.item) && !r.quantity.value.Number?
                                                then [Warning(PairIncomplete, Error, r.quantity.id, Some(r.row))] else []))
  }

  /** The page warnings name every uncertain row, and every row that has content though called blank. */
  ghost predicate IsAlarm(rows: seq<RowEvidence>, w: Warning) {
    exists r :: r in rows && !Omitted(r) &&
      ((r.blank == Uncertain && w == Warning(BlankRowUncertain, Error, RowField(r.row), Some(r.row)))
       || (r.blank == BlankRow && w == Warning(BlankRowHasContent, Error, RowField(r.row), Some(r.row))))
  }

  ghost predicate CompletedAmong(rows: seq<RowEvidence>, i: ItemResult) {
    exists r :: r in rows && !Omitted(r) && Completed(i, r)
  }

  lemma RowCompleted(r: RowEvidence)
    ensures Omitted(r) <==> Skipped(r)
    ensures Completed(Checked(r), r)
    ensures forall w :: w in RowWarnings(r) <==> IsAlarm([r], w)
  {
    hide StripLeft, StripRight;
    assert r in [r];
  }

  lemma {:induction false} ItemsAreCompleted(rows: seq<RowEvidence>)
    ensures forall i | i in ItemsOf(rows) :: CompletedAmong(rows, i)
    ensures forall w :: w in WarningsOf(rows) <==> IsAlarm(rows, w)
  {
    if rows != [] {
      var n := |rows| - 1;
      ItemsAreCompleted(rows[..n]);
      RowCompleted(rows[n]);
      hide Omitted, Completed, Skipped, Checked, RowWarnings;
      assert forall r :: r in rows <==> r in rows[..n] || r == rows[n];
      assert forall i | i in ItemsOf(rows) && i !in ItemsOf(rows[..n]) :: i == Checked(rows[n]) && !Omitted(rows[n]);
      forall w ensures w in WarningsOf(rows) <==> IsAlarm(rows, w) {
        assert IsAlarm(rows, w) <==> IsAlarm(rows[..n], w) || IsAlarm([rows[n]], w);
      }
    }
  }

  /** Validation, row by row and warning by warning. */
  lemma PageIs(id: FieldResult, room: FieldResult, rows: seq<RowEvidence>)
    ensures Validated(id, room, rows).DuplicateRows? <==> exists i, j :: 0 <= i < j < |rows| && rows[i].row == rows[j].row
    ensures Validated(id, room, rows).Ok? ==>
              && (forall i | i in Validated(id, room, rows).page.items :: CompletedAmong(rows, i))
              && (forall w :: w in Validated(id, room, rows).page.warnings <==> IsAlarm(rows, w))
  {
    if UniqueRows(rows) {
      var sorted := Sort(rows, RowOrder());
      SortedRows(rows);
      ItemsAreCompleted(sorted);
      hide Omitted, Completed, Sort, ItemsOf, WarningsOf, Verdict;
    }
  }

  // ------------------------------------------------------------------------------- the result

  /** Who refuses first: another document, another bundle, no service date. */
  lemma RefusedBecause(engine: Option<Engine>, bundle: nat, job: Job, context: Context, page: Page, now: nat)
    requires engine.Some? ==> ValidCatalogue(engine.value.catalogue)
    ensures var outcome := Process(engine, bundle, job, context, page, now);
            && (outcome == Failed(DocumentMismatch) <==> context.documentId != job.documentId)
            && (outcome == Failed(BundleMismatch) <==>
                  context.documentId == job.documentId && !(context.bundle == job.bundle == bundle))
            && (outcome == Failed(ServiceDateMissing) <==>
                  context.documentId == job.documentId && context.bundle == job.bundle == bundle && context.serviceDate.None?)
  {
    if Guard(job, context, bundle).None? {
      ProcessingNeverBreaks(engine, bundle, job, context, page, now);
    }
  }

  ghost predicate Unread(f: FieldResult, id: FieldId) {
    Empty(f, id, [Warning(RecognitionUnavailable, Error, id, None)])
  }

  /** A result is the first revision for its document, page and service date, stamped now; its
      callback repeats it under its own identity.  A page that was not aligned, or that nothing can
      read, has no header and goes to review. */
  lemma ResultIs(engine: Option<Engine>, bundle: nat, job: Job, context: Context, page: Page, now: nat)
    requires Process(engine, bundle, job, context, page, now).Processed?
    ensures var done := Process(engine, bundle, job, context, page, now);
            var r := done.result;
            && r.documentId == job.documentId && r.pageIndex == context.pageIndex && r.revision == 1
            && r.completedAt == now && r.serviceDate == context.serviceDate && r.serviceDate.Some?
            && done.callback == Callback(EventId(job.documentId, 1), EventId(job.documentId, 1), now, r)
            && (!page.aligned || engine.None? ==>
                  Unread(r.idField, IdField) && Unread(r.room, RoomField) && r.outcome == NeedsReview)
            && (!page.aligned ==>
                  && [Warning(PreprocessingNeedsReview, Error, Pipeline, None), Warning(PreprocessingReason, Error, Pipeline, None)]
                     <= r.warnings)
            && (page.aligned && engine.Some? ==>
                  && r.idField == RecognizeId(engine.value.policy, page.idCells)
                  && r.room == RecognizeRoom(engine.value.policy, page.roomCells))
  {
    hide RecognizeId, RecognizeRoom, RecognizeRows, ItemsOf, WarningsOf, Sort, UnavailableRows, SnapshotOk, CallbackOk;
  }

  /** The lines and alarms of an aligned page are those of its twelve rows. */
  lemma LinesAre(e: Engine, bundle: nat, job: Job, context: Context, page: Page, now: nat)
    requires ValidCatalogue(e.catalogue) && page.aligned
    requires Process(Some(e), bundle, job, context, page, now).Processed?
    ensures RecognizeRows(e, page.rows, 12).Some?
    ensures var rows := RecognizeRows(e, page.rows, 12).value;
            var r := Process(Some(e), bundle, job, context, page, now).result;
            && |rows| == 12 && (forall i | 0 <= i < 12 :: RecognizeRow(e, i, page.rows[i]) == Some(rows[i]))
            && (forall i | i in r.items :: CompletedAmong(rows, i))
            && (forall w :: w in r.warnings <==> IsAlarm(rows, w))
  {
    ItsRows(e, bundle, job, context, page, now);
    var rows := RecognizeRows(e, page.rows, 12).value;
    RowsOneByOne(e, page.rows, 12);
    PageIs(RecognizeId(e.policy, page.idCells), RecognizeRoom(e.policy, page.roomCells), rows);
    hide *;
  }

  lemma ItsRows(e: Engine, bundle: nat, job: Job, context: Context, page: Page, now: nat)
    requires page.aligned && Process(Some(e), bundle, job, context, page, now).Processed?
    ensures RecognizeRows(e, page.rows, 12).Some?
    ensures var v := Validated(RecognizeId(e.policy, page.idCells), RecognizeRoom(e.policy, page.roomCells),
                               RecognizeRows(e, page.rows, 12).value);
            var r := Process(Some(e), bundle, job, context, page, now).result;
            v.Ok? && r.items == v.page.items && r.warnings == v.page.warnings
  {
    hide RecognizeId, RecognizeRoom, RecognizeRows, Validated, SnapshotOk, CallbackOk;
  }

  lemma {:induction false} RowsOneByOne(e: Engine, inputs: seq<RowInput>, n: nat)
    requires n <= |inputs| && RecognizeRows(e, inputs, n).Some?
    ensures var rows := RecognizeRows(e, inputs, n).value;
            |rows| == n && forall i | 0 <= i < n :: RecognizeRow(e, i, inputs[i]) == Some(rows[i])
  {
    hide RecognizeRow;
    if n > 0 {
      RowsOneByOne(e, inputs, n - 1);
    }
  }
}
