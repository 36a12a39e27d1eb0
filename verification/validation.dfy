/** Page validation. */
module Validation {
  // Fail-closed, after validation.py.

  import opened Contracts
  import opened Sorting

  datatype Disposition = BlankRow | Present | Uncertain

  datatype RowEvidence = RowEvidence(
    row: nat, blank: Disposition, item: FieldResult, quantity: FieldResult, itemId: Option<string>)

  datatype PageValidation = PageValidation(outcome: Outcome, items: seq<ItemResult>, warnings: seq<Warning>)

  datatype Result = Ok(page: PageValidation) | DuplicateRows

  /** RowEvidence.__post_init__. */
  predicate EvidenceOk(r: RowEvidence) {
    r.row <= 11 && r.item.id == ItemField(r.row) && r.quantity.id == QuantityField(r.row)
  }

  function Alarm(code: Code, field: FieldId, row: nat): Warning {
    Warning(code, Error, field, Some(row))
  }

  function AppendError(f: FieldResult, code: Code, row: nat): FieldResult {
    f.(warnings := f.warnings + [Alarm(code, f.id, row)])
  }

  predicate Skipped(r: RowEvidence) {
    r.blank == BlankRow && !ItemPresent(r.item) && !QuantityPresent(r.quantity)
  }

  function RowWarnings(r: RowEvidence): seq<Warning> {
    if Skipped(r) then []
    else if r.blank == Uncertain then [Alarm(BlankRowUncertain, RowField(r.row), r.row)]
    else if r.blank == BlankRow then [Alarm(BlankRowHasContent, RowField(r.row), r.row)]
    else []
  }

  function CheckedItem(r: RowEvidence): FieldResult {
    var paired := if !ItemPresent(r.item) && QuantityPresent(r.quantity)
                  then AppendError(r.item, PairIncomplete, r.row) else r.item;
    if ItemPresent(r.item) && r.itemId.None? then AppendError(paired, CatalogueItemUnresolved, r.row) else paired
  }

  function CheckedQuantity(r: RowEvidence): FieldResult {
    if ItemPresent(r.item) && !QuantityPresent(r.quantity)
    then AppendError(r.quantity, PairIncomplete, r.row) else r.quantity
  }

  function Checked(r: RowEvidence): ItemResult {
    ItemResult(r.row, CheckedItem(r), CheckedQuantity(r), r.itemId)
  }

  function ItemsOf(rows: seq<RowEvidence>): seq<ItemResult> {
    if rows == [] then []
    else
      var r := rows[|rows| - 1];
      ItemsOf(rows[..|rows| - 1])
      + (if Skipped(r) then [] else [Checked(r)])
  }

  function WarningsOf(rows: seq<RowEvidence>): seq<Warning> {
    if rows == [] then [] else WarningsOf(rows[..|rows| - 1]) + RowWarnings(rows[|rows| - 1])
  }

  function RowOrder(): (RowEvidence, RowEvidence) -> bool {
    (a: RowEvidence, b: RowEvidence) => a.row <= b.row
  }

  predicate ItemErrors(items: seq<ItemResult>) {
    exists i | 0 <= i < |items| :: HasError(items[i].item.warnings) || HasError(items[i].quantity.warnings)
  }

  predicate UniqueRows(rows: seq<RowEvidence>) {
    forall i, j | 0 <= i < j < |rows| :: rows[i].row != rows[j].row
  }

  function Verdict(id: FieldResult, room: FieldResult, items: seq<ItemResult>, warnings: seq<Warning>): Outcome {
    if HasError(warnings) || HasError(id.warnings) || HasError(room.warnings) || ItemErrors(items)
       || id.value.NoValue? || room.value.NoValue?
    then NeedsReview else Accepted
  }

  function Validated(id: FieldResult, room: FieldResult, rows: seq<RowEvidence>): Result {
    if !UniqueRows(rows) then DuplicateRows
    else
      var sorted := Sort(rows, RowOrder());
      Ok(PageValidation(Verdict(id, room, ItemsOf(sorted), WarningsOf(sorted)), ItemsOf(sorted), WarningsOf(sorted)))
  }

  method ValidatePage(id: FieldResult, room: FieldResult, rows: seq<RowEvidence>) returns (r: Result)
    ensures r == Validated(id, room, rows)
  {
    if !UniqueRows(rows) {
      return DuplicateRows;
    }
    var sorted := Sort(rows, RowOrder());
    var warnings: seq<Warning>, items: seq<ItemResult> := [], [];
    for i := 0 to |sorted|
      invariant items == ItemsOf(sorted[..i]) && warnings == WarningsOf(sorted[..i])
    {
      assert sorted[..i + 1][..i] == sorted[..i];
      var row := sorted[i];
      var itemPresent, quantityPresent := ItemPresent(row.item), QuantityPresent(row.quantity);
      if row.blank == BlankRow && !itemPresent && !quantityPresent {
        continue;
      }
      var item, quantity := row.item, row.quantity;
      if row.blank == Uncertain {
        warnings := warnings + [Alarm(BlankRowUncertain, RowField(row.row), row.row)];
      } else if row.blank == BlankRow {
        warnings := warnings + [Alarm(BlankRowHasContent, RowField(row.row), row.row)];
      }
      if itemPresent != quantityPresent {
        if !itemPresent {
          item := AppendError(item, PairIncomplete, row.row);
        }
        if !quantityPresent {
          quantity := AppendError(quantity, PairIncomplete, row.row);
        }
      }
      if itemPresent && row.itemId.None? {
        item := AppendError(item, CatalogueItemUnresolved, row.row);
      }
      items := items + [ItemResult(row.row, item, quantity, row.itemId)];
    }
    assert sorted[..|sorted|] == sorted;
    return Ok(PageValidation(Verdict(id, room, items, warnings), items, warnings));
  }

  // ------------------------------------------------------------------------------- properties

  /** The result of one row says what the evidence said: same row, values, readings, candidates
      and catalogue item, with warnings only ever added. */
  predicate Reports(i: ItemResult, r: RowEvidence) {
    && i.row == r.row && i.itemId == r.itemId
    && i.item == r.item.(warnings := i.item.warnings) && r.item.warnings <= i.item.warnings
    && i.quantity == r.quantity.(warnings := i.quantity.warnings) && r.quantity.warnings <= i.quantity.warnings
  }

  predicate CleanRow(r: RowEvidence) {
    || Skipped(r)
    || (&& r.blank == Present
        && !HasError(r.item.warnings) && !HasError(r.quantity.warnings)
        && (ItemPresent(r.item) <==> QuantityPresent(r.quantity))
        && (ItemPresent(r.item) ==> r.itemId.Some?))
  }

  ghost predicate ReportedBy(i: ItemResult, rows: seq<RowEvidence>) {
    exists k :: 0 <= k < |rows| && !Skipped(rows[k]) && Reports(i, rows[k])
  }

  ghost predicate Kept(r: RowEvidence, items: seq<ItemResult>) {
    exists k :: 0 <= k < |items| && Reports(items[k], r)
  }

  lemma {:induction false} ItemsComeFromRows(rows: seq<RowEvidence>)
    ensures forall i | 0 <= i < |ItemsOf(rows)| :: ReportedBy(ItemsOf(rows)[i], rows)
  {
    if rows != [] {
      var n := |rows| - 1;
      var before, items := ItemsOf(rows[..n]), ItemsOf(rows);
      ItemsComeFromRows(rows[..n]);
      hide Reports, Skipped;
      forall i | 0 <= i < |items| ensures ReportedBy(items[i], rows) {
        if i < |before| {
          assert ReportedBy(before[i], rows[..n]);
          var k :| 0 <= k < n && !Skipped(rows[..n][k]) && Reports(before[i], rows[..n][k]);
          assert !Skipped(rows[k]) && Reports(items[i], rows[k]);
        } else {
          assert !Skipped(rows[n]) && Reports(items[i], rows[n]);
        }
      }
    }
  }

  lemma {:induction false} RowsAreKept(rows: seq<RowEvidence>)
    ensures forall k | 0 <= k < |rows| && !Skipped(rows[k]) :: Kept(rows[k], ItemsOf(rows))
  {
    if rows != [] {
      var n := |rows| - 1;
      var before, items := ItemsOf(rows[..n]), ItemsOf(rows);
      RowsAreKept(rows[..n]);
      hide Reports, Skipped;
      forall k | 0 <= k < |rows| && !Skipped(rows[k]) ensures Kept(rows[k], items) {
        if k < n {
          assert rows[..n][k] == rows[k];
          assert Kept(rows[k], before);
          var i :| 0 <= i < |before| && Reports(before[i], rows[k]);
          assert Reports(items[i], rows[k]);
        } else {
          assert Reports(items[|before|], rows[n]);
        }
      }
    }
  }

  lemma {:induction false} ItemsInOrder(rows: seq<RowEvidence>)
    requires forall i, j | 0 <= i < j < |rows| :: rows[i].row < rows[j].row
    ensures forall i, j | 0 <= i < j < |ItemsOf(rows)| :: ItemsOf(rows)[i].row < ItemsOf(rows)[j].row
    ensures forall i | 0 <= i < |ItemsOf(rows)| :: ItemsOf(rows)[i].row <= rows[|rows| - 1].row
  {
    if rows != [] {
      var n := |rows| - 1;
      ItemsInOrder(rows[..n]);
      hide Skipped, CheckedItem, CheckedQuantity;
      var before, items := ItemsOf(rows[..n]), ItemsOf(rows);
      forall i, j | 0 <= i < j < |items| ensures items[i].row < items[j].row {
        assert items[i] == before[i];
        if j < |before| {
          assert items[j] == before[j];
        }
      }
    }
  }

  lemma {:induction false} CleanRowsNoErrors(rows: seq<RowEvidence>)
    ensures !HasError(WarningsOf(rows)) && !ItemErrors(ItemsOf(rows))
            <==> forall k | 0 <= k < |rows| :: CleanRow(rows[k])
  {
    if rows != [] {
      var n := |rows| - 1;
      CleanRowsNoErrors(rows[..n]);
      assert forall k | 0 <= k < n :: rows[..n][k] == rows[k];
      ErrorsOf(WarningsOf(rows[..n]), RowWarnings(rows[n]));
      RowErrors(rows[n]);
      ItemErrorsOf(ItemsOf(rows[..n]), Checked(rows[n]));
      hide HasError, ItemErrors, RowWarnings, CheckedItem, CheckedQuantity, CleanRow, Skipped;
      if Skipped(rows[n]) {
        assert ItemsOf(rows) == ItemsOf(rows[..n]);
      }
    }
  }

  lemma ItemErrorsOf(items: seq<ItemResult>, i: ItemResult)
    ensures ItemErrors(items + [i]) <==> ItemErrors(items) || HasError(i.item.warnings) || HasError(i.quantity.warnings)
  {
    hide HasError;
    if ItemErrors(items) {
      var k :| 0 <= k < |items| && (HasError(items[k].item.warnings) || HasError(items[k].quantity.warnings));
      assert (items + [i])[k] == items[k];
    }
    assert (items + [i])[|items|] == i;
  }

  lemma ErrorsOf(a: seq<Warning>, b: seq<Warning>)
    ensures HasError(a + b) <==> HasError(a) || HasError(b)
  {
    if HasError(a) {
      var i :| 0 <= i < |a| && a[i].severity == Error;
      assert (a + b)[i].severity == Error;
    }
    if HasError(b) {
      var i :| 0 <= i < |b| && b[i].severity == Error;
      assert (a + b)[|a| + i].severity == Error;
    }
  }

  lemma RowErrors(r: RowEvidence)
    ensures !Skipped(r) ==>
              (CleanRow(r) <==> !HasError(RowWarnings(r)) && !HasError(CheckedItem(r).warnings)
                                && !HasError(CheckedQuantity(r).warnings))
    ensures Skipped(r) ==> RowWarnings(r) == [] && CleanRow(r)
  {
    AppendedError(r.item, PairIncomplete, r.row);
    AppendedError(r.item, CatalogueItemUnresolved, r.row);
    AppendedError(r.quantity, PairIncomplete, r.row);
    if RowWarnings(r) != [] {
      assert RowWarnings(r)[0].severity == Error;
    }
  }

  lemma AppendedError(f: FieldResult, code: Code, row: nat)
    ensures HasError(AppendError(f, code, row).warnings)
  {
    assert AppendError(f, code, row).warnings[|f.warnings|].severity == Error;
  }

  lemma SortedRows(rows: seq<RowEvidence>)
    requires UniqueRows(rows)
    ensures var sorted := Sort(rows, RowOrder());
            && Ordered(sorted, RowOrder()) && UniqueRows(sorted) && |sorted| == |rows|
            && (forall r :: r in sorted <==> r in rows)
  {
    SortIsOrderedPermutation(rows, RowOrder());
    SortedUnique(rows);
    var sorted := Sort(rows, RowOrder());
    forall r ensures r in sorted <==> r in rows {
      assert r in multiset(sorted) <==> r in multiset(rows);
    }
  }

  lemma {:induction false} SortedUnique(rows: seq<RowEvidence>)
    requires UniqueRows(rows)
    ensures UniqueRows(Sort(rows, RowOrder()))
    ensures forall r | r in Sort(rows, RowOrder()) :: r in rows
  {
    if rows != [] {
      SortedUnique(rows[1..]);
      InsertUnique(rows[0], Sort(rows[1..], RowOrder()));
    }
  }

  lemma {:induction false} InsertUnique(r: RowEvidence, rows: seq<RowEvidence>)
    requires UniqueRows(rows) && forall q | q in rows :: q.row != r.row
    ensures UniqueRows(Insert(r, rows, RowOrder()))
    ensures forall q | q in Insert(r, rows, RowOrder()) :: q == r || q in rows
  {
    if rows != [] && !RowOrder()(r, rows[0]) {
      InsertUnique(r, rows[1..]);
      var rest := Insert(r, rows[1..], RowOrder());
      forall j | 0 <= j < |rest| ensures rest[j].row != rows[0].row {
        assert rest[j] in rest;
        if rest[j] in rows[1..] {
          var q :| 0 <= q < |rows[1..]| && rows[1..][q] == rest[j];
        }
      }
    }
  }

  /** Nothing is invented, corrected or lost: the results are exactly the rows that are not
      blank, in row order, each reporting its evidence unchanged. */
  lemma ValidationInventsNothing(id: FieldResult, room: FieldResult, rows: seq<RowEvidence>)
    requires UniqueRows(rows)
    ensures Validated(id, room, rows).Ok?
    ensures var page := Validated(id, room, rows).page;
            && (forall i | 0 <= i < |page.items| :: ReportedBy(page.items[i], rows))
            && (forall k | 0 <= k < |rows| && !Skipped(rows[k]) :: Kept(rows[k], page.items))
            && (forall i, j | 0 <= i < j < |page.items| :: page.items[i].row < page.items[j].row)
  {
    var sorted := Sort(rows, RowOrder());
    SortedRows(rows);
    ItemsComeFromRows(sorted);
    RowsAreKept(sorted);
    forall i, j | 0 <= i < j < |sorted| ensures sorted[i].row < sorted[j].row {
      assert RowOrder()(sorted[i], sorted[j]);
    }
    ItemsInOrder(sorted);
    var items := ItemsOf(sorted);
    hide Sort, ItemsOf, WarningsOf, Reports, Skipped, Verdict;
    forall i | 0 <= i < |items| ensures ReportedBy(items[i], rows) {
      assert ReportedBy(items[i], sorted);
      var k :| 0 <= k < |sorted| && !Skipped(sorted[k]) && Reports(items[i], sorted[k]);
      assert sorted[k] in rows;
      var m :| 0 <= m < |rows| && rows[m] == sorted[k];
    }
    forall k | 0 <= k < |rows| && !Skipped(rows[k]) ensures Kept(rows[k], items) {
      assert rows[k] in sorted;
      var m :| 0 <= m < |sorted| && sorted[m] == rows[k];
      assert Kept(sorted[m], items);
    }
  }

  /** A page is accepted exactly when both header fields were read, nothing carries an error, and
      every row is either blank and empty, or present with item, quantity and catalogue item
      together or not at all. */
  lemma AcceptedExactlyWhen(id: FieldResult, room: FieldResult, rows: seq<RowEvidence>)
    requires UniqueRows(rows)
    ensures Validated(id, room, rows).Ok?
    ensures Validated(id, room, rows).page.outcome == Accepted <==>
              && !id.value.NoValue? && !room.value.NoValue?
              && !HasError(id.warnings) && !HasError(room.warnings)
              && (forall k | 0 <= k < |rows| :: CleanRow(rows[k]))
  {
    var sorted := Sort(rows, RowOrder());
    SortedRows(rows);
    CleanRowsNoErrors(sorted);
    if forall k | 0 <= k < |rows| :: CleanRow(rows[k]) {
      forall k | 0 <= k < |sorted| ensures CleanRow(sorted[k]) {
        assert sorted[k] in rows;
      }
    }
    if forall k | 0 <= k < |sorted| :: CleanRow(sorted[k]) {
      forall k | 0 <= k < |rows| ensures CleanRow(rows[k]) {
        assert rows[k] in sorted;
      }
    }
  }

  const SHOWN_ID := FieldResult(IdField, Text("000001"), Some("000001"), Some(1.0), [], [])
  const SHOWN_ROOM := FieldResult(RoomField, Text("A1"), Some("A1"), Some(1.0), [], [])
  const EMPTY_PRESENT := RowEvidence(0, Present, FieldResult(ItemField(0), NoValue, None, None, [], []),
                                     FieldResult(QuantityField(0), NoValue, None, None, [], []), None)

  /** A row called present but empty in both fields raises no warning, and the page is accepted
      with a line that orders nothing.  Recognition never hands on such a row. */
  lemma EmptyPresentRowIsAccepted()
    ensures Validated(SHOWN_ID, SHOWN_ROOM, [EMPTY_PRESENT]).Ok?
    ensures var page := Validated(SHOWN_ID, SHOWN_ROOM, [EMPTY_PRESENT]).page;
            page.outcome == Accepted && |page.items| == 1 && page.items[0].item.value.NoValue? && page.items[0].itemId.None?
  {
    var rows := [EMPTY_PRESENT];
    AcceptedExactlyWhen(SHOWN_ID, SHOWN_ROOM, rows);
    ValidationInventsNothing(SHOWN_ID, SHOWN_ROOM, rows);
    var items := Validated(SHOWN_ID, SHOWN_ROOM, rows).page.items;
    OnlyOneRow(rows, items);
  }

  lemma OnlyOneRow(rows: seq<RowEvidence>, items: seq<ItemResult>)
    requires |rows| == 1 && Kept(rows[0], items) && forall i | 0 <= i < |items| :: ReportedBy(items[i], rows)
    requires forall i, j | 0 <= i < j < |items| :: items[i].row < items[j].row
    ensures |items| == 1 && Reports(items[0], rows[0])
  {
    hide Skipped;
    forall i | 0 <= i < |items| ensures Reports(items[i], rows[0]) {
      assert ReportedBy(items[i], rows);
    }
    assert |items| > 1 ==> items[0].row < items[1].row;
  }
}
