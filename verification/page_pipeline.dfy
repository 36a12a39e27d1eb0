/** One page from crops to its callback (pipeline.py). */
module PagePipeline {
  // Artifact files, hashing and the payload size limit are not part of this model; the clock's
  // reading is a parameter.  A row's disposition is whatever the blank classifier answered, or
  // Uncertain where there is none.

  import opened Contracts
  import opened Validation
  import opened Recognition

  datatype RowInput = RowInput(item: Option<Cell>, quantity: Option<Cell>, blank: Disposition)

  type Rows = r: seq<RowInput> | |r| == 12 witness seq(12, _ => RowInput(None, None, Uncertain))

  // Crops come from the artifact table; both of its writers refuse a seventh identifier cell and
  // a fifth room cell.
  type IdCells = c: seq<Cell> | |c| <= 6
  type RoomCells = c: seq<Cell> | |c| <= 4

  datatype Page = Page(aligned: bool, idCells: IdCells, roomCells: RoomCells, rows: Rows)

  datatype Engine = Engine(policy: Policy, catalogue: Catalogue)

  datatype Job = Job(documentId: nat, bundle: nat)
  datatype Context = Context(documentId: nat, bundle: nat, pageIndex: nat, serviceDate: Option<nat>)

  datatype Failure = DocumentMismatch | BundleMismatch | ServiceDateMissing | RecognitionRaised | ConstructorRaised
  datatype Outcome = Processed(result: Snapshot, callback: Callback) | Failed(why: Failure)

  function UnavailableField(field: FieldId, row: Option<nat>): FieldResult {
    FieldResult(field, NoValue, None, None, [Warning(RecognitionUnavailable, Error, field, row)], [])
  }

  function UnavailableRow(row: nat): RowEvidence {
    RowEvidence(row, Uncertain, UnavailableField(ItemField(row), Some(row)),
                UnavailableField(QuantityField(row), Some(row)), None)
  }

  function EmptyField(field: FieldId): FieldResult {
    FieldResult(field, NoValue, None, None, [], [])
  }

  function RecognizeRow(e: Engine, row: nat, input: RowInput): Option<RowEvidence> {
    if input.item.None? || input.quantity.None? then Some(UnavailableRow(row))
    else if input.blank == BlankRow
    then Some(RowEvidence(row, BlankRow, EmptyField(ItemField(row)), EmptyField(QuantityField(row)), None))
    else
      match RecognizeItem(e.policy, e.catalogue, input.item.value, row)
      case RankingFailed => None
      case Recognized(item) =>
        match RecognizeQuantity(e.policy, input.quantity.value, row)
        case TooManyDigits => None
        case Quantity(quantity) => Some(RowEvidence(row, input.blank, item.field, quantity, item.itemId))
  }

  /** The first n rows, unless recognition raises on one. */
  function RecognizeRows(e: Engine, inputs: seq<RowInput>, n: nat): Option<seq<RowEvidence>>
    requires n <= |inputs|
  {
    if n == 0 then Some([])
    else
      var before := RecognizeRows(e, inputs, n - 1);
      if before.None? then None
      else
        var last := RecognizeRow(e, n - 1, inputs[n - 1]);
        if last.None? then None else Some(before.value + [last.value])
  }

  datatype Reading = Reading(idField: FieldResult, room: FieldResult, rows: seq<RowEvidence>, extra: seq<Warning>)

  function UnavailableRows(): seq<RowEvidence> {
    seq(12, i requires 0 <= i < 12 => UnavailableRow(i))
  }

  function Read(engine: Option<Engine>, page: Page): Option<Reading> {
    if !page.aligned
    then Some(Reading(UnavailableField(IdField, None), UnavailableField(RoomField, None), UnavailableRows(),
                      [Warning(PreprocessingNeedsReview, Error, Pipeline, None),
                       Warning(PreprocessingReason, Error, Pipeline, None)]))
    else if engine.None?
    then Some(Reading(UnavailableField(IdField, None), UnavailableField(RoomField, None), UnavailableRows(), []))
    else
      var rows := RecognizeRows(engine.value, page.rows, 12);
      if rows.None? then None
      else Some(Reading(RecognizeId(engine.value.policy, page.idCells), RecognizeRoom(engine.value.policy, page.roomCells),
                        rows.value, []))
  }

  function Assemble(context: Context, reading: Reading, now: nat): Outcome {
    match Validated(reading.idField, reading.room, reading.rows)
    case DuplicateRows => Failed(ConstructorRaised)
    case Ok(page) =>
      var result := Snapshot(context.documentId, context.pageIndex, 1, page.outcome, reading.idField, reading.room,
                             page.items, reading.extra + page.warnings, now, context.serviceDate);
      if !SnapshotOk(result) then Failed(ConstructorRaised)
      else if !CallbackOk(FromResult(result)) then Failed(ConstructorRaised)
      else Processed(result, FromResult(result))
  }

  function Guard(job: Job, context: Context, bundle: nat): Option<Failure> {
    if context.documentId != job.documentId then Some(DocumentMismatch)
    else if context.bundle != job.bundle then Some(BundleMismatch)
    else if bundle != job.bundle then Some(BundleMismatch)
    else if context.serviceDate.None? then Some(ServiceDateMissing)
    else None
  }

  function Process(engine: Option<Engine>, bundle: nat, job: Job, context: Context, page: Page, now: nat): Outcome {
    var refused := Guard(job, context, bundle);
    if refused.Some? then Failed(refused.value)
    else
      var reading := Read(engine, page);
      if reading.None? then Failed(RecognitionRaised) else Assemble(context, reading.value, now)
  }

  /** PageProcessor._recognize, with what stands in for it when there is nothing to recognise. */
  method ReadPage(engine: Option<Engine>, page: Page) returns (r: Option<Reading>)
    ensures r == Read(engine, page)
  {
    var idField, room := UnavailableField(IdField, None), UnavailableField(RoomField, None);
    if !page.aligned {
      var extra := [Warning(PreprocessingNeedsReview, Error, Pipeline, None),
                    Warning(PreprocessingReason, Error, Pipeline, None)];
      return Some(Reading(idField, room, UnavailableRows(), extra));
    }
    if engine.None? {
      return Some(Reading(idField, room, UnavailableRows(), []));
    }
    idField := RecognizeFixedCells(engine.value.policy, IdField, IdFamily, page.idCells, true, 6);
    room := RecognizeRoom(engine.value.policy, page.roomCells);
    var rows := [];
    for row := 0 to 12
      invariant RecognizeRows(engine.value, page.rows, row) == Some(rows)
    {
      var evidence := RecognizeRow(engine.value, row, page.rows[row]);
      if evidence.None? {
        RefusalStays(engine.value, page.rows, row + 1);
        return None;
      }
      rows := rows + [evidence.value];
    }
    return Some(Reading(idField, room, rows, []));
  }

  /** PageProcessor.process. */
  method ProcessPage(engine: Option<Engine>, bundle: nat, job: Job, context: Context, page: Page, now: nat)
    returns (r: Outcome)
    ensures r == Process(engine, bundle, job, context, page, now)
  {
    var refused := Guard(job, context, bundle);
    if refused.Some? {
      return Failed(refused.value);
    }
    var read := ReadPage(engine, page);
    if read.None? {
      return Failed(RecognitionRaised);
    }
    var idField, room := read.value.idField, read.value.room;
    var validation := ValidatePage(idField, room, read.value.rows);
    if validation.DuplicateRows? {
      return Failed(ConstructorRaised);
    }
    var result := Snapshot(context.documentId, context.pageIndex, 1, validation.page.outcome, idField, room,
                           validation.page.items, read.value.extra + validation.page.warnings, now, context.serviceDate);
    if !SnapshotOk(result) || !CallbackOk(FromResult(result)) {
      return Failed(ConstructorRaised);
    }
    return Processed(result, FromResult(result));
  }

  lemma {:induction false} RefusalStays(e: Engine, inputs: seq<RowInput>, n: nat)
    requires n <= |inputs| && RecognizeRows(e, inputs, n).None?
    ensures RecognizeRows(e, inputs, |inputs|).None?
    decreases |inputs| - n
  {
    if n < |inputs| {
      RefusalStays(e, inputs, n + 1);
    }
  }

  // --------------------------------------------------------------------- what recognition yields

  /** Every row reaching validation. */
  ghost predicate RowSound(r: RowEvidence) {
    && EvidenceOk(r) && FieldOk(r.item) && FieldOk(r.quantity)
    && CodesOk(r.item.candidates) && CodesOk(r.quantity.candidates)
    && !r.item.value.Number? && !r.quantity.value.Text?
    && (r.itemId.Some? <==> r.item.value.Text?)
    && (r.itemId.Some? ==> IsCode(r.itemId.value) && !Blank(r.item.value.text))
    && (r.quantity.value.Number? ==> r.quantity.value.number > 0)
    && (r.blank != BlankRow && r.item.value.NoValue? ==> HasError(r.item.warnings))
    && (r.blank == BlankRow ==> r.item.value.NoValue? && r.quantity.value.NoValue?)
  }

  lemma UnavailableRowIsSound(row: nat)
    requires row <= 11
    ensures RowSound(UnavailableRow(row)) && HasError(UnavailableRow(row).item.warnings)
  {
    assert UnavailableRow(row).item.warnings[0].severity == Error;
  }

  /** How recognition treats one row of an aligned page. */
  ghost predicate RowRead(e: Engine, row: nat, input: RowInput, r: RowEvidence) {
    && RowSound(r) && r.row == row
    && (Skipped(r) ==> input.blank == BlankRow)
    && (!Skipped(r) && CleanRow(r) ==>
          && input.item.Some? && input.quantity.Some? && input.blank == Present
          && r.itemId.Some? && InCatalogue(e.catalogue, r.itemId.value, r.item.value.text)
          && input.quantity.value != []
          && AsciiDigits(Shown(input.quantity.value))
          && r.quantity.value == Number(ParseNat(Shown(input.quantity.value)))
          && 1 <= r.quantity.value.number <= e.policy.quantityMax)
  }

  /** A row whose quantity recognition reaches int() with too many digits. */
  predicate RowOverlong(input: RowInput) {
    input.item.Some? && input.quantity.Some? && input.blank != BlankRow && Overlong(input.quantity.value)
  }

  predicate NoneOverlong(inputs: seq<RowInput>) {
    forall i | 0 <= i < |inputs| :: !RowOverlong(inputs[i])
  }

  lemma RowIsRead(e: Engine, row: nat, input: RowInput)
    requires ValidCatalogue(e.catalogue) && row <= 11
    ensures RecognizeRow(e, row, input).Some? <==> !RowOverlong(input)
    ensures RecognizeRow(e, row, input).Some? ==> RowRead(e, row, input, RecognizeRow(e, row, input).value)
  {
    if input.item.None? || input.quantity.None? {
      UnavailableRowIsSound(row);
    } else if input.blank != BlankRow {
      ItemRecognitionIsSound(e.policy, e.catalogue, input.item.value, row);
      QuantityReadExactlyWhen(e.policy, input.quantity.value, row);
    }
  }

  lemma {:induction false} RowsAreRead(e: Engine, inputs: seq<RowInput>, n: nat)
    requires ValidCatalogue(e.catalogue) && n <= |inputs| <= 12
    ensures var rows := RecognizeRows(e, inputs, n);
            && (rows.Some? <==> forall i | 0 <= i < n :: !RowOverlong(inputs[i]))
            && (rows.Some? ==>
                  && |rows.value| == n
                  && (forall i | 0 <= i < n :: RowRead(e, i, inputs[i], rows.value[i])))
  {
    hide RowOverlong, RowRead, RecognizeRow;
    if n > 0 {
      RowsAreRead(e, inputs, n - 1);
      RowIsRead(e, n - 1, inputs[n - 1]);
    }
  }

  // -------------------------------------------------------------------- constructors never raise

  ghost predicate RowsSound(rows: seq<RowEvidence>) {
    |rows| == 12 && forall i | 0 <= i < |rows| :: RowSound(rows[i]) && rows[i].row == i
  }

  ghost predicate ReadingSound(r: Reading) {
    && RowsSound(r.rows)
    && r.idField.id == IdField && r.room.id == RoomField
    && FieldOk(r.idField) && FieldOk(r.room) && CodesOk(r.idField.candidates) && CodesOk(r.room.candidates)
    && (r.idField.value.NoValue? || (r.idField.value.Text? && |r.idField.value.text| == 6 && AsciiDigits(r.idField.value.text)))
    && (r.room.value.NoValue? || (r.room.value.Text? && AsciiAlphanumeric(r.room.value.text)))
    && (r.extra != [] ==> HasError(r.idField.warnings))
  }

  lemma UnavailableIsSound(field: FieldId)
    ensures var f := UnavailableField(field, None);
            FieldOk(f) && CodesOk(f.candidates) && HasError(f.warnings) && f.value.NoValue? && f.id == field
  {
    assert UnavailableField(field, None).warnings[0].severity == Error;
  }

  /** Recognition raises exactly on an overlong quantity; otherwise every field and row handed on
      is well formed. */
  lemma ReadingIsSound(engine: Option<Engine>, page: Page)
    requires engine.Some? ==> ValidCatalogue(engine.value.catalogue)
    ensures Read(engine, page).None? <==> page.aligned && engine.Some? && !NoneOverlong(page.rows)
    ensures Read(engine, page).Some? ==> ReadingSound(Read(engine, page).value)
  {
    hide RowSound, FieldOk, CodesOk, HasError, AsciiDigits, AsciiAlphanumeric, RecognizeId, RecognizeRoom, RecognizeRows,
         RowOverlong;
    if page.aligned && engine.Some? {
      RowsAreRead(engine.value, page.rows, 12);
      ReadRowsAreSound(engine.value, page.rows);
      HeadersAreSound(engine.value.policy, page);
    } else {
      UnavailableIsSound(IdField);
      UnavailableIsSound(RoomField);
      forall i: nat | i < 12 ensures RowSound(UnavailableRow(i)) {
        UnavailableRowIsSound(i);
      }
    }
  }

  lemma ReadRowsAreSound(e: Engine, inputs: seq<RowInput>)
    requires ValidCatalogue(e.catalogue) && |inputs| == 12
    ensures RecognizeRows(e, inputs, 12).Some? ==> RowsSound(RecognizeRows(e, inputs, 12).value)
  {
    RowsAreRead(e, inputs, 12);
    hide RecognizeRows, RowSound;
    if RecognizeRows(e, inputs, 12).Some? {
      var rows := RecognizeRows(e, inputs, 12).value;
      forall i | 0 <= i < 12 ensures RowSound(rows[i]) && rows[i].row == i {
        assert RowRead(e, i, inputs[i], rows[i]);
      }
    }
  }

  lemma HeadersAreSound(p: Policy, page: Page)
    ensures var id, room := RecognizeId(p, page.idCells), RecognizeRoom(p, page.roomCells);
            && id.id == IdField && room.id == RoomField
            && FieldOk(id) && FieldOk(room) && CodesOk(id.candidates) && CodesOk(room.candidates)
            && (id.value.NoValue? || (id.value.Text? && |id.value.text| == 6 && AsciiDigits(id.value.text)))
            && (room.value.NoValue? || (room.value.Text? && AsciiAlphanumeric(room.value.text)))
  {
    IdReadExactlyWhen(p, page.idCells);
    RoomReadExactlyWhen(p, page.roomCells);
    hide RecognizeId, RecognizeRoom;
  }

  lemma RowsAreUnique(rows: seq<RowEvidence>)
    requires RowsSound(rows)
    ensures UniqueRows(rows)
  {
  }

  lemma ReportedRowIsWellFormed(r: RowEvidence, i: ItemResult)
    requires RowSound(r) && Reports(i, r)
    ensures FixedRow(i) && FieldOk(i.item) && FieldOk(i.quantity)
    ensures i.itemId.Some? ==> IsCode(i.itemId.value)
    ensures CodesOk(i.item.candidates) && CodesOk(i.quantity.candidates)
  {
  }

  ghost predicate PageOk(reading: Reading, page: PageValidation) {
    && |page.items| <= 12
    && (forall i, j | 0 <= i < j < |page.items| :: page.items[i].row != page.items[j].row)
    && (forall i | 0 <= i < |page.items| ::
          && FixedRow(page.items[i]) && FieldOk(page.items[i].item) && FieldOk(page.items[i].quantity)
          && (page.items[i].itemId.Some? ==> IsCode(page.items[i].itemId.value))
          && CodesOk(page.items[i].item.candidates) && CodesOk(page.items[i].quantity.candidates)
          && (page.outcome == Accepted ==> AcceptedRow(page.items[i])))
    && (page.outcome == Accepted ==>
          && reading.idField.value.Text? && reading.room.value.Text? && reading.extra == []
          && !HasError(reading.idField.warnings) && !HasError(reading.room.warnings) && !HasError(page.warnings))
  }

  lemma {:induction false} FewRows(items: seq<ItemResult>, bound: nat)
    requires forall i, j | 0 <= i < j < |items| :: items[i].row < items[j].row
    requires forall i | 0 <= i < |items| :: items[i].row < bound
    ensures |items| <= bound
  {
    if items != [] {
      FewRows(items[..|items| - 1], items[|items| - 1].row);
    }
  }

  lemma ValidatedIsOk(reading: Reading)
    requires ReadingSound(reading)
    ensures Validated(reading.idField, reading.room, reading.rows).Ok?
    ensures PageOk(reading, Validated(reading.idField, reading.room, reading.rows).page)
  {
    var rows := reading.rows;
    RowsAreUnique(rows);
    ValidationInventsNothing(reading.idField, reading.room, rows);
    AcceptedExactlyWhen(reading.idField, reading.room, rows);
    var page := Validated(reading.idField, reading.room, rows).page;
    hide Validated, Reports, RowSound, CleanRow, Skipped, FixedRow, AcceptedRow, FieldOk, CodesOk, HasError;
    forall i | 0 <= i < |page.items|
      ensures FixedRow(page.items[i]) && FieldOk(page.items[i].item) && FieldOk(page.items[i].quantity)
      ensures page.items[i].itemId.Some? ==> IsCode(page.items[i].itemId.value)
      ensures CodesOk(page.items[i].item.candidates) && CodesOk(page.items[i].quantity.candidates)
      ensures page.outcome == Accepted ==> AcceptedRow(page.items[i])
      ensures page.items[i].row < 12 {
      assert ReportedBy(page.items[i], rows);
      var k :| 0 <= k < |rows| && !Skipped(rows[k]) && Reports(page.items[i], rows[k]);
      ReportedRowIsWellFormed(rows[k], page.items[i]);
      FixedRowIsLow(page.items[i]);
    }
    FewRows(page.items, 12);
  }

  lemma FixedRowIsLow(i: ItemResult)
    requires FixedRow(i)
    ensures i.row < 12
  {
  }

  /** Whatever the backend returned and whatever valid policy is configured, a page whose job and
      context agree fails exactly when a quantity reading has too many digits for int(); no
      constructor ever raises. */
  lemma ProcessingNeverBreaks(engine: Option<Engine>, bundle: nat, job: Job, context: Context, page: Page, now: nat)
    requires engine.Some? ==> ValidCatalogue(engine.value.catalogue)
    requires Guard(job, context, bundle).None?
    ensures var outcome := Process(engine, bundle, job, context, page, now);
            && (outcome.Processed? <==> !(page.aligned && engine.Some? && !NoneOverlong(page.rows)))
            && (outcome.Failed? ==> outcome.why == RecognitionRaised)
  {
    ReadingIsSound(engine, page);
    if Read(engine, page).Some? {
      var reading := Read(engine, page).value;
      ShortRoom(engine, page);
      ValidatedIsOk(reading);
      hide Validated, Read, ReadingSound, AcceptedRow, FixedRow, FieldOk;
      AssembledIsOk(context, reading, now);
    }
  }

  const BLANK_INPUT := RowInput(Some([]), Some([]), BlankRow)
  const LONG_INPUT := RowInput(Some([]), Some(LONG_QUANTITY), Present)
  const LONG_PAGE := Page(true, [], [], [LONG_INPUT] + seq(11, _ => BLANK_INPUT))

  /** One row whose quantity reads as 4301 digits, all others blank: the job fails. */
  lemma LongNumberFailsTheJob(e: Engine, bundle: nat, job: Job, context: Context, now: nat)
    requires ValidCatalogue(e.catalogue) && Guard(job, context, bundle).None?
    ensures Process(Some(e), bundle, job, context, LONG_PAGE, now) == Failed(RecognitionRaised)
  {
    LongNumberRaises(e.policy, 0);
    hide Process, Guard, Overlong;
    assert LONG_PAGE.rows[0] == LONG_INPUT;
    assert RowOverlong(LONG_PAGE.rows[0]);
    ProcessingNeverBreaks(Some(e), bundle, job, context, LONG_PAGE, now);
  }

  lemma ShortRoom(engine: Option<Engine>, page: Page)
    requires engine.Some? ==> ValidCatalogue(engine.value.catalogue)
    requires Read(engine, page).Some?
    ensures var room := Read(engine, page).value.room;
            room.value.Text? ==> 1 <= |room.value.text| <= 4
  {
    if page.aligned && engine.Some? {
      RoomReadExactlyWhen(engine.value.policy, page.roomCells);
    }
  }

  lemma AssembledIsOk(context: Context, reading: Reading, now: nat)
    requires ReadingSound(reading) && context.serviceDate.Some?
    requires Validated(reading.idField, reading.room, reading.rows).Ok?
    requires PageOk(reading, Validated(reading.idField, reading.room, reading.rows).page)
    requires reading.room.value.Text? ==> 1 <= |reading.room.value.text| <= 4
    ensures Assemble(context, reading, now).Processed?
  {
  }

  // -------------------------------------------------------------------- what acceptance means

  ghost predicate LineOf(e: Engine, row: nat, input: RowInput, i: ItemResult) {
    && i.row == row && input.blank == Present && input.quantity.Some? && input.quantity.value != []
    && i.itemId.Some? && i.item.value.Text? && InCatalogue(e.catalogue, i.itemId.value, i.item.value.text)
    && AsciiDigits(Shown(input.quantity.value))
    && i.quantity.value == Number(ParseNat(Shown(input.quantity.value)))
    && 1 <= i.quantity.value.number <= e.policy.quantityMax
  }

  /** A header text is what the cells show, one character each. */
  ghost predicate Shows(text: string, cells: seq<Cell>) {
    |text| <= |cells| && forall i | 0 <= i < |text| :: cells[i] != [] && [text[i]] == Shown(cells[i])
  }

  ghost predicate Listed(e: Engine, row: nat, input: RowInput, items: seq<ItemResult>) {
    exists k :: 0 <= k < |items| && LineOf(e, row, input, items[k])
  }

  ghost predicate FromRow(e: Engine, page: Page, i: ItemResult) {
    i.row < 12 && LineOf(e, i.row, page.rows[i.row], i)
  }

  /** An accepted result is the form: the identifier is the six digits shown, the room is the one
      to four letters or digits shown before the first blank, each row is either classified blank
      or listed once with a catalogue item and exactly the quantity written, and nothing else is
      listed. */
  lemma AcceptedIsTheForm(e: Engine, bundle: nat, job: Job, context: Context, page: Page, now: nat)
    requires ValidCatalogue(e.catalogue)
    requires Process(Some(e), bundle, job, context, page, now).Processed?
    requires Process(Some(e), bundle, job, context, page, now).result.outcome == Accepted
    ensures var result := Process(Some(e), bundle, job, context, page, now).result;
            && page.aligned && e.policy.autoAccept
            && HeaderShown(result.idField, page.idCells, true) && |result.idField.value.text| == 6
            && HeaderShown(result.room, page.roomCells, false) && 1 <= |result.room.value.text| <= 4
            && (forall row | 0 <= row < 12 && page.rows[row].blank != BlankRow ::
                  Listed(e, row, page.rows[row], result.items))
            && (forall k | 0 <= k < |result.items| :: FromRow(e, page, result.items[k]))
            && (forall i, j | 0 <= i < j < |result.items| :: result.items[i].row < result.items[j].row)
  {
    ReadingIsSound(Some(e), page);
    var reading := Read(Some(e), page).value;
    RowsAreUnique(reading.rows);
    AcceptedExactlyWhen(reading.idField, reading.room, reading.rows);
    ValidationInventsNothing(reading.idField, reading.room, reading.rows);
    AcceptedHeaders(e, page);
    AcceptedRowsAreLines(e, page, reading);
    hide Validated, RecognizeId, RecognizeRoom, CleanRow, HasError, FieldOk, CodesOk, AcceptedRow, FixedRow, HeaderShown;
  }

  ghost predicate HeaderShown(f: FieldResult, cells: seq<Cell>, digitsOnly: bool) {
    && f.value.Text? && Shows(f.value.text, cells)
    && Shaped(digitsOnly, cells, |f.value.text|)
  }

  lemma AcceptedHeaders(e: Engine, page: Page)
    requires ValidCatalogue(e.catalogue) && Read(Some(e), page).Some?
    requires var reading := Read(Some(e), page).value;
             && reading.idField.value.Text? && !HasError(reading.idField.warnings) && reading.room.value.Text?
    ensures page.aligned && e.policy.autoAccept
    ensures var reading := Read(Some(e), page).value;
            && HeaderShown(reading.idField, page.idCells, true) && |reading.idField.value.text| == 6
            && HeaderShown(reading.room, page.roomCells, false) && 1 <= |reading.room.value.text| <= 4
  {
    IdReadExactlyWhen(e.policy, page.idCells);
    RoomReadExactlyWhen(e.policy, page.roomCells);
    UnapprovedIsAnError(e.policy, IdField);
    if page.aligned {
      HeaderIsShown(e.policy, true, page.idCells, 6, RecognizeId(e.policy, page.idCells));
      HeaderIsShown(e.policy, false, page.roomCells, e.policy.roomMax, RecognizeRoom(e.policy, page.roomCells));
    }
    hide RecognizeId, RecognizeRoom, RecognizeRows, HeaderShown, HasError, Unapproved;
  }

  lemma HeaderIsShown(p: Policy, digitsOnly: bool, cells: seq<Cell>, expected: nat, r: FieldResult)
    requires HeaderSound(p, digitsOnly, cells, expected, r)
    ensures r.value.Text? ==> HeaderShown(r, cells, digitsOnly) && r.warnings == Unapproved(p, r.id)
  {
    hide FieldOk, CodesOk, HasError, Unapproved;
  }

  lemma AcceptedRowsAreLines(e: Engine, page: Page, reading: Reading)
    requires ValidCatalogue(e.catalogue) && page.aligned && Read(Some(e), page) == Some(reading)
    requires RowsSound(reading.rows) && forall k | 0 <= k < 12 :: CleanRow(reading.rows[k])
    ensures Validated(reading.idField, reading.room, reading.rows).Ok?
    ensures var items := Validated(reading.idField, reading.room, reading.rows).page.items;
            && (forall row | 0 <= row < 12 && page.rows[row].blank != BlankRow :: Listed(e, row, page.rows[row], items))
            && (forall k | 0 <= k < |items| :: FromRow(e, page, items[k]))
  {
    hide RecognizeId, RecognizeRoom, Validated, CleanRow;
    RowsAreUnique(reading.rows);
    ValidationInventsNothing(reading.idField, reading.room, reading.rows);
    var items := Validated(reading.idField, reading.room, reading.rows).page.items;
    RowsAreRead(e, page.rows, 12);
    hide RecognizeRows, RowOverlong, RowsSound, LineOf, Read, RowRead, Skipped;
    forall row | 0 <= row < 12 && page.rows[row].blank != BlankRow ensures Listed(e, row, page.rows[row], items) {
      assert RowRead(e, row, page.rows[row], reading.rows[row]);
      RowGivesLine(e, row, page.rows[row], reading.rows[row]);
      assert Kept(reading.rows[row], items);
      var k :| 0 <= k < |items| && Reports(items[k], reading.rows[row]);
      LineIsReported(e, row, page.rows[row], reading.rows[row], items[k]);
    }
    forall k | 0 <= k < |items| ensures FromRow(e, page, items[k]) {
      assert ReportedBy(items[k], reading.rows);
      var row :| 0 <= row < |reading.rows| && !Skipped(reading.rows[row]) && Reports(items[k], reading.rows[row]);
      assert RowRead(e, row, page.rows[row], reading.rows[row]);
      LineIsReported(e, row, page.rows[row], reading.rows[row], items[k]);
    }
  }

  lemma RowGivesLine(e: Engine, row: nat, input: RowInput, r: RowEvidence)
    requires RowRead(e, row, input, r) && input.blank != BlankRow
    ensures !Skipped(r)
  {
  }

  lemma LineIsReported(e: Engine, row: nat, input: RowInput, r: RowEvidence, i: ItemResult)
    requires RowRead(e, row, input, r) && !Skipped(r) && CleanRow(r) && Reports(i, r)
    ensures LineOf(e, row, input, i) && i.row == row
  {
    hide CleanRow;
  }
}
