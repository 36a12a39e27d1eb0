/** Result records (contracts.py). */
module Contracts {
  // The frozen records of the scanner and what their constructors demand.  Field identifiers are a
  // datatype instead of text such as "items.3.item".  A constructor that raises is a predicate
  // here; whoever builds a record must establish it.

  datatype Option<+T> = None | Some(value: T)

  // ------------------------------------------------------------------------------------- text

  /** str.isspace, by code point. */
  predicate IsSpace(c: char) {
    var n := c as int;
    9 <= n <= 13 || 28 <= n <= 32 || n == 133 || n == 160 || n == 5760 || 8192 <= n <= 8202
    || n == 8232 || n == 8233 || n == 8239 || n == 8287 || n == 12288
  }

  function StripLeft(s: string): (r: string)
    ensures |r| <= |s|
  {
    if s != "" && IsSpace(s[0]) then StripLeft(s[1..]) else s
  }

  function StripRight(s: string): (r: string)
    ensures |r| <= |s|
  {
    if s != "" && IsSpace(s[|s| - 1]) then StripRight(s[..|s| - 1]) else s
  }

  function Strip(s: string): string {
    StripRight(StripLeft(s))
  }

  predicate Blank(s: string) {
    Strip(s) == ""
  }

  predicate IsDigit(c: char) {
    '0' <= c <= '9'
  }

  predicate IsAlphanumeric(c: char) {
    IsDigit(c) || 'a' <= c <= 'z' || 'A' <= c <= 'Z'
  }

  /** isascii() and isdecimal(). */
  predicate AsciiDigits(s: string) {
    s != "" && forall i | 0 <= i < |s| :: IsDigit(s[i])
  }

  /** isascii() and isalnum(). */
  predicate AsciiAlphanumeric(s: string) {
    s != "" && forall i | 0 <= i < |s| :: IsAlphanumeric(s[i])
  }

  // ---------------------------------------------------------------------------------- records

  datatype FieldId = IdField | RoomField | ItemField(row: nat) | QuantityField(row: nat) | RowField(row: nat) | Pipeline

  datatype Severity = Info | Caution | Error

  datatype Code =
    | CellCount | CellMissing | CellInvalid | ValueMissing | RecognitionUnapproved | RoomInvalid
    | QuantityMissing | QuantityNotDigits | QuantityOutOfRange
    | CatalogueUnconfigured | ItemUnrecognized | ItemNeedsReview
    | BlankRowUncertain | BlankRowHasContent | PairIncomplete | CatalogueItemUnresolved
    | RecognitionUnavailable | PreprocessingNeedsReview | PreprocessingReason

  datatype Warning = Warning(code: Code, severity: Severity, field: FieldId, row: Option<nat>)

  datatype Value = NoValue | Text(text: string) | Number(number: int)

  datatype Candidate = Candidate(value: string, confidence: real, itemId: Option<string>)

  datatype FieldResult = FieldResult(
    id: FieldId, value: Value, raw: Option<string>, confidence: Option<real>,
    warnings: seq<Warning>, candidates: seq<Candidate>)

  datatype ItemResult = ItemResult(row: nat, item: FieldResult, quantity: FieldResult, itemId: Option<string>)

  datatype Outcome = Accepted | NeedsReview

  datatype Snapshot = Snapshot(
    documentId: nat, pageIndex: nat, revision: nat, outcome: Outcome, idField: FieldResult, room: FieldResult,
    items: seq<ItemResult>, warnings: seq<Warning>, completedAt: nat, serviceDate: Option<nat>)

  datatype EventId = EventId(documentId: nat, revision: nat)
  datatype Callback = Callback(eventId: EventId, key: EventId, occurredAt: nat, result: Snapshot)

  predicate IsConfidence(x: real) {
    0.0 <= x <= 1.0
  }

  predicate CandidateOk(c: Candidate) {
    c.value != "" && IsConfidence(c.confidence)
  }

  ghost predicate FieldOk(f: FieldResult) {
    && (f.confidence.Some? ==> IsConfidence(f.confidence.value))
    && (forall i | 0 <= i < |f.candidates| :: CandidateOk(f.candidates[i]))
  }

  predicate HasError(ws: seq<Warning>) {
    exists i | 0 <= i < |ws| :: ws[i].severity == Error
  }

  predicate ItemPresent(f: FieldResult) {
    f.value.Text? && !Blank(f.value.text)
  }

  predicate QuantityPresent(f: FieldResult) {
    f.value.Number?
  }

  predicate FixedRow(i: ItemResult) {
    i.row <= 11 && i.item.id == ItemField(i.row) && i.quantity.id == QuantityField(i.row)
  }

  predicate AcceptedRow(i: ItemResult) {
    && i.itemId.Some? && i.itemId.value != ""
    && ItemPresent(i.item)
    && i.quantity.value.Number? && i.quantity.value.number > 0
    && !HasError(i.item.warnings) && !HasError(i.quantity.warnings)
  }

  predicate AcceptedHead(s: Snapshot) {
    && s.idField.value.Text? && |s.idField.value.text| == 6 && AsciiDigits(s.idField.value.text)
    && s.room.value.Text? && 1 <= |s.room.value.text| <= 4 && AsciiAlphanumeric(s.room.value.text)
    && !HasError(s.warnings) && !HasError(s.idField.warnings) && !HasError(s.room.warnings)
  }

  /** ResultSnapshot.__post_init__. */
  predicate SnapshotOk(s: Snapshot) {
    && s.revision >= 1
    && s.idField.id == IdField && s.room.id == RoomField
    && |s.items| <= 12
    && (forall i, j | 0 <= i < j < |s.items| :: s.items[i].row != s.items[j].row)
    && (forall i | 0 <= i < |s.items| :: FixedRow(s.items[i]))
    && (s.outcome == Accepted ==> AcceptedHead(s) && forall i | 0 <= i < |s.items| :: AcceptedRow(s.items[i]))
  }

  /** A three-digit manager menu code. */
  predicate IsCode(s: string) {
    |s| == 3 && AsciiDigits(s)
  }

  predicate CodesOk(cs: seq<Candidate>) {
    forall i | 0 <= i < |cs| :: cs[i].itemId.Some? ==> IsCode(cs[i].itemId.value)
  }

  /** CallbackEvent.__post_init__. */
  predicate CallbackOk(c: Callback) {
    && c.eventId == EventId(c.result.documentId, c.result.revision)
    && c.key == EventId(c.result.documentId, c.result.revision)
    && c.occurredAt == c.result.completedAt
    && c.result.serviceDate.Some?
    && (forall i | 0 <= i < |c.result.items| ::
          && (c.result.items[i].itemId.Some? ==> IsCode(c.result.items[i].itemId.value))
          && CodesOk(c.result.items[i].item.candidates) && CodesOk(c.result.items[i].quantity.candidates))
    && CodesOk(c.result.idField.candidates) && CodesOk(c.result.room.candidates)
  }

  /** CallbackEvent.from_result. */
  function FromResult(s: Snapshot): Callback {
    Callback(EventId(s.documentId, s.revision), EventId(s.documentId, s.revision), s.completedAt, s)
  }

  // ------------------------------------------------------------------------------ text facts

  lemma {:induction false} StripRightEnds(s: string)
    ensures StripRight(s) != "" ==> !IsSpace(StripRight(s)[|StripRight(s)| - 1])
    ensures StripRight(s) <= s
  {
    if s != "" && IsSpace(s[|s| - 1]) {
      StripRightEnds(s[..|s| - 1]);
    }
  }

  lemma {:induction false} StripLeftStarts(s: string)
    ensures StripLeft(s) != "" ==> !IsSpace(StripLeft(s)[0])
  {
    if s != "" && IsSpace(s[0]) {
      StripLeftStarts(s[1..]);
    }
  }

  /** Stripped text neither starts nor ends with a space, and stripping again changes nothing. */
  lemma StripIsFinal(s: string)
    ensures Strip(s) != "" ==> !IsSpace(Strip(s)[0]) && !IsSpace(Strip(s)[|Strip(s)| - 1])
    ensures Strip(Strip(s)) == Strip(s)
  {
    StripLeftStarts(s);
    StripRightEnds(StripLeft(s));
  }

}
