/** Form tokens and their sheets. */
module IssuedForms {
  // After scan-processor.service.ts, omr-forms.service.ts and verify.service.ts.  A token and a
  // sheet id are positions in insertion order, which stand for fresh UUIDs.  Every transaction
  // locks the form before the sheet and is one atomic step.  What image recognition, rosters,
  // limits and balances decide is a parameter of the step.  Sheets are processed one after the
  // other, so a sheet that is being resolved is still in processing.

  type User = nat
  type Date = nat
  type Template = nat
  type Token = nat
  type SheetId = nat
  type OrderId = nat

  datatype Option<+T> = None | Some(value: T)

  datatype FormStatus = Issued | Consumed | Void
  datatype VoidReason = Reissued | ChecksumConflict

  datatype Form = Form(
    user: User, date: Date, template: Option<Template>, status: FormStatus, reason: Option<VoidReason>,
    reserved: Option<SheetId>, consumedBy: Option<SheetId>)

  datatype SheetStatus = Pending | Processing | Flagged | Rejected | Verified

  datatype Code =
    | TokenNotFound | TokenVoid | TokenConsumed | DateMismatch | TemplateMismatch | UserInactive
    | TokenConflict | RetryExhausted | Unreadable
    | AlreadyConsumed | FormVoid | ReservationConflict

  datatype Sheet = Sheet(
    date: Date, status: SheetStatus, form: Option<Token>, attempts: nat, order: Option<OrderId>, code: Option<Code>)

  datatype Desk = Desk(forms: seq<Form>, sheets: seq<Sheet>)

  datatype Outcome = Done | Refused(why: Refusal)
  datatype Refusal = InvalidBatch | RosterChanged | NotFound | NotAwaiting | Inactive | UnknownItem | Conflict(code: Code) | OrderRefused

  const MAX_OMR_BATCH_SIZE := 50
  const MAX_PROCESSING_ATTEMPTS := 3

  // ------------------------------------------------------------------------------------ issuing

  predicate AllDifferent(users: seq<User>) {
    forall i, j | 0 <= i < j < |users| :: users[i] != users[j]
  }

  predicate Predecessor(f: Form, users: seq<User>, date: Date) {
    f.user in users && f.date == date && f.status == Issued
  }

  function VoidPredecessors(forms: seq<Form>, users: seq<User>, date: Date): seq<Form> {
    seq(|forms|, i requires 0 <= i < |forms| =>
      if Predecessor(forms[i], users, date)
      then forms[i].(status := Void, reason := Some(Reissued))
      else forms[i])
  }

  function NewForms(users: seq<User>, date: Date, template: Template): seq<Form> {
    seq(|users|, i requires 0 <= i < |users| => Form(users[i], date, Some(template), Issued, None, None, None))
  }

  function Commit(d: Desk, users: seq<User>, date: Date, template: Template, rosterOk: bool): (Desk, Outcome) {
    if users == [] || |users| > MAX_OMR_BATCH_SIZE || !AllDifferent(users) then (d, Refused(InvalidBatch))
    else if !rosterOk then (d, Refused(RosterChanged))
    else (d.(forms := VoidPredecessors(d.forms, users, date) + NewForms(users, date, template)), Done)
  }

  // ---------------------------------------------------------------------------------- resolving

  function InvalidFlag(f: Option<Form>, ownerActive: bool, sheet: Sheet, template: Template): Option<Code> {
    match f
    case None => Some(TokenNotFound)
    case Some(form) =>
      if form.status == Void then Some(TokenVoid)
      else if form.status == Consumed then Some(TokenConsumed)
      else if form.date != sheet.date then Some(DateMismatch)
      else if form.template != Some(template) then Some(TemplateMismatch)
      else if !ownerActive then Some(UserInactive)
      else None
  }

  function RejectSheet(s: Sheet, code: Code): Sheet {
    s.(status := Rejected, order := None, code := Some(code))
  }

  function RejectCandidates(sheets: seq<Sheet>, token: Token, s: SheetId): seq<Sheet> {
    seq(|sheets|, i requires 0 <= i < |sheets| =>
      if i == s || sheets[i].form == Some(token)
      then RejectSheet(sheets[i].(form := if sheets[i].form.None? then Some(token) else sheets[i].form), TokenConflict)
      else sheets[i])
  }

  predicate InProcessing(d: Desk, s: SheetId) {
    s < |d.sheets| && d.sheets[s].status == Processing
  }

  function Resolve(d: Desk, s: SheetId, token: Token, template: Template, ownerActive: bool): Desk {
    if !InProcessing(d, s) then d
    else
      var sheet := d.sheets[s];
      var form := if token < |d.forms| then Some(d.forms[token]) else None;
      var invalid := InvalidFlag(form, ownerActive, sheet, template);
      if invalid.Some? then d.(sheets := d.sheets[s := RejectSheet(sheet, invalid.value)])
      else if form.value.reserved.Some? && form.value.reserved != Some(s)
      then Desk(d.forms[token := form.value.(status := Void, reason := Some(ChecksumConflict))],
                RejectCandidates(d.sheets, token, s))
      else Desk(d.forms[token := form.value.(reserved := Some(s))],
                d.sheets[s := sheet.(status := Flagged, form := Some(token))])
  }

  /** The rest of processSheet: the status guard, a rejection, and the bounded retry. */
  function Begin(d: Desk, s: SheetId): Desk {
    if s < |d.sheets| && (d.sheets[s].status == Pending || d.sheets[s].status == Processing)
    then d.(sheets := d.sheets[s := d.sheets[s].(status := Processing)])
    else d
  }

  function Unusable(d: Desk, s: SheetId): Desk {
    if InProcessing(d, s) then d.(sheets := d.sheets[s := d.sheets[s].(status := Rejected, code := Some(Unreadable))]) else d
  }

  function Retry(d: Desk, s: SheetId): Desk {
    if !InProcessing(d, s) then d
    else
      var sheet := d.sheets[s].(attempts := d.sheets[s].attempts + 1);
      if sheet.attempts >= MAX_PROCESSING_ATTEMPTS
      then d.(sheets := d.sheets[s := sheet.(status := Rejected, code := Some(RetryExhausted))])
      else d.(sheets := d.sheets[s := sheet.(status := Pending)])
  }

  /** A generic form carries no token. */
  function ResolveGeneric(d: Desk, s: SheetId, usable: bool): Desk {
    if !InProcessing(d, s) then d
    else if usable then d.(sheets := d.sheets[s := d.sheets[s].(status := Flagged)])
    else d.(sheets := d.sheets[s := RejectSheet(d.sheets[s], Unreadable)])
  }

  // -------------------------------------------------------------------------------- confirming

  function FormConflict(f: Form, sheet: Sheet, s: SheetId): Option<Code> {
    if f.status == Consumed || f.consumedBy.Some? then Some(AlreadyConsumed)
    else if f.status == Void then Some(FormVoid)
    else if f.reserved != Some(s) then Some(ReservationConflict)
    else if f.template.None? then Some(TemplateMismatch)
    else if f.date != sheet.date then Some(DateMismatch)
    else None
  }

  predicate Bound(d: Desk, s: SheetId) {
    s < |d.sheets| && d.sheets[s].form.Some? && d.sheets[s].form.value < |d.forms|
  }

  function Confirm(d: Desk, s: SheetId, ownerActive: bool, itemsKnown: bool, order: Option<OrderId>): (Desk, Outcome) {
    if !Bound(d, s) then (d, Refused(NotFound))
    else
      var sheet := d.sheets[s];
      var token := sheet.form.value;
      var form := d.forms[token];
      if sheet.status != Flagged then (d, Refused(NotAwaiting))
      else if !ownerActive then (d, Refused(Inactive))
      else if !itemsKnown then (d, Refused(UnknownItem))
      else
        var conflict := FormConflict(form, sheet, s);
        if conflict.Some?
        then (d.(sheets := d.sheets[s := sheet.(status := Rejected, code := conflict)]), Refused(Conflict(conflict.value)))
        else if order.None? then (d, Refused(OrderRefused))
        else (Desk(d.forms[token := form.(status := Consumed, consumedBy := Some(s))],
                   d.sheets[s := sheet.(status := Verified, order := order)]),
              Done)
  }

  function OperatorReject(d: Desk, s: SheetId): (Desk, Outcome) {
    if !Bound(d, s) then (d, Refused(NotFound))
    else if d.sheets[s].status != Flagged then (d, Refused(NotAwaiting))
    else (d.(sheets := d.sheets[s := d.sheets[s].(status := Rejected)]), Done)
  }

  // -------------------------------------------------------------------------- the mutable object

  class FormDesk {
    var forms: seq<Form>
    var sheets: seq<Sheet>

    function State(): Desk
      reads this
    {
      Desk(forms, sheets)
    }

    constructor ()
      ensures State() == EMPTY_DESK
    {
      forms, sheets := [], [];
    }

    method CommitBatch(users: seq<User>, date: Date, template: Template, rosterOk: bool) returns (r: Outcome)
      modifies this
      ensures (State(), r) == Commit(old(State()), users, date, template, rosterOk)
    {
      if users == [] || |users| > MAX_OMR_BATCH_SIZE || !AllDifferent(users) {
        return Refused(InvalidBatch);
      }
      if !rosterOk {
        return Refused(RosterChanged);
      }
      var n := |forms|;
      for i := 0 to n
        invariant |forms| == n && sheets == old(sheets)
        invariant forall k | 0 <= k < i :: forms[k] == VoidPredecessors(old(forms), users, date)[k]
        invariant forall k | i <= k < n :: forms[k] == old(forms)[k]
      {
        if Predecessor(forms[i], users, date) {
          forms := forms[i := forms[i].(status := Void, reason := Some(Reissued))];
        }
      }
      assert forms == VoidPredecessors(old(forms), users, date);
      for i := 0 to |users|
        invariant forms == VoidPredecessors(old(forms), users, date) + NewForms(users, date, template)[..i]
        invariant sheets == old(sheets)
      {
        forms := forms + [Form(users[i], date, Some(template), Issued, None, None, None)];
      }
      assert NewForms(users, date, template)[..|users|] == NewForms(users, date, template);
      return Done;
    }

    method ResolveIssuedToken(s: SheetId, token: Token, template: Template, ownerActive: bool)
      modifies this
      ensures State() == Resolve(old(State()), s, token, template, ownerActive)
    {
      if !InProcessing(State(), s) {
        return;
      }
      var form := if token < |forms| then Some(forms[token]) else None;
      var invalid := InvalidFlag(form, ownerActive, sheets[s], template);
      if invalid.Some? {
        sheets := sheets[s := RejectSheet(sheets[s], invalid.value)];
        return;
      }
      if form.value.reserved.Some? && form.value.reserved != Some(s) {
        var n := |sheets|;
        for i := 0 to n
          invariant |sheets| == n && forms == old(forms)
          invariant forall k | 0 <= k < i :: sheets[k] == RejectCandidates(old(sheets), token, s)[k]
          invariant forall k | i <= k < n :: sheets[k] == old(sheets)[k]
        {
          if i == s || sheets[i].form == Some(token) {
            var candidate := sheets[i].(form := if sheets[i].form.None? then Some(token) else sheets[i].form);
            sheets := sheets[i := RejectSheet(candidate, TokenConflict)];
          }
        }
        assert sheets == RejectCandidates(old(sheets), token, s);
        forms := forms[token := form.value.(status := Void, reason := Some(ChecksumConflict))];
        return;
      }
      forms := forms[token := form.value.(reserved := Some(s))];
      sheets := sheets[s := sheets[s].(status := Flagged, form := Some(token))];
    }

    method RetryProcessing(s: SheetId)
      modifies this
      ensures State() == Retry(old(State()), s)
    {
      if !InProcessing(State(), s) {
        return;
      }
      sheets := sheets[s := sheets[s].(attempts := sheets[s].attempts + 1)];
      if sheets[s].attempts >= MAX_PROCESSING_ATTEMPTS {
        sheets := sheets[s := sheets[s].(status := Rejected, code := Some(RetryExhausted))];
      } else {
        sheets := sheets[s := sheets[s].(status := Pending)];
      }
    }

    method ConfirmSheet(s: SheetId, ownerActive: bool, itemsKnown: bool, order: Option<OrderId>) returns (r: Outcome)
      modifies this
      ensures (State(), r) == Confirm(old(State()), s, ownerActive, itemsKnown, order)
    {
      if !Bound(State(), s) {
        return Refused(NotFound);
      }
      var token := sheets[s].form.value;
      var form := forms[token];
      if sheets[s].status != Flagged {
        return Refused(NotAwaiting);
      }
      if !ownerActive {
        return Refused(Inactive);
      }
      if !itemsKnown {
        return Refused(UnknownItem);
      }
      var conflict := FormConflict(form, sheets[s], s);
      if conflict.Some? {
        sheets := sheets[s := sheets[s].(status := Rejected, code := conflict)];
        return Refused(Conflict(conflict.value));
      }
      if order.None? {
        return Refused(OrderRefused);
      }
      forms := forms[token := form.(status := Consumed, consumedBy := Some(s))];
      sheets := sheets[s := sheets[s].(status := Verified, order := order)];
      return Done;
    }

    method RejectFlagged(s: SheetId) returns (r: Outcome)
      modifies this
      ensures (State(), r) == OperatorReject(old(State()), s)
    {
      if !Bound(State(), s) {
        return Refused(NotFound);
      }
      if sheets[s].status != Flagged {
        return Refused(NotAwaiting);
      }
      sheets := sheets[s := sheets[s].(status := Rejected)];
      return Done;
    }
  }

  // --------------------------------------------------------------------------------- the steps

  const EMPTY_DESK := Desk([], [])

  datatype Step =
    | CommitStep(users: seq<User>, date: Date, template: Template, rosterOk: bool)
    | UploadStep(sheetDate: Date)
    | BeginStep(s: SheetId)
    | UnusableStep(s: SheetId)
    | RetryStep(s: SheetId)
    | ResolveStep(s: SheetId, token: Token, expected: Template, ownerActive: bool)
    | ResolveGenericStep(s: SheetId, usable: bool)
    | ConfirmStep(s: SheetId, ownerActive: bool, itemsKnown: bool, order: Option<OrderId>)
    | RejectStep(s: SheetId)

  function Do(d: Desk, step: Step): Desk {
    match step
    case CommitStep(users, date, template, rosterOk) => Commit(d, users, date, template, rosterOk).0
    case UploadStep(date) => d.(sheets := d.sheets + [Sheet(date, Pending, None, 0, None, None)])
    case BeginStep(s) => Begin(d, s)
    case UnusableStep(s) => Unusable(d, s)
    case RetryStep(s) => Retry(d, s)
    case ResolveStep(s, token, expected, ownerActive) => Resolve(d, s, token, expected, ownerActive)
    case ResolveGenericStep(s, usable) => ResolveGeneric(d, s, usable)
    case ConfirmStep(s, ownerActive, itemsKnown, order) => Confirm(d, s, ownerActive, itemsKnown, order).0
    case RejectStep(s) => OperatorReject(d, s).0
  }

  function Run(d: Desk, steps: seq<Step>): Desk
    decreases |steps|
  {
    if steps == [] then d else Run(Do(d, steps[0]), steps[1..])
  }

  // -------------------------------------------------------------------------------- the invariant

  predicate SheetOk(d: Desk, i: SheetId)
    requires i < |d.sheets|
  {
    var s := d.sheets[i];
    && s.attempts <= MAX_PROCESSING_ATTEMPTS
    && (s.status == Pending || s.status == Processing ==> s.form.None? && s.attempts < MAX_PROCESSING_ATTEMPTS)
    && (s.order.Some? <==> s.status == Verified)
    && (s.status == Verified ==> s.form.Some?)
    && (s.form.Some? ==>
          && s.form.value < |d.forms|
          && var f := d.forms[s.form.value];
          && (s.status == Flagged ==> f.reserved == Some(i) && f.date == s.date
                                      && f.status != Consumed && f.reason != Some(ChecksumConflict))
          && (s.status == Verified ==> f.status == Consumed && f.consumedBy == Some(i)))
  }

  predicate FormOk(d: Desk, t: Token)
    requires t < |d.forms|
  {
    var f := d.forms[t];
    && (f.status == Void <==> f.reason.Some?)
    && (f.status == Consumed <==> f.consumedBy.Some?)
    && (f.reserved.Some? ==> f.reserved.value < |d.sheets| && d.sheets[f.reserved.value].form == Some(t))
    && (f.status == Consumed ==> f.consumedBy == f.reserved && d.sheets[f.reserved.value].status == Verified)
  }

  ghost predicate OneIssued(forms: seq<Form>) {
    forall i, j | 0 <= i < j < |forms| && forms[i].user == forms[j].user && forms[i].date == forms[j].date ::
      !(forms[i].status == Issued && forms[j].status == Issued)
  }

  ghost predicate Inv(d: Desk) {
    && (forall i | 0 <= i < |d.sheets| :: SheetOk(d, i))
    && (forall t | 0 <= t < |d.forms| :: FormOk(d, t))
    && OneIssued(d.forms)
  }

  // ----------------------------------------------------------------------------- step by step

  lemma CommitKeeps(d: Desk, users: seq<User>, date: Date, template: Template, rosterOk: bool)
    requires Inv(d)
    ensures Inv(Commit(d, users, date, template, rosterOk).0)
  {
    var after := Commit(d, users, date, template, rosterOk).0;
    if after != d {
      forall i | 0 <= i < |after.sheets| ensures SheetOk(after, i) {
        assert SheetOk(d, i);
      }
      forall t | 0 <= t < |after.forms| ensures FormOk(after, t) {
        if t < |d.forms| {
          assert FormOk(d, t);
        }
      }
      forall i, j | 0 <= i < j < |after.forms| && after.forms[i].user == after.forms[j].user
                    && after.forms[i].date == after.forms[j].date
        ensures !(after.forms[i].status == Issued && after.forms[j].status == Issued) {
        if j >= |d.forms| {
          assert after.forms[j].user == users[j - |d.forms|];
        }
      }
    }
  }

  /** A sheet changes while its form binding and every form stay as they are. */
  lemma SheetOnlyKeeps(d: Desk, s: SheetId, sheet: Sheet)
    requires Inv(d) && s < |d.sheets| && d.sheets[s].status != Verified
    requires sheet.form == d.sheets[s].form && SheetOk(d.(sheets := d.sheets[s := sheet]), s)
    ensures Inv(d.(sheets := d.sheets[s := sheet]))
  {
    var after := d.(sheets := d.sheets[s := sheet]);
    forall i | 0 <= i < |after.sheets| ensures SheetOk(after, i) {
      assert SheetOk(d, i);
    }
    forall t | 0 <= t < |after.forms| ensures FormOk(after, t) {
      assert FormOk(d, t);
    }
  }

  lemma UploadKeeps(d: Desk, date: Date)
    requires Inv(d)
    ensures Inv(d.(sheets := d.sheets + [Sheet(date, Pending, None, 0, None, None)]))
  {
    var after := d.(sheets := d.sheets + [Sheet(date, Pending, None, 0, None, None)]);
    forall i | 0 <= i < |after.sheets| ensures SheetOk(after, i) {
      if i < |d.sheets| {
        assert SheetOk(d, i);
      }
    }
    forall t | 0 <= t < |after.forms| ensures FormOk(after, t) {
      assert FormOk(d, t);
    }
  }

  lemma ProcessingKeeps(d: Desk, s: SheetId, usable: bool)
    requires Inv(d)
    ensures Inv(Begin(d, s)) && Inv(Unusable(d, s)) && Inv(Retry(d, s)) && Inv(ResolveGeneric(d, s, usable))
  {
    if s < |d.sheets| {
      assert SheetOk(d, s);
      var sheet := d.sheets[s];
      if sheet.status == Pending || sheet.status == Processing {
        SheetOnlyKeeps(d, s, sheet.(status := Processing));
      }
      if sheet.status == Processing {
        SheetOnlyKeeps(d, s, sheet.(status := Rejected, code := Some(Unreadable)));
        SheetOnlyKeeps(d, s, RejectSheet(sheet, Unreadable));
        SheetOnlyKeeps(d, s, sheet.(status := Flagged));
        if sheet.attempts + 1 >= MAX_PROCESSING_ATTEMPTS {
          SheetOnlyKeeps(d, s, sheet.(attempts := sheet.attempts + 1, status := Rejected, code := Some(RetryExhausted)));
        } else {
          SheetOnlyKeeps(d, s, sheet.(attempts := sheet.attempts + 1, status := Pending));
        }
      }
    }
  }

  lemma ReserveKeeps(d: Desk, s: SheetId, token: Token)
    requires Inv(d) && InProcessing(d, s) && token < |d.forms|
    requires d.forms[token].status == Issued && d.forms[token].date == d.sheets[s].date
    requires d.forms[token].reserved.None? || d.forms[token].reserved == Some(s)
    ensures Inv(Desk(d.forms[token := d.forms[token].(reserved := Some(s))],
                     d.sheets[s := d.sheets[s].(status := Flagged, form := Some(token))]))
  {
    var after := Desk(d.forms[token := d.forms[token].(reserved := Some(s))],
                      d.sheets[s := d.sheets[s].(status := Flagged, form := Some(token))]);
    assert SheetOk(d, s) && FormOk(d, token);
    forall i | 0 <= i < |after.sheets| ensures SheetOk(after, i) {
      assert SheetOk(d, i);
    }
    forall t | 0 <= t < |after.forms| ensures FormOk(after, t) {
      assert FormOk(d, t);
    }
  }

  lemma ConflictKeeps(d: Desk, s: SheetId, token: Token)
    requires Inv(d) && InProcessing(d, s) && token < |d.forms| && d.forms[token].status == Issued
    ensures Inv(Desk(d.forms[token := d.forms[token].(status := Void, reason := Some(ChecksumConflict))],
                     RejectCandidates(d.sheets, token, s)))
  {
    var after := Desk(d.forms[token := d.forms[token].(status := Void, reason := Some(ChecksumConflict))],
                      RejectCandidates(d.sheets, token, s));
    assert SheetOk(d, s) && FormOk(d, token);
    forall i | 0 <= i < |after.sheets| ensures SheetOk(after, i) {
      assert SheetOk(d, i);
    }
    forall t | 0 <= t < |after.forms| ensures FormOk(after, t) {
      assert FormOk(d, t);
      if d.forms[t].reserved.Some? {
        assert SheetOk(d, d.forms[t].reserved.value);
      }
    }
  }

  lemma ResolveKeeps(d: Desk, s: SheetId, token: Token, template: Template, ownerActive: bool)
    requires Inv(d)
    ensures Inv(Resolve(d, s, token, template, ownerActive))
  {
    if InProcessing(d, s) {
      assert SheetOk(d, s);
      var form := if token < |d.forms| then Some(d.forms[token]) else None;
      var invalid := InvalidFlag(form, ownerActive, d.sheets[s], template);
      if invalid.Some? {
        SheetOnlyKeeps(d, s, RejectSheet(d.sheets[s], invalid.value));
      } else if form.value.reserved.Some? && form.value.reserved != Some(s) {
        ConflictKeeps(d, s, token);
      } else {
        ReserveKeeps(d, s, token);
      }
    }
  }

  lemma ConsumeKeeps(d: Desk, s: SheetId, order: OrderId)
    requires Inv(d) && Bound(d, s) && d.sheets[s].status == Flagged
    requires d.forms[d.sheets[s].form.value].status == Issued
    ensures var token := d.sheets[s].form.value;
            Inv(Desk(d.forms[token := d.forms[token].(status := Consumed, consumedBy := Some(s))],
                     d.sheets[s := d.sheets[s].(status := Verified, order := Some(order))]))
  {
    var token := d.sheets[s].form.value;
    var after := Desk(d.forms[token := d.forms[token].(status := Consumed, consumedBy := Some(s))],
                      d.sheets[s := d.sheets[s].(status := Verified, order := Some(order))]);
    assert SheetOk(d, s) && FormOk(d, token);
    forall i | 0 <= i < |after.sheets| ensures SheetOk(after, i) {
      assert SheetOk(d, i);
    }
    forall t | 0 <= t < |after.forms| ensures FormOk(after, t) {
      assert FormOk(d, t);
    }
  }

  lemma ConfirmKeeps(d: Desk, s: SheetId, ownerActive: bool, itemsKnown: bool, order: Option<OrderId>)
    requires Inv(d)
    ensures Inv(Confirm(d, s, ownerActive, itemsKnown, order).0)
  {
    if Bound(d, s) && d.sheets[s].status == Flagged && ownerActive && itemsKnown {
      assert SheetOk(d, s);
      var form := d.forms[d.sheets[s].form.value];
      var conflict := FormConflict(form, d.sheets[s], s);
      if conflict.Some? {
        SheetOnlyKeeps(d, s, d.sheets[s].(status := Rejected, code := conflict));
      } else if order.Some? {
        ConsumeKeeps(d, s, order.value);
      }
    }
  }

  lemma RejectKeeps(d: Desk, s: SheetId)
    requires Inv(d)
    ensures Inv(OperatorReject(d, s).0)
  {
    if Bound(d, s) && d.sheets[s].status == Flagged {
      assert SheetOk(d, s);
      SheetOnlyKeeps(d, s, d.sheets[s].(status := Rejected));
    }
  }

  lemma StepKeeps(d: Desk, step: Step)
    requires Inv(d)
    ensures Inv(Do(d, step))
  {
    hide Inv;
    match step
    case CommitStep(users, date, template, rosterOk) => CommitKeeps(d, users, date, template, rosterOk);
    case UploadStep(date) => UploadKeeps(d, date);
    case BeginStep(s) => ProcessingKeeps(d, s, true);
    case UnusableStep(s) => ProcessingKeeps(d, s, true);
    case RetryStep(s) => ProcessingKeeps(d, s, true);
    case ResolveStep(s, token, expected, ownerActive) => ResolveKeeps(d, s, token, expected, ownerActive);
    case ResolveGenericStep(s, usable) => ProcessingKeeps(d, s, usable);
    case ConfirmStep(s, ownerActive, itemsKnown, order) => ConfirmKeeps(d, s, ownerActive, itemsKnown, order);
    case RejectStep(s) => RejectKeeps(d, s);
  }

  lemma {:induction false} RunKeeps(d: Desk, steps: seq<Step>)
    requires Inv(d)
    ensures Inv(Run(d, steps))
    decreases |steps|
  {
    hide Inv;
    if steps != [] {
      StepKeeps(d, steps[0]);
      RunKeeps(Do(d, steps[0]), steps[1..]);
    }
  }

  // ------------------------------------------------------------------------------ main results

  /** Over every run: one issued form at most per prisoner and date, and per token at most one
      sheet awaiting verification, at most one verified, and never both. */
  lemma OneFormOneSheetOneOrder(steps: seq<Step>)
    ensures var d := Run(EMPTY_DESK, steps);
            && OneIssued(d.forms)
            && (forall i, j | 0 <= i < j < |d.sheets| && d.sheets[i].form.Some? && d.sheets[i].form == d.sheets[j].form ::
                  !((d.sheets[i].status == Flagged || d.sheets[i].status == Verified)
                    && (d.sheets[j].status == Flagged || d.sheets[j].status == Verified)))
  {
    RunKeeps(EMPTY_DESK, steps);
    var d := Run(EMPTY_DESK, steps);
    forall i, j | 0 <= i < j < |d.sheets| && d.sheets[i].form.Some? && d.sheets[i].form == d.sheets[j].form
      ensures !((d.sheets[i].status == Flagged || d.sheets[i].status == Verified)
                && (d.sheets[j].status == Flagged || d.sheets[j].status == Verified)) {
      assert SheetOk(d, i) && SheetOk(d, j);
      assert FormOk(d, d.sheets[i].form.value);
    }
  }

  /** Tokens, owners and dates never change, a form that left Issued never comes back, and a void
      form keeps its reason. */
  ghost predicate FormsAdvance(d: Desk, e: Desk) {
    && |d.forms| <= |e.forms| && |d.sheets| <= |e.sheets|
    && (forall t | 0 <= t < |d.forms| ::
          && e.forms[t].user == d.forms[t].user && e.forms[t].date == d.forms[t].date
          && (d.forms[t].status != Issued ==> e.forms[t].status == d.forms[t].status && e.forms[t].reason == d.forms[t].reason))
    && (forall i | 0 <= i < |d.sheets| ::
          d.sheets[i].status == Rejected || d.sheets[i].status == Verified ==>
            e.sheets[i].status == d.sheets[i].status && e.sheets[i].order == d.sheets[i].order
            && e.sheets[i].form == d.sheets[i].form)
  }

  lemma StepAdvances(d: Desk, step: Step)
    requires Inv(d)
    ensures FormsAdvance(d, Do(d, step))
  {
    match step
    case ResolveStep(s, token, expected, ownerActive) => ResolveAdvances(d, s, token, expected, ownerActive);
    case ConfirmStep(s, ownerActive, itemsKnown, order) =>
    case _ =>
  }

  lemma ResolveAdvances(d: Desk, s: SheetId, token: Token, template: Template, ownerActive: bool)
    requires Inv(d)
    ensures FormsAdvance(d, Resolve(d, s, token, template, ownerActive))
  {
    var e := Resolve(d, s, token, template, ownerActive);
    forall i | 0 <= i < |d.sheets| && (d.sheets[i].status == Rejected || d.sheets[i].status == Verified)
      ensures e.sheets[i].status == d.sheets[i].status && e.sheets[i].order == d.sheets[i].order
              && e.sheets[i].form == d.sheets[i].form {
      assert SheetOk(d, i);
    }
  }

  lemma {:induction false} RunAdvances(d: Desk, steps: seq<Step>)
    requires Inv(d)
    ensures FormsAdvance(d, Run(d, steps))
    decreases |steps|
  {
    if steps != [] {
      StepKeeps(d, steps[0]);
      StepAdvances(d, steps[0]);
      hide Inv;
      RunAdvances(Do(d, steps[0]), steps[1..]);
    }
  }

  /** Once a token is void for a checksum conflict it stays so, and no sheet carrying it is or ever
      becomes flagged or verified; a token void for any reason never yields a verified sheet. */
  lemma VoidIsFinal(start: seq<Step>, steps: seq<Step>, t: Token)
    requires var d := Run(EMPTY_DESK, start); t < |d.forms| && d.forms[t].status == Void
    ensures var d, e := Run(EMPTY_DESK, start), Run(Run(EMPTY_DESK, start), steps);
            && t < |e.forms| && e.forms[t].status == Void && e.forms[t].reason == d.forms[t].reason
            && (forall i | 0 <= i < |e.sheets| && e.sheets[i].form == Some(t) ::
                  && e.sheets[i].status != Verified
                  && (d.forms[t].reason == Some(ChecksumConflict) ==> e.sheets[i].status == Rejected))
  {
    RunKeeps(EMPTY_DESK, start);
    var d := Run(EMPTY_DESK, start);
    RunKeeps(d, steps);
    RunAdvances(d, steps);
    var e := Run(d, steps);
    forall i | 0 <= i < |e.sheets| && e.sheets[i].form == Some(t)
      ensures e.sheets[i].status != Verified
      ensures d.forms[t].reason == Some(ChecksumConflict) ==> e.sheets[i].status == Rejected {
      assert SheetOk(e, i);
    }
  }

  /** A second scan of a form that is reserved for another sheet voids the form and rejects both
      sheets, whatever else carries the token. */
  lemma SecondScanRejectsAll(d: Desk, s: SheetId, token: Token, template: Template, ownerActive: bool)
    requires Inv(d) && InProcessing(d, s) && token < |d.forms| && d.forms[token].reserved.Some?
    requires InvalidFlag(Some(d.forms[token]), ownerActive, d.sheets[s], template).None?
    ensures var e := Resolve(d, s, token, template, ownerActive);
            && d.forms[token].reserved.value < |e.sheets| && d.forms[token].reserved.value != s
            && e.forms[token].status == Void && e.forms[token].reason == Some(ChecksumConflict)
            && e.sheets[s].status == Rejected && e.sheets[d.forms[token].reserved.value].status == Rejected
            && (forall i | 0 <= i < |e.sheets| && e.sheets[i].form == Some(token) :: e.sheets[i].status == Rejected)
  {
    assert SheetOk(d, s) && FormOk(d, token);
  }
}
