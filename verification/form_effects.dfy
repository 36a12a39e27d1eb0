/** What each step on forms and sheets writes. */
module FormEffects {
  // Row by row, for every desk (omr-forms.service.ts, scan-processor.service.ts, verify.service.ts):
  // when a step acts, what it leaves in the forms and sheets it touches, and that the others stay.

  import opened IssuedForms

  ghost predicate OnlySheet(d: Desk, e: Desk, s: SheetId) {
    e.forms == d.forms && |e.sheets| == |d.sheets| && forall i | 0 <= i < |d.sheets| && i != s :: e.sheets[i] == d.sheets[i]
  }

  ghost predicate OnlyFormAndSheet(d: Desk, e: Desk, t: Token, s: SheetId) {
    && |e.forms| == |d.forms| && |e.sheets| == |d.sheets|
    && (forall i | 0 <= i < |d.forms| && i != t :: e.forms[i] == d.forms[i])
    && (forall i | 0 <= i < |d.sheets| && i != s :: e.sheets[i] == d.sheets[i])
  }

  predicate HasStatus(d: Desk, s: SheetId, status: SheetStatus) {
    s < |d.sheets| && d.sheets[s].status == status
  }

  /** A batch of 1 to 50 different prisoners with an unchanged roster voids every form still issued
      to one of them for the day and issues one new form each, in order; any other changes
      nothing. */
  lemma CommitWrites(d: Desk, users: seq<User>, date: Date, template: Template, rosterOk: bool)
    ensures var (e, outcome) := Commit(d, users, date, template, rosterOk);
            var n := |d.forms|;
            if 1 <= |users| <= 50 && (forall i, j | 0 <= i < j < |users| :: users[i] != users[j]) && rosterOk then
              && outcome == Done && e.sheets == d.sheets && |e.forms| == n + |users|
              && (forall t | 0 <= t < n ::
                    e.forms[t] == if d.forms[t].status == Issued && d.forms[t].date == date && d.forms[t].user in users
                                  then d.forms[t].(status := Void, reason := Some(Reissued)) else d.forms[t])
              && (forall k | 0 <= k < |users| ::
                    e.forms[n + k] == Form(users[k], date, Some(template), Issued, None, None, None))
            else e == d && outcome == Refused(if 1 <= |users| <= 50 && (forall i, j | 0 <= i < j < |users| :: users[i] != users[j])
                                              then RosterChanged else InvalidBatch)
    ensures Do(d, CommitStep(users, date, template, rosterOk)) == Commit(d, users, date, template, rosterOk).0
  {
  }

  /** Why a token does not do: the first of these that applies. */
  function WhyNot(d: Desk, s: SheetId, token: Token, template: Template, ownerActive: bool): Option<Code>
    requires s < |d.sheets|
  {
    if token >= |d.forms| then Some(TokenNotFound)
    else if d.forms[token].status == Void then Some(TokenVoid)
    else if d.forms[token].status == Consumed then Some(TokenConsumed)
    else if d.forms[token].date != d.sheets[s].date then Some(DateMismatch)
    else if d.forms[token].template != Some(template) then Some(TemplateMismatch)
    else if !ownerActive then Some(UserInactive)
    else None
  }

  /** A sheet in processing whose token does not do is rejected for that reason.  The first sheet of a
      token that does is flagged and reserves the form.  A second one voids the form, and every
      sheet that carries the token is rejected.  A sheet not in processing is left alone. */
  lemma ResolveWrites(d: Desk, s: SheetId, token: Token, template: Template, ownerActive: bool)
    ensures var e := Do(d, ResolveStep(s, token, template, ownerActive));
            if !HasStatus(d, s, Processing) then e == d
            else
              var why := WhyNot(d, s, token, template, ownerActive);
              if why.Some? then
                && OnlySheet(d, e, s) && e.sheets[s] == d.sheets[s].(status := Rejected, order := None, code := why)
              else if d.forms[token].reserved == None || d.forms[token].reserved == Some(s) then
                && OnlyFormAndSheet(d, e, token, s)
                && e.forms[token] == d.forms[token].(reserved := Some(s))
                && e.sheets[s] == d.sheets[s].(status := Flagged, form := Some(token))
              else
                && |e.forms| == |d.forms| && |e.sheets| == |d.sheets|
                && (forall i | 0 <= i < |d.forms| && i != token :: e.forms[i] == d.forms[i])
                && e.forms[token] == d.forms[token].(status := Void, reason := Some(ChecksumConflict))
                && (forall i | 0 <= i < |d.sheets| && i != s && d.sheets[i].form != Some(token) :: e.sheets[i] == d.sheets[i])
                && (forall i | 0 <= i < |d.sheets| && (i == s || d.sheets[i].form == Some(token)) ::
                      && e.sheets[i].status == Rejected && e.sheets[i].code == Some(TokenConflict) && e.sheets[i].order == None
                      && e.sheets[i].form == (if d.sheets[i].form == None then Some(token) else d.sheets[i].form)
                      && e.sheets[i].date == d.sheets[i].date && e.sheets[i].attempts == d.sheets[i].attempts)
  {
  }

  /** What stands in the way of confirming a flagged sheet: the first of these that applies. */
  function Obstacle(d: Desk, s: SheetId): Option<Code>
    requires s < |d.sheets| && d.sheets[s].form.Some? && d.sheets[s].form.value < |d.forms|
  {
    var f := d.forms[d.sheets[s].form.value];
    if f.status == Consumed || f.consumedBy != None then Some(AlreadyConsumed)
    else if f.status == Void then Some(FormVoid)
    else if f.reserved == None || f.reserved.value != s then Some(ReservationConflict)
    else if f.template == None then Some(TemplateMismatch)
    else if f.date != d.sheets[s].date then Some(DateMismatch)
    else None
  }

  predicate CarriesForm(d: Desk, s: SheetId) {
    s < |d.sheets| && d.sheets[s].form.Some? && d.sheets[s].form.value < |d.forms|
  }

  /** A flagged sheet of an active prisoner with known items is verified with its order and consumes
      its form, if nothing is in the way and the order is accepted; with something in the way it is
      rejected for that; a refused order, like every other refusal, changes nothing. */
  lemma ConfirmWrites(d: Desk, s: SheetId, ownerActive: bool, itemsKnown: bool, order: Option<OrderId>)
    ensures var (e, outcome) := Confirm(d, s, ownerActive, itemsKnown, order);
            if !CarriesForm(d, s) then e == d && outcome == Refused(NotFound)
            else if d.sheets[s].status != Flagged then e == d && outcome == Refused(NotAwaiting)
            else if !ownerActive then e == d && outcome == Refused(Inactive)
            else if !itemsKnown then e == d && outcome == Refused(UnknownItem)
            else
              var t := d.sheets[s].form.value;
              match Obstacle(d, s)
              case Some(code) =>
                && outcome == Refused(Conflict(code)) && OnlySheet(d, e, s)
                && e.sheets[s] == d.sheets[s].(status := Rejected, code := Some(code))
              case None =>
                if order == None then e == d && outcome == Refused(OrderRefused)
                else
                  && outcome == Done && OnlyFormAndSheet(d, e, t, s)
                  && e.forms[t] == d.forms[t].(status := Consumed, consumedBy := Some(s))
                  && e.sheets[s] == d.sheets[s].(status := Verified, order := order)
    ensures Do(d, ConfirmStep(s, ownerActive, itemsKnown, order)) == Confirm(d, s, ownerActive, itemsKnown, order).0
  {
  }

  /** An operator's rejection ends a flagged sheet. */
  lemma RejectWrites(d: Desk, s: SheetId)
    ensures var e := Do(d, RejectStep(s));
            if CarriesForm(d, s) && d.sheets[s].status == Flagged then
              OnlySheet(d, e, s) && e.sheets[s] == d.sheets[s].(status := Rejected)
            else e == d
  {
  }

  /** The rest of a sheet's way: uploaded it waits; begun it is in processing; an unreadable one is
      rejected; a failed attempt sends it back, the third ends it. */
  lemma ProcessingWrites(d: Desk, s: SheetId, date: Date)
    ensures Do(d, UploadStep(date)) == Desk(d.forms, d.sheets + [Sheet(date, Pending, None, 0, None, None)])
    ensures var e := Do(d, BeginStep(s));
            if HasStatus(d, s, Pending) || HasStatus(d, s, Processing) then
              OnlySheet(d, e, s) && e.sheets[s] == d.sheets[s].(status := Processing)
            else e == d
    ensures var e := Do(d, UnusableStep(s));
            if HasStatus(d, s, Processing) then
              OnlySheet(d, e, s) && e.sheets[s] == d.sheets[s].(status := Rejected, code := Some(Unreadable))
            else e == d
    ensures var e := Do(d, RetryStep(s));
            if HasStatus(d, s, Processing) then
              && OnlySheet(d, e, s)
              && var n := d.sheets[s].attempts + 1;
              e.sheets[s] == if n < 3 then d.sheets[s].(attempts := n, status := Pending)
                             else d.sheets[s].(attempts := n, status := Rejected, code := Some(RetryExhausted))
            else e == d
  {
  }

  /** A sheet of a generic form carries no token: usable it is flagged, else rejected. */
  lemma GenericWrites(d: Desk, s: SheetId, usable: bool)
    ensures var e := Do(d, ResolveGenericStep(s, usable));
            if HasStatus(d, s, Processing) then
              && OnlySheet(d, e, s)
              && e.sheets[s] == if usable then d.sheets[s].(status := Flagged)
                                else d.sheets[s].(status := Rejected, order := None, code := Some(Unreadable))
            else e == d
  {
  }
}
