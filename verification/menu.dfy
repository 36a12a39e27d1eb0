/** The menu (menu.service.ts). */
module Menu {
  // Printed positions and codes.  A row's code is its number; FormatCode gives the printed text.
  // Every change runs under one catalogue lock and in one transaction, so it is one atomic step; a
  // write that would repeat a position or a code fails it as a whole.  "Form generated" is a flag
  // that is only ever set.

  import opened Sorting
  import opened Numerals

  type ItemId = nat

  datatype Option<+T> = None | Some(value: T)

  datatype Category = Food | Essential

  datatype Row = Row(id: ItemId, code: nat, name: string, price: nat, category: Category, position: nat, active: bool)

  datatype Create = Create(name: string, price: nat, category: Category)
  datatype Update = Update(name: Option<string>, price: Option<nat>, category: Option<Category>, active: Option<bool>)

  // ordered holds the items that order lines refer to, under a RESTRICT foreign key.
  datatype Table = Table(rows: seq<Row>, generated: bool, nextId: ItemId, ordered: set<ItemId>)

  datatype Refusal =
    | ItemNotFound | LockedAfterForm | CodeWidthExceeded | CodeAssignFailed | CountMismatch | UniqueViolation
    | StillOrdered
  datatype Outcome = Done | Failed(why: Refusal)

  const OFFSET := 1000
  const MAX_CODE := 999
  const MAX_CODE_RETRIES := 5

  function FormatCode(code: nat): string {
    PadStart(Numeral(code, 10), 3)
  }

  // ------------------------------------------------------------------------- reading the table

  function MaxPosition(rows: seq<Row>): int {
    if rows == [] then -1
    else
      var rest := MaxPosition(rows[..|rows| - 1]);
      if rows[|rows| - 1].position > rest then rows[|rows| - 1].position else rest
  }

  function MaxCode(rows: seq<Row>): nat {
    if rows == [] then 0
    else
      var rest := MaxCode(rows[..|rows| - 1]);
      if rows[|rows| - 1].code > rest then rows[|rows| - 1].code else rest
  }

  function IndexOf(rows: seq<Row>, id: ItemId): (i: nat)
    ensures i <= |rows|
    ensures i < |rows| ==> rows[i].id == id
    ensures forall k | 0 <= k < i :: rows[k].id != id
  {
    if rows == [] || rows[0].id == id then 0 else 1 + IndexOf(rows[1..], id)
  }

  function ByPosition(): (Row, Row) -> bool {
    (a: Row, b: Row) => a.position <= b.position
  }

  // ------------------------------------------------------------------------------ single writes

  /** One UPDATE under the unique position index. */
  function Put(rows: seq<Row>, i: nat, position: nat): Option<seq<Row>>
    requires i < |rows|
  {
    if exists k | 0 <= k < |rows| :: k != i && rows[k].position == position then None
    else Some(rows[i := rows[i].(position := position)])
  }

  /** Phase 1 for the first k rows: out of the way by OFFSET. */
  function ShiftAll(rows: seq<Row>, k: nat): (r: Option<seq<Row>>)
    requires k <= |rows|
    ensures r.Some? ==> |r.value| == |rows|
  {
    if k == 0 then Some(rows)
    else
      var before := ShiftAll(rows, k - 1);
      if before.None? then None else Put(before.value, k - 1, before.value[k - 1].position + OFFSET)
  }

  /** Phase 2 for the first k ids: each id's row takes the id's index. */
  function AssignAll(rows: seq<Row>, ids: seq<ItemId>, k: nat): (r: Option<seq<Row>>)
    requires k <= |ids| && forall id | id in ids :: IndexOf(rows, id) < |rows|
    ensures r.Some? ==> |r.value| == |rows| && forall i | 0 <= i < |rows| :: r.value[i].id == rows[i].id
  {
    if k == 0 then Some(rows)
    else
      var before := AssignAll(rows, ids, k - 1);
      if before.None? then None
      else
        SameIndex(rows, before.value, ids[k - 1]);
        Put(before.value, IndexOf(before.value, ids[k - 1]), k - 1)
  }

  lemma {:induction false} SameIndex(rows: seq<Row>, after: seq<Row>, id: ItemId)
    requires |after| == |rows| && forall i | 0 <= i < |rows| :: after[i].id == rows[i].id
    ensures IndexOf(after, id) == IndexOf(rows, id)
  {
  }

  function IdsOf(rows: seq<Row>): seq<ItemId> {
    seq(|rows|, i requires 0 <= i < |rows| => rows[i].id)
  }

  predicate AllKnown(rows: seq<Row>, ids: seq<ItemId>) {
    forall id | id in ids :: IndexOf(rows, id) < |rows|
  }

  function Rewrite(rows: seq<Row>, ids: seq<ItemId>): Option<seq<Row>>
    requires AllKnown(rows, ids)
  {
    var shifted := ShiftAll(rows, |rows|);
    if shifted.None? then None
    else
      ShiftKeepsIds(rows, |rows|);
      AllStillKnown(rows, shifted.value, ids);
      AssignAll(shifted.value, ids, |ids|)
  }

  lemma {:induction false} ShiftKeepsIds(rows: seq<Row>, k: nat)
    requires k <= |rows| && ShiftAll(rows, k).Some?
    ensures forall i | 0 <= i < |rows| :: ShiftAll(rows, k).value[i].id == rows[i].id
  {
    if k > 0 {
      ShiftKeepsIds(rows, k - 1);
    }
  }

  lemma AllStillKnown(rows: seq<Row>, after: seq<Row>, ids: seq<ItemId>)
    requires |after| == |rows| && forall i | 0 <= i < |rows| :: after[i].id == rows[i].id
    requires AllKnown(rows, ids)
    ensures AllKnown(after, ids)
  {
  }

  // -------------------------------------------------------------------------- the four operations

  predicate Taken(rows: seq<Row>, code: nat, position: nat) {
    exists k | 0 <= k < |rows| :: rows[k].code == code || rows[k].position == position
  }

  function TryAdd(t: Table, c: Create, attempt: nat): (Table, Outcome)
    decreases MAX_CODE_RETRIES - attempt
  {
    var code := MaxCode(t.rows) + 1 + attempt;
    var position := MaxPosition(t.rows) + 1;
    if attempt >= MAX_CODE_RETRIES then (t, Failed(CodeAssignFailed))
    else if code > MAX_CODE then (t, Failed(CodeWidthExceeded))
    else if position < 0 || Taken(t.rows, code, position) then TryAdd(t, c, attempt + 1)
    else (Table(t.rows + [Row(t.nextId, code, c.name, c.price, c.category, position, true)], t.generated, t.nextId + 1,
                t.ordered),
          Done)
  }

  function Or<T>(change: Option<T>, old_: T): T {
    if change.Some? then change.value else old_
  }

  function Edited(r: Row, u: Update): Row {
    r.(name := Or(u.name, r.name), price := Or(u.price, r.price), category := Or(u.category, r.category),
       active := Or(u.active, r.active))
  }

  function Edit(t: Table, id: ItemId, u: Update): (Table, Outcome) {
    var i := IndexOf(t.rows, id);
    if i == |t.rows| then (t, Failed(ItemNotFound))
    else if u.name.Some? && u.name.value != t.rows[i].name && t.generated then (t, Failed(LockedAfterForm))
    else (t.(rows := t.rows[i := Edited(t.rows[i], u)]), Done)
  }

  lemma {:induction false} AllIdsKnown(rows: seq<Row>)
    ensures AllKnown(rows, IdsOf(rows))
  {
  }

  function Remove(t: Table, id: ItemId): (Table, Outcome) {
    var i := IndexOf(t.rows, id);
    if i == |t.rows| then (t, Failed(ItemNotFound))
    else if t.generated then (t.(rows := t.rows[i := t.rows[i].(active := false)]), Done)
    else if id in t.ordered then (t, Failed(StillOrdered))
    else
      var remaining := Sort(t.rows[..i] + t.rows[i + 1..], ByPosition());
      AllIdsKnown(remaining);
      var rewritten := Rewrite(remaining, IdsOf(remaining));
      if rewritten.None? then (t, Failed(UniqueViolation)) else (t.(rows := rewritten.value), Done)
  }

  function Reorder(t: Table, ids: seq<ItemId>): (Table, Outcome) {
    var items := Sort(t.rows, ByPosition());
    if t.generated then (t, Failed(LockedAfterForm))
    else if |ids| != |items| then (t, Failed(CountMismatch))
    else if !AllKnown(items, ids) then (t, Failed(ItemNotFound))
    else
      var rewritten := Rewrite(items, ids);
      if rewritten.None? then (t, Failed(UniqueViolation)) else (t.(rows := rewritten.value), Done)
  }

  /** The lines of one order, placed or refused as a whole: each item must exist and, except on a
      printed form, be active. */
  function Order(t: Table, ids: seq<ItemId>, fromForm: bool): (Table, Outcome) {
    if forall id | id in ids :: IndexOf(t.rows, id) < |t.rows| && (fromForm || t.rows[IndexOf(t.rows, id)].active)
    then (t.(ordered := t.ordered + set id | id in ids), Done)
    else (t, Failed(ItemNotFound))
  }

  // -------------------------------------------------------------------------- the mutable object

  class MenuService {
    var rows: seq<Row>
    var generated: bool
    var nextId: ItemId
    var ordered: set<ItemId>

    function State(): Table
      reads this
    {
      Table(rows, generated, nextId, ordered)
    }

    constructor ()
      ensures State() == Table([], false, 0, {})
    {
      rows, generated, nextId, ordered := [], false, 0, {};
    }

    method AddItem(c: Create) returns (r: Outcome)
      modifies this
      ensures (State(), r) == TryAdd(old(State()), c, 0)
    {
      var nextPosition := MaxPosition(rows) + 1;
      var attempt := 0;
      while attempt < MAX_CODE_RETRIES
        invariant 0 <= attempt <= MAX_CODE_RETRIES && State() == old(State())
        invariant TryAdd(State(), c, 0) == TryAdd(State(), c, attempt)
      {
        var nextCode := MaxCode(rows) + 1 + attempt;
        if nextCode > MAX_CODE {
          return Failed(CodeWidthExceeded);
        }
        if nextPosition >= 0 && !Taken(rows, nextCode, nextPosition) {
          rows := rows + [Row(nextId, nextCode, c.name, c.price, c.category, nextPosition, true)];
          nextId := nextId + 1;
          return Done;
        }
        attempt := attempt + 1;
      }
      return Failed(CodeAssignFailed);
    }

    method UpdateItem(id: ItemId, u: Update) returns (r: Outcome)
      modifies this
      ensures (State(), r) == Edit(old(State()), id, u)
    {
      var i := IndexOf(rows, id);
      if i == |rows| {
        return Failed(ItemNotFound);
      }
      if u.name.Some? && u.name.value != rows[i].name && generated {
        return Failed(LockedAfterForm);
      }
      rows := rows[i := Edited(rows[i], u)];
      return Done;
    }

    method ShiftRows(items: seq<Row>) returns (r: Option<seq<Row>>)
      ensures r == ShiftAll(items, |items|)
    {
      var written := items;
      for k := 0 to |items|
        invariant ShiftAll(items, k) == Some(written)
      {
        var next := Put(written, k, written[k].position + OFFSET);
        if next.None? {
          ShiftStaysNone(items, k + 1);
          return None;
        }
        written := next.value;
      }
      return Some(written);
    }

    method AssignRows(shifted: seq<Row>, ids: seq<ItemId>) returns (r: Option<seq<Row>>)
      requires AllKnown(shifted, ids)
      ensures r == AssignAll(shifted, ids, |ids|)
    {
      var written := shifted;
      for k := 0 to |ids|
        invariant AssignAll(shifted, ids, k) == Some(written)
      {
        AssignOne(shifted, ids, k);
        var next := Put(written, IndexOf(written, ids[k]), k);
        if next.None? {
          AssignStaysNone(shifted, ids, k + 1);
          return None;
        }
        written := next.value;
      }
      return Some(written);
    }

    /** The two-phase write, row by row. */
    method TwoPhase(items: seq<Row>, ids: seq<ItemId>) returns (r: Option<seq<Row>>)
      requires AllKnown(items, ids)
      ensures r == Rewrite(items, ids)
    {
      var shifted := ShiftRows(items);
      if shifted.None? {
        return None;
      }
      ShiftKeepsIds(items, |items|);
      AllStillKnown(items, shifted.value, ids);
      r := AssignRows(shifted.value, ids);
    }

    method RemoveItem(id: ItemId) returns (r: Outcome)
      modifies this
      ensures (State(), r) == Remove(old(State()), id)
    {
      var i := IndexOf(rows, id);
      if i == |rows| {
        return Failed(ItemNotFound);
      }
      if generated {
        rows := rows[i := rows[i].(active := false)];
        return Done;
      }
      if id in ordered {
        return Failed(StillOrdered);
      }
      var remaining := Sort(rows[..i] + rows[i + 1..], ByPosition());
      AllIdsKnown(remaining);
      var written := TwoPhase(remaining, IdsOf(remaining));
      if written.None? {
        return Failed(UniqueViolation);
      }
      rows := written.value;
      return Done;
    }

    method ReorderItems(ids: seq<ItemId>) returns (r: Outcome)
      modifies this
      ensures (State(), r) == Reorder(old(State()), ids)
    {
      if generated {
        return Failed(LockedAfterForm);
      }
      var items := Sort(rows, ByPosition());
      if |ids| != |items| {
        return Failed(CountMismatch);
      }
      for k := 0 to |ids|
        invariant forall m | 0 <= m < k :: IndexOf(items, ids[m]) < |items|
      {
        if IndexOf(items, ids[k]) == |items| {
          assert ids[k] in ids;
          return Failed(ItemNotFound);
        }
      }
      var written := TwoPhase(items, ids);
      if written.None? {
        return Failed(UniqueViolation);
      }
      rows := written.value;
      return Done;
    }
  }

  lemma {:induction false} ShiftStaysNone(rows: seq<Row>, k: nat)
    requires k <= |rows| && ShiftAll(rows, k).None?
    ensures ShiftAll(rows, |rows|).None?
    decreases |rows| - k
  {
    if k < |rows| {
      ShiftStaysNone(rows, k + 1);
    }
  }

  lemma AssignOne(rows: seq<Row>, ids: seq<ItemId>, k: nat)
    requires k < |ids| && AllKnown(rows, ids) && AssignAll(rows, ids, k).Some?
    ensures var before := AssignAll(rows, ids, k).value;
            var i := IndexOf(before, ids[k]);
            i < |before| && AssignAll(rows, ids, k + 1) == Put(before, i, k)
  {
    assert ids[k] in ids;
    SameIndex(rows, AssignAll(rows, ids, k).value, ids[k]);
    hide Put;
  }

  lemma {:induction false} AssignStaysNone(rows: seq<Row>, ids: seq<ItemId>, k: nat)
    requires k <= |ids| && AllKnown(rows, ids) && AssignAll(rows, ids, k).None?
    ensures AssignAll(rows, ids, |ids|).None?
    decreases |ids| - k
  {
    if k < |ids| {
      AssignStaysNone(rows, ids, k + 1);
    }
  }
}
