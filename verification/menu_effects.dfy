/** What each menu change writes (menu.service.ts). */
module MenuEffects {
  // Row by row: what an add, an edit, a removal or a reorder leaves in the table, and why one is
  // refused.  Rows are told apart by their identifiers.

  import opened Sorting
  import opened Menu
  import opened MenuLaws

  ghost predicate KnownId(t: Table, id: ItemId) {
    exists r :: r in t.rows && r.id == id
  }

  lemma KnownIs(t: Table, id: ItemId)
    ensures KnownId(t, id) <==> IndexOf(t.rows, id) < |t.rows|
  {
    ListingIsKnown(t.rows, id);
  }

  // --------------------------------------------------------------------------------------- add

  /** A new item goes behind the last row, active, under a fresh identifier, the next position and
      the code after the highest; 999 is the last code. */
  lemma AddWrites(t: Table, c: Create)
    requires Inv(t)
    ensures var (after, outcome) := TryAdd(t, c, 0);
            if exists r :: r in t.rows && r.code >= 999 then after == t && outcome == Failed(CodeWidthExceeded)
            else
              && outcome == Done && |after.rows| == |t.rows| + 1 && after.rows[..|t.rows|] == t.rows
              && after.generated == t.generated && after.ordered == t.ordered
              && var r := after.rows[|t.rows|];
              && !KnownId(t, r.id) && r.name == c.name && r.price == c.price && r.category == c.category
              && r.position == |t.rows| && r.active
              && (forall q | q in t.rows :: q.code < r.code) && (r.code == 1 || exists q :: q in t.rows && q.code == r.code - 1)
  {
    AddKeeps(t, c);
    MaxCodeBounds(t.rows);
    hide TryAdd, Contiguous, CodesOk;
    forall r | r in t.rows ensures r.code <= MaxCode(t.rows) && r.id < t.nextId {
      var i :| 0 <= i < |t.rows| && t.rows[i] == r;
    }
    if MaxCode(t.rows) > 0 {
      var i :| 0 <= i < |t.rows| && t.rows[i].code == MaxCode(t.rows);
      assert t.rows[i] in t.rows;
    }
  }

  // -------------------------------------------------------------------------------------- edit

  /** An edit changes the fields it names of the row it names; after the first form the name must
      stay as it is. */
  lemma EditWrites(t: Table, id: ItemId, u: Update)
    requires Inv(t)
    ensures var (after, outcome) := Edit(t, id, u);
            if !KnownId(t, id) then after == t && outcome == Failed(ItemNotFound)
            else
              exists i :: 0 <= i < |t.rows| && t.rows[i].id == id
                && if t.generated && u.name != None && u.name != Some(t.rows[i].name)
                   then after == t && outcome == Failed(LockedAfterForm)
                   else
                     && outcome == Done && after == t.(rows := after.rows) && |after.rows| == |t.rows|
                     && (forall k | 0 <= k < |t.rows| && k != i :: after.rows[k] == t.rows[k])
                     && var r, q := t.rows[i], after.rows[i];
                     && q.id == r.id && q.code == r.code && q.position == r.position
                     && q.name == (if u.name.Some? then u.name.value else r.name)
                     && q.price == (if u.price.Some? then u.price.value else r.price)
                     && q.category == (if u.category.Some? then u.category.value else r.category)
                     && q.active == (if u.active.Some? then u.active.value else r.active)
  {
    KnownIs(t, id);
    hide Inv;
    if KnownId(t, id) {
      var i := IndexOf(t.rows, id);
      assert t.rows[i].id == id;
    }
  }

  // ------------------------------------------------------------------------------------ remove

  /** The same row at another position. */
  predicate SameItem(r: Row, q: Row) {
    q == Row(r.id, r.code, r.name, r.price, r.category, q.position, r.active)
  }

  ghost predicate Keeps(after: seq<Row>, r: Row) {
    exists q :: q in after && SameItem(r, q)
  }

  ghost predicate Comes(before: seq<Row>, gone: ItemId, q: Row) {
    exists r :: r in before && r.id != gone && SameItem(r, q)
  }

  ghost predicate OrderKept(before: seq<Row>, after: seq<Row>) {
    forall r, s, p, q | r in before && s in before && p in after && q in after && p.id == r.id && q.id == s.id
                        && r.position < s.position :: p.position < q.position
  }

  lemma {:induction false} LastIndexOf(rows: seq<Row>, k: nat, i: nat)
    requires Distinct(rows, Id()) && k <= |rows| && i < k
    ensures LastIndex(IdsOf(rows), k, rows[i].id) == Some(i)
  {
    if i < k - 1 {
      assert Id()(rows[i]) != Id()(rows[k - 1]);
      LastIndexOf(rows, k - 1, i);
    }
  }

  /** Rewriting rows in their own order numbers them from 0. */
  lemma NumberedInOrder(rows: seq<Row>)
    requires Distinct(rows, Id())
    ensures var after := Placed(Moved(rows, |rows|), IdsOf(rows), |rows|);
            |after| == |rows| && forall i | 0 <= i < |rows| :: after[i] == rows[i].(position := i)
  {
    forall i | 0 <= i < |rows| ensures LastIndex(IdsOf(rows), |rows|, rows[i].id) == Some(i) {
      LastIndexOf(rows, |rows|, i);
    }
  }

  lemma RemovalIs(t: Table, id: ItemId)
    requires Inv(t) && !t.generated && IndexOf(t.rows, id) < |t.rows| && id !in t.ordered
    ensures var i := IndexOf(t.rows, id);
            var sorted := Sort(t.rows[..i] + t.rows[i + 1..], ByPosition());
            && Remove(t, id) == (t.(rows := Placed(Moved(sorted, |sorted|), IdsOf(sorted), |sorted|)), Done)
            && Distinct(sorted, Id()) && Distinct(sorted, Position())
            && (forall q :: q in sorted <==> q in t.rows[..i] + t.rows[i + 1..])
  {
    hide *;
    var i := IndexOf(t.rows, id);
    var sorted := Sort(t.rows[..i] + t.rows[i + 1..], ByPosition());
    RestIsSorted(t, i);
    AllIdsKnown(sorted);
    RewriteWorks(sorted, IdsOf(sorted));
    RemovedIs(t, id, Placed(Moved(sorted, |sorted|), IdsOf(sorted), |IdsOf(sorted)|));
  }

  lemma SortedByPosition(rows: seq<Row>)
    ensures Ordered(Sort(rows, ByPosition()), ByPosition())
  {
    SortIsOrderedPermutation(rows, ByPosition());
  }

  lemma RestOf(rows: seq<Row>, i: nat, r: Row)
    requires i < |rows| && Distinct(rows, Id())
    ensures r in rows[..i] + rows[i + 1..] <==> r in rows && r.id != rows[i].id
  {
    if r in rows && r.id != rows[i].id {
      var k :| 0 <= k < |rows| && rows[k] == r;
      assert r == if k < i then rows[..i][k] else rows[i + 1..][k - i - 1];
    }
    if r in rows[..i] + rows[i + 1..] {
      if r in rows[..i] {
        var k :| 0 <= k < i && rows[..i][k] == r;
        assert Id()(rows[k]) != Id()(rows[i]);
      } else {
        var k :| 0 <= k < |rows[i + 1..]| && rows[i + 1..][k] == r;
        assert Id()(rows[i]) != Id()(rows[i + 1 + k]);
      }
    }
  }

  ghost predicate Removed(before: seq<Row>, after: seq<Row>, id: ItemId) {
    && (forall r | r in before && r.id != id :: Keeps(after, r))
    && (forall q | q in after :: Comes(before, id, q))
    && OrderKept(before, after)
  }

  ghost predicate Numbered(sorted: seq<Row>, after: seq<Row>) {
    |after| == |sorted| && forall i | 0 <= i < |sorted| :: after[i] == sorted[i].(position := i)
  }

  lemma NumberedKeeps(sorted: seq<Row>, after: seq<Row>, r: Row)
    requires r in sorted && Numbered(sorted, after)
    ensures Keeps(after, r)
  {
    var i :| 0 <= i < |sorted| && sorted[i] == r;
    assert after[i] in after && SameItem(r, after[i]);
  }

  lemma NumberedComes(before: seq<Row>, sorted: seq<Row>, after: seq<Row>, id: ItemId, q: Row)
    requires (forall r | r in sorted :: r in before && r.id != id) && Numbered(sorted, after) && q in after
    ensures Comes(before, id, q)
  {
    var i :| 0 <= i < |after| && after[i] == q;
    assert sorted[i] in before && SameItem(sorted[i], q);
  }

  lemma NumberedRest(before: seq<Row>, sorted: seq<Row>, after: seq<Row>, id: ItemId)
    requires Distinct(before, Id()) && Ordered(sorted, ByPosition()) && Numbered(sorted, after)
    requires forall r :: r in sorted <==> r in before && r.id != id
    ensures Removed(before, after, id)
  {
    hide Numbered, Keeps, Comes, OrderKept, Distinct, Ordered;
    forall r | r in before && r.id != id ensures Keeps(after, r) {
      NumberedKeeps(sorted, after, r);
    }
    forall q | q in after ensures Comes(before, id, q) {
      NumberedComes(before, sorted, after, id, q);
    }
    OrderedRest(before, sorted, after);
  }

  lemma OrderedRest(before: seq<Row>, sorted: seq<Row>, after: seq<Row>)
    requires Distinct(before, Id()) && Ordered(sorted, ByPosition()) && forall r | r in sorted :: r in before
    requires Numbered(sorted, after)
    ensures OrderKept(before, after)
  {
    forall r, s, p, q | r in before && s in before && p in after && q in after && p.id == r.id && q.id == s.id
                        && r.position < s.position ensures p.position < q.position {
      TwoInOrder(before, sorted, after, r, s, p, q);
    }
  }

  lemma TwoInOrder(before: seq<Row>, sorted: seq<Row>, after: seq<Row>, r: Row, s: Row, p: Row, q: Row)
    requires Distinct(before, Id()) && Ordered(sorted, ByPosition()) && forall r | r in sorted :: r in before
    requires Numbered(sorted, after)
    requires r in before && s in before && p in after && q in after && p.id == r.id && q.id == s.id && r.position < s.position
    ensures p.position < q.position
  {
    var i :| 0 <= i < |after| && after[i] == p;
    var j :| 0 <= j < |after| && after[j] == q;
    assert sorted[i] in before && sorted[j] in before && p.position == i && q.position == j;
    hide Distinct, Ordered, Numbered;
    OneRow(before, r, sorted[i]);
    OneRow(before, s, sorted[j]);
    EarlierIsLower(sorted, i, j);
  }

  lemma EarlierIsLower(sorted: seq<Row>, i: nat, j: nat)
    requires Ordered(sorted, ByPosition()) && i < |sorted| && j < |sorted| && sorted[i].position < sorted[j].position
    ensures i < j
  {
    var inOrder := ByPosition()(sorted[j], sorted[i]);
  }

  lemma OneRow(rows: seq<Row>, r: Row, s: Row)
    requires Distinct(rows, Id()) && r in rows && s in rows && r.id == s.id
    ensures r == s
  {
    var i :| 0 <= i < |rows| && rows[i] == r;
    var j :| 0 <= j < |rows| && rows[j] == s;
    var a, b := Id()(rows[i]), Id()(rows[j]);
  }

  /** After the first form a removal only makes its row inactive.  Before it, it takes the row out,
      unless an order refers to it, and closes the gap: the others stay what they are, in the same
      order, at positions 0 to N-1. */
  lemma RemoveWrites(t: Table, id: ItemId)
    requires Inv(t)
    ensures var (after, outcome) := Remove(t, id);
            && after == t.(rows := after.rows)
            && if !KnownId(t, id) then after == t && outcome == Failed(ItemNotFound)
               else if t.generated then
                 && outcome == Done && |after.rows| == |t.rows|
                 && (forall k | 0 <= k < |t.rows| ::
                       after.rows[k] == if t.rows[k].id == id then t.rows[k].(active := false) else t.rows[k])
               else if id in t.ordered then after == t && outcome == Failed(StillOrdered)
               else outcome == Done && Contiguous(after.rows) && Removed(t.rows, after.rows, id)
  {
    KnownIs(t, id);
    if KnownId(t, id) {
      var i := IndexOf(t.rows, id);
      if t.generated {
        Deactivated(t, id, i);
      } else if id !in t.ordered {
        RemovalIs(t, id);
        RemoveKeeps(t, id);
        var rest := t.rows[..i] + t.rows[i + 1..];
        var sorted := Sort(rest, ByPosition());
        NumberedInOrder(sorted);
        SortedByPosition(rest);
        forall r ensures r in sorted <==> r in t.rows && r.id != id {
          RestOf(t.rows, i, r);
        }
        hide Remove, Sort, Placed, Moved, Removed, Distinct, Contiguous;
        NumberedRest(t.rows, sorted, Remove(t, id).0.rows, id);
      }
    }
  }

  lemma Deactivated(t: Table, id: ItemId, i: nat)
    requires Inv(t) && t.generated && i == IndexOf(t.rows, id) < |t.rows|
    ensures Remove(t, id).1 == Done && Remove(t, id).0 == t.(rows := Remove(t, id).0.rows)
    ensures var after := Remove(t, id).0;
            |after.rows| == |t.rows| && forall k | 0 <= k < |t.rows| ::
              after.rows[k] == if t.rows[k].id == id then t.rows[k].(active := false) else t.rows[k]
  {
    forall k | 0 <= k < |t.rows| && k != i ensures t.rows[k].id != id {
      if k < i {
        assert Id()(t.rows[k]) != Id()(t.rows[i]);
      } else {
        assert Id()(t.rows[i]) != Id()(t.rows[k]);
      }
    }
  }

  // ----------------------------------------------------------------------------------- reorder

  lemma {:induction false} LastIndexNoRepeats(ids: seq<ItemId>, k: nat, j: nat)
    requires NoRepeats(ids) && j < k <= |ids|
    ensures LastIndex(ids, k, ids[j]) == Some(j)
  {
    if j < k - 1 {
      assert ids[j] != ids[k - 1];
      LastIndexNoRepeats(ids, k - 1, j);
    }
  }

  ghost predicate Reordered(before: seq<Row>, after: seq<Row>, ids: seq<ItemId>) {
    && |after| == |before|
    && (forall q | q in after ::
          && q.position < |ids| && ids[q.position] == q.id
          && exists r :: r in before && SameItem(r, q))
  }

  /** A reorder is refused after the first form, for a wrong number of identifiers, or for an unknown
      one.  Otherwise, naming each item once, it puts the item named k-th at position k and changes
      nothing else. */
  lemma ReorderWrites(t: Table, ids: seq<ItemId>)
    requires Inv(t)
    ensures var (after, outcome) := Reorder(t, ids);
            && after == t.(rows := after.rows)
            && if t.generated then after == t && outcome == Failed(LockedAfterForm)
               else if |ids| != |t.rows| then after == t && outcome == Failed(CountMismatch)
               else if exists id :: id in ids && !KnownId(t, id) then after == t && outcome == Failed(ItemNotFound)
               else outcome == Done && (NoRepeats(ids) ==> Reordered(t.rows, after.rows, ids))
  {
    SortedTable(t);
    var items := Sort(t.rows, ByPosition());
    forall id ensures KnownId(t, id) <==> IndexOf(items, id) < |items| {
      ListingIsKnown(items, id);
    }
    hide Sort;
    if !t.generated && |ids| == |t.rows| && AllKnown(items, ids) {
      ReorderContiguousExactlyWhen(t, ids);
      if NoRepeats(ids) {
        RewriteWorks(items, ids);
        assert Reorder(t, ids).0.rows == Placed(Moved(items, |items|), ids, |ids|);
        hide Rewrite, Reorder, Inv;
        PlacedAsNamed(t.rows, items, ids);
      }
    }
  }

  lemma PlacedAsNamed(before: seq<Row>, items: seq<Row>, ids: seq<ItemId>)
    requires Distinct(items, Id()) && AllKnown(items, ids) && |ids| == |items| == |before| && NoRepeats(ids)
    requires forall q :: q in items <==> q in before
    ensures Reordered(before, Placed(Moved(items, |items|), ids, |ids|), ids)
  {
    ListsEveryRow(items, ids);
    var after := Placed(Moved(items, |items|), ids, |ids|);
    forall q | q in after
      ensures q.position < |ids| && ids[q.position] == q.id && exists r :: r in before && SameItem(r, q) {
      var i :| 0 <= i < |after| && after[i] == q;
      assert items[i].id in Listed(ids);
      var j :| 0 <= j < |ids| && ids[j] == items[i].id;
      LastIndexNoRepeats(ids, |ids|, j);
      assert items[i] in before && SameItem(items[i], q);
    }
  }

  // ------------------------------------------------------------------------------------- order

  /** An order refers to its items from then on, all of them or, if one does not exist or is inactive
      off a form, none. */
  lemma OrderWrites(t: Table, ids: seq<ItemId>, fromForm: bool)
    requires Inv(t)
    ensures var (after, outcome) := Order(t, ids, fromForm);
            if forall id | id in ids :: exists r :: r in t.rows && r.id == id && (fromForm || r.active)
            then outcome == Done && after == t.(ordered := after.ordered)
                 && forall id :: id in after.ordered <==> id in t.ordered || id in ids
            else after == t && outcome == Failed(ItemNotFound)
  {
    forall id ensures (exists r :: r in t.rows && r.id == id && (fromForm || r.active))
                      <==> IndexOf(t.rows, id) < |t.rows| && (fromForm || t.rows[IndexOf(t.rows, id)].active) {
      KnownIs(t, id);
      if r :| r in t.rows && r.id == id && (fromForm || r.active) {
        OneRow(t.rows, r, t.rows[IndexOf(t.rows, id)]);
      }
    }
    hide Inv;
  }
}
