/** What the menu keeps over every run, and what an issued form freezes (menu.service.ts): the
    positions stay contiguous, the codes stay distinct, the single writes of the two-phase rewrite
    never collide, and after the first form every row keeps its place, its code and its name. */
module MenuLaws {
  import opened Sorting
  import opened Numerals
  import opened Menu

  // ------------------------------------------------------------------------------ the invariant

  ghost predicate Distinct(rows: seq<Row>, key: Row -> nat) {
    forall i, j | 0 <= i < j < |rows| :: key(rows[i]) != key(rows[j])
  }

  function Id(): Row -> nat {
    (r: Row) => r.id
  }

  function Code(): Row -> nat {
    (r: Row) => r.code
  }

  function Position(): Row -> nat {
    (r: Row) => r.position
  }

  ghost predicate Contiguous(rows: seq<Row>) {
    Distinct(rows, Position()) && forall i | 0 <= i < |rows| :: rows[i].position < |rows|
  }

  ghost predicate CodesOk(rows: seq<Row>) {
    Distinct(rows, Code()) && forall i | 0 <= i < |rows| :: 1 <= rows[i].code <= MAX_CODE
  }

  ghost predicate IdsOk(t: Table) {
    Distinct(t.rows, Id()) && forall i | 0 <= i < |t.rows| :: t.rows[i].id < t.nextId
  }

  ghost predicate Inv(t: Table) {
    Contiguous(t.rows) && CodesOk(t.rows) && IdsOk(t)
  }

  // ---------------------------------------------------------------------------------- counting

  function Values(rows: seq<Row>, key: Row -> nat): set<nat> {
    set i | 0 <= i < |rows| :: key(rows[i])
  }

  function Below(n: nat): set<nat> {
    if n == 0 then {} else Below(n - 1) + {n - 1}
  }

  lemma {:induction false} InBelow(n: nat, k: nat)
    ensures k in Below(n) <==> k < n
  {
    if n > 0 {
      InBelow(n - 1, k);
    }
  }

  lemma {:induction false} BelowIs(n: nat)
    ensures forall k: nat :: k in Below(n) <==> k < n
    ensures |Below(n)| == n
  {
    forall k: nat ensures k in Below(n) <==> k < n {
      InBelow(n, k);
    }
    if n > 0 {
      BelowIs(n - 1);
      InBelow(n - 1, n - 1);
    }
  }

  lemma ValuesOfLast(rows: seq<Row>, key: Row -> nat)
    requires rows != []
    ensures Values(rows, key) == Values(rows[..|rows| - 1], key) + {key(rows[|rows| - 1])}
  {
  }

  lemma {:induction false} DistinctSize(rows: seq<Row>, key: Row -> nat)
    requires Distinct(rows, key)
    ensures |Values(rows, key)| == |rows|
  {
    if rows != [] {
      var n := |rows| - 1;
      DistinctSize(rows[..n], key);
      ValuesOfLast(rows, key);
      assert key(rows[n]) !in Values(rows[..n], key);
    }
  }

  lemma SubsetSize(a: set<nat>, b: set<nat>)
    requires a <= b
    ensures |a| <= |b|
    ensures |a| == |b| ==> a == b
  {
    assert b == a + (b - a);
    assert |b| == |a| + |b - a|;
  }

  /** N distinct positions below N are all of 0 to N-1. */
  lemma ContiguousIsExact(rows: seq<Row>)
    requires Contiguous(rows)
    ensures Values(rows, Position()) == Below(|rows|)
  {
    DistinctSize(rows, Position());
    BelowIs(|rows|);
    SubsetSize(Values(rows, Position()), Below(|rows|));
  }

  /** Distinct three-digit codes leave room for 999 rows. */
  lemma AtMost999(rows: seq<Row>)
    requires CodesOk(rows)
    ensures |rows| <= MAX_CODE
  {
    DistinctSize(rows, Code());
    BelowIs(MAX_CODE + 1);
    SubsetSize(Values(rows, Code()), Below(MAX_CODE + 1) - {0});
  }

  // ------------------------------------------------------------------------ sorting and cutting

  lemma {:induction false} InsertKeepsDistinct(r: Row, rows: seq<Row>, key: Row -> nat)
    requires Distinct(rows, key) && forall q | q in rows :: key(q) != key(r)
    ensures Distinct(Insert(r, rows, ByPosition()), key)
    ensures forall q :: q in Insert(r, rows, ByPosition()) <==> q == r || q in rows
  {
    if rows != [] && !ByPosition()(r, rows[0]) {
      InsertKeepsDistinct(r, rows[1..], key);
      var rest := Insert(r, rows[1..], ByPosition());
      forall j | 0 <= j < |rest| ensures key(rest[j]) != key(rows[0]) {
        assert rest[j] in rest;
        if rest[j] in rows[1..] {
          var q :| 0 <= q < |rows[1..]| && rows[1..][q] == rest[j];
        }
      }
    }
  }

  lemma {:induction false} SortKeepsDistinct(rows: seq<Row>, key: Row -> nat)
    requires Distinct(rows, key)
    ensures Distinct(Sort(rows, ByPosition()), key)
    ensures forall q :: q in Sort(rows, ByPosition()) <==> q in rows
    ensures |Sort(rows, ByPosition())| == |rows|
  {
    SortIsOrderedPermutation(rows, ByPosition());
    if rows != [] {
      SortKeepsDistinct(rows[1..], key);
      InsertKeepsDistinct(rows[0], Sort(rows[1..], ByPosition()), key);
    }
  }

  lemma SortKeepsSound(rows: seq<Row>)
    requires Distinct(rows, Position()) && Distinct(rows, Code()) && Distinct(rows, Id())
    ensures var sorted := Sort(rows, ByPosition());
            && Distinct(sorted, Position()) && Distinct(sorted, Code()) && Distinct(sorted, Id())
            && |sorted| == |rows| && (forall q :: q in sorted <==> q in rows)
  {
    hide *;
    SortKeepsDistinct(rows, Position());
    SortKeepsDistinct(rows, Code());
    SortKeepsDistinct(rows, Id());
  }

  lemma CutKeepsDistinct(rows: seq<Row>, i: nat, key: Row -> nat)
    requires i < |rows| && Distinct(rows, key)
    ensures Distinct(rows[..i] + rows[i + 1..], key)
    ensures forall q | q in rows[..i] + rows[i + 1..] :: q in rows && key(q) != key(rows[i])
  {
  }

  // --------------------------------------------------------------------- the two-phase rewrite

  function Moved(rows: seq<Row>, k: nat): seq<Row> {
    seq(|rows|, i requires 0 <= i < |rows| =>
      if i < k then rows[i].(position := rows[i].position + OFFSET) else rows[i])
  }

  /** Phase 1 never meets a taken position, after any number of single writes. */
  lemma {:induction false} ShiftWorks(rows: seq<Row>, k: nat)
    requires k <= |rows| && Distinct(rows, Position()) && forall i | 0 <= i < |rows| :: rows[i].position < OFFSET
    ensures ShiftAll(rows, k) == Some(Moved(rows, k))
  {
    if k == 0 {
      assert Moved(rows, 0) == rows;
    } else {
      ShiftWorks(rows, k - 1);
      var before := Moved(rows, k - 1);
      forall j | 0 <= j < |rows| && j != k - 1 ensures before[j].position != before[k - 1].position + OFFSET {
        assert Position()(rows[j]) != Position()(rows[k - 1]);
      }
      assert before[k - 1 := before[k - 1].(position := before[k - 1].position + OFFSET)] == Moved(rows, k);
    }
  }

  function LastIndex(ids: seq<ItemId>, k: nat, id: ItemId): (j: Option<nat>)
    requires k <= |ids|
    ensures j.Some? ==> j.value < k && ids[j.value] == id
    ensures j.None? <==> forall m | 0 <= m < k :: ids[m] != id
  {
    if k == 0 then None else if ids[k - 1] == id then Some(k - 1) else LastIndex(ids, k - 1, id)
  }

  function PlacedRow(r: Row, ids: seq<ItemId>, k: nat): Row
    requires k <= |ids|
  {
    match LastIndex(ids, k, r.id)
    case Some(j) => r.(position := j)
    case None => r
  }

  function Placed(rows: seq<Row>, ids: seq<ItemId>, k: nat): seq<Row>
    requires k <= |ids|
  {
    seq(|rows|, i requires 0 <= i < |rows| => PlacedRow(rows[i], ids, k))
  }

  lemma PlaceOne(rows: seq<Row>, ids: seq<ItemId>, k: nat)
    requires 0 < k <= |ids| <= OFFSET && Distinct(rows, Id()) && AllKnown(rows, ids)
    requires forall i | 0 <= i < |rows| :: rows[i].position >= OFFSET
    ensures var before := Placed(rows, ids, k - 1);
            var i := IndexOf(before, ids[k - 1]);
            i < |before| && Put(before, i, k - 1) == Some(Placed(rows, ids, k))
  {
    var before, after := Placed(rows, ids, k - 1), Placed(rows, ids, k);
    SameIndex(rows, before, ids[k - 1]);
    var i := IndexOf(before, ids[k - 1]);
    assert ids[k - 1] in ids;
    forall j | 0 <= j < |rows| && j != i ensures before[j].position != k - 1 && after[j] == before[j] {
      assert Id()(rows[j]) != Id()(rows[i]);
    }
    assert before[i := before[i].(position := k - 1)] == after;
  }

  /** Phase 2 never meets a taken position either, even when an id is listed twice. */
  lemma {:induction false} AssignWorks(rows: seq<Row>, ids: seq<ItemId>, k: nat)
    requires k <= |ids| <= OFFSET && Distinct(rows, Id()) && AllKnown(rows, ids)
    requires forall i | 0 <= i < |rows| :: rows[i].position >= OFFSET
    ensures AssignAll(rows, ids, k) == Some(Placed(rows, ids, k))
  {
    if k == 0 {
      assert Placed(rows, ids, 0) == rows;
    } else {
      AssignWorks(rows, ids, k - 1);
      PlaceOne(rows, ids, k);
    }
  }

  /** The whole rewrite: a listed row gets its (last) index, an unlisted one stays far away. */
  lemma RewriteWorks(rows: seq<Row>, ids: seq<ItemId>)
    requires Distinct(rows, Id()) && Distinct(rows, Position()) && AllKnown(rows, ids) && |ids| <= OFFSET
    requires forall i | 0 <= i < |rows| :: rows[i].position < OFFSET
    ensures Rewrite(rows, ids) == Some(Placed(Moved(rows, |rows|), ids, |ids|))
  {
    var moved := Moved(rows, |rows|);
    ShiftWorks(rows, |rows|);
    AllStillKnown(rows, moved, ids);
    forall i, j | 0 <= i < j < |moved| ensures Id()(moved[i]) != Id()(moved[j]) {
      assert Id()(rows[i]) != Id()(rows[j]);
    }
    AssignWorks(moved, ids, |ids|);
  }

  ghost predicate NoRepeats(ids: seq<ItemId>) {
    forall i, j | 0 <= i < j < |ids| :: ids[i] != ids[j]
  }

  function Listed(ids: seq<ItemId>): set<ItemId> {
    set i | 0 <= i < |ids| :: ids[i]
  }

  lemma ListedOfLast(ids: seq<ItemId>)
    requires ids != []
    ensures Listed(ids) == Listed(ids[..|ids| - 1]) + {ids[|ids| - 1]}
  {
  }

  lemma {:induction false} ListedBound(ids: seq<ItemId>)
    ensures |Listed(ids)| <= |ids|
  {
    if ids != [] {
      ListedBound(ids[..|ids| - 1]);
      ListedOfLast(ids);
    }
  }

  lemma RepeatsOfLast(ids: seq<ItemId>)
    requires ids != []
    ensures NoRepeats(ids) <==> NoRepeats(ids[..|ids| - 1]) && ids[|ids| - 1] !in Listed(ids[..|ids| - 1])
  {
    var n := |ids| - 1;
    if ids[n] in Listed(ids[..n]) {
      var m :| 0 <= m < n && ids[..n][m] == ids[n];
      assert ids[m] == ids[n];
    } else if NoRepeats(ids[..n]) {
      forall i, j | 0 <= i < j < |ids| ensures ids[i] != ids[j] {
        assert ids[i] == ids[..n][i];
      }
    }
  }

  lemma {:induction false} ListedSize(ids: seq<ItemId>)
    ensures |Listed(ids)| == |ids| <==> NoRepeats(ids)
  {
    if ids != [] {
      var n := |ids| - 1;
      ListedSize(ids[..n]);
      ListedBound(ids[..n]);
      ListedOfLast(ids);
      RepeatsOfLast(ids);
      hide Listed, NoRepeats;
    }
  }

  /** As many known ids as rows list every row exactly when none repeats. */
  lemma ListsEveryRow(rows: seq<Row>, ids: seq<ItemId>)
    requires Distinct(rows, Id()) && AllKnown(rows, ids) && |ids| == |rows|
    ensures NoRepeats(ids) <==> forall i | 0 <= i < |rows| :: rows[i].id in Listed(ids)
  {
    DistinctSize(rows, Id());
    ListedSize(ids);
    forall id | id in Listed(ids) ensures id in Values(rows, Id()) {
      assert Id()(rows[IndexOf(rows, id)]) == id;
    }
    SubsetSize(Listed(ids), Values(rows, Id()));
    assert NoRepeats(ids) ==> Listed(ids) == Values(rows, Id());
    if forall i | 0 <= i < |rows| :: rows[i].id in Listed(ids) {
      assert Values(rows, Id()) <= Listed(ids);
      assert Listed(ids) == Values(rows, Id());
    }
    if NoRepeats(ids) {
      forall i | 0 <= i < |rows| ensures rows[i].id in Listed(ids) {
        assert Id()(rows[i]) in Values(rows, Id());
      }
    }
  }

  lemma PlacedIsContiguous(rows: seq<Row>, ids: seq<ItemId>)
    requires Distinct(rows, Id()) && AllKnown(rows, ids) && |ids| == |rows| <= MAX_CODE
    requires forall i | 0 <= i < |rows| :: rows[i].position < OFFSET
    ensures Contiguous(Placed(Moved(rows, |rows|), ids, |ids|)) <==> NoRepeats(ids)
  {
    var moved := Moved(rows, |rows|);
    var after := Placed(moved, ids, |ids|);
    ListsEveryRow(rows, ids);
    if NoRepeats(ids) {
      forall i | 0 <= i < |after| ensures after[i].position < |after| && ids[after[i].position] == rows[i].id {
        assert rows[i].id in Listed(ids);
      }
      forall i, j | 0 <= i < j < |after| ensures Position()(after[i]) != Position()(after[j]) {
        assert Id()(rows[i]) != Id()(rows[j]);
      }
    } else {
      var i :| 0 <= i < |rows| && rows[i].id !in Listed(ids);
      assert after[i].position >= OFFSET;
    }
  }

  lemma PlacedKeepsRest(rows: seq<Row>, ids: seq<ItemId>)
    ensures var after := Placed(Moved(rows, |rows|), ids, |ids|);
            && |after| == |rows|
            && (forall i | 0 <= i < |rows| :: after[i] == rows[i].(position := after[i].position))
            && (CodesOk(rows) ==> CodesOk(after))
            && (Distinct(rows, Id()) ==> Distinct(after, Id()))
  {
  }

  lemma SortedTable(t: Table)
    requires Inv(t)
    ensures var items := Sort(t.rows, ByPosition());
            && CodesOk(items) && Distinct(items, Id()) && Distinct(items, Position()) && |items| == |t.rows|
            && (forall q :: q in items <==> q in t.rows)
            && (forall i | 0 <= i < |items| :: items[i].position < OFFSET && items[i].id < t.nextId)
            && |t.rows| <= MAX_CODE
  {
    AtMost999(t.rows);
    SortKeepsSound(t.rows);
    hide Sort;
    var items := Sort(t.rows, ByPosition());
    forall i | 0 <= i < |items|
      ensures items[i].position < OFFSET && items[i].id < t.nextId && 1 <= items[i].code <= MAX_CODE {
      assert items[i] in t.rows;
      var k :| 0 <= k < |t.rows| && t.rows[k] == items[i];
    }
  }

  /** A reorder of the right length naming known items is always carried out, and leaves the
      positions exactly 0 to N-1 if and only if no item is named twice. */
  lemma ReorderContiguousExactlyWhen(t: Table, ids: seq<ItemId>)
    requires Inv(t) && !t.generated && |ids| == |t.rows| && AllKnown(Sort(t.rows, ByPosition()), ids)
    ensures Reorder(t, ids).1 == Done
    ensures Contiguous(Reorder(t, ids).0.rows) <==> NoRepeats(ids)
    ensures CodesOk(Reorder(t, ids).0.rows) && IdsOk(Reorder(t, ids).0)
  {
    var items := Sort(t.rows, ByPosition());
    SortedTable(t);
    hide Sort;
    RewriteWorks(items, ids);
    PlacedIsContiguous(items, ids);
    PlacedKeepsRest(items, ids);
    hide Rewrite, Distinct;
    var after := Placed(Moved(items, |items|), ids, |ids|);
    assert Reorder(t, ids).0.rows == after;
    forall i | 0 <= i < |after| ensures after[i].id < t.nextId {
      assert after[i].id == items[i].id;
    }
  }

  lemma RemoveKeeps(t: Table, id: ItemId)
    requires Inv(t) && !t.generated && IndexOf(t.rows, id) < |t.rows|
    ensures Remove(t, id).1 == (if id in t.ordered then Failed(StillOrdered) else Done)
    ensures Inv(Remove(t, id).0) && (id in t.ordered ==> Remove(t, id).0 == t)
    ensures id !in t.ordered ==>
              && |Remove(t, id).0.rows| == |t.rows| - 1
              && (forall c :: c in Values(Remove(t, id).0.rows, Code())
                              <==> c in Values(t.rows, Code()) && c != t.rows[IndexOf(t.rows, id)].code)
              && (forall o | o != id && Listing(t.rows, o) :: Listing(Remove(t, id).0.rows, o))
  {
    if id in t.ordered {
      hide Inv, Sort, Rewrite;
      assert Remove(t, id) == (t, Failed(StillOrdered));
    } else {
      RemovalKeeps(t, id);
    }
  }

  lemma RemovalKeeps(t: Table, id: ItemId)
    requires Inv(t) && !t.generated && IndexOf(t.rows, id) < |t.rows| && id !in t.ordered
    ensures Remove(t, id).1 == Done && Inv(Remove(t, id).0)
    ensures |Remove(t, id).0.rows| == |t.rows| - 1
    ensures forall c :: c in Values(Remove(t, id).0.rows, Code())
                        <==> c in Values(t.rows, Code()) && c != t.rows[IndexOf(t.rows, id)].code
    ensures forall o | o != id && Listing(t.rows, o) :: Listing(Remove(t, id).0.rows, o)
  {
    hide *;
    var i := IndexOf(t.rows, id);
    var sorted := Sort(t.rows[..i] + t.rows[i + 1..], ByPosition());
    RestIsSorted(t, i);
    AllIdsKnown(sorted);
    RewriteWorks(sorted, IdsOf(sorted));
    Renumbered(t, sorted);
    var after := Placed(Moved(sorted, |sorted|), IdsOf(sorted), |IdsOf(sorted)|);
    RemovedIs(t, id, after);
    CodesDiffer(t);
    RestCodes(t.rows, i, sorted, after);
    RestIds(t.rows, i, sorted, after);
  }

  ghost predicate Listing(rows: seq<Row>, id: ItemId) {
    exists r :: r in rows && r.id == id
  }

  lemma RestIds(rows: seq<Row>, i: nat, sorted: seq<Row>, after: seq<Row>)
    requires i < |rows| && |after| == |sorted| && forall q :: q in sorted <==> q in rows[..i] + rows[i + 1..]
    requires forall k | 0 <= k < |sorted| :: after[k].id == sorted[k].id
    ensures forall o | o != rows[i].id && Listing(rows, o) :: Listing(after, o)
  {
    forall o | o != rows[i].id && Listing(rows, o) ensures Listing(after, o) {
      var r :| r in rows && r.id == o;
      var m :| 0 <= m < |rows| && rows[m] == r;
      assert r == if m < i then (rows[..i] + rows[i + 1..])[m] else (rows[..i] + rows[i + 1..])[m - 1];
      assert r in sorted;
      var k :| 0 <= k < |sorted| && sorted[k] == r;
      assert after[k].id == o;
    }
  }

  lemma CodesDiffer(t: Table)
    requires Inv(t)
    ensures Distinct(t.rows, Code())
  {
  }

  lemma RemovedIs(t: Table, id: ItemId, after: seq<Row>)
    requires !t.generated && IndexOf(t.rows, id) < |t.rows| && id !in t.ordered
    requires var i := IndexOf(t.rows, id);
             var sorted := Sort(t.rows[..i] + t.rows[i + 1..], ByPosition());
             AllKnown(sorted, IdsOf(sorted)) && Rewrite(sorted, IdsOf(sorted)) == Some(after)
    ensures Remove(t, id) == (t.(rows := after), Done)
  {
  }

  lemma RestIsSorted(t: Table, i: nat)
    requires Inv(t) && i < |t.rows|
    ensures var sorted := Sort(t.rows[..i] + t.rows[i + 1..], ByPosition());
            && CodesOk(sorted) && Distinct(sorted, Id()) && Distinct(sorted, Position())
            && |IdsOf(sorted)| == |sorted| == |t.rows| - 1 <= MAX_CODE <= OFFSET
            && (forall q :: q in sorted <==> q in t.rows[..i] + t.rows[i + 1..])
            && (forall k | 0 <= k < |sorted| :: sorted[k].position < OFFSET && sorted[k].id < t.nextId)
  {
    var rest := t.rows[..i] + t.rows[i + 1..];
    AtMost999(t.rows);
    CutKeepsDistinct(t.rows, i, Position());
    CutKeepsDistinct(t.rows, i, Code());
    CutKeepsDistinct(t.rows, i, Id());
    hide Sort, Distinct;
    SortKeepsSound(rest);
    RestIsSound(t, i, rest, Sort(rest, ByPosition()));
  }

  lemma Renumbered(t: Table, sorted: seq<Row>)
    requires CodesOk(sorted) && Distinct(sorted, Id()) && |sorted| <= MAX_CODE
    requires forall k | 0 <= k < |sorted| :: sorted[k].position < OFFSET && sorted[k].id < t.nextId
    ensures var after := Placed(Moved(sorted, |sorted|), IdsOf(sorted), |IdsOf(sorted)|);
            && Inv(t.(rows := after)) && |after| == |sorted|
            && (forall k | 0 <= k < |sorted| :: after[k].code == sorted[k].code && after[k].id == sorted[k].id)
  {
    AllIdsKnown(sorted);
    IdsRepeatNever(sorted);
    PlacedIsContiguous(sorted, IdsOf(sorted));
    PlacedKeepsRest(sorted, IdsOf(sorted));
    hide Placed, Moved, Distinct;
    var after := Placed(Moved(sorted, |sorted|), IdsOf(sorted), |IdsOf(sorted)|);
    forall k | 0 <= k < |after| ensures after[k].id < t.nextId && after[k].code == sorted[k].code && after[k].id == sorted[k].id {
      assert after[k] == sorted[k].(position := after[k].position);
    }
  }

  lemma IdsRepeatNever(rows: seq<Row>)
    requires Distinct(rows, Id())
    ensures NoRepeats(IdsOf(rows))
  {
  }

  lemma RestIsSound(t: Table, i: nat, rest: seq<Row>, sorted: seq<Row>)
    requires Inv(t) && i < |t.rows| <= MAX_CODE && rest == t.rows[..i] + t.rows[i + 1..]
    requires Distinct(sorted, Code()) && forall q :: q in sorted <==> q in rest
    ensures CodesOk(sorted)
    ensures forall k | 0 <= k < |sorted| :: sorted[k].position < OFFSET && sorted[k].id < t.nextId
  {
    forall k | 0 <= k < |sorted|
      ensures sorted[k].position < OFFSET && sorted[k].id < t.nextId && 1 <= sorted[k].code <= MAX_CODE {
      assert sorted[k] in rest;
      assert sorted[k] in t.rows;
      var m :| 0 <= m < |t.rows| && t.rows[m] == sorted[k];
    }
  }

  lemma RestCodes(rows: seq<Row>, i: nat, sorted: seq<Row>, after: seq<Row>)
    requires i < |rows| && Distinct(rows, Code()) && |after| == |sorted|
    requires forall q :: q in sorted <==> q in rows[..i] + rows[i + 1..]
    requires forall k | 0 <= k < |sorted| :: after[k].code == sorted[k].code
    ensures forall c :: c in Values(after, Code()) <==> c in Values(rows, Code()) && c != rows[i].code
  {
    forall c ensures c in Values(after, Code()) <==> c in Values(rows, Code()) && c != rows[i].code {
      if c in Values(after, Code()) {
        var k :| 0 <= k < |after| && Code()(after[k]) == c;
        assert sorted[k] in sorted;
        var m :| 0 <= m < |rows| && m != i && rows[m] == sorted[k];
        assert Code()(rows[m]) != Code()(rows[i]);
      }
      if c in Values(rows, Code()) && c != rows[i].code {
        var m :| 0 <= m < |rows| && Code()(rows[m]) == c;
        assert m != i;
        assert rows[m] in rows[..i] + rows[i + 1..];
        assert rows[m] in sorted;
        var k :| 0 <= k < |sorted| && sorted[k] == rows[m];
        assert Code()(after[k]) == c;
      }
    }
  }

  // -------------------------------------------------------------------------------------- adding

  lemma {:induction false} MaxPositionBounds(rows: seq<Row>)
    ensures forall i | 0 <= i < |rows| :: rows[i].position <= MaxPosition(rows)
    ensures MaxPosition(rows) == -1 || MaxPosition(rows) in Values(rows, Position())
    ensures rows == [] <==> MaxPosition(rows) == -1
  {
    if rows != [] {
      var n := |rows| - 1;
      MaxPositionBounds(rows[..n]);
      ValuesOfLast(rows, Position());
      forall i | 0 <= i < n ensures rows[i].position <= MaxPosition(rows) {
        assert rows[..n][i] == rows[i];
      }
    }
  }

  lemma {:induction false} MaxCodeBounds(rows: seq<Row>)
    ensures forall i | 0 <= i < |rows| :: rows[i].code <= MaxCode(rows)
    ensures MaxCode(rows) == 0 || MaxCode(rows) in Values(rows, Code())
  {
    if rows != [] {
      var n := |rows| - 1;
      MaxCodeBounds(rows[..n]);
      ValuesOfLast(rows, Code());
      forall i | 0 <= i < n ensures rows[i].code <= MaxCode(rows) {
        assert rows[..n][i] == rows[i];
      }
    }
  }

  lemma NextPosition(rows: seq<Row>)
    requires Contiguous(rows)
    ensures MaxPosition(rows) == |rows| - 1
  {
    var n := |rows|;
    MaxPositionBounds(rows);
    ContiguousIsExact(rows);
    BelowIs(n);
    if n > 0 {
      assert n - 1 in Values(rows, Position());
      var i :| 0 <= i < n && Position()(rows[i]) == n - 1;
    }
  }

  /** An add succeeds on its first attempt exactly while the highest code is below 999; it takes
      the next position and the next code, and disturbs nothing. */
  lemma AddKeeps(t: Table, c: Create)
    requires Inv(t)
    ensures TryAdd(t, c, 0).1 == (if MaxCode(t.rows) < MAX_CODE then Done else Failed(CodeWidthExceeded))
    ensures TryAdd(t, c, 0).1 == Done ==>
              TryAdd(t, c, 0).0 == Table(t.rows + [Row(t.nextId, MaxCode(t.rows) + 1, c.name, c.price, c.category, |t.rows|, true)],
                                         t.generated, t.nextId + 1, t.ordered)
    ensures Inv(TryAdd(t, c, 0).0)
  {
    var n := |t.rows|;
    NextPosition(t.rows);
    MaxCodeBounds(t.rows);
    assert !Taken(t.rows, MaxCode(t.rows) + 1, n);
    hide MaxCode, MaxPosition, Taken, Inv, Contiguous;
    if MaxCode(t.rows) < MAX_CODE {
      AppendKeeps(t, Row(t.nextId, MaxCode(t.rows) + 1, c.name, c.price, c.category, n, true));
    }
  }

  lemma AppendKeeps(t: Table, r: Row)
    requires Inv(t) && r.id == t.nextId && r.position == |t.rows| && 1 <= r.code <= MAX_CODE
    requires forall i | 0 <= i < |t.rows| :: t.rows[i].code < r.code
    ensures Inv(Table(t.rows + [r], t.generated, t.nextId + 1, t.ordered))
  {
  }

  lemma EditInPlaceKeeps(t: Table, i: nat, r: Row)
    requires Inv(t) && i < |t.rows|
    requires r.id == t.rows[i].id && r.code == t.rows[i].code && r.position == t.rows[i].position
    ensures Inv(t.(rows := t.rows[i := r]))
  {
  }

  // ---------------------------------------------------------------------------------------- runs

  datatype Step =
    | AddStep(c: Create)
    | EditStep(id: ItemId, u: Update)
    | RemoveStep(id: ItemId)
    | ReorderStep(ids: seq<ItemId>)
    | OrderStep(lines: seq<ItemId>, fromForm: bool)
    | GenerateForm

  function Do(t: Table, s: Step): Table {
    match s
    case AddStep(c) => TryAdd(t, c, 0).0
    case EditStep(id, u) => Edit(t, id, u).0
    case RemoveStep(id) => Remove(t, id).0
    case ReorderStep(ids) => Reorder(t, ids).0
    case OrderStep(ids, fromForm) => Order(t, ids, fromForm).0
    case GenerateForm => t.(generated := true)
  }

  function Run(t: Table, steps: seq<Step>): Table
    decreases |steps|
  {
    if steps == [] then t else Run(Do(t, steps[0]), steps[1..])
  }

  ghost predicate NoRepeatedReorder(steps: seq<Step>) {
    forall i | 0 <= i < |steps| && steps[i].ReorderStep? :: NoRepeats(steps[i].ids)
  }

  const EMPTY_MENU := Table([], false, 0, {})

  lemma StepKeeps(t: Table, s: Step)
    requires Inv(t) && (s.ReorderStep? ==> NoRepeats(s.ids))
    ensures Inv(Do(t, s))
  {
    hide Inv, Sort, NoRepeats;
    match s
    case AddStep(c) => AddKeeps(t, c);
    case EditStep(id, u) =>
      var i := IndexOf(t.rows, id);
      if i < |t.rows| {
        EditInPlaceKeeps(t, i, Edited(t.rows[i], u));
      }
    case RemoveStep(id) =>
      var i := IndexOf(t.rows, id);
      if i < |t.rows| {
        if t.generated {
          EditInPlaceKeeps(t, i, t.rows[i].(active := false));
        } else {
          RemoveKeeps(t, id);
        }
      }
    case ReorderStep(ids) => ReorderKeeps(t, ids);
    case OrderStep(ids, fromForm) => OrderKeeps(t, ids, fromForm);
    case GenerateForm => FormKeeps(t);
  }

  lemma OrderKeeps(t: Table, ids: seq<ItemId>, fromForm: bool)
    requires Inv(t)
    ensures Inv(Order(t, ids, fromForm).0)
  {
  }

  lemma FormKeeps(t: Table)
    requires Inv(t)
    ensures Inv(t.(generated := true))
  {
  }

  lemma ReorderKeeps(t: Table, ids: seq<ItemId>)
    requires Inv(t) && NoRepeats(ids)
    ensures Inv(Reorder(t, ids).0)
  {
    SortedTable(t);
    hide Sort, Distinct, NoRepeats;
    if !t.generated && |ids| == |t.rows| && AllKnown(Sort(t.rows, ByPosition()), ids) {
      ReorderContiguousExactlyWhen(t, ids);
    }
  }

  lemma {:induction false} RunKeeps(t: Table, steps: seq<Step>)
    requires Inv(t) && NoRepeatedReorder(steps)
    ensures Inv(Run(t, steps))
    decreases |steps|
  {
    hide Inv;
    if steps != [] {
      StepKeeps(t, steps[0]);
      RunKeeps(Do(t, steps[0]), steps[1..]);
    }
  }

  /** Over every run whose reorders name each item once: positions are exactly 0 to N-1, codes are
      distinct three-digit texts, and so there are at most 999 rows. */
  lemma MenuStaysContiguous(steps: seq<Step>)
    requires NoRepeatedReorder(steps)
    ensures var rows := Run(EMPTY_MENU, steps).rows;
            && Values(rows, Position()) == Below(|rows|)
            && |rows| <= MAX_CODE
            && (forall i | 0 <= i < |rows| :: |FormatCode(rows[i].code)| == 3)
            && (forall i, j | 0 <= i < j < |rows| :: FormatCode(rows[i].code) != FormatCode(rows[j].code))
  {
    RunKeeps(EMPTY_MENU, steps);
    var rows := Run(EMPTY_MENU, steps).rows;
    hide Run, FormatCode;
    ContiguousIsExact(rows);
    AtMost999(rows);
    forall i | 0 <= i < |rows| ensures |FormatCode(rows[i].code)| == 3 {
      CodeReads(rows[i].code);
    }
    forall i, j | 0 <= i < j < |rows| ensures FormatCode(rows[i].code) != FormatCode(rows[j].code) {
      assert Code()(rows[i]) != Code()(rows[j]);
      CodeReads(rows[i].code);
      CodeReads(rows[j].code);
    }
  }

  lemma CodeReads(code: nat)
    requires code <= MAX_CODE
    ensures |FormatCode(code)| == 3 && Value(FormatCode(code), 10) == code
  {
    assert Power(10, 0) == 1 && Power(10, 1) == 10 && Power(10, 2) == 100 && Power(10, 3) == 1000;
    PaddedReads(code, 10, 3);
  }

  // ------------------------------------------------------------------------------- ordered items

  /** Every order line still has its item. */
  ghost predicate Referenced(t: Table) {
    forall id | id in t.ordered :: Listing(t.rows, id)
  }

  lemma ReorderLists(t: Table, ids: seq<ItemId>, id: ItemId)
    requires Inv(t) && Listing(t.rows, id)
    ensures Listing(Reorder(t, ids).0.rows, id)
  {
    SortedTable(t);
    hide Sort, Distinct;
    var items := Sort(t.rows, ByPosition());
    if !t.generated && |ids| == |t.rows| && AllKnown(items, ids) {
      RewriteWorks(items, ids);
      PlacedKeepsRest(items, ids);
      var after := Placed(Moved(items, |items|), ids, |ids|);
      hide Rewrite, Placed, Moved, Inv;
      assert Reorder(t, ids).0.rows == after;
      var r :| r in t.rows && r.id == id;
      assert r in items;
      var k :| 0 <= k < |items| && items[k] == r;
      assert after[k].id == id;
    }
  }

  lemma ListingIsKnown(rows: seq<Row>, id: ItemId)
    ensures Listing(rows, id) <==> IndexOf(rows, id) < |rows|
  {
    if Listing(rows, id) {
      var r :| r in rows && r.id == id;
      var k :| 0 <= k < |rows| && rows[k] == r;
      assert IndexOf(rows, id) <= k;
    }
  }

  lemma StepKeepsListed(t: Table, s: Step, id: ItemId)
    requires Inv(t) && Listing(t.rows, id) && (id in t.ordered || !s.RemoveStep?)
    ensures Listing(Do(t, s).rows, id)
  {
    hide Inv, Sort, Rewrite;
    var r :| r in t.rows && r.id == id;
    match s
    case AddStep(c) =>
      AddKeeps(t, c);
      assert r in TryAdd(t, c, 0).0.rows;
    case EditStep(edited, u) =>
      var i := IndexOf(t.rows, edited);
      if i < |t.rows| {
        EditedListing(t.rows, i, Edited(t.rows[i], u), id);
      }
    case RemoveStep(removed) =>
      var i := IndexOf(t.rows, removed);
      if i < |t.rows| {
        if t.generated {
          EditedListing(t.rows, i, t.rows[i].(active := false), id);
        } else {
          RemoveKeeps(t, removed);
        }
      }
    case ReorderStep(ids) => ReorderLists(t, ids, id);
    case OrderStep(ids, fromForm) =>
    case GenerateForm =>
  }

  lemma EditedListing(rows: seq<Row>, i: nat, r: Row, id: ItemId)
    requires i < |rows| && r.id == rows[i].id && Listing(rows, id)
    ensures Listing(rows[i := r], id)
  {
    var q :| q in rows && q.id == id;
    var k :| 0 <= k < |rows| && rows[k] == q;
    assert rows[i := r][k].id == id;
  }

  lemma StepKeepsReferenced(t: Table, s: Step)
    requires Inv(t) && Referenced(t)
    ensures Referenced(Do(t, s)) && t.ordered <= Do(t, s).ordered
  {
    OrderedGrows(t, s);
    hide Inv, Do, Listing;
    forall id | id in Do(t, s).ordered ensures Listing(Do(t, s).rows, id) {
      StepKeepsListed(t, s, id);
    }
  }

  lemma OrderedGrows(t: Table, s: Step)
    requires Inv(t)
    ensures t.ordered <= Do(t, s).ordered
    ensures forall id | id in Do(t, s).ordered && id !in t.ordered :: s.OrderStep? && Listing(t.rows, id)
  {
    hide Inv, Sort, Rewrite;
    if s.AddStep? {
      AddKeeps(t, s.c);
    }
    if s.OrderStep? {
      forall id | id in s.lines ensures Listing(t.rows, id) <==> IndexOf(t.rows, id) < |t.rows| {
        ListingIsKnown(t.rows, id);
      }
    }
  }

  /** An item that an order names is never lost, whatever is done to the menu before the first
      form or after it. */
  lemma {:induction false} OrderedItemsStay(t: Table, steps: seq<Step>)
    requires Inv(t) && Referenced(t) && NoRepeatedReorder(steps)
    ensures Referenced(Run(t, steps)) && t.ordered <= Run(t, steps).ordered
    decreases |steps|
  {
    hide Inv, Do, Referenced;
    if steps != [] {
      StepKeeps(t, steps[0]);
      StepKeepsReferenced(t, steps[0]);
      OrderedItemsStay(Do(t, steps[0]), steps[1..]);
    }
  }

  // ------------------------------------------------------------------------- after the first form

  /** Every old row is still there with its position, code and name. */
  ghost predicate Frozen(rows: seq<Row>, after: seq<Row>) {
    && |rows| <= |after|
    && (forall i | 0 <= i < |rows| ::
          after[i].id == rows[i].id && after[i].code == rows[i].code && after[i].name == rows[i].name
          && after[i].position == rows[i].position)
  }

  lemma {:induction false} AddFreezes(t: Table, c: Create, attempt: nat)
    ensures Frozen(t.rows, TryAdd(t, c, attempt).0.rows) && TryAdd(t, c, attempt).0.generated == t.generated
    decreases MAX_CODE_RETRIES - attempt
  {
    if attempt < MAX_CODE_RETRIES {
      AddFreezes(t, c, attempt + 1);
    }
  }

  lemma StepFreezes(t: Table, s: Step)
    requires t.generated
    ensures Do(t, s).generated && Frozen(t.rows, Do(t, s).rows)
  {
  }

  /** Once a form exists, no run of any steps changes an item's position, code or name, and no row
      disappears. */
  lemma {:induction false} FormFreezesTheMenu(t: Table, steps: seq<Step>)
    requires t.generated
    ensures Run(t, steps).generated && Frozen(t.rows, Run(t, steps).rows)
    decreases |steps|
  {
    if steps != [] {
      StepFreezes(t, steps[0]);
      FormFreezesTheMenu(Do(t, steps[0]), steps[1..]);
    }
  }

  // ------------------------------------------------------------------------------- reused codes

  /** The entity calls codes monotonic and never reused.  Before a form exists that fails: the
      item added after a removal gets the removed code exactly when no order kept the item, its
      code was the highest, and the predecessor is 0 or still in use. */
  lemma RemovedCodeComesBackExactlyWhen(t: Table, id: ItemId, c: Create)
    requires Inv(t) && !t.generated && IndexOf(t.rows, id) < |t.rows|
    requires TryAdd(Remove(t, id).0, c, 0).1 == Done
    ensures var rows := TryAdd(Remove(t, id).0, c, 0).0.rows;
            var code := t.rows[IndexOf(t.rows, id)].code;
            && rows != []
            && (rows[|rows| - 1].code == code <==>
                  && id !in t.ordered
                  && (forall d | d in Values(t.rows, Code()) :: d <= code)
                  && (code == 1 || code - 1 in Values(t.rows, Code())))
  {
    hide *;
    var i := IndexOf(t.rows, id);
    var left := Remove(t, id).0;
    RemoveKeeps(t, id);
    AddKeeps(left, c);
    CodeSet(t, i);
    HighestCode(left.rows);
    if id in t.ordered {
      assert t.rows[i].code <= MaxCode(left.rows);
      return;
    }
    HighestPlusOne(Values(t.rows, Code()), Values(left.rows, Code()), t.rows[i].code, MaxCode(left.rows));
  }

  lemma CodeSet(t: Table, i: nat)
    requires Inv(t) && i < |t.rows|
    ensures t.rows[i].code in Values(t.rows, Code()) && forall d | d in Values(t.rows, Code()) :: d >= 1
  {
  }

  lemma HighestCode(rows: seq<Row>)
    ensures forall d | d in Values(rows, Code()) :: d <= MaxCode(rows)
    ensures MaxCode(rows) == 0 || MaxCode(rows) in Values(rows, Code())
  {
    MaxCodeBounds(rows);
  }

  lemma HighestPlusOne(all: set<nat>, kept: set<nat>, code: nat, highest: nat)
    requires code in all && (forall d :: d in kept <==> d in all && d != code) && forall d | d in all :: d >= 1
    requires (forall d | d in kept :: d <= highest) && (highest == 0 || highest in kept)
    ensures highest + 1 == code <==> (forall d | d in all :: d <= code) && (code == 1 || code - 1 in all)
  {
  }

  // ------------------------------------------------------------------------------ two short runs

  const RICE := Create("Rice", 10000, Food)
  const SOAP := Create("Soap", 5000, Essential)
  const RICE_ROW := Row(0, 1, "Rice", 10000, Food, 0, true)
  const SOAP_ROW := Row(1, 2, "Soap", 5000, Essential, 1, true)

  lemma TwoAdded()
    ensures Do(EMPTY_MENU, AddStep(RICE)) == Table([RICE_ROW], false, 1, {})
    ensures Do(Table([RICE_ROW], false, 1, {}), AddStep(SOAP)) == Table([RICE_ROW, SOAP_ROW], false, 2, {})
    ensures Inv(Table([RICE_ROW], false, 1, {})) && Inv(Table([RICE_ROW, SOAP_ROW], false, 2, {}))
  {
    assert Inv(EMPTY_MENU) && MaxCode([RICE_ROW]) == 1 by {
      assert MaxCode([RICE_ROW][..0]) == 0;
    }
    hide Inv, TryAdd;
    AddKeeps(EMPTY_MENU, RICE);
    AddKeeps(Table([RICE_ROW], false, 1, {}), SOAP);
  }

  lemma {:induction false} RunOfThree(t: Table, a: Step, b: Step, c: Step)
    ensures Run(t, [a, b, c]) == Do(Do(Do(t, a), b), c)
  {
    assert [a, b, c][1..] == [b, c] && [b, c][1..] == [c] && [c][1..] == [];
    assert Run(Do(Do(t, a), b), [c]) == Run(Do(Do(Do(t, a), b), c), []);
    assert Run(Do(t, a), [b, c]) == Run(Do(Do(t, a), b), [c]);
    hide Do;
  }

  /** Naming one item twice in a reorder is accepted and leaves a gap. */
  lemma RepeatedReorderLeavesAGap()
    ensures Reorder(Table([RICE_ROW, SOAP_ROW], false, 2, {}), [0, 0]).1 == Done
    ensures !Contiguous(Run(EMPTY_MENU, [AddStep(RICE), AddStep(SOAP), ReorderStep([0, 0])]).rows)
  {
    TwoAdded();
    RunOfThree(EMPTY_MENU, AddStep(RICE), AddStep(SOAP), ReorderStep([0, 0]));
    hide Inv, Reorder, TryAdd, Contiguous, Run;
    RepeatedReorder(Table([RICE_ROW, SOAP_ROW], false, 2, {}), RICE_ROW);
  }

  lemma RepeatedReorder(t: Table, r: Row)
    requires Inv(t) && !t.generated && |t.rows| == 2 && r in t.rows
    ensures Reorder(t, [r.id, r.id]).1 == Done && !Contiguous(Reorder(t, [r.id, r.id]).0.rows)
  {
    hide *;
    SortedTable(t);
    KnownById(Sort(t.rows, ByPosition()), r);
    Repeats(r.id);
    ReorderContiguousExactlyWhen(t, [r.id, r.id]);
  }

  lemma Repeats(id: ItemId)
    ensures !NoRepeats([id, id])
  {
    assert [id, id][0] == [id, id][1];
  }

  lemma KnownById(items: seq<Row>, r: Row)
    requires r in items
    ensures AllKnown(items, [r.id, r.id])
  {
    var k :| 0 <= k < |items| && items[k] == r;
    assert IndexOf(items, r.id) <= k;
  }

  /** Added, removed, and something else added: it is printed under the removed code 001. */
  lemma RemovedCodeComesBack()
    ensures var rows := Run(EMPTY_MENU, [AddStep(RICE), RemoveStep(0), AddStep(SOAP)]).rows;
            |rows| == 1 && rows[0].id == 1 && rows[0].name == SOAP.name && rows[0].code == RICE_ROW.code
  {
    TwoAdded();
    var t := Table([RICE_ROW], false, 1, {});
    RunOfThree(EMPTY_MENU, AddStep(RICE), RemoveStep(0), AddStep(SOAP));
    assert IndexOf(t.rows, 0) == 0;
    RemoveKeeps(t, 0);
    var left := Remove(t, 0).0;
    assert left.rows == [] && left.nextId == 1;
    AddKeeps(left, SOAP);
  }

  /** Added, ordered at the kiosk, removed: no form exists, and the removal is refused. */
  lemma OrderedItemIsNotRemoved()
    ensures var t := Run(EMPTY_MENU, [AddStep(RICE), OrderStep([0], false), RemoveStep(0)]);
            t == Table([RICE_ROW], false, 1, {0}) && Remove(t, RICE_ROW.id).1 == Failed(StillOrdered)
  {
    TwoAdded();
    RunOfThree(EMPTY_MENU, AddStep(RICE), OrderStep([0], false), RemoveStep(0));
    var t := Table([RICE_ROW], false, 1, {});
    hide TryAdd, Sort, Rewrite, Run;
    assert IndexOf(t.rows, 0) == 0;
    assert Order(t, [0], false).0 == t.(ordered := {0});
  }
}
