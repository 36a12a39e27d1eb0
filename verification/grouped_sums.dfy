/** Keyed totals. */
module GroupedSums {
  // In insertion order: the JavaScript Map that sums quantities per menu item, the Map of vouchers
  // per prisoner, and the rows of a SQL GROUP BY.

  datatype Cell<K> = Cell(key: K, amount: int)

  ghost predicate DistinctKeys<K>(cells: seq<Cell<K>>) {
    forall i, j | 0 <= i < j < |cells| :: cells[i].key != cells[j].key
  }

  function Total<K>(cells: seq<Cell<K>>): int {
    if cells == [] then 0 else cells[0].amount + Total(cells[1..])
  }

  function Lookup<K(==)>(cells: seq<Cell<K>>, k: K): int {
    if cells == [] then 0 else if cells[0].key == k then cells[0].amount else Lookup(cells[1..], k)
  }

  /** Adds to the cell of k, or appends a new one. */
  function Bump<K(==)>(cells: seq<Cell<K>>, k: K, amount: int): seq<Cell<K>> {
    if cells == [] then [Cell(k, amount)]
    else if cells[0].key == k then [Cell(k, cells[0].amount + amount)] + cells[1..]
    else [cells[0]] + Bump(cells[1..], k, amount)
  }

  function Keys<K>(cells: seq<Cell<K>>): set<K> {
    set i | 0 <= i < |cells| :: cells[i].key
  }

  lemma {:induction false} BumpAdds<K>(cells: seq<Cell<K>>, k: K, amount: int)
    ensures Total(Bump(cells, k, amount)) == Total(cells) + amount
    ensures forall x :: Lookup(Bump(cells, k, amount), x) == Lookup(cells, x) + (if x == k then amount else 0)
    ensures Keys(Bump(cells, k, amount)) == Keys(cells) + {k}
    ensures |cells| <= |Bump(cells, k, amount)| <= |cells| + 1
  {
    var after := Bump(cells, k, amount);
    if cells != [] {
      HeadKeys(cells);
      HeadKeys(after);
      if cells[0].key != k {
        BumpAdds(cells[1..], k, amount);
        assert after[1..] == Bump(cells[1..], k, amount);
      } else {
        assert after[1..] == cells[1..];
      }
    }
  }

  lemma HeadKeys<K>(cells: seq<Cell<K>>)
    requires cells != []
    ensures Keys(cells) == {cells[0].key} + Keys(cells[1..])
  {
  }

  lemma {:induction false} BumpKeepsDistinct<K>(cells: seq<Cell<K>>, k: K, amount: int)
    requires DistinctKeys(cells)
    ensures DistinctKeys(Bump(cells, k, amount))
  {
    var after := Bump(cells, k, amount);
    if cells != [] && cells[0].key != k {
      BumpKeepsDistinct(cells[1..], k, amount);
      BumpAdds(cells[1..], k, amount);
      assert after[1..] == Bump(cells[1..], k, amount);
      forall j | 0 < j < |after| ensures after[0].key != after[j].key {
        assert after[j] == after[1..][j - 1];
        assert after[j].key in Keys(after[1..]);
        if after[j].key != k {
          var i :| 0 <= i < |cells[1..]| && cells[1..][i].key == after[j].key;
          assert cells[i + 1].key == after[j].key;
        }
      }
    }
  }

  /** The loop `m.set(k, (m.get(k) ?? 0) + amount)` over an insertion-ordered map. */
  method AddTo<K(==)>(cells: seq<Cell<K>>, k: K, amount: int) returns (r: seq<Cell<K>>)
    ensures r == Bump(cells, k, amount)
  {
    var i := 0;
    assert cells[..0] == [] && cells[0..] == cells;
    while i < |cells| && cells[i].key != k
      invariant 0 <= i <= |cells|
      invariant Bump(cells, k, amount) == cells[..i] + Bump(cells[i..], k, amount)
    {
      i := i + 1;
    }
    if i == |cells| {
      r := cells + [Cell(k, amount)];
    } else {
      r := cells[i := Cell(k, cells[i].amount + amount)];
      assert r == cells[..i] + [Cell(k, cells[i].amount + amount)] + cells[i..][1..];
    }
  }

}
