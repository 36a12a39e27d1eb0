/** Delivery vouchers. */
module Vouchers {
  // getDeliveryVouchers of orders.service.ts.  Names and locations live in other tables: the order
  // they give to items and to prisoners is a parameter.

  import opened GroupedSums
  import opened Sorting
  import opened Accounts
  import opened Orders

  datatype Voucher = Voucher(user: User, items: seq<Cell<MenuId>>, total: int, remainingBalance: int)

  datatype Layout = Layout(byName: (MenuId, MenuId) -> bool, byPlace: (User, User) -> bool)

  function ItemOrder(layout: Layout): (Cell<MenuId>, Cell<MenuId>) -> bool {
    (a: Cell<MenuId>, b: Cell<MenuId>) => layout.byName(a.key, b.key)
  }

  function VoucherOrder(layout: Layout): (Voucher, Voucher) -> bool {
    (a: Voucher, b: Voucher) => layout.byPlace(a.user, b.user)
  }

  predicate Counts(o: Order, date: Date, user: User) {
    PaidBetween(o, date, date) && o.user == user
  }

  function AddPortions(cells: seq<Cell<MenuId>>, items: seq<Item>): seq<Cell<MenuId>> {
    if items == [] then cells
    else
      var n := |items| - 1;
      Bump(AddPortions(cells, items[..n]), items[n].menu, items[n].quantity)
  }

  /** What one prisoner gets: the portions of each item over all their paid orders of the day. */
  function Delivered(orders: seq<Order>, date: Date, user: User): seq<Cell<MenuId>> {
    if orders == [] then []
    else
      var n := |orders| - 1;
      var before := Delivered(orders[..n], date, user);
      if Counts(orders[n], date, user) then AddPortions(before, orders[n].items) else before
  }

  function Owner(): Order -> User {
    (o: Order) => o.user
  }

  function VoucherFor(cell: Cell<User>, orders: seq<Order>, b: Books, date: Date, layout: Layout): Voucher {
    Voucher(cell.key, Sort(Delivered(orders, date, cell.key), ItemOrder(layout)), cell.amount, Balance(b, cell.key))
  }

  function VouchersOf(cells: seq<Cell<User>>, orders: seq<Order>, b: Books, date: Date, layout: Layout): seq<Voucher> {
    seq(|cells|, i requires 0 <= i < |cells| => VoucherFor(cells[i], orders, b, date, layout))
  }

  function Sheets(orders: seq<Order>, b: Books, date: Date, layout: Layout): seq<Voucher> {
    Sort(VouchersOf(RevenueBy(orders, date, date, Owner()), orders, b, date, layout), VoucherOrder(layout))
  }

  /** The item query: quantities summed by prisoner and item, then sorted by name. */
  method DeliveredItems(orders: seq<Order>, date: Date, user: User, layout: Layout) returns (items: seq<Cell<MenuId>>)
    ensures items == Sort(Delivered(orders, date, user), ItemOrder(layout))
  {
    items := [];
    for i := 0 to |orders|
      invariant items == Delivered(orders[..i], date, user)
    {
      assert orders[..i + 1][..i] == orders[..i];
      if Counts(orders[i], date, user) {
        var lines := orders[i].items;
        for k := 0 to |lines|
          invariant items == AddPortions(Delivered(orders[..i], date, user), lines[..k])
        {
          assert lines[..k + 1][..k] == lines[..k];
          items := AddTo(items, lines[k].menu, lines[k].quantity);
        }
        assert lines[..|lines|] == lines;
      }
    }
    assert orders[..|orders|] == orders;
    items := Sort(items, ItemOrder(layout));
  }

  /** getDeliveryVouchers: one sheet per prisoner with paid active orders on that date. */
  method GetDeliveryVouchers(orders: seq<Order>, b: Books, date: Date, layout: Layout) returns (vouchers: seq<Voucher>)
    ensures vouchers == Sheets(orders, b, date, layout)
  {
    var byUser: seq<Cell<User>> := [];
    for i := 0 to |orders|
      invariant byUser == RevenueBy(orders[..i], date, date, Owner())
    {
      assert orders[..i + 1][..i] == orders[..i];
      if orders[i].status == Active && orders[i].paid && orders[i].date == date {
        byUser := AddTo(byUser, orders[i].user, orders[i].total);
      }
    }
    assert orders[..|orders|] == orders;
    vouchers := [];
    for k := 0 to |byUser|
      invariant vouchers == VouchersOf(byUser[..k], orders, b, date, layout)
    {
      var items := DeliveredItems(orders, date, byUser[k].key, layout);
      vouchers := vouchers + [Voucher(byUser[k].key, items, byUser[k].amount, Balance(b, byUser[k].key))];
    }
    assert byUser[..|byUser|] == byUser;
    vouchers := Sort(vouchers, VoucherOrder(layout));
  }

  // ---------------------------------------------------------------------------- sums survive sorting

  function SumOf<T>(xs: seq<T>, f: T -> int): int {
    if xs == [] then 0 else f(xs[0]) + SumOf(xs[1..], f)
  }

  lemma {:induction false} InsertKeepsSum<T>(x: T, xs: seq<T>, le: (T, T) -> bool, f: T -> int)
    ensures SumOf(Insert(x, xs, le), f) == f(x) + SumOf(xs, f)
  {
    var after := Insert(x, xs, le);
    if xs == [] || le(x, xs[0]) {
      assert after[1..] == xs;
    } else {
      InsertKeepsSum(x, xs[1..], le, f);
      assert after[1..] == Insert(x, xs[1..], le);
    }
  }

  lemma {:induction false} SortKeepsSum<T>(xs: seq<T>, le: (T, T) -> bool, f: T -> int)
    ensures SumOf(Sort(xs, le), f) == SumOf(xs, f)
  {
    if xs != [] {
      SortKeepsSum(xs[1..], le, f);
      InsertKeepsSum(xs[0], Sort(xs[1..], le), le, f);
    }
  }

  ghost predicate Differ<T>(xs: seq<T>, key: T -> nat) {
    forall i, j | 0 <= i < j < |xs| :: key(xs[i]) != key(xs[j])
  }

  ghost predicate Apart<T>(x: T, xs: seq<T>, key: T -> nat) {
    forall y | y in xs :: key(y) != key(x)
  }

  lemma {:induction false} InsertKeepsDiffer<T(!new)>(x: T, xs: seq<T>, le: (T, T) -> bool, key: T -> nat)
    requires Differ(xs, key) && Apart(x, xs, key)
    ensures Differ(Insert(x, xs, le), key)
    ensures forall y | y in Insert(x, xs, le) :: y == x || y in xs
    ensures x in Insert(x, xs, le) && forall y | y in xs :: y in Insert(x, xs, le)
  {
    if xs == [] || le(x, xs[0]) {
      assert forall y | y in xs :: key(y) != key(x);
    } else {
      var rest := Insert(x, xs[1..], le);
      InsertKeepsDiffer(x, xs[1..], le, key);
      assert forall y :: y in xs <==> y == xs[0] || y in xs[1..];
      assert key(xs[0]) != key(x) by {
        assert xs[0] in xs;
      }
      forall y | y in rest ensures key(y) != key(xs[0]) {
        assert y == x || y in xs[1..];
        if y in xs[1..] {
          var i :| 0 <= i < |xs[1..]| && xs[1..][i] == y;
          assert key(xs[0]) != key(xs[i + 1]);
        }
      }
    }
  }

  lemma {:induction false} SortKeepsDiffer<T(!new)>(xs: seq<T>, le: (T, T) -> bool, key: T -> nat)
    requires Differ(xs, key)
    ensures Differ(Sort(xs, le), key)
    ensures forall y | y in Sort(xs, le) :: y in xs
    ensures forall y | y in xs :: y in Sort(xs, le)
  {
    if xs != [] {
      SortKeepsDiffer(xs[1..], le, key);
      var rest := Sort(xs[1..], le);
      forall y | y in rest ensures key(y) != key(xs[0]) {
        assert y in Sort(xs[1..], le) && y in xs[1..];
        var i :| 0 <= i < |xs[1..]| && xs[1..][i] == y;
        assert key(xs[0]) != key(xs[i + 1]);
      }
      InsertKeepsDiffer(xs[0], rest, le, key);
      assert forall y :: y in xs <==> y == xs[0] || y in xs[1..];
    }
  }

  // ------------------------------------------------------------------------------------- portions

  function PortionOf(m: MenuId): Cell<MenuId> -> int {
    (c: Cell<MenuId>) => if c.key == m then c.amount else 0
  }

  function Portions(cells: seq<Cell<MenuId>>, m: MenuId): int {
    SumOf(cells, PortionOf(m))
  }

  /** How often an order names the item. */
  function Lines(items: seq<Item>, m: MenuId): int {
    if items == [] then 0
    else
      var n := |items| - 1;
      Lines(items[..n], m) + (if items[n].menu == m then items[n].quantity else 0)
  }

  /** Portions of an item over all paid orders of the day. */
  function Prepared(orders: seq<Order>, date: Date, m: MenuId): int {
    if orders == [] then 0
    else
      var n := |orders| - 1;
      Prepared(orders[..n], date, m) + (if PaidBetween(orders[n], date, date) then Lines(orders[n].items, m) else 0)
  }

  lemma {:induction false} BumpPortions(cells: seq<Cell<MenuId>>, k: MenuId, amount: int, m: MenuId)
    ensures Portions(Bump(cells, k, amount), m) == Portions(cells, m) + (if k == m then amount else 0)
  {
    var after := Bump(cells, k, amount);
    if cells == [] {
      assert after[1..] == [];
    } else {
      if cells[0].key == k {
        assert after[1..] == cells[1..];
      } else {
        BumpPortions(cells[1..], k, amount, m);
        assert after[1..] == Bump(cells[1..], k, amount);
      }
    }
  }

  lemma {:induction false} AddedPortions(cells: seq<Cell<MenuId>>, items: seq<Item>, m: MenuId)
    ensures Portions(AddPortions(cells, items), m) == Portions(cells, m) + Lines(items, m)
  {
    if items != [] {
      var n := |items| - 1;
      AddedPortions(cells, items[..n], m);
      BumpPortions(AddPortions(cells, items[..n]), items[n].menu, items[n].quantity, m);
    }
  }

  function ForAll(users: seq<User>, orders: seq<Order>, date: Date, m: MenuId): int {
    if users == [] then 0 else Portions(Delivered(orders, date, users[0]), m) + ForAll(users[1..], orders, date, m)
  }

  ghost predicate Different(users: seq<User>) {
    forall i, j | 0 <= i < j < |users| :: users[i] != users[j]
  }

  /** One more order adds its lines to exactly one of the prisoners. */
  lemma {:induction false} OneMoreOrder(users: seq<User>, orders: seq<Order>, date: Date, m: MenuId)
    requires Different(users) && orders != []
    ensures var o := orders[|orders| - 1];
            ForAll(users, orders, date, m)
            == ForAll(users, orders[..|orders| - 1], date, m)
               + (if PaidBetween(o, date, date) && o.user in users then Lines(o.items, m) else 0)
  {
    if users != [] {
      var n := |orders| - 1;
      OneMoreOrder(users[1..], orders, date, m);
      AddedPortions(Delivered(orders[..n], date, users[0]), orders[n].items, m);
    }
  }

  lemma {:induction false} NothingYet(users: seq<User>, date: Date, m: MenuId)
    ensures ForAll(users, [], date, m) == 0
  {
    if users != [] {
      NothingYet(users[1..], date, m);
    }
  }

  ghost predicate CoversPaid(users: seq<User>, orders: seq<Order>, date: Date) {
    forall i | 0 <= i < |orders| && PaidBetween(orders[i], date, date) :: orders[i].user in users
  }

  lemma {:induction false} PortionsShared(users: seq<User>, orders: seq<Order>, date: Date, m: MenuId)
    requires Different(users) && CoversPaid(users, orders, date)
    ensures ForAll(users, orders, date, m) == Prepared(orders, date, m)
  {
    if orders == [] {
      NothingYet(users, date, m);
    } else {
      var n := |orders| - 1;
      assert CoversPaid(users, orders[..n], date);
      PortionsShared(users, orders[..n], date, m);
      OneMoreOrder(users, orders, date, m);
    }
  }

  function Users(cells: seq<Cell<User>>): seq<User> {
    seq(|cells|, i requires 0 <= i < |cells| => cells[i].key)
  }

  lemma {:induction false} GroupsCover(orders: seq<Order>, date: Date)
    ensures forall i | 0 <= i < |orders| && PaidBetween(orders[i], date, date) ::
              orders[i].user in Keys(RevenueBy(orders, date, date, Owner()))
    ensures forall u | u in Keys(RevenueBy(orders, date, date, Owner())) ::
              exists i :: 0 <= i < |orders| && Counts(orders[i], date, u)
  {
    if orders != [] {
      var n := |orders| - 1;
      GroupsCover(orders[..n], date);
      var before, after := RevenueBy(orders[..n], date, date, Owner()), RevenueBy(orders, date, date, Owner());
      BumpAdds(before, orders[n].user, orders[n].total);
      assert forall i | 0 <= i < n :: orders[..n][i] == orders[i];
      forall u | u in Keys(after) ensures exists i :: 0 <= i < |orders| && Counts(orders[i], date, u) {
        if u in Keys(before) {
          var i :| 0 <= i < n && Counts(orders[..n][i], date, u);
          assert Counts(orders[i], date, u);
        } else {
          assert Counts(orders[n], date, u);
        }
      }
    }
  }

  function VoucherPortions(m: MenuId): Voucher -> int {
    (v: Voucher) => Portions(v.items, m)
  }

  function VoucherTotal(): Voucher -> int {
    (v: Voucher) => v.total
  }

  lemma {:induction false} SheetsShare(cells: seq<Cell<User>>, orders: seq<Order>, b: Books, date: Date, layout: Layout, m: MenuId)
    ensures SumOf(VouchersOf(cells, orders, b, date, layout), VoucherPortions(m)) == ForAll(Users(cells), orders, date, m)
    ensures SumOf(VouchersOf(cells, orders, b, date, layout), VoucherTotal()) == Total(cells)
  {
    var vouchers := VouchersOf(cells, orders, b, date, layout);
    if cells != [] {
      SheetsShare(cells[1..], orders, b, date, layout, m);
      SortKeepsSum(Delivered(orders, date, cells[0].key), ItemOrder(layout), PortionOf(m));
      assert vouchers[1..] == VouchersOf(cells[1..], orders, b, date, layout);
      assert Users(cells)[1..] == Users(cells[1..]);
    }
  }

  /** The vouchers of a day carry, of every item, exactly the portions its paid orders name, and
      their totals add up to the day's paid revenue. */
  lemma VouchersAddUp(orders: seq<Order>, b: Books, date: Date, layout: Layout, m: MenuId)
    ensures SumOf(Sheets(orders, b, date, layout), VoucherPortions(m)) == Prepared(orders, date, m)
    ensures SumOf(Sheets(orders, b, date, layout), VoucherTotal()) == PaidRevenue(orders, date, date)
  {
    var cells := RevenueBy(orders, date, date, Owner());
    var vouchers := VouchersOf(cells, orders, b, date, layout);
    GroupsAddUp(orders, date, date, Owner());
    GroupsCover(orders, date);
    forall u | u in Keys(cells) ensures u in Users(cells) {
      var i :| 0 <= i < |cells| && cells[i].key == u;
      assert Users(cells)[i] == u;
    }
    PortionsShared(Users(cells), orders, date, m);
    SheetsShare(cells, orders, b, date, layout, m);
    hide *;
    SortKeepsSum(vouchers, VoucherOrder(layout), VoucherPortions(m));
    SortKeepsSum(vouchers, VoucherOrder(layout), VoucherTotal());
    SheetsAre(orders, b, date, layout);
  }

  lemma SheetsAre(orders: seq<Order>, b: Books, date: Date, layout: Layout)
    ensures Sheets(orders, b, date, layout)
            == Sort(VouchersOf(RevenueBy(orders, date, date, Owner()), orders, b, date, layout), VoucherOrder(layout))
  {
  }

  ghost predicate LayoutOk(layout: Layout) {
    TotalPreorder(layout.byName) && TotalPreorder(layout.byPlace)
  }

  ghost predicate HasVoucher(vs: seq<Voucher>, u: User) {
    exists v :: v in vs && v.user == u
  }

  ghost predicate HasOrder(orders: seq<Order>, date: Date, u: User) {
    exists i :: 0 <= i < |orders| && Counts(orders[i], date, u)
  }

  ghost predicate ItemsTidy(items: seq<Cell<MenuId>>, layout: Layout) {
    forall i, j | 0 <= i < j < |items| :: items[i].key != items[j].key && layout.byName(items[i].key, items[j].key)
  }

  lemma {:induction false} AddPortionsDistinct(cells: seq<Cell<MenuId>>, items: seq<Item>)
    requires DistinctKeys(cells)
    ensures DistinctKeys(AddPortions(cells, items))
  {
    if items != [] {
      var n := |items| - 1;
      AddPortionsDistinct(cells, items[..n]);
      BumpKeepsDistinct(AddPortions(cells, items[..n]), items[n].menu, items[n].quantity);
    }
  }

  lemma {:induction false} DeliveredDistinct(orders: seq<Order>, date: Date, user: User)
    ensures DistinctKeys(Delivered(orders, date, user))
  {
    if orders != [] {
      var n := |orders| - 1;
      DeliveredDistinct(orders[..n], date, user);
      AddPortionsDistinct(Delivered(orders[..n], date, user), orders[n].items);
    }
  }

  lemma ItemsAreTidy(orders: seq<Order>, date: Date, user: User, layout: Layout)
    requires LayoutOk(layout)
    ensures ItemsTidy(Sort(Delivered(orders, date, user), ItemOrder(layout)), layout)
  {
    DeliveredDistinct(orders, date, user);
    var cells := Delivered(orders, date, user);
    var key := (c: Cell<MenuId>) => c.key;
    assert Differ(cells, key);
    SortKeepsDiffer(cells, ItemOrder(layout), key);
    assert TotalPreorder(ItemOrder(layout));
    SortIsOrderedPermutation(cells, ItemOrder(layout));
    var items := Sort(cells, ItemOrder(layout));
    hide Sort, Delivered, TotalPreorder;
    forall i, j | 0 <= i < j < |items|
      ensures items[i].key != items[j].key && layout.byName(items[i].key, items[j].key) {
      assert ItemOrder(layout)(items[i], items[j]) && key(items[i]) != key(items[j]);
    }
  }

  lemma GroupUsers(orders: seq<Order>, date: Date, u: User)
    ensures u in Keys(RevenueBy(orders, date, date, Owner())) <==> HasOrder(orders, date, u)
  {
    GroupsCover(orders, date);
  }

  lemma VoucherUsers(cells: seq<Cell<User>>, orders: seq<Order>, b: Books, date: Date, layout: Layout, u: User)
    ensures u in Keys(cells) <==> HasVoucher(VouchersOf(cells, orders, b, date, layout), u)
  {
    var vouchers := VouchersOf(cells, orders, b, date, layout);
    if u in Keys(cells) {
      var i :| 0 <= i < |cells| && cells[i].key == u;
      assert vouchers[i] in vouchers && vouchers[i].user == u;
    }
    if HasVoucher(vouchers, u) {
      var v :| v in vouchers && v.user == u;
      var i :| 0 <= i < |vouchers| && vouchers[i] == v;
      assert cells[i].key == u;
    }
  }

  /** In order of place, exactly one voucher for each prisoner with a paid order of the day, with
      their balance and their items in order of name, each listed once. */
  lemma OneSheetPerPrisoner(orders: seq<Order>, b: Books, date: Date, layout: Layout)
    requires LayoutOk(layout)
    ensures var vs := Sheets(orders, b, date, layout);
            && (forall i, j | 0 <= i < j < |vs| :: vs[i].user != vs[j].user && layout.byPlace(vs[i].user, vs[j].user))
            && (forall u :: HasVoucher(vs, u) <==> HasOrder(orders, date, u))
            && (forall v | v in vs :: v.remainingBalance == Balance(b, v.user) && ItemsTidy(v.items, layout))
  {
    var cells := RevenueBy(orders, date, date, Owner());
    var vouchers, vs := VouchersOf(cells, orders, b, date, layout), Sheets(orders, b, date, layout);
    var user := (v: Voucher) => v.user;
    GroupsAddUp(orders, date, date, Owner());
    assert Differ(vouchers, user);
    assert TotalPreorder(VoucherOrder(layout));
    SortIsOrderedPermutation(vouchers, VoucherOrder(layout));
    SortKeepsDiffer(vouchers, VoucherOrder(layout), user);
    hide RevenueBy, Sort, TotalPreorder, ItemsTidy, HasOrder;
    forall v | v in vs ensures v.remainingBalance == Balance(b, v.user) && ItemsTidy(v.items, layout) {
      var i :| 0 <= i < |cells| && vouchers[i] == v;
      ItemsAreTidy(orders, date, cells[i].key, layout);
    }
    forall u ensures HasVoucher(vs, u) <==> HasOrder(orders, date, u) {
      GroupUsers(orders, date, u);
      VoucherUsers(cells, orders, b, date, layout, u);
    }
    forall i, j | 0 <= i < j < |vs| ensures vs[i].user != vs[j].user && layout.byPlace(vs[i].user, vs[j].user) {
      assert VoucherOrder(layout)(vs[i], vs[j]) && user(vs[i]) != user(vs[j]);
    }
  }
}
