/** Orders and their money. */
module Orders {
  // After orders.service.ts: settlement from the balance, supersession and reports.  An order's id
  // is its position in insertion order, which stands for a fresh UUID.  A run is any sequence of
  // top-ups, creates and re-scans, cashier accepts and cashier rejects, with the menu and the
  // purchase limits free to change between steps.

  import opened GroupedSums
  import opened Accounts

  type MenuId = nat
  type Date = nat

  datatype Option<+T> = None | Some(value: T)

  datatype Source = Omr | Scanner | Relative | Manual | Unsupported
  datatype Channel = ScannedChannel | RelativeChannel | ManualChannel
  datatype Status = Active | Superseded | Rejected
  datatype Category = Food | Essential
  datatype Tender = Cash | Bank | FromBalance | OtherTender

  datatype MenuItem = MenuItem(price: nat, category: Category, active: bool)
  datatype Line = Line(item: MenuId, quantity: int)
  datatype Item = Item(menu: MenuId, unitPrice: nat, category: Category, quantity: int)

  datatype Order = Order(
    date: Date, user: User, source: Source, status: Status, total: int,
    paid: bool, tender: Option<Tender>, reference: Option<nat>,
    supersededBy: Option<OrderId>, items: seq<Item>)

  datatype Input = Input(
    date: Date, user: User, lines: seq<Line>, source: Source, operatorGiven: bool,
    tender: Option<Tender>, acknowledged: Option<bool>)

  // What a transaction reads besides orders and balances.
  datatype Env = Env(
    users: set<User>, menu: map<MenuId, MenuItem>,
    prisonerLimits: map<Category, int>, visitorLimits: map<Category, int>)

  datatype Refusal =
    | UserNotFound | EmptyItems | InvalidQuantity | InvalidSource | OperatorMissing | InvalidTender
    | ItemNotInMenu | LimitExceeded(category: Category) | ReplacementAckRequired | AlreadyPending
    | Money(error: Error)
    | OrderNotFound | NotPending | AmountMismatch | ReferenceDuplicate

  datatype Db = Db(books: Books, orders: seq<Order>)

  datatype Outcome = Done(order: OrderId, replaced: bool) | Failed(why: Refusal)

  predicate Scanned(s: Source) {
    s == Omr || s == Scanner
  }

  function ChannelOf(s: Source): Channel {
    if Scanned(s) then ScannedChannel else if s == Relative then RelativeChannel else ManualChannel
  }

  // --------------------------------------------------------------------------- lines and totals

  /** Duplicate lines of one menu item are merged, quantities summed. */
  function Aggregate(lines: seq<Line>): seq<Cell<MenuId>> {
    if lines == [] then []
    else Bump(Aggregate(lines[..|lines| - 1]), lines[|lines| - 1].item, lines[|lines| - 1].quantity)
  }

  predicate AllKnown(cells: seq<Cell<MenuId>>, menu: map<MenuId, MenuItem>) {
    forall i | 0 <= i < |cells| :: cells[i].key in menu
  }

  predicate Orderable(cells: seq<Cell<MenuId>>, env: Env, source: Source) {
    forall i | 0 <= i < |cells| ::
      cells[i].key in env.menu && (source == Omr || env.menu[cells[i].key].active)
  }

  function Priced(cells: seq<Cell<MenuId>>, menu: map<MenuId, MenuItem>): seq<Item>
    requires AllKnown(cells, menu)
  {
    if cells == [] then []
    else [Item(cells[0].key, menu[cells[0].key].price, menu[cells[0].key].category, cells[0].amount)]
         + Priced(cells[1..], menu)
  }

  function CategoryTotal(items: seq<Item>, c: Category): int {
    if items == [] then 0
    else (if items[0].category == c then items[0].unitPrice * items[0].quantity else 0) + CategoryTotal(items[1..], c)
  }

  function ItemsTotal(items: seq<Item>): int {
    CategoryTotal(items, Food) + CategoryTotal(items, Essential)
  }

  /** What the requested lines cost, before any merging. */
  function LinesTotal(lines: seq<Line>, menu: map<MenuId, MenuItem>): int
    requires forall l | l in lines :: l.item in menu
  {
    if lines == [] then 0
    else LinesTotal(lines[..|lines| - 1], menu)
         + menu[lines[|lines| - 1].item].price * lines[|lines| - 1].quantity
  }

  lemma {:induction false} BumpPriced(cells: seq<Cell<MenuId>>, k: MenuId, amount: int, menu: map<MenuId, MenuItem>, c: Category)
    requires AllKnown(cells, menu) && k in menu
    ensures AllKnown(Bump(cells, k, amount), menu)
    ensures CategoryTotal(Priced(Bump(cells, k, amount), menu), c)
            == CategoryTotal(Priced(cells, menu), c) + (if menu[k].category == c then menu[k].price * amount else 0)
  {
    var after := Bump(cells, k, amount);
    if cells == [] {
      assert Priced(after, menu)[1..] == [];
    } else {
      assert Priced(cells, menu)[1..] == Priced(cells[1..], menu);
      if cells[0].key == k {
        assert after[1..] == cells[1..];
        assert Priced(after, menu)[1..] == Priced(cells[1..], menu);
        assert menu[k].price * (cells[0].amount + amount) == menu[k].price * cells[0].amount + menu[k].price * amount;
      } else {
        BumpPriced(cells[1..], k, amount, menu, c);
        assert after[1..] == Bump(cells[1..], k, amount);
        assert AllKnown(after, menu) by {
          forall i | 0 <= i < |after| ensures after[i].key in menu {
            assert i > 0 ==> after[i] == after[1..][i - 1];
          }
        }
        assert Priced(after, menu)[1..] == Priced(after[1..], menu);
      }
    }
  }

  /** Merging duplicate lines never changes what the order costs. */
  lemma {:induction false} AggregationPreservesTotal(lines: seq<Line>, menu: map<MenuId, MenuItem>)
    requires forall l | l in lines :: l.item in menu
    ensures AllKnown(Aggregate(lines), menu)
    ensures DistinctKeys(Aggregate(lines))
    ensures ItemsTotal(Priced(Aggregate(lines), menu)) == LinesTotal(lines, menu)
  {
    if lines != [] {
      var n := |lines| - 1;
      AggregationPreservesTotal(lines[..n], menu);
      BumpKeepsDistinct(Aggregate(lines[..n]), lines[n].item, lines[n].quantity);
      BumpPriced(Aggregate(lines[..n]), lines[n].item, lines[n].quantity, menu, Food);
      BumpPriced(Aggregate(lines[..n]), lines[n].item, lines[n].quantity, menu, Essential);
    }
  }

  lemma {:induction false} AggregateKeys(lines: seq<Line>)
    ensures Keys(Aggregate(lines)) == set l | l in lines :: l.item
  {
    if lines != [] {
      var n := |lines| - 1;
      AggregateKeys(lines[..n]);
      BumpAdds(Aggregate(lines[..n]), lines[n].item, lines[n].quantity);
      assert lines == lines[..n] + [lines[n]];
    }
  }

  lemma {:induction false} PositiveQuantities(lines: seq<Line>)
    requires forall l | l in lines :: l.quantity >= 1
    ensures forall i | 0 <= i < |Aggregate(lines)| :: Aggregate(lines)[i].amount >= 1
  {
    if lines != [] {
      var n := |lines| - 1;
      PositiveQuantities(lines[..n]);
      BumpPositive(Aggregate(lines[..n]), lines[n].item, lines[n].quantity);
    }
  }

  lemma {:induction false} BumpPositive(cells: seq<Cell<MenuId>>, k: MenuId, amount: int)
    requires amount >= 1 && forall i | 0 <= i < |cells| :: cells[i].amount >= 1
    ensures forall i | 0 <= i < |Bump(cells, k, amount)| :: Bump(cells, k, amount)[i].amount >= 1
  {
    if cells != [] && cells[0].key != k {
      BumpPositive(cells[1..], k, amount);
    }
  }

  lemma {:induction false} PricedNonNegative(cells: seq<Cell<MenuId>>, menu: map<MenuId, MenuItem>, c: Category)
    requires AllKnown(cells, menu) && forall i | 0 <= i < |cells| :: cells[i].amount >= 1
    ensures CategoryTotal(Priced(cells, menu), c) >= 0
  {
    if cells != [] {
      PricedNonNegative(cells[1..], menu, c);
      assert Priced(cells, menu)[1..] == Priced(cells[1..], menu);
      assert menu[cells[0].key].price * cells[0].amount >= 0;
    }
  }

  // ---------------------------------------------------------------- the transaction, as a value

  function PreCheck(env: Env, input: Input): Option<Refusal> {
    if input.user !in env.users then Some(UserNotFound)
    else if input.lines == [] then Some(EmptyItems)
    else if exists l :: l in input.lines && !(1 <= l.quantity <= 99) then Some(InvalidQuantity)
    else if input.source == Unsupported then Some(InvalidSource)
    else if Scanned(input.source) && !input.operatorGiven then Some(OperatorMissing)
    else if Scanned(input.source) && input.tender.Some? then Some(InvalidTender)
    else if input.tender.Some? && input.tender.value != Cash && input.tender.value != Bank then Some(InvalidTender)
    else None
  }

  function Limits(env: Env, source: Source): map<Category, int> {
    if Scanned(source) then env.prisonerLimits else if source == Relative then env.visitorLimits else map[]
  }

  predicate OverLimit(env: Env, source: Source, items: seq<Item>, c: Category) {
    c in Limits(env, source) && CategoryTotal(items, c) > Limits(env, source)[c]
  }

  predicate IsExisting(orders: seq<Order>, i: nat, input: Input, source: Source) {
    i < |orders| && orders[i].date == input.date && orders[i].user == input.user
    && orders[i].source == source && orders[i].status == Active
  }

  /** findOne: the first active order of that date, prisoner and source. */
  function FindActive(orders: seq<Order>, input: Input, source: Source, from: nat): Option<OrderId>
    requires from <= |orders|
    decreases |orders| - from
  {
    if from == |orders| then None
    else if IsExisting(orders, from, input, source) then Some(from)
    else FindActive(orders, input, source, from + 1)
  }

  function Existing(orders: seq<Order>, input: Input): Option<OrderId> {
    var same := FindActive(orders, input, input.source, 0);
    if same.None? && Scanned(input.source)
    then FindActive(orders, input, if input.source == Omr then Scanner else Omr, 0)
    else same
  }

  function Supersede(orders: seq<Order>, existing: Option<OrderId>): seq<Order>
    requires existing.Some? ==> existing.value < |orders|
  {
    if existing.None? then orders
    else orders[existing.value := orders[existing.value].(status := Superseded, supersededBy := Some(|orders|))]
  }

  function NewOrder(input: Input, items: seq<Item>): Order {
    Order(input.date, input.user, input.source, Active, ItemsTotal(items),
          Scanned(input.source), if Scanned(input.source) then Some(FromBalance) else input.tender,
          None, None, items)
  }

  datatype Settlement = Settled(books: Books) | Refused(error: Error)

  /** Reverse the superseded order's stored total, then debit the new one. */
  function Settle(b: Books, u: User, refund: int, refunded: OrderId, total: int, created: OrderId): Settlement {
    if refund > 0 && !AmountOk(refund) then Refused(InvalidAmount)
    else
      var reversed := if refund > 0 then Post(b, u, refund, Reversal, refunded) else b;
      if total <= 0 then Settled(reversed)
      else if !AmountOk(total) then Refused(InvalidAmount)
      else if Balance(reversed, u) < total then Refused(InsufficientFunds)
      else Settled(Post(reversed, u, -total, OrderDebit, created))
  }

  function SettleOrder(db: Db, input: Input, existing: Option<OrderId>, total: int): Settlement
    requires existing.Some? ==> existing.value < |db.orders|
  {
    if !Scanned(input.source) then Settled(db.books)
    else Settle(Touch(db.books, input.user), input.user,
                if existing.Some? then db.orders[existing.value].total else 0,
                if existing.Some? then existing.value else 0, total, |db.orders|)
  }

  lemma {:induction false} FoundIsActive(orders: seq<Order>, input: Input, source: Source, from: nat)
    requires from <= |orders|
    ensures match FindActive(orders, input, source, from)
            case Some(i) => IsExisting(orders, i, input, source)
            case None => forall i: nat | from <= i :: !IsExisting(orders, i, input, source)
    decreases |orders| - from
  {
    if from < |orders| && !IsExisting(orders, from, input, source) {
      FoundIsActive(orders, input, source, from + 1);
    }
  }

  lemma ExistingIsTheChannelsOrder(orders: seq<Order>, input: Input)
    ensures match Existing(orders, input)
            case Some(i) =>
              i < |orders| && orders[i].date == input.date && orders[i].user == input.user
              && orders[i].status == Active && ChannelOf(orders[i].source) == ChannelOf(input.source)
            case None =>
              forall i | 0 <= i < |orders| && orders[i].date == input.date && orders[i].user == input.user
                         && orders[i].status == Active && orders[i].source != Unsupported
                         && input.source != Unsupported ::
                ChannelOf(orders[i].source) != ChannelOf(input.source)
  {
    FoundIsActive(orders, input, input.source, 0);
    FoundIsActive(orders, input, if input.source == Omr then Scanner else Omr, 0);
    if Existing(orders, input).None? {
      forall i | 0 <= i < |orders| && orders[i].date == input.date && orders[i].user == input.user
                 && orders[i].status == Active && orders[i].source != Unsupported && input.source != Unsupported
        ensures ChannelOf(orders[i].source) != ChannelOf(input.source) {
        assert !IsExisting(orders, i, input, input.source);
        assert Scanned(input.source) ==> !IsExisting(orders, i, input, if input.source == Omr then Scanner else Omr);
      }
    }
  }

  /** The whole transaction: nothing changes unless it succeeds. */
  function Create(db: Db, env: Env, input: Input): (Db, Outcome)
  {
    var refusal := PreCheck(env, input);
    var cells := Aggregate(input.lines);
    if refusal.Some? then (db, Failed(refusal.value))
    else if !Orderable(cells, env, input.source) then (db, Failed(ItemNotInMenu))
    else
      var items := Priced(cells, env.menu);
      var existing := Existing(db.orders, input);
      ExistingIsTheChannelsOrder(db.orders, input);
      if OverLimit(env, input.source, items, Food) then (db, Failed(LimitExceeded(Food)))
      else if OverLimit(env, input.source, items, Essential) then (db, Failed(LimitExceeded(Essential)))
      else if existing.Some? && input.acknowledged == Some(false) then (db, Failed(ReplacementAckRequired))
      else if existing.Some? && input.source == Relative then (db, Failed(AlreadyPending))
      else
        match SettleOrder(db, input, existing, ItemsTotal(items))
        case Refused(e) => (db, Failed(Money(e)))
        case Settled(books) =>
          (Db(books, Supersede(db.orders, existing) + [NewOrder(input, items)]),
           Done(|db.orders|, existing.Some?))
  }

  predicate Pending(orders: seq<Order>, i: OrderId) {
    i < |orders| && orders[i].source == Relative && orders[i].status == Active && !orders[i].paid
  }

  function Accept(db: Db, i: OrderId, tender: Option<Tender>, received: Option<int>, reference: Option<nat>): (Db, Outcome) {
    if tender.Some? && tender.value != Cash && tender.value != Bank then (db, Failed(InvalidTender))
    else if i >= |db.orders| then (db, Failed(OrderNotFound))
    else if !Pending(db.orders, i) then (db, Failed(NotPending))
    else if received.Some? && received.value != db.orders[i].total then (db, Failed(AmountMismatch))
    else if reference.Some? && (exists k | 0 <= k < |db.orders| :: db.orders[k].reference == reference)
    then (db, Failed(ReferenceDuplicate))
    else (db.(orders := db.orders[i := db.orders[i].(
                paid := true, reference := reference,
                tender := if tender.Some? then tender else db.orders[i].tender)]),
          Done(i, false))
  }

  function Reject(db: Db, i: OrderId): (Db, Outcome) {
    if i >= |db.orders| then (db, Failed(OrderNotFound))
    else if !Pending(db.orders, i) then (db, Failed(NotPending))
    else (db.(orders := db.orders[i := db.orders[i].(status := Rejected)]), Done(i, false))
  }

  // -------------------------------------------------------------------------- the mutable object

  class OrdersService {
    const accounts: AccountsService
    var orders: seq<Order>

    function State(): Db
      reads this, accounts
    {
      Db(accounts.State(), orders)
    }

    constructor (accounts: AccountsService)
      ensures this.accounts == accounts && orders == []
    {
      this.accounts := accounts;
      orders := [];
    }

    method MergeLines(lines: seq<Line>) returns (qtyById: seq<Cell<MenuId>>)
      ensures qtyById == Aggregate(lines)
    {
      qtyById := [];
      for i := 0 to |lines|
        invariant qtyById == Aggregate(lines[..i])
      {
        assert lines[..i + 1][..i] == lines[..i];
        qtyById := AddTo(qtyById, lines[i].item, lines[i].quantity);
      }
      assert lines[..|lines|] == lines;
    }

    method Snapshot(qtyById: seq<Cell<MenuId>>, menu: map<MenuId, MenuItem>)
      returns (items: seq<Item>, food: int, essential: int)
      requires AllKnown(qtyById, menu)
      ensures items == Priced(qtyById, menu)
      ensures food == CategoryTotal(items, Food) && essential == CategoryTotal(items, Essential)
    {
      items, food, essential := [], 0, 0;
      var i := |qtyById|;
      while i > 0
        invariant 0 <= i <= |qtyById|
        invariant items == Priced(qtyById[i..], menu)
        invariant food == CategoryTotal(items, Food) && essential == CategoryTotal(items, Essential)
      {
        i := i - 1;
        var id, quantity := qtyById[i].key, qtyById[i].amount;
        assert qtyById[i..][1..] == qtyById[i + 1..];
        var item := Item(id, menu[id].price, menu[id].category, quantity);
        assert ([item] + items)[1..] == items;
        if item.category == Food {
          food := food + item.unitPrice * quantity;
        } else {
          essential := essential + item.unitPrice * quantity;
        }
        items := [item] + items;
      }
    }

    method FindOne(input: Input, source: Source) returns (found: Option<OrderId>)
      ensures found == FindActive(orders, input, source, 0)
    {
      var i := 0;
      while i < |orders|
        invariant 0 <= i <= |orders|
        invariant FindActive(orders, input, source, 0) == FindActive(orders, input, source, i)
      {
        if IsExisting(orders, i, input, source) {
          return Some(i);
        }
        i := i + 1;
      }
      return None;
    }

    method SettleBalance(input: Input, existing: Option<Order>, refunded: OrderId, total: int, created: OrderId)
      returns (r: Settlement)
      requires Scanned(input.source) && input.operatorGiven
      modifies accounts
      ensures r == Settle(old(accounts.State()), input.user, if existing.Some? then existing.value.total else 0,
                          refunded, total, created)
      ensures r.Settled? ==> accounts.State() == r.books
    {
      if existing.Some? && existing.value.total > 0 {
        var credited := accounts.Credit(input.user, existing.value.total, Reversal, refunded, input.operatorGiven);
        if credited.Err? {
          return Refused(credited.error);
        }
      }
      if total > 0 {
        var debited := accounts.Debit(input.user, total, created, input.operatorGiven);
        if debited.Err? {
          return Refused(debited.error);
        }
      }
      return Settled(accounts.State());
    }

    /** One transaction; every failure leaves orders, balances and ledger as they were. */
    method CreateOrReplace(env: Env, input: Input) returns (r: Outcome)
      modifies this, accounts
      ensures (State(), r) == Create(old(State()), env, input)
    {
      var refusal := PreCheck(env, input);
      if refusal.Some? {
        return Failed(refusal.value);
      }
      var qtyById := MergeLines(input.lines);
      if !Orderable(qtyById, env, input.source) {
        return Failed(ItemNotInMenu);
      }
      var items, food, essential := Snapshot(qtyById, env.menu);
      var limits := Limits(env, input.source);
      if Food in limits && food > limits[Food] {
        return Failed(LimitExceeded(Food));
      }
      if Essential in limits && essential > limits[Essential] {
        return Failed(LimitExceeded(Essential));
      }
      var found := FindOne(input, input.source);
      if found == None && Scanned(input.source) {
        found := FindOne(input, if input.source == Omr then Scanner else Omr);
      }
      ExistingIsTheChannelsOrder(orders, input);
      if found.Some? && input.acknowledged == Some(false) {
        return Failed(ReplacementAckRequired);
      }
      if found.Some? && input.source == Relative {
        return Failed(AlreadyPending);
      }
      r := Write(input, items, food + essential, found);
    }

    method Write(input: Input, items: seq<Item>, total: int, found: Option<OrderId>) returns (r: Outcome)
      requires total == ItemsTotal(items) && (found.Some? ==> found.value < |orders|)
      requires Scanned(input.source) ==> input.operatorGiven
      modifies this, accounts
      ensures match SettleOrder(old(State()), input, found, total)
              case Refused(e) => State() == old(State()) && r == Failed(Money(e))
              case Settled(books) =>
                && State() == Db(books, Supersede(old(orders), found) + [NewOrder(input, items)])
                && r == Done(|old(orders)|, found.Some?)
    {
      var savedOrders, savedBalances, savedLedger := orders, accounts.balances, accounts.ledger;
      var newId := |orders|;
      var existing := if found.Some? then Some(orders[found.value]) else None;
      if Scanned(input.source) {
        var locked := accounts.GetOrCreate(input.user);
      }
      if found.Some? {
        orders := orders[found.value := orders[found.value].(status := Superseded, supersededBy := Some(newId))];
      }
      orders := orders + [Order(input.date, input.user, input.source, Active, total, Scanned(input.source),
                                if Scanned(input.source) then Some(FromBalance) else input.tender, None, None, items)];
      if Scanned(input.source) {
        var settled := SettleBalance(input, existing, if found.Some? then found.value else 0, total, newId);
        if settled.Refused? {
          orders, accounts.balances, accounts.ledger := savedOrders, savedBalances, savedLedger;
          return Failed(Money(settled.error));
        }
      }
      return Done(newId, found.Some?);
    }

    method AcceptRelativeOrder(i: OrderId, tender: Option<Tender>, received: Option<int>, reference: Option<nat>)
      returns (r: Outcome)
      modifies this
      ensures (State(), r) == Accept(old(State()), i, tender, received, reference)
    {
      if tender.Some? && tender.value != Cash && tender.value != Bank {
        return Failed(InvalidTender);
      }
      if i >= |orders| {
        return Failed(OrderNotFound);
      }
      if !Pending(orders, i) {
        return Failed(NotPending);
      }
      if received.Some? && received.value != orders[i].total {
        return Failed(AmountMismatch);
      }
      if reference.Some? {
        var k := 0;
        while k < |orders|
          invariant 0 <= k <= |orders|
          invariant forall m | 0 <= m < k :: orders[m].reference != reference
        {
          if orders[k].reference == reference {
            return Failed(ReferenceDuplicate);
          }
          k := k + 1;
        }
      }
      orders := orders[i := orders[i].(paid := true, reference := reference,
                                       tender := if tender.Some? then tender else orders[i].tender)];
      return Done(i, false);
    }

    method RejectRelativeOrder(i: OrderId) returns (r: Outcome)
      modifies this
      ensures (State(), r) == Reject(old(State()), i)
    {
      if i >= |orders| {
        return Failed(OrderNotFound);
      }
      if !Pending(orders, i) {
        return Failed(NotPending);
      }
      orders := orders[i := orders[i].(status := Rejected)];
      return Done(i, false);
    }
  }

  // --------------------------------------------------------------------------------- runs

  datatype Step =
    | TopUpStep(user: User, amount: int, operatorGiven: bool)
    | CreateStep(env: Env, input: Input)
    | AcceptStep(i: OrderId, tender: Option<Tender>, received: Option<int>, reference: Option<nat>)
    | RejectStep(i: OrderId)

  function Do(db: Db, s: Step): Db {
    match s
    case TopUpStep(u, amount, operatorGiven) =>
      if AmountOk(amount) && operatorGiven then db.(books := Post(db.books, u, amount, TopUp, NO_ORDER)) else db
    case CreateStep(env, input) => Create(db, env, input).0
    case AcceptStep(i, tender, received, reference) => Accept(db, i, tender, received, reference).0
    case RejectStep(i) => Reject(db, i).0
  }

  function Run(db: Db, steps: seq<Step>): Db
    decreases |steps|
  {
    if steps == [] then db else Run(Do(db, steps[0]), steps[1..])
  }

  const EMPTY_DB := Db(Books(map[], []), [])

  predicate Holds(o: Order, u: User) {
    o.user == u && o.status == Active && Scanned(o.source)
  }

  /** What prisoner u has tied up in active scanned orders. */
  function Held(orders: seq<Order>, u: User): int {
    if orders == [] then 0
    else Held(orders[..|orders| - 1], u)
         + (if Holds(orders[|orders| - 1], u) then orders[|orders| - 1].total else 0)
  }

  lemma {:induction false} HeldUpdate(orders: seq<Order>, i: nat, o: Order, u: User)
    requires i < |orders|
    ensures Held(orders[i := o], u)
            == Held(orders, u) - (if Holds(orders[i], u) then orders[i].total else 0) + (if Holds(o, u) then o.total else 0)
  {
    var n := |orders| - 1;
    if i == n {
      assert orders[i := o][..n] == orders[..n];
    } else {
      assert orders[i := o][..n] == orders[..n][i := o];
      HeldUpdate(orders[..n], i, o, u);
    }
  }

  // ------------------------------------------------------------------------------- invariants

  predicate SameSlot(a: Order, b: Order) {
    a.date == b.date && a.user == b.user && ChannelOf(a.source) == ChannelOf(b.source)
  }

  ghost predicate OrderOk(orders: seq<Order>, i: nat)
    requires i < |orders|
  {
    var o := orders[i];
    && o.total == ItemsTotal(o.items) >= 0
    && o.source != Unsupported
    && (Scanned(o.source) ==> o.total <= MAX_VND && o.paid && o.status != Rejected)
    && (o.supersededBy.Some? <==> o.status == Superseded)
    && (o.supersededBy.Some? ==> i < o.supersededBy.value < |orders| && SameSlot(o, orders[o.supersededBy.value]))
  }

  ghost predicate OneActivePerSlot(orders: seq<Order>) {
    forall i, j | 0 <= i < |orders| && 0 <= j < |orders| && orders[i].status == Active && orders[j].status == Active
                  && SameSlot(orders[i], orders[j]) :: i == j
  }

  ghost predicate OrdersOk(orders: seq<Order>) {
    (forall i | 0 <= i < |orders| :: OrderOk(orders, i)) && OneActivePerSlot(orders)
  }

  function TopUps(b: Books, u: User): int {
    KindSum(b.ledger, u, TopUp, |b.ledger|)
  }

  ghost predicate MoneyOk(db: Db) {
    Exact(db.books) && forall u :: Balance(db.books, u) == TopUps(db.books, u) - Held(db.orders, u)
  }

  ghost predicate Inv(db: Db) {
    OrdersOk(db.orders) && MoneyOk(db)
  }

  /** A stored scanned total already passed the amount check, so its reversal cannot fail. */
  lemma ReversalNeverRefused(db: Db, input: Input)
    requires Inv(db) && Existing(db.orders, input).Some? && Scanned(input.source)
    ensures ExistingOk(db, input)
    ensures var total := db.orders[Existing(db.orders, input).value].total;
            total > 0 ==> AmountOk(total)
  {
    ExistingIsTheChannelsOrder(db.orders, input);
    assert OrderOk(db.orders, Existing(db.orders, input).value);
  }

  predicate ExistingOk(db: Db, input: Input) {
    Existing(db.orders, input).Some? ==> Existing(db.orders, input).value < |db.orders|
  }

  /** Settling keeps the ledger exact and moves exactly refund - total. */
  lemma SettleKeepsExact(b: Books, u: User, refund: int, refunded: OrderId, total: int, created: OrderId)
    requires Exact(b) && refund >= 0 && total >= 0
    requires Settle(b, u, refund, refunded, total, created).Settled?
    ensures var after := Settle(b, u, refund, refunded, total, created).books;
            && Exact(after)
            && (forall x :: Balance(after, x) == Balance(b, x) + (if x == u then refund - total else 0))
            && (forall x :: TopUps(after, x) == TopUps(b, x))
  {
    assert Balance(b, u) >= 0;
    if refund > 0 {
      PostKeepsExact(b, u, refund, Reversal, refunded);
    }
    var reversed := if refund > 0 then Post(b, u, refund, Reversal, refunded) else b;
    if total > 0 {
      PostKeepsExact(reversed, u, -total, OrderDebit, created);
    }
  }

  lemma SupersedeKeepsOrders(orders: seq<Order>, existing: Option<OrderId>, o: Order)
    requires OrdersOk(orders)
    requires existing.Some? ==> existing.value < |orders| && orders[existing.value].status == Active && SameSlot(orders[existing.value], o)
    requires existing.None? ==> forall i | 0 <= i < |orders| && orders[i].status == Active :: !SameSlot(orders[i], o)
    requires o.total == ItemsTotal(o.items) >= 0 && o.source != Unsupported && o.status == Active && o.supersededBy.None?
    requires Scanned(o.source) ==> o.total <= MAX_VND && o.paid
    ensures OrdersOk(Supersede(orders, existing) + [o])
  {
    var after := Supersede(orders, existing) + [o];
    forall i | 0 <= i < |after| ensures OrderOk(after, i) {
      if i < |orders| {
        assert OrderOk(orders, i);
      }
    }
  }

  lemma CreateKeepsOrders(db: Db, env: Env, input: Input)
    requires Inv(db)
    ensures OrdersOk(Create(db, env, input).0.orders)
    ensures Create(db, env, input).1.Done? ==>
              var existing := Existing(db.orders, input);
              && ExistingOk(db, input)
              && CreatedTotal(env, input) >= 0
              && SettleOrder(db, input, existing, CreatedTotal(env, input)).Settled?
              && Create(db, env, input).0.books == SettleOrder(db, input, existing, CreatedTotal(env, input)).books
              && Create(db, env, input).0.orders == Supersede(db.orders, existing) + [NewOrder(input, CreatedItems(env, input))]
  {
    if Create(db, env, input).1.Done? {
      var items := CreatedItems(env, input);
      PositiveQuantities(input.lines);
      PricedNonNegative(Aggregate(input.lines), env.menu, Food);
      PricedNonNegative(Aggregate(input.lines), env.menu, Essential);
      ExistingIsTheChannelsOrder(db.orders, input);
      var existing := Existing(db.orders, input);
      var o := NewOrder(input, items);
      if existing.None? {
        forall i | 0 <= i < |db.orders| && db.orders[i].status == Active ensures !SameSlot(db.orders[i], o) {
          assert OrderOk(db.orders, i);
        }
      }
      SupersedeKeepsOrders(db.orders, existing, o);
    }
  }

  function CreatedItems(env: Env, input: Input): seq<Item> {
    if AllKnown(Aggregate(input.lines), env.menu) then Priced(Aggregate(input.lines), env.menu) else []
  }

  function CreatedTotal(env: Env, input: Input): int {
    ItemsTotal(CreatedItems(env, input))
  }

  lemma CreateKeepsMoney(db: Db, env: Env, input: Input)
    requires Inv(db) && Create(db, env, input).1.Done?
    ensures MoneyOk(Create(db, env, input).0)
  {
    CreateKeepsOrders(db, env, input);
    var existing := Existing(db.orders, input);
    var after := Create(db, env, input).0;
    var o := NewOrder(input, CreatedItems(env, input));
    ExistingIsTheChannelsOrder(db.orders, input);
    var refund := if existing.Some? && Scanned(input.source) then db.orders[existing.value].total else 0;
    if existing.Some? {
      assert OrderOk(db.orders, existing.value);
    }
    if Scanned(input.source) {
      SettleKeepsExact(Touch(db.books, input.user), input.user, refund,
                       if existing.Some? then existing.value else 0, o.total, |db.orders|);
    }
    forall u ensures Balance(after.books, u) == TopUps(after.books, u) - Held(after.orders, u) {
      if existing.Some? {
        HeldUpdate(db.orders, existing.value, Supersede(db.orders, existing)[existing.value], u);
      }
    }
  }

  lemma CounterKeeps(db: Db, i: OrderId, o: Order)
    requires Inv(db) && Pending(db.orders, i)
    requires o.date == db.orders[i].date && o.user == db.orders[i].user && o.source == db.orders[i].source
    requires o.total == db.orders[i].total && o.items == db.orders[i].items && o.supersededBy == None
    requires o.status == Active || o.status == Rejected
    ensures Inv(db.(orders := db.orders[i := o]))
  {
    var after := db.orders[i := o];
    assert OrderOk(db.orders, i);
    forall k | 0 <= k < |after| ensures OrderOk(after, k) {
      assert OrderOk(db.orders, k);
    }
    forall u ensures Held(after, u) == Held(db.orders, u) {
      HeldUpdate(db.orders, i, o, u);
    }
  }

  lemma StepKeeps(db: Db, s: Step)
    requires Inv(db)
    ensures Inv(Do(db, s))
  {
    match s
    case TopUpStep(u, amount, operatorGiven) =>
      if AmountOk(amount) && operatorGiven {
        assert Balance(db.books, u) >= 0;
        PostKeepsExact(db.books, u, amount, TopUp, NO_ORDER);
      }
    case CreateStep(env, input) =>
      if Create(db, env, input).1.Done? {
        CreateKeepsOrders(db, env, input);
        CreateKeepsMoney(db, env, input);
      }
    case AcceptStep(i, tender, received, reference) =>
      if Accept(db, i, tender, received, reference).1.Done? {
        assert OrderOk(db.orders, i);
        CounterKeeps(db, i, Do(db, s).orders[i]);
      }
    case RejectStep(i) =>
      if Reject(db, i).1.Done? {
        assert OrderOk(db.orders, i);
        CounterKeeps(db, i, Do(db, s).orders[i]);
      }
  }

  lemma {:induction false} RunKeeps(db: Db, steps: seq<Step>)
    requires Inv(db)
    ensures Inv(Run(db, steps))
    decreases |steps|
  {
    if steps != [] {
      StepKeeps(db, steps[0]);
      RunKeeps(Do(db, steps[0]), steps[1..]);
    }
  }

  /** Over every run, with every rollback: each balance is the top-ups minus the totals of the
      active scanned orders, and every ledger row carries the exact, never negative, running
      balance of its prisoner. */
  lemma BalancesAreConserved(steps: seq<Step>, u: User)
    ensures var db := Run(EMPTY_DB, steps);
            && Balance(db.books, u) == TopUps(db.books, u) - Held(db.orders, u) >= 0
            && (forall i | 0 <= i < |db.books.ledger| ::
                  db.books.ledger[i].balanceAfter == PrefixSum(db.books.ledger, db.books.ledger[i].user, i + 1) >= 0)
  {
    RunKeeps(EMPTY_DB, steps);
  }

  lemma ExistingIsSound(db: Db, input: Input)
    requires Inv(db)
    ensures ExistingOk(db, input)
    ensures Existing(db.orders, input).Some? ==> db.orders[Existing(db.orders, input).value].total >= 0
  {
    ExistingIsTheChannelsOrder(db.orders, input);
    hide Existing, MoneyOk;
    if Existing(db.orders, input).Some? {
      assert OrderOk(db.orders, Existing(db.orders, input).value);
    }
  }

  /** A re-scan nets to the difference of the two stored totals, whatever the menu says now. */
  lemma RescanNetsToTheDifference(db: Db, env: Env, input: Input)
    requires Inv(db) && Scanned(input.source) && Create(db, env, input).1.Done?
    ensures var after := Create(db, env, input).0;
            var existing := Existing(db.orders, input);
            && ExistingOk(db, input)
            && Balance(after.books, input.user)
               == Balance(db.books, input.user)
                  + (if existing.Some? then db.orders[existing.value].total else 0)
                  - after.orders[|after.orders| - 1].total
            && (forall u | u != input.user :: Balance(after.books, u) == Balance(db.books, u))
  {
    CreateKeepsOrders(db, env, input);
    ExistingIsSound(db, input);
    var existing := Existing(db.orders, input);
    SettleKeepsExact(Touch(db.books, input.user), input.user,
                     if existing.Some? then db.orders[existing.value].total else 0,
                     if existing.Some? then existing.value else 0, CreatedTotal(env, input), |db.orders|);
  }

  /** A request that passes every check made before money moves. */
  predicate PassesChecks(db: Db, env: Env, input: Input) {
    && PreCheck(env, input).None?
    && Orderable(Aggregate(input.lines), env, input.source)
    && !OverLimit(env, input.source, CreatedItems(env, input), Food)
    && !OverLimit(env, input.source, CreatedItems(env, input), Essential)
    && (Existing(db.orders, input).Some? ==> input.acknowledged != Some(false))
  }

  /** A scanned request that passes the checks, with a total within the ceiling, is refused for
      lack of money exactly when the balance, with the order it replaces given back, does not
      cover it; otherwise it is created. */
  lemma InsufficientExactlyWhen(db: Db, env: Env, input: Input)
    requires Inv(db) && Scanned(input.source)
    requires PassesChecks(db, env, input) && CreatedTotal(env, input) <= MAX_VND
    ensures var existing := Existing(db.orders, input);
            && ExistingOk(db, input)
            && Create(db, env, input).1
               == (if Balance(db.books, input.user) + (if existing.Some? then db.orders[existing.value].total else 0)
                      < CreatedTotal(env, input)
                   then Failed(Money(InsufficientFunds))
                   else Done(|db.orders|, existing.Some?))
  {
    var existing := Existing(db.orders, input);
    ExistingIsTheChannelsOrder(db.orders, input);
    if existing.Some? {
      assert OrderOk(db.orders, existing.value);
    }
    PositiveQuantities(input.lines);
    PricedNonNegative(Aggregate(input.lines), env.menu, Food);
    PricedNonNegative(Aggregate(input.lines), env.menu, Essential);
    assert Balance(db.books, input.user) >= 0;
  }

  // ---------------------------------------------------------------------- supersession chains

  /** Follows supersededByOrderId to the end. */
  function Follow(orders: seq<Order>, i: OrderId): OrderId
    requires i < |orders|
    requires forall k | 0 <= k < |orders| && orders[k].supersededBy.Some? :: k < orders[k].supersededBy.value < |orders|
    decreases |orders| - i
  {
    if orders[i].supersededBy.None? then i else Follow(orders, orders[i].supersededBy.value)
  }

  lemma {:induction false} FollowStays(orders: seq<Order>, i: OrderId)
    requires OrdersOk(orders) && i < |orders|
    ensures (forall k | 0 <= k < |orders| && orders[k].supersededBy.Some? :: k < orders[k].supersededBy.value < |orders|)
    ensures var end := Follow(orders, i);
            i <= end < |orders| && SameSlot(orders[i], orders[end]) && orders[end].status != Superseded
    decreases |orders| - i
  {
    forall k | 0 <= k < |orders| && orders[k].supersededBy.Some?
      ensures k < orders[k].supersededBy.value < |orders| {
      assert OrderOk(orders, k);
    }
    assert OrderOk(orders, i);
    if orders[i].supersededBy.Some? {
      FollowStays(orders, orders[i].supersededBy.value);
    }
  }

  /** In every reachable database, from any scanned order the links stay on its prisoner and
      date and end at the one active scanned order there. */
  lemma ChainsEndAtTheActiveOrder(steps: seq<Step>, i: OrderId)
    requires var orders := Run(EMPTY_DB, steps).orders;
             i < |orders| && Scanned(orders[i].source)
    ensures var orders := Run(EMPTY_DB, steps).orders;
            && (forall k | 0 <= k < |orders| && orders[k].supersededBy.Some? :: k < orders[k].supersededBy.value < |orders|)
            && (var end := Follow(orders, i);
                && i <= end < |orders| && SameSlot(orders[i], orders[end]) && orders[end].status == Active
                && (forall k | 0 <= k < |orders| && orders[k].status == Active && SameSlot(orders[i], orders[k]) :: k == end))
  {
    RunKeeps(EMPTY_DB, steps);
    var orders := Run(EMPTY_DB, steps).orders;
    FollowStays(orders, i);
    assert OrderOk(orders, Follow(orders, i));
  }

  // -------------------------------------------------------------------------------- reports

  predicate PaidBetween(o: Order, from: Date, to: Date) {
    o.status == Active && o.paid && from <= o.date <= to
  }

  /** totals.paidRevenue. */
  function PaidRevenue(orders: seq<Order>, from: Date, to: Date): int {
    if orders == [] then 0
    else PaidRevenue(orders[..|orders| - 1], from, to)
         + (if PaidBetween(orders[|orders| - 1], from, to) then orders[|orders| - 1].total else 0)
  }

  /** One GROUP BY of the report: revenue by source, by method, by day, or by prisoner. */
  function RevenueBy<K(==)>(orders: seq<Order>, from: Date, to: Date, key: Order -> K): seq<Cell<K>> {
    if orders == [] then []
    else
      var rest := RevenueBy(orders[..|orders| - 1], from, to, key);
      var o := orders[|orders| - 1];
      if PaidBetween(o, from, to) then Bump(rest, key(o), o.total) else rest
  }

  function AddItems(cells: seq<Cell<Category>>, items: seq<Item>): seq<Cell<Category>>
    decreases |items|
  {
    if items == [] then cells
    else AddItems(Bump(cells, items[0].category, items[0].unitPrice * items[0].quantity), items[1..])
  }

  /** Revenue by category goes through the order_items join instead of the order totals. */
  function RevenueByCategory(orders: seq<Order>, from: Date, to: Date): seq<Cell<Category>> {
    if orders == [] then []
    else
      var rest := RevenueByCategory(orders[..|orders| - 1], from, to);
      var o := orders[|orders| - 1];
      if PaidBetween(o, from, to) then AddItems(rest, o.items) else rest
  }

  lemma {:induction false} GroupsAddUp<K>(orders: seq<Order>, from: Date, to: Date, key: Order -> K)
    ensures Total(RevenueBy(orders, from, to, key)) == PaidRevenue(orders, from, to)
    ensures DistinctKeys(RevenueBy(orders, from, to, key))
  {
    if orders != [] {
      var n := |orders| - 1;
      GroupsAddUp(orders[..n], from, to, key);
      var rest := RevenueBy(orders[..n], from, to, key);
      BumpAdds(rest, key(orders[n]), orders[n].total);
      BumpKeepsDistinct(rest, key(orders[n]), orders[n].total);
    }
  }

  lemma {:induction false} ItemsAddUp(cells: seq<Cell<Category>>, items: seq<Item>)
    ensures Total(AddItems(cells, items)) == Total(cells) + ItemsTotal(items)
    decreases |items|
  {
    if items != [] {
      BumpAdds(cells, items[0].category, items[0].unitPrice * items[0].quantity);
      ItemsAddUp(Bump(cells, items[0].category, items[0].unitPrice * items[0].quantity), items[1..]);
    }
  }

  lemma {:induction false} CategoriesAddUp(orders: seq<Order>, from: Date, to: Date)
    requires forall i | 0 <= i < |orders| :: orders[i].total == ItemsTotal(orders[i].items)
    ensures Total(RevenueByCategory(orders, from, to)) == PaidRevenue(orders, from, to)
  {
    if orders != [] {
      var n := |orders| - 1;
      CategoriesAddUp(orders[..n], from, to);
      ItemsAddUp(RevenueByCategory(orders[..n], from, to), orders[n].items);
    }
  }

  /** In every reachable database the report agrees with itself: revenue by source, by method, by
      day and by category, and the vouchers of a day, all add up to the same paid revenue. */
  lemma ReportAgrees(steps: seq<Step>, from: Date, to: Date)
    ensures var orders := Run(EMPTY_DB, steps).orders;
            var paid := PaidRevenue(orders, from, to);
            && Total(RevenueBy(orders, from, to, (o: Order) => o.source)) == paid
            && Total(RevenueBy(orders, from, to, (o: Order) => o.tender)) == paid
            && Total(RevenueBy(orders, from, to, (o: Order) => o.date)) == paid
            && Total(RevenueBy(orders, from, to, (o: Order) => o.user)) == paid
            && Total(RevenueByCategory(orders, from, to)) == paid
  {
    RunKeeps(EMPTY_DB, steps);
    var orders := Run(EMPTY_DB, steps).orders;
    GroupsAddUp(orders, from, to, (o: Order) => o.source);
    GroupsAddUp(orders, from, to, (o: Order) => o.tender);
    GroupsAddUp(orders, from, to, (o: Order) => o.date);
    GroupsAddUp(orders, from, to, (o: Order) => o.user);
    forall i | 0 <= i < |orders| ensures orders[i].total == ItemsTotal(orders[i].items) {
      assert OrderOk(orders, i);
    }
    CategoriesAddUp(orders, from, to);
  }
}
