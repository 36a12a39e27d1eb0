/** What order calls write. */
module OrderEffects {
  // After orders.service.ts, in terms of the request, the menu, the limits and the stored rows:
  // when a create succeeds, what it stores and books, and how a relative order comes to be paid.

  import opened GroupedSums
  import opened Accounts
  import opened Orders
  import opened Sorting
  import opened Vouchers

  // ------------------------------------------------------------------------------ the request

  predicate FromScan(s: Source) {
    s == Omr || s == Scanner
  }

  /** How many portions of one item the lines ask for together. */
  function Asked(lines: seq<Line>, id: MenuId): int {
    if lines == [] then 0
    else
      var n := |lines| - 1;
      Asked(lines[..n], id) + (if lines[n].item == id then lines[n].quantity else 0)
  }

  predicate OnMenu(lines: seq<Line>, menu: map<MenuId, MenuItem>) {
    forall l | l in lines :: l.item in menu
  }

  /** What the lines of one category cost, or with None all lines. */
  function Cost(lines: seq<Line>, menu: map<MenuId, MenuItem>, c: Option<Category>): int
    requires OnMenu(lines, menu)
  {
    if lines == [] then 0
    else
      var n := |lines| - 1;
      var item := menu[lines[n].item];
      Cost(lines[..n], menu, c) + (if c.None? || item.category == c.value then item.price * lines[n].quantity else 0)
  }

  predicate WellFormed(env: Env, input: Input) {
    && input.user in env.users && input.lines != []
    && (forall l | l in input.lines :: 1 <= l.quantity && l.quantity <= 99)
    && input.source != Unsupported
    && (if FromScan(input.source) then input.operatorGiven && input.tender == None
        else input.tender == None || input.tender == Some(Cash) || input.tender == Some(Bank))
  }

  predicate Available(env: Env, input: Input) {
    forall l | l in input.lines :: l.item in env.menu && (env.menu[l.item].active || input.source == Omr)
  }

  /** The category limits of prisoners bind scanned orders, those of visitors relative ones. */
  predicate WithinLimits(env: Env, input: Input)
    requires OnMenu(input.lines, env.menu)
  {
    && (FromScan(input.source) ==> forall c | c in env.prisonerLimits ::
          Cost(input.lines, env.menu, Some(c)) <= env.prisonerLimits[c])
    && (input.source == Relative ==> forall c | c in env.visitorLimits ::
          Cost(input.lines, env.menu, Some(c)) <= env.visitorLimits[c])
  }

  /** An active order of the same prisoner, day and channel; the two scanned sources share one. */
  predicate InTheWay(orders: seq<Order>, input: Input, i: OrderId) {
    && i < |orders| && orders[i].status == Active && orders[i].user == input.user && orders[i].date == input.date
    && (orders[i].source == input.source || (FromScan(orders[i].source) && FromScan(input.source)))
  }

  // -------------------------------------------------------------------------- merging and pricing

  lemma {:induction false} MergedQuantity(lines: seq<Line>, id: MenuId)
    ensures Lookup(Aggregate(lines), id) == Asked(lines, id)
  {
    if lines != [] {
      var n := |lines| - 1;
      MergedQuantity(lines[..n], id);
      BumpAdds(Aggregate(lines[..n]), lines[n].item, lines[n].quantity);
    }
  }

  lemma {:induction false} PricedAt(cells: seq<Cell<MenuId>>, menu: map<MenuId, MenuItem>)
    requires AllKnown(cells, menu)
    ensures |Priced(cells, menu)| == |cells|
    ensures forall i | 0 <= i < |cells| ::
              Priced(cells, menu)[i]
              == Item(cells[i].key, menu[cells[i].key].price, menu[cells[i].key].category, cells[i].amount)
  {
    if cells != [] {
      PricedAt(cells[1..], menu);
    }
  }

  lemma {:induction false} LookupAt(cells: seq<Cell<MenuId>>, i: nat)
    requires DistinctKeys(cells) && i < |cells|
    ensures Lookup(cells, cells[i].key) == cells[i].amount
  {
    if i > 0 {
      assert cells[0].key != cells[i].key;
      LookupAt(cells[1..], i - 1);
    }
  }

  ghost predicate Asks(lines: seq<Line>, id: MenuId) {
    exists l :: l in lines && l.item == id
  }

  ghost predicate Lists(items: seq<Item>, id: MenuId) {
    exists i :: 0 <= i < |items| && items[i].menu == id
  }

  /** The lines of the stored order: each item asked for once, with all its portions, at the
      menu's price and category. */
  ghost predicate LinesStored(items: seq<Item>, lines: seq<Line>, menu: map<MenuId, MenuItem>)
    requires OnMenu(lines, menu)
  {
    && (forall i, j | 0 <= i < j < |items| :: items[i].menu != items[j].menu)
    && (forall id :: Lists(items, id) <==> Asks(lines, id))
    && (forall i | 0 <= i < |items| ::
          && items[i].menu in menu && items[i].unitPrice == menu[items[i].menu].price
          && items[i].category == menu[items[i].menu].category && items[i].quantity == Asked(lines, items[i].menu))
  }

  lemma ListsTheKeys(cells: seq<Cell<MenuId>>, items: seq<Item>, id: MenuId)
    requires |items| == |cells| && forall i | 0 <= i < |cells| :: items[i].menu == cells[i].key
    ensures Lists(items, id) <==> id in Keys(cells)
  {
    if id in Keys(cells) {
      var i :| 0 <= i < |cells| && cells[i].key == id;
      assert items[i].menu == id;
    }
    if Lists(items, id) {
      var i :| 0 <= i < |items| && items[i].menu == id;
      assert cells[i].key == id;
    }
  }

  lemma StoredLines(lines: seq<Line>, menu: map<MenuId, MenuItem>)
    requires OnMenu(lines, menu)
    ensures AllKnown(Aggregate(lines), menu) && LinesStored(Priced(Aggregate(lines), menu), lines, menu)
  {
    AggregationPreservesTotal(lines, menu);
    AggregateKeys(lines);
    var cells := Aggregate(lines);
    PricedAt(cells, menu);
    var items := Priced(cells, menu);
    forall id ensures Lists(items, id) <==> Asks(lines, id) {
      ListsTheKeys(cells, items, id);
    }
    hide Aggregate, Priced, Asked, Lookup, ItemsTotal, LinesTotal, Lists, Asks, Keys;
    forall i | 0 <= i < |items| ensures items[i].quantity == Asked(lines, items[i].menu) {
      LookupAt(cells, i);
      MergedQuantity(lines, cells[i].key);
    }
  }

  lemma {:induction false} CategoryCost(lines: seq<Line>, menu: map<MenuId, MenuItem>, c: Category)
    requires OnMenu(lines, menu)
    ensures AllKnown(Aggregate(lines), menu)
    ensures CategoryTotal(Priced(Aggregate(lines), menu), c) == Cost(lines, menu, Some(c))
  {
    if lines != [] {
      var n := |lines| - 1;
      CategoryCost(lines[..n], menu, c);
      BumpPriced(Aggregate(lines[..n]), lines[n].item, lines[n].quantity, menu, c);
    }
  }

  lemma {:induction false} BothCategories(lines: seq<Line>, menu: map<MenuId, MenuItem>)
    requires OnMenu(lines, menu)
    ensures Cost(lines, menu, None) == Cost(lines, menu, Some(Food)) + Cost(lines, menu, Some(Essential))
  {
    if lines != [] {
      BothCategories(lines[..|lines| - 1], menu);
    }
  }

  lemma TotalCost(lines: seq<Line>, menu: map<MenuId, MenuItem>)
    requires OnMenu(lines, menu)
    ensures AllKnown(Aggregate(lines), menu)
    ensures ItemsTotal(Priced(Aggregate(lines), menu)) == Cost(lines, menu, None)
  {
    CategoryCost(lines, menu, Food);
    CategoryCost(lines, menu, Essential);
    BothCategories(lines, menu);
  }

  lemma AvailableIsOrderable(env: Env, input: Input)
    ensures Orderable(Aggregate(input.lines), env, input.source) <==> Available(env, input)
  {
    var cells := Aggregate(input.lines);
    AggregateKeys(input.lines);
    if Available(env, input) {
      forall i | 0 <= i < |cells| ensures cells[i].key in env.menu && (input.source == Omr || env.menu[cells[i].key].active) {
        assert cells[i].key in Keys(cells);
      }
    }
    if Orderable(cells, env, input.source) {
      forall l | l in input.lines ensures l.item in env.menu && (env.menu[l.item].active || input.source == Omr) {
        assert l.item in Keys(cells);
      }
    }
  }

  // -------------------------------------------------------------------------------- the decision

  /** The money a scanned order moves: the replaced total back, its own total out. */
  predicate Affordable(db: Db, input: Input, refund: int, total: int) {
    FromScan(input.source) ==>
      && refund <= 1_000_000_000 && total <= 1_000_000_000
      && (total > 0 ==> Balance(db.books, input.user) + (if refund > 0 then refund else 0) >= total)
  }

  function Refund(orders: seq<Order>, i: Option<OrderId>): int
    requires i.Some? ==> i.value < |orders|
  {
    if i.Some? then orders[i.value].total else 0
  }

  ghost predicate Creatable(db: Db, env: Env, input: Input, i: Option<OrderId>)
    requires i.Some? ==> i.value < |db.orders|
  {
    && WellFormed(env, input) && Available(env, input) && WithinLimits(env, input)
    && (i.Some? ==> input.acknowledged != Some(false) && input.source != Relative)
    && Affordable(db, input, Refund(db.orders, i), Cost(input.lines, env.menu, None))
  }

  /** The order in the way, if there is one. */
  lemma TheOneInTheWay(db: Db, input: Input)
    requires Inv(db) && input.source != Unsupported
    ensures match Existing(db.orders, input)
            case Some(i) => forall k :: InTheWay(db.orders, input, k) <==> k == i
            case None => forall k :: !InTheWay(db.orders, input, k)
  {
    ExistingIsTheChannelsOrder(db.orders, input);
    hide Existing;
    forall k: nat | k < |db.orders| ensures db.orders[k].source != Unsupported {
      assert OrderOk(db.orders, k);
    }
  }

  lemma ChecksAre(env: Env, input: Input)
    ensures PreCheck(env, input).None? <==> WellFormed(env, input)
  {
  }

  predicate OverBudget(env: Env, input: Input, c: Category)
    requires OnMenu(input.lines, env.menu)
  {
    var limits := if FromScan(input.source) then env.prisonerLimits else if input.source == Relative then env.visitorLimits else map[];
    c in limits && Cost(input.lines, env.menu, Some(c)) > limits[c]
  }

  lemma BudgetIs(env: Env, input: Input, c: Category)
    requires OnMenu(input.lines, env.menu)
    ensures AllKnown(Aggregate(input.lines), env.menu)
    ensures OverLimit(env, input.source, Priced(Aggregate(input.lines), env.menu), c) <==> OverBudget(env, input, c)
  {
    CategoryCost(input.lines, env.menu, c);
  }

  lemma BudgetsAreLimits(env: Env, input: Input)
    requires OnMenu(input.lines, env.menu)
    ensures !OverBudget(env, input, Food) && !OverBudget(env, input, Essential) <==> WithinLimits(env, input)
  {
    hide Cost;
    if !OverBudget(env, input, Food) && !OverBudget(env, input, Essential) {
      forall c: Category ensures !OverBudget(env, input, c) {
        match c
        case Food =>
        case Essential =>
      }
      forall c | c in env.prisonerLimits
        ensures FromScan(input.source) ==> Cost(input.lines, env.menu, Some(c)) <= env.prisonerLimits[c] {
        assert !OverBudget(env, input, c);
      }
      forall c | c in env.visitorLimits
        ensures input.source == Relative ==> Cost(input.lines, env.menu, Some(c)) <= env.visitorLimits[c] {
        assert !OverBudget(env, input, c);
      }
    }
  }

  lemma LimitsAre(env: Env, input: Input)
    requires OnMenu(input.lines, env.menu)
    ensures AllKnown(Aggregate(input.lines), env.menu)
    ensures var items := Priced(Aggregate(input.lines), env.menu);
            !OverLimit(env, input.source, items, Food) && !OverLimit(env, input.source, items, Essential)
            <==> WithinLimits(env, input)
  {
    BudgetIs(env, input, Food);
    BudgetIs(env, input, Essential);
    BudgetsAreLimits(env, input);
    hide OverBudget, OverLimit, WithinLimits, Priced, Aggregate;
  }

  lemma SettlesExactlyWhen(db: Db, input: Input, i: Option<OrderId>, total: int)
    requires Inv(db) && (i.Some? ==> i.value < |db.orders|) && total >= 0
    ensures SettleOrder(db, input, i, total).Settled? <==> Affordable(db, input, Refund(db.orders, i), total)
  {
    assert Balance(Touch(db.books, input.user), input.user) == Balance(db.books, input.user);
    assert Balance(db.books, input.user) >= 0;
    if i.Some? {
      assert OrderOk(db.orders, i.value);
    }
  }

  lemma {:induction false} CostNotNegative(lines: seq<Line>, menu: map<MenuId, MenuItem>, c: Option<Category>)
    requires OnMenu(lines, menu) && forall l | l in lines :: l.quantity >= 1
    ensures Cost(lines, menu, c) >= 0
  {
    if lines != [] {
      var n := |lines| - 1;
      CostNotNegative(lines[..n], menu, c);
      assert lines[n] in lines;
      assert menu[lines[n].item].price * lines[n].quantity >= 0;
    }
  }

  /** A create succeeds exactly when the request is well formed, everything is available and within
      the limits, no order is in the way of a relative one, a replacement was not declined, and
      the balance with the replaced total covers a scanned one. */
  lemma CreatedExactlyWhen(db: Db, env: Env, input: Input)
    requires Inv(db)
    ensures Existing(db.orders, input).Some? ==> Existing(db.orders, input).value < |db.orders|
    ensures Create(db, env, input).1.Done? <==> Creatable(db, env, input, Existing(db.orders, input))
    ensures !Create(db, env, input).1.Done? ==> Create(db, env, input).0 == db
    ensures Create(db, env, input).1.Done? ==>
              Create(db, env, input).1 == Done(|db.orders|, Existing(db.orders, input).Some?)
  {
    ExistingIsTheChannelsOrder(db.orders, input);
    ChecksAre(env, input);
    AvailableIsOrderable(env, input);
    if WellFormed(env, input) && Available(env, input) {
      LimitsAre(env, input);
      TotalCost(input.lines, env.menu);
      CostNotNegative(input.lines, env.menu, None);
      SettlesExactlyWhen(db, input, Existing(db.orders, input), Cost(input.lines, env.menu, None));
    }
    hide Existing, PreCheck, WellFormed, Available, Orderable, OverLimit, WithinLimits, Aggregate, Priced, ItemsTotal, Cost,
         SettleOrder, Affordable, Inv, Supersede, NewOrder, Refund;
  }

  /** Which error a refused create answers: the first, in this order, that applies. */
  lemma RefusedBecause(db: Db, env: Env, input: Input)
    requires Inv(db) && !Create(db, env, input).1.Done?
    ensures var why := Create(db, env, input).1.why;
            if input.user !in env.users then why == UserNotFound
            else if input.lines == [] then why == EmptyItems
            else if exists l :: l in input.lines && (l.quantity < 1 || l.quantity > 99) then why == InvalidQuantity
            else if input.source == Unsupported then why == InvalidSource
            else if FromScan(input.source) && !input.operatorGiven then why == OperatorMissing
            else if !WellFormed(env, input) then why == InvalidTender
            else if !Available(env, input) then why == ItemNotInMenu
            else if OverBudget(env, input, Food) then why == LimitExceeded(Food)
            else if OverBudget(env, input, Essential) then why == LimitExceeded(Essential)
            else if Existing(db.orders, input).Some? && input.acknowledged == Some(false) then why == ReplacementAckRequired
            else if Existing(db.orders, input).Some? && input.source == Relative then why == AlreadyPending
            else FromScan(input.source) && (why == Money(InvalidAmount) || why == Money(InsufficientFunds))
  {
    ExistingIsTheChannelsOrder(db.orders, input);
    AvailableIsOrderable(env, input);
    if Available(env, input) {
      BudgetIs(env, input, Food);
      BudgetIs(env, input, Essential);
    }
    hide Existing, Orderable, OverLimit, OverBudget, Aggregate, Priced, ItemsTotal, Cost, Inv, Supersede, NewOrder, Available;
  }

  /** The money error: a total above 1,000,000,000, or else one that the money does not cover. */
  lemma MoneyRefusedBecause(db: Db, env: Env, input: Input)
    requires Inv(db) && Create(db, env, input).1.Failed? && Create(db, env, input).1.why.Money?
    ensures OnMenu(input.lines, env.menu)
    ensures Create(db, env, input).1.why
            == Money(if Cost(input.lines, env.menu, None) > 1_000_000_000 then InvalidAmount else InsufficientFunds)
  {
    var existing := Existing(db.orders, input);
    ExistingIsTheChannelsOrder(db.orders, input);
    AvailableIsOrderable(env, input);
    TotalCost(input.lines, env.menu);
    if existing.Some? && Scanned(input.source) {
      ReversalNeverRefused(db, input);
    }
    hide Existing, Orderable, OverLimit, Aggregate, Priced, ItemsTotal, Cost, Inv, Supersede, NewOrder;
  }

  // ----------------------------------------------------------------------------- what is stored

  /** The new order, as the request, the menu and the source determine it. */
  ghost predicate OrderStored(o: Order, env: Env, input: Input)
    requires OnMenu(input.lines, env.menu)
  {
    && o.date == input.date && o.user == input.user && o.source == input.source && o.status == Active
    && o.supersededBy == None && o.reference == None
    && (o.paid <==> FromScan(input.source))
    && o.tender == (if FromScan(input.source) then Some(FromBalance) else input.tender)
    && o.total == Cost(input.lines, env.menu, None)
    && LinesStored(o.items, input.lines, env.menu)
  }

  function Booking(u: User, kind: Kind, amount: int, before: int, order: OrderId): seq<Entry> {
    if amount == 0 then [] else [Entry(u, kind, amount, before + amount, order)]
  }

  /** What a scanned order books: the replaced total back in, then its own total out. */
  ghost predicate Booked(b: Books, after: Books, u: User, refund: int, refunded: OrderId, total: int, created: OrderId) {
    && after.ledger
       == b.ledger + Booking(u, Reversal, refund, Balance(b, u), refunded)
          + Booking(u, OrderDebit, -total, Balance(b, u) + refund, created)
    && (forall x :: Balance(after, x) == Balance(b, x) + (if x == u then refund - total else 0))
  }

  lemma SettleBooks(b: Books, u: User, refund: int, refunded: OrderId, total: int, created: OrderId)
    requires refund >= 0 && total >= 0 && Settle(Touch(b, u), u, refund, refunded, total, created).Settled?
    ensures Booked(b, Settle(Touch(b, u), u, refund, refunded, total, created).books, u, refund, refunded, total, created)
  {
    assert Touch(b, u).ledger == b.ledger && Balance(Touch(b, u), u) == Balance(b, u);
  }

  /** What a successful create stores: the old orders, the one in the way marked as replaced by the
      new one, the new order last, and for a scanned order the two bookings. */
  lemma CreateWrites(db: Db, env: Env, input: Input)
    requires Inv(db) && Create(db, env, input).1.Done?
    ensures OnMenu(input.lines, env.menu)
    ensures var after := Create(db, env, input).0;
            var n := |db.orders|;
            && |after.orders| == n + 1 && OrderStored(after.orders[n], env, input)
            && (forall k | 0 <= k < n ::
                  after.orders[k] == if InTheWay(db.orders, input, k)
                                     then db.orders[k].(status := Superseded, supersededBy := Some(n)) else db.orders[k])
    ensures var after := Create(db, env, input).0;
            match Existing(db.orders, input)
            case Some(i) =>
              && InTheWay(db.orders, input, i)
              && (if FromScan(input.source)
                  then Booked(db.books, after.books, input.user, db.orders[i].total, i,
                              Cost(input.lines, env.menu, None), |db.orders|)
                  else after.books == db.books)
            case None =>
              if FromScan(input.source)
              then Booked(db.books, after.books, input.user, 0, 0, Cost(input.lines, env.menu, None), |db.orders|)
              else after.books == db.books
  {
    CreatedExactlyWhen(db, env, input);
    CreateKeepsOrders(db, env, input);
    TheOneInTheWay(db, input);
    StoredLines(input.lines, env.menu);
    TotalCost(input.lines, env.menu);
    CostNotNegative(input.lines, env.menu, None);
    var existing := Existing(db.orders, input);
    if existing.Some? {
      assert OrderOk(db.orders, existing.value);
    }
    if FromScan(input.source) {
      SettleBooks(db.books, input.user, Refund(db.orders, existing), if existing.Some? then existing.value else 0,
                  Cost(input.lines, env.menu, None), |db.orders|);
    }
    hide Create, Existing, Aggregate, Priced, ItemsTotal, Cost, LinesStored, Settle, Booked, Inv, InTheWay, Creatable;
  }

  // --------------------------------------------------------------------------- at the counter

  ghost predicate OnlyOrder(db: Db, after: Db, i: OrderId) {
    && after.books == db.books && |after.orders| == |db.orders|
    && (forall k | 0 <= k < |db.orders| && k != i :: after.orders[k] == db.orders[k])
  }

  /** A relative order that is active and unpaid. */
  predicate Awaiting(db: Db, i: OrderId) {
    i < |db.orders| && db.orders[i].source == Relative && db.orders[i].status == Active && !db.orders[i].paid
  }

  /** The cashier's accept marks an awaiting order paid, exactly if the amount typed in is its total
      and no order has the reference yet; books and other orders stay. */
  lemma AcceptWrites(db: Db, i: OrderId, tender: Option<Tender>, received: Option<int>, reference: Option<nat>)
    ensures var after := Do(db, AcceptStep(i, tender, received, reference));
            if Awaiting(db, i) && (tender == None || tender == Some(Cash) || tender == Some(Bank))
               && (received == None || received == Some(db.orders[i].total))
               && (reference == None || forall o | o in db.orders :: o.reference != reference)
            then
              && OnlyOrder(db, after, i)
              && after.orders[i]
                 == db.orders[i].(paid := true, reference := reference,
                                  tender := if tender == None then db.orders[i].tender else tender)
            else after == db
  {
  }

  /** The cashier's reject ends an awaiting order. */
  lemma RejectWrites(db: Db, i: OrderId)
    ensures var after := Do(db, RejectStep(i));
            if Awaiting(db, i) then OnlyOrder(db, after, i) && after.orders[i] == db.orders[i].(status := Rejected)
            else after == db
  {
  }

  /** A top-up of 1 to 1,000,000,000 by an operator books exactly that amount. */
  lemma TopUpWrites(db: Db, u: User, amount: int, operatorGiven: bool)
    ensures var after := Do(db, TopUpStep(u, amount, operatorGiven));
            if 1 <= amount <= 1_000_000_000 && operatorGiven then
              && after.orders == db.orders
              && (forall x :: Balance(after.books, x) == Balance(db.books, x) + (if x == u then amount else 0))
              && after.books.ledger == db.books.ledger + [Entry(u, TopUp, amount, Balance(db.books, u) + amount, -1)]
            else after == db
  {
  }

  lemma {:induction false} RunLast(db: Db, steps: seq<Step>)
    requires steps != []
    ensures Run(db, steps) == Do(Run(db, steps[..|steps| - 1]), steps[|steps| - 1])
    decreases |steps|
  {
    hide Do;
    if |steps| > 1 {
      RunLast(Do(db, steps[0]), steps[1..]);
      assert steps[1..][..|steps| - 2] == steps[..|steps| - 1][1..];
    } else {
      assert steps[1..] == [] && steps[..0] == [];
    }
  }

  /** The k-th step is the cashier's accept of order i, and it took effect. */
  ghost predicate AcceptedAt(steps: seq<Step>, k: nat, i: OrderId) {
    && k < |steps| && steps[k].AcceptStep? && steps[k].i == i
    && Awaiting(Run(EMPTY_DB, steps[..k]), i)
    && i < |Run(EMPTY_DB, steps[..k + 1]).orders| && Run(EMPTY_DB, steps[..k + 1]).orders[i].paid
  }

  lemma PaidBeforeCreate(db: Db, env: Env, input: Input, i: OrderId)
    requires Inv(db)
    ensures var after := Create(db, env, input).0;
            i < |after.orders| && after.orders[i].source == Relative && after.orders[i].paid ==>
              i < |db.orders| && db.orders[i].source == Relative && db.orders[i].paid
  {
    CreatedExactlyWhen(db, env, input);
    if Create(db, env, input).1.Done? {
      CreateWrites(db, env, input);
    }
    hide Create, Inv, Creatable, Existing, LinesStored, Booked, InTheWay;
  }

  lemma PaidBefore(db: Db, s: Step, i: OrderId)
    requires Inv(db) && i < |Do(db, s).orders| && Do(db, s).orders[i].source == Relative && Do(db, s).orders[i].paid
    ensures (i < |db.orders| && db.orders[i].source == Relative && db.orders[i].paid)
            || (s.AcceptStep? && s.i == i && Awaiting(db, i))
  {
    match s
    case TopUpStep(u, amount, operatorGiven) => TopUpWrites(db, u, amount, operatorGiven);
    case CreateStep(env, input) => PaidBeforeCreate(db, env, input, i);
    case AcceptStep(j, tender, received, reference) => AcceptWrites(db, j, tender, received, reference);
    case RejectStep(j) => RejectWrites(db, j);
  }

  lemma AcceptedStaysSo(steps: seq<Step>, n: nat, k: nat, i: OrderId)
    requires n <= |steps| && AcceptedAt(steps[..n], k, i)
    ensures AcceptedAt(steps, k, i)
  {
    hide Run, Awaiting;
    assert steps[..n][..k] == steps[..k] && steps[..n][..k + 1] == steps[..k + 1];
  }

  /** Over every run a relative order is paid only because a cashier accepted it. */
  lemma {:induction false} PaidOnlyAtTheCounter(steps: seq<Step>, i: OrderId)
    requires var orders := Run(EMPTY_DB, steps).orders;
             i < |orders| && orders[i].source == Relative && orders[i].paid
    ensures exists k: nat :: AcceptedAt(steps, k, i)
  {
    if steps != [] {
      var n := |steps| - 1;
      var before := Run(EMPTY_DB, steps[..n]);
      RunLast(EMPTY_DB, steps);
      RunKeeps(EMPTY_DB, steps[..n]);
      PaidBefore(before, steps[n], i);
      hide Run, Do, Inv;
      if i < |before.orders| && before.orders[i].source == Relative && before.orders[i].paid {
        PaidOnlyAtTheCounter(steps[..n], i);
        var k: nat :| AcceptedAt(steps[..n], k, i);
        AcceptedStaysSo(steps, n, k, i);
      } else {
        assert steps[..n + 1] == steps;
        assert AcceptedAt(steps, n, i);
      }
    }
  }

  // -------------------------------------------------------------------------------- the report

  /** Paid active orders of the days from `from` to `to`. */
  predicate Sold(o: Order, from: Date, to: Date) {
    o.status == Active && o.paid && from <= o.date && o.date <= to
  }

  function SoldTo<K(==)>(orders: seq<Order>, from: Date, to: Date, key: Order -> K, k: K): int {
    if orders == [] then 0
    else
      var n := |orders| - 1;
      SoldTo(orders[..n], from, to, key, k)
      + (if Sold(orders[n], from, to) && key(orders[n]) == k then orders[n].total else 0)
  }

  function ItemsOf(items: seq<Item>, c: Category): int {
    if items == [] then 0
    else ItemsOf(items[1..], c) + (if items[0].category == c then items[0].unitPrice * items[0].quantity else 0)
  }

  function SoldOf(orders: seq<Order>, from: Date, to: Date, c: Category): int {
    if orders == [] then 0
    else
      var n := |orders| - 1;
      SoldOf(orders[..n], from, to, c) + (if Sold(orders[n], from, to) then ItemsOf(orders[n].items, c) else 0)
  }

  /** Every row of a grouping is the sum of exactly its own orders. */
  lemma {:induction false} EachGroupIsExact<K>(orders: seq<Order>, from: Date, to: Date, key: Order -> K, k: K)
    ensures Lookup(RevenueBy(orders, from, to, key), k) == SoldTo(orders, from, to, key, k)
  {
    if orders != [] {
      var n := |orders| - 1;
      EachGroupIsExact(orders[..n], from, to, key, k);
      BumpAdds(RevenueBy(orders[..n], from, to, key), key(orders[n]), orders[n].total);
    }
  }

  lemma {:induction false} AddedItems(cells: seq<Cell<Category>>, items: seq<Item>, c: Category)
    ensures Lookup(AddItems(cells, items), c) == Lookup(cells, c) + ItemsOf(items, c)
    decreases |items|
  {
    if items != [] {
      BumpAdds(cells, items[0].category, items[0].unitPrice * items[0].quantity);
      AddedItems(Bump(cells, items[0].category, items[0].unitPrice * items[0].quantity), items[1..], c);
    }
  }

  lemma {:induction false} EachCategoryIsExact(orders: seq<Order>, from: Date, to: Date, c: Category)
    ensures Lookup(RevenueByCategory(orders, from, to), c) == SoldOf(orders, from, to, c)
  {
    if orders != [] {
      var n := |orders| - 1;
      EachCategoryIsExact(orders[..n], from, to, c);
      AddedItems(RevenueByCategory(orders[..n], from, to), orders[n].items, c);
    }
  }

  // ---------------------------------------------------------------------------------- vouchers

  function Named(items: seq<Item>, m: MenuId): int {
    if items == [] then 0 else Named(items[1..], m) + (if items[0].menu == m then items[0].quantity else 0)
  }

  /** How many portions of an item one prisoner's paid orders of the day name together. */
  function Due(orders: seq<Order>, date: Date, user: User, m: MenuId): int {
    if orders == [] then 0
    else
      var n := |orders| - 1;
      Due(orders[..n], date, user, m) + (if Sold(orders[n], date, date) && orders[n].user == user then Named(orders[n].items, m) else 0)
  }

  lemma {:induction false} NamedLast(items: seq<Item>, m: MenuId)
    requires items != []
    ensures var n := |items| - 1;
            Named(items, m) == Named(items[..n], m) + (if items[n].menu == m then items[n].quantity else 0)
  {
    var n := |items| - 1;
    if n > 0 {
      NamedLast(items[1..], m);
      assert items[..n][1..] == items[1..][..n - 1];
    }
  }

  lemma {:induction false} AddedNamed(cells: seq<Cell<MenuId>>, items: seq<Item>, m: MenuId)
    ensures Lookup(AddPortions(cells, items), m) == Lookup(cells, m) + Named(items, m)
  {
    if items != [] {
      var n := |items| - 1;
      AddedNamed(cells, items[..n], m);
      BumpAdds(AddPortions(cells, items[..n]), items[n].menu, items[n].quantity);
      NamedLast(items, m);
    }
  }

  lemma {:induction false} DeliveredIsDue(orders: seq<Order>, date: Date, user: User, m: MenuId)
    ensures Lookup(Delivered(orders, date, user), m) == Due(orders, date, user, m)
  {
    if orders != [] {
      var n := |orders| - 1;
      DeliveredIsDue(orders[..n], date, user, m);
      AddedNamed(Delivered(orders[..n], date, user), orders[n].items, m);
    }
  }

  lemma {:induction false} LookupOfPresent<K(!new)>(cells: seq<Cell<K>>, c: Cell<K>)
    requires DistinctKeys(cells) && c in cells
    ensures Lookup(cells, c.key) == c.amount
  {
    if cells[0] != c {
      var i :| 0 < i < |cells| && cells[i] == c;
      assert cells[1..][i - 1] == c;
      LookupOfPresent(cells[1..], c);
    }
  }

  /** Each voucher charges its prisoner exactly their own paid orders of the day, states their
      balance, and lists each item with exactly the portions those orders name. */
  lemma EachVoucherIsExact(orders: seq<Order>, b: Books, date: Date, layout: Layout, v: Voucher)
    requires v in Sheets(orders, b, date, layout)
    ensures v.total == SoldTo(orders, date, date, Owner(), v.user) && v.remainingBalance == Balance(b, v.user)
    ensures forall c | c in v.items :: c.amount == Due(orders, date, v.user, c.key)
    ensures forall m: MenuId | Due(orders, date, v.user, m) != 0 :: Cell(m, Due(orders, date, v.user, m)) in v.items
  {
    var cells := RevenueBy(orders, date, date, Owner());
    GroupsAddUp(orders, date, date, Owner());
    KeptBySort(VouchersOf(cells, orders, b, date, layout), VoucherOrder(layout), v);
    var i :| 0 <= i < |cells| && VouchersOf(cells, orders, b, date, layout)[i] == v;
    assert cells[i] in cells;
    LookupOfPresent(cells, cells[i]);
    EachGroupIsExact(orders, date, date, Owner(), v.user);
    ItsPortions(orders, date, v.user, layout);
    hide *;
    VoucherParts(cells[i], orders, b, date, layout);
  }

  lemma VoucherParts(cell: Cell<User>, orders: seq<Order>, b: Books, date: Date, layout: Layout)
    ensures var v := VoucherFor(cell, orders, b, date, layout);
            && v.user == cell.key && v.total == cell.amount && v.remainingBalance == Balance(b, cell.key)
            && v.items == Sort(Delivered(orders, date, cell.key), ItemOrder(layout))
  {
  }

  lemma {:induction false} KeptBySort<T(!new)>(xs: seq<T>, le: (T, T) -> bool, x: T)
    ensures x in Sort(xs, le) <==> x in xs
  {
    if xs != [] {
      KeptBySort(xs[1..], le, x);
      KeptByInsert(xs[0], Sort(xs[1..], le), le, x);
    }
  }

  lemma {:induction false} KeptByInsert<T(!new)>(y: T, xs: seq<T>, le: (T, T) -> bool, x: T)
    ensures x in Insert(y, xs, le) <==> x == y || x in xs
  {
    if xs != [] && !le(y, xs[0]) {
      KeptByInsert(y, xs[1..], le, x);
    }
  }

  lemma ItsPortions(orders: seq<Order>, date: Date, user: User, layout: Layout)
    ensures var items := Sort(Delivered(orders, date, user), ItemOrder(layout));
            && (forall c | c in items :: c.amount == Due(orders, date, user, c.key))
            && (forall m: MenuId | Due(orders, date, user, m) != 0 :: Cell(m, Due(orders, date, user, m)) in items)
  {
    var cells := Delivered(orders, date, user);
    var items := Sort(cells, ItemOrder(layout));
    DeliveredDistinct(orders, date, user);
    hide Sort, Delivered, Due, ItemOrder;
    forall c | c in items ensures c.amount == Due(orders, date, user, c.key) {
      KeptBySort(cells, ItemOrder(layout), c);
      LookupOfPresent(cells, c);
      DeliveredIsDue(orders, date, user, c.key);
    }
    forall m: MenuId | Due(orders, date, user, m) != 0 ensures Cell(m, Due(orders, date, user, m)) in items {
      DeliveredIsDue(orders, date, user, m);
      Looked(cells, m);
      KeptBySort(cells, ItemOrder(layout), Cell(m, Due(orders, date, user, m)));
    }
  }

  lemma {:induction false} Looked<K>(cells: seq<Cell<K>>, k: K)
    requires Lookup(cells, k) != 0
    ensures Cell(k, Lookup(cells, k)) in cells
  {
    if cells[0].key != k {
      Looked(cells[1..], k);
    }
  }
}
