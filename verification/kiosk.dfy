/** Kiosk orders (kiosk.service.ts). */
module Kiosk {
  // A visitor's order at the public kiosk and the transfer code it may carry.

  import Orders
  import Accounts
  import opened VietQr
  import opened BankMemo

  datatype Transfer = NotAsked | Unconfigured | Code(payload: string, memo: string) | Threw(error: Error)

  datatype Result = Refused(why: Orders.Refusal) | Placed(order: Accounts.OrderId, transfer: Transfer)

  // The text of an order's UUID, and what decomposing and upper-casing make of a name.
  datatype Texts = Texts(uuid: Accounts.OrderId -> string, plain: string -> string)

  ghost predicate TextsOk(texts: Texts) {
    forall i :: IsOrderId(texts.uuid(i))
  }

  // What the payment configuration admits.
  predicate ValidAccount(account: BankAccount) {
    && |account.bankBin| == 6 && AllDigits(account.bankBin)
    && 6 <= |account.accountNumber| <= 19 && AllDigits(account.accountNumber)
  }

  function KioskInput(date: Orders.Date, user: Accounts.User, lines: seq<Orders.Line>, tender: Orders.Tender): Orders.Input {
    Orders.Input(date, user, lines, Orders.Relative, false, Orders.Some(tender), Orders.None)
  }

  function Attach(config: Option<BankAccount>, tender: Orders.Tender, total: int, id: string, name: string,
                  plain: string -> string): Transfer
    requires IsOrderId(id)
  {
    if tender != Orders.Bank then NotAsked
    else if config.None? then Unconfigured
    else
      var memo := Memo(plain, id, name);
      match Payload(config.value, total, memo)
      case Ok(payload) => Code(payload, memo)
      case Err(e) => Threw(e)
  }

  /** placeOrder: the order is committed before the transfer code is built. */
  method PlaceOrder(orders: Orders.OrdersService, env: Orders.Env, date: Orders.Date, user: Accounts.User, active: bool,
                    lines: seq<Orders.Line>, tender: Orders.Tender, config: Option<BankAccount>, name: string, texts: Texts)
    returns (r: Result)
    requires TextsOk(texts)
    modifies orders, orders.accounts
    ensures var made := Orders.Create(old(orders.State()), env, KioskInput(date, user, lines, tender));
            if !active then r == Refused(Orders.UserNotFound) && orders.State() == old(orders.State())
            else
              && orders.State() == made.0
              && match made.1
                 case Failed(why) => r == Refused(why)
                 case Done(order, _) =>
                   && order < |made.0.orders|
                   && r == Placed(order, Attach(config, tender, made.0.orders[order].total, texts.uuid(order), name, texts.plain))
  {
    if !active {
      return Refused(Orders.UserNotFound);
    }
    var made := orders.CreateOrReplace(env, KioskInput(date, user, lines, tender));
    if made.Failed? {
      return Refused(made.why);
    }
    var order := orders.orders[made.order];
    if tender != Orders.Bank {
      return Placed(made.order, NotAsked);
    }
    if config.None? {
      return Placed(made.order, Unconfigured);
    }
    var memo := Memo(texts.plain, texts.uuid(made.order), name);
    var payload := BuildVietQrPayload(config.value, order.total, memo);
    if payload.Err? {
      return Placed(made.order, Threw(payload.error));
    }
    return Placed(made.order, Code(payload.text, memo));
  }

  /** With a configured account a bank order of a safe total gets a code if and only if its total is
      positive.  The code then reads back as the account, the stored total and a memo that names
      the order; for a free order the builder throws although the order stays committed. */
  lemma CodeExactlyWhen(db: Orders.Db, env: Orders.Env, date: Orders.Date, user: Accounts.User, lines: seq<Orders.Line>,
                        account: BankAccount, name: string, texts: Texts)
    requires Orders.Inv(db) && TextsOk(texts) && ValidAccount(account)
    requires Orders.Create(db, env, KioskInput(date, user, lines, Orders.Bank)).1.Done?
    requires Orders.CreatedTotal(env, KioskInput(date, user, lines, Orders.Bank)) <= MAX_SAFE_INTEGER
    ensures var (after, made) := Orders.Create(db, env, KioskInput(date, user, lines, Orders.Bank));
            && made.order < |after.orders|
            && var total := after.orders[made.order].total;
            && var id := texts.uuid(made.order);
            && var transfer := Attach(Some(account), Orders.Bank, total, id, name, texts.plain);
            && total == Orders.CreatedTotal(env, KioskInput(date, user, lines, Orders.Bank)) >= 0
            && (transfer.Code? <==> total > 0)
            && (total == 0 ==> transfer == Threw(BadAmount))
            && (transfer.Code? ==>
                  && ReadPayload(transfer.payload) == Some(Payment(account, total, transfer.memo))
                  && ConfirmationCode(id) <= transfer.memo)
  {
    var input := KioskInput(date, user, lines, Orders.Bank);
    Orders.CreateKeepsOrders(db, env, input);
    var (after, made) := Orders.Create(db, env, input);
    var total, id := after.orders[made.order].total, texts.uuid(made.order);
    var memo := Memo(texts.plain, id, name);
    MemoIsShortAndTidy(texts.plain, id, name);
    hide Memo, ReadPayload, Orders.Create;
    if total > 0 {
      KioskPayloadReadsBack(texts.plain, id, name, account, total);
    }
  }

  const FREE_MENU := Orders.Env({0}, map[0 := Orders.MenuItem(0, Orders.Food, true)], map[], map[])

  /** One portion of an item priced 0 is such an order: the menu admits the price, the order is
      created, and the code is not. */
  lemma FreeOrderThrows(account: BankAccount, name: string, texts: Texts)
    requires TextsOk(texts) && ValidAccount(account)
    ensures var (after, made) := Orders.Create(Orders.EMPTY_DB, FREE_MENU, KioskInput(0, 0, [Orders.Line(0, 1)], Orders.Bank));
            && made == Orders.Done(0, false) && |after.orders| == 1
            && Attach(Some(account), Orders.Bank, after.orders[0].total, texts.uuid(0), name, texts.plain) == Threw(BadAmount)
  {
    var lines := [Orders.Line(0, 1)];
    var input := KioskInput(0, 0, lines, Orders.Bank);
    var cells := Orders.Aggregate(lines);
    assert lines[..0] == [] && Orders.Aggregate(lines[..0]) == [];
    assert |cells| == 1 && cells[0].key == 0 && cells[0].amount == 1;
    assert Orders.Priced(cells, FREE_MENU.menu)[1..] == Orders.Priced(cells[1..], FREE_MENU.menu);
    assert Orders.CategoryTotal(Orders.Priced(cells, FREE_MENU.menu), Orders.Food) == 0;
    assert Orders.CategoryTotal(Orders.Priced(cells, FREE_MENU.menu), Orders.Essential) == 0;
  }
}
