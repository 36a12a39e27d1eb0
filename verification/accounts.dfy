/** Prisoner accounts. */
module Accounts {
  // Balances and their append-only ledger (accounts.service.ts).

  type User = nat
  type OrderId = nat

  const MAX_VND := 1_000_000_000

  datatype Error = InvalidAmount | OperatorRequired | InsufficientFunds

  datatype Result = Ok(balance: int) | Err(error: Error)

  datatype Kind = TopUp | Reversal | OrderDebit

  datatype Entry = Entry(user: User, kind: Kind, amount: int, balanceAfter: int, order: int)

  const NO_ORDER := -1

  datatype Books = Books(balances: map<User, int>, ledger: seq<Entry>)

  function Balance(b: Books, u: User): int {
    if u in b.balances then b.balances[u] else 0
  }

  /** getOrCreate: the row exists afterwards, at zero if nobody touched it before. */
  function Touch(b: Books, u: User): Books {
    b.(balances := b.balances[u := Balance(b, u)])
  }

  function Post(b: Books, u: User, delta: int, kind: Kind, order: int): Books {
    Books(b.balances[u := Balance(b, u) + delta],
          b.ledger + [Entry(u, kind, delta, Balance(b, u) + delta, order)])
  }

  predicate AmountOk(amount: int) {
    0 < amount <= MAX_VND
  }

  class AccountsService {
    var balances: map<User, int>
    var ledger: seq<Entry>

    function State(): Books
      reads this
    {
      Books(balances, ledger)
    }

    constructor ()
      ensures State() == Books(map[], [])
    {
      balances, ledger := map[], [];
    }

    method GetOrCreate(u: User) returns (balance: int)
      modifies this
      ensures State() == Touch(old(State()), u) && balance == Balance(State(), u) == Balance(old(State()), u)
    {
      if u !in balances {
        balances := balances[u := 0];
      }
      balance := balances[u];
    }

    method Mutate(u: User, locked: int, delta: int, kind: Kind, order: int) returns (balanceAfter: int)
      requires u in balances && balances[u] == locked
      modifies this
      ensures State() == Post(old(State()), u, delta, kind, order)
      ensures balanceAfter == Balance(old(State()), u) + delta
    {
      balanceAfter := locked + delta;
      balances := balances[u := balanceAfter];
      ledger := ledger + [Entry(u, kind, delta, balanceAfter, order)];
    }

    method Credit(u: User, amount: int, kind: Kind, order: int, operatorGiven: bool) returns (r: Result)
      modifies this
      ensures match r
              case Ok(after) =>
                AmountOk(amount) && operatorGiven
                && State() == Post(old(State()), u, amount, kind, order)
                && after == Balance(State(), u)
              case Err(e) =>
                State() == old(State())
                && e == (if !AmountOk(amount) then InvalidAmount else OperatorRequired)
                && (AmountOk(amount) ==> !operatorGiven)
    {
      if amount <= 0 || amount > MAX_VND {
        return Err(InvalidAmount);
      }
      if !operatorGiven {
        return Err(OperatorRequired);
      }
      var locked := GetOrCreate(u);
      var after := Mutate(u, locked, amount, kind, order);
      return Ok(after);
    }

    /** Refuses to go below zero; a refused debit leaves balances and ledger alone. */
    method Debit(u: User, amount: int, order: int, operatorGiven: bool) returns (r: Result)
      modifies this
      ensures match r
              case Ok(after) =>
                AmountOk(amount) && operatorGiven && 0 <= after == Balance(old(State()), u) - amount
                && State() == Post(old(State()), u, -amount, OrderDebit, order)
              case Err(e) =>
                ledger == old(ledger) && (forall x :: Balance(State(), x) == Balance(old(State()), x))
                && e == (if !AmountOk(amount) then InvalidAmount
                         else if !operatorGiven then OperatorRequired else InsufficientFunds)
                && (AmountOk(amount) && operatorGiven ==> Balance(old(State()), u) < amount)
    {
      if amount <= 0 || amount > MAX_VND {
        return Err(InvalidAmount);
      }
      if !operatorGiven {
        return Err(OperatorRequired);
      }
      var locked := GetOrCreate(u);
      if locked < amount {
        return Err(InsufficientFunds);
      }
      var after := Mutate(u, locked, -amount, OrderDebit, order);
      return Ok(after);
    }
  }

  // ------------------------------------------------------------------------------- the ledger

  /** The sum of a prisoner's first n ledger rows. */
  function PrefixSum(ledger: seq<Entry>, u: User, n: nat): int
    requires n <= |ledger|
  {
    if n == 0 then 0
    else PrefixSum(ledger, u, n - 1) + (if ledger[n - 1].user == u then ledger[n - 1].amount else 0)
  }

  function KindSum(ledger: seq<Entry>, u: User, kind: Kind, n: nat): int
    requires n <= |ledger|
  {
    if n == 0 then 0
    else KindSum(ledger, u, kind, n - 1)
         + (if ledger[n - 1].user == u && ledger[n - 1].kind == kind then ledger[n - 1].amount else 0)
  }

  /** Every balance_after is the exact running total of its prisoner and is never negative; the
      stored balance is the last of them. */
  ghost predicate Exact(b: Books) {
    && (forall i | 0 <= i < |b.ledger| ::
          b.ledger[i].balanceAfter == PrefixSum(b.ledger, b.ledger[i].user, i + 1) >= 0)
    && (forall u :: Balance(b, u) == PrefixSum(b.ledger, u, |b.ledger|) >= 0)
  }

  lemma {:induction false} PrefixStable(ledger: seq<Entry>, e: Entry, u: User, n: nat)
    requires n <= |ledger|
    ensures PrefixSum(ledger + [e], u, n) == PrefixSum(ledger, u, n)
    ensures forall kind :: KindSum(ledger + [e], u, kind, n) == KindSum(ledger, u, kind, n)
  {
    if n > 0 {
      PrefixStable(ledger, e, u, n - 1);
    }
  }

  lemma PostKeepsExact(b: Books, u: User, delta: int, kind: Kind, order: int)
    requires Exact(b) && Balance(b, u) + delta >= 0
    ensures Exact(Post(b, u, delta, kind, order))
    ensures forall x, k ::
              var after := Post(b, u, delta, kind, order);
              KindSum(after.ledger, x, k, |after.ledger|)
              == KindSum(b.ledger, x, k, |b.ledger|) + (if x == u && k == kind then delta else 0)
  {
    var after := Post(b, u, delta, kind, order);
    var e := after.ledger[|b.ledger|];
    forall x, n: nat | n <= |b.ledger|
      ensures PrefixSum(after.ledger, x, n) == PrefixSum(b.ledger, x, n) {
      PrefixStable(b.ledger, e, x, n);
    }
    forall x, k
      ensures KindSum(after.ledger, x, k, |after.ledger|)
              == KindSum(b.ledger, x, k, |b.ledger|) + (if x == u && k == kind then delta else 0) {
      PrefixStable(b.ledger, e, x, |b.ledger|);
    }
  }

  lemma {:induction false} KindsAddUp(ledger: seq<Entry>, u: User, n: nat)
    requires n <= |ledger|
    ensures PrefixSum(ledger, u, n)
            == KindSum(ledger, u, TopUp, n) + KindSum(ledger, u, Reversal, n) + KindSum(ledger, u, OrderDebit, n)
  {
    if n > 0 {
      KindsAddUp(ledger, u, n - 1);
    }
  }
}
