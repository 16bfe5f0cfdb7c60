/**
 * The portfolio's state as a value: the cash balance and the number of shares
 * owned per stock name, with the buy and sell rules of `Portfolio.buyStock` and
 * `Portfolio.sellStock`. Share counts are Java `int`s, so the updates wrap.
 */
module Ledger {
  import opened JavaInt

  datatype Account = Account(balance: real, holdings: map<string, Int32>)

  /** A portfolio that finds no saved file: 10000.0 in cash and no shares. */
  const FreshAccount: Account := Account(10000.0, map[])

  /**
   * `price * quantity`: what a buy costs and what a sell brings in; never
   * negative for a non-negative price and quantity, and nothing for no shares.
   */
  function Amount(price: real, quantity: Int32): (r: real)
    ensures price >= 0.0 && quantity >= 0 ==> r >= 0.0
    ensures quantity == 0 ==> r == 0.0
  {
    price * quantity as real
  }

  /** `ownedStocks.getOrDefault(name, 0)`: the stored count, or 0 for a name not held. */
  function Held(holdings: map<string, Int32>, name: string): (r: Int32)
    ensures name in holdings ==> r == holdings[name]
    ensures name !in holdings ==> r == 0
  {
    if name in holdings then holdings[name] else 0
  }

  /** The state the platform means to keep: cash never negative, every stored count positive. */
  ghost predicate Valid(a: Account) {
    a.balance >= 0.0 && forall n :: n in a.holdings ==> a.holdings[n] > 0
  }

  /**
   * Buying `quantity` shares of `name` at `price`: refused, with nothing changed,
   * when the cost exceeds the balance; otherwise the cost is paid and the count
   * for `name` (0 when absent) grows by `quantity`, wrapping as a Java `int`.
   */
  function Buy(a: Account, name: string, price: real, quantity: Int32): (r: Account)
    ensures Amount(price, quantity) > a.balance ==> r == a
    ensures !(Amount(price, quantity) > a.balance) ==>
      && r.balance == a.balance - Amount(price, quantity)
      && r.holdings.Keys == a.holdings.Keys + {name}
      && r.holdings[name] == Wrap(Held(a.holdings, name) + quantity)
      && forall n :: n in a.holdings && n != name ==> r.holdings[n] == a.holdings[n]
  {
    var totalCost := Amount(price, quantity);
    if totalCost > a.balance then a
    else Account(a.balance - totalCost, a.holdings[name := Wrap(Held(a.holdings, name) + quantity)])
  }

  /**
   * Selling `quantity` shares of `name` at `price`: refused, with nothing changed,
   * when `name` is not held or fewer than `quantity` shares are; otherwise the
   * proceeds are added to the balance, the count drops by `quantity`, and an
   * entry that reaches 0 is removed.
   */
  function Sell(a: Account, name: string, price: real, quantity: Int32): (r: Account)
    ensures name !in a.holdings || a.holdings[name] < quantity ==> r == a
    ensures name in a.holdings && a.holdings[name] >= quantity ==>
      && r.balance == a.balance + Amount(price, quantity)
      && r.holdings.Keys <= a.holdings.Keys
      && (name in r.holdings <==> Wrap(a.holdings[name] - quantity) != 0)
      && (name in r.holdings ==> r.holdings[name] == Wrap(a.holdings[name] - quantity))
      && forall n :: n in a.holdings && n != name ==> n in r.holdings && r.holdings[n] == a.holdings[n]
  {
    if name !in a.holdings || a.holdings[name] < quantity then a
    else
      var left := Wrap(a.holdings[name] - quantity);
      var holdings := a.holdings[name := left];
      Account(a.balance + Amount(price, quantity), if left == 0 then holdings - {name} else holdings)
  }

  /** A portfolio that starts without a saved file satisfies the invariant. */
  lemma FreshAccountValid()
    ensures Valid(FreshAccount)
  {
  }

  /**
   * A buy of a positive quantity keeps the portfolio valid as long as the new
   * count still fits in an `int`.
   */
  lemma BuyKeepsValid(a: Account, name: string, price: real, quantity: Int32)
    requires Valid(a) && quantity > 0
    requires Held(a.holdings, name) + quantity <= MaxInt
    ensures Valid(Buy(a, name, price, quantity))
  {
  }

  /** Past the largest `int` the count wraps to a negative number: the invariant needs the bound above. */
  lemma BuyPastMaxIntWraps()
    ensures var a := Account(10.0, map["TCS" := MaxInt]);
      Valid(a) && Buy(a, "TCS", 1.0, 1).holdings["TCS"] == MinInt
  {
  }

  /**
   * A sell of a positive quantity at a non-negative price keeps the portfolio
   * valid; in particular a sell that takes every share leaves no entry behind.
   */
  lemma SellKeepsValid(a: Account, name: string, price: real, quantity: Int32)
    requires Valid(a) && quantity > 0 && price >= 0.0
    ensures Valid(Sell(a, name, price, quantity))
    ensures name in a.holdings && a.holdings[name] == quantity ==>
      name !in Sell(a, name, price, quantity).holdings
  {
    var r := Sell(a, name, price, quantity);
    if name in a.holdings && a.holdings[name] >= quantity {
      var left := a.holdings[name] - quantity;
      assert 0 <= left < a.holdings[name];
      assert r.balance >= 0.0;
      assert forall n :: n in r.holdings ==> r.holdings[n] > 0;
    }
  }

  /** A round of buys and a sell starting from a fresh portfolio. */
  lemma TradingScenario()
    ensures var a1 := Buy(FreshAccount, "INFY", 1550.0, 2);
      && a1 == Account(6900.0, map["INFY" := 2])
      && Buy(a1, "TCS", 3500.0, 100) == a1
      && Sell(a1, "INFY", 1600.0, 2) == Account(10100.0, map[])
  {
  }
}
