/**
 * What `Portfolio.viewPortfolio` adds up: each holding priced at the market's
 * current price, summed over the held names in whatever order the map yields
 * them, and the "Total Portfolio Value" line it prints beside that sum.
 */
module Valuation {
  import opened JavaInt
  import opened Ledger

  /** Some element of a non-empty set; the sum below does not depend on which. */
  ghost function Pick(names: set<string>): (n: string)
    requires names != {}
    ensures n in names
  {
    var n :| n in names; n
  }

  /**
   * The worth of the holdings named in `names`: nothing for no names, and never
   * negative when the counts and prices are not.
   */
  ghost function SumOver(names: set<string>, holdings: map<string, Int32>, prices: map<string, real>): (r: real)
    requires names <= holdings.Keys && names <= prices.Keys
    ensures names == {} ==> r == 0.0
    ensures (forall n :: n in names ==> holdings[n] >= 0 && prices[n] >= 0.0) ==> r >= 0.0
    decreases names
  {
    if names == {} then 0.0
    else
      var n := Pick(names);
      var w := Amount(prices[n], holdings[n]);
      assert holdings[n] >= 0 && prices[n] >= 0.0 ==> holdings[n] as real >= 0.0 && w >= 0.0;
      w + SumOver(names - {n}, holdings, prices)
  }

  /**
   * "Total Stock Value": every holding priced at the current market price; 0
   * with nothing held, and never negative when the counts and prices are not.
   */
  ghost function StockValue(holdings: map<string, Int32>, prices: map<string, real>): (r: real)
    requires holdings.Keys <= prices.Keys
    ensures holdings == map[] ==> r == 0.0
    ensures (forall n :: n in holdings ==> holdings[n] >= 0 && prices[n] >= 0.0) ==> r >= 0.0
  {
    SumOver(holdings.Keys, holdings, prices)
  }

  /** Cash plus stock value: what a portfolio is worth at the given prices. */
  ghost function PortfolioValue(a: Account, prices: map<string, real>): real
    requires a.holdings.Keys <= prices.Keys
  {
    StockValue(a.holdings, prices) + a.balance
  }

  /**
   * The printed "Total Portfolio Value": `totalValue() + balance`, where
   * `totalValue()` is the balance, so twice the cash and no stock at all.
   */
  function PrintedTotal(a: Account): (r: real)
    ensures r == 2.0 * a.balance
  {
    a.balance + a.balance
  }

  /** The worth of `x + y` shares is the worth of `x` shares plus the cost of `y` more. */
  lemma AmountAdd(x: Int32, y: Int32, price: real)
    requires MinInt <= x + y <= MaxInt
    ensures Amount(price, x + y) == Amount(price, x) + Amount(price, y)
  {
    assert (x + y) as real == x as real + y as real;
  }

  /** The worth of `x - y` shares is the worth of `x` shares less the proceeds of `y`. */
  lemma AmountSub(x: Int32, y: Int32, price: real)
    requires MinInt <= x - y <= MaxInt
    ensures Amount(price, x - y) == Amount(price, x) - Amount(price, y)
  {
    assert (x - y) as real == x as real - y as real;
  }

  /** The sum may be taken starting from any held name: the iteration order does not matter. */
  lemma {:induction false} SumOverPick(names: set<string>, holdings: map<string, Int32>, prices: map<string, real>, k: string)
    requires names <= holdings.Keys && names <= prices.Keys && k in names
    ensures SumOver(names, holdings, prices)
         == Amount(prices[k], holdings[k]) + SumOver(names - {k}, holdings, prices)
    decreases names
  {
    var n := Pick(names);
    if n != k {
      SumOverPick(names - {n}, holdings, prices, k);
      SumOverPick(names - {k}, holdings, prices, n);
      assert names - {n} - {k} == names - {k} - {n};
    }
  }

  /** Holdings that agree on `names` have the same worth there. */
  lemma {:induction false} SumOverAgree(names: set<string>, h1: map<string, Int32>, h2: map<string, Int32>, prices: map<string, real>)
    requires names <= h1.Keys && names <= h2.Keys && names <= prices.Keys
    requires forall n :: n in names ==> h1[n] == h2[n]
    ensures SumOver(names, h1, prices) == SumOver(names, h2, prices)
    decreases names
  {
    if names != {} {
      SumOverAgree(names - {Pick(names)}, h1, h2, prices);
    }
  }

  /** Setting one count changes the stock value by exactly that holding's change in worth. */
  lemma StockValueSet(holdings: map<string, Int32>, prices: map<string, real>, name: string, qty: Int32)
    requires holdings.Keys <= prices.Keys && name in prices
    ensures StockValue(holdings[name := qty], prices)
         == StockValue(holdings, prices) - Amount(prices[name], Held(holdings, name)) + Amount(prices[name], qty)
  {
    var h := holdings[name := qty];
    SumOverPick(h.Keys, h, prices, name);
    assert h.Keys - {name} == holdings.Keys - {name};
    SumOverAgree(holdings.Keys - {name}, h, holdings, prices);
    if name in holdings {
      SumOverPick(holdings.Keys, holdings, prices, name);
    } else {
      assert holdings.Keys - {name} == holdings.Keys;
    }
  }

  /** Dropping a holding lowers the stock value by that holding's worth. */
  lemma StockValueRemove(holdings: map<string, Int32>, prices: map<string, real>, name: string)
    requires holdings.Keys <= prices.Keys && name in holdings
    ensures StockValue(holdings - {name}, prices) == StockValue(holdings, prices) - Amount(prices[name], holdings[name])
  {
    var h := holdings - {name};
    SumOverPick(holdings.Keys, holdings, prices, name);
    assert h.Keys == holdings.Keys - {name};
    SumOverAgree(h.Keys, h, holdings, prices);
  }

  /** Adding `quantity` shares of `name` raises the stock value by their price. */
  lemma StockValueAdd(holdings: map<string, Int32>, prices: map<string, real>, name: string, quantity: Int32)
    requires holdings.Keys <= prices.Keys && name in prices
    requires MinInt <= Held(holdings, name) + quantity <= MaxInt
    ensures StockValue(holdings[name := Held(holdings, name) + quantity], prices)
         == StockValue(holdings, prices) + Amount(prices[name], quantity)
  {
    var held := Held(holdings, name);
    StockValueSet(holdings, prices, name, held + quantity);
    AmountAdd(held, quantity, prices[name]);
  }

  /** Taking `quantity` shares of `name` away lowers the stock value by their price. */
  lemma StockValueTake(holdings: map<string, Int32>, prices: map<string, real>, name: string, quantity: Int32)
    requires holdings.Keys <= prices.Keys && name in holdings
    requires MinInt <= holdings[name] - quantity <= MaxInt
    ensures StockValue(holdings[name := holdings[name] - quantity], prices)
         == StockValue(holdings, prices) - Amount(prices[name], quantity)
  {
    StockValueSet(holdings, prices, name, holdings[name] - quantity);
    AmountSub(holdings[name], quantity, prices[name]);
  }

  /**
   * Buying at the market price turns cash into stock of the same worth: the
   * portfolio value is unchanged, as long as the count does not wrap.
   */
  lemma BuyKeepsPortfolioValue(a: Account, prices: map<string, real>, name: string, quantity: Int32)
    requires a.holdings.Keys <= prices.Keys && name in prices
    requires MinInt <= Held(a.holdings, name) + quantity <= MaxInt
    ensures Buy(a, name, prices[name], quantity).holdings.Keys <= prices.Keys
    ensures PortfolioValue(Buy(a, name, prices[name], quantity), prices) == PortfolioValue(a, prices)
  {
    var r := Buy(a, name, prices[name], quantity);
    if r != a {
      StockValueAdd(a.holdings, prices, name, quantity);
    }
  }

  /** Selling at the market price turns stock into cash of the same worth. */
  lemma SellKeepsPortfolioValue(a: Account, prices: map<string, real>, name: string, quantity: Int32)
    requires a.holdings.Keys <= prices.Keys && name in prices
    requires name in a.holdings ==> MinInt <= a.holdings[name] - quantity <= MaxInt
    ensures Sell(a, name, prices[name], quantity).holdings.Keys <= prices.Keys
    ensures PortfolioValue(Sell(a, name, prices[name], quantity), prices) == PortfolioValue(a, prices)
  {
    var r := Sell(a, name, prices[name], quantity);
    if name in a.holdings && a.holdings[name] >= quantity {
      var left := a.holdings[name] - quantity;
      var h := a.holdings[name := left];
      StockValueTake(a.holdings, prices, name, quantity);
      if left == 0 {
        StockValueRemove(h, prices, name);
        assert r.holdings == h - {name};
      } else {
        assert r.holdings == h;
      }
    }
  }

  /**
   * The printed total is twice the cash: it counts no stock, so a buy at the
   * market price lowers it by twice the cost. Bought 2 INFY at 1550.0 from a
   * fresh portfolio, it reads 13800.0 while the portfolio is worth 10000.0.
   */
  lemma PrintedTotalMissesStock()
    ensures var prices := map["INFY" := 1550.0];
      var a := Buy(FreshAccount, "INFY", 1550.0, 2);
      && PrintedTotal(FreshAccount) == 20000.0
      && PrintedTotal(a) == 13800.0
      && PortfolioValue(a, prices) == 10000.0
  {
    var prices := map["INFY" := 1550.0];
    var a := Buy(FreshAccount, "INFY", 1550.0, 2);
    assert a.holdings == map["INFY" := 2];
    SumOverPick(a.holdings.Keys, a.holdings, prices, "INFY");
    assert a.holdings.Keys - {"INFY"} == {};
  }
}
