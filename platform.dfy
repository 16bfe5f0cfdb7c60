/**
 * The `Portfolio` object of the program and the buy and sell commands of its
 * menu: the balance and the `ownedStocks` map change in place, and every
 * successful trade rewrites the portfolio file.
 */
module Platform {
  import opened Wrappers
  import opened JavaInt
  import opened JavaText
  import opened Ledger
  import opened Valuation
  import opened Storage
  import opened Market

  /** The file `portfolio.txt`; `None` when it does not exist. */
  class PortfolioFile {
    var contents: Option<string>

    constructor (contents: Option<string>)
      ensures this.contents == contents
    {
      this.contents := contents;
    }
  }

  /** What "View Portfolio" shows. */
  datatype Summary = Summary(
    values: map<string, real>,   // one line per holding: its shares priced at the market
    stockValue: Option<real>,    // "Total Stock Value", shown only when something is owned
    cash: real,                  // "Cash Balance"
    printedTotal: real)          // "Total Portfolio Value", as printed

  class Portfolio {
    var ownedStocks: map<string, Int32>
    var balance: real
    const file: PortfolioFile
    const codec: BalanceCodec

    function State(): Account
      reads this
    {
      Account(balance, ownedStocks)
    }

    /** The field initialisers of the constructor, before the saved file is read. */
    constructor (file: PortfolioFile, codec: BalanceCodec)
      ensures State() == FreshAccount
      ensures this.file == file && this.codec == codec
    {
      ownedStocks := map[];
      balance := 10000.0;
      this.file := file;
      this.codec := codec;
    }

    /**
     * `new Portfolio()`: the defaults, then the saved file if there is one. A
     * file that fails to parse throws out of the constructor; that is `None`.
     */
    static method Open(file: PortfolioFile, codec: BalanceCodec) returns (r: Option<Portfolio>)
      ensures file.contents.None? ==> r.Some? && r.value.State() == FreshAccount
      ensures file.contents.Some? ==>
        && (r.Some? <==> Load(file.contents.value, codec, map[]).Some?)
        && (r.Some? ==> Some(r.value.State()) == Load(file.contents.value, codec, map[]))
      ensures r.Some? ==> fresh(r.value) && r.value.file == file && r.value.codec == codec
      ensures file.contents == old(file.contents)
    {
      var p := new Portfolio(file, codec);
      var loaded := p.LoadPortfolio();
      r := if loaded then Some(p) else None;
    }

    /** `loadPortfolio`: read the balance line, then `put` one entry per further line. */
    method LoadPortfolio() returns (loaded: bool)
      modifies this
      ensures file.contents.None? ==> loaded && State() == old(State())
      ensures file.contents.Some? ==>
        && (loaded <==> Load(file.contents.value, codec, old(ownedStocks)).Some?)
        && (loaded ==> Some(State()) == Load(file.contents.value, codec, old(ownedStocks)))
    {
      if file.contents.None? {
        return true;
      }
      var lines := ReadLines(file.contents.value);
      if |lines| == 0 {
        return false;
      }
      var parsed := codec.read(lines[0]);
      if parsed.None? {
        return false;
      }
      balance := parsed.value;
      var entries := lines[1..];
      var j := 0;
      while j < |entries|
        invariant 0 <= j <= |entries|
        invariant balance == parsed.value
        invariant PutEntries(old(ownedStocks), entries[..j]) == Some(ownedStocks)
      {
        var parts := Split(entries[j], ',');
        PutEntriesNext(old(ownedStocks), entries, j);
        if |parts| < 2 {
          PutEntriesFailureStays(old(ownedStocks), entries, j + 1);
          return false;
        }
        var quantity := ParseInt(parts[1]);
        if quantity.None? {
          PutEntriesFailureStays(old(ownedStocks), entries, j + 1);
          return false;
        }
        ownedStocks := ownedStocks[parts[0] := quantity.value];
        j := j + 1;
      }
      assert entries[..j] == entries;
      loaded := true;
    }

    /**
     * `savePortfolio`: the balance line, then one line per key in the order the
     * map yields them (`order`), replacing the file.
     */
    method SavePortfolio() returns (ghost order: seq<string>)
      modifies file
      ensures Enumerates(order, ownedStocks.Keys)
      ensures forall i :: 0 <= i < |order| ==> order[i] in ownedStocks
      ensures file.contents == Some(Save(State(), order, codec))
      ensures Faithful(codec, balance) && PlainNames(State()) ==>
        Load(file.contents.value, codec, map[]) == Some(State())
    {
      var text, written := Write(State(), codec);
      order := written;
      file.contents := Some(text);
      if Faithful(codec, balance) && PlainNames(State()) {
        EnumeratesCovers(order, ownedStocks.Keys);
        SaveThenLoad(State(), order, codec);
      }
    }

    /** `buyStock`: pay for `quantity` shares at the stock's price if the balance covers it, then save. */
    method BuyStock(stock: Stock, quantity: Int32) returns (bought: bool, ghost order: seq<string>)
      modifies this, file
      ensures State() == Buy(old(State()), stock.name, stock.price, quantity)
      ensures bought <==> !(Amount(stock.price, quantity) > old(balance))
      ensures bought ==>
        && Enumerates(order, ownedStocks.Keys)
        && (forall i :: 0 <= i < |order| ==> order[i] in ownedStocks)
        && file.contents == Some(Save(State(), order, codec))
      ensures !bought ==> file.contents == old(file.contents)
    {
      var totalCost := Amount(stock.price, quantity);
      if totalCost > balance {
        return false, [];
      }
      var held := Held(ownedStocks, stock.name);
      ghost var after := Account(balance - totalCost, ownedStocks[stock.name := Wrap(held + quantity)]);
      assert after == Buy(State(), stock.name, stock.price, quantity);
      balance := balance - totalCost;
      ownedStocks := ownedStocks[stock.name := Wrap(held + quantity)];
      bought := true;
      assert State() == after;
      order := SavePortfolio();
    }

    /** `sellStock`: take `quantity` shares off the holding if there are enough, credit the proceeds, then save. */
    method SellStock(stock: Stock, quantity: Int32) returns (sold: bool, ghost order: seq<string>)
      modifies this, file
      ensures State() == Sell(old(State()), stock.name, stock.price, quantity)
      ensures sold <==> stock.name in old(ownedStocks) && old(ownedStocks)[stock.name] >= quantity
      ensures sold ==>
        && Enumerates(order, ownedStocks.Keys)
        && (forall i :: 0 <= i < |order| ==> order[i] in ownedStocks)
        && file.contents == Some(Save(State(), order, codec))
      ensures !sold ==> file.contents == old(file.contents)
    {
      if stock.name !in ownedStocks || ownedStocks[stock.name] < quantity {
        return false, [];
      }
      ghost var after := Sell(State(), stock.name, stock.price, quantity);
      var totalGain := Amount(stock.price, quantity);
      balance := balance + totalGain;
      ownedStocks := ownedStocks[stock.name := Wrap(ownedStocks[stock.name] - quantity)];
      if ownedStocks[stock.name] == 0 {
        ownedStocks := ownedStocks - {stock.name};
      }
      sold := true;
      assert State() == after;
      order := SavePortfolio();
    }

    /** `totalValue()`: despite its name, the cash balance, with no stock counted. */
    function TotalValue(): (r: real)
      reads this
      ensures r == State().balance
    {
      balance
    }

    /**
     * `viewPortfolio`: price each holding at the market's current price and add
     * them up. Every held name must be in the market (`market.get(name)` is
     * dereferenced).
     */
    method ViewPortfolio(market: map<string, Stock>) returns (summary: Summary)
      requires ownedStocks.Keys <= market.Keys
      ensures summary.values.Keys == ownedStocks.Keys
      ensures forall n :: n in summary.values ==> summary.values[n] == Amount(market[n].price, ownedStocks[n])
      ensures summary.stockValue ==
        if ownedStocks == map[] then None else Some(StockValue(ownedStocks, Prices(market)))
      ensures summary.cash == balance
      ensures summary.printedTotal == PrintedTotal(State()) == 2.0 * balance
    {
      var values: map<string, real> := map[];
      var stockValue: Option<real> := None;
      if ownedStocks != map[] {
        ghost var prices := Prices(market);
        var totalValue := 0.0;
        var rest := ownedStocks.Keys;
        while rest != {}
          invariant rest <= ownedStocks.Keys
          invariant values.Keys == ownedStocks.Keys - rest
          invariant forall n :: n in values ==> values[n] == Amount(prices[n], ownedStocks[n])
          invariant totalValue + SumOver(rest, ownedStocks, prices) == StockValue(ownedStocks, prices)
          decreases rest
        {
          var name :| name in rest;
          var qty := ownedStocks[name];
          var value := Amount(market[name].price, qty);
          SumOverPick(rest, ownedStocks, prices, name);
          totalValue := totalValue + value;
          values := values[name := value];
          rest := rest - {name};
        }
        stockValue := Some(totalValue);
      }
      summary := Summary(values, stockValue, balance, TotalValue() + balance);
    }
  }

  /** The outcome of a buy or sell command. */
  datatype Outcome = StockNotFound | Refused | Done

  /**
   * Menu choice 2: look the typed name up in upper case; an unknown name changes
   * nothing, a known one is bought. With a well-formed market, every held name
   * stays a market name, which "View Portfolio" needs.
   */
  method BuyCommand(portfolio: Portfolio, market: map<string, Stock>, typed: string, quantity: Int32)
    returns (outcome: Outcome, ghost order: seq<string>)
    modifies portfolio, portfolio.file
    ensures Find(market, typed).None? ==>
      outcome == StockNotFound && portfolio.State() == old(portfolio.State())
      && portfolio.file.contents == old(portfolio.file.contents)
    ensures Find(market, typed).Some? ==>
      var stock := Find(market, typed).value;
      && portfolio.State() == Buy(old(portfolio.State()), stock.name, stock.price, quantity)
      && (outcome == Done <==> !(Amount(stock.price, quantity) > old(portfolio.balance)))
      && outcome != StockNotFound
    ensures WellFormed(market) && old(portfolio.ownedStocks.Keys) <= market.Keys ==>
      portfolio.ownedStocks.Keys <= market.Keys
    ensures outcome != Done ==> portfolio.file.contents == old(portfolio.file.contents)
    ensures outcome == Done ==>
      && Enumerates(order, portfolio.ownedStocks.Keys)
      && (forall i :: 0 <= i < |order| ==> order[i] in portfolio.ownedStocks)
      && portfolio.file.contents == Some(Save(portfolio.State(), order, portfolio.codec))
  {
    var found := Find(market, typed);
    if found.None? {
      return StockNotFound, [];
    }
    var bought;
    bought, order := portfolio.BuyStock(found.value, quantity);
    outcome := if bought then Done else Refused;
  }

  /** Menu choice 3: the same lookup, then a sell. */
  method SellCommand(portfolio: Portfolio, market: map<string, Stock>, typed: string, quantity: Int32)
    returns (outcome: Outcome, ghost order: seq<string>)
    modifies portfolio, portfolio.file
    ensures Find(market, typed).None? ==>
      outcome == StockNotFound && portfolio.State() == old(portfolio.State())
      && portfolio.file.contents == old(portfolio.file.contents)
    ensures Find(market, typed).Some? ==>
      var stock := Find(market, typed).value;
      && portfolio.State() == Sell(old(portfolio.State()), stock.name, stock.price, quantity)
      && (outcome == Done <==> stock.name in old(portfolio.ownedStocks) && old(portfolio.ownedStocks)[stock.name] >= quantity)
      && outcome != StockNotFound
    ensures old(portfolio.ownedStocks.Keys) <= market.Keys ==> portfolio.ownedStocks.Keys <= market.Keys
    ensures outcome != Done ==> portfolio.file.contents == old(portfolio.file.contents)
    ensures outcome == Done ==>
      && Enumerates(order, portfolio.ownedStocks.Keys)
      && (forall i :: 0 <= i < |order| ==> order[i] in portfolio.ownedStocks)
      && portfolio.file.contents == Some(Save(portfolio.State(), order, portfolio.codec))
  {
    var found := Find(market, typed);
    if found.None? {
      return StockNotFound, [];
    }
    var sold;
    sold, order := portfolio.SellStock(found.value, quantity);
    outcome := if sold then Done else Refused;
  }
}
