/**
 * The market built in `main`: a fixed map from name to `Stock` object, whose
 * prices the "View Market Data" command moves in place, and the upper-casing
 * lookup the buy and sell commands use.
 */
module Market {
  import opened Wrappers

  /** A stock: a name that never changes and a price that does. */
  class Stock {
    const name: string
    var price: real

    constructor (name: string, price: real)
      ensures this.name == name && this.price == price
    {
      this.name := name;
      this.price := price;
    }

    method UpdatePrice(newPrice: real)
      modifies this
      ensures price == newPrice
    {
      price := newPrice;
    }
  }

  /** The current price of every stock, by name. */
  function Prices(market: map<string, Stock>): (prices: map<string, real>)
    reads market.Values
    ensures prices.Keys == market.Keys
    ensures forall k :: k in market ==> prices[k] == market[k].price
  {
    map k | k in market :: market[k].price
  }

  /** Every stock is filed under its own name. */
  predicate WellFormed(market: map<string, Stock>) {
    forall k :: k in market ==> market[k].name == k
  }

  /** `Math.max(price + delta, 1)`: the moved price, floored at 1. */
  function Ticked(price: real, delta: real): (r: real)
    ensures r >= 1.0 && r >= price + delta
    ensures r == price + delta || r == 1.0
  {
    if price + delta >= 1.0 then price + delta else 1.0
  }

  /**
   * One "View Market Data" tick: every stock's price moves by its delta (drawn
   * by `random.nextDouble() * 100 - 50` in the program, a parameter here, keyed
   * by the stock's name) and is floored at 1.
   */
  method Tick(market: map<string, Stock>, deltas: map<string, real>)
    requires forall s :: s in market.Values ==> s.name in deltas
    requires WellFormed(market)
    requires forall j, k :: j in market && k in market && j != k ==> market[j] != market[k]
    modifies market.Values
    ensures forall s :: s in market.Values ==> s.price == Ticked(old(s.price), deltas[s.name])
    ensures forall s :: s in market.Values ==> s.price >= 1.0
    ensures forall k :: k in market ==> Prices(market)[k] == Ticked(old(Prices(market))[k], deltas[market[k].name])
  {
    var rest := market.Values;
    while rest != {}
      invariant rest <= market.Values
      invariant forall s :: s in market.Values && s !in rest ==> s.price == Ticked(old(s.price), deltas[s.name])
      invariant forall s :: s in rest ==> s.price == old(s.price)
      decreases rest
    {
      var s :| s in rest;
      s.UpdatePrice(Ticked(s.price, deltas[s.name]));
      rest := rest - {s};
    }
  }

  /** The five stocks `main` starts with. */
  method InitialMarket() returns (market: map<string, Stock>)
    ensures market.Keys == {"TCS", "INFY", "RELIANCE", "WIPRO", "HDFC"}
    ensures WellFormed(market)
    ensures forall k :: k in market ==> fresh(market[k])
    ensures forall j, k :: j in market && k in market && j != k ==> market[j] != market[k]
    ensures market["TCS"].price == 3500.0 && market["INFY"].price == 1550.0
    ensures market["RELIANCE"].price == 2600.0 && market["WIPRO"].price == 450.0
    ensures market["HDFC"].price == 1700.0
  {
    var tcs := new Stock("TCS", 3500.0);
    var infy := new Stock("INFY", 1550.0);
    var reliance := new Stock("RELIANCE", 2600.0);
    var wipro := new Stock("WIPRO", 450.0);
    var hdfc := new Stock("HDFC", 1700.0);
    market := map["TCS" := tcs, "INFY" := infy, "RELIANCE" := reliance, "WIPRO" := wipro, "HDFC" := hdfc];
  }

  /**
   * `Character.toUpperCase` on the ASCII letters: a lower-case letter becomes the
   * upper-case letter at the same place in the alphabet, and nothing upper-cased
   * is a lower-case letter.
   */
  function UpperChar(c: char): (u: char)
    ensures !('a' <= u <= 'z')
    ensures 'a' <= c <= 'z' ==> 'A' <= u <= 'Z' && u as int - 'A' as int == c as int - 'a' as int
    ensures !('a' <= c <= 'z') ==> u == c
  {
    if 'a' <= c <= 'z' then (c as int - 32) as char else c
  }

  /** `String.toUpperCase`, letter by letter: no lower-case letter is left. */
  function Upper(s: string): (u: string)
    ensures |u| == |s|
    ensures forall i :: 0 <= i < |s| ==> u[i] == UpperChar(s[i])
    ensures forall i :: 0 <= i < |u| ==> !('a' <= u[i] <= 'z')
  {
    seq(|s|, i requires 0 <= i < |s| => UpperChar(s[i]))
  }

  /** Upper-casing twice is upper-casing once. */
  lemma UpperTwice(s: string)
    ensures Upper(Upper(s)) == Upper(s)
  {
    var u := Upper(s);
    forall i | 0 <= i < |u|
      ensures Upper(u)[i] == u[i]
    {
      assert !('a' <= u[i] <= 'z');
    }
  }

  /** The stock a typed name selects: the name upper-cased, then looked up exactly. */
  function Find(market: map<string, Stock>, typed: string): (r: Option<Stock>)
    ensures r.Some? <==> Upper(typed) in market
    ensures r.Some? ==> r.value == market[Upper(typed)]
    ensures WellFormed(market) && r.Some? ==> r.value.name == Upper(typed)
  {
    var key := Upper(typed);
    if key in market then Some(market[key]) else None
  }

  /** Typing a name in any mix of cases selects the same stock. */
  lemma FindIgnoresCase(market: map<string, Stock>, typed: string)
    ensures Find(market, typed) == Find(market, Upper(typed))
  {
    UpperTwice(typed);
  }
}
