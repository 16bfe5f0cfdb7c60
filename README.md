# Stock trading platform — a Dafny model

This project models the core of `StockTradingPlatform.java`, a console stock-trading simulator:

- **The market.** Five `Stock` objects are built in `main`. "View Market Data" moves every price by a random delta and floors it at 1. A typed stock name is upper-cased and then looked up.
- **The `Portfolio` object.** It holds the cash balance, starting at 10000.0, and the `ownedStocks` map from name to share count.
  - `buyStock` and `sellStock` change those two fields in place.
  - `viewPortfolio` prices the holdings at the market.
  - Every successful trade rewrites `portfolio.txt`: the balance on the first line, then one `name,quantity` line per holding.
  - The constructor reads that file back.

The files follow the program's structure:

| file | module | what it holds |
|---|---|---|
| `wrappers.dfy` | `Wrappers` | `Option` |
| `java_int.dfy` | `JavaInt` | Java `int`: 32-bit wrap-around, `Integer.toString` and `Integer.parseInt` |
| `java_text.dfy` | `JavaText` | `String.split`, and `BufferedReader.readLine` over the text of a file |
| `ledger.dfy` | `Ledger` | The portfolio as a value (`Account`), with the buy and sell rules as functions |
| `valuation.dfy` | `Valuation` | What `viewPortfolio` adds up and what it prints as the total |
| `storage.dfy` | `Storage` | The file format: what `savePortfolio` writes and what `loadPortfolio` reads, with their round trip |
| `market.dfy` | `Market` | The `Stock` class, the price tick and the case-insensitive lookup |
| `platform.dfy` | `Platform` | The `Portfolio` class, whose methods update its fields and the file in place, and the buy and sell menu commands |

The methods of the `Portfolio` class are proved against the functions of `Ledger` and `Storage`.
`State()` is the class's fields as an `Account` value.

## Model

| member | source | states |
|---|---|---|
| `JavaInt.Wrap` | StockTradingPlatform.java:50 | Java `int` addition: the exact result when it fits, and otherwise the value congruent to it modulo 2^32 |
| `JavaInt.DecimalRoundTrip` | StockTradingPlatform.java:97 | The decimal digits written for a natural number read back as that number |
| `JavaInt.ShowInt` | StockTradingPlatform.java:97 | `Integer.toString`: never empty; digits only for a non-negative number, a minus sign and then digits for a negative one |
| `JavaInt.ParseShowRoundTrip` | StockTradingPlatform.java:114 | `Integer.parseInt(Integer.toString(n)) == n` for every `int`, negative numbers and `MIN_VALUE` included |
| `JavaInt.ParseInt` | StockTradingPlatform.java:114 | Whatever parses is an optional sign followed by at least one digit and nothing else; other text gives `None`, standing for the NumberFormatException. A run of digits parses exactly when its value is at most `Integer.MAX_VALUE`, and then to that value |
| `JavaInt.ShowIntIsPlain` | StockTradingPlatform.java:97 | A written quantity is non-empty and holds no comma and no line break, so it cannot break the line format |
| `JavaText.Split` | StockTradingPlatform.java:113 | `line.split(",")`: no piece holds the separator; a line without one comes back whole, as the single piece; trailing empty pieces are dropped |
| `JavaText.DropTrailingEmpty` | StockTradingPlatform.java:113 | The pieces kept are a prefix of the pieces found and do not end with an empty one; every piece dropped is empty |
| `JavaText.Fields` | StockTradingPlatform.java:113 | Cutting at every separator: at least one field, and no field holds the separator |
| `JavaText.FieldsOfPlain` | StockTradingPlatform.java:113 | Text without the separator is one field |
| `JavaText.FieldsAfterSeparator` | StockTradingPlatform.java:113 | Splitting `a,rest` gives `a` followed by the fields of `rest` |
| `JavaText.SplitPair` | StockTradingPlatform.java:113-114 | A `name,quantity` line splits into exactly the name and the quantity |
| `JavaText.SplitTriple` | StockTradingPlatform.java:113 | A line with two separators splits into exactly its three pieces |
| `JavaText.LineEnd` | StockTradingPlatform.java:112 | The end of the current line is the first `\n` or `\r` at or after the start, or the end of the text |
| `JavaText.ReadLines` | StockTradingPlatform.java:110-112 | The lines `readLine` returns contain no line break |
| `JavaText.JoinLinesSnoc` | StockTradingPlatform.java:95-97 | Writing one more line appends that line and `\n` to what was written before |
| `JavaText.JoinLines` | StockTradingPlatform.java:95-97 | The text written for the lines is empty exactly when there are no lines, and otherwise ends with a line break |
| `JavaText.ReadJoinedLines` | StockTradingPlatform.java:94-112 | Reading back lines that were each written with a trailing `\n` gives exactly those lines |
| `Ledger.Buy` | StockTradingPlatform.java:43-53 | If the cost exceeds the balance, nothing changes. Otherwise the balance drops by the cost, the name joins the keys with its old count (0 if absent) plus the quantity wrapped as an `int`, and every other holding is unchanged |
| `Ledger.Sell` | StockTradingPlatform.java:55-68 | If the name is not held or fewer shares are held, nothing changes. Otherwise the proceeds are credited, the count drops by the quantity, the entry is removed exactly when it reaches 0, and every other holding is unchanged |
| `Ledger.BuyKeepsValid` | StockTradingPlatform.java:43-53 | A buy of a positive quantity keeps the cash non-negative and every count positive, while the count fits in an `int` |
| `Ledger.BuyPastMaxIntWraps` | StockTradingPlatform.java:50 | Buying one share past `Integer.MAX_VALUE` stores `Integer.MIN_VALUE` |
| `Ledger.SellKeepsValid` | StockTradingPlatform.java:55-68 | A sell of a positive quantity at a non-negative price keeps the portfolio valid, and selling every share leaves no entry |
| `Ledger.TradingScenario` | StockTradingPlatform.java:37-68 | From a fresh portfolio: buying 2 INFY at 1550 leaves 6900.0 and `{INFY: 2}`; an unaffordable buy changes nothing; selling both at 1600 leaves 10100.0 and no holdings |
| `Ledger.Amount` | StockTradingPlatform.java:44 | The cost of a buy or the proceeds of a sell: never negative for a non-negative price and quantity, and nothing for no shares |
| `Ledger.Held` | StockTradingPlatform.java:50 | `getOrDefault(name, 0)`: the stored count, or 0 for a name not held |
| `Ledger.FreshAccountValid` | StockTradingPlatform.java:37-39 | The defaults, 10000.0 in cash and no shares, satisfy the invariant that cash is non-negative and every count positive |
| `Valuation.AmountAdd` | StockTradingPlatform.java:50 | When the count does not wrap, the worth of the shares after a buy is their worth before plus the cost of the shares bought |
| `Valuation.AmountSub` | StockTradingPlatform.java:62 | When the count does not wrap, the worth of the shares after a sell is their worth before less the proceeds of the shares sold |
| `Valuation.SumOver` | StockTradingPlatform.java:76-79 | The worth of a set of holdings: nothing for no names, never negative when counts and prices are not |
| `Valuation.StockValue` | StockTradingPlatform.java:75-82 | "Total Stock Value": 0 with nothing held, never negative when counts and prices are not |
| `Valuation.PrintedTotal` | StockTradingPlatform.java:85 | The printed total is twice the cash |
| `Valuation.SumOverPick` | StockTradingPlatform.java:76-79 | The sum over the held names may start from any one of them, so the order the map yields its keys in does not change the total |
| `Valuation.SumOverAgree` | StockTradingPlatform.java:76-79 | The sum depends only on the counts of the names summed over |
| `Valuation.StockValueSet` | StockTradingPlatform.java:76-79 | Setting one holding's count changes the stock value by exactly the change in that holding's worth |
| `Valuation.StockValueRemove` | StockTradingPlatform.java:63-64 | Removing an entry whose count is 0 leaves the stock value unchanged |
| `Valuation.StockValueAdd` | StockTradingPlatform.java:50 | A buy's new count raises the stock value by the cost of the shares at that price |
| `Valuation.StockValueTake` | StockTradingPlatform.java:62 | A sell's new count lowers the stock value by the proceeds at that price |
| `Valuation.BuyKeepsPortfolioValue` | StockTradingPlatform.java:43-53 | Buying at the market price keeps cash plus stock value unchanged (if the count does not wrap) and keeps every held name priced |
| `Valuation.SellKeepsPortfolioValue` | StockTradingPlatform.java:55-68 | Selling at the market price keeps cash plus stock value unchanged (if the count does not wrap, which only a negative quantity can cause) and keeps every held name priced |
| `Valuation.PrintedTotalMissesStock` | StockTradingPlatform.java:85-90 | The printed "Total Portfolio Value" is twice the cash. After buying 2 INFY at 1550 it reads 13800.0, while the portfolio is worth 10000.0 |
| `Storage.EnumeratesSnoc` | StockTradingPlatform.java:96 | Taking one more unseen key extends an enumeration of the keys seen so far |
| `Storage.EnumeratesCovers` | StockTradingPlatform.java:96 | A pass over `keySet()` names exactly the keys |
| `Storage.EntryLine` | StockTradingPlatform.java:97 | A holding's line is its name, a comma, then a non-empty rest, which `Storage.EntryRoundTrip` reads back as the quantity |
| `Storage.Save` | StockTradingPlatform.java:93-98 | The file `savePortfolio` writes opens with the balance line and ends with a line break; `Storage.SaveThenLoad` is its inverse |
| `Storage.EntryLines` | StockTradingPlatform.java:96-97 | One written line per key taken |
| `Storage.SaveStart` | StockTradingPlatform.java:95 | The file starts as the balance line alone |
| `Storage.SaveStep` | StockTradingPlatform.java:97 | Each key taken appends its `name,quantity` line to the file |
| `Storage.Write` | StockTradingPlatform.java:94-98 | The writer loop visits every key exactly once, in the order it returns, and writes exactly the file `Save` describes for that order |
| `Storage.ParseEntry` | StockTradingPlatform.java:113-114 | A line without a comma yields `None`, standing for the ArrayIndexOutOfBoundsException; a parsed line yields a name without a comma |
| `Storage.PutEntries` | StockTradingPlatform.java:112-114 | With no lines, the map is unchanged; a successful read of the lines only adds or overwrites keys, never removes one |
| `Storage.Load` | StockTradingPlatform.java:105-119 | An empty file fails to load; a load that succeeds takes its balance from the first line and keeps every key of the map it started from |
| `Storage.PutEntriesNext` | StockTradingPlatform.java:112-114 | Reading one more line `put`s its entry over the map so far, or fails the load |
| `Storage.PutEntriesFailureStays` | StockTradingPlatform.java:112-114 | Once a line has failed, the lines after it cannot rescue the load |
| `Storage.BadLineFailsLoad` | StockTradingPlatform.java:112-114 | A holding line without a comma or with a non-`int` quantity fails the whole load |
| `Storage.EntryRoundTrip` | StockTradingPlatform.java:113-114 | A written `name,quantity` line reads back as that name and quantity when the name has no comma or line break |
| `Storage.ListedSnoc` | StockTradingPlatform.java:114 | Putting the entries of the keys in order adds one entry per key, a later key winning |
| `Storage.ListedAll` | StockTradingPlatform.java:114 | Putting the entry of every key into an empty map rebuilds the holdings |
| `Storage.PutSavedEntries` | StockTradingPlatform.java:112-114 | Reading the written holding lines puts exactly the written entries |
| `Storage.SavedLinesArePlain` | StockTradingPlatform.java:95-97 | No written line contains a line break, given a one-line balance text and names without line breaks |
| `Storage.EntryLineAt` | StockTradingPlatform.java:97 | The i-th holding line is the line of the i-th key taken |
| `Storage.SaveThenLoad` | StockTradingPlatform.java:93-119 | Loading the file that saving wrote, into the constructor's empty map, gives back the same balance and holdings, whatever order the keys were written in, when no held name contains a comma or line break and the balance text reads back as the balance |
| `Storage.SaveThenLoadExample` | StockTradingPlatform.java:93-119 | The round trip for a portfolio holding 2 INFY with 6900.0 in cash, under a balance text that reads back as written |
| `Storage.CommaNameFailsLoad` | StockTradingPlatform.java:97-114 | The premise on names is needed: a held name `x,y` is written as `x,y,quantity`, whose second piece `y` is read as the quantity, so when `y` is not an `int` the saved file does not load |
| `Storage.CommaNameExample` | StockTradingPlatform.java:114 | A name such as `A,B` meets that premise: `B` is not an `int` |
| `Market.Stock.constructor` | StockTradingPlatform.java:9-12 | A stock starts with its name and price |
| `Market.Stock.UpdatePrice` | StockTradingPlatform.java:22-24 | The price becomes the new price |
| `Market.Ticked` | StockTradingPlatform.java:153-154 | `Math.max(price + delta, 1)`: at least 1 and at least the moved price, and equal to one of the two |
| `Market.Tick` | StockTradingPlatform.java:151-156 | For a well-formed market whose keys hold distinct stocks, as `main`'s is, every stock gets its ticked price, and every price afterwards is at least 1; the market's prices (`Prices`, what `viewPortfolio` reads) are the old prices ticked |
| `Market.InitialMarket` | StockTradingPlatform.java:127-132 | Five distinct fresh stocks, each under its own name: TCS 3500, INFY 1550, RELIANCE 2600, WIPRO 450, HDFC 1700 |
| `Market.UpperChar` | StockTradingPlatform.java:161 | No result is a lower-case letter; a lower-case ASCII letter becomes the upper-case letter at the same place in the alphabet; every other character stays |
| `Market.Upper` | StockTradingPlatform.java:161 | `toUpperCase`: the same length, character by character, and no lower-case letter is left |
| `Market.UpperTwice` | StockTradingPlatform.java:161 | Upper-casing twice is upper-casing once |
| `Market.Find` | StockTradingPlatform.java:161-162 | A typed name selects a stock exactly when its upper-cased form is a market key, and then selects that key's stock; in a well-formed market the stock's own name is the upper-cased name typed |
| `Market.FindIgnoresCase` | StockTradingPlatform.java:161-162 | A name typed in any mix of cases selects the same stock as its upper-cased form |
| `Platform.PortfolioFile.constructor` | StockTradingPlatform.java:106-107 | The file holds the given text, or does not exist |
| `Platform.Portfolio.constructor` | StockTradingPlatform.java:37-39 | A new portfolio holds 10000.0 in cash and no shares |
| `Platform.Portfolio.Open` | StockTradingPlatform.java:37-41 | With no file, the defaults. With a file, the portfolio exactly when the text loads, holding what it loads to. The file is untouched |
| `Platform.Portfolio.LoadPortfolio` | StockTradingPlatform.java:105-119 | The balance and holdings become what `Load` makes of the file over the current map; the load succeeds exactly when `Load` does |
| `Platform.Portfolio.SavePortfolio` | StockTradingPlatform.java:93-102 | The file becomes `Save` of the state for some order of the keys, and it loads back to the same state when no held name contains a comma or line break and the balance text reads back as the balance |
| `Platform.Portfolio.BuyStock` | StockTradingPlatform.java:43-53 | The new state is `Buy` of the old one; the buy succeeds exactly when the cost does not exceed the old balance; the file is rewritten only then |
| `Platform.Portfolio.SellStock` | StockTradingPlatform.java:55-68 | The new state is `Sell` of the old one; the sell succeeds exactly when enough shares are held; the file is rewritten only then |
| `Platform.Portfolio.TotalValue` | StockTradingPlatform.java:88-90 | `totalValue()` is the cash balance, with no stock counted |
| `Platform.Portfolio.ViewPortfolio` | StockTradingPlatform.java:70-90 | One value per holding, its count times its market price. The stock value is the sum over all holdings, shown only when something is held. The cash is the balance, and the printed total is `totalValue() + balance`, twice the balance |
| `Platform.BuyCommand` | StockTradingPlatform.java:159-169 | An unknown name changes nothing. A known one is bought, and the outcome is done exactly when the balance covers the cost. The file is untouched unless the outcome is done, and then it holds `Save` of the new state in an order that enumerates the held names. With a well-formed market, every held name stays a market name |
| `Platform.SellCommand` | StockTradingPlatform.java:171-181 | An unknown name changes nothing. A known one is sold, and the outcome is done exactly when enough shares are held. The file is untouched unless the outcome is done, and then it holds `Save` of the new state in an order that enumerates the held names. Every held name stays a market name |

## Left out

- Console input and output are not modelled: the menu loop, the `Scanner`, the messages, `%.2f` formatting and `Stock.toString`. The menu commands take the typed name and quantity as parameters.
- Money is `real`, so the model has no `double` rounding. `Double.toString` and `Double.parseDouble` for the balance line are a `BalanceCodec` parameter. The round trip assumes the codec writes the saved balance as one line that reads back as that balance (`Faithful`), as `Double.parseDouble(Double.toString(b))` does for every finite `double`.
- `Random` is not modelled. The price deltas of a tick are a parameter, keyed by stock name.
- The order in which a `HashMap` yields its keys is not modelled. It appears as a ghost `order` that covers each key exactly once.
- File I/O errors are not modelled, and nor are the `IOException` handlers that print them. The file is its text, or `None` when it does not exist.
- A malformed file, whether a line without a comma, a bad number or an empty file, makes `loadPortfolio` throw out of the constructor. `Portfolio.Open` models this as `None`, so no partially loaded portfolio comes out. This follows the code rather than a reading in which the partial state is kept.
- `Market.UpperChar` covers ASCII letters only. `String.toUpperCase` also maps other Unicode letters, and that mapping is not modelled.
- `Market.Upper` ignores the default locale that `toUpperCase()` depends on. In a Turkish locale, "infy" becomes "İNFY", which the program does not find but the model does.
- `Market.Upper` keeps the length of the text. `toUpperCase()` can lengthen it ("ß" becomes "SS"), so "the same length" holds of the model only.
- `JavaInt.ParseInt` accepts ASCII digits only. `Integer.parseInt` also accepts other Unicode decimal digits, which are not modelled.
- `Platform.Portfolio.TotalValue` is the balance. Its effect on the printed total is stated by `Platform.Portfolio.ViewPortfolio` and by `Valuation.PrintedTotalMissesStock`.
- `Platform.Portfolio.ViewPortfolio` requires every held name to be a market key. The program dereferences `market.get(name)` and would throw otherwise. `Platform.BuyCommand` and `Platform.SellCommand` show that trades keep this true, but a file listing an unknown name can break it.
- `Ledger.BuyKeepsValid` and `Valuation.BuyKeepsPortfolioValue` assume the new count fits in an `int`. `Ledger.BuyPastMaxIntWraps` shows what happens when it does not.
- `Storage.SaveThenLoad` and `Platform.Portfolio.SavePortfolio` promise the round trip only when no held name contains a comma or a line break and the balance text reads back as the balance. `Storage.CommaNameFailsLoad` shows that the round trip fails for a name with a comma.
- `Valuation.SellKeepsPortfolioValue` assumes the count after the sell fits in an `int`. Only a negative quantity can break that, since a sell of more shares than are held is refused.

## Findings

| source | as written | input that shows it | evidently intended | confidence | as-written member | corrected member |
|---|---|---|---|---|---|---|
| StockTradingPlatform.java:85-90 | "Total Portfolio Value" prints `totalValue() + balance`, and `totalValue()` returns the balance, so the total is twice the cash and counts no stock | Fresh portfolio, buy 2 INFY at 1550: prints 13800.00, while cash 6900 plus stock 3100 is 10000 | Cash plus the stock value at market prices, which a trade at the market price leaves unchanged | not executed | `Valuation.PrintedTotalMissesStock` | `Valuation.BuyKeepsPortfolioValue` |
