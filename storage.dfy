/**
 * The file `portfolio.txt`: the balance on the first line, then one
 * `name,quantity` line per holding in the map's iteration order; and the
 * reading of that file back into an account.
 */
module Storage {
  import opened Wrappers
  import opened JavaInt
  import opened JavaText
  import opened Ledger

  /** `Double.toString` for writing the balance and `Double.parseDouble` for reading it back. */
  datatype BalanceCodec = BalanceCodec(show: real -> string, read: string -> Option<real>)

  /**
   * The text written for the balance `b` is one line and reads back as `b`, as
   * `Double.parseDouble(Double.toString(b))` does for every finite `double`.
   */
  ghost predicate Faithful(codec: BalanceCodec, b: real) {
    codec.read(codec.show(b)) == Some(b) && NoBreaks(codec.show(b))
  }

  /** A stock name the format can carry: no comma, no line break. */
  predicate PlainName(name: string) {
    ',' !in name && NoBreaks(name)
  }

  ghost predicate PlainNames(a: Account) {
    forall n :: n in a.holdings ==> PlainName(n)
  }

  /** `order` lists each key exactly once and nothing else: one pass over `keySet()`. */
  ghost predicate Enumerates(order: seq<string>, keys: set<string>) {
    multiset(order) == multiset(keys)
  }

  lemma EnumeratesSnoc(order: seq<string>, keys: set<string>, name: string)
    requires Enumerates(order, keys) && name !in keys
    ensures Enumerates(order + [name], keys + {name})
  {
    assert multiset(order + [name]) == multiset(order) + multiset{name};
    assert multiset(keys + {name}) == multiset(keys) + multiset{name};
  }

  /** An enumeration names exactly the keys. */
  lemma EnumeratesCovers(order: seq<string>, keys: set<string>)
    requires Enumerates(order, keys)
    ensures forall n :: n in order <==> n in keys
  {
    forall n ensures n in order <==> n in keys {
      assert n in order <==> n in multiset(order);
      assert n in keys <==> n in multiset(keys);
    }
  }

  /** One holding's line, `name + "," + quantity`: the name, a comma, then a non-empty number. */
  function EntryLine(name: string, quantity: Int32): (line: string)
    ensures |line| > |name| + 1
    ensures line[..|name|] == name && line[|name|] == ','
  {
    name + "," + ShowInt(quantity)
  }

  function EntryLines(holdings: map<string, Int32>, order: seq<string>): (lines: seq<string>)
    requires forall i :: 0 <= i < |order| ==> order[i] in holdings
    ensures |lines| == |order|
    decreases |order|
  {
    if order == [] then []
    else
      var last := order[|order| - 1];
      EntryLines(holdings, order[..|order| - 1]) + [EntryLine(last, holdings[last])]
  }

  /** The lines `savePortfolio` writes when the map yields its keys in `order`. */
  function SaveLines(a: Account, order: seq<string>, codec: BalanceCodec): seq<string>
    requires forall i :: 0 <= i < |order| ==> order[i] in a.holdings
  {
    [codec.show(a.balance)] + EntryLines(a.holdings, order)
  }

  /** The whole file `savePortfolio` writes: it opens with the balance line and ends with a line break. */
  function Save(a: Account, order: seq<string>, codec: BalanceCodec): (t: string)
    requires forall i :: 0 <= i < |order| ==> order[i] in a.holdings
    ensures |t| > |codec.show(a.balance)| && t[..|codec.show(a.balance)| + 1] == codec.show(a.balance) + "\n"
    ensures t[|t| - 1] == '\n'
  {
    var lines := SaveLines(a, order, codec);
    assert JoinLines(lines) == lines[0] + "\n" + JoinLines(lines[1..]);
    JoinLines(lines)
  }

  /** Before any holding line, the file is the balance line alone. */
  lemma SaveStart(a: Account, codec: BalanceCodec)
    ensures Save(a, [], codec) == codec.show(a.balance) + "\n"
  {
    var lines := [codec.show(a.balance)];
    assert SaveLines(a, [], codec) == lines;
    assert lines[1..] == [];
    assert JoinLines(lines) == lines[0] + "\n" + JoinLines([]);
  }

  /** Writing one more key appends its `name,quantity` line to the file. */
  lemma SaveStep(a: Account, order: seq<string>, name: string, codec: BalanceCodec)
    requires forall i :: 0 <= i < |order| ==> order[i] in a.holdings
    requires name in a.holdings
    ensures forall i :: 0 <= i < |order + [name]| ==> (order + [name])[i] in a.holdings
    ensures Save(a, order + [name], codec) == Save(a, order, codec) + EntryLine(name, a.holdings[name]) + "\n"
  {
    assert (order + [name])[..|order|] == order;
    var lines := SaveLines(a, order, codec);
    assert SaveLines(a, order + [name], codec) == lines + [EntryLine(name, a.holdings[name])];
    JoinLinesSnoc(lines, EntryLine(name, a.holdings[name]));
  }

  /**
   * The writer loop of `savePortfolio`: the balance line, then one line per key
   * of the holdings, taken in whatever order the map yields them (`order`).
   */
  method Write(a: Account, codec: BalanceCodec) returns (text: string, order: seq<string>)
    ensures Enumerates(order, a.holdings.Keys)
    ensures forall i :: 0 <= i < |order| ==> order[i] in a.holdings
    ensures text == Save(a, order, codec)
  {
    text := codec.show(a.balance) + "\n";
    order := [];
    ghost var done: set<string> := {};
    var rest := a.holdings.Keys;
    SaveStart(a, codec);
    while rest != {}
      invariant done !! rest && done + rest == a.holdings.Keys
      invariant forall i :: 0 <= i < |order| ==> order[i] in a.holdings
      invariant Enumerates(order, done)
      invariant text == Save(a, order, codec)
      decreases rest
    {
      var name :| name in rest;
      var line := EntryLine(name, a.holdings[name]);
      SaveStep(a, order, name, codec);
      EnumeratesSnoc(order, done, name);
      text := text + line + "\n";
      order := order + [name];
      done := done + {name};
      rest := rest - {name};
    }
  }

  /**
   * One holding line read back: `line.split(",")` must give at least two parts
   * (else ArrayIndexOutOfBoundsException) and the second must parse as an `int`
   * (else NumberFormatException); parts after the second are ignored.
   */
  function ParseEntry(line: string): (r: Option<(string, Int32)>)
    ensures r.Some? ==> ',' !in r.value.0
    ensures ',' !in line ==> r.None?
  {
    var parts := Split(line, ',');
    if |parts| < 2 then None
    else match ParseInt(parts[1])
      case None => None
      case Some(q) => Some((parts[0], q))
  }

  /** `ownedStocks.put` of each line's entry in turn, a later line overriding an earlier one. */
  function PutEntries(into: map<string, Int32>, lines: seq<string>): (r: Option<map<string, Int32>>)
    ensures lines == [] ==> r == Some(into)
    ensures r.Some? ==> into.Keys <= r.value.Keys
    decreases |lines|
  {
    if lines == [] then Some(into)
    else match PutEntries(into, lines[..|lines| - 1])
      case None => None
      case Some(m) =>
        match ParseEntry(lines[|lines| - 1])
        case None => None
        case Some(entry) => Some(m[entry.0 := entry.1])
  }

  /**
   * What `loadPortfolio` makes of the file's text, starting from the holdings
   * `into`: the first line is the balance (an empty file has none, and
   * `parseDouble(null)` throws); the rest are holding lines. `None` stands for
   * the exception that escapes.
   */
  function Load(text: string, codec: BalanceCodec, into: map<string, Int32>): (r: Option<Account>)
    ensures ReadLines(text) == [] ==> r.None?
    ensures r.Some? ==> codec.read(ReadLines(text)[0]) == Some(r.value.balance)
    ensures r.Some? ==> into.Keys <= r.value.holdings.Keys
  {
    var lines := ReadLines(text);
    if lines == [] then None
    else match codec.read(lines[0])
      case None => None
      case Some(b) =>
        match PutEntries(into, lines[1..])
        case None => None
        case Some(h) => Some(Account(b, h))
  }

  /** One more line: its entry is put into what the lines before it gave. */
  lemma PutEntriesNext(into: map<string, Int32>, lines: seq<string>, k: nat)
    requires k < |lines|
    ensures PutEntries(into, lines[..k + 1]) ==
      match PutEntries(into, lines[..k])
      case None => None
      case Some(m) =>
        match ParseEntry(lines[k])
        case None => None
        case Some(entry) => Some(m[entry.0 := entry.1])
  {
    assert lines[..k + 1][..k] == lines[..k];
    assert lines[..k + 1][k] == lines[k];
  }

  /** Once a line fails to parse, the lines after it cannot rescue the load. */
  lemma {:induction false} PutEntriesFailureStays(into: map<string, Int32>, lines: seq<string>, k: nat)
    requires k <= |lines| && PutEntries(into, lines[..k]).None?
    ensures PutEntries(into, lines).None?
    decreases |lines| - k
  {
    if k < |lines| {
      assert lines[..k + 1][..k] == lines[..k];
      PutEntriesFailureStays(into, lines, k + 1);
    } else {
      assert lines[..k] == lines;
    }
  }

  /**
   * A holding line without a comma, or whose quantity is not an `int`, makes
   * the whole load fail, whatever the lines around it hold.
   */
  lemma BadLineFailsLoad(text: string, codec: BalanceCodec, into: map<string, Int32>, k: nat)
    requires 1 <= k < |ReadLines(text)|
    requires ParseEntry(ReadLines(text)[k]).None?
    ensures Load(text, codec, into).None?
  {
    var entries := ReadLines(text)[1..];
    PutEntriesNext(into, entries, k - 1);
    PutEntriesFailureStays(into, entries, k);
  }

  /** A written holding line reads back as the same name and quantity. */
  lemma EntryRoundTrip(name: string, quantity: Int32)
    requires PlainName(name)
    ensures ParseEntry(EntryLine(name, quantity)) == Some((name, quantity))
  {
    ShowIntIsPlain(quantity);
    SplitPair(name, ',', ShowInt(quantity));
    assert EntryLine(name, quantity) == name + [','] + ShowInt(quantity);
    ParseShowRoundTrip(quantity);
  }

  /** The holdings of `holdings` named in `order`. */
  ghost function Listed(holdings: map<string, Int32>, order: seq<string>): map<string, Int32>
    requires forall i :: 0 <= i < |order| ==> order[i] in holdings
  {
    map n | n in order :: holdings[n]
  }

  lemma ListedSnoc(into: map<string, Int32>, holdings: map<string, Int32>, order: seq<string>)
    requires order != []
    requires forall i :: 0 <= i < |order| ==> order[i] in holdings
    ensures var last := order[|order| - 1];
      into + Listed(holdings, order) == (into + Listed(holdings, order[..|order| - 1]))[last := holdings[last]]
  {
    var init := order[..|order| - 1];
    assert forall n :: n in order <==> n in init || n == order[|order| - 1];
  }

  lemma ListedAll(holdings: map<string, Int32>, order: seq<string>)
    requires forall n :: n in order <==> n in holdings
    ensures map[] + Listed(holdings, order) == holdings
  {
  }

  lemma {:induction false} PutSavedEntries(into: map<string, Int32>, holdings: map<string, Int32>, order: seq<string>)
    requires forall i :: 0 <= i < |order| ==> order[i] in holdings && PlainName(order[i])
    ensures PutEntries(into, EntryLines(holdings, order)) == Some(into + Listed(holdings, order))
    decreases |order|
  {
    if order != [] {
      var init := order[..|order| - 1];
      var last := order[|order| - 1];
      var lines := EntryLines(holdings, order);
      assert lines[..|lines| - 1] == EntryLines(holdings, init);
      assert lines[|lines| - 1] == EntryLine(last, holdings[last]);
      PutSavedEntries(into, holdings, init);
      EntryRoundTrip(last, holdings[last]);
      ListedSnoc(into, holdings, order);
    } else {
      assert Listed(holdings, order) == map[];
      assert into + map[] == into;
      assert EntryLines(holdings, order) == [];
    }
  }

  lemma SavedLinesArePlain(a: Account, order: seq<string>, codec: BalanceCodec)
    requires Faithful(codec, a.balance)
    requires forall i :: 0 <= i < |order| ==> order[i] in a.holdings && NoBreaks(order[i])
    ensures forall i :: 0 <= i < |SaveLines(a, order, codec)| ==> NoBreaks(SaveLines(a, order, codec)[i])
  {
    forall i | 0 <= i < |order|
      ensures NoBreaks(EntryLines(a.holdings, order)[i])
    {
      EntryLineAt(a.holdings, order, i);
      ShowIntIsPlain(a.holdings[order[i]]);
    }
  }

  lemma {:induction false} EntryLineAt(holdings: map<string, Int32>, order: seq<string>, i: nat)
    requires forall j :: 0 <= j < |order| ==> order[j] in holdings
    requires i < |order|
    ensures EntryLines(holdings, order)[i] == EntryLine(order[i], holdings[order[i]])
    decreases |order|
  {
    if i < |order| - 1 {
      EntryLineAt(holdings, order[..|order| - 1], i);
    }
  }

  /**
   * Loading the file that saving wrote, into the constructor's empty map, gives
   * back the same balance and the same holdings, whatever order the keys were
   * written in, provided the balance text reads back as the balance and no name
   * holds a comma or a line break.
   */
  lemma SaveThenLoad(a: Account, order: seq<string>, codec: BalanceCodec)
    requires Faithful(codec, a.balance) && PlainNames(a)
    requires forall n :: n in order <==> n in a.holdings
    ensures Load(Save(a, order, codec), codec, map[]) == Some(a)
  {
    var lines := SaveLines(a, order, codec);
    assert forall i :: 0 <= i < |order| ==> order[i] in a.holdings && PlainName(order[i]);
    SavedLinesArePlain(a, order, codec);
    ReadJoinedLines(lines);
    assert ReadLines(Save(a, order, codec)) == lines;
    assert codec.read(lines[0]) == Some(a.balance);
    assert lines[1..] == EntryLines(a.holdings, order);
    PutSavedEntries(map[], a.holdings, order);
    ListedAll(a.holdings, order);
    assert PutEntries(map[], lines[1..]) == Some(a.holdings);
  }

  /**
   * The round trip for a portfolio after buying 2 INFY, with a balance text that
   * reads back as written: the premise of `SaveThenLoad` can be met.
   */
  lemma SaveThenLoadExample()
    ensures var codec := BalanceCodec(b => "6900.0", t => if t == "6900.0" then Some(6900.0) else None);
      var a := Account(6900.0, map["INFY" := 2]);
      Faithful(codec, a.balance) && Load(Save(a, ["INFY"], codec), codec, map[]) == Some(a)
  {
    var codec := BalanceCodec(b => "6900.0", t => if t == "6900.0" then Some(6900.0) else None);
    var a := Account(6900.0, map["INFY" := 2]);
    assert NoBreaks(codec.show(a.balance));
    assert PlainName("INFY");
    SaveThenLoad(a, ["INFY"], codec);
  }

  /**
   * The round trip needs names without commas: a held name `x,y` is written as
   * the line `x,y,quantity`, whose second piece `y` is read as the quantity; when
   * `y` is not an `int`, loading the saved file fails.
   */
  lemma CommaNameFailsLoad(a: Account, order: seq<string>, codec: BalanceCodec, x: string, y: string)
    requires Faithful(codec, a.balance)
    requires forall n :: n in order <==> n in a.holdings
    requires forall n :: n in a.holdings ==> NoBreaks(n)
    requires ',' !in x && ',' !in y && y != "" && ParseInt(y).None?
    requires x + [','] + y in a.holdings
    ensures Load(Save(a, order, codec), codec, map[]).None?
  {
    var name := x + [','] + y;
    assert forall i :: 0 <= i < |order| ==> order[i] in a.holdings && NoBreaks(order[i]);
    var lines := SaveLines(a, order, codec);
    SavedLinesArePlain(a, order, codec);
    ReadJoinedLines(lines);
    var i :| 0 <= i < |order| && order[i] == name;
    EntryLineAt(a.holdings, order, i);
    var q := ShowInt(a.holdings[name]);
    ShowIntIsPlain(a.holdings[name]);
    assert ',' !in q;
    assert lines[i + 1] == x + [','] + y + [','] + q;
    SplitTriple(x, ',', y, q);
    assert ParseEntry(lines[i + 1]).None?;
    BadLineFailsLoad(Save(a, order, codec), codec, map[], i + 1);
  }

  /** A name such as "A,B" meets the premise above: "B" is not an `int`. */
  lemma CommaNameExample()
    ensures ',' !in "A" && ',' !in "B" && ParseInt("B").None?
  {
    assert !IsDigit('B');
  }
}
