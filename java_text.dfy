/**
 * The two pieces of Java text handling the portfolio file goes through:
 * `String.split` on a one-character separator, and the line structure that
 * `BufferedWriter.write(line + "\n")` produces and `BufferedReader.readLine`
 * takes apart again.
 */
module JavaText {

  /** Every occurrence of `sep` separates two fields; no field contains `sep`. */
  function Fields(s: string, sep: char): (r: seq<string>)
    ensures |r| >= 1
    ensures forall i :: 0 <= i < |r| ==> sep !in r[i]
    decreases |s|
  {
    if s == [] then [""]
    else
      var rest := Fields(s[1..], sep);
      if s[0] == sep then [""] + rest else [[s[0]] + rest[0]] + rest[1..]
  }

  function DropTrailingEmpty(parts: seq<string>): (r: seq<string>)
    ensures |r| <= |parts| && r == parts[..|r|]
    ensures r == [] || r[|r| - 1] != ""
    ensures forall i :: |r| <= i < |parts| ==> parts[i] == ""
    decreases |parts|
  {
    if parts != [] && parts[|parts| - 1] == "" then DropTrailingEmpty(parts[..|parts| - 1]) else parts
  }

  /**
   * `s.split(String.valueOf(sep))`: with no separator in `s` the result is `[s]`
   * itself (even for the empty string); otherwise the fields, with trailing
   * empty fields removed.
   */
  function Split(s: string, sep: char): (r: seq<string>)
    ensures forall i :: 0 <= i < |r| ==> sep !in r[i]
    ensures sep !in s ==> r == [s]
    ensures sep in s ==> r == [] || r[|r| - 1] != ""
  {
    if sep !in s then [s]
    else
      var fields := Fields(s, sep);
      var r := DropTrailingEmpty(fields);
      assert forall i :: 0 <= i < |r| ==> r[i] == fields[i];
      r
  }

  lemma {:induction false} FieldsOfPlain(s: string, sep: char)
    requires sep !in s
    ensures Fields(s, sep) == [s]
    decreases |s|
  {
    if s != [] {
      assert s[0] != sep && sep !in s[1..];
      FieldsOfPlain(s[1..], sep);
      assert [s[0]] + s[1..] == s;
    }
  }

  lemma {:induction false} FieldsAfterSeparator(a: string, sep: char, b: string)
    requires sep !in a
    ensures Fields(a + [sep] + b, sep) == [a] + Fields(b, sep)
    decreases |a|
  {
    if a != [] {
      var s := a + [sep] + b;
      assert s[0] == a[0] != sep;
      assert s[1..] == a[1..] + [sep] + b;
      FieldsAfterSeparator(a[1..], sep, b);
      assert [a[0]] + a[1..] == a;
    } else {
      assert (a + [sep] + b)[1..] == b;
    }
  }

  /** Two plain fields joined by the separator are split back into exactly those two. */
  lemma SplitPair(a: string, sep: char, b: string)
    requires sep !in a && sep !in b && b != ""
    ensures Split(a + [sep] + b, sep) == [a, b]
  {
    var s := a + [sep] + b;
    assert s[|a|] == sep;
    FieldsAfterSeparator(a, sep, b);
    FieldsOfPlain(b, sep);
    assert Fields(s, sep) == [a, b];
  }

  /** Three plain fields joined by the separator are split back into exactly those three. */
  lemma SplitTriple(a: string, sep: char, b: string, c: string)
    requires sep !in a && sep !in b && sep !in c && c != ""
    ensures Split(a + [sep] + b + [sep] + c, sep) == [a, b, c]
  {
    var s := a + [sep] + b + [sep] + c;
    assert s == a + [sep] + (b + [sep] + c);
    assert s[|a|] == sep;
    FieldsAfterSeparator(a, sep, b + [sep] + c);
    FieldsAfterSeparator(b, sep, c);
    FieldsOfPlain(c, sep);
    assert Fields(s, sep) == [a, b, c];
  }

  predicate IsBreak(c: char) {
    c == '\n' || c == '\r'
  }

  predicate NoBreaks(s: string) {
    forall i :: 0 <= i < |s| ==> !IsBreak(s[i])
  }

  /** The index of the first line break at or after `i`, or `|t|` if there is none. */
  function LineEnd(t: string, i: nat): (k: nat)
    requires i <= |t|
    ensures i <= k <= |t|
    ensures k < |t| ==> IsBreak(t[k])
    ensures forall j :: i <= j < k ==> !IsBreak(t[j])
    decreases |t| - i
  {
    if i == |t| || IsBreak(t[i]) then i else LineEnd(t, i + 1)
  }

  /**
   * The lines `BufferedReader.readLine` returns one after another until it
   * returns null: a line ends at `\n`, at `\r`, or at `\r\n`; a last line without
   * a terminator still counts, and an empty text has no lines.
   */
  function ReadLines(t: string): (lines: seq<string>)
    ensures forall i :: 0 <= i < |lines| ==> NoBreaks(lines[i])
    decreases |t|
  {
    if t == [] then []
    else
      var k := LineEnd(t, 0);
      if k == |t| then [t]
      else
        var next := if t[k] == '\r' && k + 1 < |t| && t[k + 1] == '\n' then k + 2 else k + 1;
        [t[..k]] + ReadLines(t[next..])
  }

  /** The text written by `write(line + "\n")` for each line in turn. */
  function JoinLines(lines: seq<string>): (t: string)
    ensures lines == [] <==> t == ""
    ensures lines != [] ==> t[|t| - 1] == '\n'
    decreases |lines|
  {
    if lines == [] then "" else lines[0] + "\n" + JoinLines(lines[1..])
  }

  lemma {:induction false} JoinLinesSnoc(lines: seq<string>, line: string)
    ensures JoinLines(lines + [line]) == JoinLines(lines) + line + "\n"
    decreases |lines|
  {
    if lines != [] {
      assert (lines + [line])[1..] == lines[1..] + [line];
      JoinLinesSnoc(lines[1..], line);
    } else {
      assert [line][1..] == [];
    }
  }

  /** Lines without line breaks, written one per line, are read back exactly. */
  lemma {:induction false} ReadJoinedLines(lines: seq<string>)
    requires forall i :: 0 <= i < |lines| ==> NoBreaks(lines[i])
    ensures ReadLines(JoinLines(lines)) == lines
    decreases |lines|
  {
    if lines != [] {
      var l := lines[0];
      var rest := JoinLines(lines[1..]);
      var t := JoinLines(lines);
      assert t == l + "\n" + rest;
      assert t[|l|] == '\n';
      assert forall j :: 0 <= j < |l| ==> t[j] == l[j];
      assert LineEnd(t, 0) == |l|;
      assert t[..|l|] == l;
      assert t[|l| + 1..] == rest;
      ReadJoinedLines(lines[1..]);
    }
  }
}
