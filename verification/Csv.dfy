/** The CSV printer and parser of the price sheets, in the quoting style of section 2 of RFC 4180 (rules 5 to 7). */
module Csv {

  function Replicate(c: char): string {
    if c == '"' then "\"\"" else [c]
  }

  // value.replace(/"/g, '""')
  function DoubleQuotes(s: string): string {
    if s == [] then [] else Replicate(s[0]) + DoubleQuotes(s[1..])
  }

  predicate NeedsQuotes(s: string) {
    ',' in s || '\n' in s || '"' in s
  }

  function EscapeCell(value: string): string {
    var safe := DoubleQuotes(value);
    if NeedsQuotes(safe) then "\"" + safe + "\"" else safe
  }

  function Join(cells: seq<string>, separator: char): string {
    if cells == [] then []
    else if |cells| == 1 then cells[0]
    else cells[0] + [separator] + Join(cells[1..], separator)
  }

  function EscapeAll(cells: seq<string>): (r: seq<string>)
  {
    seq(|cells|, i requires 0 <= i < |cells| => EscapeCell(cells[i]))
  }

  function PrintLine(cells: seq<string>): string {
    Join(EscapeAll(cells), ',')
  }

  // ----- Parsing -----------------------------------------------------------------------

  // What the parser makes of the rest of a line, given the cell read so far and whether it is inside quotes.
  function ParseRest(rest: string, current: string, insideQuotes: bool): seq<string>
    decreases |rest|
  {
    if rest == [] then [current]
    else if rest[0] == '"' then
      if insideQuotes && |rest| > 1 && rest[1] == '"' then ParseRest(rest[2..], current + ['"'], insideQuotes)
      else ParseRest(rest[1..], current, !insideQuotes)
    else if rest[0] == ',' && !insideQuotes then [current] + ParseRest(rest[1..], [], insideQuotes)
    else ParseRest(rest[1..], current + [rest[0]], insideQuotes)
  }

  function ParseLine(line: string): seq<string> {
    ParseRest(line, [], false)
  }

  method ParseCsvLine(line: string) returns (result: seq<string>)
    ensures result == ParseLine(line)
  {
    result := [];
    var current := "";
    var insideQuotes := false;
    var i := 0;
    while i < |line|
      invariant 0 <= i <= |line|
      invariant result + ParseRest(line[i..], current, insideQuotes) == ParseLine(line)
    {
      var c := line[i];
      assert line[i..][1..] == line[i + 1..];
      if c == '"' {
        if insideQuotes && i + 1 < |line| && line[i + 1] == '"' {
          assert line[i..][2..] == line[i + 2..];
          current := current + ['"'];
          i := i + 1;
        } else {
          insideQuotes := !insideQuotes;
        }
      } else if c == ',' && !insideQuotes {
        ghost var rest := ParseRest(line[i + 1..], [], insideQuotes);
        assert result + ([current] + rest) == (result + [current]) + rest;
        result := result + [current];
        current := "";
      } else {
        current := current + [c];
      }
      i := i + 1;
    }
    result := result + [current];
  }

  // ----- The round trip -------------------------------------------------------------------

  // What may follow a cell: the end of the line, or a comma.
  predicate EndsCell(rest: string) {
    rest == [] || rest[0] == ','
  }

  lemma {:induction false} PlainCell(cell: string, current: string, rest: string)
    requires !NeedsQuotes(cell)
    ensures DoubleQuotes(cell) == cell
    ensures ParseRest(cell + rest, current, false) == ParseRest(rest, current + cell, false)
  {
    if cell == [] {
      assert cell + rest == rest && current + cell == current;
    } else {
      assert forall c :: c in cell[1..] ==> c in cell;
      PlainCell(cell[1..], current + [cell[0]], rest);
      assert (cell + rest)[1..] == cell[1..] + rest;
      assert current + [cell[0]] + cell[1..] == current + cell;
    }
  }

  lemma {:induction false} QuotedCell(cell: string, current: string, rest: string)
    requires EndsCell(rest)
    ensures ParseRest(DoubleQuotes(cell) + ['"'] + rest, current, true) == ParseRest(rest, current + cell, false)
  {
    if cell == [] {
      assert DoubleQuotes(cell) + ['"'] + rest == ['"'] + rest;
      assert (['"'] + rest)[1..] == rest;
      assert current + cell == current;
    } else {
      var head, tail := Replicate(cell[0]), DoubleQuotes(cell[1..]) + ['"'] + rest;
      QuotedCell(cell[1..], current + [cell[0]], rest);
      assert DoubleQuotes(cell) + ['"'] + rest == head + tail;
      assert (head + tail)[|head|..] == tail;
      assert current + [cell[0]] + cell[1..] == current + cell;
    }
  }

  lemma {:induction false} DoublingKeepsSpecials(s: string)
    ensures NeedsQuotes(DoubleQuotes(s)) <==> NeedsQuotes(s)
  {
    if s != [] {
      DoublingKeepsSpecials(s[1..]);
      assert s == [s[0]] + s[1..];
    }
  }

  lemma {:induction false} QuotationOpens(safe: string, rest: string)
    ensures ParseRest("\"" + safe + "\"" + rest, [], false) == ParseRest(safe + ['"'] + rest, [], true)
  {
    var s := "\"" + safe + "\"" + rest;
    assert s[0] == '"' && s[1..] == safe + ['"'] + rest;
  }

  lemma {:induction false} QuotedIsRead(cell: string, rest: string)
    requires EndsCell(rest)
    ensures ParseRest("\"" + DoubleQuotes(cell) + "\"" + rest, [], false) == ParseRest(rest, cell, false)
  {
    QuotationOpens(DoubleQuotes(cell), rest);
    QuotedCell(cell, [], rest);
    assert [] + cell == cell;
  }

  lemma {:induction false} EscapedCell(cell: string, rest: string)
    requires EndsCell(rest)
    ensures ParseRest(EscapeCell(cell) + rest, [], false) == ParseRest(rest, cell, false)
  {
    DoublingKeepsSpecials(cell);
    if NeedsQuotes(cell) {
      QuotedIsRead(cell, rest);
    } else {
      PlainCell(cell, [], rest);
      assert [] + cell == cell;
    }
  }

  // Parsing what was printed gives back every non-empty list of arbitrary cells.
  lemma {:induction false} CsvRoundTrip(cells: seq<string>)
    requires cells != []
    ensures ParseLine(PrintLine(cells)) == cells
  {
    var escaped := EscapeAll(cells);
    if |cells| == 1 {
      EscapedCell(cells[0], []);
      assert EscapeCell(cells[0]) + [] == EscapeCell(cells[0]);
    } else {
      var rest := [','] + PrintLine(cells[1..]);
      assert escaped[1..] == EscapeAll(cells[1..]);
      assert PrintLine(cells) == EscapeCell(cells[0]) + rest;
      EscapedCell(cells[0], rest);
      assert rest[1..] == PrintLine(cells[1..]);
      CsvRoundTrip(cells[1..]);
    }
  }

  // ----- What is written -----------------------------------------------------------------------

  lemma {:induction false} NothingDoubled(s: string)
    requires '"' !in s
    ensures DoubleQuotes(s) == s
  {
    if s != [] {
      assert forall c :: c in s[1..] ==> c in s;
      NothingDoubled(s[1..]);
    }
  }

  lemma {:induction false} DoubledAppend(a: string, b: string)
    ensures DoubleQuotes(a + b) == DoubleQuotes(a) + DoubleQuotes(b)
  {
    if a == [] {
      assert a + b == b;
    } else {
      assert (a + b)[1..] == a[1..] + b;
      DoubledAppend(a[1..], b);
    }
  }

  lemma {:induction false} DoubledKeeps(s: string, c: char)
    ensures c in DoubleQuotes(s) <==> c in s
  {
    if s != [] {
      assert s == [s[0]] + s[1..];
      DoubledKeeps(s[1..], c);
    }
  }

  // A cell is written as it is unless it holds a comma, a line feed or a quote. Otherwise it is put in quotes, and
  // every quote in it is doubled.
  lemma {:induction false} WrittenCell(s: string)
    ensures ',' !in s && '\n' !in s && '"' !in s ==> EscapeCell(s) == s
    ensures ',' in s || '\n' in s || '"' in s ==> EscapeCell(s) == ['"'] + DoubleQuotes(s) + ['"']
    ensures '"' !in s ==> DoubleQuotes(s) == s
    ensures DoubleQuotes(['"']) == ['"', '"']
  {
    DoubledKeeps(s, ',');
    DoubledKeeps(s, '\n');
    DoubledKeeps(s, '"');
    assert ['"'][1..] == [];
    if '"' !in s {
      NothingDoubled(s);
    }
  }
}
