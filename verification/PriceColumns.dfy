/** Which columns an upload reads, and when it is refused: from the header names and the rows alone. */
module PriceColumns {
  import opened Wrappers
  import opened Csv
  import opened PriceText
  import opened PriceSheet

  // ----- Header names ---------------------------------------------------------------------------------------

  const SMALL: string := "abcdefghijklmnopqrstuvwxyz"
  const LARGE: string := "ABCDEFGHIJKLMNOPQRSTUVWXYZ"

  // A letter is read as the small one, and every other character is passed over.
  lemma {:induction false} LettersAre(i: nat, c: char)
    requires i < 26
    ensures LARGE[i] != SMALL[i]
    ensures Normalise([SMALL[i]]) == [SMALL[i]] && Normalise([LARGE[i]]) == [SMALL[i]]
    ensures Upper([SMALL[i]]) == [LARGE[i]] && Upper([LARGE[i]]) == [LARGE[i]]
    ensures c !in SMALL && c !in LARGE ==> Normalise([c]) == [] && Upper([c]) == [c]
  {
    LetterCodes(i);
    if IsLetter(c) && c !in SMALL && c !in LARGE {
      var k := LowerChar(c) as int - 'a' as int;
      LetterCodes(k);
      assert false;
    }
    assert forall x: char :: [x][1..] == [];
  }

  lemma {:induction false} LetterCodes(i: nat)
    requires i < 26
    ensures SMALL[i] as int == 'a' as int + i && LARGE[i] as int == 'A' as int + i
  {
  }

  lemma {:induction false} NormaliseStep(s: string)
    requires s != []
    ensures Normalise(s) == Normalise([s[0]]) + Normalise(s[1..])
  {
    assert [s[0]][1..] == [];
  }

  lemma {:induction false} NormaliseAppend(a: string, b: string)
    ensures Normalise(a + b) == Normalise(a) + Normalise(b)
  {
    if a == [] {
      assert a + b == b;
    } else {
      var letter, rest := Normalise([a[0]]), Normalise(a[1..]);
      assert (a + b)[0] == a[0] && (a + b)[1..] == a[1..] + b;
      NormaliseAppend(a[1..], b);
      NormaliseStep(a + b);
      NormaliseStep(a);
      assert letter + (rest + Normalise(b)) == letter + rest + Normalise(b);
    }
  }

  // ----- Columns ----------------------------------------------------------------------------------------------

  // The first column of the name.
  ghost predicate Names(header: seq<string>, i: int, name: string) {
    0 <= i < |header| && Normalise(header[i]) == name && forall k :: 0 <= k < i ==> Normalise(header[k]) != name
  }

  ghost predicate Lacks(header: seq<string>, name: string) {
    forall k :: 0 <= k < |header| ==> Normalise(header[k]) != name
  }

  lemma {:induction false} FirstOfName(header: seq<string>, name: string)
    ensures var i := FindHeader(header, name);
            if Lacks(header, name) then i == -1 else Names(header, i, name)
  {
    if header != [] {
      assert forall k :: 0 <= k < |header| - 1 ==> header[1..][k] == header[k + 1];
      FirstOfName(header[1..], name);
    }
  }

  lemma {:induction false} PresentThree(a: int, b: int, c: int, i: int)
    ensures i in Present([a, b, c]) <==> i != -1 && i in {a, b, c}
  {
    var all := [a, b, c];
    assert all[1..] == [b, c] && all[1..][1..] == [c] && all[1..][1..][1..] == [];
    assert Present(all[1..][1..]) == if c != -1 then [c] else [];
  }

  // The columns of a header: the first of each name, the price to set taken from the new price, else from the price,
  // else from the current price, and a zero in any of the three deleting.
  lemma {:induction false} ColumnsMean(header: seq<string>)
    ensures var c := ColumnsOf(header);
            && (if Lacks(header, "playerid") then c.id == -1 else Names(header, c.id, "playerid"))
            && (if Lacks(header, "newposition") then c.position == -1 else Names(header, c.position, "newposition"))
            && (if !Lacks(header, "newprice") then Names(header, c.update, "newprice")
                else if !Lacks(header, "price") then Names(header, c.update, "price")
                else if !Lacks(header, "currentprice") then Names(header, c.update, "currentprice")
                else c.update == -1)
            && forall i :: i in c.deletions <==>
                 Names(header, i, "newprice") || Names(header, i, "price") || Names(header, i, "currentprice")
  {
    FirstOfName(header, "playerid");
    FirstOfName(header, "newposition");
    FirstOfName(header, "newprice");
    FirstOfName(header, "price");
    FirstOfName(header, "currentprice");
    var newPrice, current := FindHeader(header, "newprice"), FindHeader(header, "currentprice");
    var price := FindHeader(header, "price");
    forall i
      ensures i in ColumnsOf(header).deletions <==>
                Names(header, i, "newprice") || Names(header, i, "price") || Names(header, i, "currentprice")
    {
      PresentThree(newPrice, current, price, i);
      NamesOnce(header, i, newPrice, "newprice");
      NamesOnce(header, i, price, "price");
      NamesOnce(header, i, current, "currentprice");
    }
  }

  lemma {:induction false} NamesOnce(header: seq<string>, i: int, k: int, name: string)
    requires Names(header, k, name) || (k == -1 && Lacks(header, name))
    ensures Names(header, i, name) <==> i == k && k != -1
  {
  }

  // ----- Refusals -----------------------------------------------------------------------------------------------

  ghost predicate SetsNothing(cells: seq<string>, columns: Columns) {
    || Filled(cells, columns.id).None?
    || (&& Filled(cells, columns.position).None?
        && (|| FilledPrice(cells, columns.update).None?
            || (FilledPrice(cells, columns.update).value.negative && !IsZero(FilledPrice(cells, columns.update).value)))
        && forall k :: k in columns.deletions ==> !ZeroPrice(cells, k))
  }

  lemma {:induction false} RowSetsNothing(cells: seq<string>, columns: Columns)
    ensures ReadUpdate(cells, columns).None? <==> SetsNothing(cells, columns)
  {
    RowReadAs(cells, columns);
  }

  lemma {:induction false} NothingRead(lines: seq<string>, columns: Columns)
    ensures ReadUpdates(lines, columns) == [] <==> NothingToSet(lines, columns)
  {
    if lines != [] {
      var front := lines[..|lines| - 1];
      NothingRead(front, columns);
      RowSetsNothing(ParseLine(lines[|lines| - 1]), columns);
    }
  }

  ghost predicate NothingToSet(lines: seq<string>, columns: Columns) {
    forall i :: 0 <= i < |lines| ==> SetsNothing(ParseLine(lines[i]), columns)
  }

  lemma {:induction false} UploadAnswers(lines: seq<string>, players: Players, text: string)
    requires lines == NonBlank(SplitLines(text)) && |lines| >= 2
    ensures var columns := ColumnsOf(ParseLine(lines[0]));
            Upload(text, players)
            == if columns.id == -1 then Err(NoPlayerId)
               else if columns.update == -1 && columns.position == -1 then Err(NoUpdateColumn)
               else if ReadUpdates(lines[1..], columns) == [] then Err(NoUpdates)
               else Ok(ClassifyAll(players, ReadUpdates(lines[1..], columns),
                                   Doomed(ReadUpdates(lines[1..], columns))))
  {
  }

  // An upload is refused for exactly four reasons, looked for in this order: it has no second line, no column of player
  // ids, none to set a price or a position from, or no row that sets anything.
  lemma {:induction false} RefusedExactlyWhen(text: string, players: Players)
    ensures var lines := NonBlank(SplitLines(text));
            var r := Upload(text, players);
            if |lines| < 2 then r == Err(TooFewLines)
            else
              var header := ParseLine(lines[0]);
              if Lacks(header, "playerid") then r == Err(NoPlayerId)
              else if Lacks(header, "newprice") && Lacks(header, "price") && Lacks(header, "currentprice")
                      && Lacks(header, "newposition") then r == Err(NoUpdateColumn)
              else if NothingToSet(lines[1..], ColumnsOf(header)) then r == Err(NoUpdates)
              else r.Ok?
  {
    var lines := NonBlank(SplitLines(text));
    if |lines| >= 2 {
      var header := ParseLine(lines[0]);
      UploadAnswers(lines, players, text);
      ColumnsMean(header);
      NothingRead(lines[1..], ColumnsOf(header));
    }
  }
}
