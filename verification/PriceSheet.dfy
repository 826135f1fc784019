/** The bulk price sheet: written by the download, read back and classified by the upload. */
module PriceSheet {
  import opened Wrappers
  import opened Csv
  import opened PriceText

  datatype Player = Player(id: string, name: string, team: string, position: string, price: int)

  // ----- Download ---------------------------------------------------------------------------

  const HEADERS: seq<string> := ["playerId", "name", "team", "position", "currentPrice", "newPrice", "newPosition"]

  // Only the texts are escaped; ids, prices and positions are written as they are. The last two columns hold the price
  // and the position that q has; in a download they are those of the player.
  function Written(p: Player, q: Player): seq<string> {
    [p.id, EscapeCell(p.name), EscapeCell(p.team), EscapeCell(p.position), Money(p.price), Money(q.price), q.position]
  }

  function Row(p: Player, q: Player): string {
    Join(Written(p, q), ',')
  }

  function Rows(players: seq<Player>, edits: seq<Player>): (r: seq<string>)
    requires |edits| == |players|
    ensures |r| == |players| && forall i :: 0 <= i < |r| ==> r[i] == Row(players[i], edits[i])
  {
    seq(|players|, i requires 0 <= i < |players| => Row(players[i], edits[i]))
  }

  function SheetLines(headers: seq<string>, players: seq<Player>, edits: seq<Player>): (r: seq<string>)
    requires |edits| == |players|
    ensures |r| == |players| + 1 && r[0] == Join(headers, ',')
    ensures forall i :: 0 <= i < |players| ==> r[i + 1] == Row(players[i], edits[i])
  {
    [Join(headers, ',')] + Rows(players, edits)
  }

  function SheetText(headers: seq<string>, players: seq<Player>, edits: seq<Player>): string
    requires |edits| == |players|
  {
    Join(SheetLines(headers, players, edits), '\n')
  }

  function Download(players: seq<Player>): string {
    SheetText(HEADERS, players, players)
  }

  // A downloaded sheet after the price and position columns were edited.
  function EditedSheet(players: seq<Player>, edits: seq<Player>): string
    requires |edits| == |players|
  {
    SheetText(HEADERS, players, edits)
  }

  // ----- Reading a sheet ----------------------------------------------------------------------

  predicate IsLetter(c: char) {
    'a' <= c <= 'z' || 'A' <= c <= 'Z'
  }

  function LowerChar(c: char): char {
    if 'A' <= c <= 'Z' then (c as int + 32) as char else c
  }

  function UpperChar(c: char): char {
    if 'a' <= c <= 'z' then (c as int - 32) as char else c
  }

  function Upper(s: string): (r: string)
  {
    seq(|s|, i requires 0 <= i < |s| => UpperChar(s[i]))
  }

  // Lower case, without anything but letters.
  function Normalise(header: string): string {
    if header == [] then []
    else (if IsLetter(header[0]) then [LowerChar(header[0])] else []) + Normalise(header[1..])
  }

  // The first column of a name; -1 when there is none.
  function FindHeader(header: seq<string>, name: string): (r: int)
    ensures -1 <= r < |header|
  {
    if header == [] then -1
    else if Normalise(header[0]) == name then 0
    else
      var rest := FindHeader(header[1..], name);
      if rest == -1 then -1 else rest + 1
  }

  datatype Columns = Columns(id: int, update: int, deletions: seq<int>, position: int)

  datatype Rejection = TooFewLines | NoPlayerId | NoUpdateColumn | NoUpdates

  function Present(indexes: seq<int>): seq<int> {
    if indexes == [] then [] else (if indexes[0] != -1 then [indexes[0]] else []) + Present(indexes[1..])
  }

  // A new price wins over a price, and that over the current price.
  function ColumnsOf(header: seq<string>): Columns {
    var newPrice, current := FindHeader(header, "newprice"), FindHeader(header, "currentprice");
    var price := FindHeader(header, "price");
    Columns(FindHeader(header, "playerid"),
            if newPrice != -1 then newPrice else if price != -1 then price else current,
            Present([newPrice, current, price]),
            FindHeader(header, "newposition"))
  }

  // The trimmed text of a cell, unless the cell is missing or blank.
  function Filled(cells: seq<string>, i: int): Option<string> {
    if 0 <= i < |cells| && Trim(cells[i]) != [] then Some(Trim(cells[i])) else None
  }

  function FilledPrice(cells: seq<string>, i: int): Option<Price> {
    var raw := Filled(cells, i);
    if raw.Some? then ParsePrice(raw.value) else None
  }

  predicate ZeroPrice(cells: seq<string>, i: int) {
    var p := FilledPrice(cells, i);
    p.Some? && IsZero(p.value)
  }

  datatype Update = Update(player: string, price: Option<Price>, position: Option<string>, remove: bool)

  function ReadUpdate(cells: seq<string>, columns: Columns): Option<Update> {
    var id := Filled(cells, columns.id);
    if id.None? then None
    else
      var read := FilledPrice(cells, columns.update);
      var price := if read.Some? && (!read.value.negative || IsZero(read.value)) then read else None;
      var position := Filled(cells, columns.position);
      var remove := exists k :: 0 <= k < |columns.deletions| && ZeroPrice(cells, columns.deletions[k]);
      if remove || price.Some? || position.Some?
      then Some(Update(id.value, price, if position.Some? then Some(Upper(position.value)) else None, remove))
      else None
  }

  function ReadUpdates(lines: seq<string>, columns: Columns): seq<Update> {
    if lines == [] then []
    else
      var u := ReadUpdate(ParseLine(lines[|lines| - 1]), columns);
      ReadUpdates(lines[..|lines| - 1], columns) + if u.Some? then [u.value] else []
  }

  // ----- Classification -------------------------------------------------------------------------

  type Players = map<string, Player>

  // The players as changed so far, and what became of each update.
  datatype Tally = Tally(players: Players, changed: seq<string>, deleted: seq<string>, skipped: seq<string>,
                         missing: seq<string>)

  predicate Dooms(u: Update) {
    u.remove || (u.price.Some? && IsZero(u.price.value))
  }

  function Doomed(updates: seq<Update>): set<string> {
    set i | 0 <= i < |updates| && Dooms(updates[i]) :: updates[i].player
  }

  function Once(ids: seq<string>, id: string): seq<string> {
    if id in ids then ids else ids + [id]
  }

  function Changed(p: Player, u: Update): Player {
    p.(price := if u.price.Some? then Cents(u.price.value) else p.price, position := u.position.GetOr(p.position))
  }

  function ClassifyOne(t: Tally, u: Update, doomed: set<string>): Tally {
    if u.player !in t.players then t.(missing := t.missing + [u.player])
    else if u.player in doomed then t.(deleted := Once(t.deleted, u.player))
    else
      var p := t.players[u.player];
      var q := Changed(p, u);
      if q == p then t.(skipped := t.skipped + [u.player])
      else t.(players := t.players[u.player := q], changed := Once(t.changed, u.player))
  }

  function ClassifyAll(players: Players, updates: seq<Update>, doomed: set<string>): Tally {
    if updates == [] then Tally(players, [], [], [], [])
    else ClassifyOne(ClassifyAll(players, updates[..|updates| - 1], doomed), updates[|updates| - 1], doomed)
  }

  function Upload(text: string, players: Players): Result<Tally, Rejection> {
    var lines := NonBlank(SplitLines(text));
    if |lines| < 2 then Err(TooFewLines)
    else
      var columns := ColumnsOf(ParseLine(lines[0]));
      if columns.id == -1 then Err(NoPlayerId)
      else if columns.update == -1 && columns.position == -1 then Err(NoUpdateColumn)
      else
        var updates := ReadUpdates(lines[1..], columns);
        if updates == [] then Err(NoUpdates) else Ok(ClassifyAll(players, updates, Doomed(updates)))
  }

  method UploadPrices(text: string, players: Players) returns (r: Result<Tally, Rejection>)
    ensures r == Upload(text, players)
  {
    var lines := NonBlank(SplitLines(text));
    if |lines| < 2 {
      return Err(TooFewLines);
    }
    var header := ParseCsvLine(lines[0]);
    var columns := ColumnsOf(header);
    if columns.id == -1 {
      return Err(NoPlayerId);
    }
    if columns.update == -1 && columns.position == -1 {
      return Err(NoUpdateColumn);
    }
    var updates := CollectUpdates(lines[1..], columns);
    if updates == [] {
      return Err(NoUpdates);
    }
    var t := Classify(players, updates, Doomed(updates));
    r := Ok(t);
  }

  method CollectUpdates(lines: seq<string>, columns: Columns) returns (updates: seq<Update>)
    ensures updates == ReadUpdates(lines, columns)
  {
    updates := [];
    var i := 0;
    while i < |lines|
      invariant i <= |lines| && updates == ReadUpdates(lines[..i], columns)
    {
      assert lines[..i + 1][..i] == lines[..i];
      var cells := ParseCsvLine(lines[i]);
      var u := ReadUpdate(cells, columns);
      if u.Some? {
        updates := updates + [u.value];
      }
      i := i + 1;
    }
    assert lines[..|lines|] == lines;
  }

  method Classify(players: Players, updates: seq<Update>, doomed: set<string>) returns (t: Tally)
    ensures t == ClassifyAll(players, updates, doomed)
  {
    t := Tally(players, [], [], [], []);
    var i := 0;
    while i < |updates|
      invariant i <= |updates| && t == ClassifyAll(players, updates[..i], doomed)
    {
      assert updates[..i + 1][..i] == updates[..i];
      var u := updates[i];
      if u.player !in t.players {
        t := t.(missing := t.missing + [u.player]);
      } else if u.player in doomed {
        if u.player !in t.deleted {
          t := t.(deleted := t.deleted + [u.player]);
        }
      } else {
        var p := t.players[u.player];
        var q := p;
        if u.price.Some? && Cents(u.price.value) != q.price {
          q := q.(price := Cents(u.price.value));
        }
        if u.position.Some? && u.position.value != q.position {
          q := q.(position := u.position.value);
        }
        if q != p {
          t := t.(players := t.players[u.player := q]);
          if u.player !in t.changed {
            t := t.(changed := t.changed + [u.player]);
          }
        } else {
          t := t.(skipped := t.skipped + [u.player]);
        }
      }
      i := i + 1;
    }
    assert updates[..|updates|] == updates;
  }

  // ----- The round trip ---------------------------------------------------------------------------

  predicate PlainId(id: string) {
    id != [] && NoSpace(id) && !NeedsQuotes(id)
  }

  predicate KnownPosition(position: string) {
    position in {"GK", "DEF", "MID", "FWD"}
  }

  // Ids are plain, positions are known, and no text contains a line feed.
  predicate Printable(p: Player) {
    PlainId(p.id) && KnownPosition(p.position) && '\n' !in p.name && '\n' !in p.team
  }

  function CellsOf(p: Player, q: Player): seq<string> {
    [p.id, p.name, p.team, p.position, Money(p.price), Money(q.price), q.position]
  }

  lemma {:induction false} EscapePlain(s: string)
    requires !NeedsQuotes(s)
    ensures EscapeCell(s) == s
  {
    PlainCell(s, [], []);
  }

  lemma {:induction false} MoneyIsPlain(cents: int)
    ensures NoSpace(Money(cents)) && !NeedsQuotes(Money(cents)) && Money(cents) != []
  {
    MoneyChars(cents);
  }

  lemma {:induction false} EscapeSeven(a: string, b: string, c: string, d: string, e: string, f: string, g: string)
    requires EscapeCell(a) == a && EscapeCell(e) == e && EscapeCell(f) == f && EscapeCell(g) == g
    ensures EscapeAll([a, b, c, d, e, f, g]) == [a, EscapeCell(b), EscapeCell(c), EscapeCell(d), e, f, g]
  {
  }

  lemma {:induction false} WrittenIsEscaped(p: Player, q: Player)
    requires Printable(p) && KnownPosition(q.position)
    ensures Written(p, q) == EscapeAll(CellsOf(p, q))
  {
    MoneyIsPlain(p.price);
    MoneyIsPlain(q.price);
    EscapePlain(p.id);
    EscapePlain(Money(p.price));
    EscapePlain(Money(q.price));
    PositionIsPlain(q.position);
    EscapePlain(q.position);
    EscapeSeven(p.id, p.name, p.team, p.position, Money(p.price), Money(q.price), q.position);
  }

  lemma {:induction false} PositionIsPlain(position: string)
    requires KnownPosition(position)
    ensures !NeedsQuotes(position)
  {
  }

  lemma {:induction false} RowIsPrinted(p: Player, q: Player)
    requires Printable(p) && KnownPosition(q.position)
    ensures ParseLine(Row(p, q)) == CellsOf(p, q)
  {
    WrittenIsEscaped(p, q);
    CsvRoundTrip(CellsOf(p, q));
  }

  lemma {:induction false} DoublingAddsNoLine(s: string)
    requires '\n' !in s
    ensures '\n' !in DoubleQuotes(s)
  {
    if s != [] {
      assert forall c :: c in s[1..] ==> c in s;
      DoublingAddsNoLine(s[1..]);
    }
  }

  lemma {:induction false} JoinAddsNoLine(cells: seq<string>)
    requires cells != [] && forall i :: 0 <= i < |cells| ==> '\n' !in cells[i]
    ensures '\n' !in Join(cells, ',')
  {
    if |cells| > 1 {
      JoinAddsNoLine(cells[1..]);
    }
  }

  lemma {:induction false} JoinEndsWith(cells: seq<string>, last: char)
    requires cells != [] && cells[|cells| - 1] != [] && cells[|cells| - 1][|cells[|cells| - 1]| - 1] == last
    ensures Join(cells, ',') != [] && Join(cells, ',')[|Join(cells, ',')| - 1] == last
  {
    if |cells| > 1 {
      JoinEndsWith(cells[1..], last);
    }
  }

  // Cells without a line feed, the first and the last of them plain texts.
  lemma {:induction false} CellsMakeOneLine(cells: seq<string>)
    requires |cells| > 1 && forall i :: 0 <= i < |cells| ==> '\n' !in cells[i]
    requires cells[0] != [] && !IsSpace(cells[0][0])
    requires cells[|cells| - 1] != [] && NoSpace(cells[|cells| - 1])
    ensures OneLine(Join(cells, ',')) && HasText(Join(cells, ','))
  {
    var last := cells[|cells| - 1];
    JoinAddsNoLine(cells);
    JoinEndsWith(cells, last[|last| - 1]);
    assert Join(cells, ',')[0] == cells[0][0];
  }

  lemma {:induction false} EscapeAddsNoLine(s: string)
    requires '\n' !in s
    ensures '\n' !in EscapeCell(s)
  {
    DoublingAddsNoLine(s);
  }

  lemma {:induction false} RowIsOneLine(p: Player, q: Player)
    requires Printable(p) && KnownPosition(q.position)
    ensures OneLine(Row(p, q)) && HasText(Row(p, q))
  {
    MoneyIsPlain(p.price);
    MoneyIsPlain(q.price);
    UpperPosition(q.position);
    PositionIsPlain(q.position);
    PositionIsPlain(p.position);
    EscapeAddsNoLine(p.name);
    EscapeAddsNoLine(p.team);
    EscapeAddsNoLine(p.position);
    CellsMakeOneLine(Written(p, q));
  }

  // ----- The header ---------------------------------------------------------------------------------

  predicate AllLetters(s: string) {
    forall i :: 0 <= i < |s| ==> IsLetter(s[i])
  }

  const SHEET := Columns(0, 5, [5, 4], 6)

  ghost predicate StandardHeader(headers: seq<string>) {
    && |headers| == 7 && (forall i :: 0 <= i < 7 ==> headers[i] != [] && AllLetters(headers[i]))
    && ColumnsOf(headers) == SHEET
  }

  lemma {:induction false} HeaderIsRead(headers: seq<string>)
    requires StandardHeader(headers)
    ensures OneLine(Join(headers, ',')) && HasText(Join(headers, ',')) && ParseLine(Join(headers, ',')) == headers
  {
    forall i | 0 <= i < |headers|
      ensures EscapeCell(headers[i]) == headers[i] && NoSpace(headers[i])
    {
      assert !NeedsQuotes(headers[i]);
      EscapePlain(headers[i]);
    }
    assert EscapeAll(headers) == headers;
    CsvRoundTrip(headers);
    CellsMakeOneLine(headers);
  }

  lemma {:induction false} NormaliseLetters(h: string)
    requires forall i :: 0 <= i < |h| ==> IsLetter(h[i])
    ensures |Normalise(h)| == |h| && forall i :: 0 <= i < |h| ==> Normalise(h)[i] == LowerChar(h[i])
  {
    if h != [] {
      NormaliseLetters(h[1..]);
    }
  }

  lemma {:induction false} NormaliseTo(h: string, name: string)
    requires AllLetters(h) && |h| == |name| && forall i :: 0 <= i < |h| ==> LowerChar(h[i]) == name[i]
    ensures Normalise(h) == name
  {
    NormaliseLetters(h);
  }

  // The normalised headers, given by what tells them apart.
  lemma {:induction false} ColumnsByName(headers: seq<string>)
    requires |headers| == 7
    requires Normalise(headers[0]) == "playerid" && |Normalise(headers[1])| == 4 && |Normalise(headers[2])| == 4
    requires |Normalise(headers[3])| == 8 && Normalise(headers[3])[0] == 'p' && Normalise(headers[4]) == "currentprice"
    requires Normalise(headers[5]) == "newprice" && Normalise(headers[6]) == "newposition"
    ensures ColumnsOf(headers) == SHEET
  {
    assert "playerid"[0] == 'p' && "newprice"[0] == 'n';
    Found(headers, "newprice", 5);
    Found(headers, "currentprice", 4);
    Found(headers, "playerid", 0);
    Found(headers, "newposition", 6);
    NotFound(headers, "price");
    PresentTwo(5, 4, [5, 4, -1]);
  }

  lemma {:induction false} PresentTwo(a: int, b: int, all: seq<int>)
    requires a != -1 && b != -1 && all == [a, b, -1]
    ensures Present(all) == [a, b]
  {
    assert all[1..] == [b, -1] && all[1..][1..] == [-1] && all[1..][1..][1..] == [];
    assert Present(all[1..][1..]) == [];
    assert Present(all[1..]) == [b];
  }

  lemma {:induction false} PlayerIdHeader(h: string)
    requires h == "playerId"
    ensures AllLetters(h) && h != [] && Normalise(h) == "playerid"
  {
    NormaliseTo(h, "playerid");
  }

  lemma {:induction false} UnusedHeaders(name: string, team: string, position: string)
    requires name == "name" && team == "team" && position == "position"
    ensures AllLetters(name) && name != [] && AllLetters(team) && team != [] && AllLetters(position) && position != []
    ensures |Normalise(name)| == 4 && |Normalise(team)| == 4
    ensures |Normalise(position)| == 8 && Normalise(position)[0] == 'p'
  {
    NormaliseLetters(name);
    NormaliseLetters(team);
    NormaliseLetters(position);
  }

  lemma {:induction false} CurrentPriceHeader(h: string)
    requires h == "currentPrice"
    ensures AllLetters(h) && h != [] && Normalise(h) == "currentprice"
  {
    NormaliseTo(h, "currentprice");
  }

  lemma {:induction false} NewPriceHeader(h: string)
    requires h == "newPrice"
    ensures AllLetters(h) && h != [] && Normalise(h) == "newprice"
  {
    NormaliseTo(h, "newprice");
  }

  lemma {:induction false} NewPositionHeader(h: string)
    requires h == "newPosition"
    ensures AllLetters(h) && h != [] && Normalise(h) == "newposition"
  {
    NormaliseTo(h, "newposition");
  }

  // The header texts, one by one.
  lemma {:induction false} HeadersByText(headers: seq<string>, id: string, name: string, team: string, position: string,
                                         current: string, newPrice: string, newPosition: string)
    requires headers == [id, name, team, position, current, newPrice, newPosition]
    requires AllLetters(id) && id != [] && Normalise(id) == "playerid"
    requires AllLetters(name) && name != [] && AllLetters(team) && team != [] && AllLetters(position) && position != []
    requires |Normalise(name)| == 4 && |Normalise(team)| == 4
    requires |Normalise(position)| == 8 && Normalise(position)[0] == 'p'
    requires AllLetters(current) && current != [] && Normalise(current) == "currentprice"
    requires AllLetters(newPrice) && newPrice != [] && Normalise(newPrice) == "newprice"
    requires AllLetters(newPosition) && newPosition != [] && Normalise(newPosition) == "newposition"
    ensures StandardHeader(headers)
  {
    assert headers[0] == id && headers[1] == name && headers[2] == team && headers[3] == position;
    assert headers[4] == current && headers[5] == newPrice && headers[6] == newPosition;
    ColumnsByName(headers);
  }

  lemma {:induction false} HeadersAreStandard()
    ensures StandardHeader(HEADERS)
  {
    PlayerIdHeader("playerId");
    UnusedHeaders("name", "team", "position");
    CurrentPriceHeader("currentPrice");
    NewPriceHeader("newPrice");
    NewPositionHeader("newPosition");
    HeadersByText(HEADERS, "playerId", "name", "team", "position", "currentPrice", "newPrice", "newPosition");
  }

  lemma {:induction false} Found(header: seq<string>, name: string, i: nat)
    requires i < |header| && Normalise(header[i]) == name
    requires forall k :: 0 <= k < i ==> Normalise(header[k]) != name
    ensures FindHeader(header, name) == i
  {
    if i > 0 {
      Found(header[1..], name, i - 1);
    }
  }

  lemma {:induction false} NotFound(header: seq<string>, name: string)
    requires forall k :: 0 <= k < |header| ==> Normalise(header[k]) != name
    ensures FindHeader(header, name) == -1
  {
    if header != [] {
      NotFound(header[1..], name);
    }
  }

  lemma {:induction false} SameNamesFound(a: seq<string>, b: seq<string>, name: string)
    requires |a| == |b| && forall i :: 0 <= i < |a| ==> Normalise(a[i]) == Normalise(b[i])
    ensures FindHeader(a, name) == FindHeader(b, name)
  {
    if a != [] {
      assert forall i :: 0 <= i < |a| - 1 ==> a[1..][i] == a[i + 1] && b[1..][i] == b[i + 1];
      SameNamesFound(a[1..], b[1..], name);
    }
  }

  // For any header line: headers that agree in their letters up to case name the same columns.
  lemma {:induction false} ColumnsFollowNames(a: seq<string>, b: seq<string>)
    requires |a| == |b| && forall i :: 0 <= i < |a| ==> Normalise(a[i]) == Normalise(b[i])
    ensures ColumnsOf(a) == ColumnsOf(b)
  {
    SameNamesFound(a, b, "playerid");
    SameNamesFound(a, b, "newprice");
    SameNamesFound(a, b, "currentprice");
    SameNamesFound(a, b, "price");
    SameNamesFound(a, b, "newposition");
  }

  // What a row is read as: the new price unless it is negative, the new position, and a removal for a price of zero in
  // either price column.
  function UpdateOf(p: Player, q: Player): Update {
    Update(p.id, if q.price < 0 then None else Some(PriceOf(q.price)), Some(q.position), p.price == 0 || q.price == 0)
  }

  lemma {:induction false} UpperPosition(position: string)
    requires KnownPosition(position)
    ensures Upper(position) == position && NoSpace(position) && position != []
  {
  }

  // How a row is read, cell by cell: the trimmed id; the price to set, unless it is negative; the position in capitals;
  // and a removal when some price column reads zero. A row without an id, or with none of the three, is passed over.
  lemma {:induction false} RowReadAs(cells: seq<string>, columns: Columns)
    ensures var r := ReadUpdate(cells, columns);
            && (r.None? <==> Filled(cells, columns.id).None?
                             || (Filled(cells, columns.position).None?
                                 && (FilledPrice(cells, columns.update).None?
                                     || (FilledPrice(cells, columns.update).value.negative
                                         && !IsZero(FilledPrice(cells, columns.update).value)))
                                 && forall k :: 0 <= k < |columns.deletions| ==>
                                      !ZeroPrice(cells, columns.deletions[k])))
            && (r.Some? ==>
                  && Filled(cells, columns.id) == Some(r.value.player)
                  && (r.value.price.Some? ==> FilledPrice(cells, columns.update) == r.value.price)
                  && (r.value.price.None? <==>
                        FilledPrice(cells, columns.update).None?
                        || (FilledPrice(cells, columns.update).value.negative
                            && !IsZero(FilledPrice(cells, columns.update).value)))
                  && (r.value.position.Some? <==> Filled(cells, columns.position).Some?)
                  && (r.value.position.Some? ==> r.value.position.value == Upper(Filled(cells, columns.position).value))
                  && (r.value.remove <==>
                        exists k :: 0 <= k < |columns.deletions| && ZeroPrice(cells, columns.deletions[k])))
  {
  }

  lemma {:induction false} RowIsRead(p: Player, q: Player)
    requires Printable(p) && KnownPosition(q.position)
    ensures ReadUpdate(CellsOf(p, q), SHEET) == Some(UpdateOf(p, q))
  {
    var cells := CellsOf(p, q);
    PriceIsRead(cells, 4, p.price);
    PriceIsRead(cells, 5, q.price);
    TextsAreRead(p, q, cells);
    RowReadAs(cells, SHEET);
    assert SHEET.deletions[0] == 5 && SHEET.deletions[1] == 4;
  }

  lemma {:induction false} TextsAreRead(p: Player, q: Player, cells: seq<string>)
    requires Printable(p) && KnownPosition(q.position) && cells == CellsOf(p, q)
    ensures Filled(cells, 0) == Some(p.id) && Filled(cells, 6) == Some(q.position) && Upper(q.position) == q.position
  {
    UpperPosition(q.position);
    TrimNothing(p.id);
    TrimNothing(q.position);
  }

  lemma {:induction false} PriceIsRead(cells: seq<string>, i: nat, cents: int)
    requires i < |cells| && cells[i] == Money(cents)
    ensures FilledPrice(cells, i) == Some(PriceOf(cents)) && (ZeroPrice(cells, i) <==> cents == 0)
    ensures (PriceOf(cents).negative <==> cents < 0) && (IsZero(PriceOf(cents)) <==> cents == 0)
  {
    MoneyIsPlain(cents);
    MoneyIsRead(cents);
    MoneyRoundTrip(cents);
    TrimNothing(Money(cents));
  }

  lemma {:induction false} NothingBlank(lines: seq<string>)
    requires forall i :: 0 <= i < |lines| ==> HasText(lines[i])
    ensures NonBlank(lines) == lines
  {
    if lines != [] {
      TrimKeepsText(lines[0]);
      NothingBlank(lines[1..]);
    }
  }

  function UpdatesOf(players: seq<Player>, edits: seq<Player>): (r: seq<Update>)
    requires |edits| == |players|
  {
    seq(|players|, i requires 0 <= i < |players| => UpdateOf(players[i], edits[i]))
  }

  lemma {:induction false} UpdatesOfFront(players: seq<Player>, edits: seq<Player>)
    requires |edits| == |players| && players != []
    ensures UpdatesOf(players, edits)
         == UpdatesOf(players[..|players| - 1], edits[..|players| - 1])
            + [UpdateOf(players[|players| - 1], edits[|players| - 1])]
  {
  }

  lemma {:induction false} RowsAreRead(players: seq<Player>, edits: seq<Player>, lines: seq<string>, columns: Columns)
    requires |lines| == |players| == |edits|
    requires forall i :: 0 <= i < |players| ==>
      ReadUpdate(ParseLine(lines[i]), columns) == Some(UpdateOf(players[i], edits[i]))
    ensures ReadUpdates(lines, columns) == UpdatesOf(players, edits)
  {
    if players != [] {
      var last := |players| - 1;
      RowsAreRead(players[..last], edits[..last], lines[..last], columns);
      UpdatesOfFront(players, edits);
    }
  }

  // Ids of the players with, or without, price zero.
  function IdsPriced(players: seq<Player>, zero: bool): seq<string> {
    if players == [] then []
    else
      var p := players[|players| - 1];
      IdsPriced(players[..|players| - 1], zero) + if (p.price == 0) == zero then [p.id] else []
  }

  ghost predicate DistinctPlayers(players: seq<Player>) {
    forall i, j :: 0 <= i < j < |players| ==> players[i].id != players[j].id
  }

  lemma {:induction false} IdsAreOf(players: seq<Player>, zero: bool)
    ensures forall id :: id in IdsPriced(players, zero) ==> exists i :: 0 <= i < |players| && players[i].id == id
  {
    if players != [] {
      IdsAreOf(players[..|players| - 1], zero);
    }
  }

  lemma {:induction false} DoomedIds(players: seq<Player>, i: nat)
    requires DistinctPlayers(players) && i < |players|
    ensures players[i].id in Doomed(UpdatesOf(players, players)) <==> players[i].price == 0
  {
    var updates := UpdatesOf(players, players);
    assert Dooms(updates[i]) <==> players[i].price == 0 by {
      MoneyRoundTrip(players[i].price);
      MoneyIsRead(players[i].price);
    }
    if players[i].id in Doomed(updates) {
      var k :| 0 <= k < |updates| && Dooms(updates[k]) && updates[k].player == players[i].id;
      assert k == i;
    }
  }

  lemma {:induction false} UpdateChangesNothing(p: Player)
    ensures Changed(p, UpdateOf(p, p)) == p
  {
    MoneyRoundTrip(p.price);
    MoneyIsRead(p.price);
  }

  // The players are classified as they are: removed when free, otherwise left alone.
  lemma {:induction false} AllClassified(db: Players, players: seq<Player>, n: nat, doomed: set<string>)
    requires n <= |players| && DistinctPlayers(players)
    requires forall i :: 0 <= i < |players| ==> players[i].id in db && db[players[i].id] == players[i]
    requires forall i :: 0 <= i < |players| ==> (players[i].id in doomed <==> players[i].price == 0)
    ensures ClassifyAll(db, UpdatesOf(players[..n], players[..n]), doomed)
         == Tally(db, [], IdsPriced(players[..n], true), IdsPriced(players[..n], false), [])
  {
    if n > 0 {
      var p := players[n - 1];
      AllClassified(db, players, n - 1, doomed);
      assert players[..n][..n - 1] == players[..n - 1];
      UpdatesOfFront(players[..n], players[..n]);
      UpdateChangesNothing(p);
      IdsAreOf(players[..n - 1], true);
    }
  }

  // A sheet is read as one update per player.
  lemma {:induction false} SheetIsRead(headers: seq<string>, players: seq<Player>, edits: seq<Player>,
                                       lines: seq<string>)
    requires |edits| == |players| && StandardHeader(headers) && lines == SheetLines(headers, players, edits)
    requires forall i :: 0 <= i < |players| ==> Printable(players[i]) && KnownPosition(edits[i].position)
    ensures NonBlank(SplitLines(Join(lines, '\n'))) == lines
    ensures ColumnsOf(ParseLine(lines[0])) == SHEET
    ensures ReadUpdates(lines[1..], SHEET) == UpdatesOf(players, edits)
  {
    HeaderIsRead(headers);
    forall i | 0 <= i < |lines|
      ensures OneLine(lines[i]) && HasText(lines[i])
    {
      if i > 0 {
        RowIsOneLine(players[i - 1], edits[i - 1]);
      }
    }
    SplitJoined(lines);
    NothingBlank(lines);
    forall i | 0 <= i < |players|
      ensures ReadUpdate(ParseLine(lines[1..][i]), SHEET) == Some(UpdateOf(players[i], edits[i]))
    {
      RowIsPrinted(players[i], edits[i]);
      RowIsRead(players[i], edits[i]);
    }
    RowsAreRead(players, edits, lines[1..], SHEET);
  }

  // An upload whose lines, columns and updates are known.
  lemma {:induction false} UploadOfUpdates(text: string, lines: seq<string>, columns: Columns, updates: seq<Update>,
                                           db: Players)
    requires lines == NonBlank(SplitLines(text)) && |lines| >= 2
    requires columns == ColumnsOf(ParseLine(lines[0])) && columns.id != -1 && columns.update != -1
    requires updates == ReadUpdates(lines[1..], columns) && updates != []
    ensures Upload(text, db) == Ok(ClassifyAll(db, updates, Doomed(updates)))
  {
  }

  lemma {:induction false} UploadOfSheet(headers: seq<string>, players: seq<Player>, edits: seq<Player>, db: Players)
    requires |edits| == |players| && StandardHeader(headers) && players != []
    requires forall i :: 0 <= i < |players| ==> Printable(players[i]) && KnownPosition(edits[i].position)
    ensures var updates := UpdatesOf(players, edits);
            Upload(SheetText(headers, players, edits), db) == Ok(ClassifyAll(db, updates, Doomed(updates)))
  {
    var lines := SheetLines(headers, players, edits);
    SheetIsRead(headers, players, edits, lines);
    UploadOfUpdates(SheetText(headers, players, edits), lines, SHEET, UpdatesOf(players, edits), db);
  }

  lemma {:induction false} EverybodyClassified(db: Players, players: seq<Player>, updates: seq<Update>)
    requires DistinctPlayers(players) && updates == UpdatesOf(players, players)
    requires forall i :: 0 <= i < |players| ==> players[i].id in db && db[players[i].id] == players[i]
    ensures ClassifyAll(db, updates, Doomed(updates))
         == Tally(db, [], IdsPriced(players, true), IdsPriced(players, false), [])
  {
    forall i | 0 <= i < |players|
      ensures players[i].id in Doomed(updates) <==> players[i].price == 0
    {
      DoomedIds(players, i);
    }
    AllClassified(db, players, |players|, Doomed(updates));
    assert players[..|players|] == players;
  }

  ghost predicate InStock(p: Player, db: Players) {
    Printable(p) && p.id in db && db[p.id] == p
  }

  lemma {:induction false} UploadUnder(headers: seq<string>, players: seq<Player>, db: Players)
    requires StandardHeader(headers) && players != [] && DistinctPlayers(players)
    requires forall i :: 0 <= i < |players| ==> InStock(players[i], db)
    ensures Upload(SheetText(headers, players, players), db)
         == Ok(Tally(db, [], IdsPriced(players, true), IdsPriced(players, false), []))
  {
    assert forall i :: 0 <= i < |players| ==> InStock(players[i], db);
    UploadOfSheet(headers, players, players, db);
    EverybodyClassified(db, players, UpdatesOf(players, players));
  }

  // Uploading a downloaded sheet changes nothing and misses nothing. It deletes exactly the players whose price is
  // zero, so it leaves everything alone exactly when every price differs from zero.
  lemma {:induction false} UploadOfDownload(players: seq<Player>, db: Players)
    requires players != [] && DistinctPlayers(players)
    requires forall i :: 0 <= i < |players| ==> InStock(players[i], db)
    ensures Upload(Download(players), db) == Ok(Tally(db, [], IdsPriced(players, true), IdsPriced(players, false), []))
  {
    HeadersAreStandard();
    UploadUnder(HEADERS, players, db);
  }

  lemma {:induction false} NothingDeletedExactlyWhen(players: seq<Player>)
    ensures IdsPriced(players, true) == [] <==> forall i :: 0 <= i < |players| ==> players[i].price != 0
  {
    if players != [] {
      NothingDeletedExactlyWhen(players[..|players| - 1]);
    }
  }
}
