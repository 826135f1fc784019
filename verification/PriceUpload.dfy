/** What an upload of prices and positions leaves behind: for any list of updates, and for an edited download. */
module PriceUpload {
  import opened Wrappers
  import opened PriceText
  import opened PriceSheet

  // ----- Any list of updates ------------------------------------------------------------------------------

  // The update removes the player, or gives him for nothing.
  ghost predicate Frees(u: Update) {
    || u.remove
    || (u.price.Some? && u.price.value.whole == 0
        && forall i :: 0 <= i < |u.price.value.fraction| ==> u.price.value.fraction[i] == '0')
  }

  ghost predicate Freed(updates: seq<Update>, id: string) {
    exists i :: 0 <= i < |updates| && updates[i].player == id && Frees(updates[i])
  }

  ghost predicate Updated(updates: seq<Update>, id: string) {
    exists i :: 0 <= i < |updates| && updates[i].player == id
  }

  // The last price and the last position the updates give a player.
  function LastPrice(updates: seq<Update>, id: string): Option<Price> {
    if updates == [] then None
    else
      var last := updates[|updates| - 1];
      if last.player == id && last.price.Some? then last.price else LastPrice(updates[..|updates| - 1], id)
  }

  function LastPosition(updates: seq<Update>, id: string): Option<string> {
    if updates == [] then None
    else
      var last := updates[|updates| - 1];
      if last.player == id && last.position.Some? then last.position else LastPosition(updates[..|updates| - 1], id)
  }

  // The player with what the updates give him.
  ghost predicate Becomes(before: Player, after: Player, updates: seq<Update>, id: string) {
    && after == before.(price := after.price, position := after.position)
    && (LastPrice(updates, id).None? ==> after.price == before.price)
    && (LastPrice(updates, id).Some? ==> after.price == Cents(LastPrice(updates, id).value))
    && (LastPosition(updates, id).None? ==> after.position == before.position)
    && (LastPosition(updates, id).Some? ==> after.position == LastPosition(updates, id).value)
  }

  // The state of the classification for one player.
  ghost predicate Classified(players: Players, updates: seq<Update>, doomed: set<string>, t: Tally, id: string) {
    && t.players.Keys == players.Keys
    && (id !in players ==>
          && (id in t.missing <==> Updated(updates, id))
          && id !in t.changed && id !in t.deleted && id !in t.skipped)
    && (id in players && id in doomed ==>
          && t.players[id] == players[id] && (id in t.deleted <==> Updated(updates, id))
          && id !in t.changed && id !in t.skipped && id !in t.missing)
    && (id in players && id !in doomed ==>
          && Becomes(players[id], t.players[id], updates, id) && id !in t.deleted && id !in t.missing
          && (t.players[id] != players[id] ==> id in t.changed)
          && (id in t.changed || id in t.skipped <==> Updated(updates, id)))
  }

  lemma {:induction false} ClassifiesAll(players: Players, updates: seq<Update>, doomed: set<string>, id: string)
    ensures Classified(players, updates, doomed, ClassifyAll(players, updates, doomed), id)
  {
    if updates != [] {
      var front, u := updates[..|updates| - 1], updates[|updates| - 1];
      ClassifiesAll(players, front, doomed, id);
      assert updates == front + [u];
      UpdatedSnoc(front, u, id);
    }
  }

  lemma {:induction false} UpdatedSnoc(front: seq<Update>, u: Update, id: string)
    ensures Updated(front + [u], id) <==> Updated(front, id) || u.player == id
  {
    var all := front + [u];
    if Updated(front, id) {
      var i :| 0 <= i < |front| && front[i].player == id;
      assert all[i].player == id;
    }
    if u.player == id {
      assert all[|front|].player == id;
    }
  }

  // Nobody is listed as changed or deleted twice.
  lemma {:induction false} ListedOnce(players: Players, updates: seq<Update>, doomed: set<string>)
    ensures Distinct(ClassifyAll(players, updates, doomed).changed)
    ensures Distinct(ClassifyAll(players, updates, doomed).deleted)
  {
    if updates != [] {
      ListedOnce(players, updates[..|updates| - 1], doomed);
    }
  }

  lemma {:induction false} DoomedIsFreed(updates: seq<Update>, id: string)
    ensures id in Doomed(updates) <==> Freed(updates, id)
  {
    forall i | 0 <= i < |updates|
      ensures Dooms(updates[i]) <==> Frees(updates[i])
    {
    }
    if Freed(updates, id) {
      var i :| 0 <= i < |updates| && updates[i].player == id && Frees(updates[i]);
      assert Dooms(updates[i]);
    }
  }

  // What becomes of a player. One unknown to the catalogue is missing. One whom some update removes or gives for
  // nothing is deleted as he is, whatever the others say. Anybody else has the last price and the last position that
  // the updates give him, and is listed as changed if that changed him.
  lemma {:induction false} AfterUpload(players: Players, updates: seq<Update>, id: string)
    ensures var t := ClassifyAll(players, updates, Doomed(updates));
            && t.players.Keys == players.Keys && Distinct(t.changed) && Distinct(t.deleted)
            && (id in t.missing <==> id !in players && Updated(updates, id))
            && (id in t.deleted <==> id in players && Freed(updates, id))
            && (id in players && Freed(updates, id) ==> t.players[id] == players[id])
            && (id in players && !Freed(updates, id) ==>
                  && Becomes(players[id], t.players[id], updates, id)
                  && (t.players[id] != players[id] ==> id in t.changed))
            && (id in t.changed ==> id in players && !Freed(updates, id) && Updated(updates, id))
  {
    DoomedIsFreed(updates, id);
    ClassifiesAll(players, updates, Doomed(updates), id);
    ListedOnce(players, updates, Doomed(updates));
    if Freed(updates, id) {
      var i :| 0 <= i < |updates| && updates[i].player == id && Frees(updates[i]);
      assert Updated(updates, id);
    }
  }

  // ----- An edited download ---------------------------------------------------------------------------------

  lemma {:induction false} OnlyUpdate(updates: seq<Update>, i: nat)
    requires i < |updates| && forall j :: 0 <= j < |updates| && j != i ==> updates[j].player != updates[i].player
    ensures LastPrice(updates, updates[i].player) == updates[i].price
    ensures LastPosition(updates, updates[i].player) == updates[i].position
  {
    var last := |updates| - 1;
    if i < last {
      OnlyUpdate(updates[..last], i);
    } else {
      NoUpdate(updates[..last], updates[i].player);
    }
  }

  lemma {:induction false} NoUpdate(updates: seq<Update>, id: string)
    requires forall j :: 0 <= j < |updates| ==> updates[j].player != id
    ensures LastPrice(updates, id).None? && LastPosition(updates, id).None?
  {
    if updates != [] {
      NoUpdate(updates[..|updates| - 1], id);
    }
  }

  // What an edited row leaves of its player: one whose old or new price is zero is deleted as he is, every other one
  // has the new position, and the new price unless it is negative.
  ghost predicate Edited(t: Tally, p: Player, q: Player) {
    && p.id in t.players && p.id !in t.missing
    && (p.id in t.deleted <==> p.price == 0 || q.price == 0)
    && t.players[p.id] == (if p.price == 0 || q.price == 0 then p
                           else p.(price := if q.price < 0 then p.price else q.price, position := q.position))
    && (t.players[p.id] != p ==> p.id in t.changed)
  }

  // Somebody downloads the players, edits the last two columns and uploads the sheet: every player is as his row says,
  // and the catalogue has the same players.
  lemma {:induction false} UploadOfEdits(players: seq<Player>, edits: seq<Player>, db: Players)
    requires players != [] && DistinctPlayers(players) && |edits| == |players|
    requires forall k :: 0 <= k < |players| ==> InStock(players[k], db) && KnownPosition(edits[k].position)
    ensures Upload(EditedSheet(players, edits), db).Ok?
    ensures Upload(EditedSheet(players, edits), db).value.players.Keys == db.Keys
    ensures forall i :: 0 <= i < |players| ==>
      Edited(Upload(EditedSheet(players, edits), db).value, players[i], edits[i])
  {
    HeadersAreStandard();
    EditsUnder(HEADERS, players, edits, db);
  }

  lemma {:induction false} EditsUnder(headers: seq<string>, players: seq<Player>, edits: seq<Player>, db: Players)
    requires StandardHeader(headers) && players != [] && DistinctPlayers(players) && |edits| == |players|
    requires forall k :: 0 <= k < |players| ==> InStock(players[k], db) && KnownPosition(edits[k].position)
    ensures var r := Upload(SheetText(headers, players, edits), db);
            && r.Ok? && r.value.players.Keys == db.Keys
            && forall i :: 0 <= i < |players| ==> Edited(r.value, players[i], edits[i])
  {
    var updates := UpdatesOf(players, edits);
    assert forall k :: 0 <= k < |players| ==> InStock(players[k], db);
    UploadOfSheet(headers, players, edits, db);
    AfterUpload(db, updates, players[0].id);
    forall i | 0 <= i < |players|
      ensures Edited(ClassifyAll(db, updates, Doomed(updates)), players[i], edits[i])
    {
      EditIsClassified(players, edits, db, updates, i);
    }
  }

  lemma {:induction false} EditIsClassified(players: seq<Player>, edits: seq<Player>, db: Players, updates: seq<Update>,
                                            i: nat)
    requires DistinctPlayers(players) && |edits| == |players| && i < |players|
    requires players[i].id in db && db[players[i].id] == players[i] && updates == UpdatesOf(players, edits)
    ensures Edited(ClassifyAll(db, updates, Doomed(updates)), players[i], edits[i])
  {
    var p, q := players[i], edits[i];
    AfterUpload(db, updates, p.id);
    forall k | 0 <= k < |updates| && k != i
      ensures updates[k].player != updates[i].player
    {
      assert players[k].id != players[i].id;
    }
    OnlyUpdate(updates, i);
    PriceOfEdit(q);
    EditFrees(p, q);
    assert Freed(updates, p.id) <==> Frees(updates[i]);
  }

  lemma {:induction false} EditFrees(p: Player, q: Player)
    ensures Frees(UpdateOf(p, q)) <==> p.price == 0 || q.price == 0
  {
    PriceOfEdit(q);
  }

  lemma {:induction false} PriceOfEdit(q: Player)
    ensures Cents(PriceOf(q.price)) == q.price && (IsZero(PriceOf(q.price)) <==> q.price == 0)
  {
    MoneyRoundTrip(q.price);
    MoneyIsRead(q.price);
  }
}
