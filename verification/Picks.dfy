/** The stored picks of a team: saving a squad line by line, and replacing one player in a transfer. */
module Picks {
  import opened Wrappers
  import opened Squads

  // What a pick and its copy in a snapshot have in common.
  datatype Held = Held(line: Line, multiplier: int, buyPrice: int, sellPrice: int, livePoints: Option<int>)

  datatype Pick = Pick(id: Id, position: Option<Position>, held: Held)

  function LinesOf(picks: seq<Pick>): (r: seq<Line>)
  {
    seq(|picks|, i requires 0 <= i < |picks| => picks[i].held.line)
  }

  function HeldOf(picks: seq<Pick>): (r: seq<Held>)
  {
    seq(|picks|, i requires 0 <= i < |picks| => picks[i].held)
  }

  function PlayerOf(p: Pick): Id {
    p.held.line.player
  }

  ghost predicate DistinctPlayers(picks: seq<Pick>) {
    forall i, j :: 0 <= i < j < |picks| ==> PlayerOf(picks[i]) != PlayerOf(picks[j])
  }

  // The first pick of a player; |picks| when there is none.
  function Find(picks: seq<Pick>, player: Id): (r: nat)
    ensures r <= |picks|
    ensures forall i :: 0 <= i < r ==> PlayerOf(picks[i]) != player
    ensures r < |picks| ==> PlayerOf(picks[r]) == player
  {
    if picks == [] || PlayerOf(picks[0]) == player then 0 else 1 + Find(picks[1..], player)
  }

  // ----- Multipliers --------------------------------------------------------------------------

  function MultiplierOf(l: Line, captain: int): int {
    if l.captain then captain else 1
  }

  ghost predicate Multiplied(held: seq<Held>, captain: int) {
    forall i :: 0 <= i < |held| ==> held[i].multiplier == MultiplierOf(held[i].line, captain)
  }

  function Multiply(p: Pick, captain: int): Pick {
    p.(held := p.held.(multiplier := MultiplierOf(p.held.line, captain)))
  }

  // applyCaptainMultiplier
  function ApplyMultiplier(picks: seq<Pick>, captain: int): (r: seq<Pick>)
  {
    seq(|picks|, i requires 0 <= i < |picks| => Multiply(picks[i], captain))
  }

  // ----- Saving a squad -------------------------------------------------------------------------

  // Only the picks of requested players survive.
  function Kept(picks: seq<Pick>, players: set<Id>): seq<Pick> {
    if picks == [] then []
    else (if PlayerOf(picks[0]) in players then [picks[0]] else []) + Kept(picks[1..], players)
  }

  function NewPick(id: Id, l: Line, captain: int, players: Catalog): Pick
    requires l.player in players
  {
    var p := players[l.player];
    Pick(id, Some(p.position), Held(l, MultiplierOf(l, captain), p.price, p.price, Some(0)))
  }

  function Relined(p: Pick, l: Line, captain: int): Pick {
    p.(held := p.held.(line := l, multiplier := MultiplierOf(l, captain)))
  }

  // One line of the request updates the pick of its player, or adds one bought at the current price.
  function SaveLine(picks: seq<Pick>, l: Line, captain: int, players: Catalog, id: Id): seq<Pick>
    requires l.player in players
  {
    var i := Find(picks, l.player);
    if i < |picks| then picks[i := Relined(picks[i], l, captain)] else picks + [NewPick(id, l, captain, players)]
  }

  predicate AllListed(lines: seq<Line>, players: Catalog) {
    forall i :: 0 <= i < |lines| ==> lines[i].player in players
  }

  // Ids for new picks are taken from `id` on, one per line.
  function SaveLines(picks: seq<Pick>, lines: seq<Line>, captain: int, players: Catalog, id: Id): seq<Pick>
    requires AllListed(lines, players)
  {
    if lines == [] then picks
    else
      var last := |lines| - 1;
      SaveLine(SaveLines(picks, lines[..last], captain, players, id), lines[last], captain, players, id + last)
  }

  function SavedSquad(picks: seq<Pick>, lines: seq<Line>, captain: int, players: Catalog, id: Id): seq<Pick>
    requires AllListed(lines, players)
  {
    SaveLines(Kept(picks, PlayerIds(lines)), lines, captain, players, id)
  }

  // The pick of a player, if any.
  function Of(picks: seq<Pick>, player: Id): Option<Pick> {
    var i := Find(picks, player);
    if i < |picks| then Some(picks[i]) else None
  }

  // What a line of the request is stored as, given the pick its player had before the save: a kept pick has its id,
  // prices and points, a new one is bought at the current price; the captain alone has the multiplier.
  ghost predicate StoredAs(after: Option<Pick>, l: Line, before: Option<Pick>, captain: int, players: Catalog) {
    && after.Some?
    && after.value.held.line == l && after.value.held.multiplier == (if l.captain then captain else 1)
    && match before
       case Some(was) =>
         && after.value.id == was.id && after.value.position == was.position
         && after.value.held.buyPrice == was.held.buyPrice && after.value.held.sellPrice == was.held.sellPrice
         && after.value.held.livePoints == was.held.livePoints
       case None =>
         && l.player in players && after.value.position == Some(players[l.player].position)
         && after.value.held.buyPrice == players[l.player].price == after.value.held.sellPrice
         && after.value.held.livePoints == Some(0)
  }

  lemma {:induction false} SaveLineFacts(picks: seq<Pick>, l: Line, captain: int, players: Catalog, id: Id, player: Id)
    requires l.player in players && DistinctPlayers(picks)
    ensures var r := SaveLine(picks, l, captain, players, id);
            && DistinctPlayers(r)
            && if player == l.player then StoredAs(Of(r, player), l, Of(picks, player), captain, players)
               else Of(r, player) == Of(picks, player)
  {
    var r, i := SaveLine(picks, l, captain, players, id), Find(picks, l.player);
    assert forall k :: 0 <= k < |picks| ==> PlayerOf(r[k]) == PlayerOf(picks[k]);
    assert i == |picks| ==> |r| == i + 1 && PlayerOf(r[i]) == l.player;
    var here, there := Find(picks, player), Find(r, player);
    if here < |picks| {
      assert PlayerOf(r[here]) == player;
      assert there < |picks| && PlayerOf(picks[there]) == player;
    }
  }

  ghost predicate OnePerPlayer(lines: seq<Line>) {
    forall i, j :: 0 <= i < j < |lines| ==> lines[i].player != lines[j].player
  }

  lemma {:induction false} SaveLinesMisses(picks: seq<Pick>, lines: seq<Line>, captain: int, players: Catalog, id: Id,
                                           player: Id)
    requires AllListed(lines, players) && DistinctPlayers(picks)
    requires forall j :: 0 <= j < |lines| ==> lines[j].player != player
    ensures Of(SaveLines(picks, lines, captain, players, id), player) == Of(picks, player)
  {
    if lines != [] {
      var last := |lines| - 1;
      SaveLinesMisses(picks, lines[..last], captain, players, id, player);
      SaveLinesDistinct(picks, lines[..last], captain, players, id);
      SaveLineFacts(SaveLines(picks, lines[..last], captain, players, id), lines[last], captain, players, id + last,
                    player);
    }
  }

  lemma {:induction false} SaveLinesDistinct(picks: seq<Pick>, lines: seq<Line>, captain: int, players: Catalog, id: Id)
    requires AllListed(lines, players) && DistinctPlayers(picks)
    ensures DistinctPlayers(SaveLines(picks, lines, captain, players, id))
  {
    if lines != [] {
      var last := |lines| - 1;
      SaveLinesDistinct(picks, lines[..last], captain, players, id);
      SaveLineFacts(SaveLines(picks, lines[..last], captain, players, id), lines[last], captain, players, id + last,
                    lines[last].player);
    }
  }

  lemma {:induction false} SaveLinesHits(picks: seq<Pick>, lines: seq<Line>, captain: int, players: Catalog, id: Id,
                                         j: nat)
    requires AllListed(lines, players) && DistinctPlayers(picks) && OnePerPlayer(lines) && j < |lines|
    ensures StoredAs(Of(SaveLines(picks, lines, captain, players, id), lines[j].player), lines[j],
                     Of(picks, lines[j].player), captain, players)
  {
    var last := |lines| - 1;
    var before, player := SaveLines(picks, lines[..last], captain, players, id), lines[j].player;
    SaveLinesDistinct(picks, lines[..last], captain, players, id);
    SaveLineFacts(before, lines[last], captain, players, id + last, player);
    if j == last {
      SaveLinesMisses(picks, lines[..last], captain, players, id, player);
    } else {
      SaveLinesHits(picks, lines[..last], captain, players, id, j);
      assert Of(SaveLines(picks, lines, captain, players, id), player) == Of(before, player);
    }
  }

  lemma {:induction false} KeptFacts(picks: seq<Pick>, players: set<Id>)
    requires DistinctPlayers(picks)
    ensures DistinctPlayers(Kept(picks, players))
    ensures forall p :: p in Kept(picks, players) <==> p in picks && PlayerOf(p) in players
  {
    if picks != [] {
      KeptFacts(picks[1..], players);
    }
  }

  lemma {:induction false} OfMember(picks: seq<Pick>, p: Pick)
    requires p in picks && DistinctPlayers(picks)
    ensures Of(picks, PlayerOf(p)) == Some(p)
  {
    var i :| 0 <= i < |picks| && picks[i] == p;
  }

  lemma {:induction false} OfKept(picks: seq<Pick>, players: set<Id>, player: Id)
    requires DistinctPlayers(picks)
    ensures Of(Kept(picks, players), player) == if player in players then Of(picks, player) else None
  {
    KeptFacts(picks, players);
    var kept := Kept(picks, players);
    var here := Of(kept, player);
    if here.Some? {
      assert here.value in kept;
      OfMember(picks, here.value);
    } else if player in players && Of(picks, player).Some? {
      OfMember(kept, Of(picks, player).value);
    }
  }

  lemma {:induction false} MultisetOfDistinct(lines: seq<Line>, l: Line)
    requires OnePerPlayer(lines)
    ensures multiset(lines)[l] == if l in lines then 1 else 0
  {
    if lines != [] {
      MultisetOfDistinct(lines[1..], l);
      assert lines == [lines[0]] + lines[1..];
    }
  }

  // A save stores exactly the requested lines, one pick each; a kept player keeps his pick with its prices and
  // points, a new one is bought at the current price.
  lemma {:induction false} SaveStoresRequest(picks: seq<Pick>, lines: seq<Line>, captain: int, players: Catalog, id: Id)
    requires AllListed(lines, players) && DistinctPlayers(picks) && OnePerPlayer(lines)
    ensures var r := SavedSquad(picks, lines, captain, players, id);
            && DistinctPlayers(r)
            && multiset(LinesOf(r)) == multiset(lines)
            && forall j :: 0 <= j < |lines| ==>
                 StoredAs(Of(r, lines[j].player), lines[j], Of(picks, lines[j].player), captain, players)
  {
    var ids := PlayerIds(lines);
    var kept, r := Kept(picks, ids), SavedSquad(picks, lines, captain, players, id);
    KeptFacts(picks, ids);
    SaveLinesDistinct(kept, lines, captain, players, id);
    forall j | 0 <= j < |lines|
      ensures StoredAs(Of(r, lines[j].player), lines[j], Of(picks, lines[j].player), captain, players)
    {
      OfKept(picks, ids, lines[j].player);
      SaveLinesHits(kept, lines, captain, players, id, j);
    }
    forall player | forall j :: 0 <= j < |lines| ==> lines[j].player != player
      ensures Of(r, player) == None
    {
      OfKept(picks, ids, player);
      SaveLinesMisses(kept, lines, captain, players, id, player);
    }
    SameLines(r, lines);
  }

  lemma {:induction false} SameLines(r: seq<Pick>, lines: seq<Line>)
    requires DistinctPlayers(r) && OnePerPlayer(lines)
    requires forall j :: 0 <= j < |lines| ==>
      Of(r, lines[j].player).Some? && Of(r, lines[j].player).value.held.line == lines[j]
    requires forall player :: (forall j :: 0 <= j < |lines| ==> lines[j].player != player) ==> Of(r, player) == None
    ensures multiset(LinesOf(r)) == multiset(lines)
  {
    forall l
      ensures multiset(LinesOf(r))[l] == multiset(lines)[l]
    {
      MultisetOfDistinct(LinesOf(r), l);
      MultisetOfDistinct(lines, l);
      if l in lines {
        var j :| 0 <= j < |lines| && lines[j] == l;
        var i := Find(r, l.player);
        assert LinesOf(r)[i] == l;
      }
      if l in LinesOf(r) {
        var i :| 0 <= i < |r| && LinesOf(r)[i] == l;
        OfMember(r, r[i]);
        var j :| 0 <= j < |lines| && lines[j].player == l.player;
        assert lines[j] == l;
      }
    }
  }

  // ----- Transfers --------------------------------------------------------------------------------

  // The picks after the player at i was replaced.
  function Replaced(picks: seq<Pick>, i: nat, incoming: Id, players: Catalog): seq<Pick>
    requires i < |picks| && incoming in players
  {
    var p := players[incoming];
    picks[i := Pick(picks[i].id, Some(p.position),
                    picks[i].held.(line := picks[i].held.line.(player := incoming), buyPrice := p.price,
                                   sellPrice := p.price))]
  }

  // The checks of prepareTransferMutation, in order.
  function CheckTransfer(picks: seq<Pick>, budget: int, incoming: Id, outgoing: Id, players: Catalog): Verdict {
    var i := Find(picks, outgoing);
    if incoming == outgoing then Some(SamePlayer)
    else if i == |picks| then Some(OutgoingNotOwned)
    else if incoming !in players then Some(IncomingNotFound)
    else if Find(picks, incoming) < |picks| then Some(IncomingOwned)
    else
      var slot := if outgoing in players then Some(players[outgoing].position) else picks[i].position;
      var next := LinesOf(Replaced(picks, i, incoming, players));
      if slot.None? then Some(NoPosition)
      else if players[incoming].position != slot.value then Some(OtherPosition)
      else if exists p :: Count(next, At(p), players) != Quota(p) then Some(SquadQuota)
      else if OverClubLimit(next, players) then Some(ClubLimit)
      else if Projected(picks, i, budget, incoming, players) < 0 then Some(NoBudget)
      else None
  }

  function Projected(picks: seq<Pick>, i: nat, budget: int, incoming: Id, players: Catalog): int
    requires i < |picks| && incoming in players
  {
    budget + picks[i].held.sellPrice - players[incoming].price
  }

  // What the squad could be sold for.
  function Worth(picks: seq<Pick>): int {
    if picks == [] then 0 else Worth(picks[..|picks| - 1]) + picks[|picks| - 1].held.sellPrice
  }

  lemma {:induction false} WorthUpdate(picks: seq<Pick>, i: nat, p: Pick)
    requires i < |picks|
    ensures Worth(picks[i := p]) == Worth(picks) - picks[i].held.sellPrice + p.held.sellPrice
  {
    var last := |picks| - 1;
    if i < last {
      WorthUpdate(picks[..last], i, p);
      assert picks[i := p][..last] == picks[..last][i := p];
    } else {
      assert picks[i := p][..last] == picks[..last];
    }
  }

  // The features a transfer cannot touch: it changes the player of one line, not his position or role.
  lemma {:induction false} TransferKeepsCounts(picks: seq<Pick>, incoming: Id, outgoing: Id, players: Catalog,
                                               f: Feature)
    requires Find(picks, outgoing) < |picks| && outgoing in players && incoming in players
    requires players[incoming].position == players[outgoing].position
    requires !f.IsPlayer? && !f.OfClub?
    ensures Count(LinesOf(Replaced(picks, Find(picks, outgoing), incoming, players)), f, players)
         == Count(LinesOf(picks), f, players)
  {
    var i := Find(picks, outgoing);
    var l := picks[i].held.line.(player := incoming);
    assert LinesOf(Replaced(picks, i, incoming, players)) == LinesOf(picks)[i := l];
    CountUpdate(LinesOf(picks), i, l, f, players);
  }

  lemma {:induction false} TransferKeepsPlayersApart(picks: seq<Pick>, incoming: Id, outgoing: Id, players: Catalog,
                                                     id: Id)
    requires Find(picks, outgoing) < |picks| && Find(picks, incoming) == |picks| && incoming in players
    requires Count(LinesOf(picks), IsPlayer(id), players) <= 1
    ensures Count(LinesOf(Replaced(picks, Find(picks, outgoing), incoming, players)), IsPlayer(id), players) <= 1
  {
    var i := Find(picks, outgoing);
    var l := picks[i].held.line.(player := incoming);
    assert LinesOf(Replaced(picks, i, incoming, players)) == LinesOf(picks)[i := l];
    CountUpdate(LinesOf(picks), i, l, IsPlayer(id), players);
    if id == incoming {
      CountBound(LinesOf(picks), IsPlayer(id), players);
    }
  }

  lemma {:induction false} OfReplaced(picks: seq<Pick>, i: nat, p: Pick, player: Id)
    requires DistinctPlayers(picks) && i < |picks| && Find(picks, PlayerOf(p)) == |picks|
    ensures DistinctPlayers(picks[i := p])
    ensures Of(picks[i := p], player)
         == if player == PlayerOf(p) then Some(p) else if player == PlayerOf(picks[i]) then None else Of(picks, player)
  {
    var next := picks[i := p];
    assert forall k :: 0 <= k < |picks| && k != i ==> next[k] == picks[k] && PlayerOf(picks[k]) != PlayerOf(picks[i]);
    assert next[i] == p && forall k :: 0 <= k < |picks| ==> PlayerOf(picks[k]) != PlayerOf(p);
    var here, there := Find(picks, player), Find(next, player);
    if there < |picks| && there != i {
      assert PlayerOf(picks[there]) == player;
    }
    if here < |picks| && here != i {
      assert PlayerOf(next[here]) == player;
    }
  }

  // A transfer replaces the outgoing player, at the current price of the incoming one, and nobody else.
  lemma {:induction false} TransferReplacesOne(picks: seq<Pick>, budget: int, incoming: Id, outgoing: Id,
                                               players: Catalog, player: Id)
    requires DistinctPlayers(picks) && CheckTransfer(picks, budget, incoming, outgoing, players) == None
    ensures var was := Of(picks, outgoing);
            var next := Replaced(picks, Find(picks, outgoing), incoming, players);
            && was.Some? && |next| == |picks| && DistinctPlayers(next)
            && (player == incoming ==>
                  Of(next, player)
                  == Some(Pick(was.value.id, Some(players[incoming].position),
                               Held(was.value.held.line.(player := incoming), was.value.held.multiplier,
                                    players[incoming].price, players[incoming].price, was.value.held.livePoints))))
            && (player == outgoing ==> Of(next, player) == None)
            && (player != incoming && player != outgoing ==> Of(next, player) == Of(picks, player))
  {
    var i := Find(picks, outgoing);
    OfReplaced(picks, i, Replaced(picks, i, incoming, players)[i], player);
  }

  // How the club counts move: only the two clubs involved change.
  lemma {:induction false} TransferredClubs(picks: seq<Pick>, incoming: Id, outgoing: Id, players: Catalog)
    requires Find(picks, outgoing) < |picks| && outgoing in players && incoming in players
    requires players[incoming].position == players[outgoing].position
    requires Count(LinesOf(picks), Listed, players) == |picks|
    requires forall c :: Count(LinesOf(picks), OfClub(c), players) <= 3
    ensures var club := players[incoming].club;
            OverClubLimit(LinesOf(Replaced(picks, Find(picks, outgoing), incoming, players)), players)
            <==> club != players[outgoing].club && Count(LinesOf(picks), OfClub(club), players) == 3
  {
    var i := Find(picks, outgoing);
    var l := picks[i].held.line.(player := incoming);
    var next := LinesOf(Replaced(picks, i, incoming, players));
    assert next == LinesOf(picks)[i := l];
    TransferKeepsCounts(picks, incoming, outgoing, players, Listed);
    forall c
      ensures Count(next, OfClub(c), players) == Count(LinesOf(picks), OfClub(c), players)
              - (if players[outgoing].club == c then 1 else 0) + if players[incoming].club == c then 1 else 0
    {
      CountUpdate(LinesOf(picks), i, l, OfClub(c), players);
    }
    ClubLimitExact(next, players);
  }

  // A transfer out of a lawful squad is accepted exactly when the outgoing player is owned, the incoming one exists,
  // is not owned and plays in the same position, his club has room and the money suffices.
  lemma {:induction false} TransferAcceptedExactlyWhen(picks: seq<Pick>, budget: int, incoming: Id, outgoing: Id,
                                                       players: Catalog)
    requires Lawful(LinesOf(picks), players)
    ensures CheckTransfer(picks, budget, incoming, outgoing, players) == None
       <==> && Find(picks, outgoing) < |picks| && Find(picks, incoming) == |picks|
            && incoming in players && outgoing in players
            && players[incoming].position == players[outgoing].position
            && (players[incoming].club == players[outgoing].club
                || Count(LinesOf(picks), OfClub(players[incoming].club), players) < 3)
            && Projected(picks, Find(picks, outgoing), budget, incoming, players) >= 0
  {
    var i := Find(picks, outgoing);
    CountBound(LinesOf(picks), Listed, players);
    if i < |picks| && incoming in players {
      assert LinesOf(picks)[i].player == outgoing;
      if players[incoming].position == players[outgoing].position {
        forall p
          ensures Count(LinesOf(Replaced(picks, i, incoming, players)), At(p), players) == Quota(p)
        {
          TransferKeepsCounts(picks, incoming, outgoing, players, At(p));
        }
        TransferredClubs(picks, incoming, outgoing, players);
      }
    }
  }

  // An accepted transfer keeps the squad lawful and its formation, the budget non-negative, and budget plus sale
  // value of the squad constant.
  lemma {:induction false} TransferTheorem(picks: seq<Pick>, budget: int, incoming: Id, outgoing: Id, players: Catalog)
    requires Lawful(LinesOf(picks), players)
    requires CheckTransfer(picks, budget, incoming, outgoing, players) == None
    ensures var i := Find(picks, outgoing);
            var next := Replaced(picks, i, incoming, players);
            && Lawful(LinesOf(next), players)
            && (forall p :: Count(LinesOf(next), StarterAt(p), players) == Count(LinesOf(picks), StarterAt(p), players))
            && Projected(picks, i, budget, incoming, players) >= 0
            && Projected(picks, i, budget, incoming, players) + Worth(next) == budget + Worth(picks)
  {
    var i := Find(picks, outgoing);
    var next := Replaced(picks, i, incoming, players);
    CountBound(LinesOf(picks), Listed, players);
    assert LinesOf(picks)[i].player == outgoing;
    forall f: Feature | !f.IsPlayer? && !f.OfClub?
      ensures Count(LinesOf(next), f, players) == Count(LinesOf(picks), f, players)
    {
      TransferKeepsCounts(picks, incoming, outgoing, players, f);
    }
    forall id
      ensures Count(LinesOf(next), IsPlayer(id), players) <= 1
    {
      TransferKeepsPlayersApart(picks, incoming, outgoing, players, id);
    }
    ClubLimitExact(LinesOf(next), players);
    WorthUpdate(picks, i, next[i]);
  }
}
