/** Which rule a refused squad is told it breaks: the first one in the order of the checks, in numbers of lines. */
module SquadRefusals {
  import opened Wrappers
  import opened Average
  import opened Squads
  import opened LawfulSquads

  // ----- The request ----------------------------------------------------------------------------------------

  ghost predicate SamePlayerTwice(lines: seq<Line>) {
    exists i, j :: 0 <= i < j < |lines| && lines[i].player == lines[j].player
  }

  ghost predicate SameNumberTwice(lines: seq<Line>) {
    exists i, j :: 0 <= i < j < |lines| && lines[i].order == lines[j].order
  }

  function Captains(lines: seq<Line>): set<int> {
    set i | 0 <= i < |lines| && lines[i].captain
  }

  function Vices(lines: seq<Line>): set<int> {
    set i | 0 <= i < |lines| && lines[i].vice
  }

  function Starting(lines: seq<Line>): set<int> {
    set i | 0 <= i < |lines| && !lines[i].benched
  }

  lemma {:induction false} PlayersTwice(lines: seq<Line>, players: Catalog)
    ensures |PlayerIds(lines)| != |lines| <==> SamePlayerTwice(lines)
  {
    DistinctPlayersCounted(lines, players);
    PlayersApart(lines, players);
  }

  lemma {:induction false} DistinctValues(s: seq<int>)
    ensures |Values(s)| == |s| <==> forall i, j :: 0 <= i < j < |s| ==> s[i] != s[j]
  {
    SetOfSeq(s);
    if s != [] {
      var rest := s[1..];
      DistinctValues(rest);
      SetOfSeq(rest);
      assert Values(s) == Values(rest) + {s[0]};
      assert forall i :: 0 < i < |s| ==> s[i] == rest[i - 1];
    }
  }

  lemma {:induction false} NumbersTwice(lines: seq<Line>)
    ensures |Values(Orders(lines))| != |Orders(lines)| <==> SameNumberTwice(lines)
  {
    DistinctValues(Orders(lines));
    assert forall i :: 0 <= i < |lines| ==> Orders(lines)[i] == lines[i].order;
  }

  lemma {:induction false} NumberMissing(lines: seq<Line>, players: Catalog)
    requires |lines| == 15 && !SameNumberTwice(lines)
    ensures OneToFifteen(Orders(lines)) <==> forall k :: 1 <= k <= 15 ==> HoldsNumber(lines, k)
  {
    NumbersTwice(lines);
    SortedOneToFifteen(Orders(lines));
    forall k
      ensures k in Orders(lines) <==> HoldsNumber(lines, k)
    {
      NumberHeld(lines, players, k);
    }
  }

  lemma {:induction false} LeadersCounted(lines: seq<Line>, players: Catalog)
    ensures Count(lines, Captain, players) == |Captains(lines)| && Count(lines, Vice, players) == |Vices(lines)|
    ensures Count(lines, Starter, players) == |Starting(lines)|
  {
    CountIsSize(lines, Captain, players);
    CountIsSize(lines, Vice, players);
    CountIsSize(lines, Starter, players);
    assert Where(lines, Captain, players) == Captains(lines) && Where(lines, Vice, players) == Vices(lines);
    assert Where(lines, Starter, players) == Starting(lines);
  }

  lemma {:induction false} RolesFound(lines: seq<Line>, players: Catalog)
    ensures Count(lines, Dual, players) > 0 <==>
              exists i :: 0 <= i < |lines| && lines[i].captain && lines[i].vice
    ensures Count(lines, BenchedRole, players) > 0 <==>
              exists i :: 0 <= i < |lines| && lines[i].benched && (lines[i].captain || lines[i].vice)
  {
    CountBound(lines, Dual, players);
    CountBound(lines, BenchedRole, players);
    assert forall i :: 0 <= i < |lines| ==> (Has(lines[i], Dual, players) <==> lines[i].captain && lines[i].vice);
    assert forall i :: 0 <= i < |lines| ==>
      (Has(lines[i], BenchedRole, players) <==> lines[i].benched && (lines[i].captain || lines[i].vice));
  }

  // The answer to the request alone. The check of the bench refuses nothing that the check of the starters passed.
  lemma {:induction false} RequestAnswered(lines: seq<Line>, players: Catalog)
    ensures ValidateRequest(lines, players)
         == if |lines| != 15 then Some(NotFifteen)
            else if SamePlayerTwice(lines) then Some(DuplicatePlayers)
            else if |Captains(lines)| != 1 then Some(CaptainCount)
            else if |Vices(lines)| != 1 then Some(ViceCount)
            else if exists i :: 0 <= i < |lines| && lines[i].captain && lines[i].vice then Some(DualRole)
            else if SameNumberTwice(lines) then Some(DuplicateOrders)
            else if exists k :: 1 <= k <= 15 && !HoldsNumber(lines, k) then Some(OrdersNotOneToFifteen)
            else if |Starting(lines)| != 11 then Some(StarterCount)
            else if exists i :: 0 <= i < |lines| && lines[i].benched && (lines[i].captain || lines[i].vice)
            then Some(RoleOnBench)
            else None
  {
    PlayersTwice(lines, players);
    LeadersCounted(lines, players);
    RolesFound(lines, players);
    NumbersTwice(lines);
    if |lines| == 15 && !SameNumberTwice(lines) {
      NumberMissing(lines, players);
    }
  }

  // ----- The squad ------------------------------------------------------------------------------------------

  ghost predicate Quotas(lines: seq<Line>, players: Catalog) {
    && |LinesAt(lines, Goalkeeper, players)| == 2 && |LinesAt(lines, Defender, players)| == 5
    && |LinesAt(lines, Midfielder, players)| == 5 && |LinesAt(lines, Forward, players)| == 3
  }

  lemma {:induction false} StrangersFound(lines: seq<Line>, players: Catalog)
    ensures Count(lines, Listed, players) != |lines| <==>
              exists i :: 0 <= i < |lines| && lines[i].player !in players
  {
    CountBound(lines, Listed, players);
    assert forall i :: 0 <= i < |lines| ==> (Has(lines[i], Listed, players) <==> lines[i].player in players);
  }

  lemma {:induction false} CrowdedClub(lines: seq<Line>, players: Catalog)
    requires Count(lines, Listed, players) == |lines|
    ensures OverClubLimit(lines, players) <==> exists c :: |LinesOfClub(lines, c, players)| > 3
  {
    ClubLimitExact(lines, players);
    forall c
      ensures Count(lines, OfClub(c), players) == |LinesOfClub(lines, c, players)|
    {
      ClubsCounted(lines, c, players);
    }
  }

  // The answer on the eleven of a complete squad. The list of formations and both checks of the bench refuse nothing
  // that came so far.
  lemma {:induction false} ElevenAnswered(lines: seq<Line>, players: Catalog)
    requires |Starting(lines)| == 11 && Quotas(lines, players)
    requires forall i :: 0 <= i < |lines| ==> lines[i].player in players
    ensures ValidateEleven(lines, players)
         == if |StartersAt(lines, Goalkeeper, players)| != 1 then Some(StarterGoalkeeper)
            else if !(3 <= |StartersAt(lines, Defender, players)| <= 5) then Some(StarterDefenders)
            else if !(2 <= |StartersAt(lines, Midfielder, players)| <= 5) then Some(StarterMidfielders)
            else if !(1 <= |StartersAt(lines, Forward, players)| <= 3) then Some(StarterForwards)
            else None
  {
    LeadersCounted(lines, players);
    PositionsCounted(lines, Goalkeeper, players);
    PositionsCounted(lines, Defender, players);
    PositionsCounted(lines, Midfielder, players);
    PositionsCounted(lines, Forward, players);
    ElevenAddsUp(lines, players);
    FormationsAreAll(|StartersAt(lines, Defender, players)|, |StartersAt(lines, Midfielder, players)|,
                     |StartersAt(lines, Forward, players)|);
  }

  // The answer on the players of a request with eleven starters: the first rule that is broken.
  lemma {:induction false} SquadAnswered(lines: seq<Line>, players: Catalog)
    requires |Starting(lines)| == 11
    ensures ValidateSquad(lines, players)
         == if exists i :: 0 <= i < |lines| && lines[i].player !in players then Some(PlayerNotFound)
            else if !Quotas(lines, players) then Some(SquadQuota)
            else if exists c :: |LinesOfClub(lines, c, players)| > 3 then Some(ClubLimit)
            else if SumOf(PricesOf(lines, players)) > 10000 then Some(ValueLimit)
            else if |StartersAt(lines, Goalkeeper, players)| != 1 then Some(StarterGoalkeeper)
            else if !(3 <= |StartersAt(lines, Defender, players)| <= 5) then Some(StarterDefenders)
            else if !(2 <= |StartersAt(lines, Midfielder, players)| <= 5) then Some(StarterMidfielders)
            else if !(1 <= |StartersAt(lines, Forward, players)| <= 3) then Some(StarterForwards)
            else None
  {
    StrangersFound(lines, players);
    QuotasCounted(lines, players);
    ValueAddsUp(lines, players);
    if Count(lines, Listed, players) == |lines| {
      CrowdedClub(lines, players);
      if Quotas(lines, players) {
        ElevenAnswered(lines, players);
      }
    }
  }

  // Four of the checks can never be what a manager is told.
  lemma {:induction false} NeverAnswered(lines: seq<Line>, players: Catalog)
    ensures ValidatePicks(lines, players)
            !in {Some(BenchCount), Some(Formation), Some(BenchGoalkeeper), Some(BenchOutfield)}
  {
    RequestAnswered(lines, players);
    if ValidateRequest(lines, players) == None {
      SquadAnswered(lines, players);
    }
  }
}
