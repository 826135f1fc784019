/** A squad picked line by line: goalkeepers, defenders, midfielders and forwards, under one limit per club.

    Each line is a cheapest one after the lines before it. The four calls succeed exactly when, counted club by club,
    every list has enough openings after the lines before it - as it has when its players come from enough clubs. */
module SquadLines {
  import opened Wrappers
  import opened StableSort
  import opened SquadPick

  function InPosition(position: Position): Player -> bool {
    (p: Player) => p.position == position
  }

  function LineOf(allPlayers: seq<Player>, position: Position): seq<Player> {
    SortPlayers(Filter(allPlayers, InPosition(position)))
  }

  lemma {:induction false} FilterIsPart(players: seq<Player>, keep: Player -> bool)
    ensures multiset(Filter(players, keep)) <= multiset(players)
  {
    if players != [] {
      FilterIsPart(players[1..], keep);
      assert players == [players[0]] + players[1..];
    }
  }

  // ----- A line after the lines picked before it ---------------------------------------------------

  // A selection of a line that respects the club limit together with the players picked before.
  ghost predicate Fits(allPlayers: seq<Player>, position: Position, count: nat, mask: Mask, earlier: seq<Player>) {
    var line := LineOf(allPlayers, position);
    && |mask| == |line| && Size(mask) == count
    && forall club :: ClubSize(line, mask, club) + ClubCount(earlier, club) <= MAX_PER_CLUB
  }

  // These players are such a selection, and none is cheaper.
  ghost predicate CheapestAfter(allPlayers: seq<Player>, position: Position, count: nat, picks: seq<Player>,
                                earlier: seq<Player>) {
    var line := LineOf(allPlayers, position);
    exists mask ::
      && Fits(allPlayers, position, count, mask, earlier) && picks == Picked(line, mask)
      && forall t :: Fits(allPlayers, position, count, t, earlier) ==> Cost(line, mask) <= Cost(line, t)
  }

  ghost predicate NoLineAfter(allPlayers: seq<Player>, position: Position, count: nat, earlier: seq<Player>) {
    forall mask :: !Fits(allPlayers, position, count, mask, earlier)
  }

  ghost predicate CountsMatch(teamCounts: map<Id, int>, earlier: seq<Player>) {
    forall club :: CountOf(teamCounts, club) == ClubCount(earlier, club) <= MAX_PER_CLUB
  }

  lemma {:induction false} FitsIsFeasible(allPlayers: seq<Player>, position: Position, count: nat, mask: Mask,
                                          earlier: seq<Player>, teamCounts: map<Id, int>)
    requires CountsMatch(teamCounts, earlier)
    ensures Fits(allPlayers, position, count, mask, earlier)
       <==> Feasible(LineOf(allPlayers, position), mask, count, teamCounts)
  {
    if |mask| == |LineOf(allPlayers, position)| {
      forall club
        ensures ClubSize(LineOf(allPlayers, position), mask, club) + ClubCount(earlier, club) <= MAX_PER_CLUB
           <==> ClubSize(LineOf(allPlayers, position), mask, club) <= Room(teamCounts, club)
      {
        assert CountOf(teamCounts, club) == ClubCount(earlier, club);
      }
    }
  }

  // What a call of the selection means for the squad, whether it succeeds or fails.
  lemma {:induction false} LineAfter(allPlayers: seq<Player>, position: Position, count: nat, before: map<Id, int>,
                                     after: map<Id, int>, r: Result<seq<Player>, string>, mask: Mask,
                                     earlier: seq<Player>)
    requires CountsMatch(before, earlier) && Outcome(LineOf(allPlayers, position), count, before, after, r, mask)
    ensures r.Ok? ==>
      CheapestAfter(allPlayers, position, count, r.value, earlier) && CountsMatch(after, earlier + r.value)
    ensures r.Err? ==> NoLineAfter(allPlayers, position, count, earlier)
  {
    var line := LineOf(allPlayers, position);
    forall t
      ensures Fits(allPlayers, position, count, t, earlier) <==> Feasible(line, t, count, before)
    {
      FitsIsFeasible(allPlayers, position, count, t, earlier, before);
    }
    SortPlayersSortsByPrice(Filter(allPlayers, InPosition(position)));
    if r.Ok? {
      assert Fits(allPlayers, position, count, mask, earlier);
      forall club
        ensures CountOf(after, club) == ClubCount(earlier + r.value, club) <= MAX_PER_CLUB
      {
        PickedFacts(line, mask, club);
        ClubCountAppend(earlier, r.value, club);
        assert CountOf(before, club) == ClubCount(earlier, club);
      }
    }
  }

  // Players of the list, of the position, each at most as often as listed, and the limit kept.
  lemma {:induction false} LineFacts(allPlayers: seq<Player>, position: Position, count: nat, picks: seq<Player>,
                                     earlier: seq<Player>)
    requires CheapestAfter(allPlayers, position, count, picks, earlier)
    ensures |picks| == count && multiset(picks) <= multiset(allPlayers)
    ensures forall p :: p in picks ==> p.position == position
    ensures forall club :: ClubCount(earlier + picks, club) <= MAX_PER_CLUB
  {
    var line := LineOf(allPlayers, position);
    var mask :| Fits(allPlayers, position, count, mask, earlier) && picks == Picked(line, mask);
    PickedFacts(line, mask, 0);
    assert line[..|mask|] == line;
    SortPlayersSortsByPrice(Filter(allPlayers, InPosition(position)));
    FilterIsPart(allPlayers, InPosition(position));
    FilterMembers(allPlayers, InPosition(position));
    forall p | p in picks
      ensures p.position == position
    {
      assert p in multiset(picks) && p in multiset(line) && p in multiset(Filter(allPlayers, InPosition(position)));
    }
    forall club
      ensures ClubCount(earlier + picks, club) <= MAX_PER_CLUB
    {
      PickedFacts(line, mask, club);
      ClubCountAppend(earlier, picks, club);
    }
  }

  ghost predicate OfPosition(players: seq<Player>, position: Position) {
    forall p :: p in players ==> p.position == position
  }

  // 2 goalkeepers, 5 defenders, 5 midfielders and 3 forwards of the list, nobody more often than he is listed, at most
  // three of a club.
  ghost predicate ValidSquad(allPlayers: seq<Player>, g: seq<Player>, d: seq<Player>, m: seq<Player>, f: seq<Player>) {
    && |g| == 2 && |d| == 5 && |m| == 5 && |f| == 3
    && OfPosition(g, Goalkeeper) && OfPosition(d, Defender) && OfPosition(m, Midfielder) && OfPosition(f, Forward)
    && multiset(g + d + m + f) <= multiset(allPlayers)
    && (forall club :: ClubCount(g + d + m + f, club) <= 3)
  }

  // Each line is a cheapest one that fits the lines before it.
  ghost predicate LineByLine(allPlayers: seq<Player>, g: seq<Player>, d: seq<Player>, m: seq<Player>, f: seq<Player>) {
    && CheapestAfter(allPlayers, Goalkeeper, 2, g, []) && CheapestAfter(allPlayers, Defender, 5, d, g)
    && CheapestAfter(allPlayers, Midfielder, 5, m, g + d) && CheapestAfter(allPlayers, Forward, 3, f, g + d + m)
  }

  // After cheapest lines so far, no selection of the next line fits.
  ghost predicate Stuck(allPlayers: seq<Player>, g: seq<Player>, d: seq<Player>, m: seq<Player>) {
    || NoLineAfter(allPlayers, Goalkeeper, 2, [])
    || (CheapestAfter(allPlayers, Goalkeeper, 2, g, [])
        && (|| NoLineAfter(allPlayers, Defender, 5, g)
            || (CheapestAfter(allPlayers, Defender, 5, d, g)
                && (|| NoLineAfter(allPlayers, Midfielder, 5, g + d)
                    || (CheapestAfter(allPlayers, Midfielder, 5, m, g + d)
                        && NoLineAfter(allPlayers, Forward, 3, g + d + m))))))
  }

  lemma {:induction false} LinesMakeASquad(allPlayers: seq<Player>, g: seq<Player>, d: seq<Player>, m: seq<Player>,
                                           f: seq<Player>)
    requires LineByLine(allPlayers, g, d, m, f)
    ensures ValidSquad(allPlayers, g, d, m, f)
  {
    LineFacts(allPlayers, Goalkeeper, 2, g, []);
    LineFacts(allPlayers, Defender, 5, d, g);
    LineFacts(allPlayers, Midfielder, 5, m, g + d);
    LineFacts(allPlayers, Forward, 3, f, g + d + m);
    LinesAreApart(allPlayers, g, d, m, f);
  }

  // Lines of different positions share nobody.
  lemma {:induction false} LinesAreApart(allPlayers: seq<Player>, g: seq<Player>, d: seq<Player>, m: seq<Player>,
                                         f: seq<Player>)
    requires OfPosition(g, Goalkeeper) && OfPosition(d, Defender) && OfPosition(m, Midfielder) && OfPosition(f, Forward)
    requires multiset(g) <= multiset(allPlayers) && multiset(d) <= multiset(allPlayers)
    requires multiset(m) <= multiset(allPlayers) && multiset(f) <= multiset(allPlayers)
    ensures multiset(g + d + m + f) <= multiset(allPlayers)
  {
    forall p
      ensures multiset(g + d + m + f)[p] <= multiset(allPlayers)[p]
    {
      assert multiset(g + d + m + f)[p] == multiset(g)[p] + multiset(d)[p] + multiset(m)[p] + multiset(f)[p];
      assert p !in g ==> multiset(g)[p] == 0;
      assert p !in d ==> multiset(d)[p] == 0;
      assert p !in m ==> multiset(m)[p] == 0;
      assert p !in f ==> multiset(f)[p] == 0;
    }
  }

  // ----- When the four lines are found -------------------------------------------------------------

  // The club counts once these players were picked.
  function CountsOf(picks: seq<Player>): map<Id, int> {
    if picks == [] then map[]
    else
      var before, club := CountsOf(picks[..|picks| - 1]), picks[|picks| - 1].club;
      before[club := CountOf(before, club) + 1]
  }

  lemma {:induction false} CountsOfCounts(picks: seq<Player>, club: Id)
    ensures CountOf(CountsOf(picks), club) == ClubCount(picks, club)
  {
    if picks != [] {
      CountsOfCounts(picks[..|picks| - 1], club);
    }
  }

  // The line that follows the earlier picks, and how many players the clubs of its list can still give.
  function NextLine(allPlayers: seq<Player>, position: Position, count: nat, earlier: seq<Player>): seq<Player> {
    Taken(LineOf(allPlayers, position), CountsOf(earlier), count)
  }

  function OpeningsAfter(allPlayers: seq<Player>, position: Position, earlier: seq<Player>): nat {
    Openings(LineOf(allPlayers, position), CountsOf(earlier))
  }

  // Counted club by club, each list has enough openings after the lines before it.
  predicate Completes(allPlayers: seq<Player>) {
    var g := NextLine(allPlayers, Goalkeeper, 2, []);
    var d := NextLine(allPlayers, Defender, 5, g);
    var m := NextLine(allPlayers, Midfielder, 5, g + d);
    && OpeningsAfter(allPlayers, Goalkeeper, []) >= 2 && OpeningsAfter(allPlayers, Defender, g) >= 5
    && OpeningsAfter(allPlayers, Midfielder, g + d) >= 5 && OpeningsAfter(allPlayers, Forward, g + d + m) >= 3
  }

  lemma {:induction false} SameGreedy(players: seq<Player>, a: map<Id, int>, b: map<Id, int>, n: nat)
    requires n <= |players| && forall club :: CountOf(a, club) == CountOf(b, club)
    ensures Greedy(players, a, n) == Greedy(players, b, n)
  {
    if n > 0 {
      SameGreedy(players, a, b, n - 1);
      assert CountOf(a, players[n - 1].club) == CountOf(b, players[n - 1].club);
    }
  }

  lemma {:induction false} SameSelection(players: seq<Player>, count: nat, teamCounts: map<Id, int>,
                                         earlier: seq<Player>)
    requires CountsMatch(teamCounts, earlier)
    ensures Openings(players, teamCounts) == Openings(players, CountsOf(earlier))
    ensures Taken(players, teamCounts, count) == Taken(players, CountsOf(earlier), count)
  {
    forall club
      ensures CountOf(teamCounts, club) == CountOf(CountsOf(earlier), club)
    {
      CountsOfCounts(earlier, club);
      assert CountOf(teamCounts, club) == ClubCount(earlier, club);
    }
    SameGreedy(players, teamCounts, CountsOf(earlier), |players|);
    GreedySize(players, teamCounts);
    GreedySize(players, CountsOf(earlier));
  }

  // After any earlier picks a line fits exactly when there are openings for it.
  lemma {:induction false} FitsExactlyWhen(allPlayers: seq<Player>, position: Position, count: nat,
                                           earlier: seq<Player>)
    requires forall club :: ClubCount(earlier, club) <= MAX_PER_CLUB
    ensures NoLineAfter(allPlayers, position, count, earlier) <==> OpeningsAfter(allPlayers, position, earlier) < count
  {
    var line, counts := LineOf(allPlayers, position), CountsOf(earlier);
    forall club
      ensures CountOf(counts, club) == ClubCount(earlier, club)
    {
      CountsOfCounts(earlier, club);
    }
    forall mask
      ensures Fits(allPlayers, position, count, mask, earlier) <==> Feasible(line, mask, count, counts)
    {
      FitsIsFeasible(allPlayers, position, count, mask, earlier, counts);
    }
    FeasibleExactlyWhen(line, count, counts);
  }

  // ----- Enough clubs are enough -------------------------------------------------------------------

  function ClubsAt(allPlayers: seq<Player>, position: Position): set<Id> {
    set i | 0 <= i < |allPlayers| && allPlayers[i].position == position :: allPlayers[i].club
  }

  // The listed players come from this many clubs, whatever they cost.
  predicate EnoughClubs(allPlayers: seq<Player>) {
    && |ClubsAt(allPlayers, Goalkeeper)| >= 2 && |ClubsAt(allPlayers, Defender)| >= 5
    && |ClubsAt(allPlayers, Midfielder)| >= 7 && |ClubsAt(allPlayers, Forward)| >= 7
  }

  function Members(clubs: seq<Id>): set<Id> {
    set club | club in clubs
  }

  lemma {:induction false} DistinctSize(clubs: seq<Id>)
    requires Distinct(clubs)
    ensures |Members(clubs)| == |clubs|
  {
    if clubs != [] {
      var front, last := clubs[..|clubs| - 1], clubs[|clubs| - 1];
      DistinctSize(front);
      assert clubs == front + [last] && last !in front;
      assert Members(clubs) == Members(front) + {last};
    }
  }

  lemma {:induction false} LineMembers(allPlayers: seq<Player>, position: Position, p: Player)
    ensures p in LineOf(allPlayers, position) <==> p in allPlayers && p.position == position
  {
    var line, listed := LineOf(allPlayers, position), Filter(allPlayers, InPosition(position));
    FilterMembers(allPlayers, InPosition(position));
    SortPlayersSortsByPrice(listed);
    assert p in line <==> p in multiset(line);
    assert p in listed <==> p in multiset(listed);
    if p in allPlayers && p.position == position {
      var i :| 0 <= i < |allPlayers| && allPlayers[i] == p;
      assert InPosition(position)(allPlayers[i]);
    }
  }

  lemma {:induction false} ClubOfLine(allPlayers: seq<Player>, position: Position, club: Id)
    ensures club in Clubs(LineOf(allPlayers, position)) <==> club in ClubsAt(allPlayers, position)
  {
    var line := LineOf(allPlayers, position);
    ClubsFacts(line);
    if club in Clubs(line) {
      var i :| 0 <= i < |line| && line[i].club == club;
      LineMembers(allPlayers, position, line[i]);
      var k :| 0 <= k < |allPlayers| && allPlayers[k] == line[i];
    }
    if club in ClubsAt(allPlayers, position) {
      var k :| 0 <= k < |allPlayers| && allPlayers[k].position == position && allPlayers[k].club == club;
      LineMembers(allPlayers, position, allPlayers[k]);
      var i :| 0 <= i < |line| && line[i] == allPlayers[k];
    }
  }

  lemma {:induction false} ClubsOfLine(allPlayers: seq<Player>, position: Position)
    ensures |Clubs(LineOf(allPlayers, position))| == |ClubsAt(allPlayers, position)|
  {
    var clubs := Clubs(LineOf(allPlayers, position));
    forall club
      ensures club in clubs <==> club in ClubsAt(allPlayers, position)
    {
      ClubOfLine(allPlayers, position, club);
    }
    assert ClubsAt(allPlayers, position) == Members(clubs);
    ClubsFacts(LineOf(allPlayers, position));
    DistinctSize(clubs);
  }

  function CountIn(clubs: seq<Id>, picks: seq<Player>): nat {
    if clubs == [] then 0 else CountIn(clubs[..|clubs| - 1], picks) + ClubCount(picks, clubs[|clubs| - 1])
  }

  lemma {:induction false} CountInStep(clubs: seq<Id>, picks: seq<Player>)
    requires Distinct(clubs) && picks != []
    ensures CountIn(clubs, picks) == CountIn(clubs, picks[..|picks| - 1]) + Bit(picks[|picks| - 1].club in clubs)
  {
    if clubs != [] {
      var front := clubs[..|clubs| - 1];
      CountInStep(front, picks);
      assert clubs == front + [clubs[|clubs| - 1]];
      assert clubs[|clubs| - 1] !in front;
    }
  }

  // Different clubs hold different players.
  lemma {:induction false} CountInBound(clubs: seq<Id>, picks: seq<Player>)
    requires Distinct(clubs)
    ensures CountIn(clubs, picks) <= |picks|
  {
    if picks != [] {
      CountInBound(clubs, picks[..|picks| - 1]);
      CountInStep(clubs, picks);
    } else if clubs != [] {
      CountInBound(clubs[..|clubs| - 1], picks);
    }
  }

  // A club that is not full has an opening, and it takes three players to fill one.
  lemma {:induction false} OpenUnlessFull(clubs: seq<Id>, line: seq<Player>, earlier: seq<Player>)
    requires forall club :: ClubCount(earlier, club) <= MAX_PER_CLUB
    requires forall club :: club in clubs ==> ClubCount(line, club) >= 1
    ensures MAX_PER_CLUB * OpenIn(clubs, line, CountsOf(earlier)) >= MAX_PER_CLUB * |clubs| - CountIn(clubs, earlier)
  {
    if clubs != [] {
      var front, club := clubs[..|clubs| - 1], clubs[|clubs| - 1];
      assert clubs == front + [club];
      OpenUnlessFull(front, line, earlier);
      CountsOfCounts(earlier, club);
      assert ClubCount(earlier, club) <= MAX_PER_CLUB;
    }
  }

  lemma {:induction false} ListedClubCounts(line: seq<Player>, i: nat)
    requires i < |line|
    ensures ClubCount(line, line[i].club) >= 1
  {
    if i < |line| - 1 {
      ListedClubCounts(line[..|line| - 1], i);
    }
  }

  // k earlier picks close at most k / 3 of the clubs that list players of a position.
  lemma {:induction false} OpeningsBound(allPlayers: seq<Player>, position: Position, earlier: seq<Player>)
    requires forall club :: ClubCount(earlier, club) <= MAX_PER_CLUB
    ensures MAX_PER_CLUB * OpeningsAfter(allPlayers, position, earlier)
         >= MAX_PER_CLUB * |ClubsAt(allPlayers, position)| - |earlier|
  {
    var line := LineOf(allPlayers, position);
    ClubsOfLine(allPlayers, position);
    ClubsFacts(line);
    forall club | club in Clubs(line)
      ensures ClubCount(line, club) >= 1
    {
      var i :| 0 <= i < |line| && line[i].club == club;
      ListedClubCounts(line, i);
    }
    OpenUnlessFull(Clubs(line), line, earlier);
    CountInBound(Clubs(line), earlier);
  }

  lemma {:induction false} NextLineFits(allPlayers: seq<Player>, position: Position, count: nat, earlier: seq<Player>)
    requires forall club :: ClubCount(earlier, club) <= MAX_PER_CLUB
    requires OpeningsAfter(allPlayers, position, earlier) >= count
    ensures |NextLine(allPlayers, position, count, earlier)| == count
    ensures forall club :: ClubCount(earlier + NextLine(allPlayers, position, count, earlier), club) <= MAX_PER_CLUB
  {
    var line, counts := LineOf(allPlayers, position), CountsOf(earlier);
    var next := NextLine(allPlayers, position, count, earlier);
    GreedySize(line, counts);
    var stop := StopFor(line, counts, count, |line|);
    PickedFacts(line, Greedy(line, counts, stop), 0);
    TakenAtStop(line, counts, stop, count);
    forall club
      ensures ClubCount(earlier + next, club) <= MAX_PER_CLUB
    {
      PickedFacts(line, Greedy(line, counts, stop), club);
      GreedyWithinRoom(line, counts, stop, club);
      CountsOfCounts(earlier, club);
      ClubCountAppend(earlier, next, club);
      assert ClubCount(earlier, club) <= MAX_PER_CLUB;
    }
  }

  // Goalkeepers of two clubs, defenders of five, midfielders of seven and forwards of seven are enough.
  lemma {:induction false} EnoughClubsComplete(allPlayers: seq<Player>)
    requires EnoughClubs(allPlayers)
    ensures Completes(allPlayers)
  {
    var g := NextLine(allPlayers, Goalkeeper, 2, []);
    var d := NextLine(allPlayers, Defender, 5, g);
    var m := NextLine(allPlayers, Midfielder, 5, g + d);
    OpeningsBound(allPlayers, Goalkeeper, []);
    NextLineFits(allPlayers, Goalkeeper, 2, []);
    assert [] + g == g;
    OpeningsBound(allPlayers, Defender, g);
    NextLineFits(allPlayers, Defender, 5, g);
    OpeningsBound(allPlayers, Midfielder, g + d);
    NextLineFits(allPlayers, Midfielder, 5, g + d);
    OpeningsBound(allPlayers, Forward, g + d + m);
  }

  // Then no cheapest lines, however ties are broken, leave the next one without a selection.
  lemma {:induction false} EnoughClubsNeverStuck(allPlayers: seq<Player>, g: seq<Player>, d: seq<Player>,
                                                 m: seq<Player>)
    requires EnoughClubs(allPlayers)
    ensures !Stuck(allPlayers, g, d, m)
  {
    LineRemains(allPlayers, Goalkeeper, 2, []);
    if CheapestAfter(allPlayers, Goalkeeper, 2, g, []) {
      LineFacts(allPlayers, Goalkeeper, 2, g, []);
      assert [] + g == g;
      LineRemains(allPlayers, Defender, 5, g);
      if CheapestAfter(allPlayers, Defender, 5, d, g) {
        LineFacts(allPlayers, Defender, 5, d, g);
        LineRemains(allPlayers, Midfielder, 5, g + d);
        if CheapestAfter(allPlayers, Midfielder, 5, m, g + d) {
          LineFacts(allPlayers, Midfielder, 5, m, g + d);
          LineRemains(allPlayers, Forward, 3, g + d + m);
        }
      }
    }
  }

  lemma {:induction false} LineRemains(allPlayers: seq<Player>, position: Position, count: nat, earlier: seq<Player>)
    requires forall club :: ClubCount(earlier, club) <= MAX_PER_CLUB
    requires MAX_PER_CLUB * |ClubsAt(allPlayers, position)| - |earlier| > MAX_PER_CLUB * (count - 1)
    ensures !NoLineAfter(allPlayers, position, count, earlier)
  {
    OpeningsBound(allPlayers, position, earlier);
    FitsExactlyWhen(allPlayers, position, count, earlier);
  }

  class SquadBuilder {
    // Shared by the calls that pick the four lines of a squad.
    var teamCounts: map<Id, int>

    constructor ()
      ensures teamCounts == map[]
    {
      teamCounts := map[];
    }

    // With count zero the loop never meets its exit, so the call fails.
    method SelectPlayersWithTeamLimit(players: seq<Player>, count: nat)
      returns (r: Result<seq<Player>, string>, ghost mask: Mask)
      modifies this
      ensures count >= 1 ==> Outcome(players, count, old(teamCounts), teamCounts, r, mask)
      ensures count >= 1 ==> (r.Ok? <==> count <= Openings(players, old(teamCounts)))
      ensures r.Ok? ==> r.value == Taken(players, old(teamCounts), count)
      ensures count == 0 ==> r.Err?
    {
      var selected: seq<Player> := [];
      ghost var before := teamCounts;
      for i := 0 to |players|
        invariant Progress(players, before, i, teamCounts, selected)
        invariant count == 0 || |selected| < count
      {
        var player := players[i];
        var currentTeamCount := CountOf(teamCounts, player.club);
        ProgressStep(players, before, i, teamCounts, selected);
        if currentTeamCount >= MAX_PER_CLUB {
          continue;
        }
        selected := selected + [player];
        teamCounts := teamCounts[player.club := currentTeamCount + 1];
        assert Progress(players, before, i + 1, teamCounts, selected);
        if |selected| == count {
          mask := LineCompleted(players, before, i + 1, teamCounts, selected, count);
          TakenAtStop(players, before, i + 1, count);
          FeasibleExactlyWhen(players, count, before);
          return Ok(selected), mask;
        }
      }
      mask, r := Greedy(players, before, |players|), Err("Not enough eligible players.");
      if count >= 1 {
        LineFailed(players, before, teamCounts, selected, count, r.error);
        GreedySize(players, before);
      }
    }

    method SelectLine(allPlayers: seq<Player>, position: Position, count: nat, ghost earlier: seq<Player>)
      returns (r: Result<seq<Player>, string>)
      requires count >= 1 && CountsMatch(teamCounts, earlier)
      modifies this
      ensures r.Ok? <==> OpeningsAfter(allPlayers, position, earlier) >= count
      ensures r.Ok? ==> r.value == NextLine(allPlayers, position, count, earlier)
      ensures r.Ok? ==> CheapestAfter(allPlayers, position, count, r.value, earlier)
      ensures r.Ok? ==> CountsMatch(teamCounts, earlier + r.value)
      ensures r.Err? ==> NoLineAfter(allPlayers, position, count, earlier)
    {
      ghost var mask;
      SameSelection(LineOf(allPlayers, position), count, teamCounts, earlier);
      r, mask := SelectPlayersWithTeamLimit(LineOf(allPlayers, position), count);
      LineAfter(allPlayers, position, count, old(teamCounts), teamCounts, r, mask, earlier);
    }

    // The four lines of a squad, in the order the script picks them; the club counts run on.
    method PickSquad(allPlayers: seq<Player>)
      returns (r: Result<(seq<Player>, seq<Player>, seq<Player>, seq<Player>), string>)
      requires teamCounts == map[]
      modifies this
      ensures r.Ok? <==> Completes(allPlayers)
      ensures EnoughClubs(allPlayers) ==> r.Ok?
      ensures r.Ok? ==>
        var (g, d, m, f) := r.value;
        LineByLine(allPlayers, g, d, m, f) && ValidSquad(allPlayers, g, d, m, f)
      ensures r.Err? ==> exists g, d, m :: Stuck(allPlayers, g, d, m)
    {
      if EnoughClubs(allPlayers) {
        EnoughClubsComplete(allPlayers);
      }
      var g := SelectLine(allPlayers, Goalkeeper, 2, []);
      if g.Err? {
        assert Stuck(allPlayers, [], [], []);
        return Err(g.error);
      }
      assert [] + g.value == g.value;
      var d := SelectLine(allPlayers, Defender, 5, g.value);
      if d.Err? {
        assert Stuck(allPlayers, g.value, [], []);
        return Err(d.error);
      }
      var m := SelectLine(allPlayers, Midfielder, 5, g.value + d.value);
      if m.Err? {
        assert Stuck(allPlayers, g.value, d.value, []);
        return Err(m.error);
      }
      var f := SelectLine(allPlayers, Forward, 3, g.value + d.value + m.value);
      if f.Err? {
        assert Stuck(allPlayers, g.value, d.value, m.value);
        return Err(f.error);
      }
      LinesMakeASquad(allPlayers, g.value, d.value, m.value, f.value);
      r := Ok((g.value, d.value, m.value, f.value));
    }
  }
}
