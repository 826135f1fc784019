/** The scores a resolution stores on head-to-head fixtures, and what they do to the rows, read off the leaderboard. */
module HeadToHeadScores {
  import opened Wrappers
  import opened RoundRobin
  import opened HeadToHead

  // What a side scores: the matchday points of the team of the membership, zero for a membership without a team or a
  // team the leaderboard does not list, and the average for the Average side.
  ghost predicate Scored(p: Participant, scores: Scores, score: int) {
    match p
    case Average => score == scores.average
    case Member(id) =>
      if id !in scores.teamOf then score == 0
      else if scores.teamOf[id] !in scores.points then score == 0
      else score == scores.points[scores.teamOf[id]]
  }

  // The fixture is finalised with the scores of both sides; the membership with more points is stored as its winner.
  ghost predicate ResolvedBy(f: Fixture, g: Fixture, scores: Scores) {
    && g == f.(outcome := g.outcome) && g.outcome.Finalized?
    && var h, a := g.outcome.homePoints, g.outcome.awayPoints;
       && Scored(f.home, scores, h) && Scored(f.away, scores, a)
       && forall id: Id ::
            g.outcome.winner == Some(id) <==> (f.home == Member(id) && h > a) || (f.away == Member(id) && a > h)
  }

  // A resolution finalises the upcoming fixtures of the matchday by the leaderboard and leaves every other one alone.
  lemma {:induction false} StoredResults(fs: seq<Stored>, matchday: int, scores: Scores, i: nat)
    requires i < |fs|
    ensures var after := ResolveAll(fs, matchday, scores);
            && |after| == |fs| && after[i].league == fs[i].league
            && if fs[i].fixture.matchdayNumber == matchday && fs[i].fixture.outcome == Upcoming
               then ResolvedBy(fs[i].fixture, after[i].fixture, scores)
               else after[i] == fs[i]
  {
  }

  // ----- Rows ---------------------------------------------------------------------------------------------

  // One more match in a row, with these points on either side.
  ghost predicate OneMore(before: Record, after: Record, mine: int, theirs: int) {
    && after.played == before.played + 1
    && after.pointsFor == before.pointsFor + mine && after.pointsAgainst == before.pointsAgainst + theirs
    && (mine > theirs ==>
          && after.leaguePoints == before.leaguePoints + 3
          && after.wins == before.wins + 1 && after.draws == before.draws && after.losses == before.losses)
    && (mine == theirs ==>
          && after.leaguePoints == before.leaguePoints + 1
          && after.wins == before.wins && after.draws == before.draws + 1 && after.losses == before.losses)
    && (mine < theirs ==>
          && after.leaguePoints == before.leaguePoints
          && after.wins == before.wins && after.draws == before.draws && after.losses == before.losses + 1)
  }

  // A side of an upcoming fixture of the matchday.
  ghost predicate PlaysIn(s: Stored, key: Key, matchday: int) {
    && s.league == key.league && s.fixture.matchdayNumber == matchday && s.fixture.outcome == Upcoming
    && (s.fixture.home == key.who || s.fixture.away == key.who)
  }

  lemma {:induction false} OthersAddNothing(fs: seq<Stored>, matchday: int, scores: Scores, key: Key, c: Column)
    requires forall i :: 0 <= i < |fs| ==> !PlaysIn(fs[i], key, matchday)
    ensures Sum(ResolveAll(fs, matchday, scores), key, c) == Sum(fs, key, c)
  {
    if fs != [] {
      var last := |fs| - 1;
      OthersAddNothing(fs[..last], matchday, scores, key, c);
      assert ResolveAll(fs, matchday, scores)[..last] == ResolveAll(fs[..last], matchday, scores);
    }
  }

  lemma {:induction false} OneAdds(fs: seq<Stored>, matchday: int, scores: Scores, key: Key, c: Column, i: nat)
    requires i < |fs| && PlaysIn(fs[i], key, matchday)
    requires forall j :: 0 <= j < |fs| && j != i ==> !PlaysIn(fs[j], key, matchday)
    ensures Sum(ResolveAll(fs, matchday, scores), key, c)
         == Sum(fs, key, c) + Share(ResolveAll(fs, matchday, scores)[i], key, c)
  {
    var last := |fs| - 1;
    var front := fs[..last];
    if i == last {
      OthersAddNothing(front, matchday, scores, key, c);
    } else {
      OneAdds(front, matchday, scores, key, c, i);
    }
    assert ResolveAll(fs, matchday, scores)[..last] == ResolveAll(front, matchday, scores);
  }

  // What a resolution does to the stored row of a participant with one upcoming fixture in the matchday - as each has
  // in a generated league: one more match, with the two scores of that fixture.
  lemma {:induction false} StoredRow(fs: seq<Stored>, before: map<Key, Record>, after: map<Key, Record>, matchday: int,
                                     scores: Scores, key: Key, i: nat)
    requires Balanced(fs, before) && Balanced(ResolveAll(fs, matchday, scores), after) && key in before && key in after
    requires i < |fs| && PlaysIn(fs[i], key, matchday) && fs[i].fixture.home != fs[i].fixture.away
    requires forall j :: 0 <= j < |fs| && j != i ==> !PlaysIn(fs[j], key, matchday)
    ensures var f := fs[i].fixture;
            exists h, a ::
              && Scored(f.home, scores, h) && Scored(f.away, scores, a)
              && if f.home == key.who then OneMore(before[key], after[key], h, a)
                 else OneMore(before[key], after[key], a, h)
  {
    var f, outcome := fs[i].fixture, ResolveAll(fs, matchday, scores)[i].fixture.outcome;
    StoredResults(fs, matchday, scores, i);
    forall c
      ensures Cell(after[key], c) == Cell(before[key], c) + Share(ResolveAll(fs, matchday, scores)[i], key, c)
    {
      OneAdds(fs, matchday, scores, key, c, i);
    }
    var h, a := outcome.homePoints, outcome.awayPoints;
    assert Scored(f.home, scores, h) && Scored(f.away, scores, a);
    CellsAddUp(before[key], after[key], Contribution(ResolveAll(fs, matchday, scores)[i], key));
  }

  lemma {:induction false} CellsAddUp(before: Record, after: Record, more: Record)
    requires forall c :: Cell(after, c) == Cell(before, c) + Cell(more, c)
    ensures after == Record(before.played + more.played, before.wins + more.wins, before.draws + more.draws,
                            before.losses + more.losses, before.pointsFor + more.pointsFor,
                            before.pointsAgainst + more.pointsAgainst, before.leaguePoints + more.leaguePoints)
  {
    assert Cell(after, MatchesPlayed) == Cell(before, MatchesPlayed) + Cell(more, MatchesPlayed);
    assert Cell(after, Wins) == Cell(before, Wins) + Cell(more, Wins);
    assert Cell(after, Draws) == Cell(before, Draws) + Cell(more, Draws);
    assert Cell(after, Losses) == Cell(before, Losses) + Cell(more, Losses);
    assert Cell(after, For) == Cell(before, For) + Cell(more, For);
    assert Cell(after, Against) == Cell(before, Against) + Cell(more, Against);
    assert Cell(after, Points) == Cell(before, Points) + Cell(more, Points);
  }

  // A row whose participant has no upcoming fixture in the matchday stays.
  lemma {:induction false} OtherRow(fs: seq<Stored>, before: map<Key, Record>, after: map<Key, Record>, matchday: int,
                                    scores: Scores, key: Key)
    requires Balanced(fs, before) && Balanced(ResolveAll(fs, matchday, scores), after) && key in before && key in after
    requires forall j :: 0 <= j < |fs| ==> !PlaysIn(fs[j], key, matchday)
    ensures after[key] == before[key]
  {
    forall c
      ensures Cell(after[key], c) == Cell(before[key], c) + Cell(ZERO, c)
    {
      OthersAddNothing(fs, matchday, scores, key, c);
    }
    CellsAddUp(before[key], after[key], ZERO);
  }
}
