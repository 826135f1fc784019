/** What the stored totals add up: the events of a player, the starters of a team, the entries of a board. */
module TeamTotals {
  import opened Wrappers
  import opened Average
  import opened StableSort
  import opened Scoring
  import L = Leaderboards

  // ----- Players ----------------------------------------------------------------------------------------

  function PointsOfEach(events: seq<Event>, player: Id): (r: seq<int>)
  {
    seq(|events|, i requires 0 <= i < |events| => if events[i].body.player == player then events[i].body.points else 0)
  }

  lemma {:induction false} PointsAddUp(events: seq<Event>, player: Id)
    ensures PlayerPoints(events, player) == SumOf(PointsOfEach(events, player))
  {
    if events != [] {
      var last := |events| - 1;
      PointsAddUp(events[..last], player);
      assert PointsOfEach(events, player)[..last] == PointsOfEach(events[..last], player);
    }
  }

  // ----- Teams ------------------------------------------------------------------------------------------

  // What each pick adds to a team: nothing on the bench, the points of the starter times his multiplier, at least one.
  function Counted(picks: seq<Pick>, team: Id, points: seq<int>): (r: seq<int>)
    requires |points| == |picks|
  {
    seq(|picks|, i requires 0 <= i < |picks| =>
      if picks[i].team != team || picks[i].benched then 0
      else points[i] * if picks[i].multiplier < 1 then 1 else picks[i].multiplier)
  }

  function LivePoints(picks: seq<Pick>): (r: seq<int>)
  {
    seq(|picks|, i requires 0 <= i < |picks| => picks[i].livePoints)
  }

  lemma {:induction false} TeamSumAddsUp(picks: seq<Pick>, team: Id)
    ensures TeamSum(picks, team) == SumOf(Counted(picks, team, LivePoints(picks)))
  {
    if picks != [] {
      var last := |picks| - 1;
      TeamSumAddsUp(picks[..last], team);
      assert Counted(picks, team, LivePoints(picks))[..last] == Counted(picks[..last], team, LivePoints(picks[..last]));
    }
  }

  // The points of the owner of each pick, straight from the events.
  function EventPoints(picks: seq<Pick>, events: seq<Event>): (r: seq<int>)
  {
    seq(|picks|, i requires 0 <= i < |picks| => SumOf(PointsOfEach(events, picks[i].player)))
  }

  // In consistent data every stored team total adds up the events of its starters, the captain multiplied.
  lemma {:induction false} TeamTotalsAreEventSums(db: Db, team: Id)
    requires Consistent(db) && team in db.teams
    ensures db.teams[team] == SumOf(Counted(db.picks, team, EventPoints(db.picks, db.events)))
  {
    forall i | 0 <= i < |db.picks|
      ensures db.picks[i].livePoints == SumOf(PointsOfEach(db.events, db.picks[i].player))
    {
      TotalsAreEventSums(db, db.picks[i].player);
      PointsAddUp(db.events, db.picks[i].player);
    }
    assert LivePoints(db.picks) == EventPoints(db.picks, db.events);
    TeamSumAddsUp(db.picks, team);
  }

  // ----- Laws of change -----------------------------------------------------------------------------------

  lemma {:induction false} TeamSumUpdate(picks: seq<Pick>, i: nat, p: Pick, team: Id)
    requires i < |picks|
    ensures TeamSum(picks[i := p], team)
         == TeamSum(picks, team) - (if picks[i].team == team then Weighted(picks[i]) else 0)
            + if p.team == team then Weighted(p) else 0
  {
    var last := |picks| - 1;
    if i == last {
      assert picks[i := p][..last] == picks[..last];
    } else {
      TeamSumUpdate(picks[..last], i, p, team);
      assert picks[i := p][..last] == picks[..last][i := p];
    }
  }

  // Benching a starter lowers the total of his team by his points times his multiplier, and that of no other.
  lemma {:induction false} BenchingLowers(picks: seq<Pick>, i: nat, team: Id)
    requires i < |picks| && !picks[i].benched
    ensures TeamSum(picks[i := picks[i].(benched := true)], team)
         == TeamSum(picks, team)
            - if picks[i].team == team
              then picks[i].livePoints * (if picks[i].multiplier < 1 then 1 else picks[i].multiplier)
              else 0
  {
    TeamSumUpdate(picks, i, picks[i].(benched := true), team);
  }

  // The points and the multiplier of a benched pick never matter.
  lemma {:induction false} BenchNeverMatters(picks: seq<Pick>, i: nat, points: int, multiplier: int, team: Id)
    requires i < |picks| && picks[i].benched
    ensures TeamSum(picks[i := picks[i].(livePoints := points, multiplier := multiplier)], team) == TeamSum(picks, team)
  {
    TeamSumUpdate(picks, i, picks[i].(livePoints := points, multiplier := multiplier), team);
  }

  // ----- What is stored, consistent or not ----------------------------------------------------------------

  function TotalsOf(logs: seq<Log>, player: Id): (r: seq<int>)
  {
    seq(|logs|, i requires 0 <= i < |logs| => if logs[i].player == player then logs[i].total else 0)
  }

  lemma {:induction false} LogsAddUp(logs: seq<Log>, player: Id)
    ensures LogSum(logs, player) == SumOf(TotalsOf(logs, player))
  {
    if logs != [] {
      var last := |logs| - 1;
      LogsAddUp(logs[..last], player);
      assert TotalsOf(logs, player)[..last] == TotalsOf(logs[..last], player);
    }
  }

  function PointsAt(events: seq<Event>, player: Id, fixture: Id): (r: seq<int>)
  {
    seq(|events|, i requires 0 <= i < |events| =>
      if events[i].body.player == player && events[i].body.fixture == fixture then events[i].body.points else 0)
  }

  function EventsAt(events: seq<Event>, player: Id, fixture: Id): set<int> {
    set i | 0 <= i < |events| && events[i].body.player == player && events[i].body.fixture == fixture
  }

  // A recalculated log holds the points and the number of the events of its player at its fixture.
  lemma {:induction false} LogHolds(l: Log, events: seq<Event>)
    ensures Recalculated(l, events)
         == Log(l.player, l.fixture, SumOf(PointsAt(events, l.player, l.fixture)),
                |EventsAt(events, l.player, l.fixture)|)
  {
    if events != [] {
      var front, last := events[..|events| - 1], events[|events| - 1];
      LogHolds(l, front);
      assert PointsAt(events, l.player, l.fixture)[..|events| - 1] == PointsAt(front, l.player, l.fixture);
      assert EventsAt(events, l.player, l.fixture)
          == EventsAt(front, l.player, l.fixture)
             + if last.body.player == l.player && last.body.fixture == l.fixture then {|front|} else {};
    }
  }

  // A refresh of some players gives them and their picks the totals of their logs, adds up the teams that field one of
  // them, and changes nothing else.
  lemma {:induction false} RefreshStores(db: Db, affected: set<Id>)
    ensures var after := Refresh(db, affected);
            && after == db.(players := after.players, picks := after.picks, teams := after.teams)
            && after.players.Keys == db.players.Keys && after.teams.Keys == db.teams.Keys && |after.picks| == |db.picks|
            && (forall p :: p in db.players ==>
                  after.players[p] == if p in affected then SumOf(TotalsOf(db.logs, p)) else db.players[p])
            && (forall i :: 0 <= i < |db.picks| ==>
                  after.picks[i]
                  == if db.picks[i].player in affected
                     then db.picks[i].(livePoints := SumOf(TotalsOf(db.logs, db.picks[i].player))) else db.picks[i])
            && (forall t :: t in db.teams ==>
                  after.teams[t]
                  == if exists i :: 0 <= i < |db.picks| && db.picks[i].team == t && db.picks[i].player in affected
                     then SumOf(Counted(after.picks, t, LivePoints(after.picks))) else db.teams[t])
  {
    var after := Refresh(db, affected);
    forall p
      ensures LogSum(db.logs, p) == SumOf(TotalsOf(db.logs, p))
    {
      LogsAddUp(db.logs, p);
    }
    forall t | t in db.teams
      ensures TeamSum(after.picks, t) == SumOf(Counted(after.picks, t, LivePoints(after.picks)))
      ensures Fields(after.picks, t, affected)
         <==> exists i :: 0 <= i < |db.picks| && db.picks[i].team == t && db.picks[i].player in affected
    {
      TeamSumAddsUp(after.picks, t);
      SameFielding(db.picks, after.picks, t, affected);
    }
  }

  lemma {:induction false} SameFielding(before: seq<Pick>, after: seq<Pick>, team: Id, players: set<Id>)
    requires |before| == |after|
    requires forall i :: 0 <= i < |before| ==> after[i].team == before[i].team && after[i].player == before[i].player
    ensures Fields(after, team, players)
       <==> exists i :: 0 <= i < |before| && before[i].team == team && before[i].player in players
  {
    if Fields(after, team, players) {
      var i :| 0 <= i < |after| && after[i].team == team && after[i].player in players;
      assert before[i].team == team;
    }
    if i :| 0 <= i < |before| && before[i].team == team && before[i].player in players {
      assert after[i].team == team;
    }
  }

  // The full rebuild does so for everybody and every team.
  lemma {:induction false} RebuildStores(db: Db)
    ensures var after := FullRebuild(db);
            && after == db.(players := after.players, picks := after.picks, teams := after.teams)
            && after.players.Keys == db.players.Keys && after.teams.Keys == db.teams.Keys && |after.picks| == |db.picks|
            && (forall p :: p in db.players ==> after.players[p] == SumOf(TotalsOf(db.logs, p)))
            && (forall i :: 0 <= i < |db.picks| ==>
                  after.picks[i] == db.picks[i].(livePoints := SumOf(TotalsOf(db.logs, db.picks[i].player))))
            && (forall t :: t in db.teams ==> after.teams[t] == SumOf(Counted(after.picks, t, LivePoints(after.picks))))
  {
    var after := FullRebuild(db);
    forall p
      ensures LogSum(db.logs, p) == SumOf(TotalsOf(db.logs, p))
    {
      LogsAddUp(db.logs, p);
    }
    forall t
      ensures TeamSum(after.picks, t) == SumOf(Counted(after.picks, t, LivePoints(after.picks)))
    {
      TeamSumAddsUp(after.picks, t);
    }
  }

  // ----- Boards -------------------------------------------------------------------------------------------

  // The points each score log of a player adds to a matchday.
  function LoggedOn(logs: seq<Log>, matchdayOf: map<Id, Id>, matchday: Id, player: Id): (r: seq<int>)
  {
    seq(|logs|, i requires 0 <= i < |logs| =>
      if logs[i].player == player && logs[i].fixture in matchdayOf && matchdayOf[logs[i].fixture] == matchday
      then logs[i].total else 0)
  }

  lemma {:induction false} MatchdayPointsAddUp(logs: seq<Log>, matchdayOf: map<Id, Id>, matchday: Id, player: Id)
    ensures L.MatchdayPoints(logs, matchdayOf, matchday, player) == SumOf(LoggedOn(logs, matchdayOf, matchday, player))
  {
    if logs != [] {
      var last := |logs| - 1;
      MatchdayPointsAddUp(logs[..last], matchdayOf, matchday, player);
      assert LoggedOn(logs, matchdayOf, matchday, player)[..last]
          == LoggedOn(logs[..last], matchdayOf, matchday, player);
    }
  }

  function PointsOnDay(picks: seq<Pick>, logs: seq<Log>, matchdayOf: map<Id, Id>, matchday: Id): (r: seq<int>)
  {
    seq(|picks|, i requires 0 <= i < |picks| => SumOf(LoggedOn(logs, matchdayOf, matchday, picks[i].player)))
  }

  lemma {:induction false} MatchdayScoreAddsUp(picks: seq<Pick>, team: Id, logs: seq<Log>, matchdayOf: map<Id, Id>,
                                               matchday: Id)
    ensures L.MatchdayScore(picks, team, logs, matchdayOf, matchday)
         == SumOf(Counted(picks, team, PointsOnDay(picks, logs, matchdayOf, matchday)))
  {
    if picks != [] {
      var last := |picks| - 1;
      var points := PointsOnDay(picks, logs, matchdayOf, matchday);
      MatchdayScoreAddsUp(picks[..last], team, logs, matchdayOf, matchday);
      MatchdayPointsAddUp(logs, matchdayOf, matchday, picks[last].player);
      assert points[..last] == PointsOnDay(picks[..last], logs, matchdayOf, matchday);
      assert Counted(picks, team, points)[..last] == Counted(picks[..last], team, points[..last]);
    }
  }

  // Every entry of a rewritten board is that of a team, with the points its starters hold, and those they scored in the
  // matchday.
  lemma {:induction false} EntriesShowTotals(boards: L.Boards, teams: seq<L.Team>, picks: seq<Pick>, logs: seq<Log>,
                                             matchdayOf: map<Id, Id>, memberships: seq<L.Membership>, matchday: Id,
                                             b: L.Board, i: nat)
    requires b.matchday == None || b.matchday == Some(matchday)
    requires i < |L.BoardAfter(boards, L.RowsOf(teams, picks, logs, matchdayOf, matchday), memberships, matchday, b)|
    ensures var entry :=
              L.BoardAfter(boards, L.RowsOf(teams, picks, logs, matchdayOf, matchday), memberships, matchday, b)[i];
            && (exists t :: t in teams && t.id == entry.team) && entry.rank == i + 1
            && entry.total == SumOf(Counted(picks, entry.team, LivePoints(picks)))
            && entry.matchday == SumOf(Counted(picks, entry.team, PointsOnDay(picks, logs, matchdayOf, matchday)))
  {
    var rows := L.RowsOf(teams, picks, logs, matchdayOf, matchday);
    var source := L.RowsFor(b, rows, memberships);
    SortPermutes(source, L.RowKey);
    var row := L.Ranked(source)[i];
    assert row in multiset(L.Ranked(source));
    assert row in source;
    RowsForAreRows(b, rows, memberships, row);
    var k :| 0 <= k < |rows| && rows[k] == row;
    TeamSumAddsUp(picks, teams[k].id);
    MatchdayScoreAddsUp(picks, teams[k].id, logs, matchdayOf, matchday);
  }

  // The boards of other matchdays stay as they are stored.
  lemma {:induction false} OtherBoardsStay(boards: L.Boards, rows: seq<L.Row>, memberships: seq<L.Membership>,
                                           matchday: Id, b: L.Board)
    requires b.matchday.Some? && b.matchday.value != matchday
    ensures L.BoardAfter(boards, rows, memberships, matchday, b) == if b in boards then boards[b] else []
  {
  }

  lemma {:induction false} OnlyRank(entries: seq<L.Entry>, team: Id, rank: nat)
    requires forall e :: e in entries && e.team == team ==> e.rank == rank
    ensures L.LastRank(entries, team)
         == if exists e :: e in entries && e.team == team then Some(rank) else None
  {
    if entries != [] {
      var front, last := entries[..|entries| - 1], entries[|entries| - 1];
      assert entries == front + [last];
      OnlyRank(front, team, rank);
    }
  }

  // The previous rank of a team is the rank it had on the stored board, and missing if it was not on it.
  lemma {:induction false} EntriesShowPreviousRanks(boards: L.Boards, rows: seq<L.Row>, memberships: seq<L.Membership>,
                                                    matchday: Id, b: L.Board, i: nat, rank: nat)
    requires b.matchday == None || b.matchday == Some(matchday)
    requires i < |L.BoardAfter(boards, rows, memberships, matchday, b)|
    requires var team := L.BoardAfter(boards, rows, memberships, matchday, b)[i].team;
             b in boards ==> forall e :: e in boards[b] && e.team == team ==> e.rank == rank
    ensures var entry := L.BoardAfter(boards, rows, memberships, matchday, b)[i];
            entry.previous
            == if b in boards && exists e :: e in boards[b] && e.team == entry.team then Some(rank) else None
  {
    var before := L.EntriesOf(boards, b);
    var team := L.BoardAfter(boards, rows, memberships, matchday, b)[i].team;
    SortPermutes(before, L.EntryKey);
    forall e
      ensures e in Sort(before, L.EntryKey) <==> e in before
    {
      assert e in Sort(before, L.EntryKey) <==> e in multiset(Sort(before, L.EntryKey));
    }
    OnlyRank(Sort(before, L.EntryKey), team, rank);
  }

  lemma {:induction false} RowsForAreRows(b: L.Board, rows: seq<L.Row>, memberships: seq<L.Membership>, row: L.Row)
    requires row in L.RowsFor(b, rows, memberships)
    ensures row in rows
  {
    if b.league.Some? {
      LeagueRowsAreRows(rows, memberships, b.league.value, row);
    }
  }

  lemma {:induction false} LeagueRowsAreRows(rows: seq<L.Row>, memberships: seq<L.Membership>, league: Id, row: L.Row)
    requires row in L.LeagueRows(rows, memberships, league)
    ensures row in rows
  {
    if row !in L.LeagueRows(rows[1..], memberships, league) {
      RepeatsOne(rows[0], L.LeaguesOf(memberships, rows[0].team.user.value), league, row);
    } else {
      LeagueRowsAreRows(rows[1..], memberships, league, row);
    }
  }

  lemma {:induction false} RepeatsOne(row: L.Row, leagues: seq<Id>, league: Id, r: L.Row)
    requires r in L.Repeat(row, leagues, league)
    ensures r == row
  {
    if r in L.Repeat(row, leagues[1..], league) {
      RepeatsOne(row, leagues[1..], league, r);
    }
  }
}
