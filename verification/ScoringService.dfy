/** The scoring service on its stored tables: the loops of the source, proved against the functions of ScoreOps. */
module ScoringService {
  import opened Wrappers
  import opened MatchEvents
  import opened Scoring
  import opened ScoreOps
  import opened Recompute

  // ----- Steps of a refresh -------------------------------------------------------------------

  lemma {:induction false} RefreshMore(db: Db, done: set<Id>, player: Id)
    ensures Refresh(Refresh(db, done), {player}) == Refresh(db, done + {player})
  {
    var mid, after := Refresh(db, done), Refresh(db, done + {player});
    var twice := Refresh(mid, {player});
    assert twice.picks == after.picks;
    forall t | t in db.teams
      ensures twice.teams[t] == after.teams[t]
    {
      if !Fields(mid.picks, t, {player}) {
        SamePicksOfTeam(mid.picks, twice.picks, t);
        FieldsOfUnion(db.picks, mid.picks, t, done, player);
      } else {
        FieldsOfUnion(db.picks, mid.picks, t, done, player);
      }
    }
    assert twice.teams == after.teams;
    assert twice.players == after.players;
  }

  lemma {:induction false} FieldsOfUnion(picks: seq<Pick>, relived: seq<Pick>, team: Id, done: set<Id>, player: Id)
    requires |picks| == |relived|
    requires forall i :: 0 <= i < |picks| ==> relived[i].team == picks[i].team && relived[i].player == picks[i].player
    ensures Fields(picks, team, done + {player}) <==> Fields(picks, team, done) || Fields(relived, team, {player})
  {
    if Fields(relived, team, {player}) {
      var i :| 0 <= i < |relived| && relived[i].team == team && relived[i].player in {player};
      assert picks[i].team == team && picks[i].player in done + {player};
    }
    if Fields(picks, team, done) {
      var i :| 0 <= i < |picks| && picks[i].team == team && picks[i].player in done;
      assert picks[i].player in done + {player};
    }
    if Fields(picks, team, done + {player}) {
      var i :| 0 <= i < |picks| && picks[i].team == team && picks[i].player in done + {player};
      assert picks[i].player in done || relived[i].player in {player};
    }
  }

  lemma {:induction false} SamePicksOfTeam(a: seq<Pick>, b: seq<Pick>, team: Id)
    requires |a| == |b|
    requires forall i :: 0 <= i < |a| ==> a[i].team == b[i].team && (a[i].team == team ==> a[i] == b[i])
    ensures TeamSum(a, team) == TeamSum(b, team)
  {
    if a != [] {
      SamePicksOfTeam(a[..|a| - 1], b[..|b| - 1], team);
    }
  }

  // ----- Steps of a failing recompute -------------------------------------------------------------

  function Synced(db: Db, d: FixtureData, k: nat): Db
    requires k <= |Derive(d)|
  {
    Restock(db, DerivedOf(d.id), Derive(d)[..k])
  }

  // The log of the next derived event may have been created, and its event not.
  lemma {:induction false} EnsuringIsHarmless(db: Db, left: Db, d: FixtureData, b: Body)
    requires FailedBeforePruning(db, left, d.id) && b.fixture == d.id
    ensures FailedBeforePruning(db, left.(logs := EnsureLog(left.logs, b.player, b.fixture)), d.id)
  {
    var logs := EnsureLog(left.logs, b.player, b.fixture);
    forall i | 0 <= i < |left.events|
      ensures HasLog(logs, left.events[i].body.player, left.events[i].body.fixture)
    {
      HasLogGrows(left.logs, logs, left.events[i].body.player, left.events[i].body.fixture);
    }
  }

  lemma {:induction false} SyncedStep(db: Db, d: FixtureData, k: nat)
    requires k < |Derive(d)|
    ensures var b, now, next := Derive(d)[k], Synced(db, d, k), Synced(db, d, k + 1);
            && b.fixture == d.id
            && next == now.(events := now.events + [Event(now.nextId, b)], nextId := now.nextId + 1,
                            logs := EnsureLog(now.logs, b.player, b.fixture))
  {
    assert Derive(d)[..k + 1] == Derive(d)[..k] + [Derive(d)[k]];
    RestockOneMore(db, DerivedOf(d.id), Derive(d)[..k], Derive(d)[k]);
    DerivedAreOwned(d);
  }

  lemma {:induction false} RestockOneMore(db: Db, s: Selection, bodies: seq<Body>, b: Body)
    ensures var now, next := Restock(db, s, bodies), Restock(db, s, bodies + [b]);
            next == now.(events := now.events + [Event(now.nextId, b)], nextId := now.nextId + 1,
                         logs := EnsureLog(now.logs, b.player, b.fixture))
  {
    assert (bodies + [b])[..|bodies|] == bodies;
    assert Number(db.nextId, bodies + [b]) == Number(db.nextId, bodies) + [Event(db.nextId + |bodies|, b)];
  }

  lemma {:induction false} RecalculatingIsHarmless(db: Db, left: Db, d: FixtureData, i: nat)
    requires FailedBeforePruning(db, left, d.id) && i < |left.logs| && left.logs[i].fixture == d.id
    ensures FailedBeforePruning(db, left.(logs := left.logs[i := Recalculated(left.logs[i], left.events)]), d.id)
  {
    var logs := left.logs[i := Recalculated(left.logs[i], left.events)];
    forall j | 0 <= j < |left.events|
      ensures HasLog(logs, left.events[j].body.player, left.events[j].body.fixture)
    {
      var b := left.events[j].body;
      assert HasLog(left.logs, b.player, b.fixture);
      var k :| 0 <= k < |left.logs| && left.logs[k].player == b.player && left.logs[k].fixture == b.fixture;
      assert logs[k].player == b.player && logs[k].fixture == b.fixture;
    }
  }

  lemma {:induction false} PruneTakesNoEvents(events: seq<Event>, logs: seq<Log>, fixture: Id)
    requires Keyed(events, logs)
    ensures var pruned := Prune(RecalculateFixture(logs, events, fixture), fixture);
            Keyed(events, pruned) && Cascaded(events, pruned) == events
  {
    RecalculatedPruneKeepsKeys(events, logs, fixture);
  }

  lemma {:induction false} DeletingAllKeeps(db: Db, fixture: Id)
    requires Keyed(db.events, db.logs)
    ensures var after := DeleteAll(db, fixture);
            Keyed(after.events, after.logs) && (Consistent(db) ==> Consistent(after) && FullRebuild(after) == after)
  {
    DeleteAllEmptiesFixture(db, fixture);
    if Consistent(db) {
      DeleteAllKeepsConsistent(db, fixture);
    }
  }

  lemma {:induction false} EverybodyRelived(before: seq<Pick>, logs: seq<Log>, after: seq<Pick>)
    requires |before| == |after|
    requires forall j :: 0 <= j < |before| ==> after[j] == before[j].(livePoints := LogSum(logs, before[j].player))
    ensures after == Relive(before, logs, set i | 0 <= i < |before| :: before[i].player)
  {
  }

  lemma {:induction false} NothingToRefresh(db: Db)
    ensures Refresh(db, {}) == db
  {
    var after := Refresh(db, {});
    assert after.players == db.players && after.picks == db.picks && after.teams == db.teams;
  }

  lemma {:induction false} FieldedTeams(picks: seq<Pick>, player: Id, fielding: set<Id>)
    requires fielding == set i | 0 <= i < |picks| && picks[i].player == player :: picks[i].team
    ensures forall t :: Fields(picks, t, {player}) <==> t in fielding
  {
  }

  class ScoringStore {
    var events: seq<Event>
    var nextId: Id
    var logs: seq<Log>
    var players: map<Id, int>
    var picks: seq<Pick>
    var teams: map<Id, int>

    ghost function Value(): Db
      reads this
    {
      Db(events, nextId, logs, players, picks, teams)
    }

    // ----- Logs ------------------------------------------------------------------------------

    method RecalculateScoreLog(i: nat)
      requires i < |logs|
      modifies this`logs
      ensures logs == old(logs)[i := Recalculated(old(logs)[i], events)]
    {
      var total, entries := 0, 0;
      var log := logs[i];
      for k := 0 to |events|
        invariant total == KeySum(events[..k], log.player, log.fixture)
        invariant entries == KeyCount(events[..k], log.player, log.fixture)
      {
        assert events[..k + 1][..k] == events[..k];
        if events[k].body.player == log.player && events[k].body.fixture == log.fixture {
          total := total + events[k].body.points;
          entries := entries + 1;
        }
      }
      assert events[..|events|] == events;
      logs := logs[i := log.(total := total, entries := entries)];
    }

    method FindLog(player: Id, fixture: Id) returns (found: Option<nat>)
      ensures found.Some? ==>
        found.value < |logs| && logs[found.value].player == player && logs[found.value].fixture == fixture
      ensures found.Some? <==> HasLog(logs, player, fixture)
    {
      found := None;
      for i := 0 to |logs|
        invariant forall j :: 0 <= j < i ==> logs[j].player != player || logs[j].fixture != fixture
      {
        if logs[i].player == player && logs[i].fixture == fixture {
          return Some(i);
        }
      }
    }

    method EnsureScoreLog(player: Id, fixture: Id)
      modifies this`logs
      ensures logs == EnsureLog(old(logs), player, fixture)
    {
      var found := FindLog(player, fixture);
      if found.None? {
        logs := logs + [Log(player, fixture, 0, 0)];
      }
    }

    // The events of a removed log go with it.
    method RemoveEmptyFixtureScoreLogs(fixture: Id)
      modifies this`logs, this`events
      ensures logs == Prune(old(logs), fixture) && events == Cascaded(old(events), logs)
    {
      var kept: seq<Log> := [];
      for i := 0 to |logs|
        invariant kept == Prune(logs[..i], fixture)
      {
        assert logs[..i + 1][..i] == logs[..i];
        if logs[i].fixture != fixture || logs[i].entries != 0 {
          kept := kept + [logs[i]];
        }
      }
      assert logs[..|logs|] == logs;
      logs := kept;
      CascadeDeletes();
    }

    // What the foreign key of the event table does when logs were deleted.
    method CascadeDeletes()
      modifies this`events
      ensures events == Cascaded(old(events), logs)
    {
      var kept: seq<Event> := [];
      for i := 0 to |events|
        invariant kept == Cascaded(events[..i], logs)
      {
        assert events[..i + 1][..i] == events[..i];
        if HasLog(logs, events[i].body.player, events[i].body.fixture) {
          kept := kept + [events[i]];
        }
      }
      assert events[..|events|] == events;
      events := kept;
    }

    method RemoveEvents(s: Selection)
      modifies this`events
      ensures events == Drop(old(events), s)
    {
      var kept: seq<Event> := [];
      for i := 0 to |events|
        invariant kept == Drop(events[..i], s)
      {
        assert events[..i + 1][..i] == events[..i];
        if !Selected(events[i], s) {
          kept := kept + [events[i]];
        }
      }
      assert events[..|events|] == events;
      events := kept;
    }

    // ----- Totals ------------------------------------------------------------------------------

    method RecalculateFantasyTeamTotal(team: Id)
      modifies this`teams
      ensures teams == old(teams)[team := TeamSum(picks, team)]
    {
      var total := 0;
      for i := 0 to |picks|
        invariant total == TeamSum(picks[..i], team)
      {
        assert picks[..i + 1][..i] == picks[..i];
        if picks[i].team == team && !picks[i].benched {
          total := total + picks[i].livePoints * Max(picks[i].multiplier, 1);
        }
      }
      assert picks[..|picks|] == picks;
      teams := teams[team := total];
    }

    method PlayerTotal(player: Id) returns (total: int)
      ensures total == LogSum(logs, player)
    {
      total := 0;
      for i := 0 to |logs|
        invariant total == LogSum(logs[..i], player)
      {
        assert logs[..i + 1][..i] == logs[..i];
        if logs[i].player == player {
          total := total + logs[i].total;
        }
      }
      assert logs[..|logs|] == logs;
    }

    // The picks of a player take his total; the teams that field him are returned.
    method RelivePicks(player: Id, total: int) returns (affected: set<Id>)
      requires total == LogSum(logs, player)
      modifies this`picks
      ensures picks == Relive(old(picks), logs, {player})
      ensures affected == set i | 0 <= i < |picks| && picks[i].player == player :: picks[i].team
    {
      affected := {};
      for i := 0 to |picks|
        invariant |picks| == |old(picks)|
        invariant forall j :: 0 <= j < i ==> picks[j] == Relive(old(picks), logs, {player})[j]
        invariant forall j :: i <= j < |picks| ==> picks[j] == old(picks)[j]
        invariant affected == set j | 0 <= j < i && picks[j].player == player :: picks[j].team
      {
        if picks[i].player == player {
          picks := picks[i := picks[i].(livePoints := total)];
          affected := affected + {picks[i].team};
        }
      }
    }

    method RecalculateTeams(affected: set<Id>)
      modifies this`teams
      ensures teams == map t | t in old(teams) :: if t in affected then TeamSum(picks, t) else old(teams)[t]
    {
      var todo := set t | t in affected && t in teams;
      while todo != {}
        invariant todo <= affected && teams.Keys == old(teams).Keys
        invariant forall t :: t in teams ==>
          if t in affected && t !in todo then teams[t] == TeamSum(picks, t) else teams[t] == old(teams)[t]
        decreases todo
      {
        var team :| team in todo;
        RecalculateFantasyTeamTotal(team);
        todo := todo - {team};
      }
    }

    method RefreshFantasyTeamsForPlayer(player: Id)
      modifies this`players, this`picks, this`teams
      ensures Value() == Refresh(old(Value()), {player})
    {
      var total := PlayerTotal(player);
      if player in players {
        players := players[player := total];
      }
      var affected := RelivePicks(player, total);
      RecalculateTeams(affected);
      FieldedTeams(picks, player, affected);
    }

    method MaterializeForMatchday()
      modifies this`teams
      ensures Value() == Materialize(old(Value()))
    {
      var todo := teams.Keys;
      while todo != {}
        invariant todo <= teams.Keys == old(teams).Keys
        invariant forall t :: t in teams && t !in todo ==> teams[t] == TeamSum(picks, t)
        decreases todo
      {
        var team :| team in todo;
        RecalculateFantasyTeamTotal(team);
        todo := todo - {team};
      }
    }

    method RefreshAll(affected: set<Id>)
      modifies this`players, this`picks, this`teams
      ensures Value() == Refresh(old(Value()), affected)
    {
      var todo := affected;
      ghost var done: set<Id> := {};
      NothingToRefresh(Value());
      while todo != {}
        invariant todo + done == affected
        invariant Value() == Refresh(old(Value()), done)
        decreases todo
      {
        var player :| player in todo;
        RefreshMore(old(Value()), done, player);
        RefreshFantasyTeamsForPlayer(player);
        todo, done := todo - {player}, done + {player};
      }
      assert done == affected;
    }

    // ----- Operations ---------------------------------------------------------------------------

    method ScoreFixtureEvent(b: Body)
      requires Keyed(events, logs) && IdsOk(Value())
      modifies this
      ensures Value() == ScoreOne(old(Value()), b)
      ensures Keyed(events, logs) && IdsOk(Value())
      ensures Consistent(old(Value())) ==> Consistent(Value()) && FullRebuild(Value()) == Value()
    {
      ghost var before := Value();
      EnsureScoreLog(b.player, b.fixture);
      events := events + [Event(nextId, b)];
      nextId := nextId + 1;
      ghost var ensured := logs;
      EnsuredLog(before.logs, b.player, b.fixture);
      var log := FindLog(b.player, b.fixture);
      RecalculateScoreLog(log.value);
      OnlyLog(before.logs, ensured, events, b.player, b.fixture, log.value);
      RefreshFantasyTeamsForPlayer(b.player);
      MaterializeForMatchday();
      ScoreOneKeepsKeys(before, b);
      if Consistent(before) {
        ScoreOneKeepsConsistent(before, b);
      }
    }

    method DeleteFixtureEvent(id: Id) returns (r: Result<Event, string>)
      requires Keyed(events, logs) && IdsOk(Value())
      modifies this
      ensures r.Err? <==> forall e :: e in old(events) ==> e.id != id
      ensures r.Err? ==> Value() == old(Value())
      ensures r.Ok? ==> r.value in old(events) && r.value.id == id && Value() == DeleteOne(old(Value()), r.value)
      ensures Keyed(events, logs) && IdsOk(Value())
      ensures Consistent(old(Value())) ==> Consistent(Value()) && FullRebuild(Value()) == Value()
    {
      ghost var before := Value();
      var found := FindEvent(id);
      if found.None? {
        if Consistent(before) {
          RebuildChangesNothing(before);
        }
        return Err("Fixture event not found.");
      }
      var e := events[found.value];
      assert HasLog(logs, e.body.player, e.body.fixture);
      RemoveEvents(ById(id));
      var log := FindLog(e.body.player, e.body.fixture);
      RecalculateScoreLog(log.value);
      SameLog(before.logs, events, e.body.player, e.body.fixture, log.value);
      RemoveEmptyFixtureScoreLogs(e.body.fixture);
      RefreshFantasyTeamsForPlayer(e.body.player);
      MaterializeForMatchday();
      DeleteOneKeepsKeys(before, e);
      if Consistent(before) {
        DeleteOneKeepsConsistent(before, e);
      }
      r := Ok(e);
    }

    method FindEvent(id: Id) returns (found: Option<nat>)
      ensures found.Some? ==> found.value < |events| && events[found.value].id == id
      ensures found.None? ==> forall e :: e in events ==> e.id != id
    {
      found := None;
      for i := 0 to |events|
        invariant forall j :: 0 <= j < i ==> events[j].id != id
      {
        if events[i].id == id {
          return Some(i);
        }
      }
    }

    method RecalculateFixtureLogs(fixture: Id)
      modifies this`logs
      ensures logs == RecalculateFixture(old(logs), events, fixture)
    {
      for i := 0 to |logs|
        invariant |logs| == |old(logs)|
        invariant forall j :: 0 <= j < i ==> logs[j] == RecalculateFixture(old(logs), events, fixture)[j]
        invariant forall j :: i <= j < |logs| ==> logs[j] == old(logs)[j]
      {
        if logs[i].fixture == fixture {
          RecalculateScoreLog(i);
        }
      }
    }

    method DeleteAllFixtureEvents(fixture: Id)
      requires Keyed(events, logs)
      modifies this
      ensures Value() == DeleteAll(old(Value()), fixture)
      ensures Keyed(events, logs)
      ensures Consistent(old(Value())) ==> Consistent(Value()) && FullRebuild(Value()) == Value()
    {
      ghost var before := Value();
      DeletingAllKeeps(before, fixture);
      var affected := PlayersOf(events, OfFixture(fixture));
      if affected == {} {
        MaterializeForMatchday();
        return;
      }
      RemoveEvents(OfFixture(fixture));
      assert Restock(before, OfFixture(fixture), []).events == events;
      RestockedKeyed(before, OfFixture(fixture), []);
      RescoreFixture(fixture, affected);
    }

    method RemoveFixtureLogs(fixture: Id)
      requires Keyed(events, logs)
      modifies this`logs, this`events
      ensures events == old(events) && logs == Prune(RecalculateFixture(old(logs), events, fixture), fixture)
    {
      PruneTakesNoEvents(events, logs, fixture);
      RecalculateFixtureLogs(fixture);
      RemoveEmptyFixtureScoreLogs(fixture);
    }

    method RescoreFixture(fixture: Id, affected: set<Id>)
      requires Keyed(events, logs)
      modifies this
      ensures Value() == Rescore(old(Value()), fixture, affected)
    {
      RemoveFixtureLogs(fixture);
      RefreshAll(affected);
      MaterializeForMatchday();
    }

    // recalculateTournamentPointsFromScoreLogs: players, then picks, then teams, each from the logs.
    method RecalculateTournamentPoints()
      modifies this`players, this`picks, this`teams
      ensures Value() == FullRebuild(old(Value()))
    {
      var todo := players.Keys;
      while todo != {}
        invariant todo <= players.Keys == old(players).Keys
        invariant picks == old(picks) && teams == old(teams)
        invariant forall p :: p in players && p !in todo ==> players[p] == LogSum(logs, p)
        decreases todo
      {
        var player :| player in todo;
        var total := PlayerTotal(player);
        players := players[player := total];
        todo := todo - {player};
      }
      ghost var rebuilt := players;
      for i := 0 to |picks|
        invariant |picks| == |old(picks)| && players == rebuilt && teams == old(teams)
        invariant forall j :: 0 <= j < i ==>
          picks[j] == old(picks)[j].(livePoints := LogSum(logs, old(picks)[j].player))
        invariant forall j :: i <= j < |picks| ==> picks[j] == old(picks)[j]
      {
        var total := PlayerTotal(picks[i].player);
        picks := picks[i := picks[i].(livePoints := total)];
      }
      MaterializeForMatchday();
      EverybodyRelived(old(picks), logs, picks);
    }

    // ----- Recompute, with a failure after any number of database calls ----------------------------

    // Create the k-th derived event: its score log if missing, then the event.
    method CreateDerivedEvent(d: FixtureData, k: nat, b: Body, calls: nat, ghost before: Db) returns (rest: nat,
                              ok: bool)
      requires Keyed(before.events, before.logs)
      requires k < |Derive(d)| && b == Derive(d)[k] && Value() == Synced(before, d, k)
      modifies this`events, this`logs, this`nextId
      ensures ok ==> Value() == Synced(before, d, k + 1)
      ensures !ok ==> FailedBeforePruning(before, Value(), d.id)
    {
      SyncedStep(before, d, k);
      if calls <= 1 {
        CreatingIsHarmless(before, d, k);
        EnsuringIsHarmless(before, Synced(before, d, k), d, b);
      }
      if calls == 0 { return 0, false; }
      EnsureScoreLog(b.player, b.fixture);
      if calls == 1 {
        return 0, false;
      }
      events := events + [Event(nextId, b)];
      nextId := nextId + 1;
      rest, ok := calls - 2, true;
    }

    // Delete the derived events and create the newly derived ones, as far as `calls` database calls last.
    method SyncEvents(d: FixtureData, calls: nat) returns (rest: nat, ok: bool)
      requires Keyed(events, logs)
      modifies this`events, this`logs, this`nextId
      ensures ok ==> Value() == Synced(old(Value()), d, |Derive(d)|)
      ensures !ok ==> Value() == old(Value()) || FailedBeforePruning(old(Value()), Value(), d.id)
    {
      ghost var before := Value();
      if calls == 0 { return 0, false; }
      RemoveEvents(DerivedOf(d.id));
      rest := calls - 1;
      var bodies := Derive(d);
      for k := 0 to |bodies|
        invariant Value() == Synced(before, d, k)
      {
        rest, ok := CreateDerivedEvent(d, k, bodies[k], rest, before);
        if !ok { return; }
      }
      ok := true;
    }

    method RecalculateLogs(d: FixtureData, calls: nat, ghost before: Db) returns (rest: nat, ok: bool)
      requires FailedBeforePruning(before, Value(), d.id)
      modifies this`logs
      ensures ok ==> logs == RecalculateFixture(old(logs), events, d.id)
      ensures FailedBeforePruning(before, Value(), d.id)
    {
      rest := calls;
      for i := 0 to |logs|
        invariant |logs| == |old(logs)|
        invariant FailedBeforePruning(before, Value(), d.id)
        invariant forall j :: 0 <= j < i ==> logs[j] == RecalculateFixture(old(logs), events, d.id)[j]
        invariant forall j :: i <= j < |logs| ==> logs[j] == old(logs)[j]
      {
        if logs[i].fixture == d.id {
          if rest == 0 { return 0, false; }
          RecalculatingIsHarmless(before, Value(), d, i);
          RecalculateScoreLog(i);
          rest := rest - 1;
        }
      }
      ok := true;
    }

    // The second half: recalculate, remove empty logs, refresh. Once empty logs are removed the events and logs are
    // final and only totals may still be missing.
    method FinishRecompute(d: FixtureData, affected: set<Id>, calls: nat, ghost before: Db) returns (ok: bool)
      requires FailedBeforePruning(before, Value(), d.id)
      modifies this
      ensures ok ==> Value() == Rescore(old(Value()), d.id, affected)
      ensures !ok ==> FailedBeforePruning(before, Value(), d.id)
                      || (events == old(events) && logs == Prune(RecalculateFixture(old(logs), events, d.id), d.id))
      ensures Keyed(events, logs)
    {
      var rest;
      ghost var was := logs;
      rest, ok := RecalculateLogs(d, calls, before);
      if !ok { return; }
      if rest == 0 { return false; }
      ok := RemoveAndRefresh(d.id, affected, rest - 1, was);
    }

    method RemoveAndRefresh(fixture: Id, affected: set<Id>, calls: nat, ghost was: seq<Log>) returns (ok: bool)
      requires Keyed(events, was) && logs == RecalculateFixture(was, events, fixture)
      modifies this
      ensures events == old(events) && logs == Prune(old(logs), fixture) && Keyed(events, logs)
      ensures ok ==> Value() == Materialize(Refresh(old(Value()).(logs := Prune(old(logs), fixture)), affected))
    {
      PruneTakesNoEvents(events, was, fixture);
      RemoveEmptyFixtureScoreLogs(fixture);
      ok := RefreshWhileItLasts(affected, calls);
      if ok {
        MaterializeForMatchday();
      }
    }

    method RecomputeFixture(d: FixtureData, calls: nat) returns (ok: bool)
      requires Keyed(events, logs)
      modifies this
      ensures ok ==> Value() == Recomputed(old(Value()), d)
      ensures !ok ==>
        || Value() == old(Value())
        || FailedBeforePruning(old(Value()), Value(), d.id)
        || (events == PrunedOnly(old(Value()), d).events && logs == PrunedOnly(old(Value()), d).logs)
      ensures Keyed(events, logs)
    {
      ghost var before := Value();
      var deleted := PlayersOf(events, DerivedOf(d.id));
      var rest;
      rest, ok := SyncEvents(d, calls);
      if !ok { return; }
      assert Derive(d)[..|Derive(d)|] == Derive(d);
      CreatingIsHarmless(before, d, |Derive(d)|);
      ok := FinishRecompute(d, deleted + LoggedPlayers(logs, d.id), rest, before);
    }

    method RefreshWhileItLasts(affected: set<Id>, calls: nat) returns (ok: bool)
      modifies this`players, this`picks, this`teams
      ensures ok ==> Value() == Refresh(old(Value()), affected)
    {
      var todo, rest := affected, calls;
      ghost var done: set<Id> := {};
      NothingToRefresh(Value());
      while todo != {}
        invariant todo + done == affected
        invariant Value() == Refresh(old(Value()), done)
        decreases todo
      {
        if rest == 0 { return false; }
        var player :| player in todo;
        RefreshMore(old(Value()), done, player);
        RefreshFantasyTeamsForPlayer(player);
        todo, done, rest := todo - {player}, done + {player}, rest - 1;
      }
      assert done == affected;
      ok := true;
    }
  }

  lemma {:induction false} EnsuredLog(logs: seq<Log>, player: Id, fixture: Id)
    ensures HasLog(EnsureLog(logs, player, fixture), player, fixture)
  {
    if !HasLog(logs, player, fixture) {
      var r := EnsureLog(logs, player, fixture);
      assert r[|logs|].player == player && r[|logs|].fixture == fixture;
    }
  }

  lemma {:induction false} SameLog(logs: seq<Log>, events: seq<Event>, player: Id, fixture: Id, at: nat)
    requires UniqueLogs(logs) && at < |logs| && logs[at].player == player && logs[at].fixture == fixture
    ensures logs[at := Recalculated(logs[at], events)] == RecalculateOne(logs, events, player, fixture)
  {
  }

  lemma {:induction false} OnlyLog(logs: seq<Log>, ensured: seq<Log>, events: seq<Event>, player: Id, fixture: Id,
                                   at: nat)
    requires UniqueLogs(logs) && ensured == EnsureLog(logs, player, fixture)
    requires at < |ensured| && ensured[at].player == player && ensured[at].fixture == fixture
    ensures ensured[at := Recalculated(ensured[at], events)] == RecalculateOne(ensured, events, player, fixture)
  {
    assert UniqueLogs(ensured);
    SameLog(ensured, events, player, fixture, at);
  }
}
