/** Stored scores: events feed score logs, logs feed player totals, totals feed picks and fantasy teams.

    `Db` is the stored state. This module specifies the incremental updates, the full rebuild and the recompute of
    a fixture as functions on it, and proves that the ways to the totals agree. */
module Scoring {
  import opened Wrappers
  import opened MatchEvents

  datatype Event = Event(id: Id, body: Body)

  // One log per player and fixture; `entries` is the length of its event summary.
  datatype Log = Log(player: Id, fixture: Id, total: int, entries: nat)

  datatype Pick = Pick(team: Id, player: Id, benched: bool, multiplier: int, livePoints: int)

  datatype Db = Db(
    events: seq<Event>,
    nextId: Id,
    logs: seq<Log>,
    players: map<Id, int>,
    picks: seq<Pick>,
    teams: map<Id, int>)

  // ----- Sums ---------------------------------------------------------------------------

  function PointsFor(e: Event, player: Id, fixture: Id): int {
    if e.body.player == player && e.body.fixture == fixture then e.body.points else 0
  }

  function KeySum(events: seq<Event>, player: Id, fixture: Id): int {
    if events == [] then 0
    else KeySum(events[..|events| - 1], player, fixture) + PointsFor(events[|events| - 1], player, fixture)
  }

  function KeyCount(events: seq<Event>, player: Id, fixture: Id): nat {
    if events == [] then 0
    else KeyCount(events[..|events| - 1], player, fixture)
         + if events[|events| - 1].body.player == player && events[|events| - 1].body.fixture == fixture then 1 else 0
  }

  // The reference: all points of a player, whatever the fixture.
  function PlayerPoints(events: seq<Event>, player: Id): int {
    if events == [] then 0
    else PlayerPoints(events[..|events| - 1], player)
         + if events[|events| - 1].body.player == player then events[|events| - 1].body.points else 0
  }

  function LogSum(logs: seq<Log>, player: Id): int {
    if logs == [] then 0
    else LogSum(logs[..|logs| - 1], player)
         + if logs[|logs| - 1].player == player then logs[|logs| - 1].total else 0
  }

  // Benched picks do not count; a multiplier below one counts as one.
  function Weighted(p: Pick): int {
    if p.benched then 0 else p.livePoints * Max(p.multiplier, 1)
  }

  function TeamSum(picks: seq<Pick>, team: Id): int {
    if picks == [] then 0
    else TeamSum(picks[..|picks| - 1], team)
         + if picks[|picks| - 1].team == team then Weighted(picks[|picks| - 1]) else 0
  }

  // ----- The building blocks of the service -------------------------------------------------

  predicate HasLog(logs: seq<Log>, player: Id, fixture: Id) {
    exists i :: 0 <= i < |logs| && logs[i].player == player && logs[i].fixture == fixture
  }

  function EnsureLog(logs: seq<Log>, player: Id, fixture: Id): seq<Log> {
    if HasLog(logs, player, fixture) then logs else logs + [Log(player, fixture, 0, 0)]
  }

  function Recalculated(l: Log, events: seq<Event>): Log {
    l.(total := KeySum(events, l.player, l.fixture), entries := KeyCount(events, l.player, l.fixture))
  }

  // recalculateScoreLog for every log of one fixture.
  function RecalculateFixture(logs: seq<Log>, events: seq<Event>, fixture: Id): (r: seq<Log>)
    ensures |r| == |logs|
    ensures forall i :: 0 <= i < |logs| ==>
      r[i] == if logs[i].fixture == fixture then Recalculated(logs[i], events) else logs[i]
  {
    seq(|logs|, i requires 0 <= i < |logs| =>
      if logs[i].fixture == fixture then Recalculated(logs[i], events) else logs[i])
  }

  // removeEmptyFixtureScoreLogs
  function Prune(logs: seq<Log>, fixture: Id): seq<Log> {
    if logs == [] then []
    else
      var l := logs[|logs| - 1];
      if l.fixture == fixture && l.entries == 0 then Prune(logs[..|logs| - 1], fixture)
      else Prune(logs[..|logs| - 1], fixture) + [l]
  }

  // An event goes with its log: the database deletes the events of a deleted log.
  function Cascaded(events: seq<Event>, logs: seq<Log>): seq<Event> {
    if events == [] then []
    else
      var b := events[|events| - 1].body;
      if HasLog(logs, b.player, b.fixture) then Cascaded(events[..|events| - 1], logs) + [events[|events| - 1]]
      else Cascaded(events[..|events| - 1], logs)
  }

  function Relive(picks: seq<Pick>, logs: seq<Log>, affected: set<Id>): (r: seq<Pick>)
    ensures |r| == |picks|
    ensures forall i :: 0 <= i < |picks| ==>
      r[i] == if picks[i].player in affected then picks[i].(livePoints := LogSum(logs, picks[i].player)) else picks[i]
  {
    seq(|picks|, i requires 0 <= i < |picks| =>
      if picks[i].player in affected then picks[i].(livePoints := LogSum(logs, picks[i].player)) else picks[i])
  }

  predicate Fields(picks: seq<Pick>, team: Id, players: set<Id>) {
    exists i :: 0 <= i < |picks| && picks[i].team == team && picks[i].player in players
  }

  // refreshFantasyTeamsForPlayer for a set of players: their totals, their picks, and the teams that field them.
  function Refresh(db: Db, affected: set<Id>): Db {
    var picks := Relive(db.picks, db.logs, affected);
    db.(players := map p | p in db.players :: if p in affected then LogSum(db.logs, p) else db.players[p],
    picks := picks,
    teams := map t | t in db.teams :: if Fields(picks, t, affected) then TeamSum(picks, t) else db.teams[t])
  }

  // materializeForMatchday rewrites the total of every team of the tournament.
  function Materialize(db: Db): Db {
    db.(teams := map t | t in db.teams :: TeamSum(db.picks, t))
  }

  // recalculateTournamentPointsFromScoreLogs
  function FullRebuild(db: Db): Db {
    var picks := Relive(db.picks, db.logs, set i | 0 <= i < |db.picks| :: db.picks[i].player);
    db.(players := map p | p in db.players :: LogSum(db.logs, p),
    picks := picks,
    teams := map t | t in db.teams :: TeamSum(picks, t))
  }

  // ----- Consistency ---------------------------------------------------------------------------

  ghost predicate UniqueLogs(logs: seq<Log>) {
    forall i, j :: 0 <= i < j < |logs| ==> logs[i].player != logs[j].player || logs[i].fixture != logs[j].fixture
  }

  ghost predicate Covered(events: seq<Event>, logs: seq<Log>) {
    forall i :: 0 <= i < |events| ==> HasLog(logs, events[i].body.player, events[i].body.fixture)
  }

  // Outside one fixture (or everywhere) a log holds the sum of its events.
  ghost predicate LogRight(l: Log, events: seq<Event>) {
    l == Recalculated(l, events)
  }

  // What the keys of the tables guarantee in every state, after a failed operation too.
  ghost predicate Keyed(events: seq<Event>, logs: seq<Log>) {
    UniqueLogs(logs) && Covered(events, logs)
  }

  ghost predicate LogsOk(events: seq<Event>, logs: seq<Log>) {
    && Keyed(events, logs)
    && forall i :: 0 <= i < |logs| ==> LogRight(logs[i], events)
  }

  // The stored totals of a player are those of his logs.
  ghost predicate Settled(db: Db, player: Id) {
    && (player in db.players ==> db.players[player] == LogSum(db.logs, player))
    && forall i :: 0 <= i < |db.picks| && db.picks[i].player == player ==>
         db.picks[i].livePoints == LogSum(db.logs, player)
  }

  ghost predicate TeamsOk(db: Db) {
    forall t :: t in db.teams ==> db.teams[t] == TeamSum(db.picks, t)
  }

  ghost predicate Consistent(db: Db) {
    LogsOk(db.events, db.logs) && (forall p :: Settled(db, p)) && TeamsOk(db)
  }

  lemma {:induction false} CascadedMembers(events: seq<Event>, logs: seq<Log>)
    ensures forall e :: e in Cascaded(events, logs) <==> e in events && HasLog(logs, e.body.player, e.body.fixture)
    ensures Covered(events, logs) ==> Cascaded(events, logs) == events
  {
    if events != [] {
      var front, e := events[..|events| - 1], events[|events| - 1];
      assert events == front + [e];
      CascadedMembers(front, logs);
      if Covered(events, logs) {
        assert Covered(front, logs);
      }
    }
  }

  // ----- Incremental equals full rebuild ----------------------------------------------------------

  // Settled totals are exactly those a full rebuild would store.
  lemma {:induction false} RebuildChangesNothing(db: Db)
    requires (forall p :: Settled(db, p)) && TeamsOk(db)
    ensures FullRebuild(db) == db
  {
    var rebuilt := FullRebuild(db);
    forall i | 0 <= i < |db.picks|
      ensures rebuilt.picks[i] == db.picks[i]
    {
      assert Settled(db, db.picks[i].player);
    }
    forall p | p in db.players
      ensures rebuilt.players[p] == db.players[p]
    {
      assert Settled(db, p);
    }
    assert rebuilt.picks == db.picks;
    assert rebuilt.players == db.players;
    assert rebuilt.teams == db.teams;
  }

  lemma {:induction false} RebuildSettles(db: Db)
    ensures (forall p :: Settled(FullRebuild(db), p)) && TeamsOk(FullRebuild(db))
  {
  }

  // And a database that a full rebuild leaves alone is settled: the two paths agree exactly on settled databases.
  lemma {:induction false} RebuildFixpoint(db: Db)
    ensures FullRebuild(db) == db <==> (forall p :: Settled(db, p)) && TeamsOk(db)
  {
    RebuildSettles(db);
    if (forall p :: Settled(db, p)) && TeamsOk(db) {
      RebuildChangesNothing(db);
    }
  }

  // ----- Logs against events ------------------------------------------------------------------------

  // The points one event adds over the logs of a player.
  function LoggedPoints(logs: seq<Log>, e: Event, player: Id): int {
    if logs == [] then 0
    else LoggedPoints(logs[..|logs| - 1], e, player)
         + if logs[|logs| - 1].player == player then PointsFor(e, player, logs[|logs| - 1].fixture) else 0
  }

  // The sum over a player's logs of the events of each log.
  function LoggedSum(logs: seq<Log>, events: seq<Event>, player: Id): int {
    if logs == [] then 0
    else LoggedSum(logs[..|logs| - 1], events, player)
         + if logs[|logs| - 1].player == player then KeySum(events, player, logs[|logs| - 1].fixture) else 0
  }

  lemma {:induction false} LoggedSumStep(logs: seq<Log>, events: seq<Event>, player: Id)
    ensures events == [] ==> LoggedSum(logs, events, player) == 0
    ensures events != [] ==>
      LoggedSum(logs, events, player)
      == LoggedSum(logs, events[..|events| - 1], player) + LoggedPoints(logs, events[|events| - 1], player)
  {
    if logs != [] {
      LoggedSumStep(logs[..|logs| - 1], events, player);
    }
  }

  // An event is counted by the one log of its player and fixture.
  lemma {:induction false} LoggedOnce(logs: seq<Log>, e: Event, player: Id)
    requires UniqueLogs(logs)
    ensures LoggedPoints(logs, e, player)
         == if e.body.player == player && HasLog(logs, player, e.body.fixture) then e.body.points else 0
  {
    if logs != [] {
      var front, l := logs[..|logs| - 1], logs[|logs| - 1];
      LoggedOnce(front, e, player);
      HasLogSnoc(logs, player, e.body.fixture);
      if l.player == player && l.fixture == e.body.fixture {
        assert !HasLog(front, player, e.body.fixture);
      }
    }
  }

  lemma {:induction false} HasLogSnoc(logs: seq<Log>, player: Id, fixture: Id)
    requires logs != []
    ensures HasLog(logs, player, fixture)
       <==> HasLog(logs[..|logs| - 1], player, fixture)
            || (logs[|logs| - 1].player == player && logs[|logs| - 1].fixture == fixture)
  {
    var front := logs[..|logs| - 1];
    if HasLog(logs, player, fixture) {
      var i :| 0 <= i < |logs| && logs[i].player == player && logs[i].fixture == fixture;
      assert i < |front| ==> front[i] == logs[i];
    }
    if HasLog(front, player, fixture) {
      var i :| 0 <= i < |front| && front[i].player == player && front[i].fixture == fixture;
      assert logs[i] == front[i];
    }
  }

  lemma {:induction false} LoggedSumIsPlayerPoints(logs: seq<Log>, events: seq<Event>, player: Id)
    requires UniqueLogs(logs) && Covered(events, logs)
    ensures LoggedSum(logs, events, player) == PlayerPoints(events, player)
  {
    LoggedSumStep(logs, events, player);
    if events != [] {
      LoggedSumIsPlayerPoints(logs, events[..|events| - 1], player);
      LoggedOnce(logs, events[|events| - 1], player);
    }
  }

  lemma {:induction false} LogSumIsLoggedSum(logs: seq<Log>, events: seq<Event>, player: Id)
    requires forall i :: 0 <= i < |logs| ==> LogRight(logs[i], events)
    ensures LogSum(logs, player) == LoggedSum(logs, events, player)
  {
    if logs != [] {
      LogSumIsLoggedSum(logs[..|logs| - 1], events, player);
      assert LogRight(logs[|logs| - 1], events);
    }
  }

  // The materialised totals are sums of events: in a consistent database the total of a player and the live points
  // of every pick of him are the points of all his events.
  lemma {:induction false} TotalsAreEventSums(db: Db, player: Id)
    requires Consistent(db)
    ensures LogSum(db.logs, player) == PlayerPoints(db.events, player)
    ensures player in db.players ==> db.players[player] == PlayerPoints(db.events, player)
    ensures forall i :: 0 <= i < |db.picks| && db.picks[i].player == player ==>
      db.picks[i].livePoints == PlayerPoints(db.events, player)
  {
    LogSumIsLoggedSum(db.logs, db.events, player);
    LoggedSumIsPlayerPoints(db.logs, db.events, player);
    assert Settled(db, player);
  }

  // ----- Rescoring one fixture -----------------------------------------------------------------------

  lemma {:induction false} PruneFacts(logs: seq<Log>, fixture: Id)
    ensures forall l :: l in Prune(logs, fixture) <==> l in logs && !(l.fixture == fixture && l.entries == 0)
    ensures UniqueLogs(logs) ==> UniqueLogs(Prune(logs, fixture))
  {
    if logs != [] {
      var front, l := logs[..|logs| - 1], logs[|logs| - 1];
      assert logs == front + [l];
      PruneFacts(front, fixture);
      if UniqueLogs(logs) {
        forall k | k in Prune(front, fixture)
          ensures k.player != l.player || k.fixture != l.fixture
        {
          var i :| 0 <= i < |front| && front[i] == k;
          assert logs[i] == k;
        }
      }
    }
  }

  lemma {:induction false} EmptyKey(events: seq<Event>, player: Id, fixture: Id)
    requires KeyCount(events, player, fixture) == 0
    ensures KeySum(events, player, fixture) == 0
    ensures forall i :: 0 <= i < |events| ==> events[i].body.player != player || events[i].body.fixture != fixture
  {
    if events != [] {
      EmptyKey(events[..|events| - 1], player, fixture);
    }
  }

  lemma {:induction false} PruneKeepsSums(logs: seq<Log>, fixture: Id, player: Id)
    requires forall i :: 0 <= i < |logs| && logs[i].fixture == fixture && logs[i].entries == 0 ==> logs[i].total == 0
    ensures LogSum(Prune(logs, fixture), player) == LogSum(logs, player)
  {
    if logs != [] {
      var front, l := logs[..|logs| - 1], logs[|logs| - 1];
      PruneKeepsSums(front, fixture, player);
      if !(l.fixture == fixture && l.entries == 0) {
        assert (Prune(front, fixture) + [l])[..|Prune(front, fixture)|] == Prune(front, fixture);
      }
    }
  }

  // Pruning a right set of logs keeps it right: an empty log has no event and no points.
  lemma {:induction false} PruneKeepsLogsOk(events: seq<Event>, logs: seq<Log>, fixture: Id)
    requires LogsOk(events, logs)
    ensures LogsOk(events, Prune(logs, fixture))
    ensures forall p :: LogSum(Prune(logs, fixture), p) == LogSum(logs, p)
    ensures forall l :: l in Prune(logs, fixture) && l.fixture == fixture ==> l.entries > 0
  {
    var pruned := Prune(logs, fixture);
    PruneFacts(logs, fixture);
    forall i | 0 <= i < |logs| && logs[i].entries == 0
      ensures logs[i].total == 0 && KeyCount(events, logs[i].player, logs[i].fixture) == 0
    {
      assert LogRight(logs[i], events);
      EmptyKey(events, logs[i].player, logs[i].fixture);
    }
    forall p
      ensures LogSum(pruned, p) == LogSum(logs, p)
    {
      PruneKeepsSums(logs, fixture, p);
    }
    forall i | 0 <= i < |events|
      ensures HasLog(pruned, events[i].body.player, events[i].body.fixture)
    {
      var b := events[i].body;
      assert HasLog(logs, b.player, b.fixture);
      var j :| 0 <= j < |logs| && logs[j].player == b.player && logs[j].fixture == b.fixture;
      if logs[j].entries == 0 {
        EmptyKey(events, b.player, b.fixture);
      }
      assert logs[j] in pruned;
      var k :| 0 <= k < |pruned| && pruned[k] == logs[j];
    }
    forall i | 0 <= i < |pruned|
      ensures LogRight(pruned[i], events)
    {
      assert pruned[i] in logs;
      var j :| 0 <= j < |logs| && logs[j] == pruned[i];
      assert LogRight(logs[j], events);
    }
  }

  lemma {:induction false} SameTotalsSameSum(logs: seq<Log>, other: seq<Log>, player: Id)
    requires |logs| == |other|
    requires forall i :: 0 <= i < |logs| ==>
      logs[i].player == other[i].player && (logs[i].player == player ==> logs[i].total == other[i].total)
    ensures LogSum(logs, player) == LogSum(other, player)
  {
    if logs != [] {
      SameTotalsSameSum(logs[..|logs| - 1], other[..|other| - 1], player);
    }
  }

  // Logs that are right except perhaps at one fixture.
  ghost predicate RightOutside(events: seq<Event>, logs: seq<Log>, fixture: Id) {
    && Keyed(events, logs)
    && forall i :: 0 <= i < |logs| && logs[i].fixture != fixture ==> LogRight(logs[i], events)
  }

  lemma {:induction false} RecalculationRepairs(events: seq<Event>, logs: seq<Log>, fixture: Id)
    requires RightOutside(events, logs, fixture)
    ensures LogsOk(events, RecalculateFixture(logs, events, fixture))
  {
    var after := RecalculateFixture(logs, events, fixture);
    forall i | 0 <= i < |events|
      ensures HasLog(after, events[i].body.player, events[i].body.fixture)
    {
      var b := events[i].body;
      assert HasLog(logs, b.player, b.fixture);
      var j :| 0 <= j < |logs| && logs[j].player == b.player && logs[j].fixture == b.fixture;
      assert after[j].player == b.player && after[j].fixture == b.fixture;
    }
  }

  // Removing the logs that a recalculation found empty takes no event with it.
  lemma {:induction false} RecalculatedPruneKeepsKeys(events: seq<Event>, logs: seq<Log>, fixture: Id)
    requires Keyed(events, logs)
    ensures var pruned := Prune(RecalculateFixture(logs, events, fixture), fixture);
            && Keyed(events, pruned) && Cascaded(events, pruned) == events
            && forall l :: l in pruned && l.fixture == fixture ==> KeyCount(events, l.player, fixture) > 0
  {
    var after := RecalculateFixture(logs, events, fixture);
    var pruned := Prune(after, fixture);
    assert UniqueLogs(after);
    PruneFacts(after, fixture);
    forall i | 0 <= i < |events|
      ensures HasLog(pruned, events[i].body.player, events[i].body.fixture)
    {
      var b := events[i].body;
      assert HasLog(logs, b.player, b.fixture);
      var j :| 0 <= j < |logs| && logs[j].player == b.player && logs[j].fixture == b.fixture;
      if after[j].fixture == fixture && after[j].entries == 0 {
        EmptyKey(events, b.player, b.fixture);
      }
      assert after[j] in pruned;
      var k :| 0 <= k < |pruned| && pruned[k] == after[j];
    }
    CascadedMembers(events, pruned);
    forall l | l in pruned && l.fixture == fixture
      ensures KeyCount(events, l.player, fixture) > 0
    {
      var j :| 0 <= j < |after| && after[j] == l;
    }
  }

  // Refreshing settles the affected players and decides nothing about the others.
  lemma {:induction false} RefreshSettles(db: Db, affected: set<Id>, player: Id)
    ensures player in affected ==> Settled(Refresh(db, affected), player)
    ensures player !in affected ==> (Settled(Refresh(db, affected), player) <==> Settled(db, player))
    ensures Materialize(Refresh(db, affected)).logs == db.logs
    ensures Settled(Materialize(Refresh(db, affected)), player) <==> Settled(Refresh(db, affected), player)
  {
    var after := Refresh(db, affected);
    if player !in affected && Settled(after, player) {
      forall i | 0 <= i < |db.picks| && db.picks[i].player == player
        ensures db.picks[i].livePoints == LogSum(db.logs, player)
      {
        assert after.picks[i] == db.picks[i];
      }
    }
  }

  // The common tail of every scoring operation.
  function Rescore(db: Db, fixture: Id, affected: set<Id>): Db {
    var logs := Prune(RecalculateFixture(db.logs, db.events, fixture), fixture);
    Materialize(Refresh(db.(logs := logs), affected))
  }

  // After a rescore the logs are right, the team totals are right, the affected players are settled - and a player
  // who is not affected is settled exactly when he was before, provided his own logs were right.
  lemma {:induction false} RescoreRepairs(db: Db, fixture: Id, affected: set<Id>, player: Id)
    requires RightOutside(db.events, db.logs, fixture)
    requires player !in affected ==>
      forall i :: 0 <= i < |db.logs| && db.logs[i].player == player ==> LogRight(db.logs[i], db.events)
    ensures var after := Rescore(db, fixture, affected);
            && LogsOk(after.events, after.logs) && TeamsOk(after)
            && (forall l :: l in after.logs && l.fixture == fixture ==> l.entries > 0)
            && (player in affected ==> Settled(after, player))
            && (player !in affected ==> (Settled(after, player) <==> Settled(db, player)))
  {
    var recalculated := RecalculateFixture(db.logs, db.events, fixture);
    RecalculationRepairs(db.events, db.logs, fixture);
    PruneKeepsLogsOk(db.events, recalculated, fixture);
    var mid := db.(logs := Prune(recalculated, fixture));
    RefreshSettles(mid, affected, player);
    if player !in affected {
      forall i | 0 <= i < |db.logs| && db.logs[i].player == player
        ensures db.logs[i].total == recalculated[i].total
      {
        assert LogRight(db.logs[i], db.events);
      }
      SameTotalsSameSum(db.logs, recalculated, player);
      assert LogSum(mid.logs, player) == LogSum(db.logs, player);
    }
  }
}
