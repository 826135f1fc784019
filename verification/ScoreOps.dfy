/** The scoring operations on the stored state: score an event, delete one or all events of a fixture, recompute.

    Each keeps the database consistent, so a full rebuild afterwards changes nothing. A recompute is idempotent and
    repairs what a failed one left behind, with the exact limits stated below. */
module ScoreOps {
  import opened Wrappers
  import opened MatchEvents
  import opened Scoring

  // ----- Dropping events --------------------------------------------------------------------

  datatype Selection = ById(id: Id) | OfFixture(fixture: Id) | DerivedOf(fixture: Id)

  predicate Selected(e: Event, s: Selection) {
    match s
    case ById(id) => e.id == id
    case OfFixture(f) => e.body.fixture == f
    case DerivedOf(f) => e.body.fixture == f && IsDerived(e.body.kind)
  }

  function Drop(events: seq<Event>, s: Selection): seq<Event> {
    if events == [] then []
    else if Selected(events[|events| - 1], s) then Drop(events[..|events| - 1], s)
    else Drop(events[..|events| - 1], s) + [events[|events| - 1]]
  }

  function PlayersOf(events: seq<Event>, s: Selection): set<Id> {
    set i | 0 <= i < |events| && Selected(events[i], s) :: events[i].body.player
  }

  function Bodies(events: seq<Event>): (r: seq<Body>)
    ensures |r| == |events|
    ensures forall i :: 0 <= i < |events| ==> r[i] == events[i].body
  {
    seq(|events|, i requires 0 <= i < |events| => events[i].body)
  }

  lemma {:induction false} DropMembers(events: seq<Event>, s: Selection)
    ensures forall e :: e in Drop(events, s) <==> e in events && !Selected(e, s)
  {
    if events != [] {
      assert events == events[..|events| - 1] + [events[|events| - 1]];
      DropMembers(events[..|events| - 1], s);
    }
  }

  // Dropping events elsewhere leaves a log's sum alone.
  lemma {:induction false} DropKeepsKey(events: seq<Event>, s: Selection, player: Id, fixture: Id)
    requires forall i :: 0 <= i < |events| && Selected(events[i], s) ==>
      events[i].body.player != player || events[i].body.fixture != fixture
    ensures KeySum(Drop(events, s), player, fixture) == KeySum(events, player, fixture)
    ensures KeyCount(Drop(events, s), player, fixture) == KeyCount(events, player, fixture)
  {
    if events != [] {
      var front, e := events[..|events| - 1], events[|events| - 1];
      DropKeepsKey(front, s, player, fixture);
      if !Selected(e, s) {
        assert (Drop(front, s) + [e])[..|Drop(front, s)|] == Drop(front, s);
      }
    }
  }

  lemma {:induction false} KeyAppend(events: seq<Event>, more: seq<Event>, player: Id, fixture: Id)
    ensures KeySum(events + more, player, fixture) == KeySum(events, player, fixture) + KeySum(more, player, fixture)
    ensures KeyCount(events + more, player, fixture)
         == KeyCount(events, player, fixture) + KeyCount(more, player, fixture)
  {
    if more == [] {
      assert events + more == events;
    } else {
      KeyAppend(events, more[..|more| - 1], player, fixture);
      assert (events + more)[..|events + more| - 1] == events + more[..|more| - 1];
    }
  }

  lemma {:induction false} ForeignKey(events: seq<Event>, player: Id, fixture: Id)
    requires forall i :: 0 <= i < |events| ==> events[i].body.player != player || events[i].body.fixture != fixture
    ensures KeySum(events, player, fixture) == 0 && KeyCount(events, player, fixture) == 0
  {
    if events != [] {
      ForeignKey(events[..|events| - 1], player, fixture);
    }
  }

  // ----- Logs for new events --------------------------------------------------------------------

  function EnsureLogs(logs: seq<Log>, bodies: seq<Body>): seq<Log> {
    if bodies == [] then logs
    else
      var b := bodies[|bodies| - 1];
      EnsureLog(EnsureLogs(logs, bodies[..|bodies| - 1]), b.player, b.fixture)
  }

  function Number(nextId: Id, bodies: seq<Body>): (r: seq<Event>)
    ensures |r| == |bodies|
    ensures forall i :: 0 <= i < |bodies| ==> r[i] == Event(nextId + i, bodies[i])
  {
    seq(|bodies|, i requires 0 <= i < |bodies| => Event(nextId + i, bodies[i]))
  }

  lemma {:induction false} EnsureLogsFacts(logs: seq<Log>, bodies: seq<Body>)
    requires UniqueLogs(logs)
    ensures var r := EnsureLogs(logs, bodies);
            && UniqueLogs(r) && logs <= r
            && (forall i :: |logs| <= i < |r| ==>
                  && r[i].total == 0 && r[i].entries == 0
                  && exists b :: b in bodies && b.player == r[i].player && b.fixture == r[i].fixture)
            && (forall b :: b in bodies ==> HasLog(r, b.player, b.fixture))
  {
    if bodies != [] {
      var front, b := bodies[..|bodies| - 1], bodies[|bodies| - 1];
      assert bodies == front + [b];
      EnsureLogsFacts(logs, front);
      var mid := EnsureLogs(logs, front);
      var r := EnsureLogs(logs, bodies);
      if !HasLog(mid, b.player, b.fixture) {
        assert r[|mid|] == Log(b.player, b.fixture, 0, 0);
      }
      forall c | c in bodies
        ensures HasLog(r, c.player, c.fixture)
      {
        HasLogGrows(mid, r, c.player, c.fixture);
      }
    }
  }

  lemma {:induction false} HasLogGrows(logs: seq<Log>, more: seq<Log>, player: Id, fixture: Id)
    requires logs <= more
    ensures HasLog(logs, player, fixture) ==> HasLog(more, player, fixture)
  {
    if HasLog(logs, player, fixture) {
      var i :| 0 <= i < |logs| && logs[i].player == player && logs[i].fixture == fixture;
      assert more[i] == logs[i];
    }
  }

  lemma {:induction false} NewLogsAddNothing(logs: seq<Log>, more: seq<Log>, player: Id)
    requires logs <= more && forall i :: |logs| <= i < |more| ==> more[i].total == 0
    ensures LogSum(more, player) == LogSum(logs, player)
    decreases |more|
  {
    if |more| > |logs| {
      NewLogsAddNothing(logs, more[..|more| - 1], player);
    } else {
      assert more == logs;
    }
  }

  // ----- The operations --------------------------------------------------------------------------

  // The stored events are replaced and logs ensured for the new ones.
  function Restock(db: Db, s: Selection, bodies: seq<Body>): Db {
    db.(events := Drop(db.events, s) + Number(db.nextId, bodies),
    nextId := db.nextId + |bodies|,
    logs := EnsureLogs(db.logs, bodies))
  }

  function LoggedPlayers(logs: seq<Log>, fixture: Id): set<Id> {
    set i | 0 <= i < |logs| && logs[i].fixture == fixture :: logs[i].player
  }

  // recomputeFixture: derived events are dropped and derived again, and everybody with a log is refreshed.
  function Recomputed(db: Db, d: FixtureData): Db {
    var restocked := Restock(db, DerivedOf(d.id), Derive(d));
    Rescore(restocked, d.id, PlayersOf(db.events, DerivedOf(d.id)) + LoggedPlayers(restocked.logs, d.id))
  }

  // deleteAllFixtureEvents
  function DeleteAll(db: Db, fixture: Id): Db {
    if PlayersOf(db.events, OfFixture(fixture)) == {} then Materialize(db)
    else Rescore(Restock(db, OfFixture(fixture), []), fixture, PlayersOf(db.events, OfFixture(fixture)))
  }

  function RecalculateOne(logs: seq<Log>, events: seq<Event>, player: Id, fixture: Id): (r: seq<Log>)
    ensures |r| == |logs|
    ensures forall i :: 0 <= i < |logs| ==>
      r[i] == if logs[i].player == player && logs[i].fixture == fixture then Recalculated(logs[i], events) else logs[i]
  {
    seq(|logs|, i requires 0 <= i < |logs| =>
      if logs[i].player == player && logs[i].fixture == fixture then Recalculated(logs[i], events) else logs[i])
  }

  // deleteFixtureEvent; one log is recalculated, but every log of the fixture that is recorded empty is removed.
  function DeleteOne(db: Db, e: Event): Db {
    var events := Drop(db.events, ById(e.id));
    var logs := Prune(RecalculateOne(db.logs, events, e.body.player, e.body.fixture), e.body.fixture);
    Materialize(Refresh(db.(events := Cascaded(events, logs), logs := logs), {e.body.player}))
  }

  // scoreFixtureEvent; empty logs are not removed here.
  function ScoreOne(db: Db, b: Body): Db {
    var events := db.events + [Event(db.nextId, b)];
    var logs := RecalculateOne(EnsureLog(db.logs, b.player, b.fixture), events, b.player, b.fixture);
    Materialize(Refresh(db.(events := events, nextId := db.nextId + 1, logs := logs), {b.player}))
  }

  // ----- Restocking keeps other fixtures right -------------------------------------------------------

  // Only events of one fixture are dropped or added.
  ghost predicate Local(db: Db, s: Selection, bodies: seq<Body>, fixture: Id) {
    && (forall i :: 0 <= i < |db.events| && Selected(db.events[i], s) ==> db.events[i].body.fixture == fixture)
    && (forall b :: b in bodies ==> b.fixture == fixture)
  }

  lemma {:induction false} RestockedKey(db: Db, s: Selection, bodies: seq<Body>, fixture: Id, l: Log)
    requires Local(db, s, bodies, fixture) && l.fixture != fixture
    ensures Recalculated(l, Restock(db, s, bodies).events) == Recalculated(l, db.events)
  {
    var added := Number(db.nextId, bodies);
    forall i | 0 <= i < |added|
      ensures added[i].body.fixture == fixture
    {
      assert added[i].body in bodies;
    }
    DropKeepsKey(db.events, s, l.player, l.fixture);
    ForeignKey(added, l.player, l.fixture);
    KeyAppend(Drop(db.events, s), added, l.player, l.fixture);
  }

  lemma {:induction false} RestockedKeyed(db: Db, s: Selection, bodies: seq<Body>)
    requires Keyed(db.events, db.logs)
    ensures Keyed(Restock(db, s, bodies).events, Restock(db, s, bodies).logs)
  {
    var after := Restock(db, s, bodies);
    var kept := Drop(db.events, s);
    EnsureLogsFacts(db.logs, bodies);
    DropMembers(db.events, s);
    forall i | 0 <= i < |after.events|
      ensures HasLog(after.logs, after.events[i].body.player, after.events[i].body.fixture)
    {
      if i < |kept| {
        assert kept[i] in kept;
        var j :| 0 <= j < |db.events| && db.events[j] == kept[i];
        HasLogGrows(db.logs, after.logs, kept[i].body.player, kept[i].body.fixture);
      } else {
        assert after.events[i].body == bodies[i - |kept|];
      }
    }
  }

  lemma {:induction false} RestockedRightOutside(db: Db, s: Selection, bodies: seq<Body>, fixture: Id)
    requires RightOutside(db.events, db.logs, fixture) && Local(db, s, bodies, fixture)
    ensures RightOutside(Restock(db, s, bodies).events, Restock(db, s, bodies).logs, fixture)
    ensures db.logs <= Restock(db, s, bodies).logs
  {
    var after := Restock(db, s, bodies);
    EnsureLogsFacts(db.logs, bodies);
    RestockedKeyed(db, s, bodies);
    forall i | 0 <= i < |after.logs| && after.logs[i].fixture != fixture
      ensures LogRight(after.logs[i], after.events)
    {
      if i < |db.logs| {
        RestockedKey(db, s, bodies, fixture, db.logs[i]);
        assert LogRight(db.logs[i], db.events);
      }
    }
  }

  lemma {:induction false} RestockedSettled(db: Db, s: Selection, bodies: seq<Body>, player: Id)
    requires UniqueLogs(db.logs)
    ensures Settled(Restock(db, s, bodies), player) <==> Settled(db, player)
  {
    EnsureLogsFacts(db.logs, bodies);
    NewLogsAddNothing(db.logs, Restock(db, s, bodies).logs, player);
  }

  // ----- Recompute repairs -------------------------------------------------------------------------

  // Who a recompute of the fixture refreshes.
  ghost predicate Reached(db: Db, d: FixtureData, player: Id) {
    || HasLog(db.logs, player, d.id)
    || exists b :: b in Derive(d) && b.player == player
  }

  lemma {:induction false} ReachedIsAffected(db: Db, d: FixtureData, player: Id)
    requires Keyed(db.events, db.logs)
    ensures var restocked := Restock(db, DerivedOf(d.id), Derive(d));
            var affected := PlayersOf(db.events, DerivedOf(d.id)) + LoggedPlayers(restocked.logs, d.id);
            player in affected <==> Reached(db, d, player)
  {
    var restocked := Restock(db, DerivedOf(d.id), Derive(d));
    EnsureLogsFacts(db.logs, Derive(d));
    DerivedAreOwned(d);
    if player in LoggedPlayers(restocked.logs, d.id) {
      var i :| 0 <= i < |restocked.logs| && restocked.logs[i].fixture == d.id && restocked.logs[i].player == player;
      if i < |db.logs| {
        assert db.logs[i] == restocked.logs[i];
      }
    }
    if player in PlayersOf(db.events, DerivedOf(d.id)) {
      var i :| 0 <= i < |db.events| && Selected(db.events[i], DerivedOf(d.id)) && db.events[i].body.player == player;
      assert HasLog(db.logs, db.events[i].body.player, db.events[i].body.fixture);
    }
    if Reached(db, d, player) {
      HasLogGrows(db.logs, restocked.logs, player, d.id);
      assert HasLog(restocked.logs, player, d.id);
    }
  }

  // One good recompute, from any state whose logs are right outside the fixture - in particular after any number of
  // failed recomputes of it. The events, logs and team totals come out right; a player's totals do exactly when they
  // were right before or the recompute reaches the player.
  lemma {:induction false} RecomputeRepairs(db: Db, d: FixtureData, player: Id)
    requires RightOutside(db.events, db.logs, d.id)
    ensures var after := Recomputed(db, d);
            && Bodies(after.events) == Bodies(Drop(db.events, DerivedOf(d.id))) + Derive(d)
            && LogsOk(after.events, after.logs) && TeamsOk(after)
            && (forall l :: l in after.logs && l.fixture == d.id ==> l.entries > 0)
            && (Settled(after, player) <==> Settled(db, player) || Reached(db, d, player))
  {
    var s := DerivedOf(d.id);
    var restocked := Restock(db, s, Derive(d));
    var affected := PlayersOf(db.events, s) + LoggedPlayers(restocked.logs, d.id);
    DerivedAreOwned(d);
    RestockedRightOutside(db, s, Derive(d), d.id);
    RestockedSettled(db, s, Derive(d), player);
    ReachedIsAffected(db, d, player);
    RescoreRepairs(restocked, d.id, affected, player);
    assert Bodies(restocked.events) == Bodies(Drop(db.events, s)) + Derive(d);
  }

  // A recompute keeps a consistent database consistent, so a full rebuild afterwards changes nothing.
  lemma {:induction false} RecomputeKeepsConsistent(db: Db, d: FixtureData)
    requires Consistent(db)
    ensures Consistent(Recomputed(db, d))
    ensures FullRebuild(Recomputed(db, d)) == Recomputed(db, d)
  {
    forall p
      ensures Settled(Recomputed(db, d), p)
    {
      assert Settled(db, p);
      RecomputeRepairs(db, d, p);
    }
    RecomputeRepairs(db, d, 0);
    RebuildChangesNothing(Recomputed(db, d));
  }

  lemma {:induction false} DeleteAllKeepsConsistent(db: Db, fixture: Id)
    requires Consistent(db)
    ensures Consistent(DeleteAll(db, fixture))
    ensures FullRebuild(DeleteAll(db, fixture)) == DeleteAll(db, fixture)
  {
    var s := OfFixture(fixture);
    var after := DeleteAll(db, fixture);
    if PlayersOf(db.events, s) == {} {
      assert after == db by { assert Materialize(db).teams == db.teams; }
    } else {
      assert Restock(db, s, []).events == Drop(db.events, s);
      RestockedRightOutside(db, s, [], fixture);
      forall p
        ensures Settled(after, p)
      {
        DeletedAllSettled(db, fixture, p);
      }
      RescoreLogsOk(Restock(db, s, []), fixture, PlayersOf(db.events, s));
    }
    RebuildChangesNothing(after);
  }

  lemma {:induction false} DeletedAllSettled(db: Db, fixture: Id, player: Id)
    requires Consistent(db)
    ensures var s := OfFixture(fixture);
            Settled(Rescore(Restock(db, s, []), fixture, PlayersOf(db.events, s)), player)
  {
    var s := OfFixture(fixture);
    assert Settled(db, player);
    RestockedSettled(db, s, [], player);
    RestockedRightOutside(db, s, [], fixture);
    UntouchedLogs(db, s, player);
    RescoreRepairs(Restock(db, s, []), fixture, PlayersOf(db.events, s), player);
  }

  // No event of the fixture is left, others stay. Its logs go too - unless there was no event to delete, when logs
  // without events stay.
  lemma {:induction false} DeleteAllEmptiesFixture(db: Db, fixture: Id)
    requires Keyed(db.events, db.logs)
    ensures var after := DeleteAll(db, fixture);
            && Keyed(after.events, after.logs)
            && (forall e :: e in after.events <==> e in db.events && e.body.fixture != fixture)
            && ((forall l :: l in after.logs ==> l.fixture != fixture)
                <==> (exists e :: e in db.events && e.body.fixture == fixture)
                     || forall l :: l in db.logs ==> l.fixture != fixture)
  {
    var s := OfFixture(fixture);
    var restocked := Restock(db, s, []);
    DropMembers(db.events, s);
    if e :| e in db.events && e.body.fixture == fixture {
      assert e.body.player in PlayersOf(db.events, s);
    }
    if PlayersOf(db.events, s) != {} {
      RestockedKeyed(db, s, []);
      assert restocked.events == Drop(db.events, s);
      NoLogsLeft(restocked.events, restocked.logs, fixture);
    }
  }

  lemma {:induction false} NoLogsLeft(events: seq<Event>, logs: seq<Log>, fixture: Id)
    requires Keyed(events, logs) && forall e :: e in events ==> e.body.fixture != fixture
    ensures var left := Prune(RecalculateFixture(logs, events, fixture), fixture);
            Keyed(events, left) && forall l :: l in left ==> l.fixture != fixture
  {
    RecalculatedPruneKeepsKeys(events, logs, fixture);
    assert forall i :: 0 <= i < |events| ==> events[i] in events;
    forall player
      ensures KeyCount(events, player, fixture) == 0
    {
      ForeignKey(events, player, fixture);
    }
  }

  lemma {:induction false} RescoreLogsOk(db: Db, fixture: Id, affected: set<Id>)
    requires RightOutside(db.events, db.logs, fixture)
    ensures LogsOk(db.events, Rescore(db, fixture, affected).logs) && TeamsOk(Rescore(db, fixture, affected))
  {
    RecalculationRepairs(db.events, db.logs, fixture);
    PruneKeepsLogsOk(db.events, RecalculateFixture(db.logs, db.events, fixture), fixture);
  }

  // The logs of a player none of whose events were dropped stay right.
  lemma {:induction false} UntouchedLogs(db: Db, s: Selection, player: Id)
    requires LogsOk(db.events, db.logs)
    ensures player !in PlayersOf(db.events, s) ==>
      forall i :: 0 <= i < |db.logs| && db.logs[i].player == player ==> LogRight(db.logs[i], Restock(db, s, []).events)
  {
    if player !in PlayersOf(db.events, s) {
      forall i | 0 <= i < |db.logs| && db.logs[i].player == player
        ensures LogRight(db.logs[i], Restock(db, s, []).events)
      {
        forall j | 0 <= j < |db.events| && Selected(db.events[j], s)
          ensures db.events[j].body.player != player
        {
          assert db.events[j].body.player in PlayersOf(db.events, s);
        }
        DropKeepsKey(db.events, s, player, db.logs[i].fixture);
        assert Restock(db, s, []).events == Drop(db.events, s);
        assert LogRight(db.logs[i], db.events);
      }
    }
  }

  // ----- Scoring and deleting one event --------------------------------------------------------------

  // Event ids come from a sequence.
  ghost predicate DistinctIds(events: seq<Event>, nextId: Id) {
    && (forall i :: 0 <= i < |events| ==> events[i].id < nextId)
    && (forall i, j :: 0 <= i < j < |events| ==> events[i].id != events[j].id)
  }

  ghost predicate IdsOk(db: Db) {
    DistinctIds(db.events, db.nextId)
  }

  function Find(events: seq<Event>, id: Id): (e: Option<Event>)
    ensures e.Some? ==> e.value in events && e.value.id == id
    ensures e.None? ==> forall x :: x in events ==> x.id != id
  {
    if events == [] then None
    else if events[|events| - 1].id == id then Some(events[|events| - 1])
    else
      assert events == events[..|events| - 1] + [events[|events| - 1]];
      Find(events[..|events| - 1], id)
  }

  lemma {:induction false} DropKeepsIds(events: seq<Event>, s: Selection, nextId: Id)
    requires DistinctIds(events, nextId)
    ensures DistinctIds(Drop(events, s), nextId)
  {
    if events != [] {
      var front, e := events[..|events| - 1], events[|events| - 1];
      DropKeepsIds(front, s, nextId);
      DropMembers(front, s);
      if !Selected(e, s) {
        forall i | 0 <= i < |Drop(front, s)|
          ensures Drop(front, s)[i].id != e.id
        {
          assert Drop(front, s)[i] in front;
        }
      }
    }
  }

  lemma {:induction false} RestockKeepsIds(db: Db, s: Selection, bodies: seq<Body>)
    requires IdsOk(db)
    ensures IdsOk(Restock(db, s, bodies))
  {
    DropKeepsIds(db.events, s, db.nextId);
  }

  // When all other logs are right, recalculating one log is recalculating its fixture.
  lemma {:induction false} OneIsEnough(logs: seq<Log>, events: seq<Event>, player: Id, fixture: Id)
    requires forall i :: 0 <= i < |logs| ==>
      LogRight(logs[i], events) || (logs[i].player == player && logs[i].fixture == fixture)
    ensures RecalculateOne(logs, events, player, fixture) == RecalculateFixture(logs, events, fixture)
  {
  }

  // The logs of other players and fixtures stay right when one event goes.
  lemma {:induction false} OtherLogsStayRight(db: Db, e: Event, kept: seq<Event>)
    requires LogsOk(db.events, db.logs) && IdsOk(db) && e in db.events && kept == Drop(db.events, ById(e.id))
    ensures RightOutside(kept, db.logs, e.body.fixture)
    ensures forall i :: 0 <= i < |db.logs| ==>
      LogRight(db.logs[i], kept) || (db.logs[i].player == e.body.player && db.logs[i].fixture == e.body.fixture)
  {
    var s := ById(e.id);
    assert Restock(db, s, []).events == kept;
    DropMembers(db.events, s);
    assert Local(db, s, [], e.body.fixture);
    RestockedRightOutside(db, s, [], e.body.fixture);
    forall i | 0 <= i < |db.logs| && (db.logs[i].player != e.body.player || db.logs[i].fixture != e.body.fixture)
      ensures LogRight(db.logs[i], kept)
    {
      DropKeepsKey(db.events, s, db.logs[i].player, db.logs[i].fixture);
      assert LogRight(db.logs[i], db.events);
    }
  }

  lemma {:induction false} DeleteOneKeepsConsistent(db: Db, e: Event)
    requires Consistent(db) && IdsOk(db) && e in db.events
    ensures Consistent(DeleteOne(db, e)) && FullRebuild(DeleteOne(db, e)) == DeleteOne(db, e)
    ensures forall x :: x in DeleteOne(db, e).events <==> x in db.events && x != e
  {
    var kept, after := Drop(db.events, ById(e.id)), DeleteOne(db, e);
    DropMembers(db.events, ById(e.id));
    OtherLogsStayRight(db, e, kept);
    RecalculatedPruneKeepsKeys(kept, db.logs, e.body.fixture);
    OneIsEnough(db.logs, kept, e.body.player, e.body.fixture);
    assert after == Rescore(db.(events := kept), e.body.fixture, {e.body.player});
    RescoredSettled(db, kept, e.body.fixture, {e.body.player});
    RebuildChangesNothing(after);
  }

  // Another player's log of the fixture is recorded empty although it has events: a failed recompute created them and
  // did not get to recalculate the log.
  ghost predicate RecordedEmpty(db: Db, x: Event, e: Event) {
    && x in db.events && x.body.fixture == e.body.fixture && x.body.player != e.body.player
    && exists l :: l in db.logs && l.player == x.body.player && l.fixture == x.body.fixture && l.entries == 0
  }

  lemma {:induction false} DeleteOneKeepsKeys(db: Db, e: Event)
    requires Keyed(db.events, db.logs)
    ensures Keyed(DeleteOne(db, e).events, DeleteOne(db, e).logs)
    ensures IdsOk(db) ==> IdsOk(DeleteOne(db, e))
  {
    var kept, after := Drop(db.events, ById(e.id)), DeleteOne(db, e);
    var recalculated := RecalculateOne(db.logs, kept, e.body.player, e.body.fixture);
    assert UniqueLogs(recalculated);
    PruneFacts(recalculated, e.body.fixture);
    CascadedMembers(kept, after.logs);
    forall i | 0 <= i < |after.events|
      ensures HasLog(after.logs, after.events[i].body.player, after.events[i].body.fixture)
    {
      assert after.events[i] in after.events;
    }
    if IdsOk(db) {
      DropKeepsIds(db.events, ById(e.id), db.nextId);
      CascadeKeepsIds(kept, after.logs, db.nextId);
    }
  }

  // After a failed recompute the deletion of one event takes exactly those other events with it whose logs are
  // recorded empty.
  lemma {:induction false} DeleteOneTakes(db: Db, e: Event, x: Event)
    requires Keyed(db.events, db.logs) && IdsOk(db) && e in db.events
    ensures x in DeleteOne(db, e).events <==> x in db.events && x != e && !RecordedEmpty(db, x, e)
  {
    var kept := Drop(db.events, ById(e.id));
    DropMembers(db.events, ById(e.id));
    CascadedMembers(kept, DeleteOne(db, e).logs);
    if x in kept {
      LogUnlessRecordedEmpty(db, e, x, kept, RecalculateOne(db.logs, kept, e.body.player, e.body.fixture));
    }
  }

  lemma {:induction false} LogUnlessRecordedEmpty(db: Db, e: Event, x: Event, kept: seq<Event>, recalculated: seq<Log>)
    requires Keyed(db.events, db.logs) && x in db.events && x in kept
    requires recalculated == RecalculateOne(db.logs, kept, e.body.player, e.body.fixture)
    ensures HasLog(Prune(recalculated, e.body.fixture), x.body.player, x.body.fixture) <==> !RecordedEmpty(db, x, e)
  {
    var i :| 0 <= i < |db.events| && db.events[i] == x;
    assert HasLog(db.logs, db.events[i].body.player, db.events[i].body.fixture);
    var j :| 0 <= j < |db.logs| && db.logs[j].player == x.body.player && db.logs[j].fixture == x.body.fixture;
    LogSurvives(db.logs, recalculated, Prune(recalculated, e.body.fixture), j, x.body, kept, e.body);
    assert db.logs[j] in db.logs;
  }

  lemma {:induction false} LogSurvives(logs: seq<Log>, recalculated: seq<Log>, pruned: seq<Log>, j: nat, x: Body,
                                       kept: seq<Event>, e: Body)
    requires UniqueLogs(logs) && recalculated == RecalculateOne(logs, kept, e.player, e.fixture)
    requires pruned == Prune(recalculated, e.fixture)
    requires j < |logs| && logs[j].player == x.player && logs[j].fixture == x.fixture
    requires exists y :: y in kept && y.body == x
    ensures HasLog(pruned, x.player, x.fixture)
       <==> x.fixture != e.fixture || x.player == e.player || logs[j].entries != 0
  {
    PruneFacts(recalculated, e.fixture);
    if recalculated[j].entries == 0 && x.player == e.player && x.fixture == e.fixture {
      EmptyKey(kept, x.player, x.fixture);
    }
    if recalculated[j] in pruned {
      var k :| 0 <= k < |pruned| && pruned[k] == recalculated[j];
    }
    if HasLog(pruned, x.player, x.fixture) {
      var k :| 0 <= k < |pruned| && pruned[k].player == x.player && pruned[k].fixture == x.fixture;
      assert pruned[k] in recalculated;
      var m :| 0 <= m < |recalculated| && recalculated[m] == pruned[k];
      assert m == j;
    }
  }

  lemma {:induction false} CascadeKeepsIds(events: seq<Event>, logs: seq<Log>, nextId: Id)
    requires DistinctIds(events, nextId)
    ensures DistinctIds(Cascaded(events, logs), nextId)
  {
    if events != [] {
      var front, e := events[..|events| - 1], events[|events| - 1];
      CascadeKeepsIds(front, logs, nextId);
      CascadedMembers(front, logs);
      forall i | 0 <= i < |Cascaded(front, logs)|
        ensures Cascaded(front, logs)[i].id != e.id
      {
        assert Cascaded(front, logs)[i] in front;
      }
    }
  }

  // Rescoring settles everybody when the logs of unaffected players stay right.
  lemma {:induction false} RescoredSettled(db: Db, events: seq<Event>, fixture: Id, affected: set<Id>)
    requires forall p :: Settled(db, p)
    requires RightOutside(events, db.logs, fixture)
    requires forall i :: 0 <= i < |db.logs| && db.logs[i].player !in affected ==> LogRight(db.logs[i], events)
    ensures Consistent(Rescore(db.(events := events), fixture, affected))
  {
    var start := db.(events := events);
    forall p
      ensures Settled(Rescore(start, fixture, affected), p)
    {
      assert Settled(db, p);
      RescoreRepairs(start, fixture, affected, p);
    }
    RescoreLogsOk(start, fixture, affected);
  }

  lemma {:induction false} ScoreOneKeepsConsistent(db: Db, b: Body)
    requires Consistent(db)
    ensures Consistent(ScoreOne(db, b)) && FullRebuild(ScoreOne(db, b)) == ScoreOne(db, b)
    ensures ScoreOne(db, b).events == db.events + [Event(db.nextId, b)]
  {
    var after := ScoreOne(db, b);
    ScoredLogsOk(db, b);
    forall p
      ensures Settled(after, p)
    {
      assert Settled(db, p);
      ScoredSum(db, b, p);
      RefreshSettles(db.(events := after.events, nextId := db.nextId + 1, logs := after.logs), {b.player}, p);
    }
    RebuildChangesNothing(after);
  }

  lemma {:induction false} ScoreOneKeepsKeys(db: Db, b: Body)
    requires Keyed(db.events, db.logs)
    ensures Keyed(ScoreOne(db, b).events, ScoreOne(db, b).logs)
    ensures IdsOk(db) ==> IdsOk(ScoreOne(db, b))
    ensures ScoreOne(db, b).events == db.events + [Event(db.nextId, b)]
  {
    var events, logs := ScoreOne(db, b).events, ScoreOne(db, b).logs;
    var ensured := EnsureLog(db.logs, b.player, b.fixture);
    assert db.logs <= ensured && HasLog(ensured, b.player, b.fixture) by {
      if !HasLog(db.logs, b.player, b.fixture) {
        assert ensured[|db.logs|].player == b.player && ensured[|db.logs|].fixture == b.fixture;
      }
    }
    forall i | 0 <= i < |events|
      ensures HasLog(logs, events[i].body.player, events[i].body.fixture)
    {
      var c := events[i].body;
      if i < |db.events| {
        assert HasLog(db.logs, c.player, c.fixture);
        HasLogGrows(db.logs, ensured, c.player, c.fixture);
      }
      var j :| 0 <= j < |ensured| && ensured[j].player == c.player && ensured[j].fixture == c.fixture;
      assert logs[j].player == c.player && logs[j].fixture == c.fixture;
    }
  }

  lemma {:induction false} ScoredLogsOk(db: Db, b: Body)
    requires LogsOk(db.events, db.logs)
    ensures LogsOk(ScoreOne(db, b).events, ScoreOne(db, b).logs)
  {
    var e := Event(db.nextId, b);
    var events, logs := db.events + [e], ScoreOne(db, b).logs;
    ScoreOneKeepsKeys(db, b);
    forall i | 0 <= i < |logs|
      ensures LogRight(logs[i], events)
    {
      if logs[i].player != b.player || logs[i].fixture != b.fixture {
        assert logs[i] == db.logs[i] && LogRight(db.logs[i], db.events);
        assert (db.events + [e])[..|db.events|] == db.events;
      }
    }
  }

  lemma {:induction false} ScoredSum(db: Db, b: Body, player: Id)
    ensures player != b.player ==> LogSum(ScoreOne(db, b).logs, player) == LogSum(db.logs, player)
  {
    if player != b.player {
      var ensured := EnsureLog(db.logs, b.player, b.fixture);
      NewLogsAddNothing(db.logs, ensured, player);
      SameTotalsSameSum(ensured, ScoreOne(db, b).logs, player);
    }
  }
}
