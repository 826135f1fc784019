/** Repeating and repairing a recompute: what a second run changes, and what a good run makes of a failed one. */
module Recompute {
  import opened Wrappers
  import opened Participants
  import opened MatchEvents
  import opened Scoring
  import Ops = ScoreOps

  // Equal up to the ids of events.
  ghost predicate SameUpToIds(a: Db, b: Db) {
    && Ops.Bodies(a.events) == Ops.Bodies(b.events)
    && a.logs == b.logs && a.players == b.players && a.picks == b.picks && a.teams == b.teams
  }

  lemma {:induction false} BodiesDecideKeys(a: seq<Event>, b: seq<Event>, player: Id, fixture: Id)
    requires Ops.Bodies(a) == Ops.Bodies(b)
    ensures KeySum(a, player, fixture) == KeySum(b, player, fixture)
    ensures KeyCount(a, player, fixture) == KeyCount(b, player, fixture)
  {
    assert |a| == |b| by { assert |Ops.Bodies(a)| == |Ops.Bodies(b)|; }
    if a != [] {
      assert Ops.Bodies(a[..|a| - 1]) == Ops.Bodies(a)[..|a| - 1] == Ops.Bodies(b)[..|b| - 1]
           == Ops.Bodies(b[..|b| - 1]);
      BodiesDecideKeys(a[..|a| - 1], b[..|b| - 1], player, fixture);
      assert Ops.Bodies(a)[|a| - 1] == Ops.Bodies(b)[|b| - 1];
    }
  }

  lemma {:induction false} DropAppend(a: seq<Event>, b: seq<Event>, s: Ops.Selection)
    ensures Ops.Drop(a + b, s) == Ops.Drop(a, s) + Ops.Drop(b, s)
  {
    if b == [] {
      assert a + b == a;
    } else {
      DropAppend(a, b[..|b| - 1], s);
      assert (a + b)[..|a + b| - 1] == a + b[..|b| - 1];
    }
  }

  lemma {:induction false} DropNothing(a: seq<Event>, s: Ops.Selection)
    requires forall i :: 0 <= i < |a| ==> !Ops.Selected(a[i], s)
    ensures Ops.Drop(a, s) == a
  {
    if a != [] {
      DropNothing(a[..|a| - 1], s);
    }
  }

  lemma {:induction false} DropEverything(a: seq<Event>, s: Ops.Selection)
    requires forall i :: 0 <= i < |a| ==> Ops.Selected(a[i], s)
    ensures Ops.Drop(a, s) == []
  {
    if a != [] {
      DropEverything(a[..|a| - 1], s);
    }
  }

  // What a recompute keeps is not touched by deriving some events before it.
  lemma {:induction false} DropDerived(db: Db, d: FixtureData, nextId: Id, bodies: seq<Body>)
    requires AllOwned(d, bodies)
    ensures Ops.Drop(Ops.Drop(db.events, Ops.DerivedOf(d.id)) + Ops.Number(nextId, bodies), Ops.DerivedOf(d.id))
         == Ops.Drop(db.events, Ops.DerivedOf(d.id))
  {
    var s := Ops.DerivedOf(d.id);
    var kept, added := Ops.Drop(db.events, s), Ops.Number(nextId, bodies);
    DropAppend(kept, added, s);
    Ops.DropMembers(db.events, s);
    forall i | 0 <= i < |kept|
      ensures !Ops.Selected(kept[i], s)
    {
      assert kept[i] in kept;
    }
    DropNothing(kept, s);
    forall i | 0 <= i < |added|
      ensures Ops.Selected(added[i], s)
    {
      assert added[i].body in bodies;
    }
    DropEverything(added, s);
  }

  lemma {:induction false} NothingToEnsure(logs: seq<Log>, bodies: seq<Body>)
    requires forall b :: b in bodies ==> HasLog(logs, b.player, b.fixture)
    ensures Ops.EnsureLogs(logs, bodies) == logs
  {
    if bodies != [] {
      NothingToEnsure(logs, bodies[..|bodies| - 1]);
    }
  }

  lemma {:induction false} NothingToPrune(logs: seq<Log>, fixture: Id)
    requires forall l :: l in logs && l.fixture == fixture ==> l.entries > 0
    ensures Prune(logs, fixture) == logs
  {
    if logs != [] {
      var front, l := logs[..|logs| - 1], logs[|logs| - 1];
      assert logs == front + [l];
      NothingToPrune(front, fixture);
    }
  }

  // The second run finds every log in place and right.
  lemma {:induction false} LogsSettled(once: Db, d: FixtureData, events: seq<Event>)
    requires LogsOk(once.events, once.logs)
    requires forall l :: l in once.logs && l.fixture == d.id ==> l.entries > 0
    requires Ops.Bodies(events) == Ops.Bodies(once.events)
    requires forall b :: b in Derive(d) ==> b in Ops.Bodies(once.events)
    ensures Prune(RecalculateFixture(Ops.EnsureLogs(once.logs, Derive(d)), events, d.id), d.id) == once.logs
  {
    forall b | b in Derive(d)
      ensures HasLog(once.logs, b.player, b.fixture)
    {
      var i :| 0 <= i < |Ops.Bodies(once.events)| && Ops.Bodies(once.events)[i] == b;
      assert once.events[i].body == b;
    }
    NothingToEnsure(once.logs, Derive(d));
    forall i | 0 <= i < |once.logs|
      ensures Recalculated(once.logs[i], events) == once.logs[i]
    {
      assert LogRight(once.logs[i], once.events);
      BodiesDecideKeys(events, once.events, once.logs[i].player, once.logs[i].fixture);
    }
    assert RecalculateFixture(once.logs, events, d.id) == once.logs;
    NothingToPrune(once.logs, d.id);
  }

  lemma {:induction false} RefreshOfSettled(db: Db, affected: set<Id>)
    requires forall p :: p in affected ==> Settled(db, p)
    requires TeamsOk(db)
    ensures Materialize(Refresh(db, affected)) == db
  {
    var after := Refresh(db, affected);
    forall i | 0 <= i < |db.picks|
      ensures after.picks[i] == db.picks[i]
    {
      assert db.picks[i].player in affected ==> Settled(db, db.picks[i].player);
    }
    assert after.picks == db.picks;
    forall p | p in db.players
      ensures after.players[p] == db.players[p]
    {
      assert p in affected ==> Settled(db, p);
    }
    assert after.players == db.players;
    assert Materialize(after).teams == db.teams;
  }

  // Idempotence: with unchanged fixture data a second recompute changes nothing but the ids of derived events.
  lemma {:induction false} RecomputeTwice(db: Db, d: FixtureData)
    requires RightOutside(db.events, db.logs, d.id)
    ensures SameUpToIds(Ops.Recomputed(Ops.Recomputed(db, d), d), Ops.Recomputed(db, d))
  {
    var s := Ops.DerivedOf(d.id);
    var once := Ops.Recomputed(db, d);
    DerivedAreOwned(d);
    Ops.RecomputeRepairs(db, d, 0);
    Ops.RecomputeRepairs(once, d, 0);
    DropDerived(db, d, db.nextId, Derive(d));
    assert once.events == Ops.Drop(db.events, s) + Ops.Number(db.nextId, Derive(d));
    var again := Ops.Restock(once, s, Derive(d));
    assert Ops.Bodies(again.events) == Ops.Bodies(once.events);
    LogsSettled(once, d, again.events);
    var affected := Ops.PlayersOf(once.events, s) + Ops.LoggedPlayers(again.logs, d.id);
    forall p | p in affected
      ensures Settled(once, p)
    {
      Ops.ReachedIsAffected(once, d, p);
      ReachedBefore(db, d, p);
      Ops.RecomputeRepairs(db, d, p);
    }
    var start := again.(logs := once.logs);
    assert forall p :: Settled(start, p) <==> Settled(once, p);
    RefreshOfSettled(start, affected);
  }

  lemma {:induction false} PrunedLogWasThere(logs: seq<Log>, events: seq<Event>, player: Id, fixture: Id)
    requires HasLog(Prune(RecalculateFixture(logs, events, fixture), fixture), player, fixture)
    ensures HasLog(logs, player, fixture)
  {
    var recalculated := RecalculateFixture(logs, events, fixture);
    var pruned := Prune(recalculated, fixture);
    PruneFacts(recalculated, fixture);
    var i :| 0 <= i < |pruned| && pruned[i].player == player && pruned[i].fixture == fixture;
    assert pruned[i] in recalculated;
    var j :| 0 <= j < |recalculated| && recalculated[j] == pruned[i];
    assert logs[j].player == player && logs[j].fixture == fixture;
  }

  lemma {:induction false} EnsuredLogHasReason(logs: seq<Log>, bodies: seq<Body>, player: Id, fixture: Id)
    requires UniqueLogs(logs) && HasLog(Ops.EnsureLogs(logs, bodies), player, fixture)
    ensures HasLog(logs, player, fixture) || exists b :: b in bodies && b.player == player && b.fixture == fixture
  {
    var ensured := Ops.EnsureLogs(logs, bodies);
    Ops.EnsureLogsFacts(logs, bodies);
    var j :| 0 <= j < |ensured| && ensured[j].player == player && ensured[j].fixture == fixture;
    if j < |logs| {
      assert logs[j] == ensured[j];
    }
  }

  // Whoever the second run reaches was reached by the first.
  lemma {:induction false} ReachedBefore(db: Db, d: FixtureData, player: Id)
    requires RightOutside(db.events, db.logs, d.id)
    requires Ops.Reached(Ops.Recomputed(db, d), d, player)
    ensures Ops.Reached(db, d, player)
  {
    if HasLog(Ops.Recomputed(db, d).logs, player, d.id) {
      var restocked := Ops.Restock(db, Ops.DerivedOf(d.id), Derive(d));
      PrunedLogWasThere(restocked.logs, restocked.events, player, d.id);
      EnsuredLogHasReason(db.logs, Derive(d), player, d.id);
    }
  }

  // ----- Failed runs --------------------------------------------------------------------------------

  // What a recompute of the fixture that failed before removing empty logs may leave behind, whatever data it saw: the
  // kept events are all there, logs were only added or recalculated at the fixture, and no total was written.
  ghost predicate FailedBeforePruning(db: Db, left: Db, fixture: Id) {
    && Ops.Bodies(Ops.Drop(left.events, Ops.DerivedOf(fixture)))
         == Ops.Bodies(Ops.Drop(db.events, Ops.DerivedOf(fixture)))
    && Keyed(left.events, left.logs)
    && (RightOutside(db.events, db.logs, fixture) ==> RightOutside(left.events, left.logs, fixture))
    && OnlyAtFixture(db.logs, left.logs, fixture)
    && left.players == db.players && left.picks == db.picks && left.teams == db.teams
  }

  ghost predicate OnlyAtFixture(before: seq<Log>, after: seq<Log>, fixture: Id) {
    && |before| <= |after|
    && (forall i :: 0 <= i < |before| ==>
          && after[i].player == before[i].player && after[i].fixture == before[i].fixture
          && (before[i].fixture != fixture ==> after[i] == before[i]))
    && (forall i :: |before| <= i < |after| ==> after[i].fixture == fixture)
  }

  // Any number of failed runs in a row, each from what the one before left.
  ghost predicate FailedRuns(states: seq<Db>, fixture: Id) {
    states != [] && forall i :: 0 <= i < |states| - 1 ==> FailedBeforePruning(states[i], states[i + 1], fixture)
  }

  // They leave no more behind than one of them.
  lemma {:induction false} FailedRunsAreOne(states: seq<Db>, fixture: Id)
    requires FailedRuns(states, fixture) && Keyed(states[0].events, states[0].logs)
    ensures FailedBeforePruning(states[0], states[|states| - 1], fixture)
  {
    if |states| > 1 {
      var front := states[..|states| - 1];
      FailedRunsAreOne(front, fixture);
      assert FailedBeforePruning(states[|states| - 2], states[|states| - 1], fixture);
      LogsCompose(states[0].logs, front[|front| - 1].logs, states[|states| - 1].logs, fixture);
    }
  }

  lemma {:induction false} LogsCompose(a: seq<Log>, b: seq<Log>, c: seq<Log>, fixture: Id)
    requires OnlyAtFixture(a, b, fixture) && OnlyAtFixture(b, c, fixture)
    ensures OnlyAtFixture(a, c, fixture)
  {
    forall i | |a| <= i < |c|
      ensures c[i].fixture == fixture
    {
      assert i < |b| ==> c[i].fixture == b[i].fixture;
    }
  }

  lemma {:induction false} ElsewhereUnchanged(before: seq<Log>, after: seq<Log>, fixture: Id, player: Id, n: nat)
    requires OnlyAtFixture(before, after, fixture) && !HasLog(after, player, fixture)
    requires n <= |after|
    ensures LogSum(after[..n], player) == LogSum(before[..Min(n, |before|)], player)
  {
    if n > 0 {
      ElsewhereUnchanged(before, after, fixture, player, n - 1);
      assert after[..n][..n - 1] == after[..n - 1];
      assert after[n - 1].player == player ==> after[n - 1].fixture != fixture;
      if n <= |before| {
        assert before[..n][..n - 1] == before[..n - 1];
      }
    }
  }

  // Whoever lost his right total in a failed run has a log at the fixture.
  lemma {:induction false} UnreachedStaysSettled(db: Db, left: Db, fixture: Id, player: Id)
    requires Settled(db, player) && FailedBeforePruning(db, left, fixture) && !HasLog(left.logs, player, fixture)
    ensures Settled(left, player)
  {
    ElsewhereUnchanged(db.logs, left.logs, fixture, player, |left.logs|);
    assert left.logs[..|left.logs|] == left.logs && db.logs[..|db.logs|] == db.logs;
  }

  lemma {:induction false} OneFailureHeals(db: Db, left: Db, d: FixtureData)
    requires Consistent(db) && FailedBeforePruning(db, left, d.id)
    ensures Consistent(Ops.Recomputed(left, d))
    ensures Ops.Bodies(Ops.Recomputed(left, d).events) == Ops.Bodies(Ops.Recomputed(db, d).events)
  {
    Ops.RecomputeRepairs(left, d, 0);
    Ops.RecomputeRepairs(db, d, 0);
    forall p
      ensures Settled(Ops.Recomputed(left, d), p)
    {
      Ops.RecomputeRepairs(left, d, p);
      assert Settled(db, p);
      if !HasLog(left.logs, p, d.id) {
        UnreachedStaysSettled(db, left, d.id, p);
      }
    }
  }

  // The same rows, apart from the totals they store.
  ghost predicate SameRows(a: Db, b: Db) {
    && a.players.Keys == b.players.Keys && a.teams.Keys == b.teams.Keys && |a.picks| == |b.picks|
    && forall i :: 0 <= i < |a.picks| ==> a.picks[i] == b.picks[i].(livePoints := a.picks[i].livePoints)
  }

  lemma {:induction false} BodiesDecidePoints(a: seq<Event>, b: seq<Event>, player: Id)
    requires Ops.Bodies(a) == Ops.Bodies(b)
    ensures PlayerPoints(a, player) == PlayerPoints(b, player)
  {
    assert |a| == |b| by { assert |Ops.Bodies(a)| == |Ops.Bodies(b)|; }
    if a != [] {
      var last := |a| - 1;
      assert Ops.Bodies(a[..last]) == Ops.Bodies(a)[..last] == Ops.Bodies(b)[..last] == Ops.Bodies(b[..last]);
      BodiesDecidePoints(a[..last], b[..last], player);
      assert Ops.Bodies(a)[last] == Ops.Bodies(b)[last];
    }
  }

  // In consistent databases the events decide every total.
  lemma {:induction false} EventsDecideTotals(a: Db, b: Db)
    requires Consistent(a) && Consistent(b) && SameRows(a, b) && Ops.Bodies(a.events) == Ops.Bodies(b.events)
    ensures a.players == b.players && a.picks == b.picks && a.teams == b.teams
  {
    forall player
      ensures LogSum(a.logs, player) == LogSum(b.logs, player) && Settled(a, player) && Settled(b, player)
    {
      TotalsAreEventSums(a, player);
      TotalsAreEventSums(b, player);
      BodiesDecidePoints(a.events, b.events, player);
    }
    forall i | 0 <= i < |a.picks|
      ensures a.picks[i] == b.picks[i]
    {
      assert Settled(a, a.picks[i].player) && Settled(b, b.picks[i].player);
    }
    forall p | p in a.players
      ensures a.players[p] == b.players[p]
    {
      assert Settled(a, p) && Settled(b, p);
    }
  }

  // Self-healing: after any number of runs that failed before empty logs were removed, whatever data they saw, one
  // good run makes everything right: events, player totals, live points and team totals are those of a run without
  // any failure.
  lemma {:induction false} GoodRunHeals(states: seq<Db>, d: FixtureData)
    requires FailedRuns(states, d.id) && Consistent(states[0])
    ensures var healed, smooth := Ops.Recomputed(states[|states| - 1], d), Ops.Recomputed(states[0], d);
            && Consistent(healed) && Ops.Bodies(healed.events) == Ops.Bodies(smooth.events)
            && healed.players == smooth.players && healed.picks == smooth.picks && healed.teams == smooth.teams
  {
    FailedRunsAreOne(states, d.id);
    OneFailureHeals(states[0], states[|states| - 1], d);
    Ops.RecomputeKeepsConsistent(states[0], d);
    EventsDecideTotals(Ops.Recomputed(states[|states| - 1], d), Ops.Recomputed(states[0], d));
  }

  // A failure while the derived events are created.
  lemma {:induction false} CreatingIsHarmless(db: Db, d: FixtureData, k: nat)
    requires Keyed(db.events, db.logs) && k <= |Derive(d)|
    ensures FailedBeforePruning(db, Ops.Restock(db, Ops.DerivedOf(d.id), Derive(d)[..k]), d.id)
  {
    var s, bodies := Ops.DerivedOf(d.id), Derive(d);
    DerivedAreOwned(d);
    DropDerived(db, d, db.nextId, bodies[..k]);
    Ops.RestockedKeyed(db, s, bodies[..k]);
    if RightOutside(db.events, db.logs, d.id) {
      Ops.RestockedRightOutside(db, s, bodies[..k], d.id);
    }
    Ops.EnsureLogsFacts(db.logs, bodies[..k]);
  }

  // Deleting an event before that good run can take others with it: a run that failed with all derived events created
  // and no log recalculated leaves the new logs recorded empty, and the deletion removes them.
  lemma {:induction false} DeletionAfterFailure(db: Db, d: FixtureData, e: Event, x: Event)
    requires Consistent(db) && Ops.IdsOk(db)
    requires var left := Ops.Restock(db, Ops.DerivedOf(d.id), Derive(d)); e in left.events && x in left.events
    requires e.body.fixture == d.id == x.body.fixture && e.body.player != x.body.player
    ensures !HasLog(db.logs, x.body.player, d.id) ==>
      x !in Ops.DeleteOne(Ops.Restock(db, Ops.DerivedOf(d.id), Derive(d)), e).events
  {
    var left := Ops.Restock(db, Ops.DerivedOf(d.id), Derive(d));
    Ops.RestockedKeyed(db, Ops.DerivedOf(d.id), Derive(d));
    Ops.RestockKeepsIds(db, Ops.DerivedOf(d.id), Derive(d));
    Ops.DeleteOneTakes(left, e, x);
    if !HasLog(db.logs, x.body.player, d.id) {
      Ops.EnsureLogsFacts(db.logs, Derive(d));
      assert forall k :: 0 <= k < |db.logs| ==> db.logs[k] == left.logs[k];
      var i :| 0 <= i < |left.events| && left.events[i] == x;
      assert HasLog(left.logs, left.events[i].body.player, left.events[i].body.fixture);
      var j :| 0 <= j < |left.logs| && left.logs[j].player == x.body.player && left.logs[j].fixture == d.id;
      assert left.logs[j] in left.logs;
    }
  }

  // The state of a run that fails after removing empty logs, before the first total is written.
  function PrunedOnly(db: Db, d: FixtureData): Db {
    var restocked := Ops.Restock(db, Ops.DerivedOf(d.id), Derive(d));
    restocked.(logs := Prune(RecalculateFixture(restocked.logs, restocked.events, d.id), d.id))
  }

  // The limit of self-healing: a player with wrong totals whom the recompute does not reach keeps them through
  // every later recompute of the fixture with this data.
  lemma {:induction false} UnreachedStaysStale(db: Db, d: FixtureData, player: Id)
    requires RightOutside(db.events, db.logs, d.id)
    requires !Settled(db, player) && !Ops.Reached(db, d, player)
    ensures !Settled(Ops.Recomputed(db, d), player) && !Ops.Reached(Ops.Recomputed(db, d), d, player)
  {
    Ops.RecomputeRepairs(db, d, player);
    if Ops.Reached(Ops.Recomputed(db, d), d, player) {
      ReachedBefore(db, d, player);
    }
  }

  // Exactly when a good run restores consistency.
  lemma {:induction false} HealsExactlyWhen(db: Db, d: FixtureData)
    requires RightOutside(db.events, db.logs, d.id)
    ensures Consistent(Ops.Recomputed(db, d)) <==> forall p :: Settled(db, p) || Ops.Reached(db, d, p)
  {
    Ops.RecomputeRepairs(db, d, 0);
    forall p
      ensures Settled(Ops.Recomputed(db, d), p) <==> Settled(db, p) || Ops.Reached(db, d, p)
    {
      Ops.RecomputeRepairs(db, d, p);
    }
  }

  // ----- Runs of operations -----------------------------------------------------------------------------

  datatype Operation =
    | ScoreEvent(body: Body)
    | DeleteEvent(id: Id)
    | DeleteFixtureEvents(fixture: Id)
    | RecomputeFixture(data: FixtureData)

  // Deleting an unknown event is refused and changes nothing.
  function Apply(db: Db, op: Operation): Db {
    match op
    case ScoreEvent(b) => Ops.ScoreOne(db, b)
    case DeleteEvent(id) =>
      var found := Ops.Find(db.events, id);
      if found.None? then db else Ops.DeleteOne(db, found.value)
    case DeleteFixtureEvents(f) => Ops.DeleteAll(db, f)
    case RecomputeFixture(d) => Ops.Recomputed(db, d)
  }

  function Run(db: Db, ops: seq<Operation>): Db {
    if ops == [] then db else Apply(Run(db, ops[..|ops| - 1]), ops[|ops| - 1])
  }

  lemma {:induction false} ApplyKeeps(db: Db, op: Operation)
    requires Consistent(db) && Ops.IdsOk(db)
    ensures Consistent(Apply(db, op)) && Ops.IdsOk(Apply(db, op))
  {
    match op
    case ScoreEvent(b) =>
      Ops.ScoreOneKeepsConsistent(db, b);
    case DeleteEvent(id) =>
      var found := Ops.Find(db.events, id);
      if found.Some? {
        Ops.DeleteOneKeepsConsistent(db, found.value);
        Ops.DeleteOneKeepsKeys(db, found.value);
      }
    case DeleteFixtureEvents(f) =>
      Ops.DeleteAllKeepsConsistent(db, f);
      Ops.RestockKeepsIds(db, Ops.OfFixture(f), []);
    case RecomputeFixture(d) =>
      Ops.RecomputeKeepsConsistent(db, d);
      Ops.RestockKeepsIds(db, Ops.DerivedOf(d.id), Derive(d));
  }

  // The two paths to the totals agree over whole runs: after any sequence of scoring operations from a consistent
  // database a full rebuild changes nothing, and every total is the sum of the stored events.
  lemma {:induction false} RunsAgreeWithRebuild(db: Db, ops: seq<Operation>)
    requires Consistent(db) && Ops.IdsOk(db)
    ensures Consistent(Run(db, ops)) && Ops.IdsOk(Run(db, ops))
    ensures FullRebuild(Run(db, ops)) == Run(db, ops)
    ensures forall p :: p in Run(db, ops).players ==> Run(db, ops).players[p] == PlayerPoints(Run(db, ops).events, p)
  {
    if ops != [] {
      RunsAgreeWithRebuild(db, ops[..|ops| - 1]);
      ApplyKeeps(Run(db, ops[..|ops| - 1]), ops[|ops| - 1]);
    }
    var end := Run(db, ops);
    RebuildChangesNothing(end);
    forall p | p in end.players
      ensures end.players[p] == PlayerPoints(end.events, p)
    {
      TotalsAreEventSums(end, p);
    }
  }

  // ----- A deletion that takes another event ----------------------------------------------------------

  // One player of each side in the tenth minute, with nothing stored yet: two appearances are derived.
  const EMPTY := Db([], 0, [], map[], [], map[])
  const TENTH := FixtureData(7, Live, 10, [Some(1)], [Some(2)], [], 0, 0, map[])

  lemma {:induction false} TwoPlay()
    ensures Players(TENTH) == [Participant(1, Home, true, 0, 10), Participant(2, Away, true, 0, 10)]
  {
    var home, away := TENTH.homeLineup, TENTH.awayLineup;
    var first := Participant(1, Home, true, 0, 10);
    assert home[..0] == [] && away[..0] == [];
    assert AddStarters([], Home, home, 10) == [first];
    assert [first][..0] == [];
    assert AddStarters([first], Away, away, 10) == [first, Participant(2, Away, true, 0, 10)];
  }

  lemma {:induction false} TwoAppearances()
    ensures Derive(TENTH) == [Body(1, 7, Appearance, 1, 1), Body(2, 7, Appearance, 1, 1)]
  {
    TwoPlay();
    var parts := Players(TENTH);
    assert parts[..1] == [parts[0]] && parts[..1][..0] == [];
    assert AwardedAll(TENTH, parts[..1], ForAppearance) == [Body(1, 7, Appearance, 1, 1)];
    DeriveByParts(TENTH);
  }

  lemma {:induction false} DeletionTakesSecond(db: Db, d: FixtureData, a: Body, b: Body)
    requires Consistent(db) && Ops.IdsOk(db) && db.events == [] && db.logs == []
    requires Derive(d) == [a, b] && a.player != b.player
    ensures var left := Ops.Restock(db, Ops.DerivedOf(d.id), Derive(d));
            var mine, other := Event(db.nextId, a), Event(db.nextId + 1, b);
            && FailedBeforePruning(db, left, d.id) && left.events == [mine, other]
            && other !in Ops.DeleteOne(left, mine).events
  {
    DerivedAreOwned(d);
    assert a in Derive(d) && b in Derive(d);
    TwoStored(db, d.id, a, b);
    DeletionAfterFailure(db, d, Event(db.nextId, a), Event(db.nextId + 1, b));
    AllCreatedIsHarmless(db, d);
  }

  lemma {:induction false} TwoStored(db: Db, fixture: Id, a: Body, b: Body)
    requires db.events == []
    ensures Ops.Restock(db, Ops.DerivedOf(fixture), [a, b]).events == [Event(db.nextId, a), Event(db.nextId + 1, b)]
  {
  }

  lemma {:induction false} AllCreatedIsHarmless(db: Db, d: FixtureData)
    requires Keyed(db.events, db.logs)
    ensures FailedBeforePruning(db, Ops.Restock(db, Ops.DerivedOf(d.id), Derive(d)), d.id)
  {
    CreatingIsHarmless(db, d, |Derive(d)|);
    assert Derive(d)[..|Derive(d)|] == Derive(d);
  }

  lemma {:induction false} EmptyIsConsistent()
    ensures Consistent(EMPTY) && Ops.IdsOk(EMPTY)
  {
  }

  // After a recompute that failed once both were created, deleting the first player's event removes the second's.
  lemma {:induction false} DeletionTakesAnother()
    ensures var left := Ops.Restock(EMPTY, Ops.DerivedOf(7), Derive(TENTH));
            var mine, other := Event(0, Body(1, 7, Appearance, 1, 1)), Event(1, Body(2, 7, Appearance, 1, 1));
            && Consistent(EMPTY) && FailedBeforePruning(EMPTY, left, 7) && left.events == [mine, other]
            && other !in Ops.DeleteOne(left, mine).events
  {
    EmptyIsConsistent();
    TwoAppearances();
    DeletionTakesSecond(EMPTY, TENTH, Body(1, 7, Appearance, 1, 1), Body(2, 7, Appearance, 1, 1));
  }

  // ----- A failure that is never healed ----------------------------------------------------------------

  // One appearance point of player 1 at fixture 7, stored everywhere.
  const STORED := Db([Event(0, Body(1, 7, Appearance, 1, 1))], 1, [Log(1, 7, 1, 1)], map[1 := 1], [], map[])

  // The fixture is put back to scheduled, without line-ups: nothing is derived any more.
  const RESET := FixtureData(7, Scheduled, 0, [], [], [], 0, 0, map[])

  lemma {:induction false} StoredIsConsistent()
    ensures Consistent(STORED)
  {
    var es := STORED.events;
    assert es[..0] == [] && STORED.logs[..0] == [];
    assert KeySum(es, 1, 7) == 1 && KeyCount(es, 1, 7) == 1;
    assert STORED.logs[0].player == 1 && STORED.logs[0].fixture == 7;
    assert LogSum(STORED.logs, 1) == 1;
  }

  // The recompute that fails after removing the empty log leaves player 1 with a point no event accounts for, and
  // no later recompute of the fixture takes it away.
  lemma {:induction false} FailureAfterPruningStays()
    ensures Consistent(STORED)
    ensures !Consistent(Ops.Recomputed(PrunedOnly(STORED, RESET), RESET))
    ensures !Ops.Reached(PrunedOnly(STORED, RESET), RESET, 1)
  {
    StoredIsConsistent();
    var s := Ops.DerivedOf(7);
    var left := PrunedOnly(STORED, RESET);
    assert Derive(RESET) == [];
    Ops.DropMembers(STORED.events, s);
    assert Ops.Drop(STORED.events, s) == [] by {
      Ops.DropMembers(STORED.events, s);
      assert forall e :: e in STORED.events ==> Ops.Selected(e, s);
    }
    assert left.events == [];
    var recalculated := RecalculateFixture(STORED.logs, left.events, 7);
    assert recalculated == [Log(1, 7, 0, 0)];
    PruneFacts(recalculated, 7);
    assert left.logs == [];
    assert !Settled(left, 1);
    assert !HasLog(left.logs, 1, 7);
    Ops.RecomputeRepairs(left, RESET, 1);
  }
}
