/** The events a recompute derives from the data of a fixture: incidents, line-ups, status and goalkeeper saves. */
module MatchEvents {
  import opened Wrappers
  import opened Participants

  datatype FixtureStatus = Scheduled | Live | HalfTime | FullTime | Postponed

  // `Manual` stands for every event type that a recompute does not own, such as bonus points.
  datatype EventKind =
    | Appearance | Played60 | Played90 | CleanSheet | Save
    | Scored(incident: IncidentKind) | Assist
    | Manual(name: string)

  // The event types a recompute deletes and derives again.
  predicate IsDerived(kind: EventKind) {
    !kind.Manual?
  }

  datatype Body = Body(player: Id, fixture: Id, kind: EventKind, points: int, minute: int)

  // Resolved fixture data. `currentMinute` is 0 when unknown; `positionOf` lists the players' positions.
  datatype FixtureData = FixtureData(
    id: Id,
    status: FixtureStatus,
    currentMinute: int,
    homeLineup: seq<Option<Id>>,
    awayLineup: seq<Option<Id>>,
    incidents: seq<Incident>,
    homeSaves: int,
    awaySaves: int,
    positionOf: map<Id, Position>)
  {
    function Elapsed(): nat {
      if status.FullTime? then 90 else Max(0, currentMinute)
    }

    predicate Reached(minute: int) {
      status.FullTime? || currentMinute >= minute
    }

    function Position(player: Id): Position {
      if player in positionOf then positionOf[player] else Forward
    }
  }

  // ----- Points --------------------------------------------------------------------------

  function IncidentPoints(kind: IncidentKind, position: Position): int {
    match kind
    case Goal => GoalPoints(position)
    case PenaltyScored => GoalPoints(position)
    case OwnGoal => -2
    case PenaltyMissed => -2
    case YellowCard => -1
    case RedCard => -3
    case PenaltySave => 5
    case _ => 0
  }

  function GoalPoints(position: Position): int {
    match position
    case Goalkeeper => 6
    case Defender => 6
    case Midfielder => 5
    case Forward => 4
  }

  const ASSIST_POINTS := 3
  const APPEARANCE_POINTS := 1
  const PLAYED_60_POINTS := 1
  const SAVE_POINTS := 1
  const SAVES_PER_POINT := 3

  // The clean-sheet rules; forwards never reach them.
  function CleanSheetPoints(position: Position): int {
    if position.Midfielder? then 1 else 4
  }

  // ----- Clean sheets -----------------------------------------------------------------------

  predicate ConcededBy(incident: Incident, defending: Side) {
    match incident.kind
    case Goal => incident.side.Some? && incident.side.value != defending
    case PenaltyScored => incident.side.Some? && incident.side.value != defending
    case OwnGoal => incident.side == Some(defending)
    case _ => false
  }

  // A goal counts against the players on the pitch after they entered and up to the minute they left.
  predicate KeepsCleanSheet(p: Participant, incidents: seq<Incident>) {
    forall i :: 0 <= i < |incidents| ==>
      !(ConcededBy(incidents[i], p.side) && p.entered < incidents[i].minute <= Max(p.entered, p.exited))
  }

  predicate RedCarded(player: Id, incidents: seq<Incident>) {
    exists i :: 0 <= i < |incidents| && incidents[i].kind.RedCard? && incidents[i].player == Some(player)
  }

  // ----- Derived events, in the order in which they are created ---------------------------------

  function IncidentEvents(d: FixtureData, incident: Incident): seq<Body> {
    (if incident.kind.Substitution? || incident.kind.Other? || incident.player.None? then []
     else
       var player := incident.player.value;
       [Body(player, d.id, Scored(incident.kind), IncidentPoints(incident.kind, d.Position(player)), incident.minute)])
    + (if incident.related.None? || !incident.hasRelatedId
          || !(incident.kind.Goal? || incident.kind.PenaltyScored?) then []
       else [Body(incident.related.value, d.id, Assist, ASSIST_POINTS, incident.minute)])
  }

  function AllIncidentEvents(d: FixtureData, incidents: seq<Incident>): seq<Body> {
    if incidents == [] then []
    else AllIncidentEvents(d, incidents[..|incidents| - 1]) + IncidentEvents(d, incidents[|incidents| - 1])
  }

  datatype Award = ForAppearance | ForSixty | ForCleanSheet

  function Awarded(d: FixtureData, p: Participant, award: Award): seq<Body> {
    match award
    case ForAppearance =>
      if p.PlayedMinutes() <= 0 then []
      else [Body(p.player, d.id, Appearance, APPEARANCE_POINTS, Max(1, p.entered))]
    case ForSixty =>
      if p.PlayedMinutes() < 60 then []
      else [Body(p.player, d.id, Played60, PLAYED_60_POINTS, Max(60, p.entered + 60))]
    case ForCleanSheet =>
      if RedCarded(p.player, d.incidents) || p.PlayedMinutes() < 60
         || d.Position(p.player).Forward? || !KeepsCleanSheet(p, d.incidents) then []
      else [Body(p.player, d.id, CleanSheet, CleanSheetPoints(d.Position(p.player)), Max(60, p.entered + 60))]
  }

  function AwardedAll(d: FixtureData, parts: seq<Participant>, award: Award): seq<Body> {
    if parts == [] then []
    else AwardedAll(d, parts[..|parts| - 1], award) + Awarded(d, parts[|parts| - 1], award)
  }

  // The first starting goalkeeper of a side.
  function StartingKeeper(d: FixtureData, parts: seq<Participant>, side: Side): Option<Id> {
    if parts == [] then None
    else
      match StartingKeeper(d, parts[..|parts| - 1], side)
      case Some(k) => Some(k)
      case None =>
        var p := parts[|parts| - 1];
        if p.started && p.side == side && d.Position(p.player).Goalkeeper? then Some(p.player) else None
  }

  function SaveEvents(d: FixtureData, keeper: Option<Id>, saves: int): seq<Body> {
    if keeper.None? || saves <= 0 || saves / SAVES_PER_POINT <= 0 then []
    else [Body(keeper.value, d.id, Save, SAVE_POINTS * (saves / SAVES_PER_POINT), 90)]
  }

  function Players(d: FixtureData): seq<Participant> {
    Resolve(d.homeLineup, d.awayLineup, d.incidents, d.Elapsed())
  }

  function Derive(d: FixtureData): seq<Body> {
    var parts := Players(d);
    AllIncidentEvents(d, d.incidents)
    + (if d.status.Scheduled? then [] else AwardedAll(d, parts, ForAppearance))
    + (if d.Reached(60) then AwardedAll(d, parts, ForSixty) + AwardedAll(d, parts, ForCleanSheet) else [])
    + (if d.Reached(90) then SaveEvents(d, StartingKeeper(d, parts, Home), d.homeSaves)
                             + SaveEvents(d, StartingKeeper(d, parts, Away), d.awaySaves) else [])
  }

  // ----- What every derived event is like ----------------------------------------------------------

  ghost predicate AllOwned(d: FixtureData, bodies: seq<Body>) {
    forall b :: b in bodies ==> b.fixture == d.id && IsDerived(b.kind)
  }

  lemma {:induction false} IncidentEventsOwned(d: FixtureData, incidents: seq<Incident>)
    ensures AllOwned(d, AllIncidentEvents(d, incidents))
  {
    if incidents != [] {
      IncidentEventsOwned(d, incidents[..|incidents| - 1]);
    }
  }

  lemma {:induction false} AwardsOwned(d: FixtureData, parts: seq<Participant>, award: Award)
    ensures AllOwned(d, AwardedAll(d, parts, award))
  {
    if parts != [] {
      AwardsOwned(d, parts[..|parts| - 1], award);
    }
  }

  // When the loop runs.
  predicate Runs(d: FixtureData, award: Award) {
    if award == ForAppearance then !d.status.Scheduled? else d.Reached(60)
  }

  function Looped(d: FixtureData, award: Award): seq<Body> {
    if Runs(d, award) then AwardedAll(d, Players(d), award) else []
  }

  function Saves(d: FixtureData): seq<Body> {
    if d.Reached(90) then SaveEvents(d, StartingKeeper(d, Players(d), Home), d.homeSaves)
                          + SaveEvents(d, StartingKeeper(d, Players(d), Away), d.awaySaves) else []
  }

  lemma {:induction false} DeriveByParts(d: FixtureData)
    ensures Derive(d) == AllIncidentEvents(d, d.incidents) + Looped(d, ForAppearance)
                         + (Looped(d, ForSixty) + Looped(d, ForCleanSheet)) + Saves(d)
  {
  }

  // A recompute derives only events of its own fixture, and only of the types it deletes beforehand.
  lemma {:induction false} DerivedAreOwned(d: FixtureData)
    ensures AllOwned(d, Derive(d))
  {
    DeriveByParts(d);
    IncidentEventsOwned(d, d.incidents);
    LoopedOwned(d, ForAppearance);
    LoopedOwned(d, ForSixty);
    LoopedOwned(d, ForCleanSheet);
    assert AllOwned(d, Saves(d));
  }

  lemma {:induction false} LoopedOwned(d: FixtureData, award: Award)
    ensures AllOwned(d, Looped(d, award))
  {
    AwardsOwned(d, Players(d), award);
  }

  // ----- What the awards mean -----------------------------------------------------------------------

  // How many events of a kind a player has, in one minute or in all.
  function CountAt(bodies: seq<Body>, player: Id, kind: EventKind, minute: Option<int>): nat {
    if bodies == [] then 0
    else
      var last := bodies[|bodies| - 1];
      CountAt(bodies[..|bodies| - 1], player, kind, minute)
      + if last.player == player && last.kind == kind && (minute.None? || last.minute == minute.value) then 1 else 0
  }

  function CountOf(bodies: seq<Body>, player: Id, kind: EventKind): nat {
    CountAt(bodies, player, kind, None)
  }

  function KindOf(award: Award): EventKind {
    match award
    case ForAppearance => Appearance
    case ForSixty => Played60
    case ForCleanSheet => CleanSheet
  }

  lemma {:induction false} NoAwardForOthers(d: FixtureData, parts: seq<Participant>, award: Award, player: Id)
    requires forall i :: 0 <= i < |parts| ==> parts[i].player != player
    ensures CountOf(AwardedAll(d, parts, award), player, KindOf(award)) == 0
  {
    if parts != [] {
      NoAwardForOthers(d, parts[..|parts| - 1], award, player);
      CountAwardSnoc(d, parts, award, player);
    }
  }

  lemma {:induction false} CountAwardSnoc(d: FixtureData, parts: seq<Participant>, award: Award, player: Id)
    requires parts != []
    ensures var last := parts[|parts| - 1];
            CountOf(AwardedAll(d, parts, award), player, KindOf(award))
            == CountOf(AwardedAll(d, parts[..|parts| - 1], award), player, KindOf(award))
             + if last.player == player then |Awarded(d, last, award)| else 0
  {
    var front, last := AwardedAll(d, parts[..|parts| - 1], award), parts[|parts| - 1];
    var all := AwardedAll(d, parts, award);
    if Awarded(d, last, award) != [] {
      assert all[..|all| - 1] == front;
    } else {
      assert all == front;
    }
  }

  // Every participant of a fixture is awarded once for what he did, never twice and never for somebody else.
  lemma {:induction false} AwardedExactlyOnce(d: FixtureData, parts: seq<Participant>, award: Award, i: nat)
    requires i < |parts|
    requires forall j, k :: 0 <= j < k < |parts| ==> parts[j].player != parts[k].player
    ensures CountOf(AwardedAll(d, parts, award), parts[i].player, KindOf(award)) == |Awarded(d, parts[i], award)| <= 1
  {
    var front := parts[..|parts| - 1];
    CountAwardSnoc(d, parts, award, parts[i].player);
    if i == |parts| - 1 {
      NoAwardForOthers(d, front, award, parts[i].player);
    } else {
      AwardedExactlyOnce(d, front, award, i);
    }
  }

  // ----- The awards among all derived events ----------------------------------------------------------

  lemma {:induction false} CountAtAppend(a: seq<Body>, b: seq<Body>, player: Id, kind: EventKind, minute: Option<int>)
    ensures CountAt(a + b, player, kind, minute) == CountAt(a, player, kind, minute) + CountAt(b, player, kind, minute)
  {
    if b == [] {
      assert a + b == a;
    } else {
      CountAtAppend(a, b[..|b| - 1], player, kind, minute);
      assert (a + b)[..|a + b| - 1] == a + b[..|b| - 1];
    }
  }

  ghost predicate Without(bodies: seq<Body>, kind: EventKind) {
    forall b :: b in bodies ==> b.kind != kind
  }

  lemma {:induction false} CountWithout(bodies: seq<Body>, player: Id, kind: EventKind, minute: Option<int>)
    requires Without(bodies, kind)
    ensures CountAt(bodies, player, kind, minute) == 0
  {
    if bodies != [] {
      CountWithout(bodies[..|bodies| - 1], player, kind, minute);
    }
  }

  lemma {:induction false} AwardsAreOfTheirKind(d: FixtureData, parts: seq<Participant>, award: Award)
    ensures forall b :: b in AwardedAll(d, parts, award) ==> b.kind == KindOf(award)
  {
    if parts != [] {
      AwardsAreOfTheirKind(d, parts[..|parts| - 1], award);
    }
  }

  lemma {:induction false} IncidentsAwardNothing(d: FixtureData, incidents: seq<Incident>, award: Award)
    ensures Without(AllIncidentEvents(d, incidents), KindOf(award))
  {
    if incidents != [] {
      IncidentsAwardNothing(d, incidents[..|incidents| - 1], award);
    }
  }

  // What the loop over the participants of the fixture awards, for any player.
  function Earned(d: FixtureData, award: Award, player: Id): seq<Body> {
    match IndexOf(Players(d), player)
    case None => []
    case Some(i) => Awarded(d, Players(d)[i], award)
  }

  lemma {:induction false} CountInLoop(d: FixtureData, loop: Award, player: Id, award: Award)
    ensures CountOf(AwardedAll(d, Players(d), loop), player, KindOf(award))
         == if loop == award then |Earned(d, award, player)| else 0
  {
    var parts := Players(d);
    MinutesWithinMatch(d.homeLineup, d.awayLineup, d.incidents, d.Elapsed());
    AwardsAreOfTheirKind(d, parts, loop);
    if loop != award {
      CountWithout(AwardedAll(d, parts, loop), player, KindOf(award), None);
    } else if IndexOf(parts, player).None? {
      NoAwardForOthers(d, parts, award, player);
    } else {
      AwardedExactlyOnce(d, parts, award, IndexOf(parts, player).value);
    }
  }

  lemma {:induction false} CountLooped(d: FixtureData, loop: Award, player: Id, award: Award)
    ensures CountOf(Looped(d, loop), player, KindOf(award))
         == if loop == award && Runs(d, award) then |Earned(d, award, player)| else 0
  {
    CountInLoop(d, loop, player, award);
  }

  lemma {:induction false} CountOfParts(incidents: seq<Body>, appearances: seq<Body>, sixties: seq<Body>,
                                        sheets: seq<Body>, saves: seq<Body>, player: Id, kind: EventKind)
    ensures CountOf(incidents + appearances + (sixties + sheets) + saves, player, kind)
         == CountOf(incidents, player, kind) + CountOf(appearances, player, kind) + CountOf(sixties, player, kind)
            + CountOf(sheets, player, kind) + CountOf(saves, player, kind)
  {
    CountAtAppend(incidents + appearances + (sixties + sheets), saves, player, kind, None);
    CountAtAppend(incidents + appearances, sixties + sheets, player, kind, None);
    CountAtAppend(incidents, appearances, player, kind, None);
    CountAtAppend(sixties, sheets, player, kind, None);
  }

  lemma {:induction false} NothingElseAwards(d: FixtureData, player: Id, award: Award)
    ensures CountOf(AllIncidentEvents(d, d.incidents), player, KindOf(award)) == 0
    ensures CountOf(Saves(d), player, KindOf(award)) == 0
  {
    IncidentsAwardNothing(d, d.incidents, award);
    CountWithout(AllIncidentEvents(d, d.incidents), player, KindOf(award), None);
    CountWithout(Saves(d), player, KindOf(award), None);
  }

  lemma {:induction false} DerivedCount(d: FixtureData, player: Id, award: Award)
    ensures CountOf(Derive(d), player, KindOf(award)) == if Runs(d, award) then |Earned(d, award, player)| else 0
  {
    var incidents, saves := AllIncidentEvents(d, d.incidents), Saves(d);
    assert CountOf(Derive(d), player, KindOf(award))
        == CountOf(incidents, player, KindOf(award)) + CountOf(Looped(d, ForAppearance), player, KindOf(award))
           + CountOf(Looped(d, ForSixty), player, KindOf(award))
           + CountOf(Looped(d, ForCleanSheet), player, KindOf(award))
           + CountOf(saves, player, KindOf(award)) by {
      DeriveByParts(d);
      CountOfParts(incidents, Looped(d, ForAppearance), Looped(d, ForSixty), Looped(d, ForCleanSheet), saves, player,
                   KindOf(award));
    }
    NothingElseAwards(d, player, award);
    CountLooped(d, ForAppearance, player, award);
    CountLooped(d, ForSixty, player, award);
    CountLooped(d, ForCleanSheet, player, award);
  }

  // Minutes on the pitch; nobody but a participant has any.
  function MinutesPlayed(d: FixtureData, player: Id): int {
    match IndexOf(Players(d), player)
    case None => 0
    case Some(i) => Players(d)[i].PlayedMinutes()
  }

  // No goal was conceded while the player was on the pitch.
  predicate Unbeaten(d: FixtureData, player: Id) {
    match IndexOf(Players(d), player)
    case None => true
    case Some(i) => KeepsCleanSheet(Players(d)[i], d.incidents)
  }

  // Among all derived events of a fixture, every player - participant or not - has one appearance exactly when the
  // fixture started and he played, one sixty-minutes award exactly when he played sixty, and one clean sheet exactly
  // when besides he is no forward, was not sent off and conceded nothing while on the pitch.
  lemma {:induction false} DerivedAwards(d: FixtureData, player: Id)
    ensures CountOf(Derive(d), player, Appearance)
         == if !d.status.Scheduled? && MinutesPlayed(d, player) > 0 then 1 else 0
    ensures CountOf(Derive(d), player, Played60) == if MinutesPlayed(d, player) >= 60 then 1 else 0
    ensures CountOf(Derive(d), player, CleanSheet)
         == if MinutesPlayed(d, player) >= 60 && !RedCarded(player, d.incidents)
               && !d.Position(player).Forward? && Unbeaten(d, player) then 1 else 0
  {
    MinutesWithinMatch(d.homeLineup, d.awayLineup, d.incidents, d.Elapsed());
    assert MinutesPlayed(d, player) >= 60 ==> d.Reached(60) by {
      var i := IndexOf(Players(d), player);
      if i.Some? {
        assert Players(d)[i.value] in Players(d);
      }
    }
    DerivedCount(d, player, ForAppearance);
    DerivedCount(d, player, ForSixty);
    DerivedCount(d, player, ForCleanSheet);
  }
}
