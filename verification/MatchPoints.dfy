/** What a match is worth: the derived goals, assists, cards and saves of every player, straight from the feed. */
module MatchPoints {
  import opened Wrappers
  import opened Participants
  import opened MatchEvents

  // ----- Incidents --------------------------------------------------------------------------------

  // The incident names this player, with this minute if one is given.
  predicate Names(incident: Incident, kind: IncidentKind, player: Id, minute: Option<int>) {
    incident.kind == kind && incident.player == Some(player) && (minute.None? || incident.minute == minute.value)
  }

  // A goal or scored penalty names this player as the related one, under a provider id.
  predicate NamesAssist(incident: Incident, player: Id, minute: Option<int>) {
    && (incident.kind == Goal || incident.kind == PenaltyScored)
    && incident.hasRelatedId && incident.related == Some(player) && (minute.None? || incident.minute == minute.value)
  }

  function Named(incidents: seq<Incident>, kind: IncidentKind, player: Id, minute: Option<int>): nat {
    if incidents == [] then 0
    else Named(incidents[..|incidents| - 1], kind, player, minute)
         + if Names(incidents[|incidents| - 1], kind, player, minute) then 1 else 0
  }

  function Assisted(incidents: seq<Incident>, player: Id, minute: Option<int>): nat {
    if incidents == [] then 0
    else Assisted(incidents[..|incidents| - 1], player, minute)
         + if NamesAssist(incidents[|incidents| - 1], player, minute) then 1 else 0
  }

  predicate Credits(b: Body, player: Id, kind: EventKind, minute: Option<int>) {
    b.player == player && b.kind == kind && (minute.None? || b.minute == minute.value)
  }

  lemma {:induction false} CountTwo(events: seq<Body>, player: Id, kind: EventKind, minute: Option<int>)
    requires |events| <= 2
    ensures CountAt(events, player, kind, minute)
         == (if |events| > 0 && Credits(events[0], player, kind, minute) then 1 else 0)
            + (if |events| > 1 && Credits(events[1], player, kind, minute) then 1 else 0)
  {
    if |events| > 0 {
      assert CountAt([], player, kind, minute) == 0 && events[..1][..0] == [];
      assert CountAt(events[..1], player, kind, minute) == if Credits(events[0], player, kind, minute) then 1 else 0;
      assert |events| == 1 ==> events[..1] == events;
    }
  }

  lemma {:induction false} OneIncident(d: FixtureData, incident: Incident, kind: EventKind, player: Id,
                                       minute: Option<int>)
    ensures CountAt(IncidentEvents(d, incident), player, kind, minute)
         == match kind
            case Scored(k) => if k != Substitution && k != Other && Names(incident, k, player, minute) then 1 else 0
            case Assist => if NamesAssist(incident, player, minute) then 1 else 0
            case _ => 0
  {
    CountTwo(IncidentEvents(d, incident), player, kind, minute);
  }

  lemma {:induction false} IncidentsCounted(d: FixtureData, incidents: seq<Incident>, kind: IncidentKind, player: Id,
                                            minute: Option<int>)
    requires kind != Substitution && kind != Other
    ensures CountAt(AllIncidentEvents(d, incidents), player, Scored(kind), minute)
         == Named(incidents, kind, player, minute)
  {
    if incidents != [] {
      var front, last := incidents[..|incidents| - 1], incidents[|incidents| - 1];
      IncidentsCounted(d, front, kind, player, minute);
      OneIncident(d, last, Scored(kind), player, minute);
      CountAtAppend(AllIncidentEvents(d, front), IncidentEvents(d, last), player, Scored(kind), minute);
    }
  }

  lemma {:induction false} AssistsCounted(d: FixtureData, incidents: seq<Incident>, player: Id, minute: Option<int>)
    ensures CountAt(AllIncidentEvents(d, incidents), player, Assist, minute) == Assisted(incidents, player, minute)
  {
    if incidents != [] {
      var front, last := incidents[..|incidents| - 1], incidents[|incidents| - 1];
      AssistsCounted(d, front, player, minute);
      OneIncident(d, last, Assist, player, minute);
      CountAtAppend(AllIncidentEvents(d, front), IncidentEvents(d, last), player, Assist, minute);
    }
  }

  // What the loops over participants and the goalkeeper saves add.
  function Rest(d: FixtureData): seq<Body> {
    Looped(d, ForAppearance) + (Looped(d, ForSixty) + Looped(d, ForCleanSheet)) + Saves(d)
  }

  lemma {:induction false} RestIsApart(d: FixtureData)
    ensures Derive(d) == AllIncidentEvents(d, d.incidents) + Rest(d)
    ensures forall b :: b in Rest(d) ==> b.kind in {Appearance, Played60, CleanSheet, Save}
  {
    IncidentsFirst(d);
    LoopedKind(d, ForAppearance);
    LoopedKind(d, ForSixty);
    LoopedKind(d, ForCleanSheet);
    assert forall b :: b in Saves(d) ==> b.kind == Save;
  }

  lemma {:induction false} IncidentsFirst(d: FixtureData)
    ensures Derive(d) == AllIncidentEvents(d, d.incidents) + Rest(d)
  {
    var incidents, saves := AllIncidentEvents(d, d.incidents), Saves(d);
    DeriveByParts(d);
    Regroup(incidents, Looped(d, ForAppearance), Looped(d, ForSixty) + Looped(d, ForCleanSheet), saves);
  }

  lemma {:induction false} Regroup(a: seq<Body>, b: seq<Body>, c: seq<Body>, e: seq<Body>)
    ensures a + b + c + e == a + (b + c + e)
  {
  }

  lemma {:induction false} LoopedKind(d: FixtureData, award: Award)
    ensures forall b :: b in Looped(d, award) ==> b.kind == KindOf(award)
  {
    AwardsAreOfTheirKind(d, Players(d), award);
  }

  // Whoever an incident names is credited with it, once for each such incident, in its minute; whoever it names as
  // related is credited with the assist of a goal or scored penalty.
  lemma {:induction false} DerivedIncidents(d: FixtureData, kind: IncidentKind, player: Id, minute: Option<int>)
    requires kind != Substitution && kind != Other
    ensures CountAt(Derive(d), player, Scored(kind), minute) == Named(d.incidents, kind, player, minute)
    ensures CountAt(Derive(d), player, Assist, minute) == Assisted(d.incidents, player, minute)
  {
    RestIsApart(d);
    IncidentsCounted(d, d.incidents, kind, player, minute);
    AssistsCounted(d, d.incidents, player, minute);
    CountAtAppend(AllIncidentEvents(d, d.incidents), Rest(d), player, Scored(kind), minute);
    CountAtAppend(AllIncidentEvents(d, d.incidents), Rest(d), player, Assist, minute);
    CountWithout(Rest(d), player, Scored(kind), minute);
    CountWithout(Rest(d), player, Assist, minute);
  }

  // ----- Points ----------------------------------------------------------------------------------

  // What an event of each kind is worth for a player of the position; saves are worth what they were counted.
  ghost predicate Worth(kind: EventKind, position: Position, points: int) {
    match kind
    case Appearance => points == 1
    case Played60 => points == 1
    case CleanSheet => position != Forward && points == (if position == Midfielder then 1 else 4)
    case Save => points > 0
    case Assist => points == 3
    case Scored(incident) => WorthOfIncident(incident, position, points)
    case Played90 => false
    case Manual(_) => false
  }

  ghost predicate WorthOfIncident(kind: IncidentKind, position: Position, points: int) {
    match kind
    case Goal => WorthOfGoal(position, points)
    case PenaltyScored => WorthOfGoal(position, points)
    case OwnGoal => points == -2
    case PenaltyMissed => points == -2
    case YellowCard => points == -1
    case RedCard => points == -3
    case PenaltySave => points == 5
    case Substitution => false
    case Other => false
  }

  ghost predicate WorthOfGoal(position: Position, points: int) {
    match position
    case Goalkeeper => points == 6
    case Defender => points == 6
    case Midfielder => points == 5
    case Forward => points == 4
  }

  // A player without a known position counts as a forward.
  ghost predicate PlaysAs(d: FixtureData, player: Id, position: Position) {
    if player in d.positionOf then position == d.positionOf[player] else position == Forward
  }

  lemma {:induction false} IncidentsAreWorth(d: FixtureData, incidents: seq<Incident>, b: Body, position: Position)
    requires b in AllIncidentEvents(d, incidents) && PlaysAs(d, b.player, position)
    ensures b.fixture == d.id && Worth(b.kind, position, b.points)
  {
    if incidents != [] && b !in IncidentEvents(d, incidents[|incidents| - 1]) {
      IncidentsAreWorth(d, incidents[..|incidents| - 1], b, position);
    }
  }

  lemma {:induction false} AwardsAreWorth(d: FixtureData, parts: seq<Participant>, award: Award, b: Body,
                                          position: Position)
    requires b in AwardedAll(d, parts, award) && PlaysAs(d, b.player, position)
    ensures b.fixture == d.id && Worth(b.kind, position, b.points)
    ensures exists p :: p in parts && p.player == b.player
                        && b.minute == if award == ForAppearance then Max(1, p.entered) else Max(60, p.entered + 60)
  {
    if parts != [] && b !in Awarded(d, parts[|parts| - 1], award) {
      AwardsAreWorth(d, parts[..|parts| - 1], award, b, position);
    }
  }

  // Every derived event belongs to the fixture and carries the points of its kind and of the position of its player.
  lemma {:induction false} DerivedAreWorth(d: FixtureData, b: Body, position: Position)
    requires b in Derive(d) && PlaysAs(d, b.player, position)
    ensures b.fixture == d.id && Worth(b.kind, position, b.points)
  {
    DeriveByParts(d);
    if b in AllIncidentEvents(d, d.incidents) {
      IncidentsAreWorth(d, d.incidents, b, position);
    } else if b in Looped(d, ForAppearance) {
      AwardsAreWorth(d, Players(d), ForAppearance, b, position);
    } else if b in Looped(d, ForSixty) {
      AwardsAreWorth(d, Players(d), ForSixty, b, position);
    } else if b in Looped(d, ForCleanSheet) {
      AwardsAreWorth(d, Players(d), ForCleanSheet, b, position);
    } else {
      assert b in Saves(d);
    }
  }

  // An appearance counts from the minute of entering, the other awards from the sixtieth minute played.
  lemma {:induction false} AwardMinutes(d: FixtureData, b: Body)
    requires b in Derive(d) && b.kind in {Appearance, Played60, CleanSheet}
    ensures exists p :: p in Resolve(d.homeLineup, d.awayLineup, d.incidents, d.Elapsed()) && p.player == b.player
                        && b.minute == if b.kind == Appearance then Max(1, p.entered) else Max(60, p.entered + 60)
  {
    var award := if b.kind == Appearance then ForAppearance else if b.kind == Played60 then ForSixty else ForCleanSheet;
    AwardsAreLooped(d, b, award);
    AwardsAreWorth(d, Players(d), award, b, d.Position(b.player));
  }

  lemma {:induction false} AwardsAreLooped(d: FixtureData, b: Body, award: Award)
    requires b in Derive(d) && b.kind == KindOf(award)
    ensures b in Looped(d, award)
  {
    IncidentsFirst(d);
    assert b in Rest(d) by {
      IncidentsSaveNothing(d, d.incidents);
    }
    if b !in Saves(d) {
      var other :| b in Looped(d, other);
      LoopedKind(d, other);
    }
  }

  // ----- Saves -------------------------------------------------------------------------------------

  // The first participant of the side who started in goal.
  ghost predicate InGoal(d: FixtureData, parts: seq<Participant>, side: Side, i: int) {
    && 0 <= i < |parts| && StartedInGoal(d, parts[i], side)
    && forall j :: 0 <= j < i ==> !StartedInGoal(d, parts[j], side)
  }

  ghost predicate StartedInGoal(d: FixtureData, p: Participant, side: Side) {
    p.started && p.side == side && p.player in d.positionOf && d.positionOf[p.player] == Goalkeeper
  }

  ghost predicate Keeps(d: FixtureData, side: Side, player: Id) {
    var parts := Resolve(d.homeLineup, d.awayLineup, d.incidents, d.Elapsed());
    exists i :: InGoal(d, parts, side, i) && parts[i].player == player
  }

  lemma {:induction false} StartingKeeperIs(d: FixtureData, parts: seq<Participant>, side: Side)
    ensures match StartingKeeper(d, parts, side)
            case None => forall i :: 0 <= i < |parts| ==> !StartedInGoal(d, parts[i], side)
            case Some(k) => exists i :: InGoal(d, parts, side, i) && parts[i].player == k
  {
    if parts != [] {
      var front := parts[..|parts| - 1];
      StartingKeeperIs(d, front, side);
      if StartingKeeper(d, front, side).Some? {
        var i :| InGoal(d, front, side, i) && front[i].player == StartingKeeper(d, front, side).value;
        assert InGoal(d, parts, side, i);
      } else if StartedInGoal(d, parts[|parts| - 1], side) {
        assert InGoal(d, parts, side, |parts| - 1);
      }
    }
  }

  lemma {:induction false} KeeperFound(d: FixtureData, side: Side, player: Id)
    ensures StartingKeeper(d, Players(d), side) == Some(player) <==> Keeps(d, side, player)
  {
    StartingKeeperIs(d, Players(d), side);
  }

  // Whether the saves of a side are paid, and to whom.
  ghost predicate PaidFor(d: FixtureData, side: Side, player: Id, saves: int) {
    && (d.status == FullTime || d.currentMinute >= 90) && saves >= 3 && Keeps(d, side, player)
  }

  lemma {:induction false} SaveEventsAre(d: FixtureData, keeper: Option<Id>, saves: int, player: Id,
                                         minute: Option<int>)
    ensures CountAt(SaveEvents(d, keeper, saves), player, Save, minute)
         == if keeper == Some(player) && saves >= 3 && (minute.None? || minute.value == 90) then 1 else 0
    ensures forall b :: b in SaveEvents(d, keeper, saves) ==>
      keeper == Some(b.player) && saves >= 3 && b == Body(b.player, d.id, Save, saves / 3, 90)
  {
    var events := SaveEvents(d, keeper, saves);
    if |events| == 1 {
      assert events[..0] == [];
    }
  }

  // At the end of a match the starting goalkeeper of a side has one save event, of a point for every three saves, and
  // nobody else has one.
  lemma {:induction false} DerivedSaves(d: FixtureData, player: Id)
    ensures CountAt(Derive(d), player, Save, None)
         == (if PaidFor(d, Home, player, d.homeSaves) then 1 else 0)
            + (if PaidFor(d, Away, player, d.awaySaves) then 1 else 0)
    ensures forall b :: b in Derive(d) && b.kind == Save ==>
      && b.minute == 90
      && (|| (PaidFor(d, Home, b.player, d.homeSaves) && b.points == d.homeSaves / 3)
          || (PaidFor(d, Away, b.player, d.awaySaves) && b.points == d.awaySaves / 3))
  {
    SavesCounted(d, player);
    SavesLast(d, player);
    forall b | b in Derive(d) && b.kind == Save
      ensures b.minute == 90
      ensures (PaidFor(d, Home, b.player, d.homeSaves) && b.points == d.homeSaves / 3)
              || (PaidFor(d, Away, b.player, d.awaySaves) && b.points == d.awaySaves / 3)
    {
      SavesLast(d, b.player);
      SavesPaid(d, b);
    }
  }

  lemma {:induction false} SavesPaid(d: FixtureData, b: Body)
    requires b in Saves(d)
    ensures b.minute == 90
    ensures (PaidFor(d, Home, b.player, d.homeSaves) && b.points == d.homeSaves / 3)
            || (PaidFor(d, Away, b.player, d.awaySaves) && b.points == d.awaySaves / 3)
  {
    SaveEventsAre(d, StartingKeeper(d, Players(d), Home), d.homeSaves, b.player, None);
    SaveEventsAre(d, StartingKeeper(d, Players(d), Away), d.awaySaves, b.player, None);
    KeeperFound(d, Home, b.player);
    KeeperFound(d, Away, b.player);
  }

  lemma {:induction false} SavesCounted(d: FixtureData, player: Id)
    ensures CountAt(Saves(d), player, Save, None)
         == (if PaidFor(d, Home, player, d.homeSaves) then 1 else 0)
            + (if PaidFor(d, Away, player, d.awaySaves) then 1 else 0)
  {
    var home, away := StartingKeeper(d, Players(d), Home), StartingKeeper(d, Players(d), Away);
    SaveEventsAre(d, home, d.homeSaves, player, None);
    SaveEventsAre(d, away, d.awaySaves, player, None);
    KeeperFound(d, Home, player);
    KeeperFound(d, Away, player);
    CountAtAppend(SaveEvents(d, home, d.homeSaves), SaveEvents(d, away, d.awaySaves), player, Save, None);
  }

  // All save events are among the last.
  lemma {:induction false} SavesLast(d: FixtureData, player: Id)
    ensures CountAt(Derive(d), player, Save, None) == CountAt(Saves(d), player, Save, None)
    ensures forall b :: b in Derive(d) && b.kind == Save ==> b in Saves(d)
  {
    var before := AllIncidentEvents(d, d.incidents) + Looped(d, ForAppearance)
                  + (Looped(d, ForSixty) + Looped(d, ForCleanSheet));
    DeriveByParts(d);
    NoSavesBefore(d, before);
    CountWithout(before, player, Save, None);
    CountAtAppend(before, Saves(d), player, Save, None);
  }

  lemma {:induction false} NoSavesBefore(d: FixtureData, before: seq<Body>)
    requires before == AllIncidentEvents(d, d.incidents) + Looped(d, ForAppearance)
                       + (Looped(d, ForSixty) + Looped(d, ForCleanSheet))
    ensures forall b :: b in before ==> b.kind != Save
  {
    AwardsAreOfTheirKind(d, Players(d), ForAppearance);
    AwardsAreOfTheirKind(d, Players(d), ForSixty);
    AwardsAreOfTheirKind(d, Players(d), ForCleanSheet);
    IncidentsSaveNothing(d, d.incidents);
  }

  lemma {:induction false} IncidentsSaveNothing(d: FixtureData, incidents: seq<Incident>)
    ensures forall b :: b in AllIncidentEvents(d, incidents) ==> b.kind == Assist || b.kind.Scored?
  {
    if incidents != [] {
      IncidentsSaveNothing(d, incidents[..|incidents| - 1]);
    }
  }

  // ----- Awards ---------------------------------------------------------------------------------------

  // A goal against the side: scored by the other one, or an own goal.
  ghost predicate Against(incident: Incident, side: Side) {
    || (incident.kind in {Goal, PenaltyScored} && incident.side != None && incident.side != Some(side))
    || (incident.kind == OwnGoal && incident.side == Some(side))
  }

  ghost predicate SentOff(d: FixtureData, player: Id) {
    exists i :: 0 <= i < |d.incidents| && d.incidents[i].kind == RedCard && d.incidents[i].player == Some(player)
  }

  // The whole match lasts ninety minutes, a running one as long as its minute says.
  ghost predicate Lasts(d: FixtureData, elapsed: nat) {
    if d.status == FullTime then elapsed == 90
    else if d.currentMinute <= 0 then elapsed == 0
    else elapsed == d.currentMinute
  }

  lemma {:induction false} ParticipantIs(d: FixtureData, p: Participant, elapsed: nat)
    requires Lasts(d, elapsed) && p in Resolve(d.homeLineup, d.awayLineup, d.incidents, elapsed)
    ensures d.Elapsed() == elapsed
    ensures IndexOf(Players(d), p.player).Some? && Players(d)[IndexOf(Players(d), p.player).value] == p
  {
    MinutesWithinMatch(d.homeLineup, d.awayLineup, d.incidents, elapsed);
    var parts := Players(d);
    var i :| 0 <= i < |parts| && parts[i] == p;
    assert parts[i].player == p.player;
  }

  // A participant has one appearance exactly when the match started and he was on, one award for sixty minutes exactly
  // when he played them, and one clean sheet exactly when he did, is no forward, was not sent off and saw no goal
  // against his side while he was on.
  lemma {:induction false} AwardsByTheFeed(d: FixtureData, p: Participant, elapsed: nat)
    requires Lasts(d, elapsed) && p in Resolve(d.homeLineup, d.awayLineup, d.incidents, elapsed)
    ensures CountOf(Derive(d), p.player, Appearance) == if d.status != Scheduled && p.exited > p.entered then 1 else 0
    ensures CountOf(Derive(d), p.player, Played60) == if p.exited - p.entered >= 60 then 1 else 0
    ensures CountOf(Derive(d), p.player, CleanSheet)
         == if && p.exited - p.entered >= 60 && !SentOff(d, p.player)
               && p.player in d.positionOf && d.positionOf[p.player] != Forward
               && (forall i :: 0 <= i < |d.incidents| && Against(d.incidents[i], p.side) ==>
                     !(p.entered < d.incidents[i].minute <= p.exited)) then 1
            else 0
  {
    ParticipantIs(d, p, elapsed);
    DerivedAwards(d, p.player);
    if p.exited - p.entered >= 60 {
      SeenFromThePitch(d, p);
    }
  }

  lemma {:induction false} SeenFromThePitch(d: FixtureData, p: Participant)
    requires p.exited > p.entered
    ensures KeepsCleanSheet(p, d.incidents)
       <==> forall i :: 0 <= i < |d.incidents| && Against(d.incidents[i], p.side) ==>
              !(p.entered < d.incidents[i].minute <= p.exited)
    ensures RedCarded(p.player, d.incidents) <==> SentOff(d, p.player)
  {
    assert forall i :: 0 <= i < |d.incidents| ==>
      (ConcededBy(d.incidents[i], p.side) <==> Against(d.incidents[i], p.side));
  }

  // Nobody else is awarded anything.
  lemma {:induction false} NoAwardsForOthers(d: FixtureData, player: Id, elapsed: nat, kind: EventKind)
    requires Lasts(d, elapsed) && kind in {Appearance, Played60, CleanSheet}
    requires forall p :: p in Resolve(d.homeLineup, d.awayLineup, d.incidents, elapsed) ==> p.player != player
    ensures CountOf(Derive(d), player, kind) == 0
  {
    assert d.Elapsed() == elapsed;
    assert IndexOf(Players(d), player).None?;
    DerivedAwards(d, player);
  }
}
