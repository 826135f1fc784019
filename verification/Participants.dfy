/** Who played when: the participants of a fixture, built from its line-ups and substitution incidents.

    Names and provider ids are already resolved to players; an unresolved one is None. */
module Participants {
  import opened Wrappers

  datatype Side = Home | Away

  datatype IncidentKind =
    | Goal | OwnGoal | YellowCard | RedCard | PenaltyScored | PenaltyMissed | PenaltySave | Substitution | Other

  // An incident of the fixture feed with its resolved primary and related player; `hasRelatedId` says whether
  // the provider sent an id for the related player.
  datatype Incident = Incident(
    kind: IncidentKind, minute: int, side: Option<Side>, player: Option<Id>, related: Option<Id>, hasRelatedId: bool)

  datatype Participant = Participant(player: Id, side: Side, started: bool, entered: int, exited: int) {
    function PlayedMinutes(): int {
      Max(0, exited - entered)
    }
  }

  function IndexOf(parts: seq<Participant>, player: Id): (i: Option<nat>)
    ensures i.Some? ==> i.value < |parts| && parts[i.value].player == player
    ensures i.None? ==> forall j :: 0 <= j < |parts| ==> parts[j].player != player
  {
    if parts == [] then None
    else if parts[|parts| - 1].player == player then Some(|parts| - 1)
    else IndexOf(parts[..|parts| - 1], player)
  }

  // ----- The specification ---------------------------------------------------------------

  function AddStarter(parts: seq<Participant>, side: Side, player: Option<Id>, elapsed: nat): seq<Participant> {
    if player.None? || IndexOf(parts, player.value).Some? then parts
    else parts + [Participant(player.value, side, true, 0, elapsed)]
  }

  function AddStarters(parts: seq<Participant>, side: Side, lineup: seq<Option<Id>>, elapsed: nat): seq<Participant> {
    if lineup == [] then parts
    else AddStarter(AddStarters(parts, side, lineup[..|lineup| - 1], elapsed), side, lineup[|lineup| - 1], elapsed)
  }

  function TakeOff(parts: seq<Participant>, player: Option<Id>, minute: nat): seq<Participant> {
    if player.None? then parts
    else
      match IndexOf(parts, player.value)
      case None => parts
      case Some(i) => parts[i := parts[i].(exited := Min(parts[i].exited, minute))]
  }

  function BringOn(parts: seq<Participant>, side: Side, player: Option<Id>, minute: nat,
                   elapsed: nat): seq<Participant> {
    if player.None? then parts
    else
      match IndexOf(parts, player.value)
      case Some(i) => parts[i := parts[i].(entered := Min(parts[i].entered, minute))]
      case None => parts + [Participant(player.value, side, false, minute, elapsed)]
  }

  predicate IsSubstitution(incident: Incident) {
    incident.kind.Substitution? && incident.side.Some?
  }

  function Substitute(parts: seq<Participant>, incident: Incident, elapsed: nat): seq<Participant> {
    if !IsSubstitution(incident) then parts
    else
      var minute := Max(0, incident.minute);
      BringOn(TakeOff(parts, incident.related, minute), incident.side.value, incident.player, minute, elapsed)
  }

  function SubstituteAll(parts: seq<Participant>, incidents: seq<Incident>, elapsed: nat): seq<Participant> {
    if incidents == [] then parts
    else Substitute(SubstituteAll(parts, incidents[..|incidents| - 1], elapsed), incidents[|incidents| - 1], elapsed)
  }

  function Starters(home: seq<Option<Id>>, away: seq<Option<Id>>, elapsed: nat): seq<Participant> {
    AddStarters(AddStarters([], Home, home, elapsed), Away, away, elapsed)
  }

  function Resolve(home: seq<Option<Id>>, away: seq<Option<Id>>, incidents: seq<Incident>,
                   elapsed: nat): seq<Participant> {
    SubstituteAll(Starters(home, away, elapsed), incidents, elapsed)
  }

  // ----- The loops of the source ------------------------------------------------------------

  method AddLineup(before: seq<Participant>, side: Side, lineup: seq<Option<Id>>, elapsed: nat)
    returns (parts: seq<Participant>)
    ensures parts == AddStarters(before, side, lineup, elapsed)
  {
    parts := before;
    for i := 0 to |lineup|
      invariant parts == AddStarters(before, side, lineup[..i], elapsed)
    {
      assert lineup[..i + 1][..i] == lineup[..i];
      if lineup[i].None? || IndexOf(parts, lineup[i].value).Some? {
        continue;
      }
      parts := parts + [Participant(lineup[i].value, side, true, 0, elapsed)];
    }
    assert lineup[..|lineup|] == lineup;
  }

  method ExtractParticipants(home: seq<Option<Id>>, away: seq<Option<Id>>, incidents: seq<Incident>, elapsed: nat)
    returns (parts: seq<Participant>)
    ensures parts == Resolve(home, away, incidents, elapsed)
  {
    parts := AddLineup([], Home, home, elapsed);
    parts := AddLineup(parts, Away, away, elapsed);
    for k := 0 to |incidents|
      invariant parts == SubstituteAll(Starters(home, away, elapsed), incidents[..k], elapsed)
    {
      assert incidents[..k + 1][..k] == incidents[..k];
      var incident := incidents[k];
      if !incident.kind.Substitution? || incident.side.None? {
        continue;
      }
      var minute := Max(0, incident.minute);
      if incident.related.Some? {
        var out := IndexOf(parts, incident.related.value);
        if out.Some? {
          var i := out.value;
          parts := parts[i := parts[i].(exited := Min(parts[i].exited, minute))];
        }
      }
      if incident.player.Some? {
        var on := IndexOf(parts, incident.player.value);
        if on.Some? {
          var i := on.value;
          parts := parts[i := parts[i].(entered := Min(parts[i].entered, minute))];
        } else {
          parts := parts + [Participant(incident.player.value, incident.side.value, false, minute, elapsed)];
        }
      }
    }
    assert incidents[..|incidents|] == incidents;
  }

  // ----- Any incident list ----------------------------------------------------------------------

  ghost predicate Bounded(parts: seq<Participant>, elapsed: nat) {
    && (forall i :: 0 <= i < |parts| ==> parts[i].entered >= 0 && parts[i].exited <= elapsed)
    && (forall i, j :: 0 <= i < j < |parts| ==> parts[i].player != parts[j].player)
  }

  lemma {:induction false} StartersBounded(parts: seq<Participant>, side: Side, lineup: seq<Option<Id>>, elapsed: nat)
    requires Bounded(parts, elapsed)
    ensures Bounded(AddStarters(parts, side, lineup, elapsed), elapsed)
  {
    if lineup != [] {
      StartersBounded(parts, side, lineup[..|lineup| - 1], elapsed);
    }
  }

  lemma {:induction false} SubstituteBounded(parts: seq<Participant>, incident: Incident, elapsed: nat)
    requires Bounded(parts, elapsed)
    ensures Bounded(Substitute(parts, incident, elapsed), elapsed)
  {
    if IsSubstitution(incident) {
      var minute := Max(0, incident.minute);
      assert Bounded(TakeOff(parts, incident.related, minute), elapsed);
    }
  }

  lemma {:induction false} SubstitutesBounded(parts: seq<Participant>, incidents: seq<Incident>, elapsed: nat)
    requires Bounded(parts, elapsed)
    ensures Bounded(SubstituteAll(parts, incidents, elapsed), elapsed)
  {
    if incidents != [] {
      SubstitutesBounded(parts, incidents[..|incidents| - 1], elapsed);
      SubstituteBounded(SubstituteAll(parts, incidents[..|incidents| - 1], elapsed), incidents[|incidents| - 1],
                        elapsed);
    }
  }

  // Whatever the feed says, every player appears once and has played between 0 and the elapsed minutes.
  lemma {:induction false} MinutesWithinMatch(home: seq<Option<Id>>, away: seq<Option<Id>>, incidents: seq<Incident>,
                                              elapsed: nat)
    ensures Bounded(Resolve(home, away, incidents, elapsed), elapsed)
    ensures forall p :: p in Resolve(home, away, incidents, elapsed) ==> 0 <= p.PlayedMinutes() <= elapsed
  {
    StartersBounded([], Home, home, elapsed);
    StartersBounded(AddStarters([], Home, home, elapsed), Away, away, elapsed);
    SubstitutesBounded(Starters(home, away, elapsed), incidents, elapsed);
  }

  // ----- Orderly substitutions ---------------------------------------------------------------------

  // What is added up over the participants of one side.
  datatype Measure = OnPitch(side: Side, minute: int) | Minutes(side: Side) | Started(side: Side)

  function Value(p: Participant, m: Measure): int {
    if p.side != m.side then 0
    else
      match m
      case OnPitch(_, t) => if p.entered <= t < p.exited then 1 else 0
      case Minutes(_) => p.PlayedMinutes()
      case Started(_) => if p.started then 1 else 0
  }

  function Total(parts: seq<Participant>, m: Measure): int {
    if parts == [] then 0 else Total(parts[..|parts| - 1], m) + Value(parts[|parts| - 1], m)
  }

  lemma {:induction false} TotalUpdate(parts: seq<Participant>, i: nat, p: Participant, m: Measure)
    requires i < |parts|
    ensures Total(parts[i := p], m) == Total(parts, m) - Value(parts[i], m) + Value(p, m)
  {
    var last := |parts| - 1;
    if i == last {
      assert parts[i := p][..last] == parts[..last];
    } else {
      TotalUpdate(parts[..last], i, p, m);
      assert parts[i := p][..last] == parts[..last][i := p];
    }
  }

  lemma {:induction false} TotalSnoc(parts: seq<Participant>, p: Participant, m: Measure)
    ensures Total(parts + [p], m) == Total(parts, m) + Value(p, m)
  {
    assert (parts + [p])[..|parts|] == parts;
  }

  // The outgoing player is on the pitch of that side and has not been taken off; the incoming one is new.
  ghost predicate Orderly(parts: seq<Participant>, incident: Incident, elapsed: nat) {
    IsSubstitution(incident) ==>
      && incident.related.Some? && incident.player.Some?
      && IndexOf(parts, incident.player.value).None?
      && IndexOf(parts, incident.related.value).Some?
      && var p := parts[IndexOf(parts, incident.related.value).value];
         p.side == incident.side.value && p.entered <= Max(0, incident.minute) && p.exited == elapsed
  }

  ghost predicate AllOrderly(parts: seq<Participant>, incidents: seq<Incident>, elapsed: nat) {
    incidents == [] ||
    (&& AllOrderly(parts, incidents[..|incidents| - 1], elapsed)
     && Orderly(SubstituteAll(parts, incidents[..|incidents| - 1], elapsed), incidents[|incidents| - 1], elapsed))
  }

  // A replacement takes over from the player it replaces, minute for minute.
  lemma {:induction false} Replacement(p: Participant, elapsed: nat, minute: nat, incoming: Id, m: Measure)
    requires p.entered <= minute && p.exited == elapsed && 0 <= p.entered
    requires m.OnPitch? ==> m.minute < elapsed
    ensures Value(p.(exited := Min(p.exited, minute)), m)
      + Value(Participant(incoming, p.side, false, minute, elapsed), m)
         == Value(p, m)
  {
  }

  ghost predicate Conserved(m: Measure, elapsed: nat) {
    m.OnPitch? ==> m.minute < elapsed
  }

  lemma {:induction false} OrderlyConserves(parts: seq<Participant>, incident: Incident, elapsed: nat, m: Measure)
    requires Bounded(parts, elapsed) && Orderly(parts, incident, elapsed) && Conserved(m, elapsed)
    ensures Total(Substitute(parts, incident, elapsed), m) == Total(parts, m)
  {
    if IsSubstitution(incident) {
      var minute := Max(0, incident.minute);
      var i := IndexOf(parts, incident.related.value).value;
      var p := parts[i];
      var q := p.(exited := Min(p.exited, minute));
      var incoming := Participant(incident.player.value, incident.side.value, false, minute, elapsed);
      assert Substitute(parts, incident, elapsed) == parts[i := q] + [incoming];
      TotalUpdate(parts, i, q, m);
      TotalSnoc(parts[i := q], incoming, m);
      Replacement(p, elapsed, minute, incident.player.value, m);
    }
  }

  lemma {:induction false} AllOrderlyConserves(parts: seq<Participant>, incidents: seq<Incident>, elapsed: nat,
                                               m: Measure)
    requires Bounded(parts, elapsed) && AllOrderly(parts, incidents, elapsed) && Conserved(m, elapsed)
    ensures Total(SubstituteAll(parts, incidents, elapsed), m) == Total(parts, m)
  {
    if incidents != [] {
      var front := incidents[..|incidents| - 1];
      AllOrderlyConserves(parts, front, elapsed, m);
      SubstitutesBounded(parts, front, elapsed);
      OrderlyConserves(SubstituteAll(parts, front, elapsed), incidents[|incidents| - 1], elapsed, m);
    }
  }

  // Starters before any substitution: on the pitch from minute 0 to the elapsed one.
  ghost predicate FullMatch(parts: seq<Participant>, elapsed: nat) {
    forall i :: 0 <= i < |parts| ==> parts[i].started && parts[i].entered == 0 && parts[i].exited == elapsed
  }

  lemma {:induction false} StartersPlayFullMatch(parts: seq<Participant>, side: Side, lineup: seq<Option<Id>>,
                                                 elapsed: nat)
    requires FullMatch(parts, elapsed)
    ensures FullMatch(AddStarters(parts, side, lineup, elapsed), elapsed)
  {
    if lineup != [] {
      StartersPlayFullMatch(parts, side, lineup[..|lineup| - 1], elapsed);
    }
  }

  lemma {:induction false} FullMatchTotals(parts: seq<Participant>, elapsed: nat, side: Side, t: int)
    requires FullMatch(parts, elapsed) && 0 <= t < elapsed
    ensures Total(parts, OnPitch(side, t)) == Total(parts, Started(side))
    ensures Total(parts, Minutes(side)) == Total(parts, Started(side)) * elapsed
  {
    if parts != [] {
      FullMatchTotals(parts[..|parts| - 1], elapsed, side, t);
      var count := Total(parts[..|parts| - 1], Started(side));
      assert (count + 1) * elapsed == count * elapsed + elapsed;
    }
  }

  // The conservation theorem: with orderly substitutions, at every minute before the elapsed one each side has as
  // many players on the pitch as it has resolved starters, and the minutes of a side add up to starters x elapsed.
  lemma {:induction false} MinutesConserved(home: seq<Option<Id>>, away: seq<Option<Id>>, incidents: seq<Incident>,
                                            elapsed: nat, side: Side, t: int)
    requires 0 <= t < elapsed
    requires AllOrderly(Starters(home, away, elapsed), incidents, elapsed)
    ensures var parts := Resolve(home, away, incidents, elapsed);
            && Total(parts, OnPitch(side, t)) == Total(Starters(home, away, elapsed), Started(side))
            && Total(parts, Minutes(side)) == Total(Starters(home, away, elapsed), Started(side)) * elapsed
            && Total(parts, Started(side)) == Total(Starters(home, away, elapsed), Started(side))
  {
    var starters := Starters(home, away, elapsed);
    StartersBounded([], Home, home, elapsed);
    StartersBounded(AddStarters([], Home, home, elapsed), Away, away, elapsed);
    StartersPlayFullMatch([], Home, home, elapsed);
    StartersPlayFullMatch(AddStarters([], Home, home, elapsed), Away, away, elapsed);
    FullMatchTotals(starters, elapsed, side, t);
    AllOrderlyConserves(starters, incidents, elapsed, OnPitch(side, t));
    AllOrderlyConserves(starters, incidents, elapsed, Minutes(side));
    AllOrderlyConserves(starters, incidents, elapsed, Started(side));
  }

  // ----- Who plays when, for any feed ----------------------------------------------------------------

  function Of(parts: seq<Participant>, player: Id): Option<Participant> {
    match IndexOf(parts, player)
    case None => None
    case Some(i) => Some(parts[i])
  }

  // The incident sends this player off, or on, for a side.
  predicate SendsOff(incident: Incident, player: Id) {
    incident.kind == Substitution && incident.side != None && incident.related == Some(player)
  }

  predicate SendsOn(incident: Incident, player: Id) {
    incident.kind == Substitution && incident.side != None && incident.player == Some(player)
  }

  // The least minute at which he is sent off, counted from zero, or the end.
  function LeastOff(incidents: seq<Incident>, player: Id, end: int): int {
    if incidents == [] then end
    else
      var before, last := LeastOff(incidents[..|incidents| - 1], player, end), incidents[|incidents| - 1];
      if SendsOff(last, player) && Max(0, last.minute) < before then Max(0, last.minute) else before
  }

  // The least minute at which he is sent on.
  function LeastOn(incidents: seq<Incident>, player: Id): Option<int> {
    if incidents == [] then None
    else
      var before, last := LeastOn(incidents[..|incidents| - 1], player), incidents[|incidents| - 1];
      if SendsOn(last, player) && (before.None? || Max(0, last.minute) < before.value) then Some(Max(0, last.minute))
      else before
  }

  ghost predicate Apart(parts: seq<Participant>) {
    forall i, j :: 0 <= i < j < |parts| ==> parts[i].player != parts[j].player
  }

  lemma {:induction false} OfUpdate(parts: seq<Participant>, i: nat, p: Participant, player: Id)
    requires Apart(parts) && i < |parts| && p.player == parts[i].player
    ensures Apart(parts[i := p])
    ensures Of(parts[i := p], player) == if player == p.player then Some(p) else Of(parts, player)
  {
    var next := parts[i := p];
    assert forall k :: 0 <= k < |parts| ==> next[k].player == parts[k].player;
    if IndexOf(parts, player).Some? {
      assert next[IndexOf(parts, player).value].player == player;
    }
    if player == p.player {
      assert next[i].player == player && parts[i].player == player;
    }
  }

  lemma {:induction false} OfSnoc(parts: seq<Participant>, p: Participant, player: Id)
    ensures Of(parts + [p], player) == if player == p.player then Some(p) else Of(parts, player)
  {
    assert (parts + [p])[..|parts|] == parts;
  }

  lemma {:induction false} OfTakeOff(parts: seq<Participant>, off: Option<Id>, minute: nat, player: Id)
    requires Apart(parts)
    ensures var was, now := Of(parts, player), Of(TakeOff(parts, off, minute), player);
            && Apart(TakeOff(parts, off, minute))
            && now == if off == Some(player) && was.Some?
                      then Some(was.value.(exited := if minute < was.value.exited then minute else was.value.exited))
                      else was
  {
    if off.Some? && IndexOf(parts, off.value).Some? {
      var i := IndexOf(parts, off.value).value;
      OfUpdate(parts, i, parts[i].(exited := Min(parts[i].exited, minute)), player);
    }
  }

  lemma {:induction false} OfBringOn(parts: seq<Participant>, side: Side, on: Option<Id>, minute: nat, elapsed: nat,
                                     player: Id)
    requires Apart(parts)
    ensures var was, now := Of(parts, player), Of(BringOn(parts, side, on, minute, elapsed), player);
            && Apart(BringOn(parts, side, on, minute, elapsed))
            && now == if on != Some(player) then was
                      else if was.None? then Some(Participant(player, side, false, minute, elapsed))
                      else Some(was.value.(entered := if minute < was.value.entered then minute else was.value.entered))
  {
    if on.Some? {
      match IndexOf(parts, on.value)
      case Some(i) => OfUpdate(parts, i, parts[i].(entered := Min(parts[i].entered, minute)), player);
      case None => OfSnoc(parts, Participant(on.value, side, false, minute, elapsed), player);
    }
  }

  // One incident: off first, then on.
  lemma {:induction false} OfSubstitute(parts: seq<Participant>, incident: Incident, elapsed: nat, player: Id)
    requires Apart(parts)
    ensures var was, now := Of(parts, player), Of(Substitute(parts, incident, elapsed), player);
            var minute := Max(0, incident.minute);
            && Apart(Substitute(parts, incident, elapsed))
            && (was.None? && !SendsOn(incident, player) ==> now.None?)
            && (was.None? && SendsOn(incident, player) ==>
                  now == Some(Participant(player, incident.side.value, false, minute, elapsed)))
            && (was.Some? ==> now == Some(was.value.(
                  exited := if SendsOff(incident, player) && minute < was.value.exited then minute
                            else was.value.exited,
                  entered := if SendsOn(incident, player) && minute < was.value.entered then minute
                             else was.value.entered)))
  {
    if IsSubstitution(incident) {
      var minute := Max(0, incident.minute);
      OfTakeOff(parts, incident.related, minute, player);
      OfBringOn(TakeOff(parts, incident.related, minute), incident.side.value, incident.player, minute, elapsed,
                player);
    }
  }

  // A participant who entered at the start leaves at the least minute at which he is sent off.
  lemma {:induction false} OfStarter(parts: seq<Participant>, incidents: seq<Incident>, elapsed: nat, player: Id)
    requires Apart(parts) && Of(parts, player).Some?
    requires Of(parts, player).value.entered == 0 && Of(parts, player).value.exited == elapsed
    ensures Apart(SubstituteAll(parts, incidents, elapsed))
    ensures Of(SubstituteAll(parts, incidents, elapsed), player)
         == Some(Of(parts, player).value.(exited := LeastOff(incidents, player, elapsed)))
  {
    if incidents != [] {
      OfStarter(parts, incidents[..|incidents| - 1], elapsed, player);
      OfSubstitute(SubstituteAll(parts, incidents[..|incidents| - 1], elapsed), incidents[|incidents| - 1], elapsed,
                   player);
    }
  }

  // Nobody takes part whom no line-up and no incident brings on.
  lemma {:induction false} OfNobody(parts: seq<Participant>, incidents: seq<Incident>, elapsed: nat, player: Id)
    requires Apart(parts) && Of(parts, player).None?
    requires forall i :: 0 <= i < |incidents| ==> !SendsOn(incidents[i], player)
    ensures Apart(SubstituteAll(parts, incidents, elapsed))
    ensures Of(SubstituteAll(parts, incidents, elapsed), player).None?
  {
    if incidents != [] {
      OfNobody(parts, incidents[..|incidents| - 1], elapsed, player);
      OfSubstitute(SubstituteAll(parts, incidents[..|incidents| - 1], elapsed), incidents[|incidents| - 1], elapsed,
                   player);
    }
  }

  lemma {:induction false} NeverSentOn(incidents: seq<Incident>, player: Id)
    requires forall i :: 0 <= i < |incidents| ==> !SendsOn(incidents[i], player)
    ensures LeastOn(incidents, player).None?
  {
    if incidents != [] {
      NeverSentOn(incidents[..|incidents| - 1], player);
    }
  }

  // A player first sent on by incident i belongs to the side of that incident, entered at the least minute at which he
  // was sent on and left at the least at which a later incident sent him off.
  lemma {:induction false} OfSubstituted(parts: seq<Participant>, incidents: seq<Incident>, elapsed: nat, player: Id,
                                         i: nat)
    requires Apart(parts) && Of(parts, player).None?
    requires i < |incidents| && SendsOn(incidents[i], player)
    requires forall j :: 0 <= j < i ==> !SendsOn(incidents[j], player)
    ensures Apart(SubstituteAll(parts, incidents, elapsed)) && LeastOn(incidents, player).Some?
    ensures Of(SubstituteAll(parts, incidents, elapsed), player)
         == Some(Participant(player, incidents[i].side.value, false, LeastOn(incidents, player).value,
                             LeastOff(incidents[i + 1..], player, elapsed)))
  {
    var last := |incidents| - 1;
    if i == last {
      OfLastOn(parts, incidents, elapsed, player);
      assert incidents[i + 1..] == [];
    } else {
      OfSubstituted(parts, incidents[..last], elapsed, player, i);
      LeastOffLater(incidents, i, player, elapsed);
      OfSubstitute(SubstituteAll(parts, incidents[..last], elapsed), incidents[last], elapsed, player);
    }
  }

  lemma {:induction false} OfLastOn(parts: seq<Participant>, incidents: seq<Incident>, elapsed: nat, player: Id)
    requires Apart(parts) && Of(parts, player).None?
    requires incidents != [] && SendsOn(incidents[|incidents| - 1], player)
    requires forall j :: 0 <= j < |incidents| - 1 ==> !SendsOn(incidents[j], player)
    ensures var last := incidents[|incidents| - 1];
            && Apart(SubstituteAll(parts, incidents, elapsed))
            && LeastOn(incidents, player) == Some(Max(0, last.minute))
            && Of(SubstituteAll(parts, incidents, elapsed), player)
               == Some(Participant(player, last.side.value, false, Max(0, last.minute), elapsed))
  {
    var last := |incidents| - 1;
    OfNobody(parts, incidents[..last], elapsed, player);
    NeverSentOn(incidents[..last], player);
    OfSubstitute(SubstituteAll(parts, incidents[..last], elapsed), incidents[last], elapsed, player);
  }

  lemma {:induction false} LeastOffLater(incidents: seq<Incident>, i: nat, player: Id, end: int)
    requires i < |incidents| - 1
    ensures var last := incidents[|incidents| - 1];
            var before := LeastOff(incidents[..|incidents| - 1][i + 1..], player, end);
            LeastOff(incidents[i + 1..], player, end)
            == if SendsOff(last, player) && Max(0, last.minute) < before then Max(0, last.minute) else before
  {
    assert incidents[i + 1..][..|incidents[i + 1..]| - 1] == incidents[..|incidents| - 1][i + 1..];
  }

  lemma {:induction false} OfLineup(parts: seq<Participant>, side: Side, lineup: seq<Option<Id>>, elapsed: nat,
                                    player: Id)
    requires Apart(parts)
    ensures Apart(AddStarters(parts, side, lineup, elapsed))
    ensures Of(AddStarters(parts, side, lineup, elapsed), player)
         == if Of(parts, player).Some? then Of(parts, player)
            else if Some(player) in lineup then Some(Participant(player, side, true, 0, elapsed)) else None
  {
    if lineup != [] {
      var front, last := lineup[..|lineup| - 1], lineup[|lineup| - 1];
      OfLineup(parts, side, front, elapsed, player);
      assert lineup == front + [last];
      if last.Some? {
        OfSnoc(AddStarters(parts, side, front, elapsed), Participant(last.value, side, true, 0, elapsed), player);
      }
    }
  }

  // Who plays when, whatever the feed says. A player of a line-up starts for its side, the home one if he is in both,
  // and leaves at the least minute at which he is sent off. Anybody else takes part exactly when an incident sends him
  // on, for the side of the first that does.
  lemma {:induction false} WhoPlaysWhen(home: seq<Option<Id>>, away: seq<Option<Id>>, incidents: seq<Incident>,
                                        elapsed: nat, player: Id)
    ensures var now := Of(Resolve(home, away, incidents, elapsed), player);
            var starts := Some(player) in home || Some(player) in away;
            && (starts ==>
                  now == Some(Participant(player, if Some(player) in home then Home else Away, true, 0,
                                          LeastOff(incidents, player, elapsed))))
            && (!starts && LeastOn(incidents, player).None? ==> now == None)
            && (!starts && LeastOn(incidents, player).Some? ==>
                  exists i ::
                    && 0 <= i < |incidents| && SendsOn(incidents[i], player)
                    && (forall j :: 0 <= j < i ==> !SendsOn(incidents[j], player))
                    && now == Some(Participant(player, incidents[i].side.value, false, LeastOn(incidents, player).value,
                                               LeastOff(incidents[i + 1..], player, elapsed))))
  {
    var starters := Starters(home, away, elapsed);
    OfLineup([], Home, home, elapsed, player);
    OfLineup(AddStarters([], Home, home, elapsed), Away, away, elapsed, player);
    if Of(starters, player).Some? {
      OfStarter(starters, incidents, elapsed, player);
    } else if forall i :: 0 <= i < |incidents| ==> !SendsOn(incidents[i], player) {
      OfNobody(starters, incidents, elapsed, player);
      NeverSentOn(incidents, player);
    } else {
      var i := FirstSentOn(incidents, player);
      OfSubstituted(starters, incidents, elapsed, player, i);
    }
  }

  lemma {:induction false} FirstSentOn(incidents: seq<Incident>, player: Id) returns (i: nat)
    requires exists k :: 0 <= k < |incidents| && SendsOn(incidents[k], player)
    ensures i < |incidents| && SendsOn(incidents[i], player)
    ensures forall j :: 0 <= j < i ==> !SendsOn(incidents[j], player)
  {
    i := 0;
    while !SendsOn(incidents[i], player)
      invariant i < |incidents| && forall j :: 0 <= j < i ==> !SendsOn(incidents[j], player)
      decreases |incidents| - i
    {
      i := i + 1;
    }
  }
}
