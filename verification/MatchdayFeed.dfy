/** Matchday deadlines derived from the fixtures of a provider feed. */
module MatchdayFeed {
  import opened Wrappers

  // Times are in milliseconds.
  const HOUR := 3600000
  const WEEK := 7 * 24 * HOUR

  datatype Matchday = Matchday(phase: string, opensAt: Option<int>, deadlineAt: int, locksAt: Option<int>)

  // A fixture counts only if both teams are known and it has a kickoff.
  datatype Fixture = Fixture(homeKnown: bool, awayKnown: bool, kickoff: Option<int>, number: int, phase: string)

  predicate Usable(f: Fixture) {
    f.homeKnown && f.awayKnown && f.kickoff.Some?
  }

  // An instant moves to an earlier candidate; a missing one is set.
  function Earlier(stored: Option<int>, candidate: int): Option<int> {
    if stored.None? || stored.value > candidate then Some(candidate) else stored
  }

  // resolveOrCreateMatchday
  function Resolve(stored: Option<Matchday>, phase: string, kickoff: int): Matchday {
    var deadline := kickoff - HOUR;
    match stored
    case None => Matchday(phase, Some(deadline - WEEK), deadline, Some(deadline))
    case Some(m) =>
      Matchday(phase, Earlier(m.opensAt, deadline - WEEK), Min(m.deadlineAt, deadline), Earlier(m.locksAt, deadline))
  }

  type Calendar = map<int, Matchday>

  function Stored(calendar: Calendar, number: int): Option<Matchday> {
    if number in calendar then Some(calendar[number]) else None
  }

  function SyncOne(calendar: Calendar, f: Fixture): Calendar {
    if Usable(f) then calendar[f.number := Resolve(Stored(calendar, f.number), f.phase, f.kickoff.value)] else calendar
  }

  function SyncAll(calendar: Calendar, fixtures: seq<Fixture>): Calendar {
    if fixtures == [] then calendar
    else SyncOne(SyncAll(calendar, fixtures[..|fixtures| - 1]), fixtures[|fixtures| - 1])
  }

  // ----- The reference: the first kickoff of a matchday ------------------------------------------

  predicate PlaysIn(f: Fixture, number: int) {
    Usable(f) && f.number == number
  }

  function FirstKickoff(fixtures: seq<Fixture>, number: int): Option<int> {
    if fixtures == [] then None
    else
      var last, before := fixtures[|fixtures| - 1], FirstKickoff(fixtures[..|fixtures| - 1], number);
      if !PlaysIn(last, number) then before else Some(Min(before.GetOr(last.kickoff.value), last.kickoff.value))
  }

  // It is the kickoff of a fixture of the matchday, and none of them starts earlier.
  lemma {:induction false} FirstKickoffIsLeast(fixtures: seq<Fixture>, number: int)
    ensures forall f :: f in fixtures && PlaysIn(f, number) ==>
      FirstKickoff(fixtures, number).Some? && FirstKickoff(fixtures, number).value <= f.kickoff.value
    ensures FirstKickoff(fixtures, number).Some? ==>
      exists f :: f in fixtures && PlaysIn(f, number) && f.kickoff == FirstKickoff(fixtures, number)
  {
    if fixtures != [] {
      var last := |fixtures| - 1;
      FirstKickoffIsLeast(fixtures[..last], number);
      assert fixtures == fixtures[..last] + [fixtures[last]];
      assert fixtures[last] in fixtures;
    }
  }

  // The instants of a matchday that only the feed has touched, given its first kickoff.
  ghost predicate SetBy(m: Matchday, kickoff: int) {
    && m.deadlineAt == kickoff - HOUR
    && m.locksAt == Some(m.deadlineAt)
    && m.opensAt == Some(m.deadlineAt - WEEK)
  }

  // What remains of stored instants once kickoffs down to `kickoff` were seen.
  ghost predicate MovedBy(before: Matchday, after: Matchday, kickoff: int) {
    && after.deadlineAt == Min(before.deadlineAt, kickoff - HOUR)
    && after.locksAt == Earlier(before.locksAt, kickoff - HOUR)
    && after.opensAt == Earlier(before.opensAt, kickoff - HOUR - WEEK)
  }

  lemma {:induction false} Untouched(calendar: Calendar, fixtures: seq<Fixture>, number: int)
    requires FirstKickoff(fixtures, number) == None
    ensures Stored(SyncAll(calendar, fixtures), number) == Stored(calendar, number)
  {
    if fixtures != [] {
      Untouched(calendar, fixtures[..|fixtures| - 1], number);
    }
  }

  // A matchday created by the feed: deadline and lock one hour before its first kickoff, opening a week earlier,
  // whatever the order and repetition of its fixtures.
  lemma {:induction false} DeadlineFold(calendar: Calendar, fixtures: seq<Fixture>, number: int)
    requires number !in calendar && FirstKickoff(fixtures, number).Some?
    ensures number in SyncAll(calendar, fixtures)
    ensures SetBy(SyncAll(calendar, fixtures)[number], FirstKickoff(fixtures, number).value)
  {
    var front := fixtures[..|fixtures| - 1];
    if FirstKickoff(front, number).Some? {
      DeadlineFold(calendar, front, number);
    } else {
      Untouched(calendar, front, number);
    }
  }

  // A stored matchday only moves earlier, down to what its first kickoff demands; missing instants are set.
  lemma {:induction false} StoredOnlyMovesEarlier(calendar: Calendar, fixtures: seq<Fixture>, number: int)
    requires number in calendar && FirstKickoff(fixtures, number).Some?
    ensures number in SyncAll(calendar, fixtures)
    ensures MovedBy(calendar[number], SyncAll(calendar, fixtures)[number], FirstKickoff(fixtures, number).value)
  {
    var front := fixtures[..|fixtures| - 1];
    if FirstKickoff(front, number).Some? {
      StoredOnlyMovesEarlier(calendar, front, number);
    } else {
      Untouched(calendar, front, number);
    }
  }

  // Two feeds with the same fixtures of a matchday, in any order and repetition, set the same instants.
  lemma {:induction false} OrderDoesNotMatter(calendar: Calendar, a: seq<Fixture>, b: seq<Fixture>, number: int)
    requires number !in calendar && FirstKickoff(a, number).Some?
    requires forall f :: PlaysIn(f, number) ==> (f in a <==> f in b)
    ensures number in SyncAll(calendar, a) && number in SyncAll(calendar, b)
    ensures SyncAll(calendar, b)[number] == SyncAll(calendar, a)[number].(phase := SyncAll(calendar, b)[number].phase)
  {
    FirstKickoffIsLeast(a, number);
    FirstKickoffIsLeast(b, number);
    DeadlineFold(calendar, a, number);
    DeadlineFold(calendar, b, number);
  }

  // Unlocking a matchday clears its lock instant; the next pass of the same feed sets it to the deadline again and
  // changes no other instant.
  lemma {:induction false} ReplayRestoresLock(calendar: Calendar, fixtures: seq<Fixture>, number: int)
    requires number !in calendar && FirstKickoff(fixtures, number).Some?
    ensures var synced := SyncAll(calendar, fixtures);
            && number in synced
            && var replayed := SyncAll(synced[number := synced[number].(locksAt := None)], fixtures);
               && number in replayed
               && replayed[number] == synced[number].(phase := replayed[number].phase)
  {
    DeadlineFold(calendar, fixtures, number);
    var synced := SyncAll(calendar, fixtures);
    StoredOnlyMovesEarlier(synced[number := synced[number].(locksAt := None)], fixtures, number);
  }

  // ----- In milliseconds, fixture by fixture ------------------------------------------------------------

  // A fixture of the matchday whose teams are known and which has a kickoff, the first or the last of them.
  ghost predicate Counts(f: Fixture, number: int) {
    f.homeKnown && f.awayKnown && f.kickoff != None && f.number == number
  }

  ghost predicate KicksOffFirst(fixtures: seq<Fixture>, number: int, i: int) {
    && 0 <= i < |fixtures| && Counts(fixtures[i], number)
    && forall j :: 0 <= j < |fixtures| && Counts(fixtures[j], number) ==>
         fixtures[i].kickoff.value <= fixtures[j].kickoff.value
  }

  ghost predicate ComesLast(fixtures: seq<Fixture>, number: int, i: int) {
    && 0 <= i < |fixtures| && Counts(fixtures[i], number)
    && forall j :: i < j < |fixtures| ==> !Counts(fixtures[j], number)
  }

  lemma {:induction false} FirstIsFirst(fixtures: seq<Fixture>, number: int, i: int)
    requires KicksOffFirst(fixtures, number, i)
    ensures FirstKickoff(fixtures, number) == fixtures[i].kickoff
  {
    FirstKickoffIsLeast(fixtures, number);
    assert PlaysIn(fixtures[i], number) && fixtures[i] in fixtures;
    var f :| f in fixtures && PlaysIn(f, number) && f.kickoff == FirstKickoff(fixtures, number);
    var j :| 0 <= j < |fixtures| && fixtures[j] == f;
    assert Counts(fixtures[j], number);
  }

  lemma {:induction false} LastPhase(calendar: Calendar, fixtures: seq<Fixture>, number: int, i: int)
    requires ComesLast(fixtures, number, i)
    ensures number in SyncAll(calendar, fixtures) && SyncAll(calendar, fixtures)[number].phase == fixtures[i].phase
  {
    var last := |fixtures| - 1;
    if i < last {
      assert !Counts(fixtures[last], number);
      LastPhase(calendar, fixtures[..last], number, i);
    }
  }

  // A matchday new to the calendar: its deadline is an hour before the first kickoff, it locks then, it opened a week
  // before that, and its phase is that of the last fixture read.
  lemma {:induction false} CreatedMatchday(calendar: Calendar, fixtures: seq<Fixture>, number: int, first: int,
                                           last: int)
    requires number !in calendar && KicksOffFirst(fixtures, number, first) && ComesLast(fixtures, number, last)
    ensures var kickoff := fixtures[first].kickoff.value;
            && number in SyncAll(calendar, fixtures)
            && SyncAll(calendar, fixtures)[number]
               == Matchday(fixtures[last].phase, Some(kickoff - 3600000 - 604800000), kickoff - 3600000,
                           Some(kickoff - 3600000))
  {
    FirstIsFirst(fixtures, number, first);
    DeadlineFold(calendar, fixtures, number);
    LastPhase(calendar, fixtures, number, last);
  }

  // A stored matchday: each instant is the earlier one of what it was and what the first kickoff demands, and set if it
  // was missing.
  lemma {:induction false} MovedMatchday(calendar: Calendar, fixtures: seq<Fixture>, number: int, first: int, last: int)
    requires number in calendar && KicksOffFirst(fixtures, number, first) && ComesLast(fixtures, number, last)
    ensures var before := calendar[number];
            var deadline := fixtures[first].kickoff.value - 3600000;
            && number in SyncAll(calendar, fixtures)
            && var after := SyncAll(calendar, fixtures)[number];
               && after.phase == fixtures[last].phase
               && after.deadlineAt == (if before.deadlineAt < deadline then before.deadlineAt else deadline)
               && after.locksAt == (if before.locksAt != None && before.locksAt.value < deadline then before.locksAt
                                    else Some(deadline))
               && after.opensAt == (if before.opensAt != None && before.opensAt.value < deadline - 604800000
                                    then before.opensAt else Some(deadline - 604800000))
  {
    FirstIsFirst(fixtures, number, first);
    StoredOnlyMovesEarlier(calendar, fixtures, number);
    LastPhase(calendar, fixtures, number, last);
  }

  // Without such a fixture nothing happens to the matchday.
  lemma {:induction false} OtherMatchday(calendar: Calendar, fixtures: seq<Fixture>, number: int)
    requires forall i :: 0 <= i < |fixtures| ==> !Counts(fixtures[i], number)
    ensures Stored(SyncAll(calendar, fixtures), number) == Stored(calendar, number)
    ensures number in SyncAll(calendar, fixtures) <==> number in calendar
  {
    FirstKickoffIsLeast(fixtures, number);
    assert forall f :: f in fixtures ==> !Counts(f, number);
    Untouched(calendar, fixtures, number);
  }

  class Feed {
    var calendar: Calendar

    constructor ()
      ensures calendar == map[]
    {
      calendar := map[];
    }

    // Overwrites the instants of the stored matchday, or creates it.
    method ResolveOrCreateMatchday(number: int, phase: string, kickoff: int)
      modifies this
      ensures calendar == old(calendar)[number := Resolve(Stored(old(calendar), number), phase, kickoff)]
    {
      var deadline := kickoff - HOUR;
      var opens := deadline - WEEK;
      if number !in calendar {
        calendar := calendar[number := Matchday(phase, Some(opens), deadline, Some(deadline))];
        return;
      }
      var m := calendar[number].(phase := phase);
      if m.opensAt.None? || m.opensAt.value > opens {
        m := m.(opensAt := Some(opens));
      }
      if m.deadlineAt > deadline {
        m := m.(deadlineAt := deadline);
      }
      if m.locksAt.None? || m.locksAt.value > deadline {
        m := m.(locksAt := Some(deadline));
      }
      calendar := calendar[number := m];
    }

    method SyncTournament(fixtures: seq<Fixture>)
      modifies this
      ensures calendar == SyncAll(old(calendar), fixtures)
    {
      var i := 0;
      while i < |fixtures|
        invariant i <= |fixtures| && calendar == SyncAll(old(calendar), fixtures[..i])
      {
        assert fixtures[..i + 1][..i] == fixtures[..i];
        if Usable(fixtures[i]) {
          ResolveOrCreateMatchday(fixtures[i].number, fixtures[i].phase, fixtures[i].kickoff.value);
        }
        i := i + 1;
      }
      assert fixtures[..|fixtures|] == fixtures;
    }
  }
}
