/** Head-to-head fixture generation: the circle method of the league engine.

    A list of slots is paired from both ends, then every slot but the first is rotated by one.
    The theorems say what the rotation is for: every pair of participants meets exactly once, and every
    participant plays exactly once in every round. */
module RoundRobin {
  import opened Wrappers

  // The virtual "Average" team of an odd league takes a slot of its own.
  datatype Participant = Average | Member(id: Id)

  datatype Outcome = Upcoming | Finalized(homePoints: int, awayPoints: int, winner: Option<Id>)

  datatype Fixture = Fixture(
    roundNumber: nat,
    matchdayNumber: int,
    home: Participant,
    away: Participant,
    isAverage: bool,
    outcome: Outcome)

  // ----- What is counted ------------------------------------------------------

  // Questions asked of a fixture list.
  datatype Query =
    | Meeting(p: Participant, q: Participant)
    | Playing(p: Participant)
    | PlayingIn(round: nat, p: Participant)

  predicate Plays(f: Fixture, p: Participant) {
    f.home == p || f.away == p
  }

  predicate Matches(f: Fixture, query: Query) {
    match query
    case Meeting(p, q) => (f.home == p && f.away == q) || (f.home == q && f.away == p)
    case Playing(p) => Plays(f, p)
    case PlayingIn(round, p) => f.roundNumber == round && Plays(f, p)
  }

  function Count(fs: seq<Fixture>, query: Query): nat {
    if fs == [] then 0
    else Count(fs[..|fs| - 1], query) + if Matches(fs[|fs| - 1], query) then 1 else 0
  }

  // ----- The specification of the generator -----------------------------------

  function Slots(teams: seq<Id>): (slots: seq<Participant>) {
    var members := seq(|teams|, i requires 0 <= i < |teams| => Member(teams[i]));
    if |teams| % 2 != 0 then members + [Average] else members
  }

  // slots.pop() followed by slots.splice(1, 0, last)
  function Rotate(slots: seq<Participant>): (r: seq<Participant>)
    requires |slots| >= 2
    ensures |r| == |slots|
  {
    var n := |slots|;
    [slots[0], slots[n - 1]] + slots[1..n - 1]
  }

  function SlotsAfter(slots: seq<Participant>, rounds: nat): (r: seq<Participant>)
    requires |slots| >= 2 || rounds == 0
    ensures |r| == |slots|
  {
    if rounds == 0 then slots else Rotate(SlotsAfter(slots, rounds - 1))
  }

  function MakeFixture(round: nat, matchday: int, home: Participant, away: Participant): Fixture {
    Fixture(round, matchday, home, away, home.Average? || away.Average?, Upcoming)
  }

  // The first `matches` pairings of one round; two Average slots would be skipped.
  function RoundFixtures(slots: seq<Participant>, round: nat, matchday: int, matches: nat): seq<Fixture>
    requires matches <= |slots|
  {
    if matches == 0 then []
    else
      var k := matches - 1;
      var home, away := slots[k], slots[|slots| - 1 - k];
      RoundFixtures(slots, round, matchday, k)
      + if home.Average? && away.Average? then [] else [MakeFixture(round, matchday, home, away)]
  }

  // The fixtures of round r + 1.
  function RoundOf(slots: seq<Participant>, matchdays: seq<int>, r: nat): seq<Fixture>
    requires |slots| >= 2 && r < |matchdays|
  {
    RoundFixtures(SlotsAfter(slots, r), r + 1, matchdays[r], |slots| / 2)
  }

  function Flatten(rounds: seq<seq<Fixture>>): seq<Fixture> {
    if rounds == [] then [] else Flatten(rounds[..|rounds| - 1]) + rounds[|rounds| - 1]
  }

  function Rounds(slots: seq<Participant>, matchdays: seq<int>, rounds: nat): (rs: seq<seq<Fixture>>)
    requires |slots| >= 2 || rounds == 0
    requires rounds <= |matchdays|
  {
    seq(rounds, r requires 0 <= r < rounds => RoundOf(slots, matchdays, r))
  }

  function Schedule(slots: seq<Participant>, matchdays: seq<int>, rounds: nat): seq<Fixture>
    requires |slots| >= 2 || rounds == 0
    requires rounds <= |matchdays|
  {
    Flatten(Rounds(slots, matchdays, rounds))
  }

  // ----- The generator --------------------------------------------------------

  // A league without teams has no slot and plays no round.
  function RoundCount(slots: nat): nat {
    if slots == 0 then 0 else slots - 1
  }

  // The pairing loop of one round: slots are paired from both ends.
  method PairRound(slots: seq<Participant>, round: nat, matchdayNumber: int) returns (fixtures: seq<Fixture>)
    ensures fixtures == RoundFixtures(slots, round, matchdayNumber, |slots| / 2)
  {
    fixtures := [];
    var n := |slots|;
    for k := 0 to n / 2
      invariant fixtures == RoundFixtures(slots, round, matchdayNumber, k)
    {
      var homeTeam, awayTeam := slots[k], slots[n - 1 - k];
      if homeTeam.Average? && awayTeam.Average? {
        continue;
      }
      var isAverageFixture := homeTeam.Average? || awayTeam.Average?;
      fixtures := fixtures + [Fixture(round, matchdayNumber, homeTeam, awayTeam, isAverageFixture, Upcoming)];
    }
  }

  // Keep the first slot fixed: pop the last one and insert it second.
  method RotateSlots(before: seq<Participant>) returns (slots: seq<Participant>)
    requires |before| >= 2
    ensures slots == Rotate(before)
  {
    slots := before;
    var last := slots[|slots| - 1];
    slots := slots[..|slots| - 1];
    slots := slots[..1] + [last] + slots[1..];
  }

  lemma {:induction false} ScheduleStep(start: seq<Participant>, futureMatchdays: seq<int>, round: nat)
    requires |start| >= 2 && round < |futureMatchdays|
    ensures Schedule(start, futureMatchdays, round + 1)
         == Schedule(start, futureMatchdays, round) + RoundOf(start, futureMatchdays, round)
  {
    var longer := Rounds(start, futureMatchdays, round + 1);
    assert longer[..round] == Rounds(start, futureMatchdays, round);
  }

  method PlayRounds(start: seq<Participant>, futureMatchdays: seq<int>, totalRounds: nat)
    returns (fixtures: seq<Fixture>)
    requires |start| >= 2 || totalRounds == 0
    requires totalRounds <= |futureMatchdays|
    ensures fixtures == Schedule(start, futureMatchdays, totalRounds)
  {
    var slots := start;
    fixtures := [];
    for round := 0 to totalRounds
      invariant slots == SlotsAfter(start, round)
      invariant fixtures == Schedule(start, futureMatchdays, round)
    {
      ScheduleStep(start, futureMatchdays, round);
      var paired := PairRound(slots, round + 1, futureMatchdays[round]);
      fixtures := fixtures + paired;
      slots := RotateSlots(slots);
    }
  }

  method GenerateFixtures(teams: seq<Id>, futureMatchdays: seq<int>)
    returns (r: Result<seq<Fixture>, string>)
    ensures r.Err? <==> |Slots(teams)| - 1 > |futureMatchdays|
    ensures r.Ok? ==> r.value == Schedule(Slots(teams), futureMatchdays, RoundCount(|Slots(teams)|))
  {
    var slots := Slots(teams);
    if |futureMatchdays| < |slots| - 1 {
      return Err("Not enough matchdays available.");
    }
    var fixtures := PlayRounds(slots, futureMatchdays, RoundCount(|slots|));
    r := Ok(fixtures);
  }

  // ----- Where the rotation puts a participant ---------------------------------

  // z modulo m, for z below 2m.
  function Wrap(z: int, m: nat): int {
    if z >= m then z - m else z
  }

  // The slot of original index x after r rotations of m + 1 slots.
  function PositionOf(x: nat, r: nat, m: nat): int {
    if x == 0 then 0 else 1 + Wrap(x - 1 + r, m)
  }

  lemma {:induction false} SlotAfterRotations(slots: seq<Participant>, r: nat, x: nat)
    requires |slots| >= 2 && r < |slots| && x < |slots|
    ensures 0 <= PositionOf(x, r, |slots| - 1) < |slots|
    ensures SlotsAfter(slots, r)[PositionOf(x, r, |slots| - 1)] == slots[x]
  {
    if r > 0 {
      SlotAfterRotations(slots, r - 1, x);
    }
  }

  // Two indices meet in a round exactly when their slots are opposite.
  predicate MeetIn(a: nat, b: nat, r: nat, m: nat) {
    PositionOf(a, r, m) + PositionOf(b, r, m) == m
  }

  // Writing m = 2h + 1: two wrapped positions add up to m - 2 in one round only.
  lemma {:induction false} OppositeOnce(u: nat, v: nat, h: nat, r: nat, at: nat)
    requires u < v < 2 * h + 1 && r < 2 * h + 1 && at < 2 * h + 1
    requires u + v + 2 * at == 4 * h || u + v + 2 * at == 2 * h - 1 || u + v + 2 * at == 6 * h + 1
    ensures Wrap(u + r, 2 * h + 1) + Wrap(v + r, 2 * h + 1) == 2 * h - 1 <==> r == at
  {
    var su, sv := Wrap(u + r, 2 * h + 1), Wrap(v + r, 2 * h + 1);
    if u + r < 2 * h + 1 {
      if v + r < 2 * h + 1 {
        assert su + sv == u + v + 2 * r;
      } else {
        assert su + sv == u + v + 2 * r - (2 * h + 1);
      }
    } else {
      assert su + sv == u + v + 2 * r - 2 * (2 * h + 1);
    }
  }

  ghost predicate MeetOnlyIn(a: nat, b: nat, m: nat, at: nat) {
    at < m && forall r: nat :: 0 <= r < m ==> MeetIn(a, b, r, m) == (r == at)
  }

  // Every pair meets in exactly one round, because m is odd.
  lemma {:induction false} MeetingRound(a: nat, b: nat, m: nat) returns (at: nat)
    requires m % 2 == 1 && a < b <= m
    ensures MeetOnlyIn(a, b, m, at)
  {
    if a == 0 {
      at := m - b;
    } else {
      var s, h := a + b - 2, m / 2;
      at := if s % 2 == 0 then 2 * h - s / 2 else if s < 2 * h then h - s / 2 - 1 else 3 * h - s / 2;
      forall r: nat | r < m
        ensures MeetIn(a, b, r, m) == (r == at)
      {
        OppositeOnce(a - 1, b - 1, h, r, at);
      }
    }
  }

  // ----- One round -------------------------------------------------------------

  // The participants of a league: an even number of distinct slots.
  ghost predicate Proper(slots: seq<Participant>) {
    |slots| >= 2 && |slots| % 2 == 0 && Distinct(slots)
  }

  lemma {:induction false} RotationsKeepDistinct(slots: seq<Participant>, r: nat)
    requires Proper(slots)
    ensures Proper(SlotsAfter(slots, r))
  {
    if r > 0 {
      RotationsKeepDistinct(slots, r - 1);
    }
  }

  lemma {:induction false} RoundFixtureAt(slots: seq<Participant>, round: nat, matchday: int, matches: nat)
    requires Proper(slots) && matches <= |slots| / 2
    ensures |RoundFixtures(slots, round, matchday, matches)| == matches
    ensures forall k :: 0 <= k < matches ==>
      RoundFixtures(slots, round, matchday, matches)[k]
      == MakeFixture(round, matchday, slots[k], slots[|slots| - 1 - k])
  {
    if matches > 0 {
      RoundFixtureAt(slots, round, matchday, matches - 1);
    }
  }

  lemma {:induction false} CountZero(fs: seq<Fixture>, query: Query)
    requires forall i :: 0 <= i < |fs| ==> !Matches(fs[i], query)
    ensures Count(fs, query) == 0
  {
    if fs != [] {
      CountZero(fs[..|fs| - 1], query);
    }
  }

  lemma {:induction false} CountOne(fs: seq<Fixture>, query: Query, at: nat)
    requires at < |fs| && Matches(fs[at], query)
    requires forall i :: 0 <= i < |fs| && i != at ==> !Matches(fs[i], query)
    ensures Count(fs, query) == 1
  {
    if at == |fs| - 1 {
      CountZero(fs[..|fs| - 1], query);
    } else {
      CountOne(fs[..|fs| - 1], query, at);
    }
  }

  lemma {:induction false} CountAll(fs: seq<Fixture>, query: Query)
    requires forall i :: 0 <= i < |fs| ==> Matches(fs[i], query)
    ensures Count(fs, query) == |fs|
  {
    if fs != [] {
      CountAll(fs[..|fs| - 1], query);
    }
  }

  lemma {:induction false} CountAppend(fs: seq<Fixture>, gs: seq<Fixture>, query: Query)
    ensures Count(fs + gs, query) == Count(fs, query) + Count(gs, query)
  {
    if gs == [] {
      assert fs + gs == fs;
    } else {
      CountAppend(fs, gs[..|gs| - 1], query);
      assert (fs + gs)[..|fs + gs| - 1] == fs + gs[..|gs| - 1];
    }
  }

  lemma {:induction false} CountSnoc(fs: seq<Fixture>, f: Fixture, query: Query)
    ensures Count(fs + [f], query) == Count(fs, query) + if Matches(f, query) then 1 else 0
  {
    assert (fs + [f])[..|fs|] == fs;
  }

  lemma {:induction false} PairingMeets(now: seq<Participant>, round: nat, matchday: int, k: nat, pa: nat, pb: nat)
    requires Proper(now) && k < |now| / 2 && pa < |now| && pb < |now|
    ensures var f := MakeFixture(round, matchday, now[k], now[|now| - 1 - k]);
            && (Matches(f, Playing(now[pa])) <==> k == pa || k == |now| - 1 - pa)
            && (pa != pb ==> (Matches(f, Meeting(now[pa], now[pb]))
                             <==> pa + pb == |now| - 1 && (k == pa || k == pb)))
  {
  }

  lemma {:induction false} OppositesMeetOnce(now: seq<Participant>, fs: seq<Fixture>, round: nat, matchday: int,
                                             pa: nat, pb: nat)
    requires Proper(now) && pa < |now| && pb < |now| && pa != pb
    requires fs == RoundFixtures(now, round, matchday, |now| / 2)
    ensures Count(fs, Meeting(now[pa], now[pb])) == if pa + pb == |now| - 1 then 1 else 0
  {
    RoundFixtureAt(now, round, matchday, |now| / 2);
    var query := Meeting(now[pa], now[pb]);
    forall k | 0 <= k < |fs|
      ensures Matches(fs[k], query) <==> pa + pb == |now| - 1 && (k == pa || k == pb)
    {
      PairingMeets(now, round, matchday, k, pa, pb);
    }
    if pa + pb == |now| - 1 {
      CountOne(fs, query, if pa < pb then pa else pb);
    } else {
      CountZero(fs, query);
    }
  }

  lemma {:induction false} RoundPairsOpposites(slots: seq<Participant>, matchdays: seq<int>, r: nat, a: nat, b: nat)
    requires Proper(slots) && r < |slots| - 1 <= |matchdays|
    requires a < b < |slots|
    ensures Count(RoundOf(slots, matchdays, r), Meeting(slots[a], slots[b]))
         == if MeetIn(a, b, r, |slots| - 1) then 1 else 0
  {
    var m := |slots| - 1;
    var pa, pb := PositionOf(a, r, m), PositionOf(b, r, m);
    var now := SlotsAfter(slots, r);
    assert Proper(now) by { RotationsKeepDistinct(slots, r); }
    assert 0 <= pa <= m && now[pa] == slots[a] by { SlotAfterRotations(slots, r, a); }
    assert 0 <= pb <= m && now[pb] == slots[b] by { SlotAfterRotations(slots, r, b); }
    OppositesMeetOnce(now, RoundOf(slots, matchdays, r), r + 1, matchdays[r], pa, pb);
  }

  lemma {:induction false} RoundIsPerfectMatching(slots: seq<Participant>, matchdays: seq<int>, r: nat, a: nat)
    requires Proper(slots) && r < |slots| - 1 <= |matchdays|
    requires a < |slots|
    ensures Count(RoundOf(slots, matchdays, r), Playing(slots[a])) == 1
    ensures Count(RoundOf(slots, matchdays, r), PlayingIn(r + 1, slots[a])) == 1
    ensures forall other :: other != r + 1 ==> Count(RoundOf(slots, matchdays, r), PlayingIn(other, slots[a])) == 0
  {
    var m := |slots| - 1;
    var now := SlotsAfter(slots, r);
    var fs := RoundOf(slots, matchdays, r);
    RotationsKeepDistinct(slots, r);
    RoundFixtureAt(now, r + 1, matchdays[r], |slots| / 2);
    SlotAfterRotations(slots, r, a);
    var pa := PositionOf(a, r, m);
    var at := if pa < |slots| / 2 then pa else m - pa;
    forall k | 0 <= k < |fs|
      ensures Matches(fs[k], Playing(now[pa])) <==> k == at
      ensures Matches(fs[k], PlayingIn(r + 1, now[pa])) <==> k == at
    {
      PairingMeets(now, r + 1, matchdays[r], k, pa, pa);
    }
    CountOne(fs, Playing(slots[a]), at);
    CountOne(fs, PlayingIn(r + 1, slots[a]), at);
    OtherRounds(slots, matchdays, r, slots[a]);
  }

  lemma {:induction false} OtherRounds(slots: seq<Participant>, matchdays: seq<int>, r: nat, p: Participant)
    requires Proper(slots) && r < |slots| - 1 <= |matchdays|
    ensures forall other :: other != r + 1 ==> Count(RoundOf(slots, matchdays, r), PlayingIn(other, p)) == 0
  {
    var fs := RoundOf(slots, matchdays, r);
    RoundIsSound(slots, matchdays, r);
    assert forall k :: 0 <= k < |fs| ==> fs[k] in fs && fs[k].roundNumber == r + 1;
    forall other: nat | other != r + 1
      ensures Count(fs, PlayingIn(other, p)) == 0
    {
      CountZero(fs, PlayingIn(other, p));
    }
  }

  // ----- The whole schedule ----------------------------------------------------

  lemma {:induction false} PairAnsweredOnce(slots: seq<Participant>, matchdays: seq<int>, a: nat, b: nat)
    returns (at: nat)
    requires Proper(slots) && |slots| - 1 <= |matchdays|
    requires a < b < |slots|
    ensures at < |slots| - 1
    ensures forall r: nat :: 0 <= r < |slots| - 1 ==>
      Count(RoundOf(slots, matchdays, r), Meeting(slots[a], slots[b])) == if r == at then 1 else 0
  {
    at := MeetingRound(a, b, |slots| - 1);
    forall r: nat | 0 <= r < |slots| - 1
      ensures Count(RoundOf(slots, matchdays, r), Meeting(slots[a], slots[b])) == if r == at then 1 else 0
    {
      RoundPairsOpposites(slots, matchdays, r, a, b);
      assert MeetIn(a, b, r, |slots| - 1) == (r == at);
    }
  }

  // A query answered once in one round and never in another is answered once in all.
  lemma {:induction false} FlattenCount(rounds: seq<seq<Fixture>>, query: Query, at: nat)
    requires forall r :: 0 <= r < |rounds| ==> Count(rounds[r], query) == if r == at then 1 else 0
    ensures Count(Flatten(rounds), query) == if at < |rounds| then 1 else 0
  {
    if rounds != [] {
      FlattenCount(rounds[..|rounds| - 1], query, at);
      CountAppend(Flatten(rounds[..|rounds| - 1]), rounds[|rounds| - 1], query);
    }
  }

  lemma {:induction false} FlattenCountEach(rounds: seq<seq<Fixture>>, query: Query)
    requires forall r :: 0 <= r < |rounds| ==> Count(rounds[r], query) == 1
    ensures Count(Flatten(rounds), query) == |rounds|
  {
    if rounds != [] {
      FlattenCountEach(rounds[..|rounds| - 1], query);
      CountAppend(Flatten(rounds[..|rounds| - 1]), rounds[|rounds| - 1], query);
    }
  }

  lemma {:induction false} FlattenMember(rounds: seq<seq<Fixture>>, f: Fixture) returns (r: nat)
    requires f in Flatten(rounds)
    ensures r < |rounds| && f in rounds[r]
  {
    if f in rounds[|rounds| - 1] {
      r := |rounds| - 1;
    } else {
      r := FlattenMember(rounds[..|rounds| - 1], f);
    }
  }

  // Nobody outside the league is ever paired, and nobody is paired with itself.
  ghost predicate Sound(f: Fixture, slots: seq<Participant>, matchdays: seq<int>, round: nat) {
    && f.home in slots && f.away in slots && f.home != f.away
    && f.isAverage == (f.home.Average? || f.away.Average?) && f.outcome == Upcoming
    && f.roundNumber == round
    && 1 <= round < |slots| && round <= |matchdays| && f.matchdayNumber == matchdays[round - 1]
  }

  lemma {:induction false} RoundIsSound(slots: seq<Participant>, matchdays: seq<int>, r: nat)
    requires Proper(slots) && r < |slots| - 1 <= |matchdays|
    ensures |RoundOf(slots, matchdays, r)| == |slots| / 2
    ensures forall f :: f in RoundOf(slots, matchdays, r) ==> Sound(f, slots, matchdays, r + 1)
  {
    var now, fs := SlotsAfter(slots, r), RoundOf(slots, matchdays, r);
    RotationsKeepDistinct(slots, r);
    RoundFixtureAt(now, r + 1, matchdays[r], |slots| / 2);
    SlotsStayInLeague(slots, r);
    forall k | 0 <= k < |fs|
      ensures Sound(fs[k], slots, matchdays, r + 1)
    {
      assert now[k] in now && now[|slots| - 1 - k] in now;
    }
  }

  // The slots: the teams in the given order, and the Average last when their number is odd.
  lemma {:induction false} SlotsAre(teams: seq<Id>)
    ensures |Slots(teams)| == |teams| + |teams| % 2
    ensures forall i :: 0 <= i < |teams| ==> Slots(teams)[i] == Member(teams[i])
    ensures |teams| % 2 == 1 ==> Slots(teams)[|teams|] == Average
  {
  }

  // Who holds slot k in round r + 1: the first slot stays, the others move one on each round.
  function HolderOf(k: nat, r: nat, m: nat): int {
    if k == 0 then 0 else if k - 1 - r >= 0 then k - r else k - r + m
  }

  lemma {:induction false} HolderHolds(slots: seq<Participant>, r: nat, k: nat)
    requires |slots| >= 2 && r < |slots| - 1 && k < |slots|
    ensures 0 <= HolderOf(k, r, |slots| - 1) < |slots|
    ensures SlotsAfter(slots, r)[k] == slots[HolderOf(k, r, |slots| - 1)]
  {
    SlotAfterRotations(slots, r, HolderOf(k, r, |slots| - 1));
  }

  // The k-th fixture of a round, whole: the holder of slot k at home to that of the slot opposite.
  lemma {:induction false} FixtureAt(slots: seq<Participant>, matchdays: seq<int>, r: nat, k: nat)
    requires Proper(slots) && r < |slots| - 1 <= |matchdays| && k < |slots| / 2
    ensures |RoundOf(slots, matchdays, r)| == |slots| / 2
    ensures 0 <= HolderOf(k, r, |slots| - 1) < |slots| && 0 <= HolderOf(|slots| - 1 - k, r, |slots| - 1) < |slots|
    ensures var home, away := slots[HolderOf(k, r, |slots| - 1)], slots[HolderOf(|slots| - 1 - k, r, |slots| - 1)];
            RoundOf(slots, matchdays, r)[k]
            == Fixture(r + 1, matchdays[r], home, away, home == Average || away == Average, Upcoming)
  {
    RotationsKeepDistinct(slots, r);
    RoundFixtureAt(SlotsAfter(slots, r), r + 1, matchdays[r], |slots| / 2);
    HolderHolds(slots, r, k);
    HolderHolds(slots, r, |slots| - 1 - k);
  }

  lemma {:induction false} ScheduleIsSound(slots: seq<Participant>, matchdays: seq<int>, f: Fixture)
    requires Proper(slots) && |slots| - 1 <= |matchdays|
    requires f in Schedule(slots, matchdays, |slots| - 1)
    ensures Sound(f, slots, matchdays, f.roundNumber)
  {
    var r := FlattenMember(Rounds(slots, matchdays, |slots| - 1), f);
    RoundIsSound(slots, matchdays, r);
  }

  lemma {:induction false} SlotsStayInLeague(slots: seq<Participant>, r: nat)
    requires |slots| >= 2
    ensures forall p :: p in SlotsAfter(slots, r) ==> p in slots
  {
    if r > 0 {
      SlotsStayInLeague(slots, r - 1);
    }
  }

  lemma {:induction false} SlotsAreProper(teams: seq<Id>)
    requires |teams| > 0 && Distinct(teams)
    ensures Proper(Slots(teams))
    ensures forall t :: t in teams ==> Member(t) in Slots(teams)
    ensures forall p :: p in Slots(teams) ==> p.Average? || p.id in teams
    ensures Average in Slots(teams) <==> |teams| % 2 == 1
  {
    forall t | t in teams
      ensures Member(t) in Slots(teams)
    {
      var i :| 0 <= i < |teams| && teams[i] == t;
      assert Slots(teams)[i] == Member(t);
    }
    if |teams| % 2 == 1 {
      assert Slots(teams)[|teams|] == Average;
    }
  }

  // A complete single round robin among the participants in `slots`.
  ghost predicate IsRoundRobin(fixtures: seq<Fixture>, slots: seq<Participant>) {
    && (forall p, q :: p in slots && q in slots && p != q ==> Count(fixtures, Meeting(p, q)) == 1)
    && (forall p, round :: p in slots && 1 <= round < |slots| ==> Count(fixtures, PlayingIn(round, p)) == 1)
    && (forall p :: p in slots ==> Count(fixtures, Playing(p)) == |slots| - 1)
    && (forall f :: f in fixtures ==> f.home in slots && f.away in slots && f.home != f.away)
  }

  // The round-robin theorem for any number of distinct teams: with n participants (Average included when the
  // team count is odd) the n - 1 generated rounds hold every unordered pair exactly once, every participant
  // plays exactly once in each round and n - 1 times in all, and nobody meets itself.
  lemma {:induction false} RoundRobinTheorem(teams: seq<Id>, matchdays: seq<int>)
    requires |teams| > 0 && Distinct(teams)
    requires |Slots(teams)| - 1 <= |matchdays|
    ensures |Slots(teams)| == |teams| + |teams| % 2
    ensures IsRoundRobin(Schedule(Slots(teams), matchdays, RoundCount(|Slots(teams)|)), Slots(teams))
  {
    SlotsAreProper(teams);
    CompleteRoundRobin(Slots(teams), matchdays, Schedule(Slots(teams), matchdays, |Slots(teams)| - 1));
  }

  lemma {:induction false} CompleteRoundRobin(slots: seq<Participant>, matchdays: seq<int>, fixtures: seq<Fixture>)
    requires Proper(slots) && |slots| - 1 <= |matchdays|
    requires fixtures == Schedule(slots, matchdays, |slots| - 1)
    ensures IsRoundRobin(fixtures, slots)
  {
    forall p, q | p in slots && q in slots && p != q
      ensures Count(fixtures, Meeting(p, q)) == 1
    {
      var a :| 0 <= a < |slots| && slots[a] == p;
      var b :| 0 <= b < |slots| && slots[b] == q;
      DistinctParticipantsMeetOnce(slots, matchdays, fixtures, a, b);
    }
    EveryoneAlwaysPlays(slots, matchdays, fixtures);
    forall f | f in fixtures
      ensures f.home in slots && f.away in slots && f.home != f.away
    {
      ScheduleIsSound(slots, matchdays, f);
    }
  }

  lemma {:induction false} EveryoneAlwaysPlays(slots: seq<Participant>, matchdays: seq<int>, fixtures: seq<Fixture>)
    requires Proper(slots) && |slots| - 1 <= |matchdays|
    requires fixtures == Schedule(slots, matchdays, |slots| - 1)
    ensures forall p, round :: p in slots && 1 <= round < |slots| ==> Count(fixtures, PlayingIn(round, p)) == 1
    ensures forall p :: p in slots ==> Count(fixtures, Playing(p)) == |slots| - 1
  {
    var rounds := Rounds(slots, matchdays, |slots| - 1);
    forall p, round | p in slots && 1 <= round < |slots|
      ensures Count(fixtures, PlayingIn(round, p)) == 1
    {
      var a :| 0 <= a < |slots| && slots[a] == p;
      forall r | 0 <= r < |rounds| {
        RoundIsPerfectMatching(slots, matchdays, r, a);
      }
      FlattenCount(rounds, PlayingIn(round, p), round - 1);
    }
    forall p | p in slots
      ensures Count(fixtures, Playing(p)) == |slots| - 1
    {
      var a :| 0 <= a < |slots| && slots[a] == p;
      forall r | 0 <= r < |rounds| {
        RoundIsPerfectMatching(slots, matchdays, r, a);
      }
      FlattenCountEach(rounds, Playing(p));
    }
  }

  lemma {:induction false} DistinctParticipantsMeetOnce(slots: seq<Participant>, matchdays: seq<int>,
                                                        fixtures: seq<Fixture>, a: nat, b: nat)
    requires Proper(slots) && |slots| - 1 <= |matchdays|
    requires fixtures == Schedule(slots, matchdays, |slots| - 1)
    requires a < |slots| && b < |slots| && a != b
    ensures Count(fixtures, Meeting(slots[a], slots[b])) == 1
  {
    var rounds := Rounds(slots, matchdays, |slots| - 1);
    var at := PairAnsweredOnce(slots, matchdays, if a < b then a else b, if a < b then b else a);
    if a < b {
      FlattenCount(rounds, Meeting(slots[a], slots[b]), at);
    } else {
      FlattenCount(rounds, Meeting(slots[b], slots[a]), at);
      MeetingIsSymmetric(fixtures, slots[a], slots[b]);
    }
  }

  lemma {:induction false} MeetingIsSymmetric(fs: seq<Fixture>, p: Participant, q: Participant)
    ensures Count(fs, Meeting(p, q)) == Count(fs, Meeting(q, p))
  {
    if fs != [] {
      MeetingIsSymmetric(fs[..|fs| - 1], p, q);
    }
  }
}
