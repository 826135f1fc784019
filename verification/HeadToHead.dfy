/** The head-to-head ledger: standing rows updated in place while matchdays are resolved.

    Every row is proved to be the sum of what its finalised fixtures contribute, whatever the order in which
    matchdays are resolved and however often one is resolved again. */
module HeadToHead {
  import opened Wrappers
  import opened RoundRobin

  datatype Stored = Stored(league: Id, fixture: Fixture)

  // A standing row is keyed by league and membership; the Average row has the membership null.
  datatype Key = Key(league: Id, who: Participant)

  datatype Record = Record(
    played: int, wins: int, draws: int, losses: int, pointsFor: int, pointsAgainst: int, leaguePoints: int)

  const ZERO := Record(0, 0, 0, 0, 0, 0, 0)

  // The columns of a row.
  datatype Column = MatchesPlayed | Wins | Draws | Losses | For | Against | Points

  function Cell(r: Record, c: Column): int {
    match c
    case MatchesPlayed => r.played
    case Wins => r.wins
    case Draws => r.draws
    case Losses => r.losses
    case For => r.pointsFor
    case Against => r.pointsAgainst
    case Points => r.leaguePoints
  }

  // The two scores of a fixture as seen from one side.
  function Played(mine: int, theirs: int): Record {
    if mine > theirs then Record(1, 1, 0, 0, mine, theirs, 3)
    else if mine == theirs then Record(1, 0, 1, 0, mine, theirs, 1)
    else Record(1, 0, 0, 1, mine, theirs, 0)
  }

  // ----- The reference: what a row should hold --------------------------------

  function Contribution(s: Stored, key: Key): Record {
    if s.league != key.league || s.fixture.outcome.Upcoming? then ZERO
    else
      var home, away := s.fixture.outcome.homePoints, s.fixture.outcome.awayPoints;
      if s.fixture.home == key.who then Played(home, away)
      else if s.fixture.away == key.who then Played(away, home)
      else ZERO
  }

  function Share(s: Stored, key: Key, c: Column): int {
    Cell(Contribution(s, key), c)
  }

  // One cell of the row `key`: the sum of what its finalised fixtures contribute.
  function Sum(fs: seq<Stored>, key: Key, c: Column): int {
    if fs == [] then 0 else Sum(fs[..|fs| - 1], key, c) + Share(fs[|fs| - 1], key, c)
  }

  // ----- Resolving fixtures -----------------------------------------------------

  // Scores of one matchday: points by fantasy team, the fantasy team of a membership, the rounded average.
  datatype Scores = Scores(points: map<Id, int>, teamOf: map<Id, Id>, average: int) {
    function Of(p: Participant): int {
      match p
      case Average => average
      case Member(id) =>
        if id in teamOf && teamOf[id] in points then points[teamOf[id]] else 0
    }
  }

  function Resolve(f: Fixture, matchday: int, scores: Scores): Fixture {
    if f.matchdayNumber != matchday || f.outcome.Finalized? then f
    else
      var home, away := scores.Of(f.home), scores.Of(f.away);
      var winner := if home > away then f.home else if away > home then f.away else Average;
      f.(outcome := Finalized(home, away, if winner.Member? then Some(winner.id) else None))
  }

  function ResolveAll(fs: seq<Stored>, matchday: int, scores: Scores): (r: seq<Stored>)
  {
    seq(|fs|, i requires 0 <= i < |fs| => fs[i].(fixture := Resolve(fs[i].fixture, matchday, scores)))
  }

  ghost predicate WellFormed(f: Fixture) {
    && f.home != f.away
    && f.isAverage == (f.home.Average? || f.away.Average?)
  }

  // ----- Rows are sums ----------------------------------------------------------

  lemma {:induction false} SumAfterUpdate(fs: seq<Stored>, i: nat, g: Stored, key: Key, c: Column)
    requires i < |fs|
    ensures Sum(fs[i := g], key, c) == Sum(fs, key, c) - Share(fs[i], key, c) + Share(g, key, c)
  {
    var last := |fs| - 1;
    if i == last {
      assert fs[i := g][..last] == fs[..last];
    } else {
      SumAfterUpdate(fs[..last], i, g, key, c);
      assert fs[i := g][..last] == fs[..last][i := g];
    }
  }

  lemma {:induction false} SumOfNothing(fs: seq<Stored>, key: Key, c: Column)
    requires forall s :: s in fs ==> s.league != key.league || s.fixture.outcome.Upcoming?
    ensures Sum(fs, key, c) == 0
  {
    if fs != [] {
      SumOfNothing(fs[..|fs| - 1], key, c);
      assert fs[|fs| - 1] in fs;
    }
  }

  lemma {:induction false} SumAppend(fs: seq<Stored>, gs: seq<Stored>, key: Key, c: Column)
    ensures Sum(fs + gs, key, c) == Sum(fs, key, c) + Sum(gs, key, c)
  {
    if gs == [] {
      assert fs + gs == fs;
    } else {
      SumAppend(fs, gs[..|gs| - 1], key, c);
      assert (fs + gs)[..|fs + gs| - 1] == fs + gs[..|gs| - 1];
    }
  }

  // played = W + D + L and league points = 3W + D, in every row.
  lemma {:induction false} RowArithmetic(fs: seq<Stored>, key: Key)
    ensures Sum(fs, key, MatchesPlayed) == Sum(fs, key, Wins) + Sum(fs, key, Draws) + Sum(fs, key, Losses)
    ensures Sum(fs, key, Points) == 3 * Sum(fs, key, Wins) + Sum(fs, key, Draws)
  {
    if fs != [] {
      RowArithmetic(fs[..|fs| - 1], key);
    }
  }

  // ----- League-wide conservation -------------------------------------------------

  function Total(fs: seq<Stored>, league: Id, parts: seq<Participant>, c: Column): int {
    if parts == [] then 0
    else Total(fs, league, parts[..|parts| - 1], c) + Sum(fs, Key(league, parts[|parts| - 1]), c)
  }

  function TotalShare(s: Stored, league: Id, parts: seq<Participant>, c: Column): int {
    if parts == [] then 0
    else TotalShare(s, league, parts[..|parts| - 1], c) + Share(s, Key(league, parts[|parts| - 1]), c)
  }

  lemma {:induction false} TotalStep(fs: seq<Stored>, league: Id, parts: seq<Participant>, c: Column)
    ensures fs == [] ==> Total(fs, league, parts, c) == 0
    ensures fs != [] ==>
      Total(fs, league, parts, c)
      == Total(fs[..|fs| - 1], league, parts, c) + TotalShare(fs[|fs| - 1], league, parts, c)
  {
    if parts != [] {
      TotalStep(fs, league, parts[..|parts| - 1], c);
    }
  }

  // One finalised fixture is shared by its two sides and nobody else.
  lemma {:induction false} FixtureIsShared(s: Stored, league: Id, parts: seq<Participant>, c: Column)
    requires Distinct(parts) && s.fixture.home != s.fixture.away
    ensures TotalShare(s, league, parts, c)
         == (if s.fixture.home in parts then Share(s, Key(league, s.fixture.home), c) else 0)
          + (if s.fixture.away in parts then Share(s, Key(league, s.fixture.away), c) else 0)
  {
    if parts != [] {
      var front, last := parts[..|parts| - 1], parts[|parts| - 1];
      FixtureIsShared(s, league, front, c);
      assert parts == front + [last];
      assert last !in front;
      NoShareForOthers(s, Key(league, last), c);
    }
  }

  lemma {:induction false} NoShareForOthers(s: Stored, key: Key, c: Column)
    ensures key.who != s.fixture.home && key.who != s.fixture.away ==> Share(s, key, c) == 0
    ensures s.league != key.league ==> Share(s, key, c) == 0
  {
  }

  // What one side of a fixture scores, wins or draws, the other concedes, loses or draws.
  lemma {:induction false} SidesMirror(s: Stored)
    requires s.fixture.home != s.fixture.away
    ensures var home, away := Key(s.league, s.fixture.home), Key(s.league, s.fixture.away);
            && Share(s, home, For) == Share(s, away, Against) && Share(s, away, For) == Share(s, home, Against)
            && Share(s, home, Wins) == Share(s, away, Losses) && Share(s, away, Wins) == Share(s, home, Losses)
            && Share(s, home, Draws) == Share(s, away, Draws)
  {
  }

  // Whatever the participants of a league score, win or draw, they concede, lose or draw among themselves.
  lemma {:induction false} LeagueConservation(fs: seq<Stored>, league: Id, parts: seq<Participant>)
    requires Distinct(parts)
    requires forall s :: s in fs && s.league == league ==>
      s.fixture.home in parts && s.fixture.away in parts && s.fixture.home != s.fixture.away
    ensures Total(fs, league, parts, For) == Total(fs, league, parts, Against)
    ensures Total(fs, league, parts, Wins) == Total(fs, league, parts, Losses)
    ensures Total(fs, league, parts, Draws) % 2 == 0
  {
    forall c { TotalStep(fs, league, parts, c); }
    if fs != [] {
      var front, s := fs[..|fs| - 1], fs[|fs| - 1];
      assert fs == front + [s];
      LeagueConservation(front, league, parts);
      if s.league == league {
        forall c { FixtureIsShared(s, league, parts, c); }
        SidesMirror(s);
      } else {
        forall c { NoShareInOtherLeague(s, league, parts, c); }
      }
    }
  }

  lemma {:induction false} NoShareInOtherLeague(s: Stored, league: Id, parts: seq<Participant>, c: Column)
    requires s.league != league
    ensures TotalShare(s, league, parts, c) == 0
  {
    if parts != [] {
      NoShareInOtherLeague(s, league, parts[..|parts| - 1], c);
    }
  }

  // ----- Resolving again, and resolving everything ---------------------------------

  // A finalised fixture never changes: resolving a matchday a second time, with any scores, does nothing.
  lemma {:induction false} ResolvingAgainDoesNothing(fs: seq<Stored>, matchday: int, scores: Scores, later: Scores)
    ensures ResolveAll(ResolveAll(fs, matchday, scores), matchday, later) == ResolveAll(fs, matchday, scores)
  {
  }

  // Different matchdays resolve independently of their order.
  lemma {:induction false} ResolvingCommutes(fs: seq<Stored>, m1: int, s1: Scores, m2: int, s2: Scores)
    requires m1 != m2
    ensures ResolveAll(ResolveAll(fs, m1, s1), m2, s2) == ResolveAll(ResolveAll(fs, m2, s2), m1, s1)
  {
    assert ResolveAll(ResolveAll(fs, m1, s1), m2, s2) == ResolveAll(ResolveAll(fs, m2, s2), m1, s1);
  }

  function Run(fs: seq<Stored>, steps: seq<(int, Scores)>): (r: seq<Stored>)
    ensures |r| == |fs|
  {
    if steps == [] then fs
    else
      var last := steps[|steps| - 1];
      ResolveAll(Run(fs, steps[..|steps| - 1]), last.0, last.1)
  }

  // Some step resolves this matchday.
  ghost predicate Reaches(steps: seq<(int, Scores)>, matchday: int) {
    exists j :: 0 <= j < |steps| && steps[j].0 == matchday
  }

  ghost predicate SamePairing(f: Fixture, g: Fixture) {
    f.(outcome := Upcoming) == g.(outcome := Upcoming)
  }

  lemma {:induction false} RunKeepsPairings(fs: seq<Stored>, steps: seq<(int, Scores)>)
    ensures forall i :: 0 <= i < |fs| ==>
      && Run(fs, steps)[i].league == fs[i].league
      && SamePairing(Run(fs, steps)[i].fixture, fs[i].fixture)
      && (Run(fs, steps)[i].fixture.outcome.Finalized? <==>
          fs[i].fixture.outcome.Finalized? || Reaches(steps, fs[i].fixture.matchdayNumber))
  {
    if steps != [] {
      var front := steps[..|steps| - 1];
      RunKeepsPairings(fs, front);
      forall i | 0 <= i < |fs|
        ensures Reaches(steps, fs[i].fixture.matchdayNumber)
            <==> steps[|steps| - 1].0 == fs[i].fixture.matchdayNumber
                 || Reaches(front, fs[i].fixture.matchdayNumber)
      {
        assert forall j :: 0 <= j < |front| ==> front[j] == steps[j];
      }
    }
  }

  // The fixtures of one league, in stored order.
  function LeagueFixtures(fs: seq<Stored>, league: Id): seq<Fixture> {
    if fs == [] then []
    else if fs[|fs| - 1].league == league then LeagueFixtures(fs[..|fs| - 1], league) + [fs[|fs| - 1].fixture]
    else LeagueFixtures(fs[..|fs| - 1], league)
  }

  lemma {:induction false} PlayedCounts(fs: seq<Stored>, key: Key)
    requires forall s :: s in fs && s.league == key.league ==>
      s.fixture.outcome.Finalized? && s.fixture.home != s.fixture.away
    ensures Sum(fs, key, MatchesPlayed) == Count(LeagueFixtures(fs, key.league), Playing(key.who))
  {
    if fs != [] {
      var front, s := fs[..|fs| - 1], fs[|fs| - 1];
      assert fs == front + [s];
      PlayedCounts(front, key);
      if s.league == key.league {
        CountSnoc(LeagueFixtures(front, key.league), s.fixture, Playing(key.who));
      }
    }
  }

  lemma {:induction false} PairingsDecideCounts(fs: seq<Stored>, gs: seq<Stored>, league: Id, p: Participant)
    requires |fs| == |gs|
    requires forall i :: 0 <= i < |fs| ==> fs[i].league == gs[i].league && SamePairing(fs[i].fixture, gs[i].fixture)
    ensures Count(LeagueFixtures(fs, league), Playing(p)) == Count(LeagueFixtures(gs, league), Playing(p))
  {
    if fs != [] {
      PairingsDecideCounts(fs[..|fs| - 1], gs[..|gs| - 1], league, p);
      var f, g := fs[|fs| - 1], gs[|gs| - 1];
      assert SamePairing(f.fixture, g.fixture);
      if f.league == league {
        CountSnoc(LeagueFixtures(fs[..|fs| - 1], league), f.fixture, Playing(p));
        CountSnoc(LeagueFixtures(gs[..|gs| - 1], league), g.fixture, Playing(p));
      }
    }
  }

  // The season theorem: from a stored round robin, any run that resolves every matchday of the league at least
  // once - in any order, repeatedly, with any scores - leaves every participant with n - 1 played matches, and
  // the league-wide totals balance.
  lemma {:induction false} SeasonTheorem(fs: seq<Stored>, league: Id, slots: seq<Participant>,
                                         steps: seq<(int, Scores)>)
    requires Distinct(slots) && IsRoundRobin(LeagueFixtures(fs, league), slots)
    requires forall s :: s in fs && s.league == league ==> Reaches(steps, s.fixture.matchdayNumber)
    ensures forall p :: p in slots ==> Sum(Run(fs, steps), Key(league, p), MatchesPlayed) == |slots| - 1
    ensures Total(Run(fs, steps), league, slots, For) == Total(Run(fs, steps), league, slots, Against)
    ensures Total(Run(fs, steps), league, slots, Wins) == Total(Run(fs, steps), league, slots, Losses)
  {
    var end := Run(fs, steps);
    RunKeepsPairings(fs, steps);
    SidesAreSlots(fs, league, slots);
    forall i | 0 <= i < |end| && end[i].league == league
      ensures end[i].fixture.outcome.Finalized?
      ensures end[i].fixture.home in slots && end[i].fixture.away in slots && end[i].fixture.home != end[i].fixture.away
    {
      assert fs[i] in fs && SamePairing(end[i].fixture, fs[i].fixture);
    }
    forall p | p in slots
      ensures Sum(end, Key(league, p), MatchesPlayed) == |slots| - 1
    {
      PlayedCounts(end, Key(league, p));
      PairingsDecideCounts(end, fs, league, p);
    }
    LeagueConservation(end, league, slots);
  }

  lemma {:induction false} SidesAreSlots(fs: seq<Stored>, league: Id, slots: seq<Participant>)
    requires forall f :: f in LeagueFixtures(fs, league) ==> f.home in slots && f.away in slots && f.home != f.away
    ensures forall s :: s in fs && s.league == league ==>
      s.fixture.home in slots && s.fixture.away in slots && s.fixture.home != s.fixture.away
  {
    forall s | s in fs && s.league == league
      ensures s.fixture in LeagueFixtures(fs, league)
    {
      StoredIsListed(fs, league, s);
    }
  }

  lemma {:induction false} StoredIsListed(fs: seq<Stored>, league: Id, s: Stored)
    requires s in fs && s.league == league
    ensures s.fixture in LeagueFixtures(fs, league)
  {
    var front, last := fs[..|fs| - 1], fs[|fs| - 1];
    if s == last {
      assert LeagueFixtures(fs, league)[|LeagueFixtures(fs, league)| - 1] == s.fixture;
    } else {
      assert fs == front + [last];
      StoredIsListed(front, league, s);
    }
  }

  // ----- The stored ledger ---------------------------------------------------------

  // A row is updated with the league points of the side, not with the scores alone.
  function Credit(r: Record, mine: int, theirs: int, points: int): Record {
    r.(played := r.played + 1,
    pointsFor := r.pointsFor + mine,
    pointsAgainst := r.pointsAgainst + theirs,
    leaguePoints := r.leaguePoints + points,
    wins := if points == 3 then r.wins + 1 else r.wins,
    draws := if points != 3 && points == 1 then r.draws + 1 else r.draws,
    losses := if points != 3 && points != 1 then r.losses + 1 else r.losses)
  }

  function LeaguePoints(mine: int, theirs: int): int {
    if mine > theirs then 3 else if theirs > mine then 0 else 1
  }

  lemma {:induction false} CreditAddsPlayed(r: Record, mine: int, theirs: int, c: Column)
    ensures Cell(Credit(r, mine, theirs, LeaguePoints(mine, theirs)), c) == Cell(r, c) + Cell(Played(mine, theirs), c)
  {
  }

  // The effect of one result on the rows: both sides are credited once, nobody else is touched.
  function CreditBoth(rows: map<Key, Record>, home: Key, away: Key, h: int, a: int): map<Key, Record> {
    map k | k in rows ::
      if k == home then Credit(rows[k], h, a, LeaguePoints(h, a))
      else if k == away then Credit(rows[k], a, h, LeaguePoints(a, h))
      else rows[k]
  }

  ghost predicate Balanced(fs: seq<Stored>, rows: map<Key, Record>) {
    forall k, c :: k in rows ==> Cell(rows[k], c) == Sum(fs, k, c)
  }

  lemma {:induction false} CreditBothBalances(fs: seq<Stored>, rows: map<Key, Record>, i: nat, h: int, a: int,
                                              winner: Option<Id>)
    requires Balanced(fs, rows) && i < |fs|
    requires fs[i].fixture.outcome.Upcoming? && fs[i].fixture.home != fs[i].fixture.away
    ensures var s := fs[i];
            Balanced(fs[i := s.(fixture := s.fixture.(outcome := Finalized(h, a, winner)))],
                     CreditBoth(rows, Key(s.league, s.fixture.home), Key(s.league, s.fixture.away), h, a))
  {
    var s := fs[i];
    var g := s.(fixture := s.fixture.(outcome := Finalized(h, a, winner)));
    var after := CreditBoth(rows, Key(s.league, s.fixture.home), Key(s.league, s.fixture.away), h, a);
    forall k, c | k in after
      ensures Cell(after[k], c) == Sum(fs[i := g], k, c)
    {
      SumAfterUpdate(fs, i, g, k, c);
      CreditAddsPlayed(rows[k], h, a, c);
      CreditAddsPlayed(rows[k], a, h, c);
    }
  }

  // All fixtures but those of one league.
  function Without(fs: seq<Stored>, league: Id): seq<Stored> {
    if fs == [] then []
    else if fs[|fs| - 1].league == league then Without(fs[..|fs| - 1], league)
    else Without(fs[..|fs| - 1], league) + [fs[|fs| - 1]]
  }

  function Store(league: Id, fixtures: seq<Fixture>): (r: seq<Stored>)
  {
    seq(|fixtures|, i requires 0 <= i < |fixtures| => Stored(league, fixtures[i]))
  }

  lemma {:induction false} SumWithout(fs: seq<Stored>, league: Id, key: Key, c: Column)
    ensures Sum(Without(fs, league), key, c) == if key.league == league then 0 else Sum(fs, key, c)
  {
    if fs != [] {
      var front, s := fs[..|fs| - 1], fs[|fs| - 1];
      SumWithout(front, league, key, c);
      if s.league != league {
        assert (Without(front, league) + [s])[..|Without(front, league)|] == Without(front, league);
      }
    }
  }

  lemma {:induction false} WithoutMembers(fs: seq<Stored>, league: Id)
    ensures forall s :: s in Without(fs, league) ==> s in fs
    ensures Without(Without(fs, league), league) == Without(fs, league)
  {
    if fs != [] {
      var front, s := fs[..|fs| - 1], fs[|fs| - 1];
      WithoutMembers(front, league);
      if s.league != league {
        assert (Without(front, league) + [s])[..|Without(front, league)|] == Without(front, league);
      }
    }
  }

  lemma {:induction false} LeagueFixturesAppend(fs: seq<Stored>, gs: seq<Stored>, league: Id)
    ensures LeagueFixtures(fs + gs, league) == LeagueFixtures(fs, league) + LeagueFixtures(gs, league)
  {
    if gs == [] {
      assert fs + gs == fs;
    } else {
      LeagueFixturesAppend(fs, gs[..|gs| - 1], league);
      assert (fs + gs)[..|fs + gs| - 1] == fs + gs[..|gs| - 1];
    }
  }

  lemma {:induction false} NoFixturesLeft(fs: seq<Stored>, league: Id)
    ensures LeagueFixtures(Without(fs, league), league) == []
  {
    if fs != [] {
      NoFixturesLeft(fs[..|fs| - 1], league);
      if fs[|fs| - 1].league != league {
        LeagueFixturesAppend(Without(fs[..|fs| - 1], league), [fs[|fs| - 1]], league);
      }
    }
  }

  lemma {:induction false} StoredSchedule(league: Id, schedule: seq<Fixture>)
    ensures LeagueFixtures(Store(league, schedule), league) == schedule
  {
    if schedule != [] {
      StoredSchedule(league, schedule[..|schedule| - 1]);
      assert Store(league, schedule)[..|schedule| - 1] == Store(league, schedule[..|schedule| - 1]);
    }
  }

  // What the generator leaves in the fixture table for a league: its schedule and nothing else.
  function Installed(fs: seq<Stored>, league: Id, schedule: seq<Fixture>): seq<Stored> {
    Without(fs, league) + Store(league, schedule)
  }

  lemma {:induction false} OthersStay(fs: seq<Stored>, league: Id, other: Id)
    requires other != league
    ensures LeagueFixtures(Without(fs, league), other) == LeagueFixtures(fs, other)
  {
    if fs != [] {
      var front, s := fs[..|fs| - 1], fs[|fs| - 1];
      OthersStay(front, league, other);
      if s.league != league {
        LeagueFixturesAppend(Without(front, league), [s], other);
        assert LeagueFixtures([s], other) == if s.league == other then [s.fixture] else [] by {
          assert [s][..0] == [];
        }
      }
    }
  }

  lemma {:induction false} StoredElsewhere(league: Id, schedule: seq<Fixture>, other: Id)
    requires other != league
    ensures LeagueFixtures(Store(league, schedule), other) == []
  {
    if schedule != [] {
      StoredElsewhere(league, schedule[..|schedule| - 1], other);
      assert Store(league, schedule)[..|schedule| - 1] == Store(league, schedule[..|schedule| - 1]);
    }
  }

  // A generation leaves its schedule as the fixtures of the league, and every other league with the fixtures it had.
  lemma {:induction false} InstalledFixtures(fs: seq<Stored>, league: Id, schedule: seq<Fixture>, other: Id)
    ensures LeagueFixtures(Installed(fs, league, schedule), other)
         == if other == league then schedule else LeagueFixtures(fs, other)
  {
    LeagueFixturesAppend(Without(fs, league), Store(league, schedule), other);
    if other == league {
      NoFixturesLeft(fs, league);
      StoredSchedule(league, schedule);
    } else {
      OthersStay(fs, league, other);
      StoredElsewhere(league, schedule, other);
    }
  }

  ghost predicate SeasonPlayed(end: seq<Stored>, league: Id, slots: seq<Participant>) {
    && (forall p :: p in slots ==> Sum(end, Key(league, p), MatchesPlayed) == |slots| - 1)
    && Total(end, league, slots, For) == Total(end, league, slots, Against)
    && Total(end, league, slots, Wins) == Total(end, league, slots, Losses)
  }

  lemma {:induction false} InstalledSeason(fs: seq<Stored>, league: Id, slots: seq<Participant>, schedule: seq<Fixture>,
                                           steps: seq<(int, Scores)>)
    requires Distinct(slots) && IsRoundRobin(schedule, slots)
    requires forall f :: f in schedule ==> Reaches(steps, f.matchdayNumber)
    ensures SeasonPlayed(Run(Installed(fs, league, schedule), steps), league, slots)
  {
    var start := Installed(fs, league, schedule);
    InstalledFixtures(fs, league, schedule, league);
    forall s | s in start && s.league == league
      ensures Reaches(steps, s.fixture.matchdayNumber)
    {
      StoredIsListed(start, league, s);
    }
    SeasonTheorem(start, league, slots, steps);
  }

  lemma {:induction false} ScheduledSeason(fs: seq<Stored>, league: Id, slots: seq<Participant>, matchdays: seq<int>,
                                           steps: seq<(int, Scores)>)
    requires Proper(slots) && |slots| - 1 <= |matchdays|
    requires forall m :: m in matchdays[..|slots| - 1] ==> Reaches(steps, m)
    ensures SeasonPlayed(Run(Installed(fs, league, Schedule(slots, matchdays, |slots| - 1)), steps), league, slots)
  {
    var schedule := Schedule(slots, matchdays, |slots| - 1);
    CompleteRoundRobin(slots, matchdays, schedule);
    forall f | f in schedule
      ensures Reaches(steps, f.matchdayNumber)
    {
      ScheduleIsSound(slots, matchdays, f);
      assert f.matchdayNumber == matchdays[..|slots| - 1][f.roundNumber - 1];
    }
    InstalledSeason(fs, league, slots, schedule, steps);
  }

  // A generated league, end to end: whatever was stored before, after generating the fixtures of distinct teams
  // and running any resolutions that reach the first n - 1 listed matchdays, every participant has played n - 1 matches
  // and the league-wide totals balance.
  lemma {:induction false} GeneratedSeason(fs: seq<Stored>, league: Id, teams: seq<Id>, matchdays: seq<int>,
                                           steps: seq<(int, Scores)>)
    requires |teams| > 0 && Distinct(teams) && |Slots(teams)| - 1 <= |matchdays|
    requires forall m :: m in matchdays[..|Slots(teams)| - 1] ==> Reaches(steps, m)
    ensures SeasonPlayed(
              Run(Installed(fs, league, Schedule(Slots(teams), matchdays, RoundCount(|Slots(teams)|))), steps),
              league, Slots(teams))
  {
    SlotsAreProper(teams);
    ScheduledSeason(fs, league, Slots(teams), matchdays, steps);
  }

  // One column of the stored rows of a league, added up; a missing row counts nothing.
  function RowTotal(rows: map<Key, Record>, league: Id, parts: seq<Participant>, c: Column): int {
    if parts == [] then 0
    else
      var key := Key(league, parts[|parts| - 1]);
      RowTotal(rows, league, parts[..|parts| - 1], c) + if key in rows then Cell(rows[key], c) else 0
  }

  lemma {:induction false} RowTotalIsTotal(fs: seq<Stored>, rows: map<Key, Record>, league: Id, parts: seq<Participant>,
                                           c: Column)
    requires Balanced(fs, rows) && forall p :: p in parts ==> Key(league, p) in rows
    ensures RowTotal(rows, league, parts, c) == Total(fs, league, parts, c)
  {
    if parts != [] {
      var front, last := parts[..|parts| - 1], parts[|parts| - 1];
      assert parts == front + [last];
      RowTotalIsTotal(fs, rows, league, front, c);
    }
  }

  // The stored table at the end of a season. A ledger keeps its rows the sums of its fixtures; so once the calls of the
  // season left the fixtures resolved, every stored row has n - 1 matches that add up, and the columns balance.
  lemma {:induction false} StoredSeason(fs: seq<Stored>, rows: map<Key, Record>, league: Id, teams: seq<Id>,
                                        matchdays: seq<int>, steps: seq<(int, Scores)>)
    requires |teams| > 0 && Distinct(teams) && |Slots(teams)| - 1 <= |matchdays|
    requires forall m :: m in matchdays[..|Slots(teams)| - 1] ==> Reaches(steps, m)
    requires var schedule := Schedule(Slots(teams), matchdays, RoundCount(|Slots(teams)|));
             Balanced(Run(Installed(fs, league, schedule), steps), rows)
    requires forall k :: k in KeysOf(league, Slots(teams)) ==> k in rows
    ensures forall k :: k in KeysOf(league, Slots(teams)) ==>
      && rows[k].played == |Slots(teams)| - 1 == rows[k].wins + rows[k].draws + rows[k].losses
      && rows[k].leaguePoints == 3 * rows[k].wins + rows[k].draws
    ensures RowTotal(rows, league, Slots(teams), For) == RowTotal(rows, league, Slots(teams), Against)
    ensures RowTotal(rows, league, Slots(teams), Wins) == RowTotal(rows, league, Slots(teams), Losses)
  {
    var slots := Slots(teams);
    var end := Run(Installed(fs, league, Schedule(slots, matchdays, RoundCount(|slots|))), steps);
    GeneratedSeason(fs, league, teams, matchdays, steps);
    forall k | k in KeysOf(league, slots)
      ensures rows[k].played == |slots| - 1 == rows[k].wins + rows[k].draws + rows[k].losses
      ensures rows[k].leaguePoints == 3 * rows[k].wins + rows[k].draws
    {
      RowFromSums(end, rows, k);
    }
    forall p | p in slots
      ensures Key(league, p) in rows
    {
      assert Key(league, p) in KeysOf(league, slots);
    }
    RowTotalIsTotal(end, rows, league, slots, For);
    RowTotalIsTotal(end, rows, league, slots, Against);
    RowTotalIsTotal(end, rows, league, slots, Wins);
    RowTotalIsTotal(end, rows, league, slots, Losses);
  }

  lemma {:induction false} RowFromSums(fs: seq<Stored>, rows: map<Key, Record>, key: Key)
    requires Balanced(fs, rows) && key in rows
    ensures rows[key].played == Sum(fs, key, MatchesPlayed) == rows[key].wins + rows[key].draws + rows[key].losses
    ensures rows[key].leaguePoints == 3 * rows[key].wins + rows[key].draws
  {
    RowArithmetic(fs, key);
    assert Cell(rows[key], MatchesPlayed) == Sum(fs, key, MatchesPlayed) && Cell(rows[key], Wins) == Sum(fs, key, Wins);
    assert Cell(rows[key], Draws) == Sum(fs, key, Draws) && Cell(rows[key], Losses) == Sum(fs, key, Losses);
    assert Cell(rows[key], Points) == Sum(fs, key, Points);
  }

  lemma {:induction false} ScheduleIsWellFormed(teams: seq<Id>, matchdays: seq<int>)
    requires Distinct(teams) && |Slots(teams)| - 1 <= |matchdays|
    ensures forall f :: f in Schedule(Slots(teams), matchdays, RoundCount(|Slots(teams)|)) ==>
      WellFormed(f) && f.outcome.Upcoming?
  {
    if |teams| > 0 {
      SlotsAreProper(teams);
      forall f | f in Schedule(Slots(teams), matchdays, RoundCount(|Slots(teams)|))
        ensures WellFormed(f) && f.outcome.Upcoming?
      {
        ScheduleIsSound(Slots(teams), matchdays, f);
      }
    }
  }

  function KeysOf(league: Id, parts: seq<Participant>): set<Key> {
    set p | p in parts :: Key(league, p)
  }

  class Ledger {
    var fixtures: seq<Stored>
    var standings: map<Key, Record>
    var locked: set<Id>

    // Every stored row is the sum of its finalised fixtures.
    ghost predicate Valid()
      reads this
    {
      && (forall s :: s in fixtures ==> WellFormed(s.fixture))
      && Balanced(fixtures, standings)
    }

    constructor ()
      ensures Valid() && fixtures == [] && standings == map[] && locked == {}
    {
      fixtures, standings, locked := [], map[], {};
    }

    // The old fixtures and rows of the league are deleted first, even when the generation then fails.
    method Generate(league: Id, teams: seq<Id>, futureMatchdays: seq<int>) returns (r: Result<nat, string>)
      requires Valid() && Distinct(teams)
      modifies this
      ensures Valid()
      ensures forall k :: k in old(standings) && k.league != league ==>
        k in standings && standings[k] == old(standings)[k]
      ensures r.Err? <==> |Slots(teams)| - 1 > |futureMatchdays|
      ensures r.Err? ==> fixtures == Without(old(fixtures), league) && locked == old(locked)
      ensures r.Err? ==> standings.Keys == set k | k in old(standings) && k.league != league
      ensures r.Ok? ==>
        && fixtures == Installed(old(fixtures), league,
                                 Schedule(Slots(teams), futureMatchdays, RoundCount(|Slots(teams)|)))
        && standings.Keys == (set k | k in old(standings) && k.league != league) + KeysOf(league, Slots(teams))
        && (forall k :: k in KeysOf(league, Slots(teams)) ==> standings[k] == ZERO)
        && locked == old(locked) + {league}
    {
      DeleteLeague(league);
      WithoutMembers(old(fixtures), league);
      var generated := GenerateFixtures(teams, futureMatchdays);
      if generated.Err? {
        return Err(generated.error);
      }
      ScheduleIsWellFormed(teams, futureMatchdays);
      Install(league, Slots(teams), generated.value);
      locked := locked + {league};
      r := Ok(|generated.value|);
    }

    method DeleteLeague(league: Id)
      requires Valid()
      modifies this`fixtures, this`standings
      ensures Valid() && fixtures == Without(old(fixtures), league)
      ensures standings == map k | k in old(standings) && k.league != league :: old(standings)[k]
    {
      fixtures := Without(fixtures, league);
      standings := map k | k in standings && k.league != league :: standings[k];
      WithoutMembers(old(fixtures), league);
      forall k, c | k in standings
        ensures Cell(standings[k], c) == Sum(fixtures, k, c)
      {
        SumWithout(old(fixtures), league, k, c);
      }
    }

    method Install(league: Id, slots: seq<Participant>, schedule: seq<Fixture>)
      requires Valid() && forall k :: k in standings ==> k.league != league
      requires fixtures == Without(fixtures, league)
      requires forall f :: f in schedule ==> WellFormed(f) && f.outcome.Upcoming?
      modifies this`fixtures, this`standings
      ensures Valid() && fixtures == old(fixtures) + Store(league, schedule)
      ensures standings == old(standings) + map k | k in KeysOf(league, slots) :: ZERO
    {
      fixtures := fixtures + Store(league, schedule);
      standings := standings + map k | k in KeysOf(league, slots) :: ZERO;
      forall k, c | k in standings
        ensures Cell(standings[k], c) == Sum(fixtures, k, c)
      {
        SumAppend(old(fixtures), Store(league, schedule), k, c);
        SumOfNothing(Store(league, schedule), k, c);
        SumWithout(old(fixtures), league, k, c);
      }
    }

    // standing.matchesPlayed += 1 and so on, when the row exists.
    method Update(key: Key, mine: int, theirs: int, points: int)
      modifies this`standings
      ensures standings == if key in old(standings)
                           then old(standings)[key := Credit(old(standings)[key], mine, theirs, points)]
                           else old(standings)
    {
      if key in standings {
        var standing := standings[key];
        standing := standing.(played := standing.played + 1);
        standing := standing.(pointsFor := standing.pointsFor + mine);
        standing := standing.(pointsAgainst := standing.pointsAgainst + theirs);
        standing := standing.(leaguePoints := standing.leaguePoints + points);
        if points == 3 {
          standing := standing.(wins := standing.wins + 1);
        } else if points == 1 {
          standing := standing.(draws := standing.draws + 1);
        } else {
          standing := standing.(losses := standing.losses + 1);
        }
        standings := standings[key := standing];
      }
    }

    method CreditSides(league: Id, fixture: Fixture, homeScore: int, awayScore: int,
                       homeLeaguePoints: int, awayLeaguePoints: int)
      requires WellFormed(fixture)
      requires homeLeaguePoints == LeaguePoints(homeScore, awayScore)
      requires awayLeaguePoints == LeaguePoints(awayScore, homeScore)
      modifies this`standings
      ensures standings
           == CreditBoth(old(standings), Key(league, fixture.home), Key(league, fixture.away), homeScore, awayScore)
    {
      if fixture.home.Member? {
        Update(Key(league, fixture.home), homeScore, awayScore, homeLeaguePoints);
      }
      if fixture.away.Member? {
        Update(Key(league, fixture.away), awayScore, homeScore, awayLeaguePoints);
      }
      if fixture.isAverage {
        var avgScore := if fixture.home.Average? then homeScore else awayScore;
        var oppScore := if fixture.home.Average? then awayScore else homeScore;
        var avgPoints := if fixture.home.Average? then homeLeaguePoints else awayLeaguePoints;
        Update(Key(league, Average), avgScore, oppScore, avgPoints);
      }
    }

    // Finalise one fixture and credit its sides.
    method ResolveOne(i: nat, scores: Scores)
      requires Valid() && i < |fixtures| && fixtures[i].fixture.outcome.Upcoming?
      modifies this
      ensures Valid() && standings.Keys == old(standings.Keys)
      ensures fixtures == old(fixtures)[i := old(fixtures)[i].(fixture :=
                Resolve(old(fixtures)[i].fixture, old(fixtures)[i].fixture.matchdayNumber, scores))]
    {
      var stored := fixtures[i];
      var fixture := stored.fixture;
      ghost var rows := standings;
      var homeScore, awayScore := scores.Of(fixture.home), scores.Of(fixture.away);
      var homeLeaguePoints, awayLeaguePoints := 0, 0;
      var winner: Option<Id> := None;
      if homeScore > awayScore {
        homeLeaguePoints := 3;
        winner := if fixture.home.Member? then Some(fixture.home.id) else None;
      } else if awayScore > homeScore {
        awayLeaguePoints := 3;
        winner := if fixture.away.Member? then Some(fixture.away.id) else None;
      } else {
        homeLeaguePoints, awayLeaguePoints := 1, 1;
      }
      fixtures := fixtures[i := stored.(fixture := fixture.(outcome := Finalized(homeScore, awayScore, winner)))];

      CreditSides(stored.league, fixture, homeScore, awayScore, homeLeaguePoints, awayLeaguePoints);
      CreditBothBalances(old(fixtures), rows, i, homeScore, awayScore, winner);
    }

    method ResolveMatchday(matchday: int, scores: Scores) returns (resolved: nat)
      requires Valid()
      modifies this
      ensures Valid() && standings.Keys == old(standings.Keys)
      ensures fixtures == ResolveAll(old(fixtures), matchday, scores)
    {
      resolved := 0;
      for i := 0 to |fixtures|
        invariant Valid() && standings.Keys == old(standings.Keys)
        invariant |fixtures| == |old(fixtures)|
        invariant forall j :: 0 <= j < i ==>
          fixtures[j] == old(fixtures)[j].(fixture := Resolve(old(fixtures)[j].fixture, matchday, scores))
        invariant forall j :: i <= j < |fixtures| ==> fixtures[j] == old(fixtures)[j]
      {
        if fixtures[i].fixture.matchdayNumber == matchday && fixtures[i].fixture.outcome.Upcoming? {
          ResolveOne(i, scores);
          resolved := resolved + 1;
        }
      }
    }
  }
}
