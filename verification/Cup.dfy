/** The knockout cup: the draw, the resolution of a round and the draw of the next one.

    Shuffles are arbitrary permutations and scores arbitrary integers. The run theorem says that one finalisation
    per consecutive matchday ends the cup after exactly ceil(log2 n) rounds. */
module Cup {
  import opened Wrappers
  import opened Average

  datatype EntryStatus = Active | Eliminated | Winner

  datatype Entry = Entry(id: Id, status: EntryStatus)

  datatype CupStatus = Upcoming | Live | Completed

  datatype Round = Round(sequenceNumber: nat, matchdayNumber: int, completed: bool)

  datatype Decision = Decision(homeScore: int, awayScore: Option<int>, winner: Id)

  // A fixture without an away entry is a bye.
  datatype CupFixture = CupFixture(round: nat, home: Id, away: Option<Id>, decision: Option<Decision>)

  // The stored cup. `teams` holds the fantasy team of every entry that has one.
  datatype State = State(
    status: CupStatus,
    entries: seq<Entry>,
    teams: map<Id, Id>,
    rounds: seq<Round>,
    fixtures: seq<CupFixture>)

  // Points of the matchday and overall points, by fantasy team.
  datatype Board = Board(points: map<Id, int>, overall: map<Id, int>)

  ghost predicate IsShuffle(shuffled: seq<Id>, original: seq<Id>) {
    multiset(shuffled) == multiset(original)
  }

  // ----- The specification of one finalisation --------------------------------

  function ActiveIds(entries: seq<Entry>): seq<Id> {
    if entries == [] then []
    else if entries[|entries| - 1].status.Active? then ActiveIds(entries[..|entries| - 1]) + [entries[|entries| - 1].id]
    else ActiveIds(entries[..|entries| - 1])
  }

  // Neighbours meet; an odd last entry gets a bye.
  function Pairings(round: nat, shuffled: seq<Id>): seq<CupFixture> {
    if shuffled == [] then []
    else if |shuffled| % 2 == 1 then
      Pairings(round, shuffled[..|shuffled| - 1]) + [CupFixture(round, shuffled[|shuffled| - 1], None, None)]
    else
      Pairings(round, shuffled[..|shuffled| - 2])
      + [CupFixture(round, shuffled[|shuffled| - 2], Some(shuffled[|shuffled| - 1]), None)]
  }

  function PointsOf(e: Id, teams: map<Id, Id>, points: map<Id, int>, missing: int): int {
    if e in teams then (if teams[e] in points then points[teams[e]] else 0) else missing
  }

  function Decide(f: CupFixture, teams: map<Id, Id>, board: Board, average: int): Decision {
    match f.away
    case None => Decision(PointsOf(f.home, teams, board.points, 0), None, f.home)
    case Some(away) =>
      var h := PointsOf(f.home, teams, board.points, average);
      var a := PointsOf(away, teams, board.points, average);
      var homeOverall := PointsOf(f.home, teams, board.overall, -1);
      var awayOverall := PointsOf(away, teams, board.overall, -1);
      var homeAdvances := h > a || (h == a && homeOverall >= awayOverall);
      Decision(h, Some(a), if homeAdvances then f.home else away)
  }

  function Loser(f: CupFixture): Option<Id> {
    if f.decision.None? || f.away.None? then None
    else if f.decision.value.winner == f.home then f.away
    else Some(f.home)
  }

  // Who advances: the side with more points in the matchday, where a side without a team counts as average; on a tie
  // the one with more points overall; on a full tie the home side.
  lemma {:induction false} BetterSideAdvances(f: CupFixture, teams: map<Id, Id>, board: Board, average: int)
    requires f.away.Some? && f.away.value != f.home
    ensures var decided := f.(decision := Some(Decide(f, teams, board, average)));
            && Loser(decided).Some? && {decided.decision.value.winner, Loser(decided).value} == {f.home, f.away.value}
            && var w, l := decided.decision.value.winner, Loser(decided).value;
               var mine, theirs := PointsOf(w, teams, board.points, average), PointsOf(l, teams, board.points, average);
               var overall := PointsOf(w, teams, board.overall, -1);
               var theirOverall := PointsOf(l, teams, board.overall, -1);
               || mine > theirs
               || (mine == theirs && overall > theirOverall)
               || (mine == theirs && overall == theirOverall && w == f.home)
  {
  }

  // Fixtures of the current round are decided once; all others stay.
  function DecideAll(fs: seq<CupFixture>, round: nat, teams: map<Id, Id>, board: Board,
                     average: int): (r: seq<CupFixture>)
    ensures |r| == |fs|
    ensures forall i :: 0 <= i < |fs| ==>
      r[i] == if fs[i].round == round && fs[i].decision.None?
              then fs[i].(decision := Some(Decide(fs[i], teams, board, average))) else fs[i]
  {
    seq(|fs|, i requires 0 <= i < |fs| =>
      if fs[i].round == round && fs[i].decision.None?
      then fs[i].(decision := Some(Decide(fs[i], teams, board, average))) else fs[i])
  }

  function NewLosers(before: seq<CupFixture>, after: seq<CupFixture>): set<Id>
    requires |before| == |after|
  {
    set i | 0 <= i < |after| && before[i].decision.None? && Loser(after[i]).Some? :: Loser(after[i]).value
  }

  function Mark(entries: seq<Entry>, ids: set<Id>, status: EntryStatus): (r: seq<Entry>)
    ensures |r| == |entries|
    ensures forall i :: 0 <= i < |entries| ==>
      r[i] == if entries[i].id in ids then entries[i].(status := status) else entries[i]
  {
    seq(|entries|, i requires 0 <= i < |entries| =>
      if entries[i].id in ids then entries[i].(status := status) else entries[i])
  }

  // The winners of a round, in stored order of its fixtures.
  function Winners(fs: seq<CupFixture>, round: nat): seq<Id> {
    if fs == [] then []
    else
      var f := fs[|fs| - 1];
      if f.round == round && f.decision.Some?
      then Winners(fs[..|fs| - 1], round) + [f.decision.value.winner]
      else Winners(fs[..|fs| - 1], round)
  }

  // The first round scheduled for a matchday.
  function FindRound(rounds: seq<Round>, matchday: int): Option<nat> {
    if rounds == [] then None
    else
      match FindRound(rounds[..|rounds| - 1], matchday)
      case Some(i) => Some(i)
      case None => if rounds[|rounds| - 1].matchdayNumber == matchday then Some(|rounds| - 1) else None
  }

  function Scores(ids: seq<Id>, teams: map<Id, Id>, points: map<Id, int>): (r: seq<int>)
    ensures |r| == |ids|
  {
    seq(|ids|, i requires 0 <= i < |ids| => PointsOf(ids[i], teams, points, 0))
  }

  function Draw(c: State, matchday: int, shuffled: seq<Id>): State {
    if c.rounds == [] && |ActiveIds(c.entries)| >= 2
    then c.(status := Live, rounds := [Round(1, matchday, false)], fixtures := c.fixtures + Pairings(0, shuffled))
    else c
  }

  function PlayRound(c: State, active: seq<Id>, current: nat, board: Board): State
    requires current < |c.rounds|
  {
    var average := Rounded(SumOf(Scores(active, c.teams, board.points)), |active|);
    var decided := DecideAll(c.fixtures, current, c.teams, board, average);
    c.(fixtures := decided,
    entries := Mark(c.entries, NewLosers(c.fixtures, decided), Eliminated),
    rounds := c.rounds[current := c.rounds[current].(completed := true)])
  }

  function Advance(c: State, current: nat, matchday: int, shuffled: seq<Id>): State
    requires current < |c.rounds|
  {
    var winners := Winners(c.fixtures, current);
    if |winners| == 1 then
      c.(status := Completed, entries := Mark(c.entries, {winners[0]}, Winner))
    else if |winners| > 1 then
      c.(rounds := c.rounds + [Round(c.rounds[current].sequenceNumber + 1, matchday + 1, false)],
      fixtures := c.fixtures + Pairings(|c.rounds|, shuffled))
    else c
  }

  lemma {:induction false} FindRoundInRange(rounds: seq<Round>, matchday: int)
    ensures FindRound(rounds, matchday).Some? ==>
      FindRound(rounds, matchday).value < |rounds|
        && rounds[FindRound(rounds, matchday).value].matchdayNumber == matchday
  {
    if rounds != [] {
      FindRoundInRange(rounds[..|rounds| - 1], matchday);
    }
  }

  function Finalize(c: State, matchday: int, board: Board, drawn: seq<Id>, paired: seq<Id>): State {
    if c.status.Completed? then c
    else
      var active := ActiveIds(c.entries);
      var c1 := Draw(c, matchday, drawn);
      FindRoundInRange(c1.rounds, matchday);
      match FindRound(c1.rounds, matchday)
      case None => c1
      case Some(current) =>
        Advance(PlayRound(c1, active, current, board), current, matchday, paired)
  }

  // The two shuffles of a finalisation permute the entries they are given.
  ghost predicate Shuffles(c: State, matchday: int, board: Board, drawn: seq<Id>, paired: seq<Id>) {
    c.status.Completed? ||
    var active := ActiveIds(c.entries);
    var c1 := Draw(c, matchday, drawn);
    (c.rounds == [] ==> IsShuffle(drawn, active)) &&
    (FindRound(c1.rounds, matchday).Some? ==>
       var current := FindRound(c1.rounds, matchday).value;
       FindRoundInRange(c1.rounds, matchday);
       IsShuffle(paired, Winners(PlayRound(c1, active, current, board).fixtures, current)))
  }

  // ----- Counting --------------------------------------------------------------

  // How many decided fixtures an entry has lost.
  function Losses(fs: seq<CupFixture>, e: Id): nat {
    if fs == [] then 0
    else Losses(fs[..|fs| - 1], e) + if Loser(fs[|fs| - 1]) == Some(e) then 1 else 0
  }

  // How many fixtures are not byes.
  function Contested(fs: seq<CupFixture>): nat {
    if fs == [] then 0
    else Contested(fs[..|fs| - 1]) + if fs[|fs| - 1].away.Some? then 1 else 0
  }

  lemma {:induction false} CountsAppend(fs: seq<CupFixture>, gs: seq<CupFixture>, e: Id)
    ensures Losses(fs + gs, e) == Losses(fs, e) + Losses(gs, e)
    ensures Contested(fs + gs) == Contested(fs) + Contested(gs)
  {
    if gs == [] {
      assert fs + gs == fs;
    } else {
      CountsAppend(fs, gs[..|gs| - 1], e);
      assert (fs + gs)[..|fs + gs| - 1] == fs + gs[..|gs| - 1];
    }
  }

  lemma {:induction false} WinnersAppend(fs: seq<CupFixture>, gs: seq<CupFixture>, round: nat)
    ensures Winners(fs + gs, round) == Winners(fs, round) + Winners(gs, round)
  {
    if gs == [] {
      assert fs + gs == fs;
    } else {
      WinnersAppend(fs, gs[..|gs| - 1], round);
      assert (fs + gs)[..|fs + gs| - 1] == fs + gs[..|gs| - 1];
    }
  }

  lemma {:induction false} NoWinnersOfOtherRounds(fs: seq<CupFixture>, round: nat)
    requires forall i :: 0 <= i < |fs| ==> fs[i].round != round
    ensures Winners(fs, round) == []
  {
    if fs != [] {
      NoWinnersOfOtherRounds(fs[..|fs| - 1], round);
    }
  }

  lemma {:induction false} LossesPositive(fs: seq<CupFixture>, e: Id)
    ensures Losses(fs, e) > 0 <==> exists i :: 0 <= i < |fs| && Loser(fs[i]) == Some(e)
  {
    if fs != [] {
      LossesPositive(fs[..|fs| - 1], e);
      if Loser(fs[|fs| - 1]) != Some(e) && exists i :: 0 <= i < |fs| && Loser(fs[i]) == Some(e) {
        var i :| 0 <= i < |fs| && Loser(fs[i]) == Some(e);
        assert fs[..|fs| - 1][i] == fs[i];
      }
    }
  }

  // ----- One round among distinct entries ---------------------------------------

  // The pairing of one more bye or one more contested fixture.
  function Decided(round: nat, alive: seq<Id>, teams: map<Id, Id>, board: Board, average: int): seq<CupFixture> {
    DecideAll(Pairings(round, alive), round, teams, board, average)
  }

  lemma {:induction false} PairingsOfRound(round: nat, alive: seq<Id>)
    ensures forall i :: 0 <= i < |Pairings(round, alive)| ==>
      Pairings(round, alive)[i].round == round && Pairings(round, alive)[i].decision.None?
  {
    if alive != [] {
      PairingsOfRound(round, if |alive| % 2 == 1 then alive[..|alive| - 1] else alive[..|alive| - 2]);
    }
  }

  lemma {:induction false} DecidedStep(round: nat, front: seq<CupFixture>, f: CupFixture, teams: map<Id, Id>,
                                       board: Board, average: int)
    requires f.round == round && f.decision.None?
    ensures DecideAll(front + [f], round, teams, board, average)
         == DecideAll(front, round, teams, board, average) + [f.(decision := Some(Decide(f, teams, board, average)))]
  {
  }

  // Half of the entries, rounded up, survive a round; each of the others has lost exactly one fixture of it.
  ghost predicate Halved(alive: seq<Id>, decided: seq<CupFixture>, winners: seq<Id>) {
    && |winners| == (|alive| + 1) / 2
    && Distinct(winners)
    && (forall w :: w in winners ==> w in alive)
    && (forall e :: Losses(decided, e) == if e in alive && e !in winners then 1 else 0)
    && Contested(decided) == |alive| - |winners|
  }

  // The fixture pairing the last one or two entries, decided.
  function LastDecided(round: nat, alive: seq<Id>, teams: map<Id, Id>, board: Board, average: int): CupFixture
    requires alive != []
  {
    var n := |alive|;
    var f := if n % 2 == 1 then CupFixture(round, alive[n - 1], None, None)
             else CupFixture(round, alive[n - 2], Some(alive[n - 1]), None);
    f.(decision := Some(Decide(f, teams, board, average)))
  }

  function Front(alive: seq<Id>): seq<Id>
    requires alive != []
  {
    if |alive| % 2 == 1 then alive[..|alive| - 1] else alive[..|alive| - 2]
  }

  lemma {:induction false} DecidedSnoc(round: nat, alive: seq<Id>, teams: map<Id, Id>, board: Board, average: int)
    requires alive != []
    ensures Decided(round, alive, teams, board, average)
         == Decided(round, Front(alive), teams, board, average) + [LastDecided(round, alive, teams, board, average)]
  {
    DecidedStep(round, Pairings(round, Front(alive)),
                LastDecided(round, alive, teams, board, average).(decision := None),
                teams, board, average);
  }

  lemma {:induction false} WinnersSnoc(fs: seq<CupFixture>, g: CupFixture, round: nat)
    requires g.round == round && g.decision.Some?
    ensures Winners(fs + [g], round) == Winners(fs, round) + [g.decision.value.winner]
  {
    assert (fs + [g])[..|fs|] == fs;
  }

  lemma {:induction false} RoundHalves(round: nat, alive: seq<Id>, teams: map<Id, Id>, board: Board, average: int,
                                       decided: seq<CupFixture>)
    requires Distinct(alive) && decided == Decided(round, alive, teams, board, average)
    ensures Halved(alive, decided, Winners(decided, round))
    decreases |alive|
  {
    if alive != [] {
      var front := Front(alive);
      var before := Decided(round, front, teams, board, average);
      RoundHalves(round, front, teams, board, average, before);
      DecidedSnoc(round, alive, teams, board, average);
      RoundHalvesStep(round, alive, before, LastDecided(round, alive, teams, board, average));
    }
  }

  lemma {:induction false} RoundHalvesStep(round: nat, alive: seq<Id>, before: seq<CupFixture>, g: CupFixture)
    requires alive != [] && Distinct(alive)
    requires g.round == round && g.decision.Some?
    requires |alive| % 2 == 1 ==> g.home == alive[|alive| - 1] == g.decision.value.winner && g.away.None?
    requires |alive| % 2 == 0 ==>
      && g.home == alive[|alive| - 2] && g.away == Some(alive[|alive| - 1])
      && g.decision.value.winner in [alive[|alive| - 2], alive[|alive| - 1]]
    requires Halved(Front(alive), before, Winners(before, round))
    ensures Halved(alive, before + [g], Winners(before + [g], round))
  {
    var n, front, winners := |alive|, Front(alive), Winners(before, round);
    WinnersSnoc(before, g, round);
    FrontFacts(alive);
    if n % 2 == 1 {
      HalvedWithBye(front, alive[n - 1], before, g, winners);
    } else {
      HalvedWithPair(front, alive[n - 2], alive[n - 1], before, g, winners);
    }
  }

  // The entries before the last pairing, and those of the last pairing.
  lemma {:induction false} FrontFacts(alive: seq<Id>)
    requires alive != [] && Distinct(alive)
    ensures var n, front := |alive|, Front(alive);
            if n % 2 == 1 then |front| % 2 == 0 && alive == front + [alive[n - 1]] && alive[n - 1] !in front
            else && |front| % 2 == 0 && alive == front + [alive[n - 2], alive[n - 1]]
                 && alive[n - 2] !in front && alive[n - 1] !in front && alive[n - 2] != alive[n - 1]
  {
  }

  lemma {:induction false} HalvedWithBye(front: seq<Id>, e: Id, decided: seq<CupFixture>, g: CupFixture,
                                         winners: seq<Id>)
    requires |front| % 2 == 0 && e !in front && Halved(front, decided, winners)
    requires g.away.None?
    ensures Halved(front + [e], decided + [g], winners + [e])
  {
    forall x
      ensures Losses(decided + [g], x) == Losses(decided, x)
    {
      CountsAppend(decided, [g], x);
      assert (decided + [g])[..|decided|] == decided;
    }
    assert (decided + [g])[..|decided|] == decided;
  }

  lemma {:induction false} HalvedWithPair(front: seq<Id>, h: Id, a: Id, decided: seq<CupFixture>, g: CupFixture,
                                          winners: seq<Id>)
    requires |front| % 2 == 0 && h !in front && a !in front && h != a && Halved(front, decided, winners)
    requires g.home == h && g.away == Some(a) && g.decision.Some? && g.decision.value.winner in [h, a]
    ensures Halved(front + [h, a], decided + [g], winners + [g.decision.value.winner])
  {
    var w := g.decision.value.winner;
    var l := if w == h then a else h;
    assert Loser(g) == Some(l);
    assert (decided + [g])[..|decided|] == decided;
    forall x
      ensures Losses(decided + [g], x) == Losses(decided, x) + if x == l then 1 else 0
    {
    }
  }

  // ----- The cup between two finalisations ---------------------------------------

  ghost predicate DistinctEntries(entries: seq<Entry>) {
    forall i, j :: 0 <= i < j < |entries| ==> entries[i].id != entries[j].id
  }

  // `alive` still play, everybody else of the draw has been eliminated by exactly one fixture.
  ghost predicate Standing(entries: seq<Entry>, past: seq<CupFixture>, drawn: seq<Id>, alive: seq<Id>) {
    && Distinct(alive)
    && (forall e :: e in alive ==> e in drawn && Entry(e, Active) in entries && Losses(past, e) == 0)
    && (forall e :: e in drawn && e !in alive ==> Entry(e, Eliminated) in entries && Losses(past, e) == 1)
    && Contested(past) == |drawn| - |alive|
  }

  // Rounds 0..k are scheduled for consecutive matchdays, the last of them for `matchday`.
  ghost predicate Scheduled(rounds: seq<Round>, k: nat, matchday: int) {
    && |rounds| == k + 1
    && (forall i :: 0 <= i <= k ==> rounds[i].matchdayNumber == matchday - k + i && rounds[i].sequenceNumber == i + 1)
  }

  ghost predicate Past(fs: seq<CupFixture>, k: nat) {
    forall i :: 0 <= i < |fs| ==> fs[i].round < k && fs[i].decision.Some?
  }

  // Round k is drawn among `alive` and about to be finalised on `matchday`.
  ghost predicate Stage(c: State, matchday: int, drawn: seq<Id>, past: seq<CupFixture>, alive: seq<Id>, k: nat) {
    && c.status.Live?
    && DistinctEntries(c.entries)
    && Scheduled(c.rounds, k, matchday)
    && Past(past, k)
    && c.fixtures == past + Pairings(k, alive)
    && Standing(c.entries, past, drawn, alive)
    && |alive| >= 2
  }

  // One champion; every other drawn entry eliminated by exactly one fixture; one contested fixture each.
  ghost predicate Ended(c: State, drawn: seq<Id>, rounds: nat) {
    && c.status.Completed?
    && |c.rounds| == rounds
    && (exists champion ::
          && champion in drawn && Entry(champion, Winner) in c.entries && Losses(c.fixtures, champion) == 0
          && (forall e :: e in drawn && e != champion ==>
               Entry(e, Eliminated) in c.entries && Losses(c.fixtures, e) == 1))
    && Contested(c.fixtures) == |drawn| - 1
    && (forall i :: 0 <= i < |c.fixtures| ==> c.fixtures[i].decision.Some?)
  }

  lemma {:induction false} FindScheduled(rounds: seq<Round>, k: nat, matchday: int)
    requires Scheduled(rounds, k, matchday)
    ensures FindRound(rounds, matchday) == Some(k)
  {
    FindRoundInRange(rounds[..k], matchday);
    assert FindRound(rounds[..k], matchday).None?;
  }

  // Deciding touches only the fixtures of the current round.
  lemma {:induction false} DecideCurrent(past: seq<CupFixture>, alive: seq<Id>, k: nat, teams: map<Id, Id>,
                                         board: Board, average: int)
    requires Past(past, k)
    ensures DecideAll(past + Pairings(k, alive), k, teams, board, average)
         == past + Decided(k, alive, teams, board, average)
    ensures Winners(past + Decided(k, alive, teams, board, average), k)
         == Winners(Decided(k, alive, teams, board, average), k)
  {
    WinnersAppend(past, Decided(k, alive, teams, board, average), k);
    NoWinnersOfOtherRounds(past, k);
  }

  lemma {:induction false} NewLosersAreLosers(past: seq<CupFixture>, before: seq<CupFixture>, decided: seq<CupFixture>,
                                              k: nat)
    requires Past(past, k) && |before| == |decided|
    requires forall i :: 0 <= i < |before| ==> before[i].decision.None?
    ensures forall e :: e in NewLosers(past + before, past + decided) <==> Losses(decided, e) > 0
  {
    forall e
      ensures e in NewLosers(past + before, past + decided) <==> Losses(decided, e) > 0
    {
      LossesPositive(decided, e);
      var fs := past + decided;
      if e in NewLosers(past + before, fs) {
        var i :| 0 <= i < |fs| && (past + before)[i].decision.None? && Loser(fs[i]).Some? && Loser(fs[i]).value == e;
        assert Loser(decided[i - |past|]) == Some(e);
      }
      if Losses(decided, e) > 0 {
        var i :| 0 <= i < |decided| && Loser(decided[i]) == Some(e);
        assert (past + before)[|past| + i].decision.None? && Loser(fs[|past| + i]).Some?;
      }
    }
  }

  lemma {:induction false} MarkMembers(entries: seq<Entry>, ids: set<Id>, status: EntryStatus, e: Id, was: EntryStatus)
    requires Entry(e, was) in entries
    ensures Entry(e, if e in ids then status else was) in Mark(entries, ids, status)
  {
    var i :| 0 <= i < |entries| && entries[i] == Entry(e, was);
    assert Mark(entries, ids, status)[i] == Entry(e, if e in ids then status else was);
  }

  // A round keeps the standing of the drawn entries, with the winners of the round alive.
  lemma {:induction false} StandingAfterRound(entries: seq<Entry>, past: seq<CupFixture>, drawn: seq<Id>,
                                              alive: seq<Id>, decided: seq<CupFixture>, winners: seq<Id>,
                                              losers: set<Id>, after: seq<Entry>)
    requires Standing(entries, past, drawn, alive) && Halved(alive, decided, winners)
    requires forall e :: e in losers <==> Losses(decided, e) > 0
    requires after == Mark(entries, losers, Eliminated)
    ensures Standing(after, past + decided, drawn, winners)
  {
    forall e | e in winners
      ensures e in drawn && Entry(e, Active) in after && Losses(past + decided, e) == 0
    {
      CountsAppend(past, decided, e);
      MarkMembers(entries, losers, Eliminated, e, Active);
    }
    forall e | e in drawn && e !in winners
      ensures Entry(e, Eliminated) in after && Losses(past + decided, e) == 1
    {
      CountsAppend(past, decided, e);
      MarkMembers(entries, losers, Eliminated, e, if e in alive then Active else Eliminated);
    }
    CountsAppend(past, decided, 0);
  }

  lemma {:induction false} ShuffledStanding(entries: seq<Entry>, past: seq<CupFixture>, drawn: seq<Id>, alive: seq<Id>,
                                            shuffled: seq<Id>)
    requires Standing(entries, past, drawn, alive) && IsShuffle(shuffled, alive)
    ensures Standing(entries, past, drawn, shuffled) && |shuffled| == |alive|
  {
    ShuffleFacts(alive, shuffled);
  }

  lemma {:induction false} ShuffleFacts(original: seq<Id>, shuffled: seq<Id>)
    requires IsShuffle(shuffled, original)
    ensures |shuffled| == |original|
    ensures forall e :: e in shuffled <==> e in original
    ensures Distinct(original) ==> Distinct(shuffled)
  {
    assert |multiset(shuffled)| == |shuffled| && |multiset(original)| == |original|;
    forall e
      ensures e in shuffled <==> e in original
    {
      assert e in multiset(shuffled) <==> e in multiset(original);
    }
    if Distinct(original) {
      DistinctCounts(original);
      CountsDistinct(shuffled);
    }
  }

  lemma {:induction false} DistinctCounts(s: seq<Id>)
    requires Distinct(s)
    ensures forall e :: multiset(s)[e] <= 1
  {
    if s != [] {
      DistinctCounts(s[..|s| - 1]);
      assert s == s[..|s| - 1] + [s[|s| - 1]];
    }
  }

  lemma {:induction false} CountsDistinct(s: seq<Id>)
    requires forall e :: multiset(s)[e] <= 1
    ensures Distinct(s)
  {
    if s != [] {
      var front, last := s[..|s| - 1], s[|s| - 1];
      assert s == front + [last];
      assert multiset(s) == multiset(front) + multiset{last};
      forall e
        ensures multiset(front)[e] <= 1
      {
        assert multiset(front)[e] <= multiset(s)[e];
      }
      CountsDistinct(front);
      assert multiset(s)[last] == multiset(front)[last] + 1;
    }
  }

  // ----- One finalisation ---------------------------------------------------------

  ghost predicate AfterStage(c: State, matchday: int, drawn: seq<Id>, past: seq<CupFixture>, alive: seq<Id>, k: nat,
                             survivors: nat) {
    if survivors == 1 then Ended(c, drawn, k + 1)
    else |alive| == survivors && Stage(c, matchday + 1, drawn, past, alive, k + 1)
  }

  // Playing the current round: the fixtures are decided and its winners are the ones still standing.
  lemma {:induction false} RoundPlayed(c: State, matchday: int, drawn: seq<Id>, past: seq<CupFixture>, alive: seq<Id>,
                                       k: nat, active: seq<Id>, board: Board) returns (decided: seq<CupFixture>)
    requires Stage(c, matchday, drawn, past, alive, k)
    ensures var played := PlayRound(c, active, k, board);
            && played.fixtures == past + decided
            && Past(played.fixtures, k + 1)
            && |Winners(played.fixtures, k)| == (|alive| + 1) / 2
            && Standing(played.entries, played.fixtures, drawn, Winners(played.fixtures, k))
            && DistinctEntries(played.entries)
            && Scheduled(played.rounds, k, matchday)
  {
    var average := Rounded(SumOf(Scores(active, c.teams, board.points)), |active|);
    decided := Decided(k, alive, c.teams, board, average);
    var played := PlayRound(c, active, k, board);
    DecideCurrent(past, alive, k, c.teams, board, average);
    RoundHalves(k, alive, c.teams, board, average, decided);
    PairingsOfRound(k, alive);
    NewLosersAreLosers(past, Pairings(k, alive), decided, k);
    StandingAfterRound(c.entries, past, drawn, alive, decided, Winners(decided, k),
                       NewLosers(c.fixtures, played.fixtures), played.entries);
  }

  lemma {:induction false} FinalizeStage(c: State, matchday: int, drawn: seq<Id>, past: seq<CupFixture>, alive: seq<Id>,
                                         k: nat, board: Board, unused: seq<Id>, paired: seq<Id>)
    returns (after: seq<CupFixture>)
    requires Stage(c, matchday, drawn, past, alive, k)
    requires Shuffles(c, matchday, board, unused, paired)
    ensures AfterStage(Finalize(c, matchday, board, unused, paired), matchday, drawn, after, paired, k,
                       (|alive| + 1) / 2)
  {
    FindScheduled(c.rounds, k, matchday);
    var active := ActiveIds(c.entries);
    var decided := RoundPlayed(c, matchday, drawn, past, alive, k, active, board);
    var played := PlayRound(c, active, k, board);
    after := played.fixtures;
    assert Finalize(c, matchday, board, unused, paired) == Advance(played, k, matchday, paired);
    AdvancedStage(played, matchday, drawn, after, k, paired);
  }

  // From a played round the cup goes on with its winners, or ends with the one that is left.
  lemma {:induction false} AdvancedStage(played: State, matchday: int, drawn: seq<Id>, past: seq<CupFixture>, k: nat,
                                         paired: seq<Id>)
    requires played.status.Live? && played.fixtures == past && Past(past, k + 1) && DistinctEntries(played.entries)
    requires Scheduled(played.rounds, k, matchday) && |Winners(past, k)| >= 1
    requires Standing(played.entries, past, drawn, Winners(past, k)) && IsShuffle(paired, Winners(past, k))
    ensures AfterStage(Advance(played, k, matchday, paired), matchday, drawn, past, paired, k, |Winners(past, k)|)
  {
    var winners := Winners(past, k);
    if |winners| == 1 {
      assert winners == [winners[0]];
      ChampionCrowned(played, drawn, past, winners[0], k);
    } else {
      ShuffledStanding(played.entries, past, drawn, winners, paired);
    }
  }

  lemma {:induction false} ChampionCrowned(played: State, drawn: seq<Id>, past: seq<CupFixture>, champion: Id, k: nat)
    requires |played.rounds| == k + 1 && played.fixtures == past
    requires Standing(played.entries, past, drawn, [champion])
    requires forall i :: 0 <= i < |past| ==> past[i].decision.Some?
    ensures Ended(played.(status := Completed, entries := Mark(played.entries, {champion}, Winner)), drawn, k + 1)
  {
    var after := Mark(played.entries, {champion}, Winner);
    assert champion in [champion];
    MarkMembers(played.entries, {champion}, Winner, champion, Active);
    forall e | e in drawn && e != champion
      ensures Entry(e, Eliminated) in after && Losses(past, e) == 1
    {
      MarkMembers(played.entries, {champion}, Winner, e, Eliminated);
    }
  }

  // ----- Runs ----------------------------------------------------------------------

  // Between finalisations entries may join and memberships may gain or lose their fantasy team, which every
  // finalisation loads again; the two shuffles are whatever Math.random made of the lists.
  datatype Step = Step(joiners: seq<Entry>, teams: map<Id, Id>, board: Board, drawn: seq<Id>, paired: seq<Id>)

  function Load(c: State, joiners: seq<Entry>, teams: map<Id, Id>): State {
    c.(entries := c.entries + joiners, teams := teams)
  }

  // One finalisation per consecutive matchday, the first on `matchday`.
  function Run(c: State, matchday: int, steps: seq<Step>): State
    decreases |steps|
  {
    if steps == [] then c
    else
      var s := steps[0];
      Run(Finalize(Load(c, s.joiners, s.teams), matchday, s.board, s.drawn, s.paired), matchday + 1, steps[1..])
  }

  ghost predicate ValidRun(c: State, matchday: int, steps: seq<Step>)
    decreases |steps|
  {
    steps == [] ||
    var s := steps[0];
    var joined := Load(c, s.joiners, s.teams);
    && DistinctEntries(joined.entries)
    && Shuffles(joined, matchday, s.board, s.drawn, s.paired)
    && ValidRun(Finalize(joined, matchday, s.board, s.drawn, s.paired), matchday + 1, steps[1..])
  }

  function CeilLog2(n: nat): nat {
    if n <= 1 then 0 else 1 + CeilLog2((n + 1) / 2)
  }

  function Pow2(k: nat): nat {
    if k == 0 then 1 else 2 * Pow2(k - 1)
  }

  // CeilLog2(n) is the least k with n <= 2^k.
  lemma {:induction false} CeilLog2IsLeast(n: nat)
    requires n >= 1
    ensures n <= Pow2(CeilLog2(n))
    ensures n >= 2 ==> Pow2(CeilLog2(n) - 1) < n
  {
    if n >= 2 {
      CeilLog2IsLeast((n + 1) / 2);
    }
  }

  lemma {:induction false} LoadKeepsStage(c: State, matchday: int, drawn: seq<Id>, past: seq<CupFixture>,
                                          alive: seq<Id>, k: nat, joiners: seq<Entry>, teams: map<Id, Id>)
    requires Stage(c, matchday, drawn, past, alive, k) && DistinctEntries(c.entries + joiners)
    ensures Stage(Load(c, joiners, teams), matchday, drawn, past, alive, k)
  {
  }

  // From a drawn round with a entries alive: the cup is still live until CeilLog2(a) matchdays are finalised,
  // and then it has ended.
  lemma {:induction false} StageRun(c: State, matchday: int, drawn: seq<Id>, past: seq<CupFixture>, alive: seq<Id>,
                                    k: nat, steps: seq<Step>)
    requires Stage(c, matchday, drawn, past, alive, k)
    requires ValidRun(c, matchday, steps) && |steps| <= CeilLog2(|alive|)
    ensures |steps| < CeilLog2(|alive|) ==> Run(c, matchday, steps).status.Live?
    ensures |steps| == CeilLog2(|alive|) ==> Ended(Run(c, matchday, steps), drawn, k + |steps|)
    decreases |steps|, 0
  {
    if steps != [] {
      var s := steps[0];
      var joined := Load(c, s.joiners, s.teams);
      LoadKeepsStage(c, matchday, drawn, past, alive, k, s.joiners, s.teams);
      var after := FinalizeStage(joined, matchday, drawn, past, alive, k, s.board, s.drawn, s.paired);
      var next := Finalize(joined, matchday, s.board, s.drawn, s.paired);
      AfterStageRun(next, matchday, drawn, after, s.paired, k, (|alive| + 1) / 2, steps[1..]);
    }
  }

  lemma {:induction false} AfterStageRun(c: State, matchday: int, drawn: seq<Id>, past: seq<CupFixture>, alive: seq<Id>,
                                         k: nat, survivors: nat, steps: seq<Step>)
    requires AfterStage(c, matchday, drawn, past, alive, k, survivors) && survivors >= 1
    requires ValidRun(c, matchday + 1, steps) && |steps| <= CeilLog2(survivors)
    ensures |steps| < CeilLog2(survivors) ==> Run(c, matchday + 1, steps).status.Live?
    ensures |steps| == CeilLog2(survivors) ==> Ended(Run(c, matchday + 1, steps), drawn, k + 1 + |steps|)
    decreases |steps|, 1
  {
    if survivors > 1 {
      StageRun(c, matchday + 1, drawn, past, alive, k + 1, steps);
    }
  }

  lemma {:induction false} ActiveIdsAreActive(entries: seq<Entry>)
    ensures forall e :: e in ActiveIds(entries) ==> Entry(e, Active) in entries
    ensures DistinctEntries(entries) ==> Distinct(ActiveIds(entries))
  {
    if entries != [] {
      ActiveIdsAreActive(entries[..|entries| - 1]);
      assert DistinctEntries(entries) ==> DistinctEntries(entries[..|entries| - 1]);
    }
  }

  // A cup whose entries have joined and whose first round has not been drawn.
  ghost predicate Undrawn(c: State) {
    c.status.Upcoming? && c.rounds == [] && c.fixtures == [] && DistinctEntries(c.entries)
      && |ActiveIds(c.entries)| >= 2
  }

  lemma {:induction false} DrawOpensStage(c: State, matchday: int, drawn: seq<Id>)
    requires Undrawn(c) && IsShuffle(drawn, ActiveIds(c.entries))
    ensures Stage(Draw(c, matchday, drawn), matchday, drawn, [], drawn, 0)
    ensures |drawn| == |ActiveIds(c.entries)|
  {
    ActiveIdsAreActive(c.entries);
    ShuffleFacts(ActiveIds(c.entries), drawn);
    assert Draw(c, matchday, drawn).fixtures == [] + Pairings(0, drawn);
  }

  // The knockout theorem. A cup drawn among n >= 2 active entries and finalised once per consecutive matchday is
  // live until the last of ceil(log2 n) finalisations and then completed, after exactly that many rounds: one
  // drawn entry is the WINNER and lost no fixture, every other one is ELIMINATED and lost exactly one, and
  // n - 1 fixtures were not byes. This holds for all shuffles, scores, ties, late entries and teams that come and go.
  lemma {:induction false} KnockoutTheorem(c: State, matchday: int, steps: seq<Step>)
    requires Undrawn(c) && ValidRun(c, matchday, steps)
    requires steps != [] && steps[0].joiners == []
    requires |steps| <= CeilLog2(|ActiveIds(c.entries)|)
    ensures |steps| < CeilLog2(|ActiveIds(c.entries)|) ==> Run(c, matchday, steps).status.Live?
    ensures |steps| == CeilLog2(|ActiveIds(c.entries)|) ==> Ended(Run(c, matchday, steps), steps[0].drawn, |steps|)
    ensures IsShuffle(steps[0].drawn, ActiveIds(c.entries))
  {
    var s := steps[0];
    var loaded := c.(teams := s.teams);
    assert Load(c, [], s.teams) == loaded by { assert c.entries + [] == c.entries; }
    var inPlay := Draw(loaded, matchday, s.drawn);
    DrawOpensStage(loaded, matchday, s.drawn);
    assert Draw(inPlay, matchday, s.drawn) == inPlay;
    assert Load(inPlay, [], s.teams) == inPlay by { assert inPlay.entries + [] == inPlay.entries; }
    assert Finalize(inPlay, matchday, s.board, s.drawn, s.paired)
         == Finalize(loaded, matchday, s.board, s.drawn, s.paired);
    StageRun(inPlay, matchday, s.drawn, [], s.drawn, 0, steps);
  }

  // ----- The stored cup --------------------------------------------------------------

  function LosersBelow(before: seq<CupFixture>, after: seq<CupFixture>, n: nat): set<Id>
    requires |before| == |after| && n <= |after|
  {
    set i | 0 <= i < n && before[i].decision.None? && Loser(after[i]).Some? :: Loser(after[i]).value
  }

  lemma {:induction false} MarkTwice(entries: seq<Entry>, a: set<Id>, b: set<Id>, status: EntryStatus)
    ensures Mark(Mark(entries, a, status), b, status) == Mark(entries, a + b, status)
    ensures Mark(entries, {}, status) == entries
  {
  }

  lemma {:induction false} LosersStep(before: seq<CupFixture>, after: seq<CupFixture>, n: nat)
    requires |before| == |after| && n < |after|
    ensures LosersBelow(before, after, n + 1)
         == LosersBelow(before, after, n)
          + if before[n].decision.None? && Loser(after[n]).Some? then {Loser(after[n]).value} else {}
  {
  }

  // The rows of one cup, updated step by step by finalizeCupProgressionForMatchday.
  class KnockoutCup {
    var status: CupStatus
    var entries: seq<Entry>
    var teams: map<Id, Id>
    var rounds: seq<Round>
    var fixtures: seq<CupFixture>

    ghost function Value(): State
      reads this
    {
      State(status, entries, teams, rounds, fixtures)
    }

    constructor (entries: seq<Entry>, teams: map<Id, Id>)
      ensures Value() == State(Upcoming, entries, teams, [], [])
    {
      status, this.entries, this.teams, rounds, fixtures := Upcoming, entries, teams, [], [];
    }

    method CreateFixtures(round: nat, shuffled: seq<Id>)
      modifies this`fixtures
      ensures fixtures == old(fixtures) + Pairings(round, shuffled)
    {
      var index := 0;
      while index < |shuffled|
        invariant index % 2 == 0 || index == |shuffled| + 1
        invariant index <= |shuffled| + 1
        invariant fixtures
             == old(fixtures) + Pairings(round, if index <= |shuffled| then shuffled[..index] else shuffled)
      {
        var homeEntry := shuffled[index];
        var awayEntry := if index + 1 < |shuffled| then Some(shuffled[index + 1]) else None;
        ghost var longer := if index + 2 <= |shuffled| then shuffled[..index + 2] else shuffled;
        assert index + 2 <= |shuffled| ==> longer[..|longer| - 2] == shuffled[..index];
        assert index + 2 > |shuffled| ==> longer[..|longer| - 1] == shuffled[..index];
        fixtures := fixtures + [CupFixture(round, homeEntry, awayEntry, None)];
        index := index + 2;
      }
      assert shuffled[..|shuffled|] == shuffled;
    }

    method ActiveEntries() returns (active: seq<Id>)
      ensures active == ActiveIds(entries)
    {
      active := [];
      for i := 0 to |entries|
        invariant active == ActiveIds(entries[..i])
      {
        assert entries[..i + 1][..i] == entries[..i];
        if entries[i].status.Active? {
          active := active + [entries[i].id];
        }
      }
      assert entries[..|entries|] == entries;
    }

    method CurrentRound(matchday: int) returns (current: Option<nat>)
      ensures current == FindRound(rounds, matchday)
      ensures current.Some? ==> current.value < |rounds|
    {
      current := None;
      for i := 0 to |rounds|
        invariant current == FindRound(rounds[..i], matchday)
        invariant current.Some? ==> current.value < |rounds|
      {
        assert rounds[..i + 1][..i] == rounds[..i];
        if current.None? && rounds[i].matchdayNumber == matchday {
          current := Some(i);
        }
      }
      assert rounds[..|rounds|] == rounds;
    }

    // One undecided fixture: bye, higher score, or the tie-break on overall points (the home side on a full tie).
    method ResolveFixture(f: CupFixture, board: Board, average: int) returns (g: CupFixture)
      ensures g == f.(decision := Some(Decide(f, teams, board, average)))
    {
      if f.away.None? {
        return f.(decision := Some(Decision(PointsOf(f.home, teams, board.points, 0), None, f.home)));
      }
      var away := f.away.value;
      var homeScore := PointsOf(f.home, teams, board.points, average);
      var awayScore := PointsOf(away, teams, board.points, average);
      var winner;
      if homeScore > awayScore {
        winner := f.home;
      } else if awayScore > homeScore {
        winner := away;
      } else {
        var homeOverall := PointsOf(f.home, teams, board.overall, -1);
        var awayOverall := PointsOf(away, teams, board.overall, -1);
        winner := if homeOverall >= awayOverall then f.home else away;
      }
      g := f.(decision := Some(Decision(homeScore, Some(awayScore), winner)));
    }

    // Decide the fixtures of the current round in turn, eliminating each loser.
    method ResolveFixtures(current: nat, board: Board, average: int)
      modifies this`fixtures, this`entries
      ensures fixtures == DecideAll(old(fixtures), current, teams, board, average)
      ensures entries == Mark(old(entries), NewLosers(old(fixtures), fixtures), Eliminated)
    {
      ghost var before := fixtures;
      for i := 0 to |fixtures|
        invariant |fixtures| == |before|
        invariant forall j :: 0 <= j < i ==> fixtures[j] == DecideAll(before, current, teams, board, average)[j]
        invariant forall j :: i <= j < |before| ==> fixtures[j] == before[j]
        invariant entries == Mark(old(entries), LosersBelow(before, fixtures, i), Eliminated)
      {
        ghost var below := LosersBelow(before, fixtures, i);
        if fixtures[i].round == current && fixtures[i].decision.None? {
          var g := ResolveFixture(fixtures[i], board, average);
          fixtures := fixtures[i := g];
          assert LosersBelow(before, fixtures, i) == below;
          if g.away.Some? {
            var loser := if g.decision.value.winner == g.home then g.away.value else g.home;
            entries := Mark(entries, {loser}, Eliminated);
            MarkTwice(old(entries), below, {loser}, Eliminated);
          }
        }
        LosersStep(before, fixtures, i);
      }
      assert LosersBelow(before, fixtures, |fixtures|) == NewLosers(before, fixtures);
    }

    method ResolveRound(current: nat, active: seq<Id>, board: Board)
      requires current < |rounds|
      modifies this`fixtures, this`entries, this`rounds
      ensures Value() == PlayRound(old(Value()), active, current, board)
    {
      var average := AverageScore(Scores(active, teams, board.points));
      ResolveFixtures(current, board, average);
      rounds := rounds[current := rounds[current].(completed := true)];
    }

    method CollectWinners(current: nat) returns (winners: seq<Id>)
      ensures winners == Winners(fixtures, current)
    {
      winners := [];
      for i := 0 to |fixtures|
        invariant winners == Winners(fixtures[..i], current)
      {
        assert fixtures[..i + 1][..i] == fixtures[..i];
        if fixtures[i].round == current && fixtures[i].decision.Some? {
          winners := winners + [fixtures[i].decision.value.winner];
        }
      }
      assert fixtures[..|fixtures|] == fixtures;
    }

    method DrawFirstRound(matchday: int, active: seq<Id>, drawn: seq<Id>)
      requires active == ActiveIds(entries)
      modifies this`fixtures, this`rounds, this`status
      ensures Value() == Draw(old(Value()), matchday, drawn)
    {
      if |rounds| == 0 && |active| >= 2 {
        rounds := [Round(1, matchday, false)];
        CreateFixtures(0, drawn);
        status := Live;
      }
    }

    method CrownOrPair(current: nat, matchday: int, paired: seq<Id>)
      requires current < |rounds|
      modifies this`fixtures, this`rounds, this`status, this`entries
      ensures Value() == Advance(old(Value()), current, matchday, paired)
    {
      var winners := CollectWinners(current);
      if |winners| == 1 {
        entries := Mark(entries, {winners[0]}, Winner);
        status := Completed;
      } else if |winners| > 1 {
        var next := |rounds|;
        rounds := rounds + [Round(rounds[current].sequenceNumber + 1, matchday + 1, false)];
        CreateFixtures(next, paired);
      }
    }

    // One call for one matchday: the fantasy teams of the memberships are loaded anew. `drawn` and `paired` are the
    // outcomes of the two Math.random shuffles.
    method FinalizeMatchday(matchday: int, loaded: map<Id, Id>, board: Board, drawn: seq<Id>, paired: seq<Id>)
      requires Shuffles(Value().(teams := loaded), matchday, board, drawn, paired)
      modifies this
      ensures Value() == Finalize(old(Value()).(teams := loaded), matchday, board, drawn, paired)
    {
      teams := loaded;
      if status.Completed? {
        return;
      }
      var active := ActiveEntries();
      DrawFirstRound(matchday, active, drawn);
      var current := CurrentRound(matchday);
      if current.Some? {
        ResolveRound(current.value, active, board);
        CrownOrPair(current.value, matchday, paired);
      }
    }
  }
}
