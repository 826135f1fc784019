/** The scores a finalisation stores on the fixtures of the cup, and who advances, read off the boards. */
module CupScores {
  import opened Wrappers
  import opened Average
  import opened Cup

  // What the board shows for an entry: the points of its team, zero for a team the board does not list, and `none`
  // for an entry without a team.
  ghost predicate Shows(points: map<Id, int>, teams: map<Id, Id>, e: Id, none: int, score: int) {
    if e !in teams then score == none
    else if teams[e] !in points then score == 0
    else score == points[teams[e]]
  }

  ghost predicate ShowsAll(points: map<Id, int>, teams: map<Id, Id>, es: seq<Id>, scores: seq<int>) {
    |scores| == |es| && forall i :: 0 <= i < |es| ==> Shows(points, teams, es[i], 0, scores[i])
  }

  // The entries still active, in stored order.
  ghost function ActiveEntriesOf(entries: seq<Entry>): seq<Id> {
    if entries == [] then []
    else
      var last := entries[|entries| - 1];
      ActiveEntriesOf(entries[..|entries| - 1]) + if last.status == Active then [last.id] else []
  }

  // The integer nearest to the mean of what the board shows for the active entries, halves going up; zero for none.
  ghost predicate IsAverage(c: State, board: Board, average: int) {
    exists scores ::
      && ShowsAll(board.points, c.teams, ActiveEntriesOf(c.entries), scores)
      && (if scores == [] then average == 0
          else -|scores| < 2 * (SumOf(scores) - average * |scores|) + 1 <= |scores|)
  }

  lemma {:induction false} ActiveAre(entries: seq<Entry>)
    ensures ActiveIds(entries) == ActiveEntriesOf(entries)
  {
    if entries != [] {
      ActiveAre(entries[..|entries| - 1]);
    }
  }

  // How a fixture is decided. A bye stores what the board shows for the home side, zero without a team. Otherwise
  // both scores are stored, a side without a team with the average. The side with more points advances; on a tie the
  // one with more points overall, a side without a team coming last; on a full tie the home side.
  ghost predicate DecidedBy(f: CupFixture, g: CupFixture, teams: map<Id, Id>, board: Board, average: int) {
    && g.decision.Some? && g == f.(decision := g.decision)
    && var d := g.decision.value;
       match f.away
       case None => Shows(board.points, teams, f.home, 0, d.homeScore) && d.awayScore == None && d.winner == f.home
       case Some(away) =>
         && Shows(board.points, teams, f.home, average, d.homeScore)
         && d.awayScore.Some? && Shows(board.points, teams, away, average, d.awayScore.value)
         && (d.homeScore > d.awayScore.value ==> d.winner == f.home)
         && (d.awayScore.value > d.homeScore ==> d.winner == away)
         && (d.homeScore == d.awayScore.value ==> TieBroken(f.home, away, teams, board.overall, d.winner))
  }

  ghost predicate TieBroken(home: Id, away: Id, teams: map<Id, Id>, overall: map<Id, int>, winner: Id) {
    forall h, a :: Shows(overall, teams, home, -1, h) && Shows(overall, teams, away, -1, a) ==>
      winner == if a > h then away else home
  }

  lemma {:induction false} DecideDecides(f: CupFixture, teams: map<Id, Id>, board: Board, average: int)
    ensures DecidedBy(f, f.(decision := Some(Decide(f, teams, board, average))), teams, board, average)
  {
  }

  lemma {:induction false} AverageIs(c: State, board: Board)
    ensures IsAverage(c, board,
                      Rounded(SumOf(Scores(ActiveIds(c.entries), c.teams, board.points)), |ActiveIds(c.entries)|))
  {
    var scores := Scores(ActiveIds(c.entries), c.teams, board.points);
    ActiveAre(c.entries);
    assert ShowsAll(board.points, c.teams, ActiveEntriesOf(c.entries), scores);
    if scores != [] {
      RoundedIsNearest(SumOf(scores), |scores|);
    }
  }

  // The round of the matchday, once there is one.
  ghost predicate IsRoundOf(rounds: seq<Round>, matchday: int, k: nat) {
    && k < |rounds| && rounds[k].matchdayNumber == matchday
    && forall j :: 0 <= j < k ==> rounds[j].matchdayNumber != matchday
  }

  lemma {:induction false} RoundIsFound(rounds: seq<Round>, matchday: int, k: nat)
    requires IsRoundOf(rounds, matchday, k)
    ensures FindRound(rounds, matchday) == Some(k)
  {
    if k < |rounds| - 1 {
      RoundIsFound(rounds[..|rounds| - 1], matchday, k);
    } else {
      FindRoundInRange(rounds[..|rounds| - 1], matchday);
    }
  }

  // A finalisation of a cup with a round for the matchday, drawn now or before: every open fixture of the round is
  // decided by the boards, and every other fixture stays.
  lemma {:induction false} StoredScores(c: State, matchday: int, board: Board, drawn: seq<Id>, paired: seq<Id>, k: nat,
                                        i: nat)
    requires c.status != Completed
    requires var started := Draw(c, matchday, drawn);
             IsRoundOf(started.rounds, matchday, k) && i < |started.fixtures|
    ensures var f := Draw(c, matchday, drawn).fixtures[i];
            var after := Finalize(c, matchday, board, drawn, paired);
            && i < |after.fixtures|
            && (f.round != k || f.decision.Some? ==> after.fixtures[i] == f)
            && (f.round == k && f.decision.None? ==>
                  exists average :: IsAverage(c, board, average)
                    && DecidedBy(f, after.fixtures[i], c.teams, board, average))
  {
    var started := Draw(c, matchday, drawn);
    var f := started.fixtures[i];
    RoundIsFound(started.rounds, matchday, k);
    var average := Rounded(SumOf(Scores(ActiveIds(c.entries), c.teams, board.points)), |ActiveIds(c.entries)|);
    AverageIs(c, board);
    DecideDecides(f, c.teams, board, average);
  }

  // The draw of the first round: the shuffled entries meet two by two in the given order, an odd one has a bye.
  lemma {:induction false} DrawnPairs(c: State, matchday: int, drawn: seq<Id>, j: nat)
    requires c.rounds == [] && |ActiveEntriesOf(c.entries)| >= 2 && 2 * j < |drawn|
    ensures var started := Draw(c, matchday, drawn);
            && started.rounds == [Round(1, matchday, false)] && started.status == Live
            && |started.fixtures| == |c.fixtures| + (|drawn| + 1) / 2
            && started.fixtures[|c.fixtures| + j]
               == CupFixture(0, drawn[2 * j], if 2 * j + 1 < |drawn| then Some(drawn[2 * j + 1]) else None, None)
  {
    ActiveAre(c.entries);
    PairsAt(0, drawn, j);
  }

  lemma {:induction false} PairsAt(round: nat, shuffled: seq<Id>, j: nat)
    requires 2 * j < |shuffled|
    ensures |Pairings(round, shuffled)| == (|shuffled| + 1) / 2
    ensures Pairings(round, shuffled)[j]
         == CupFixture(round, shuffled[2 * j], if 2 * j + 1 < |shuffled| then Some(shuffled[2 * j + 1]) else None, None)
  {
    var step := if |shuffled| % 2 == 1 then 1 else 2;
    var front := shuffled[..|shuffled| - step];
    if 2 * j < |front| {
      PairsAt(round, front, j);
    } else if front != [] {
      PairsAt(round, front, 0);
    }
  }

  // ----- What else a finalisation stores ------------------------------------------------------------------

  function InRound(fs: seq<CupFixture>, k: nat): nat {
    if fs == [] then 0 else InRound(fs[..|fs| - 1], k) + if fs[|fs| - 1].round == k then 1 else 0
  }

  lemma {:induction false} WinnersCounted(fs: seq<CupFixture>, k: nat)
    requires forall i :: 0 <= i < |fs| && fs[i].round == k ==> fs[i].decision.Some?
    ensures |Winners(fs, k)| == InRound(fs, k)
  {
    if fs != [] {
      WinnersCounted(fs[..|fs| - 1], k);
    }
  }

  lemma {:induction false} DecidedRound(fs: seq<CupFixture>, k: nat, teams: map<Id, Id>, board: Board, average: int)
    ensures InRound(DecideAll(fs, k, teams, board, average), k) == InRound(fs, k)
  {
    if fs != [] {
      DecidedRound(fs[..|fs| - 1], k, teams, board, average);
      assert DecideAll(fs, k, teams, board, average)[..|fs| - 1] == DecideAll(fs[..|fs| - 1], k, teams, board, average);
    }
  }

  // The round is played, and its winners advance.
  lemma {:induction false} FinalizeAdvances(c: State, matchday: int, board: Board, drawn: seq<Id>, paired: seq<Id>,
                                            k: nat)
    returns (decided: seq<CupFixture>, average: int)
    requires c.status != Completed && IsRoundOf(Draw(c, matchday, drawn).rounds, matchday, k)
    ensures var started := Draw(c, matchday, drawn);
            && decided == DecideAll(started.fixtures, k, c.teams, board, average)
            && |Winners(decided, k)| == InRound(started.fixtures, k)
            && Finalize(c, matchday, board, drawn, paired)
               == Advance(started.(
                            fixtures := decided,
                            entries := Mark(c.entries, NewLosers(started.fixtures, decided), Eliminated),
                            rounds := started.rounds[k := started.rounds[k].(completed := true)]), k, matchday, paired)
            && decided <= Finalize(c, matchday, board, drawn, paired).fixtures
  {
    var started := Draw(c, matchday, drawn);
    var active := ActiveIds(c.entries);
    average := Rounded(SumOf(Scores(active, c.teams, board.points)), |active|);
    decided := DecideAll(started.fixtures, k, c.teams, board, average);
    RoundIsFound(started.rounds, matchday, k);
    WinnersCounted(decided, k);
    DecidedRound(started.fixtures, k, c.teams, board, average);
  }

  function Played(c: State, k: nat): seq<Round>
    requires k < |c.rounds|
  {
    c.rounds[k := c.rounds[k].(completed := true)]
  }

  // The cup ends with this round.
  ghost predicate Ends(started: State, after: State, k: nat)
    requires k < |started.rounds|
  {
    after.status == Completed && after.rounds == Played(started, k) && |after.fixtures| == |started.fixtures|
  }

  // The next round, on the next matchday, pairs these entries two by two, an odd one with a bye.
  ghost predicate GoesOn(started: State, after: State, k: nat, matchday: int, paired: seq<Id>)
    requires k < |started.rounds|
  {
    && after.status == started.status
    && after.rounds == Played(started, k) + [Round(started.rounds[k].sequenceNumber + 1, matchday + 1, false)]
    && |after.fixtures| == |started.fixtures| + (|paired| + 1) / 2
    && forall j :: 0 <= 2 * j < |paired| ==>
         after.fixtures[|started.fixtures| + j]
         == CupFixture(|started.rounds|, paired[2 * j],
                       if 2 * j + 1 < |paired| then Some(paired[2 * j + 1]) else None, None)
  }

  lemma {:induction false} AdvanceGoesOn(started: State, decided: State, k: nat, matchday: int, paired: seq<Id>)
    requires k < |started.rounds| && |Winners(decided.fixtures, k)| > 1
    requires decided.rounds == Played(started, k) && |decided.fixtures| == |started.fixtures|
    requires decided.status == started.status
    ensures GoesOn(started, Advance(decided, k, matchday, paired), k, matchday, paired)
  {
    var n, next := |started.fixtures|, Pairings(|started.rounds|, paired);
    var after := Advance(decided, k, matchday, paired);
    assert after.fixtures == decided.fixtures + next;
    forall j | 0 <= 2 * j < |paired|
      ensures j < |next| && after.fixtures[n + j] == next[j]
      ensures next[j] == CupFixture(|started.rounds|, paired[2 * j],
                                    if 2 * j + 1 < |paired| then Some(paired[2 * j + 1]) else None, None)
    {
      PairsAt(|started.rounds|, paired, j);
    }
    if paired != [] {
      PairsAt(|started.rounds|, paired, 0);
    }
  }

  // The round is marked completed. With more than one fixture in it the cup goes on with what was shuffled; with one it
  // ends.
  lemma {:induction false} StoredRounds(c: State, matchday: int, board: Board, drawn: seq<Id>, paired: seq<Id>, k: nat)
    requires c.status != Completed && IsRoundOf(Draw(c, matchday, drawn).rounds, matchday, k)
    ensures var started, after := Draw(c, matchday, drawn), Finalize(c, matchday, board, drawn, paired);
            && (InRound(started.fixtures, k) == 1 ==> Ends(started, after, k))
            && (InRound(started.fixtures, k) > 1 ==> GoesOn(started, after, k, matchday, paired))
  {
    var started := Draw(c, matchday, drawn);
    var decided, average := FinalizeAdvances(c, matchday, board, drawn, paired, k);
    if InRound(started.fixtures, k) > 1 {
      var played := started.(fixtures := decided, rounds := Played(started, k),
                             entries := Mark(c.entries, NewLosers(started.fixtures, decided), Eliminated));
      AdvanceGoesOn(started, played, k, matchday, paired);
    }
  }

  // An open fixture of the round that this entry lost.
  ghost predicate LostOpen(before: seq<CupFixture>, after: seq<CupFixture>, k: nat, e: Id) {
    exists i ::
      && 0 <= i < |before| <= |after| && before[i].round == k && before[i].decision.None? && before[i].away.Some?
      && (e == before[i].home || Some(e) == before[i].away)
      && after[i].decision.Some? && after[i].decision.value.winner != e
  }

  // The losers of the round are eliminated, the winner of its only fixture wins the cup, and nobody else changes.
  lemma {:induction false} StoredStatuses(c: State, matchday: int, board: Board, drawn: seq<Id>, paired: seq<Id>,
                                          k: nat, j: nat)
    requires c.status != Completed && IsRoundOf(Draw(c, matchday, drawn).rounds, matchday, k) && j < |c.entries|
    requires forall f :: f in Draw(c, matchday, drawn).fixtures ==> f.away != Some(f.home)
    ensures var started, after := Draw(c, matchday, drawn), Finalize(c, matchday, board, drawn, paired);
            var e := c.entries[j];
            && |after.entries| == |c.entries| && after.entries[j].id == e.id
            && (InRound(started.fixtures, k) != 1 ==>
                  after.entries[j].status
                  == if LostOpen(started.fixtures, after.fixtures, k, e.id) then Eliminated else e.status)
            && (InRound(started.fixtures, k) == 1 ==>
                  exists i ::
                    && 0 <= i < |started.fixtures| <= |after.fixtures| && started.fixtures[i].round == k
                    && after.fixtures[i].decision.Some?
                    && after.entries[j].status
                       == if after.fixtures[i].decision.value.winner == e.id then Winner
                          else if LostOpen(started.fixtures, after.fixtures, k, e.id) then Eliminated else e.status)
  {
    var started, after := Draw(c, matchday, drawn), Finalize(c, matchday, board, drawn, paired);
    var decided, average := FinalizeAdvances(c, matchday, board, drawn, paired, k);
    LosersAre(started.fixtures, decided, after.fixtures, k, c.teams, board, average, c.entries[j].id);
    if InRound(started.fixtures, k) == 1 {
      var i := OnlyWinner(decided, k);
    }
  }

  lemma {:induction false} LosersAre(before: seq<CupFixture>, decided: seq<CupFixture>, after: seq<CupFixture>, k: nat,
                                     teams: map<Id, Id>, board: Board, average: int, e: Id)
    requires decided == DecideAll(before, k, teams, board, average) && decided <= after
    requires forall f :: f in before ==> f.away != Some(f.home)
    ensures e in NewLosers(before, decided) <==> LostOpen(before, after, k, e)
  {
    forall i | 0 <= i < |before|
      ensures before[i].away != Some(before[i].home)
    {
      assert before[i] in before;
    }
    if e in NewLosers(before, decided) {
      var i :| 0 <= i < |decided| && before[i].decision.None? && Loser(decided[i]) == Some(e);
      assert after[i] == decided[i];
    }
    if LostOpen(before, after, k, e) {
      var i :| && 0 <= i < |before| <= |after| && before[i].round == k && before[i].decision.None?
               && before[i].away.Some? && (e == before[i].home || Some(e) == before[i].away)
               && after[i].decision.Some? && after[i].decision.value.winner != e;
      assert after[i] == decided[i] && Loser(decided[i]) == Some(e);
    }
  }

  lemma {:induction false} OnlyWinner(fs: seq<CupFixture>, k: nat) returns (i: nat)
    requires |Winners(fs, k)| == 1
    ensures i < |fs| && fs[i].round == k && fs[i].decision.Some? && Winners(fs, k)[0] == fs[i].decision.value.winner
  {
    var last := |fs| - 1;
    if fs[last].round == k && fs[last].decision.Some? {
      i := last;
    } else {
      i := OnlyWinner(fs[..last], k);
    }
  }
}
