/** A sample season: the squad of a new team, and how its Free Hit goes wrong. */
module SampleSeason {
  import opened Wrappers
  import opened Squads
  import opened Picks
  import opened ChipState
  import opened TeamOps
  import opened ChipRules
  import opened SquadRuns
  import opened FreeHitEnds

  // ----- Fifteen players --------------------------------------------------------------------------

  // 4-4-2 in the first eleven places, one substitute of each position after it; everybody has a club of his own.
  function PositionAt(i: nat): Position {
    if i == 0 || i == 11 then Goalkeeper
    else if i <= 4 || i == 12 then Defender
    else if i <= 8 || i == 13 then Midfielder
    else Forward
  }

  function LineAt(i: nat): Line {
    Line(i, i + 1, i == 5, i == 6, i >= 11)
  }

  // Player 15 is a cheaper forward.
  const PLAYERS: Catalog := map id: nat | id < 16 :: Player(PositionAt(id), id, if id == 15 then 400 else 500)

  const LINES: seq<Line> := seq(15, (i: int) requires i >= 0 => LineAt(i))

  function Overlap(lo: int, a: int, b: int): int {
    Max(0, b - Max(a, lo))
  }

  // A feature that holds on two ranges of places.
  lemma {:induction false} CountRanges(f: Feature, lo: nat, a: nat, b: nat, c: nat, d: nat)
    requires lo <= 15 && a <= b <= c <= d <= 15
    requires forall i :: 0 <= i < 15 ==> (Has(LINES[i], f, PLAYERS) <==> a <= i < b || c <= i < d)
    ensures Count(LINES[lo..], f, PLAYERS) == Overlap(lo, a, b) + Overlap(lo, c, d)
    decreases 15 - lo
  {
    if lo < 15 {
      CountRanges(f, lo + 1, a, b, c, d);
      assert LINES[lo..][1..] == LINES[lo + 1..];
    }
  }

  lemma {:induction false} CountAt(f: Feature, a: nat, b: nat, c: nat, d: nat)
    requires a <= b <= c <= d <= 15
    requires forall i :: 0 <= i < 15 ==> (Has(LINES[i], f, PLAYERS) <==> a <= i < b || c <= i < d)
    ensures Count(LINES, f, PLAYERS) == (b - a) + (d - c)
  {
    CountRanges(f, 0, a, b, c, d);
    assert LINES[0..] == LINES;
  }

  lemma {:induction false} PositionsCounted(p: Position)
    ensures Count(LINES, At(p), PLAYERS) == Quota(p)
    ensures Count(LINES, StarterAt(p), PLAYERS) == Quota(p) - 1
  {
    match p
    case Goalkeeper => CountAt(At(p), 0, 1, 11, 12); CountAt(StarterAt(p), 0, 1, 1, 1);
    case Defender => CountAt(At(p), 1, 5, 12, 13); CountAt(StarterAt(p), 1, 5, 5, 5);
    case Midfielder => CountAt(At(p), 5, 9, 13, 14); CountAt(StarterAt(p), 5, 9, 9, 9);
    case Forward => CountAt(At(p), 9, 11, 14, 15); CountAt(StarterAt(p), 9, 11, 11, 11);
  }

  lemma {:induction false} EachOnce(id: Id)
    ensures Count(LINES, IsPlayer(id), PLAYERS) == if id < 15 then 1 else 0
    ensures Count(LINES, OfClub(id), PLAYERS) == if id < 15 then 1 else 0
    ensures 1 <= id <= 15 ==> Count(LINES, HasOrder(id), PLAYERS) == 1
  {
    var a := Min(id, 15);
    var b := Min(id + 1, 15);
    CountAt(IsPlayer(id), a, b, b, b);
    CountAt(OfClub(id), a, b, b, b);
    if 1 <= id <= 15 {
      CountAt(HasOrder(id), id - 1, id, id, id);
    }
  }

  lemma {:induction false} SampleRoles()
    ensures RolesLawful(LINES, PLAYERS)
  {
    CountAt(Captain, 5, 6, 6, 6);
    CountAt(Vice, 6, 7, 7, 7);
    CountAt(Dual, 0, 0, 0, 0);
    CountAt(BenchedRole, 0, 0, 0, 0);
  }

  lemma {:induction false} SampleEleven()
    ensures ElevenLawful(LINES, PLAYERS)
  {
    CountAt(Starter, 0, 11, 11, 11);
    PositionsCounted(Goalkeeper);
    PositionsCounted(Defender);
    PositionsCounted(Midfielder);
    PositionsCounted(Forward);
  }

  lemma {:induction false} SampleIsLawful()
    ensures Lawful(LINES, PLAYERS)
  {
    CountAt(Listed, 0, 15, 15, 15);
    SampleRoles();
    SampleEleven();
    forall id: Id
      ensures Count(LINES, IsPlayer(id), PLAYERS) <= 1 && Count(LINES, OfClub(id), PLAYERS) <= 3
      ensures 1 <= id <= 15 ==> Count(LINES, HasOrder(id), PLAYERS) == 1
    {
      EachOnce(id);
    }
    forall p
      ensures Count(LINES, At(p), PLAYERS) == Quota(p)
    {
      PositionsCounted(p);
    }
  }

  lemma {:induction false} SampleValue(lo: nat)
    requires lo <= 15
    ensures Value(LINES[lo..], PLAYERS) == 500 * (15 - lo)
    decreases 15 - lo
  {
    if lo < 15 {
      SampleValue(lo + 1);
      assert LINES[lo..][1..] == LINES[lo + 1..];
    }
  }

  lemma {:induction false} SampleIsAccepted()
    ensures ValidatePicks(LINES, PLAYERS) == None
  {
    SampleIsLawful();
    SampleValue(0);
    assert LINES[0..] == LINES;
    ValidationIsExact(LINES, PLAYERS);
  }

  // ----- The team after its first save ----------------------------------------------------------------

  // As the sign-up stores it.
  const SIGNED_UP := Team(Row("Sample", "4-4-2", 10000, 10000, 0, 1, None), [], [], map[], [], 1)
  const FIRST := Env(1, Open, PLAYERS, 0)
  const SECOND := Env(2, Open, PLAYERS, 1)
  const SAVE := SaveRequest(None, None, LINES)
  const SAVED := UpdateTeam(SIGNED_UP, FIRST, SAVE).team

  lemma {:induction false} SavedState()
    ensures UpdateTeam(SIGNED_UP, FIRST, SAVE).verdict == None
    ensures SAVED.row == SIGNED_UP.row && SAVED.activations == [] && SAVED.snapshots == map[] && SAVED.transfers == []
    ensures AllListed(LINES, PLAYERS) && SAVED.picks == SavedSquad([], LINES, 2, PLAYERS, 1)
  {
    SampleIsAccepted();
    assert Sync(SIGNED_UP, FIRST) == SIGNED_UP;
  }

  lemma {:induction false} SavedSquadFacts()
    ensures multiset(LinesOf(SAVED.picks)) == multiset(LINES) && Lawful(LinesOf(SAVED.picks), PLAYERS)
    ensures forall id: Id :: id < 15 ==> Of(SAVED.picks, id).Some? && Of(SAVED.picks, id).value.held.line == LINES[id]
                                         && Of(SAVED.picks, id).value.held.sellPrice == PLAYERS[id].price
  {
    SavedState();
    SampleIsAccepted();
    AcceptedSave([], LINES, 2, PLAYERS, 1);
    forall id: Id | id < 15
      ensures Of(SAVED.picks, id).Some? && Of(SAVED.picks, id).value.held.line == LINES[id]
              && Of(SAVED.picks, id).value.held.sellPrice == PLAYERS[id].price
    {
      assert LINES[id].player == id;
      assert StoredAs(Of(SAVED.picks, LINES[id].player), LINES[id], Of([], LINES[id].player), 2, PLAYERS);
    }
  }

  // Nothing special about it: it meets every invariant of the runs, and a Free Hit may start.
  lemma {:induction false} SavedFollowsRules()
    ensures ChipsFollowRules(SAVED)
  {
    SaveKeepsRules(SIGNED_UP, FIRST, SAVE);
  }

  lemma {:induction false} SavedIsLawful()
    ensures SquadsOk(SAVED, PLAYERS)
  {
    SavedState();
    SavedSquadFacts();
  }

  lemma {:induction false} SavedMayStart()
    ensures Normal(SAVED, 1) && Sync(SAVED, FIRST) == SAVED && Starts(SAVED, FIRST)
  {
    SavedState();
    SyncOfNormal(SAVED, 1, 0);
  }

  // Player 15 may replace player 14.
  lemma {:induction false} SampleTransferAccepted()
    ensures CheckTransfer(SAVED.picks, 10000, 15, 14, PLAYERS) == None
  {
    SavedSquadFacts();
    assert Of(SAVED.picks, 14).Some? && Of(SAVED.picks, 14).value.held.sellPrice == 500;
    TransferFits(SAVED.picks);
  }

  lemma {:induction false} TransferFits(picks: seq<Pick>)
    requires multiset(LinesOf(picks)) == multiset(LINES) && Lawful(LinesOf(picks), PLAYERS)
    requires Of(picks, 14).Some? && Of(picks, 14).value.held.sellPrice == 500
    ensures CheckTransfer(picks, 10000, 15, 14, PLAYERS) == None
  {
    NobodyOfClub15(picks);
    TransferAcceptedExactlyWhen(picks, 10000, 15, 14, PLAYERS);
  }

  lemma {:induction false} NobodyOfClub15(picks: seq<Pick>)
    requires multiset(LinesOf(picks)) == multiset(LINES)
    ensures Find(picks, 15) == |picks| && Count(LinesOf(picks), OfClub(15), PLAYERS) == 0
  {
    forall i | 0 <= i < |picks|
      ensures PlayerOf(picks[i]) != 15
    {
      assert LinesOf(picks)[i] in multiset(LINES);
    }
    CountPermuted(LinesOf(picks), LINES, OfClub(15), PLAYERS);
    EachOnce(15);
  }

  lemma {:induction false} SampleSwapAccepted()
    ensures CreateTransfer(Started(SAVED, FIRST), FIRST, 15, 14).verdict == None
  {
    SavedState();
    SavedMayStart();
    SampleTransferAccepted();
    StartIsPlayed(SAVED, FIRST);
    SyncDuring(Started(SAVED, FIRST), FIRST);
  }

  // ----- What goes wrong ----------------------------------------------------------------------------

  // The Free Hit of the first matchday ends in the second: the squad is back, and with it a million it never had.
  lemma {:induction false} SampleMoneySurvives()
    ensures SquadsOk(SAVED, PLAYERS)
    ensures var after := Run(SAVED, [(FIRST, Activate(FreeHit)), (FIRST, Swap(15, 14)), (SECOND, View)]);
            HeldOf(after.picks) == HeldOf(SAVED.picks) && after.row.budget == 10100 && SAVED.row.budget == 10000
  {
    SavedState();
    SavedSquadFacts();
    SavedMayStart();
    SampleSwapAccepted();
    SavedIsLawful();
    MoneySurvivesFreeHit(SAVED, FIRST, SECOND, 15, 14);
    assert Of(SAVED.picks, 14).Some?;
  }

  // Deactivated before anything else in the second matchday, it leaves its squad for good. Deactivated in the first,
  // it leaves its squad and can be played again.
  lemma {:induction false} SamplePlayerSurvives()
    ensures var late := Run(SAVED, [(FIRST, Activate(FreeHit)), (FIRST, Swap(15, 14)), (SECOND, Deactivate)]);
            && Find(late.picks, 15) < |late.picks| && Find(SAVED.picks, 15) == |SAVED.picks|
            && NoneActive(late.activations) && Uses(late.activations, FreeHit) == 1
    ensures var early := Run(SAVED, [(FIRST, Activate(FreeHit)), (FIRST, Swap(15, 14)), (FIRST, Deactivate)]);
            && Find(early.picks, 15) < |early.picks| && early.transfers == [Transfer(1, 15, 14, 0)]
            && Uses(early.activations, FreeHit) == 0
  {
    SavedState();
    SavedMayStart();
    SampleSwapAccepted();
    PlayerSurvivesDeactivation(SAVED, FIRST, SECOND, 15, 14);
    PlayerSurvivesDeactivation(SAVED, FIRST, FIRST, 15, 14);
  }

  // Locked under Triple Captain and played as a Free Hit afterwards, it ends with a captain who counts three times.
  lemma {:induction false} SampleTriples()
    ensures var end := Run(SAVED, [(FIRST, Activate(TripleCaptain)), (FIRST, LockCapture), (FIRST, Deactivate),
                                   (FIRST, Activate(FreeHit)), (SECOND, View)]);
            end.row.chip == None && !MultipliersRight(end)
  {
    SavedState();
    SavedSquadFacts();
    SavedMayStart();
    SavedFollowsRules();
    ReusedSnapshotTriples(SAVED, FIRST, SECOND);
    assert Of(SAVED.picks, 5).Some?;
    assert SAVED.picks[Find(SAVED.picks, 5)].held.line.captain;
  }
}
