/** What a manager is answered, and what an accepted operation stores: the conditions and the rows, spelled out. */
module TeamAnswers {
  import opened Wrappers
  import opened Squads
  import opened LawfulSquads
  import opened Picks
  import opened ChipState
  import opened TeamOps
  import opened ChipRules

  // ----- The lock -------------------------------------------------------------------------------------------

  // While the matchday is locked or missing no operation changes anything; only a transfer and a view still synchronise
  // the team, and a view is not refused.
  lemma {:induction false} LockedTeamStands(t: Team, env: Env, step: Step)
    requires env.access != Open && !step.LockCapture?
    ensures Perform(t, env, step)
         == Outcome(if step.Swap? || step.View? then Synced(t, env.current, env.now) else t,
                    if step.View? then None
                    else if env.access == Locked then Some(MatchdayLocked) else Some(MatchdayMissing))
  {
  }

  // ----- Captaincy --------------------------------------------------------------------------------------------

  ghost predicate Owns(picks: seq<Pick>, player: Id) {
    exists i :: 0 <= i < |picks| && picks[i].held.line.player == player
  }

  ghost predicate Fields(picks: seq<Pick>, player: Id) {
    exists i :: 0 <= i < |picks| && picks[i].held.line.player == player && !picks[i].held.line.benched
  }

  lemma {:induction false} OwnsFound(picks: seq<Pick>, player: Id)
    ensures Owns(picks, player) <==> Find(picks, player) < |picks|
  {
    if i :| 0 <= i < |picks| && picks[i].held.line.player == player {
      assert PlayerOf(picks[i]) == player;
    }
  }

  lemma {:induction false} FieldsFound(picks: seq<Pick>, player: Id)
    requires DistinctPlayers(picks)
    ensures Fields(picks, player)
       <==> Find(picks, player) < |picks| && !picks[Find(picks, player)].held.line.benched
  {
    if i :| 0 <= i < |picks| && picks[i].held.line.player == player && !picks[i].held.line.benched {
      assert PlayerOf(picks[i]) == player;
      assert Find(picks, player) == i;
    }
  }

  // What a request for the armbands is answered. So they change hands exactly when the matchday is open and both are
  // different players of the eleven.
  lemma {:induction false} CaptaincyAnswered(t: Team, env: Env, captain: Id, vice: Id)
    requires DistinctPlayers(Synced(t, env.current, env.now).picks)
    ensures var picks := Synced(t, env.current, env.now).picks;
            UpdateCaptaincy(t, env, captain, vice).verdict
            == if env.access == Missing then Some(MatchdayMissing)
               else if env.access == Locked then Some(MatchdayLocked)
               else if captain == vice then Some(SameCaptains)
               else if !Owns(picks, captain) || !Owns(picks, vice) then Some(CaptainNotOwned)
               else if !Fields(picks, captain) || !Fields(picks, vice) then Some(CaptainBenched)
               else None
  {
    var picks := Synced(t, env.current, env.now).picks;
    OwnsFound(picks, captain);
    OwnsFound(picks, vice);
    FieldsFound(picks, captain);
    FieldsFound(picks, vice);
  }

  // A refusal leaves the team as the synchronisation left it.
  lemma {:induction false} RefusalStoresNothing(t: Team, env: Env, step: Step)
    requires Perform(t, env, step).verdict.Some? && !step.Save?
    ensures Perform(t, env, step).team == t || Perform(t, env, step).team == Synced(t, env.current, env.now)
  {
  }

  // ----- Chips --------------------------------------------------------------------------------------------------

  // The activations of a chip.
  function Activations(activations: seq<Activation>, chip: Chip): set<int> {
    set i | 0 <= i < |activations| && activations[i].chip == chip
  }

  lemma {:induction false} UsesAreActivations(activations: seq<Activation>, chip: Chip)
    ensures Uses(activations, chip) == |Activations(activations, chip)|
  {
    if activations != [] {
      var front, last := activations[..|activations| - 1], activations[|activations| - 1];
      UsesAreActivations(front, chip);
      assert Activations(activations, chip)
          == Activations(front, chip) + if last.chip == chip then {|front|} else {};
    }
  }

  // What a request for a chip is answered: refused when another chip is set, or when the chip is not set and was stored
  // twice (Wildcard) or once (the others) already.
  lemma {:induction false} ActivationAnswered(t: Team, env: Env, chip: Chip)
    ensures var s := Synced(t, env.current, env.now);
            ActivateChip(t, env, chip).verdict
            == if env.access == Missing then Some(MatchdayMissing)
               else if env.access == Locked then Some(MatchdayLocked)
               else if s.row.chip.Some? && s.row.chip.value != chip then Some(OtherChipActive)
               else if s.row.chip == None && |Activations(s.activations, chip)| >= if chip == Wildcard then 2 else 1
               then Some(ChipUsed)
               else None
  {
    UsesAreActivations(Synced(t, env.current, env.now).activations, chip);
  }

  // What an activation that found no chip stores: the chip, one activation for the matchday, the tripled captain under
  // Triple Captain, and under the Free Hit a snapshot unless the matchday has one.
  lemma {:induction false} ActivationStored(t: Team, env: Env, chip: Chip)
    requires ActivateChip(t, env, chip).verdict == None && Synced(t, env.current, env.now).row.chip == None
    ensures var s, after := Synced(t, env.current, env.now), ActivateChip(t, env, chip).team;
            && after.row == s.row.(chip := Some(chip)) && after.transfers == s.transfers
            && after.activations
               == s.activations + [Activation(s.nextId, chip, true, env.now, None, Some(env.current))]
            && |after.picks| == |s.picks|
            && (forall i :: 0 <= i < |s.picks| ==>
                  after.picks[i]
                  == if chip != TripleCaptain then s.picks[i]
                     else s.picks[i].(held := s.picks[i].held.(
                            multiplier := if s.picks[i].held.line.captain then 3 else 1)))
            && after.snapshots
               == if chip == FreeHit && env.current !in s.snapshots
                  then s.snapshots[env.current := Snapshot(s.row, HeldOf(s.picks))] else s.snapshots
  {
  }

  // ----- Transfers --------------------------------------------------------------------------------------------------

  // What a request to transfer out of a lawful squad is answered. The checks of the positions of the new squad, and of
  // a player without one, refuse nothing.
  lemma {:induction false} TransferAnswered(t: Team, env: Env, incoming: Id, outgoing: Id)
    requires Lawful(LinesOf(Synced(t, env.current, env.now).picks), env.players)
    ensures var s := Synced(t, env.current, env.now);
            CreateTransfer(t, env, incoming, outgoing).verdict
            == if env.access == Missing then Some(MatchdayMissing)
               else if env.access == Locked then Some(MatchdayLocked)
               else if incoming == outgoing then Some(SamePlayer)
               else if !Owns(s.picks, outgoing) then Some(OutgoingNotOwned)
               else if incoming !in env.players then Some(IncomingNotFound)
               else if Owns(s.picks, incoming) then Some(IncomingOwned)
               else if outgoing !in env.players || env.players[incoming].position != env.players[outgoing].position
               then Some(OtherPosition)
               else if env.players[incoming].club != env.players[outgoing].club
                       && |LinesOfClub(LinesOf(s.picks), env.players[incoming].club, env.players)| == 3
               then Some(ClubLimit)
               else if s.row.budget + Of(s.picks, outgoing).value.held.sellPrice < env.players[incoming].price
               then Some(NoBudget)
               else None
  {
    var s := Synced(t, env.current, env.now);
    var lines, i := LinesOf(s.picks), Find(s.picks, outgoing);
    OwnsFound(s.picks, outgoing);
    OwnsFound(s.picks, incoming);
    CountBound(lines, Listed, env.players);
    if i < |s.picks| && incoming in env.players {
      assert lines[i].player == outgoing && Has(lines[i], Listed, env.players);
      ClubsCounted(lines, env.players[incoming].club, env.players);
      if env.players[incoming].position == env.players[outgoing].position {
        forall p
          ensures Count(LinesOf(Replaced(s.picks, i, incoming, env.players)), At(p), env.players) == Quota(p)
        {
          TransferKeepsCounts(s.picks, incoming, outgoing, env.players, At(p));
        }
        TransferredClubs(s.picks, incoming, outgoing, env.players);
      }
    }
  }

  function TransfersOf(transfers: seq<Transfer>, matchday: nat): set<int> {
    set i | 0 <= i < |transfers| && transfers[i].matchday == matchday
  }

  lemma {:induction false} UsedAreTransfers(transfers: seq<Transfer>, matchday: nat)
    ensures Used(transfers, matchday) == |TransfersOf(transfers, matchday)|
  {
    if transfers != [] {
      var front, last := transfers[..|transfers| - 1], transfers[|transfers| - 1];
      UsedAreTransfers(front, matchday);
      assert TransfersOf(transfers, matchday)
          == TransfersOf(front, matchday) + if last.matchday == matchday then {|front|} else {};
    }
  }

  // What an accepted transfer stores besides the picks: one transfer of the matchday, free under a Wildcard or Free Hit
  // and for the first ones of the matchday - as many as there are free transfers, at least one - and four points
  // otherwise; the free transfers left, counted from at least one; and the money.
  lemma {:induction false} TransferStored(t: Team, env: Env, incoming: Id, outgoing: Id)
    requires CreateTransfer(t, env, incoming, outgoing).verdict == None
    ensures var s, after := Synced(t, env.current, env.now), CreateTransfer(t, env, incoming, outgoing).team;
            var used := |TransfersOf(s.transfers, env.current)|;
            var free := if s.row.freeTransfers < 1 then 1 else s.row.freeTransfers;
            var unlimited := s.row.chip in {Some(Wildcard), Some(FreeHit)};
            && after.transfers
               == s.transfers + [Transfer(env.current, incoming, outgoing, if unlimited || used < free then 0 else 4)]
            && after.row.freeTransfers
               == (if unlimited then s.row.freeTransfers else if free > used + 1 then free - (used + 1) else 0)
            && Of(s.picks, outgoing).Some? && incoming in env.players
            && after.row == s.row.(
                 freeTransfers := after.row.freeTransfers,
                 budget := s.row.budget + Of(s.picks, outgoing).value.held.sellPrice - env.players[incoming].price)
            && after.activations == s.activations && after.snapshots == s.snapshots
  {
    UsedAreTransfers(Synced(t, env.current, env.now).transfers, env.current);
  }

  // ----- Labels -----------------------------------------------------------------------------------------------------

  // In an open matchday the name and the formation of a request are stored even when its picks are refused; nothing
  // else of the row changes.
  lemma {:induction false} LabelsStored(t: Team, env: Env, request: SaveRequest)
    requires env.access == Open
    ensures var s, after := Synced(t, env.current, env.now), UpdateTeam(t, env, request);
            && after.team.row
               == s.row.(name := if request.name == None then s.row.name else request.name.value,
                         formation := if request.formation == None then s.row.formation else request.formation.value)
            && (after.verdict == None <==> request.lines == [] || ValidatePicks(request.lines, env.players) == None)
            && (request.lines == [] || after.verdict != None ==> after.team.picks == s.picks)
  {
  }

  // The deactivation of a chip in an open matchday: no chip, the captain doubled, nothing active; and one activation of
  // the chip less exactly when it was active for the matchday.
  lemma {:induction false} DeactivationStored(t: Team, env: Env)
    requires env.access == Open && t.row.chip.Some?
    ensures var after := DeactivateChip(t, env).team;
            && DeactivateChip(t, env).verdict == None
            && after.row == t.row.(chip := None) && after.transfers == t.transfers && after.snapshots == t.snapshots
            && (forall j :: 0 <= j < |after.activations| ==> !after.activations[j].active)
            && |after.picks| == |t.picks|
            && (forall i :: 0 <= i < |t.picks| ==>
                  after.picks[i] == t.picks[i].(held := t.picks[i].held.(
                                      multiplier := if t.picks[i].held.line.captain then 2 else 1)))
            && forall c ::
                 |Activations(after.activations, c)|
                 == |Activations(t.activations, c)|
                    - if c == t.row.chip.value && ActiveFor(t.activations, c, env.current) then 1 else 0
  {
    var after := DeactivateChip(t, env).team;
    forall c
      ensures |Activations(after.activations, c)|
           == |Activations(t.activations, c)|
              - if c == t.row.chip.value && ActiveFor(t.activations, c, env.current) then 1 else 0
    {
      DeactivateUses(t, env, c);
      UsesAreActivations(after.activations, c);
      UsesAreActivations(t.activations, c);
      if GivesBack(t, env, Deactivate, c) {
        var i :| 0 <= i < |t.activations| && Cancels(t.activations[i], c, env.current);
      }
      if ActiveFor(t.activations, c, env.current) {
        var i :| && 0 <= i < |t.activations| && t.activations[i].chip == c && t.activations[i].active
                 && t.activations[i].matchday == Some(env.current);
        assert Cancels(t.activations[i], c, env.current);
      }
    }
  }

  ghost predicate ActiveFor(activations: seq<Activation>, chip: Chip, matchday: nat) {
    exists i ::
      && 0 <= i < |activations| && activations[i].chip == chip && activations[i].active
      && activations[i].matchday == Some(matchday)
  }
}
