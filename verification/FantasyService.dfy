/** The fantasy service on the stored rows of one team: the loops and saves of the source, proved against the
    functions of ChipState and TeamOps. */
module FantasyService {
  import opened Wrappers
  import opened Squads
  import opened Picks
  import opened ChipState
  import opened TeamOps
  import opened ChipRules

  // ----- What the methods rely on ---------------------------------------------------------------

  function CountActive(activations: seq<Activation>): nat {
    if activations == [] then 0
    else CountActive(activations[..|activations| - 1]) + if activations[|activations| - 1].active then 1 else 0
  }

  // Every activation that is retired is one less to synchronise.
  lemma {:induction false} RetiringReduces(activations: seq<Activation>, keep: Option<Id>, now: int)
    ensures var r := RetireAllBut(activations, keep, now);
            && CountActive(r) <= CountActive(activations)
            && ((exists i :: 0 <= i < |activations| && activations[i].active && Some(activations[i].id) != keep) ==>
                  CountActive(r) < CountActive(activations))
  {
    if activations != [] {
      var last := |activations| - 1;
      RetiringReduces(activations[..last], keep, now);
      assert RetireAllBut(activations, keep, now)[..last] == RetireAllBut(activations[..last], keep, now);
    }
  }

  lemma {:induction false} RetireAgain(activations: seq<Activation>, keep: Option<Id>, now: int)
    ensures RetireAllBut(RetireAllBut(activations, keep, now), None, now) == RetireAllBut(activations, None, now)
  {
  }

  // What is left to do once the stale activations are retired, and that synchronising after it does nothing more.
  lemma {:induction false} SyncBranches(t: Team, chosen: Option<Activation>, keep: Option<Id>, current: nat, now: int)
    requires DistinctIds(t.activations) && t.row.chip.Some? && chosen == Chosen(t.activations, t.row.chip.value)
    requires keep == if chosen.Some? then Some(chosen.value.id) else None
    ensures var r := RetireAllBut(t.activations, keep, now);
            && Synced(Synced(t, current, now), current, now) == Synced(t, current, now)
            && (chosen.Some? ==> chosen.value.chip == t.row.chip.value)
            && (chosen.None? ==> Synced(t, current, now) == t.(row := t.row.(chip := None), activations := r))
            && (chosen.Some? && !Expired(chosen.value, current) ==> Synced(t, current, now) == t.(activations := r))
            && (chosen.Some? && Expired(chosen.value, current) ==>
                  Synced(t, current, now)
                  == Ended(t.(activations := r), chosen.value.chip, chosen.value.matchday.value)
                     .(activations := RetireAllBut(r, None, now)))
  {
    ChosenFacts(t.activations, t.row.chip.value);
    SyncIsIdempotent(t, current, now, now);
    RetireAgain(t.activations, keep, now);
  }

  lemma {:induction false} RetiredIds(activations: seq<Activation>, keep: Option<Id>, now: int, id: Id)
    requires IdsBelow(activations, id)
    ensures IdsBelow(RetireAllBut(activations, keep, now), id)
  {
  }

  // Active activations other than the chosen one.
  function Stale(activations: seq<Activation>, keep: Option<Id>): seq<Activation> {
    if activations == [] then []
    else (if Some(activations[0].id) != keep then [activations[0]] else []) + Stale(activations[1..], keep)
  }

  lemma {:induction false} StaleFacts(activations: seq<Activation>, keep: Option<Id>)
    ensures Stale(activations, keep) != [] <==> exists a :: a in activations && Some(a.id) != keep
  {
    if activations != [] {
      StaleFacts(activations[1..], keep);
      assert activations[0] in activations;
    }
  }

  lemma {:induction false} StaleActives(activations: seq<Activation>, keep: Option<Id>, now: int)
    ensures Stale(Actives(activations), keep) != []
       <==> exists i :: 0 <= i < |activations| && activations[i].active && Some(activations[i].id) != keep
    ensures Stale(Actives(activations), keep) == [] ==> RetireAllBut(activations, keep, now) == activations
  {
    StaleFacts(Actives(activations), keep);
    forall a
      ensures a in Actives(activations) <==> a in activations && a.active
    {
      ActivesAre(activations, a);
    }
    if i :| 0 <= i < |activations| && activations[i].active && Some(activations[i].id) != keep {
      assert activations[i] in Actives(activations);
    }
  }

  lemma {:induction false} ActivatedIsNormal(t: Team, chip: Chip, env: Env)
    requires Normal(t, env.current) && t.row.chip == None && IdsBelow(t.activations, t.nextId)
    ensures Normal(Activated(t, chip, env), env.current)
    ensures IdsBelow(Activated(t, chip, env).activations, t.nextId + 1)
  {
    assert OnlyActive(Activated(t, chip, env).activations, |t.activations|);
  }

  lemma {:induction false} CancelledAt(activations: seq<Activation>, chip: Chip, current: nat, i: nat)
    requires i <= |activations| && forall k :: 0 <= k < i ==> !Cancels(activations[k], chip, current)
    requires i < |activations| ==> Cancels(activations[i], chip, current)
    ensures Cancelled(activations, chip, current)
         == if i < |activations| then activations[..i] + activations[i + 1..] else activations
  {
    if i > 0 {
      CancelledAt(activations[1..], chip, current, i - 1);
      assert activations[1..][..i - 1] == activations[..i][1..];
    }
  }

  lemma {:induction false} CancelledIds(activations: seq<Activation>, chip: Chip, current: nat, id: Id)
    requires IdsBelow(activations, id)
    ensures IdsBelow(Cancelled(activations, chip, current), id)
  {
    var r := Cancelled(activations, chip, current);
    CancelledMembers(activations, chip, current);
    forall i | 0 <= i < |r|
      ensures r[i].id < id
    {
      assert r[i] in activations;
    }
  }

  class FantasyTeamStore {
    var row: Row
    var picks: seq<Pick>
    var activations: seq<Activation>
    var snapshots: map<nat, Snapshot>
    var transfers: seq<Transfer>
    var nextId: Id

    constructor (team: Team)
      ensures State() == team
    {
      row, picks, activations := team.row, team.picks, team.activations;
      snapshots, transfers, nextId := team.snapshots, team.transfers, team.nextId;
    }

    function State(): Team
      reads this
    {
      Team(row, picks, activations, snapshots, transfers, nextId)
    }

    // Ids are generated in increasing order and never given twice.
    ghost predicate Valid()
      reads this
    {
      IdsBelow(activations, nextId)
    }

    // ----- Chips ----------------------------------------------------------------------------

    method MarkInactive(keep: Option<Id>, now: int)
      requires Valid()
      modifies this`activations
      ensures activations == RetireAllBut(old(activations), keep, now) && Valid()
    {
      RetiredIds(activations, keep, now, nextId);
      var i := 0;
      while i < |activations|
        invariant i <= |activations| == |old(activations)|
        invariant forall k :: 0 <= k < i ==> activations[k] == RetireAllBut(old(activations), keep, now)[k]
        invariant forall k :: i <= k < |activations| ==> activations[k] == old(activations)[k]
      {
        var a := activations[i];
        if a.active && Some(a.id) != keep {
          activations := activations[i := Retire(a, now)];
        }
        i := i + 1;
      }
      assert activations == RetireAllBut(old(activations), keep, now);
    }

    method ApplyCaptainMultiplier(captain: int)
      modifies this`picks
      ensures picks == ApplyMultiplier(old(picks), captain)
    {
      var i := 0;
      while i < |picks|
        invariant i <= |picks| == |old(picks)|
        invariant forall k :: 0 <= k < i ==> picks[k] == Multiply(old(picks)[k], captain)
        invariant forall k :: i <= k < |picks| ==> picks[k] == old(picks)[k]
      {
        picks := picks[i := Multiply(picks[i], captain)];
        i := i + 1;
      }
    }

    method RestoreFreeHitSnapshot(matchday: nat)
      requires Valid()
      modifies this
      ensures State() == Restored(old(State()), matchday) && Valid()
    {
      if matchday !in snapshots {
        return;
      }
      var s := snapshots[matchday];
      picks := [];
      var i := 0;
      while i < |s.held|
        invariant i <= |s.held| && |picks| == i && nextId == old(nextId) + i
        invariant forall k :: 0 <= k < i ==> picks[k] == Renew(s.held, old(nextId))[k]
        invariant row == old(row) && activations == old(activations)
        invariant snapshots == old(snapshots) && transfers == old(transfers)
      {
        picks := picks + [Pick(nextId, None, s.held[i])];
        nextId := nextId + 1;
        i := i + 1;
      }
      assert picks == Renew(s.held, old(nextId));
      row := s.row.(chip := row.chip);
    }

    // How much there is left to normalise.
    ghost function Load(): nat
      reads this
    {
      CountActive(activations) + if row.chip.Some? then 1 else 0
    }

    method GetFantasyTeamCore(current: nat, now: int)
      requires Valid()
      modifies this
      ensures State() == Synced(old(State()), current, now) && Valid()
      decreases Load(), 2
    {
      SyncChipState(current, now);
    }

    // `memory` is the row as it was loaded; saving it again overwrites what was stored meanwhile.
    method SyncChipState(current: nat, now: int)
      requires Valid()
      modifies this
      ensures State() == Synced(old(State()), current, now) && Valid()
      decreases Load(), 1
    {
      var memory, actives := row, Actives(activations);
      if memory.chip.None? {
        StaleActives(activations, None, now);
        RetiringReduces(activations, None, now);
        if actives == [] {
          return;
        }
        StaleFacts(actives, None);
        assert actives[0] in actives && Some(actives[0].id) != None;
        MarkInactive(None, now);
        SyncIsIdempotent(old(State()), current, now, now);
        GetFantasyTeamCore(current, now);
        return;
      }
      SyncWithChip(memory, actives, current, now);
    }

    method SyncWithChip(memory: Row, actives: seq<Activation>, current: nat, now: int)
      requires Valid() && memory == row && memory.chip.Some? && actives == Actives(activations)
      modifies this
      ensures State() == Synced(old(State()), current, now) && Valid()
      decreases Load(), 0
    {
      var chosen := FirstOf(actives, memory.chip.value);
      var keep := if chosen.Some? then Some(chosen.value.id) else None;
      var stale := Stale(actives, keep);
      ghost var before := State();
      StaleActives(activations, keep, now);
      RetiringReduces(activations, keep, now);
      SyncBranches(before, chosen, keep, current, now);
      if stale != [] {
        MarkInactive(keep, now);
      }
      assert State() == before.(activations := RetireAllBut(before.activations, keep, now));
      if chosen.None? {
        row := memory.(chip := None);
        GetFantasyTeamCore(current, now);
      } else if !Expired(chosen.value, current) {
        if stale != [] {
          GetFantasyTeamCore(current, now);
        }
      } else {
        EndChip(memory, chosen.value, current, now);
        assert State() == Synced(before, current, now);
        GetFantasyTeamCore(current, now);
      }
    }

    method EndChip(memory: Row, a: Activation, current: nat, now: int)
      requires Valid() && memory == row && memory.chip == Some(a.chip) && Expired(a, current)
      modifies this
      ensures State()
           == Ended(old(State()), a.chip, a.matchday.value).(activations := RetireAllBut(old(activations), None, now))
      ensures Valid()
      ensures CountActive(activations) <= CountActive(old(activations)) && row.chip.None?
    {
      RetiringReduces(activations, None, now);
      if memory.chip == Some(FreeHit) {
        RestoreFreeHitSnapshot(a.matchday.value);
      }
      row := memory.(chip := None);
      MarkInactive(None, now);
      if a.chip == TripleCaptain {
        ApplyCaptainMultiplier(2);
      }
    }

    method CaptureSnapshot(matchday: nat)
      modifies this`snapshots
      ensures State() == Capture(old(State()), matchday)
    {
      if matchday !in snapshots {
        var held := [];
        var i := 0;
        while i < |picks|
          invariant i <= |picks| && held == HeldOf(picks)[..i]
          invariant State() == old(State())
        {
          held := held + [picks[i].held];
          i := i + 1;
        }
        assert held == HeldOf(picks);
        snapshots := snapshots[matchday := Snapshot(row, held)];
      }
    }

    method CountUses(chip: Chip) returns (uses: nat)
      ensures uses == Uses(activations, chip)
    {
      uses := 0;
      var i := 0;
      while i < |activations|
        invariant i <= |activations| && uses == Uses(activations[..i], chip)
      {
        assert activations[..i + 1][..i] == activations[..i];
        if activations[i].chip == chip {
          uses := uses + 1;
        }
        i := i + 1;
      }
      assert activations[..|activations|] == activations;
    }

    method StartChip(env: Env, chip: Chip)
      requires Valid() && row.chip == None
      modifies this
      ensures State() == Activated(old(State()), chip, env)
    {
      var a := Activation(nextId, chip, true, env.now, None, Some(env.current));
      nextId := nextId + 1;
      activations := activations + [a];
      if chip == FreeHit {
        CaptureSnapshot(env.current);
      }
      row := row.(chip := Some(chip));
      if chip == TripleCaptain {
        ApplyCaptainMultiplier(3);
      }
    }

    method ActivateChipForUser(env: Env, chip: Chip) returns (verdict: Verdict)
      requires Valid()
      modifies this
      ensures Outcome(State(), verdict) == ActivateChip(old(State()), env, chip) && Valid()
    {
      verdict := Guard(env);
      if verdict.Some? {
        return;
      }
      SyncNormalises(State(), env.current, env.now);
      SyncChipState(env.current, env.now);
      ghost var synced := State();
      if row.chip.Some? && row.chip != Some(chip) {
        return Some(OtherChipActive);
      }
      if row.chip == Some(chip) {
        SyncOfNormal(synced, env.current, env.now);
        GetFantasyTeamCore(env.current, env.now);
        return None;
      }
      var uses := CountUses(chip);
      if uses >= MaxUses(chip) {
        return Some(ChipUsed);
      }
      StartChip(env, chip);
      ActivatedIsNormal(synced, chip, env);
      SyncOfNormal(State(), env.current, env.now);
      GetFantasyTeamCore(env.current, env.now);
      verdict := None;
    }

    // Removes the activation that is active for the current matchday, if there is one.
    method RemoveActivation(chip: Chip, current: nat)
      requires Valid()
      modifies this`activations
      ensures activations == Cancelled(old(activations), chip, current) && Valid()
    {
      var i := 0;
      while i < |activations| && !Cancels(activations[i], chip, current)
        invariant i <= |activations|
        invariant forall k :: 0 <= k < i ==> !Cancels(activations[k], chip, current)
      {
        i := i + 1;
      }
      CancelledAt(activations, chip, current, i);
      CancelledIds(activations, chip, current, nextId);
      if i < |activations| {
        activations := activations[..i] + activations[i + 1..];
      }
    }

    method DeactivateChipForUser(env: Env) returns (verdict: Verdict)
      requires Valid()
      modifies this
      ensures Outcome(State(), verdict) == DeactivateChip(old(State()), env) && Valid()
    {
      verdict := Guard(env);
      if verdict.Some? {
        return;
      }
      if row.chip.Some? {
        RemoveActivation(row.chip.value, env.current);
        row := row.(chip := None);
        ApplyCaptainMultiplier(2);
      }
      GetFantasyTeamCore(env.current, env.now);
    }

    // ----- Captaincy ----------------------------------------------------------------------------

    method SaveCaptaincy(captain: Id, vice: Id, multiplier: int)
      modifies this`picks
      ensures picks == LedBy(old(picks), captain, vice, multiplier)
    {
      var i := 0;
      while i < |picks|
        invariant i <= |picks| == |old(picks)|
        invariant forall k :: 0 <= k < i ==> picks[k] == Led(old(picks)[k], captain, vice, multiplier)
        invariant forall k :: i <= k < |picks| ==> picks[k] == old(picks)[k]
      {
        picks := picks[i := Led(picks[i], captain, vice, multiplier)];
        i := i + 1;
      }
    }

    method UpdateCaptaincyForUser(env: Env, captain: Id, vice: Id) returns (verdict: Verdict)
      requires Valid()
      modifies this
      ensures Outcome(State(), verdict) == UpdateCaptaincy(old(State()), env, captain, vice) && Valid()
    {
      verdict := Guard(env);
      if verdict.Some? {
        return;
      }
      SyncNormalises(State(), env.current, env.now);
      SyncChipState(env.current, env.now);
      verdict := CheckCaptaincy(picks, captain, vice);
      if verdict.None? {
        SaveCaptaincy(captain, vice, CaptainMultiplier(row.chip));
        SyncOfNormal(State(), env.current, env.now);
        GetFantasyTeamCore(env.current, env.now);
      }
    }

    // ----- Transfers ------------------------------------------------------------------------------

    method CountTransfers(matchday: nat) returns (used: nat)
      ensures used == Used(transfers, matchday)
    {
      used := 0;
      var i := 0;
      while i < |transfers|
        invariant i <= |transfers| && used == Used(transfers[..i], matchday)
      {
        assert transfers[..i + 1][..i] == transfers[..i];
        if transfers[i].matchday == matchday {
          used := used + 1;
        }
        i := i + 1;
      }
      assert transfers[..|transfers|] == transfers;
    }

    method SaveTransfer(env: Env, incoming: Id, outgoing: Id)
      requires Valid() && Find(picks, outgoing) < |picks| && incoming in env.players
      modifies this
      ensures State() == Transferred(old(State()), env, incoming, outgoing) && Valid()
    {
      var i, player := Find(picks, outgoing), env.players[incoming];
      var budget := Projected(picks, i, row.budget, incoming, env.players);
      var used := CountTransfers(env.current);
      var cost := CostHit(row.freeTransfers, used, Unlimited(row.chip));
      var free := NextFree(row.freeTransfers, used, Unlimited(row.chip));
      var held := picks[i].held.(line := picks[i].held.line.(player := incoming),
                                 buyPrice := player.price, sellPrice := player.price);
      picks := picks[i := Pick(picks[i].id, Some(player.position), held)];
      row := row.(freeTransfers := free, budget := budget);
      transfers := transfers + [Transfer(env.current, incoming, outgoing, cost)];
    }

    method CreateTransferForUser(env: Env, incoming: Id, outgoing: Id) returns (verdict: Verdict)
      requires Valid()
      modifies this
      ensures Outcome(State(), verdict) == CreateTransfer(old(State()), env, incoming, outgoing) && Valid()
    {
      SyncNormalises(State(), env.current, env.now);
      SyncChipState(env.current, env.now);
      verdict := Guard(env);
      if verdict.Some? {
        return;
      }
      verdict := CheckTransfer(picks, row.budget, incoming, outgoing, env.players);
      if verdict.None? {
        SaveTransfer(env, incoming, outgoing);
        SyncOfNormal(State(), env.current, env.now);
        GetFantasyTeamCore(env.current, env.now);
      }
    }

    // ----- Saving a squad ---------------------------------------------------------------------------

    method DeleteStalePicks(players: set<Id>)
      modifies this`picks
      ensures picks == Kept(old(picks), players)
    {
      var kept := [];
      var i := 0;
      while i < |picks|
        invariant i <= |picks| && picks == old(picks)
        invariant kept + Kept(picks[i..], players) == Kept(picks, players)
      {
        assert picks[i..][1..] == picks[i + 1..] && picks[i..][0] == picks[i];
        assert Kept(picks[i..], players)
            == (if PlayerOf(picks[i]) in players then [picks[i]] else []) + Kept(picks[i + 1..], players);
        if PlayerOf(picks[i]) in players {
          kept := kept + [picks[i]];
        }
        i := i + 1;
      }
      picks := kept;
    }

    method SyncFantasyTeamPicks(lines: seq<Line>, captain: int, players: Catalog)
      requires AllListed(lines, players)
      modifies this`picks, this`nextId
      ensures picks == SavedSquad(old(picks), lines, captain, players, old(nextId))
      ensures nextId == old(nextId) + |lines|
    {
      DeleteStalePicks(PlayerIds(lines));
      ghost var kept := picks;
      var j := 0;
      while j < |lines|
        invariant j <= |lines| && nextId == old(nextId) + j
        invariant picks == SaveLines(kept, lines[..j], captain, players, old(nextId))
      {
        assert lines[..j + 1][..j] == lines[..j];
        var l := lines[j];
        var i := Find(picks, l.player);
        if i < |picks| {
          picks := picks[i := Relined(picks[i], l, captain)];
        } else {
          picks := picks + [NewPick(nextId, l, captain, players)];
        }
        nextId := nextId + 1;
        j := j + 1;
      }
      assert lines[..|lines|] == lines;
    }

    method UpdateFantasyTeamForUser(env: Env, request: SaveRequest) returns (verdict: Verdict)
      requires Valid()
      modifies this
      ensures Outcome(State(), verdict) == UpdateTeam(old(State()), env, request) && Valid()
    {
      verdict := Guard(env);
      if verdict.Some? {
        return;
      }
      SyncNormalises(State(), env.current, env.now);
      SyncChipState(env.current, env.now);
      row := Relabelled(row, request);
      if request.lines != [] {
        verdict := ValidatePicks(request.lines, env.players);
        if verdict.Some? {
          return;
        }
        ValidationIsExact(request.lines, env.players);
        CountBound(request.lines, Listed, env.players);
        SyncFantasyTeamPicks(request.lines, CaptainMultiplier(row.chip), env.players);
      }
      SyncOfNormal(State(), env.current, env.now);
      GetFantasyTeamCore(env.current, env.now);
    }
  }
}
