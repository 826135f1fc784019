/** What holds of chips and multipliers over every run of a team. */
module ChipRules {
  import opened Wrappers
  import opened Squads
  import opened Picks
  import opened ChipState
  import opened TeamOps

  // ----- The invariant ------------------------------------------------------------------------

  ghost predicate WithinQuota(activations: seq<Activation>) {
    forall chip :: Uses(activations, chip) <= MaxUses(chip)
  }

  // Three for the captain under Triple Captain, two for the captain otherwise, one for everybody else.
  ghost predicate MultipliersRight(t: Team) {
    Multiplied(HeldOf(t.picks), CaptainMultiplier(t.row.chip))
  }

  // In numbers: at most two Wildcards and one of each other chip.
  lemma {:induction false} QuotaMeans(activations: seq<Activation>)
    ensures WithinQuota(activations)
       <==> && Uses(activations, Wildcard) <= 2 && Uses(activations, FreeHit) <= 1
            && Uses(activations, BenchBoost) <= 1 && Uses(activations, TripleCaptain) <= 1
  {
    if && Uses(activations, Wildcard) <= 2 && Uses(activations, FreeHit) <= 1
       && Uses(activations, BenchBoost) <= 1 && Uses(activations, TripleCaptain) <= 1 {
      forall chip
        ensures Uses(activations, chip) <= MaxUses(chip)
      {
        match chip
        case Wildcard =>
        case FreeHit =>
        case BenchBoost =>
        case TripleCaptain =>
      }
    }
  }

  lemma {:induction false} MultipliersMean(t: Team)
    ensures MultipliersRight(t)
       <==> forall i :: 0 <= i < |t.picks| ==>
              t.picks[i].held.multiplier
              == if !t.picks[i].held.line.captain then 1 else if t.row.chip == Some(TripleCaptain) then 3 else 2
  {
    assert forall i :: 0 <= i < |t.picks| ==> HeldOf(t.picks)[i] == t.picks[i].held;
    assert |HeldOf(t.picks)| == |t.picks|;
  }

  ghost predicate IdsBelow(activations: seq<Activation>, id: Id) {
    DistinctIds(activations) && forall i :: 0 <= i < |activations| ==> activations[i].id < id
  }

  ghost predicate HasActive(activations: seq<Activation>, chip: Chip) {
    exists i :: 0 <= i < |activations| && activations[i].active && activations[i].chip == chip
  }

  ghost predicate Plain(snapshots: map<nat, Snapshot>, matchday: nat) {
    matchday in snapshots && Multiplied(snapshots[matchday].held, 2)
  }

  // An active Free Hit can be undone, to picks without a tripled captain.
  ghost predicate Undoable(a: Activation, snapshots: map<nat, Snapshot>) {
    a.active && a.chip == FreeHit ==> a.matchday.Some? && Plain(snapshots, a.matchday.value)
  }

  ghost predicate AllUndoable(activations: seq<Activation>, snapshots: map<nat, Snapshot>) {
    forall i :: 0 <= i < |activations| ==> Undoable(activations[i], snapshots)
  }

  ghost predicate ChipsFollowRules(t: Team) {
    && WithinQuota(t.activations) && MultipliersRight(t)
    && IdsBelow(t.activations, t.nextId)
    && (t.row.chip.Some? ==> HasActive(t.activations, t.row.chip.value))
    && AllUndoable(t.activations, t.snapshots)
  }

  // ----- Synchronisation keeps it ---------------------------------------------------------------

  lemma {:induction false} RetiringKeepsUses(activations: seq<Activation>, keep: Option<Id>, now: int, chip: Chip)
    ensures Uses(RetireAllBut(activations, keep, now), chip) == Uses(activations, chip)
  {
    if activations != [] {
      var last := |activations| - 1;
      RetiringKeepsUses(activations[..last], keep, now, chip);
      assert RetireAllBut(activations, keep, now)[..last] == RetireAllBut(activations[..last], keep, now);
    }
  }

  lemma {:induction false} RetiringKeepsQuota(activations: seq<Activation>, keep: Option<Id>, now: int, id: Id,
                                              snapshots: map<nat, Snapshot>)
    requires WithinQuota(activations) && IdsBelow(activations, id) && AllUndoable(activations, snapshots)
    ensures var r := RetireAllBut(activations, keep, now);
            WithinQuota(r) && IdsBelow(r, id) && AllUndoable(r, snapshots)
  {
    forall chip
      ensures Uses(RetireAllBut(activations, keep, now), chip) <= MaxUses(chip)
    {
      RetiringKeepsUses(activations, keep, now, chip);
    }
    var r := RetireAllBut(activations, keep, now);
    forall i | 0 <= i < |r|
      ensures Undoable(r[i], snapshots)
    {
      assert Undoable(activations[i], snapshots);
    }
  }

  lemma {:induction false} EndedKeepsMultipliers(t: Team, a: Activation, current: nat)
    requires MultipliersRight(t) && t.row.chip == Some(a.chip) && Expired(a, current)
    requires a.active && Undoable(a, t.snapshots)
    ensures MultipliersRight(Ended(t, a.chip, a.matchday.value))
  {
  }

  lemma {:induction false} SyncKeepsRules(t: Team, current: nat, now: int)
    requires ChipsFollowRules(t)
    ensures ChipsFollowRules(Synced(t, current, now))
  {
    var chosen := if t.row.chip.Some? then Chosen(t.activations, t.row.chip.value) else None;
    if t.row.chip.Some? {
      ChosenFacts(t.activations, t.row.chip.value);
    }
    if chosen.Some? {
      var i :| 0 <= i < |t.activations| && t.activations[i] == chosen.value;
      assert Undoable(t.activations[i], t.snapshots);
      RetiringKeepsQuota(t.activations, Some(chosen.value.id), now, t.nextId, t.snapshots);
      if Expired(chosen.value, current) {
        EndedKeepsMultipliers(t, chosen.value, current);
        RetiringKeepsQuota(t.activations, None, now, t.nextId, t.snapshots);
      } else {
        assert RetireAllBut(t.activations, Some(chosen.value.id), now)[i] == chosen.value;
      }
    } else {
      RetiringKeepsQuota(t.activations, None, now, t.nextId, t.snapshots);
    }
  }

  // ----- Every operation keeps it ------------------------------------------------------------------

  // The Free Hit takes its own snapshot, or finds one without a tripled captain.
  ghost predicate FindsPlain(t: Team, env: Env, step: Step) {
    step == Activate(FreeHit) && env.current in t.snapshots ==> Plain(t.snapshots, env.current)
  }

  lemma {:induction false} CaptureKeepsUndoable(t: Team, matchday: nat)
    requires AllUndoable(t.activations, t.snapshots)
    ensures AllUndoable(t.activations, Capture(t, matchday).snapshots)
  {
    forall i | 0 <= i < |t.activations|
      ensures Undoable(t.activations[i], Capture(t, matchday).snapshots)
    {
      assert Undoable(t.activations[i], t.snapshots);
    }
  }

  lemma {:induction false} ActivatedKeepsRules(t: Team, chip: Chip, env: Env)
    requires ChipsFollowRules(t) && t.row.chip.None? && Uses(t.activations, chip) < MaxUses(chip)
    requires chip == FreeHit && env.current in t.snapshots ==> Plain(t.snapshots, env.current)
    ensures ChipsFollowRules(Activated(t, chip, env))
  {
    var u := Activated(t, chip, env);
    assert u.activations[|t.activations|].active && u.activations[|t.activations|].chip == chip;
    OneMoreUse(t.activations, u.activations[|t.activations|]);
    ActivatedIsUndoable(t, chip, env);
  }

  lemma {:induction false} OneMoreUse(activations: seq<Activation>, a: Activation)
    requires WithinQuota(activations) && Uses(activations, a.chip) < MaxUses(a.chip)
    ensures WithinQuota(activations + [a])
  {
    assert (activations + [a])[..|activations|] == activations;
    forall c
      ensures Uses(activations + [a], c) <= MaxUses(c)
    {
      assert Uses(activations, c) <= MaxUses(c);
    }
  }

  lemma {:induction false} ActivatedIsUndoable(t: Team, chip: Chip, env: Env)
    requires AllUndoable(t.activations, t.snapshots) && MultipliersRight(t) && t.row.chip.None?
    requires chip == FreeHit && env.current in t.snapshots ==> Plain(t.snapshots, env.current)
    ensures AllUndoable(Activated(t, chip, env).activations, Activated(t, chip, env).snapshots)
  {
    var u := Activated(t, chip, env);
    CaptureKeepsUndoable(t, env.current);
    forall i | 0 <= i < |u.activations|
      ensures Undoable(u.activations[i], u.snapshots)
    {
      if i < |t.activations| {
        assert Undoable(t.activations[i], t.snapshots);
      }
    }
  }

  lemma {:induction false} CancelledMembers(activations: seq<Activation>, chip: Chip, current: nat)
    ensures forall a :: a in Cancelled(activations, chip, current) ==> a in activations
    ensures DistinctIds(activations) ==> DistinctIds(Cancelled(activations, chip, current))
  {
    if activations != [] && !Cancels(activations[0], chip, current) {
      CancelledMembers(activations[1..], chip, current);
      var rest := Cancelled(activations[1..], chip, current);
      forall j | 0 <= j < |rest| && DistinctIds(activations)
        ensures rest[j].id != activations[0].id
      {
        assert rest[j] in activations[1..];
      }
    }
  }

  lemma {:induction false} UsesFront(activations: seq<Activation>, c: Chip)
    requires activations != []
    ensures Uses(activations, c) == Uses(activations[1..], c) + if activations[0].chip == c then 1 else 0
  {
    var last := |activations| - 1;
    if last > 0 {
      UsesFront(activations[..last], c);
      assert activations[..last][1..] == activations[1..][..last - 1];
    }
  }

  lemma {:induction false} CancelledTakesOne(activations: seq<Activation>, chip: Chip, current: nat)
    ensures Uses(Cancelled(activations, chip, current), chip)
         == Uses(activations, chip)
            - if exists i :: 0 <= i < |activations| && Cancels(activations[i], chip, current) then 1 else 0
    ensures forall c :: c != chip ==> Uses(Cancelled(activations, chip, current), c) == Uses(activations, c)
  {
    if activations != [] {
      var r := Cancelled(activations, chip, current);
      forall c
        ensures Uses(activations, c) == Uses(activations[1..], c) + if activations[0].chip == c then 1 else 0
        ensures r != [] ==> Uses(r, c) == Uses(r[1..], c) + if r[0].chip == c then 1 else 0
      {
        UsesFront(activations, c);
        if r != [] {
          UsesFront(r, c);
        }
      }
      if !Cancels(activations[0], chip, current) {
        CancelledTakesOne(activations[1..], chip, current);
        assert r[1..] == Cancelled(activations[1..], chip, current);
        assert forall i :: 1 <= i < |activations| ==> activations[i] == activations[1..][i - 1];
      }
    }
  }

  lemma {:induction false} CancellingKeepsRules(t: Team, env: Env)
    requires ChipsFollowRules(t) && t.row.chip.Some?
    ensures ChipsFollowRules(t.(activations := Cancelled(t.activations, t.row.chip.value, env.current),
                                row := t.row.(chip := None), picks := ApplyMultiplier(t.picks, 2)))
  {
    var r := Cancelled(t.activations, t.row.chip.value, env.current);
    CancelledTakesOne(t.activations, t.row.chip.value, env.current);
    forall c
      ensures Uses(r, c) <= MaxUses(c)
    {
      assert Uses(t.activations, c) <= MaxUses(c);
    }
    CancelledMembers(t.activations, t.row.chip.value, env.current);
    forall i | 0 <= i < |r|
      ensures Undoable(r[i], t.snapshots) && r[i].id < t.nextId
    {
      assert r[i] in t.activations;
    }
  }

  // A change of picks and columns that respects the chip.
  lemma {:induction false} PicksKeepRules(t: Team, u: Team)
    requires ChipsFollowRules(t) && MultipliersRight(u)
    requires u == t.(row := u.row, picks := u.picks, transfers := u.transfers, nextId := u.nextId)
    requires u.row.chip == t.row.chip && u.nextId >= t.nextId
    ensures ChipsFollowRules(u)
  {
  }

  lemma {:induction false} SavedMultipliers(picks: seq<Pick>, lines: seq<Line>, captain: int, players: Catalog, id: Id)
    requires AllListed(lines, players)
    ensures Multiplied(HeldOf(picks), captain) ==>
      Multiplied(HeldOf(SavedSquad(picks, lines, captain, players, id)), captain)
  {
    if Multiplied(HeldOf(picks), captain) {
      forall p | p in picks
        ensures p.held.multiplier == MultiplierOf(p.held.line, captain)
      {
        var i :| 0 <= i < |picks| && picks[i] == p;
        assert HeldOf(picks)[i] == p.held;
      }
      KeptMultipliers(picks, PlayerIds(lines), captain);
      SaveLinesMultipliers(Kept(picks, PlayerIds(lines)), lines, captain, players, id);
    }
  }

  lemma {:induction false} KeptMultipliers(picks: seq<Pick>, players: set<Id>, captain: int)
    requires forall p :: p in picks ==> p.held.multiplier == MultiplierOf(p.held.line, captain)
    ensures forall p :: p in Kept(picks, players) ==> p.held.multiplier == MultiplierOf(p.held.line, captain)
  {
    if picks != [] {
      KeptMultipliers(picks[1..], players, captain);
    }
  }

  lemma {:induction false} SaveLinesMultipliers(picks: seq<Pick>, lines: seq<Line>, captain: int, players: Catalog,
                                                id: Id)
    requires AllListed(lines, players)
    requires forall p :: p in picks ==> p.held.multiplier == MultiplierOf(p.held.line, captain)
    ensures forall p :: p in SaveLines(picks, lines, captain, players, id) ==>
      p.held.multiplier == MultiplierOf(p.held.line, captain)
  {
    if lines != [] {
      SaveLinesMultipliers(picks, lines[..|lines| - 1], captain, players, id);
    }
  }

  lemma {:induction false} TransferredKeepsRules(t: Team, env: Env, incoming: Id, outgoing: Id)
    requires ChipsFollowRules(t) && Find(t.picks, outgoing) < |t.picks| && incoming in env.players
    ensures ChipsFollowRules(Transferred(t, env, incoming, outgoing))
  {
    var u := Transferred(t, env, incoming, outgoing);
    forall i | 0 <= i < |u.picks|
      ensures HeldOf(u.picks)[i].multiplier == MultiplierOf(HeldOf(u.picks)[i].line, CaptainMultiplier(t.row.chip))
    {
      assert HeldOf(t.picks)[i] == t.picks[i].held;
    }
    PicksKeepRules(t, u);
  }

  lemma {:induction false} SwapKeepsRules(t: Team, env: Env, incoming: Id, outgoing: Id)
    requires ChipsFollowRules(t)
    ensures ChipsFollowRules(CreateTransfer(t, env, incoming, outgoing).team)
  {
    var s := Sync(t, env);
    SyncKeepsRules(t, env.current, env.now);
    if Guard(env).None? && CheckTransfer(s.picks, s.row.budget, incoming, outgoing, env.players).None? {
      TransferredKeepsRules(s, env, incoming, outgoing);
    }
  }

  lemma {:induction false} SaveKeepsRules(t: Team, env: Env, request: SaveRequest)
    requires ChipsFollowRules(t)
    ensures ChipsFollowRules(UpdateTeam(t, env, request).team)
  {
    SyncKeepsRules(t, env.current, env.now);
    var s, u := Sync(t, env), UpdateTeam(t, env, request).team;
    if Guard(env).None? {
      if request.lines != [] && ValidatePicks(request.lines, env.players).None? {
        ValidationIsExact(request.lines, env.players);
        CountBound(request.lines, Listed, env.players);
        SavedMultipliers(s.picks, request.lines, CaptainMultiplier(s.row.chip), env.players, s.nextId);
      }
      PicksKeepRules(s, u);
    }
  }

  lemma {:induction false} ActivateSyncedKeepsRules(s: Team, env: Env, chip: Chip)
    requires ChipsFollowRules(s) && FindsPlain(s, env, Activate(chip))
    ensures ChipsFollowRules(ActivateSynced(s, env, chip).team)
  {
    if s.row.chip.None? && Uses(s.activations, chip) < MaxUses(chip) {
      ActivatedKeepsRules(s, chip, env);
    }
  }

  lemma {:induction false} ActivateKeepsRules(t: Team, env: Env, chip: Chip)
    requires ChipsFollowRules(t) && FindsPlain(t, env, Activate(chip))
    ensures ChipsFollowRules(ActivateChip(t, env, chip).team)
  {
    SyncKeepsRules(t, env.current, env.now);
    SyncKeepsSnapshots(t, env);
    ActivateSyncedKeepsRules(Sync(t, env), env, chip);
  }

  lemma {:induction false} SyncKeepsSnapshots(t: Team, env: Env)
    ensures Sync(t, env).snapshots == t.snapshots
  {
  }

  lemma {:induction false} DeactivateKeepsRules(t: Team, env: Env)
    requires ChipsFollowRules(t)
    ensures ChipsFollowRules(DeactivateChip(t, env).team)
  {
    if t.row.chip.Some? {
      CancellingKeepsRules(t, env);
      SyncKeepsRules(t.(activations := Cancelled(t.activations, t.row.chip.value, env.current),
                        row := t.row.(chip := None), picks := ApplyMultiplier(t.picks, 2)), env.current, env.now);
    } else {
      SyncKeepsRules(t, env.current, env.now);
    }
  }

  lemma {:induction false} LeadKeepsRules(t: Team, env: Env, captain: Id, vice: Id)
    requires ChipsFollowRules(t)
    ensures ChipsFollowRules(UpdateCaptaincy(t, env, captain, vice).team)
  {
    var s := Sync(t, env);
    SyncKeepsRules(t, env.current, env.now);
    if Guard(env).None? {
      PicksKeepRules(s, UpdateCaptaincy(t, env, captain, vice).team);
    }
  }

  lemma {:induction false} StepKeepsRules(t: Team, env: Env, step: Step)
    requires ChipsFollowRules(t) && FindsPlain(t, env, step)
    ensures ChipsFollowRules(Perform(t, env, step).team)
  {
    match step
    case Activate(chip) => ActivateKeepsRules(t, env, chip);
    case Deactivate => DeactivateKeepsRules(t, env);
    case Lead(captain, vice) => LeadKeepsRules(t, env, captain, vice);
    case Swap(incoming, outgoing) => SwapKeepsRules(t, env, incoming, outgoing);
    case Save(request) => SaveKeepsRules(t, env, request);
    case View => SyncKeepsRules(t, env.current, env.now);
    case LockCapture => CaptureKeepsUndoable(t, env.current);
  }

  // ----- The theorem ---------------------------------------------------------------------------------

  ghost predicate FreeHitsFindPlain(t: Team, script: Script)
    decreases script
  {
    script != [] ==>
      var last := |script| - 1;
      FreeHitsFindPlain(t, script[..last]) && FindsPlain(Run(t, script[..last]), script[last].0, script[last].1)
  }

  // Over every run a chip is never used more often than allowed and every multiplier follows from the chip.
  lemma {:induction false} RunKeepsRules(t: Team, script: Script)
    requires ChipsFollowRules(t) && FreeHitsFindPlain(t, script)
    ensures ChipsFollowRules(Run(t, script))
  {
    if script != [] {
      var last := |script| - 1;
      RunKeepsRules(t, script[..last]);
      StepKeepsRules(Run(t, script[..last]), script[last].0, script[last].1);
    }
  }

  // The same in numbers.
  lemma {:induction false} RunKeepsNumbers(t: Team, script: Script, i: nat)
    requires ChipsFollowRules(t) && FreeHitsFindPlain(t, script) && i < |Run(t, script).picks|
    ensures var end := Run(t, script);
            && Uses(end.activations, Wildcard) <= 2 && Uses(end.activations, FreeHit) <= 1
            && Uses(end.activations, BenchBoost) <= 1 && Uses(end.activations, TripleCaptain) <= 1
            && end.picks[i].held.multiplier
               == if !end.picks[i].held.line.captain then 1 else if end.row.chip == Some(TripleCaptain) then 3 else 2
  {
    RunKeepsRules(t, script);
    QuotaMeans(Run(t, script).activations);
    MultipliersMean(Run(t, script));
  }

  // ----- Uses over a run ------------------------------------------------------------------------------

  // A step that plays the chip: an activation that is accepted and finds no chip.
  predicate Plays(t: Team, env: Env, step: Step, chip: Chip) {
    step == Activate(chip) && Guard(env).None? && Sync(t, env).row.chip.None?
    && Uses(Sync(t, env).activations, chip) < MaxUses(chip)
  }

  // A step that gives a use back: the deactivation of the chip in the matchday of an active activation.
  ghost predicate GivesBack(t: Team, env: Env, step: Step, chip: Chip) {
    && step == Deactivate && Guard(env).None? && t.row.chip == Some(chip)
    && exists i :: 0 <= i < |t.activations| && Cancels(t.activations[i], chip, env.current)
  }

  function Played(t: Team, script: Script, chip: Chip): nat {
    if script == [] then 0
    else
      var front, last := script[..|script| - 1], script[|script| - 1];
      Played(t, front, chip) + if Plays(Run(t, front), last.0, last.1, chip) then 1 else 0
  }

  ghost function GivenBack(t: Team, script: Script, chip: Chip): nat {
    if script == [] then 0
    else
      var front, last := script[..|script| - 1], script[|script| - 1];
      GivenBack(t, front, chip) + if GivesBack(Run(t, front), last.0, last.1, chip) then 1 else 0
  }

  lemma {:induction false} SyncKeepsUses(t: Team, env: Env, chip: Chip)
    ensures Uses(Sync(t, env).activations, chip) == Uses(t.activations, chip)
  {
    var chosen := if t.row.chip.Some? then Chosen(t.activations, t.row.chip.value) else None;
    RetiringKeepsUses(t.activations, None, env.now, chip);
    if chosen.Some? {
      RetiringKeepsUses(t.activations, Some(chosen.value.id), env.now, chip);
    }
  }

  lemma {:induction false} DeactivateUses(t: Team, env: Env, chip: Chip)
    ensures Uses(DeactivateChip(t, env).team.activations, chip)
         == Uses(t.activations, chip) - if GivesBack(t, env, Deactivate, chip) then 1 else 0
  {
    SyncKeepsUses(t, env, chip);
    if t.row.chip.Some? {
      var u := t.(activations := Cancelled(t.activations, t.row.chip.value, env.current),
                  row := t.row.(chip := None), picks := ApplyMultiplier(t.picks, 2));
      CancelledTakesOne(t.activations, t.row.chip.value, env.current);
      SyncKeepsUses(u, env, chip);
    }
  }

  lemma {:induction false} ActivateUses(s: Team, env: Env, c: Chip, chip: Chip)
    ensures Uses(ActivateSynced(s, env, c).team.activations, chip)
         == Uses(s.activations, chip)
            + if c == chip && s.row.chip.None? && Uses(s.activations, chip) < MaxUses(chip) then 1 else 0
  {
    var u := ActivateSynced(s, env, c).team;
    if u.activations != s.activations {
      assert u.activations[..|s.activations|] == s.activations;
    }
  }

  lemma {:induction false} StepUses(t: Team, env: Env, step: Step, chip: Chip)
    ensures Uses(Perform(t, env, step).team.activations, chip)
         == Uses(t.activations, chip) + (if Plays(t, env, step, chip) then 1 else 0)
            - if GivesBack(t, env, step, chip) then 1 else 0
  {
    SyncKeepsUses(t, env, chip);
    match step
    case Activate(c) => ActivateUses(Sync(t, env), env, c, chip);
    case Deactivate => DeactivateUses(t, env, chip);
    case Lead(captain, vice) =>
    case Swap(incoming, outgoing) =>
    case Save(request) =>
    case View =>
    case LockCapture =>
  }

  // Over every run a chip is played at most as often as allowed, not counting the uses that a deactivation in the
  // matchday of the activation gave back.
  lemma {:induction false} ChipsPlayed(t: Team, script: Script, chip: Chip)
    requires WithinQuota(t.activations)
    ensures Uses(Run(t, script).activations, chip)
         == Uses(t.activations, chip) + Played(t, script, chip) - GivenBack(t, script, chip)
    ensures Uses(t.activations, chip) + Played(t, script, chip)
         <= (if chip == Wildcard then 2 else 1) + GivenBack(t, script, chip)
  {
    if script != [] {
      var front, last := script[..|script| - 1], script[|script| - 1];
      ChipsPlayed(t, front, chip);
      StepUses(Run(t, front), last.0, last.1, chip);
      if Plays(Run(t, front), last.0, last.1, chip) {
        SyncKeepsUses(Run(t, front), last.0, chip);
      }
    } else {
      assert Uses(t.activations, chip) <= MaxUses(chip);
    }
  }

  // ----- Undoing an activation ----------------------------------------------------------------------

  lemma {:induction false} CancelLast(activations: seq<Activation>, a: Activation, chip: Chip, current: nat)
    requires NoneActive(activations) && Cancels(a, chip, current)
    ensures Cancelled(activations + [a], chip, current) == activations
  {
    if activations == [] {
      assert (activations + [a])[1..] == [];
    } else {
      assert (activations + [a])[1..] == activations[1..] + [a];
      CancelLast(activations[1..], a, chip, current);
    }
  }

  lemma {:induction false} DeactivateAfterCapture(t: Team, env: Env, chip: Chip, snapshots: map<nat, Snapshot>)
    requires ChipsFollowRules(t) && t.row.chip == None && Normal(t, env.current) && Guard(env).None?
    ensures DeactivateChip(Activated(t, chip, env).(snapshots := snapshots), env)
         == Outcome(t.(snapshots := snapshots, nextId := t.nextId + 1), None)
  {
    var u := Activated(t, chip, env).(snapshots := snapshots);
    CancelLast(t.activations, u.activations[|t.activations|], chip, env.current);
    PlainMultipliers(t.picks, u.picks);
    SyncOfNormal(t.(snapshots := snapshots, nextId := u.nextId), env.current, env.now);
  }

  // Deactivating a chip in the matchday of its activation gives the use back and restores the team, multipliers
  // included; only a captured snapshot and the id that was given remain.
  lemma {:induction false} DeactivateUndoesActivate(t: Team, env: Env, chip: Chip)
    requires ChipsFollowRules(t) && t.row.chip == None && Normal(t, env.current)
    requires ActivateChip(t, env, chip).verdict == None
    ensures var u := ActivateChip(t, env, chip).team;
            && u.row.chip == Some(chip) && Uses(u.activations, chip) == Uses(t.activations, chip) + 1
            && DeactivateChip(u, env) == Outcome(t.(snapshots := u.snapshots, nextId := u.nextId), None)
  {
    SyncOfNormal(t, env.current, env.now);
    var u := ActivateChip(t, env, chip).team;
    assert u == Activated(t, chip, env);
    assert u.activations[..|t.activations|] == t.activations;
    DeactivateAfterCapture(t, env, chip, u.snapshots);
    assert u.(snapshots := u.snapshots) == u;
  }

  lemma {:induction false} PlainMultipliers(picks: seq<Pick>, after: seq<Pick>)
    requires Multiplied(HeldOf(picks), 2)
    requires after == picks || after == ApplyMultiplier(picks, 3)
    ensures ApplyMultiplier(after, 2) == picks
  {
    forall i | 0 <= i < |picks|
      ensures Multiply(after[i], 2) == picks[i]
    {
      assert HeldOf(picks)[i] == picks[i].held;
    }
  }

  // ----- The condition is needed ---------------------------------------------------------------------

  // When a Free Hit ends the multipliers are right exactly when its snapshot holds no tripled captain.
  lemma {:induction false} EndIsRightExactlyWhen(t: Team, current: nat, now: int)
    requires t.row.chip == Some(FreeHit) && Chosen(t.activations, FreeHit).Some?
    requires Expired(Chosen(t.activations, FreeHit).value, current)
    requires Chosen(t.activations, FreeHit).value.matchday.value in t.snapshots
    ensures MultipliersRight(Synced(t, current, now))
       <==> Plain(t.snapshots, Chosen(t.activations, FreeHit).value.matchday.value)
  {
    ChosenFacts(t.activations, FreeHit);
    var s := t.snapshots[Chosen(t.activations, FreeHit).value.matchday.value];
    assert HeldOf(Synced(t, current, now).picks) == s.held;
  }
}
