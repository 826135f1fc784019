/** How a Free Hit ends, and when its end undoes it.

    A Free Hit ends when the team is synchronised in a later matchday, or when the manager deactivates it. Only the
    first restores the captured picks, and neither restores the columns of the row. */
module FreeHitEnds {
  import opened Wrappers
  import opened Picks
  import opened ChipState
  import opened TeamOps
  import opened ChipRules
  import opened FreeHitRuns

  // A Free Hit is activated. It captures the team unless the matchday has a snapshot already.
  predicate Starts(t: Team, env: Env) {
    ActivateChip(t, env, FreeHit).verdict == None && Sync(t, env).row.chip == None
  }

  function Started(t: Team, env: Env): Team {
    ActivateChip(t, env, FreeHit).team
  }

  // ----- While it is played ---------------------------------------------------------------------

  // The only Free Hit of the team was activated in this matchday, and is active as long as it is the chip.
  ghost predicate PlayedIn(t: Team, matchday: nat) {
    && Uses(t.activations, FreeHit) == 1
    && (forall i :: 0 <= i < |t.activations| && t.activations[i].chip == FreeHit ==>
          t.activations[i].matchday == Some(matchday))
    && (t.row.chip == Some(FreeHit) ==> HasActive(t.activations, FreeHit))
  }

  lemma {:induction false} Unused(activations: seq<Activation>, chip: Chip)
    requires Uses(activations, chip) == 0
    ensures forall i :: 0 <= i < |activations| ==> activations[i].chip != chip
  {
    if activations != [] {
      Unused(activations[..|activations| - 1], chip);
    }
  }

  lemma {:induction false} StartIsPlayed(t: Team, env: Env)
    requires Starts(t, env)
    ensures Started(t, env) == Activated(Sync(t, env), FreeHit, env)
    ensures PlayedIn(Started(t, env), env.current) && Started(t, env).row.chip == Some(FreeHit)
    ensures Started(t, env).snapshots
         == if env.current in t.snapshots then t.snapshots
            else t.snapshots[env.current := Snapshot(Sync(t, env).row, HeldOf(Sync(t, env).picks))]
  {
    var before, u := Sync(t, env), Started(t, env);
    SyncedSnapshots(t, env.current, env.now);
    Unused(before.activations, FreeHit);
    assert u.activations[..|before.activations|] == before.activations;
    assert u.activations[|before.activations|].active;
  }

  // The activation that stands for it.
  lemma {:induction false} ChosenIsPlayed(t: Team, matchday: nat)
    requires PlayedIn(t, matchday) && t.row.chip == Some(FreeHit)
    ensures Chosen(t.activations, FreeHit).Some?
    ensures Chosen(t.activations, FreeHit).value.matchday == Some(matchday)
    ensures Chosen(t.activations, FreeHit).value in t.activations && Chosen(t.activations, FreeHit).value.active
    ensures Chosen(t.activations, FreeHit).value.chip == FreeHit
  {
    ChosenFacts(t.activations, FreeHit);
  }

  lemma {:induction false} SyncKeepsPlayed(t: Team, env: Env, matchday: nat)
    requires PlayedIn(t, matchday)
    ensures PlayedIn(Sync(t, env), matchday)
  {
    var s := Sync(t, env);
    var chosen := if t.row.chip.Some? then Chosen(t.activations, t.row.chip.value) else None;
    RetiringKeepsUses(t.activations, None, env.now, FreeHit);
    if chosen.Some? {
      RetiringKeepsUses(t.activations, Some(chosen.value.id), env.now, FreeHit);
    }
    if s.row.chip == Some(FreeHit) {
      ChosenIsPlayed(t, matchday);
      var i :| 0 <= i < |t.activations| && t.activations[i] == chosen.value;
      assert s.activations[i].active;
    }
  }

  lemma {:induction false} ActivateKeepsPlayed(t: Team, env: Env, chip: Chip, matchday: nat)
    requires PlayedIn(t, matchday)
    ensures PlayedIn(ActivateSynced(t, env, chip).team, matchday)
  {
    var u := ActivateSynced(t, env, chip).team;
    if u.activations != t.activations {
      assert u.activations[..|t.activations|] == t.activations;
    }
  }

  lemma {:induction false} StepKeepsPlayed(t: Team, env: Env, step: Step, matchday: nat)
    requires PlayedIn(t, matchday) && !step.Deactivate?
    ensures PlayedIn(Perform(t, env, step).team, matchday)
  {
    SyncKeepsPlayed(t, env, matchday);
    match step
    case Activate(chip) => ActivateKeepsPlayed(Sync(t, env), env, chip, matchday);
    case Lead(captain, vice) =>
    case Swap(incoming, outgoing) =>
    case Save(request) =>
    case View =>
    case LockCapture =>
  }

  lemma {:induction false} RunKeepsPlayed(t: Team, script: Script, matchday: nat)
    requires PlayedIn(t, matchday) && forall i :: 0 <= i < |script| ==> !script[i].1.Deactivate?
    ensures PlayedIn(Run(t, script), matchday)
  {
    if script != [] {
      var last := |script| - 1;
      RunKeepsPlayed(t, script[..last], matchday);
      StepKeepsPlayed(Run(t, script[..last]), script[last].0, script[last].1, matchday);
    }
  }

  // ----- Its two ends ---------------------------------------------------------------------------

  // A later matchday was reached, or the manager may deactivate it.
  predicate CanEnd(matchday: nat, env: Env, deactivated: bool) {
    if deactivated then Guard(env).None? else 0 < matchday < env.current
  }

  function End(t: Team, env: Env, deactivated: bool): Team {
    if deactivated then DeactivateChip(t, env).team else Sync(t, env)
  }

  // Deactivating keeps picks and columns, and gives the use back only in the matchday of the activation.
  lemma {:induction false} DeactivatedEnd(t: Team, env: Env, matchday: nat)
    requires PlayedIn(t, matchday) && t.row.chip == Some(FreeHit) && Guard(env).None?
    ensures var after := End(t, env, true);
            && after.row == t.row.(chip := None) && after.picks == ApplyMultiplier(t.picks, 2)
            && after.transfers == t.transfers && NoneActive(after.activations)
            && Uses(after.activations, FreeHit) == if env.current == matchday then 0 else 1
  {
    var cancelled := Cancelled(t.activations, FreeHit, env.current);
    ChosenIsPlayed(t, matchday);
    CancelledTakesOne(t.activations, FreeHit, env.current);
    RetiringKeepsUses(cancelled, None, env.now, FreeHit);
    assert exists i :: 0 <= i < |t.activations| && t.activations[i] == Chosen(t.activations, FreeHit).value;
  }

  // A later matchday restores the picks, keeps the columns, and the use is spent.
  lemma {:induction false} SynchronisedEnd(t: Team, env: Env, matchday: nat)
    requires PlayedIn(t, matchday) && t.row.chip == Some(FreeHit) && 0 < matchday < env.current
    requires matchday in t.snapshots
    ensures var after := End(t, env, false);
            && after.row == t.row.(chip := None) && HeldOf(after.picks) == t.snapshots[matchday].held
            && after.transfers == t.transfers && NoneActive(after.activations)
            && Uses(after.activations, FreeHit) == 1
  {
    ChosenIsPlayed(t, matchday);
    SyncUndoesExactlyWhen(t, env.current, env.now);
    RetiringKeepsUses(t.activations, None, env.now, FreeHit);
  }

  // The same lines at the same prices and points, whatever multipliers are stored.
  ghost predicate SameHoldings(a: seq<Pick>, b: seq<Pick>) {
    && |a| == |b|
    && forall i :: 0 <= i < |a| ==> a[i].held == b[i].held.(multiplier := a[i].held.multiplier)
  }

  lemma {:induction false} ResetHoldings(a: seq<Pick>, b: seq<Pick>)
    requires Multiplied(HeldOf(b), 2)
    ensures HeldOf(ApplyMultiplier(a, 2)) == HeldOf(b) <==> SameHoldings(a, b)
  {
    var reset := ApplyMultiplier(a, 2);
    assert |HeldOf(reset)| == |a| && |HeldOf(b)| == |b|;
    assert forall i :: 0 <= i < |a| ==> HeldOf(reset)[i] == Multiply(a[i], 2).held;
    assert forall i :: 0 <= i < |b| ==> HeldOf(b)[i] == b[i].held;
  }

  // Whatever happens between, when a Free Hit ends the team is as it was before exactly when nothing changed its
  // columns meanwhile, and picks follow the way it ends: deactivated, they are as before when lines, prices and points
  // still are; otherwise when the snapshot is its own or happens to hold the same. The use is given back only by a
  // deactivation in the matchday of the activation.
  lemma {:induction false} FreeHitEndsExactly(t: Team, env: Env, script: Script, end: Env, deactivated: bool)
    requires Starts(t, env) && forall i :: 0 <= i < |script| ==> !script[i].1.Deactivate?
    requires Run(Started(t, env), script).row.chip == Some(FreeHit) && CanEnd(env.current, end, deactivated)
    ensures var before, during := Sync(t, env), Run(Started(t, env), script);
            var after := End(during, end, deactivated);
            && after.row.chip == None && NoneActive(after.activations)
            && (SameColumns(after.row, before.row) <==> SameColumns(during.row, before.row))
            && (HeldOf(after.picks) == HeldOf(before.picks)
                <==> if deactivated then SameHoldings(during.picks, before.picks) && MultipliersRight(before)
                     else env.current in t.snapshots ==> t.snapshots[env.current].held == HeldOf(before.picks))
            && Uses(after.activations, FreeHit) == if deactivated && end.current == env.current then 0 else 1
  {
    var before, during := Sync(t, env), Run(Started(t, env), script);
    StartIsPlayed(t, env);
    RunKeepsPlayed(Started(t, env), script, env.current);
    RunKeepsSnapshots(Started(t, env), script);
    if deactivated {
      DeactivatedEnd(during, end, env.current);
      ResetIsRight(during.picks);
      if MultipliersRight(before) {
        ResetHoldings(during.picks, before.picks);
      }
    } else {
      SynchronisedEnd(during, end, env.current);
    }
  }

  lemma {:induction false} ResetIsRight(picks: seq<Pick>)
    ensures Multiplied(HeldOf(ApplyMultiplier(picks, 2)), 2)
  {
  }

  // ----- What survives ----------------------------------------------------------------------------

  // In its own matchday a Free Hit goes on, and so do picks and columns.
  lemma {:induction false} SyncDuring(t: Team, env: Env)
    requires PlayedIn(t, env.current) && t.row.chip == Some(FreeHit)
    ensures Sync(t, env) == t.(activations := Sync(t, env).activations)
    ensures PlayedIn(Sync(t, env), env.current)
  {
    ChosenIsPlayed(t, env.current);
    SyncKeepsPlayed(t, env, env.current);
  }

  // A team under a Free Hit after an accepted transfer.
  function SwappedDuring(t: Team, env: Env, incoming: Id, outgoing: Id): Team {
    CreateTransfer(Started(t, env), env, incoming, outgoing).team
  }

  lemma {:induction false} SwapDuring(t: Team, env: Env, incoming: Id, outgoing: Id)
    requires Starts(t, env) && CreateTransfer(Started(t, env), env, incoming, outgoing).verdict == None
    ensures var before, during := Sync(t, env), SwappedDuring(t, env, incoming, outgoing);
            && Find(before.picks, outgoing) < |before.picks| && Find(before.picks, incoming) == |before.picks|
            && incoming in env.players
            && during.picks == Replaced(before.picks, Find(before.picks, outgoing), incoming, env.players)
            && during.row == before.row.(
                               chip := Some(FreeHit),
                               budget := Projected(before.picks, Find(before.picks, outgoing), before.row.budget,
                                                   incoming, env.players))
            && during.transfers == before.transfers + [Transfer(env.current, incoming, outgoing, 0)]
            && PlayedIn(during, env.current)
            && (env.current !in t.snapshots ==>
                  && env.current in during.snapshots
                  && during.snapshots[env.current] == Snapshot(before.row, HeldOf(before.picks)))
  {
    StartIsPlayed(t, env);
    SyncDuring(Started(t, env), env);
  }

  lemma {:induction false} SwapRun(t: Team, env: Env, last: (Env, Step), incoming: Id, outgoing: Id)
    ensures Run(t, [(env, Activate(FreeHit)), (env, Swap(incoming, outgoing)), last])
         == Perform(SwappedDuring(t, env, incoming, outgoing), last.0, last.1).team
  {
    ThreeSteps(t, (env, Activate(FreeHit)), (env, Swap(incoming, outgoing)), last);
  }

  // The end in a later matchday takes the bought player back, but not his price: budget and squad no longer fit,
  // except when he cost what the sold one brought.
  lemma {:induction false} MoneySurvivesFreeHit(t: Team, env: Env, later: Env, incoming: Id, outgoing: Id)
    requires Starts(t, env) && CreateTransfer(Started(t, env), env, incoming, outgoing).verdict == None
    requires 0 < env.current < later.current && env.current !in t.snapshots
    ensures var before := Sync(t, env);
            var after := Run(t, [(env, Activate(FreeHit)), (env, Swap(incoming, outgoing)), (later, View)]);
            var i := Find(before.picks, outgoing);
            && after.row.chip == None && HeldOf(after.picks) == HeldOf(before.picks)
            && i < |before.picks| && incoming in env.players
            && after.row.budget == before.row.budget + before.picks[i].held.sellPrice - env.players[incoming].price
            && (SameColumns(after.row, before.row) <==> before.picks[i].held.sellPrice == env.players[incoming].price)
  {
    MoneyAtEnd(t, env, later, incoming, outgoing);
    MoneyRun(t, env, later, incoming, outgoing);
  }

  lemma {:induction false} MoneyRun(t: Team, env: Env, later: Env, incoming: Id, outgoing: Id)
    ensures Run(t, [(env, Activate(FreeHit)), (env, Swap(incoming, outgoing)), (later, View)])
         == Sync(SwappedDuring(t, env, incoming, outgoing), later)
  {
    SwapRun(t, env, (later, View), incoming, outgoing);
  }

  lemma {:induction false} MoneyAtEnd(t: Team, env: Env, later: Env, incoming: Id, outgoing: Id)
    requires Starts(t, env) && CreateTransfer(Started(t, env), env, incoming, outgoing).verdict == None
    requires 0 < env.current < later.current && env.current !in t.snapshots
    ensures var before, after := Sync(t, env), Sync(SwappedDuring(t, env, incoming, outgoing), later);
            var i := Find(before.picks, outgoing);
            && HeldOf(after.picks) == HeldOf(before.picks) && i < |before.picks| && incoming in env.players
            && after.row
               == before.row.(
                    budget := before.row.budget + before.picks[i].held.sellPrice - env.players[incoming].price)
  {
    SwapDuring(t, env, incoming, outgoing);
    SynchronisedEnd(SwappedDuring(t, env, incoming, outgoing), later, env.current);
  }

  // The end by deactivation keeps the bought player, who was free of charge; in the same matchday the use is even
  // given back.
  lemma {:induction false} PlayerSurvivesDeactivation(t: Team, env: Env, end: Env, incoming: Id, outgoing: Id)
    requires Starts(t, env) && CreateTransfer(Started(t, env), env, incoming, outgoing).verdict == None
    requires Guard(end).None?
    ensures var before := Sync(t, env);
            var after := Run(t, [(env, Activate(FreeHit)), (env, Swap(incoming, outgoing)), (end, Deactivate)]);
            && after.row.chip == None && NoneActive(after.activations)
            && Find(before.picks, incoming) == |before.picks| && Find(after.picks, incoming) < |after.picks|
            && HeldOf(after.picks) != HeldOf(before.picks)
            && after.transfers == before.transfers + [Transfer(env.current, incoming, outgoing, 0)]
            && Uses(after.activations, FreeHit) == if end.current == env.current then 0 else 1
  {
    var before, during := Sync(t, env), SwappedDuring(t, env, incoming, outgoing);
    var after := End(during, end, true);
    SwapDuring(t, env, incoming, outgoing);
    DeactivatedEnd(during, end, env.current);
    SwapRun(t, env, (end, Deactivate), incoming, outgoing);
    var i := Find(before.picks, outgoing);
    assert PlayerOf(after.picks[i]) == incoming;
    assert HeldOf(after.picks)[i].line.player == incoming && HeldOf(before.picks)[i].line.player == outgoing;
  }

  function Relabelling(formation: string): SaveRequest {
    SaveRequest(None, Some(formation), [])
  }

  function RelabelledDuring(t: Team, env: Env, formation: string): Team {
    UpdateTeam(Started(t, env), env, Relabelling(formation)).team
  }

  // A formation label chosen during a Free Hit survives its end in a later matchday.
  lemma {:induction false} FormationSurvivesFreeHit(t: Team, env: Env, later: Env, formation: string)
    requires Starts(t, env) && 0 < env.current < later.current && env.current !in t.snapshots
    ensures var before, after := Sync(t, env), Sync(RelabelledDuring(t, env, formation), later);
            HeldOf(after.picks) == HeldOf(before.picks) && after.row == before.row.(formation := formation)
  {
    StartIsPlayed(t, env);
    SyncDuring(Started(t, env), env);
    SynchronisedEnd(RelabelledDuring(t, env, formation), later, env.current);
  }

  // ----- A snapshot of its matchday that is not its own -----------------------------------------------

  // The team that played Triple Captain, was locked and unlocked, and gave the chip up again: it is as before, but its
  // snapshot holds the captain three times.
  function LockedUnderTripleCaptain(t: Team, env: Env): Team {
    DeactivateChip(Capture(ActivateChip(t, env, TripleCaptain).team, env.current), env).team
  }

  lemma {:induction false} TripledSnapshot(t: Team, env: Env)
    requires ChipsFollowRules(t) && t.row.chip == None && Normal(t, env.current) && Guard(env).None?
    requires Uses(t.activations, TripleCaptain) == 0 && env.current !in t.snapshots
    ensures var c := LockedUnderTripleCaptain(t, env);
            && c == t.(snapshots := c.snapshots, nextId := t.nextId + 1) && env.current in c.snapshots
            && c.snapshots[env.current].held == HeldOf(ApplyMultiplier(t.picks, 3))
  {
    SyncOfNormal(t, env.current, env.now);
    var a := Activated(t, TripleCaptain, env);
    var b := Capture(a, env.current);
    assert b == a.(snapshots := b.snapshots);
    DeactivateAfterCapture(t, env, TripleCaptain, b.snapshots);
  }

  lemma {:induction false} TripledAtEnd(t: Team, env: Env, later: Env)
    requires ChipsFollowRules(t) && t.row.chip == None && Normal(t, env.current) && Guard(env).None?
    requires Uses(t.activations, TripleCaptain) == 0 == Uses(t.activations, FreeHit)
    requires 0 < env.current < later.current && env.current !in t.snapshots
    ensures var end := Sync(Started(LockedUnderTripleCaptain(t, env), env), later);
            end.row == t.row && HeldOf(end.picks) == HeldOf(ApplyMultiplier(t.picks, 3))
  {
    var c := LockedUnderTripleCaptain(t, env);
    TripledSnapshot(t, env);
    SyncOfNormal(c, env.current, env.now);
    StartIsPlayed(c, env);
    SynchronisedEnd(Started(c, env), later, env.current);
  }

  lemma {:induction false} TripledIsWrong(t: Team, end: Team)
    requires end.row.chip == None && HeldOf(end.picks) == HeldOf(ApplyMultiplier(t.picks, 3))
    ensures MultipliersRight(end) <==> forall i :: 0 <= i < |t.picks| ==> !t.picks[i].held.line.captain
  {
    assert |HeldOf(end.picks)| == |t.picks|;
    assert forall i :: 0 <= i < |t.picks| ==> HeldOf(end.picks)[i] == Multiply(t.picks[i], 3).held;
  }

  // A snapshot captured by a lock under Triple Captain is found again by a Free Hit: once that ends, the captain
  // counts three times with no chip in play.
  lemma {:induction false} ReusedSnapshotTriples(t: Team, env: Env, later: Env)
    requires ChipsFollowRules(t) && t.row.chip == None && Normal(t, env.current) && Guard(env).None?
    requires Uses(t.activations, TripleCaptain) == 0 == Uses(t.activations, FreeHit)
    requires 0 < env.current < later.current && env.current !in t.snapshots
    ensures var end := Run(t, [(env, Activate(TripleCaptain)), (env, LockCapture), (env, Deactivate),
                               (env, Activate(FreeHit)), (later, View)]);
            && end.row == t.row && HeldOf(end.picks) == HeldOf(ApplyMultiplier(t.picks, 3))
            && (MultipliersRight(end) <==> forall i :: 0 <= i < |t.picks| ==> !t.picks[i].held.line.captain)
  {
    var end := Sync(Started(LockedUnderTripleCaptain(t, env), env), later);
    TripleCaptainRun(t, env, later);
    TripledAtEnd(t, env, later);
    TripledIsWrong(t, end);
  }

  lemma {:induction false} TripleCaptainRun(t: Team, env: Env, later: Env)
    ensures Run(t, [(env, Activate(TripleCaptain)), (env, LockCapture), (env, Deactivate), (env, Activate(FreeHit)),
                    (later, View)])
         == Sync(Started(LockedUnderTripleCaptain(t, env), env), later)
  {
    var a := ActivateChip(t, env, TripleCaptain).team;
    assert Perform(t, env, Activate(TripleCaptain)).team == a;
    assert Perform(Capture(a, env.current), env, Deactivate).team == LockedUnderTripleCaptain(t, env);
    FiveSteps(t, (env, Activate(TripleCaptain)), (env, LockCapture), (env, Deactivate), (env, Activate(FreeHit)),
              (later, View));
  }

  lemma {:induction false} FiveSteps(t: Team, s0: (Env, Step), s1: (Env, Step), s2: (Env, Step), s3: (Env, Step),
                                     s4: (Env, Step))
    ensures Run(t, [s0, s1, s2, s3, s4])
         == Perform(Perform(Perform(Perform(Perform(t, s0.0, s0.1).team, s1.0, s1.1).team, s2.0, s2.1).team,
                            s3.0, s3.1).team, s4.0, s4.1).team
  {
    assert [s0][..0] == [] && [s0, s1][..1] == [s0] && [s0, s1, s2][..2] == [s0, s1];
    assert [s0, s1, s2, s3][..3] == [s0, s1, s2] && [s0, s1, s2, s3, s4][..4] == [s0, s1, s2, s3];
    assert Run(t, [s0]) == Perform(t, s0.0, s0.1).team;
    assert Run(t, [s0, s1]) == Perform(Run(t, [s0]), s1.0, s1.1).team;
    assert Run(t, [s0, s1, s2]) == Perform(Run(t, [s0, s1]), s2.0, s2.1).team;
    assert Run(t, [s0, s1, s2, s3]) == Perform(Run(t, [s0, s1, s2]), s3.0, s3.1).team;
  }
}
