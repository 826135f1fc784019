/** The undo of a Free Hit, after any run. */
module FreeHitRuns {
  import opened Wrappers
  import opened Picks
  import opened ChipState
  import opened TeamOps

  // Snapshots are written once: no operation changes or drops one.
  ghost predicate KeepsSnapshots(t: Team, u: Team) {
    forall m :: m in t.snapshots ==> m in u.snapshots && u.snapshots[m] == t.snapshots[m]
  }

  lemma {:induction false} SyncedSnapshots(t: Team, current: nat, now: int)
    ensures Synced(t, current, now).snapshots == t.snapshots
  {
  }

  lemma {:induction false} ActivateKeepsSnapshots(t: Team, env: Env, chip: Chip)
    ensures KeepsSnapshots(t, ActivateChip(t, env, chip).team)
  {
    SyncedSnapshots(t, env.current, env.now);
  }

  lemma {:induction false} StepKeepsSnapshots(t: Team, env: Env, step: Step)
    ensures KeepsSnapshots(t, Perform(t, env, step).team)
  {
    SyncedSnapshots(t, env.current, env.now);
    match step
    case Activate(chip) => ActivateKeepsSnapshots(t, env, chip);
    case Deactivate =>
    case Lead(captain, vice) =>
    case Swap(incoming, outgoing) =>
    case Save(request) =>
    case View =>
    case LockCapture =>
  }

  lemma {:induction false} RunKeepsSnapshots(t: Team, script: Script)
    ensures KeepsSnapshots(t, Run(t, script))
  {
    if script != [] {
      var last := |script| - 1;
      RunKeepsSnapshots(t, script[..last]);
      StepKeepsSnapshots(Run(t, script[..last]), script[last].0, script[last].1);
    }
  }

  // A Free Hit that took its own snapshot: after any run, restoring it brings back the picks (up to their ids and
  // cached position), budget, free transfers, formation and name of before the activation.
  lemma {:induction false} FreeHitUndo(t: Team, env: Env, script: Script)
    requires ActivateChip(t, env, FreeHit).verdict == None
    requires Sync(t, env).row.chip != Some(FreeHit) && env.current !in t.snapshots
    ensures var before := Sync(t, env);
            var after := Restored(Run(ActivateChip(t, env, FreeHit).team, script), env.current);
            && HeldOf(after.picks) == HeldOf(before.picks)
            && SameColumns(after.row, before.row) && after.row == before.row.(chip := after.row.chip)
            && after.row.budget == before.row.budget && after.row.freeTransfers == before.row.freeTransfers
            && after.row.formation == before.row.formation
  {
    var before := Sync(t, env);
    var start := ActivateChip(t, env, FreeHit).team;
    assert start == Activated(before, FreeHit, env);
    assert start.snapshots[env.current] == Snapshot(before.row, HeldOf(before.picks));
    RunKeepsSnapshots(start, script);
    RestoreUndoes(Run(start, script), env.current);
  }

  lemma {:induction false} ThreeSteps(t: Team, s0: (Env, Step), s1: (Env, Step), s2: (Env, Step))
    ensures Run(t, [s0, s1, s2])
         == Perform(Perform(Perform(t, s0.0, s0.1).team, s1.0, s1.1).team, s2.0, s2.1).team
  {
    assert [s0][..0] == [] && [s0, s1][..1] == [s0] && [s0, s1, s2][..2] == [s0, s1];
    assert Run(t, [s0]) == Perform(t, s0.0, s0.1).team;
    assert Run(t, [s0, s1]) == Perform(Run(t, [s0]), s1.0, s1.1).team;
  }
}
