/** When a chip ends: which activations are active after a synchronisation, by matchday number. */
module ChipExpiry {
  import opened Wrappers
  import opened StableSort
  import opened Picks
  import opened ChipState
  import opened TeamOps
  import opened ChipRules

  // Active in a matchday that is over; a missing matchday or number never is.
  ghost predicate Over(a: Activation, current: nat) {
    a.active && exists m :: a.matchday == Some(m) && 0 < m < current
  }

  ghost predicate NothingOver(activations: seq<Activation>, current: nat) {
    forall i :: 0 <= i < |activations| ==> !Over(activations[i], current)
  }

  // The newest active activation of the chip, the one stored first among equally new ones.
  ghost predicate StandsForChip(activations: seq<Activation>, chip: Chip, i: int) {
    && 0 <= i < |activations| && activations[i].active && activations[i].chip == chip
    && (forall j :: 0 <= j < i && activations[j].active && activations[j].chip == chip ==>
          activations[j].activatedAt < activations[i].activatedAt)
    && (forall j :: i < j < |activations| && activations[j].active && activations[j].chip == chip ==>
          activations[j].activatedAt <= activations[i].activatedAt)
  }

  // ----- Which activation stands for the chip ------------------------------------------------------------

  lemma {:induction false} FirstOfInsert(x: Activation, s: seq<Activation>, chip: Chip)
    requires Sorted(s, Newest)
    ensures FirstOf(Insert(x, s, Newest), chip)
         == if x.chip != chip then FirstOf(s, chip)
            else match FirstOf(s, chip)
                 case None => Some(x)
                 case Some(y) => if y.activatedAt > x.activatedAt then Some(y) else Some(x)
  {
    if s != [] && Before(Newest(s[0]), Newest(x)) {
      FirstOfInsert(x, s[1..], chip);
      var r := Insert(x, s, Newest);
      assert r[0] == s[0] && r[1..] == Insert(x, s[1..], Newest);
    } else {
      assert ([x] + s)[1..] == s;
      FirstIsOlder(s, chip);
    }
  }

  // In a list sorted by age nobody is newer than the first.
  lemma {:induction false} FirstIsOlder(s: seq<Activation>, chip: Chip)
    requires Sorted(s, Newest)
    ensures FirstOf(s, chip).Some? ==> FirstOf(s, chip).value.activatedAt <= s[0].activatedAt
  {
    FirstOfFacts(s, chip);
    if FirstOf(s, chip).Some? {
      var i :| 0 <= i < |s| && s[i] == FirstOf(s, chip).value;
      if i > 0 {
        assert !Before(Newest(s[i]), Newest(s[0]));
      }
    }
  }

  lemma {:induction false} ChosenStep(a: Activation, rest: seq<Activation>, chip: Chip)
    ensures Chosen([a] + rest, chip)
         == if !a.active || a.chip != chip then Chosen(rest, chip)
            else match Chosen(rest, chip)
                 case None => Some(a)
                 case Some(y) => if y.activatedAt > a.activatedAt then Some(y) else Some(a)
  {
    assert ([a] + rest)[1..] == rest;
    SortSorts(Filter(rest, IsActive), Newest);
    if a.active {
      var kept := Filter(rest, IsActive);
      assert Filter([a] + rest, IsActive) == [a] + kept && ([a] + kept)[1..] == kept;
      assert Actives([a] + rest) == Insert(a, Actives(rest), Newest);
      FirstOfInsert(a, Actives(rest), chip);
    }
  }

  lemma {:induction false} StandsBehind(a: Activation, rest: seq<Activation>, chip: Chip, i: int)
    requires StandsForChip(rest, chip, i)
    ensures StandsForChip([a] + rest, chip,
                          if a.active && a.chip == chip && a.activatedAt >= rest[i].activatedAt then 0 else i + 1)
  {
    var all := [a] + rest;
    assert all[0] == a && forall j :: 0 < j < |all| ==> all[j] == rest[j - 1];
  }

  lemma {:induction false} StandsAlone(a: Activation, rest: seq<Activation>, chip: Chip)
    requires forall i :: 0 <= i < |rest| && rest[i].active ==> rest[i].chip != chip
    ensures if a.active && a.chip == chip then StandsForChip([a] + rest, chip, 0)
            else forall i :: 0 <= i <= |rest| && ([a] + rest)[i].active ==> ([a] + rest)[i].chip != chip
  {
    var all := [a] + rest;
    assert all[0] == a && forall j :: 0 < j < |all| ==> all[j] == rest[j - 1];
  }

  // The activation that a synchronisation goes by.
  lemma {:induction false} ChosenIs(activations: seq<Activation>, chip: Chip)
    ensures match Chosen(activations, chip)
            case None => forall i :: 0 <= i < |activations| && activations[i].active ==> activations[i].chip != chip
            case Some(a) => exists i :: StandsForChip(activations, chip, i) && activations[i] == a
  {
    if activations == [] {
      assert Filter(activations, IsActive) == [];
    } else {
      var a, rest := activations[0], activations[1..];
      assert activations == [a] + rest;
      ChosenIs(rest, chip);
      ChosenStep(a, rest, chip);
      if Chosen(rest, chip).Some? {
        var i :| StandsForChip(rest, chip, i) && rest[i] == Chosen(rest, chip).value;
        StandsBehind(a, rest, chip, i);
      } else {
        StandsAlone(a, rest, chip);
      }
    }
  }

  // ----- What a synchronisation does -------------------------------------------------------------------

  // Whatever was stored: afterwards nothing is active that is over, of any chip.
  lemma {:induction false} NothingOverAfterSync(t: Team, current: nat, now: int)
    requires DistinctIds(t.activations)
    ensures NothingOver(Synced(t, current, now).activations, current)
  {
    var chosen := if t.row.chip.Some? then Chosen(t.activations, t.row.chip.value) else None;
    if t.row.chip.Some? {
      ChosenFacts(t.activations, t.row.chip.value);
    }
    if chosen.Some? {
      var i :| 0 <= i < |t.activations| && t.activations[i] == chosen.value;
      assert forall j :: 0 <= j < |t.activations| && j != i ==> t.activations[j].id != t.activations[i].id;
    }
  }

  // The chip ends when the activation that stands for it is over or missing, and stays otherwise. Every other active
  // activation is consumed, and so is that of an ended chip.
  lemma {:induction false} ChipEndsExactlyWhen(t: Team, current: nat, now: int, i: int)
    requires DistinctIds(t.activations) && t.row.chip.Some? && StandsForChip(t.activations, t.row.chip.value, i)
    ensures var after := Synced(t, current, now);
            var over := exists m :: t.activations[i].matchday == Some(m) && 0 < m < current;
            && |after.activations| == |t.activations|
            && after.row.chip == (if over then None else t.row.chip)
            && forall j :: 0 <= j < |t.activations| ==>
                 after.activations[j]
                 == if t.activations[j].active && (over || j != i)
                    then t.activations[j].(active := false,
                                           consumedAt := if t.activations[j].consumedAt == None then Some(now)
                                                         else t.activations[j].consumedAt)
                    else t.activations[j]
  {
    ChosenIs(t.activations, t.row.chip.value);
    assert Chosen(t.activations, t.row.chip.value) == Some(t.activations[i]) by {
      OneStands(t.activations, t.row.chip.value, i);
    }
  }

  lemma {:induction false} OneStands(activations: seq<Activation>, chip: Chip, i: int)
    requires StandsForChip(activations, chip, i)
    ensures Chosen(activations, chip) == Some(activations[i])
  {
    ChosenIs(activations, chip);
    if Chosen(activations, chip).Some? {
      var k :| StandsForChip(activations, chip, k) && activations[k] == Chosen(activations, chip).value;
      assert k == i;
    }
  }

  // Without an active activation of its chip a team has no chip, and everything active is consumed.
  lemma {:induction false} ChipWithoutActivationEnds(t: Team, current: nat, now: int)
    requires t.row.chip.Some? ==>
               forall i :: 0 <= i < |t.activations| && t.activations[i].active ==>
                 t.activations[i].chip != t.row.chip.value
    ensures var after := Synced(t, current, now);
            && after.row.chip == None && after.picks == t.picks
            && forall j :: 0 <= j < |after.activations| ==> !after.activations[j].active
  {
    if t.row.chip.Some? {
      ChosenFacts(t.activations, t.row.chip.value);
    }
  }

  // What the end does to the team besides: a Free Hit restores the captured picks, a Triple Captain doubles the captain
  // again, the other chips leave the picks alone; the columns stay.
  lemma {:induction false} EndedTeam(t: Team, current: nat, now: int, i: int, m: nat)
    requires DistinctIds(t.activations) && t.row.chip.Some? && StandsForChip(t.activations, t.row.chip.value, i)
    requires t.activations[i].matchday == Some(m) && 0 < m < current
    ensures var after := Synced(t, current, now);
            && after.row == t.row.(chip := None) && after.snapshots == t.snapshots && after.transfers == t.transfers
            && (t.row.chip.value in {Wildcard, BenchBoost} ==> after.picks == t.picks)
            && (t.row.chip.value == FreeHit && m !in t.snapshots ==> after.picks == t.picks)
            && (t.row.chip.value == FreeHit && m in t.snapshots ==> HeldOf(after.picks) == t.snapshots[m].held)
            && (t.row.chip.value == TripleCaptain ==>
                  && |after.picks| == |t.picks|
                  && forall k :: 0 <= k < |t.picks| ==>
                       after.picks[k] == t.picks[k].(held := t.picks[k].held.(
                         multiplier := if t.picks[k].held.line.captain then 2 else 1)))
  {
    OneStands(t.activations, t.row.chip.value, i);
  }

  // ----- Over runs ---------------------------------------------------------------------------------------

  lemma {:induction false} NothingOverWithNew(s: Team, env: Env, chip: Chip)
    requires NothingOver(s.activations, env.current)
    ensures NothingOver(ActivateSynced(s, env, chip).team.activations, env.current)
  {
  }

  // Whether an operation synchronises the team: a refused guard stops most of them before, and a capture never does.
  predicate Synchronises(env: Env, step: Step) {
    match step
    case Swap(_, _) => true
    case View => true
    case LockCapture => false
    case _ => env.access == Open
  }

  lemma {:induction false} StepEndsOver(t: Team, env: Env, step: Step)
    requires DistinctIds(t.activations) && Synchronises(env, step)
    ensures NothingOver(Perform(t, env, step).team.activations, env.current)
  {
    NothingOverAfterSync(t, env.current, env.now);
    match step
    case Activate(chip) => NothingOverWithNew(Sync(t, env), env, chip);
    case Deactivate =>
      if t.row.chip.Some? {
        var u := t.(activations := Cancelled(t.activations, t.row.chip.value, env.current),
                    row := t.row.(chip := None), picks := ApplyMultiplier(t.picks, 2));
        CancelledMembers(t.activations, t.row.chip.value, env.current);
        NothingOverAfterSync(u, env.current, env.now);
      }
    case Lead(captain, vice) =>
    case Swap(incoming, outgoing) =>
    case Save(request) =>
    case View =>
  }

  lemma {:induction false} SyncKeepsIds(t: Team, current: nat, now: int)
    requires IdsBelow(t.activations, t.nextId)
    ensures IdsBelow(Synced(t, current, now).activations, Synced(t, current, now).nextId)
  {
  }

  lemma {:induction false} DeactivateKeepsIds(t: Team, env: Env)
    requires IdsBelow(t.activations, t.nextId)
    ensures IdsBelow(DeactivateChip(t, env).team.activations, DeactivateChip(t, env).team.nextId)
  {
    SyncKeepsIds(t, env.current, env.now);
    if t.row.chip.Some? {
      var u := t.(activations := Cancelled(t.activations, t.row.chip.value, env.current),
                  row := t.row.(chip := None), picks := ApplyMultiplier(t.picks, 2));
      CancelledMembers(t.activations, t.row.chip.value, env.current);
      forall i | 0 <= i < |u.activations|
        ensures u.activations[i].id < u.nextId
      {
        assert u.activations[i] in t.activations;
      }
      SyncKeepsIds(u, env.current, env.now);
    }
  }

  lemma {:induction false} ActivateKeepsIds(s: Team, env: Env, chip: Chip)
    requires IdsBelow(s.activations, s.nextId)
    ensures IdsBelow(ActivateSynced(s, env, chip).team.activations, ActivateSynced(s, env, chip).team.nextId)
  {
  }

  lemma {:induction false} StepKeepsIds(t: Team, env: Env, step: Step)
    requires IdsBelow(t.activations, t.nextId)
    ensures IdsBelow(Perform(t, env, step).team.activations, Perform(t, env, step).team.nextId)
  {
    SyncKeepsIds(t, env.current, env.now);
    match step
    case Activate(chip) => ActivateKeepsIds(Sync(t, env), env, chip);
    case Deactivate => DeactivateKeepsIds(t, env);
    case Lead(captain, vice) =>
    case Swap(incoming, outgoing) =>
    case Save(request) =>
    case View =>
    case LockCapture =>
  }

  lemma {:induction false} RunKeepsIds(t: Team, script: Script)
    requires IdsBelow(t.activations, t.nextId)
    ensures IdsBelow(Run(t, script).activations, Run(t, script).nextId)
  {
    if script != [] {
      var last := |script| - 1;
      RunKeepsIds(t, script[..last]);
      StepKeepsIds(Run(t, script[..last]), script[last].0, script[last].1);
    }
  }

  // Over every run: after an operation that synchronises, no chip of an earlier matchday is active.
  lemma {:induction false} NoOldChipOverRuns(t: Team, script: Script)
    requires IdsBelow(t.activations, t.nextId) && script != []
    requires Synchronises(script[|script| - 1].0, script[|script| - 1].1)
    ensures NothingOver(Run(t, script).activations, script[|script| - 1].0.current)
  {
    var last := |script| - 1;
    RunKeepsIds(t, script[..last]);
    StepEndsOver(Run(t, script[..last]), script[last].0, script[last].1);
  }
}
