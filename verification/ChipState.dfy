/** The chip of a fantasy team: the stored state of a team and its synchronisation with the current matchday. */
module ChipState {
  import opened Wrappers
  import opened StableSort
  import opened Picks

  datatype Chip = Wildcard | FreeHit | BenchBoost | TripleCaptain

  // The columns of a team that a manager can change.
  datatype Row = Row(
    name: string, formation: string, budget: int, totalBudget: int, teamValue: int, freeTransfers: int,
    chip: Option<Chip>)

  // The matchday is its number; it is null once the matchday was deleted.
  datatype Activation = Activation(
    id: Id, chip: Chip, active: bool, activatedAt: int, consumedAt: Option<int>, matchday: Option<nat>)

  datatype Snapshot = Snapshot(row: Row, held: seq<Held>)

  datatype Transfer = Transfer(matchday: nat, incoming: Id, outgoing: Id, cost: int)

  datatype Team = Team(
    row: Row,
    picks: seq<Pick>,
    activations: seq<Activation>,
    snapshots: map<nat, Snapshot>,
    transfers: seq<Transfer>,
    nextId: Id)

  // ----- Activations --------------------------------------------------------------------------

  function Newest(a: Activation): SortKey {
    SortKey(-a.activatedAt, 0, 0)
  }

  function IsActive(a: Activation): bool {
    a.active
  }

  // Active activations, the newest first.
  function Actives(activations: seq<Activation>): seq<Activation> {
    Sort(Filter(activations, IsActive), Newest)
  }

  function FirstOf(activations: seq<Activation>, chip: Chip): Option<Activation> {
    if activations == [] then None
    else if activations[0].chip == chip then Some(activations[0])
    else FirstOf(activations[1..], chip)
  }

  // The activation that stands for the chip of the team.
  function Chosen(activations: seq<Activation>, chip: Chip): Option<Activation> {
    FirstOf(Actives(activations), chip)
  }

  function Retire(a: Activation, now: int): Activation {
    a.(active := false, consumedAt := Some(a.consumedAt.GetOr(now)))
  }

  // markChipActivationsInactive on every active activation but one.
  function RetireAllBut(activations: seq<Activation>, keep: Option<Id>, now: int): (r: seq<Activation>)
  {
    seq(|activations|, i requires 0 <= i < |activations| =>
      if activations[i].active && Some(activations[i].id) != keep then Retire(activations[i], now) else activations[i])
  }

  // A missing number, of the activation or of the tournament, never expires a chip.
  predicate Expired(a: Activation, current: nat) {
    current != 0 && a.matchday.Some? && a.matchday.value != 0 && a.matchday.value < current
  }

  ghost predicate DistinctIds(activations: seq<Activation>) {
    forall i, j :: 0 <= i < j < |activations| ==> activations[i].id != activations[j].id
  }

  // ----- Free Hit -----------------------------------------------------------------------------

  // Everything but the chip itself.
  predicate SameColumns(a: Row, b: Row) {
    a == b.(chip := a.chip)
  }

  function Renew(held: seq<Held>, id: Id): (r: seq<Pick>)
  {
    seq(|held|, i requires 0 <= i < |held| => Pick(id + i, None, held[i]))
  }

  // restoreFreeHitSnapshot
  function Restored(t: Team, matchday: nat): Team {
    if matchday !in t.snapshots then t
    else
      var s := t.snapshots[matchday];
      t.(row := s.row.(chip := t.row.chip), picks := Renew(s.held, t.nextId), nextId := t.nextId + |s.held|)
  }

  // ----- syncChipState --------------------------------------------------------------------------

  // The end of an expired chip. The row is saved from memory after the snapshot was restored, so what the restore did
  // to the row is overwritten; the picks stay restored.
  function Ended(t: Team, chip: Chip, matchday: nat): Team {
    var restored := if chip == FreeHit then Restored(t, matchday) else t;
    restored.(row := t.row.(chip := None),
    picks := if chip == TripleCaptain then ApplyMultiplier(t.picks, 2) else restored.picks)
  }

  function Synced(t: Team, current: nat, now: int): Team {
    var chosen := if t.row.chip.Some? then Chosen(t.activations, t.row.chip.value) else None;
    match chosen
    case None => t.(row := t.row.(chip := None), activations := RetireAllBut(t.activations, None, now))
    case Some(a) =>
      if Expired(a, current) then
        Ended(t, a.chip, a.matchday.value).(activations := RetireAllBut(t.activations, None, now))
      else t.(activations := RetireAllBut(t.activations, Some(a.id), now))
  }

  // Either no chip and nothing active, or exactly one activation is active, for the chip, and it is not expired.
  ghost predicate Normal(t: Team, current: nat) {
    match t.row.chip
    case None => NoneActive(t.activations)
    case Some(chip) => exists i :: OnlyActive(t.activations, i) && StandsFor(t.activations[i], chip, current)
  }

  predicate StandsFor(a: Activation, chip: Chip, current: nat) {
    a.chip == chip && !Expired(a, current)
  }

  ghost predicate NoneActive(activations: seq<Activation>) {
    forall i :: 0 <= i < |activations| ==> !activations[i].active
  }

  ghost predicate OnlyActive(activations: seq<Activation>, i: int) {
    0 <= i < |activations| && forall j :: 0 <= j < |activations| ==> (activations[j].active <==> j == i)
  }

  lemma {:induction false} FirstOfFacts(activations: seq<Activation>, chip: Chip)
    ensures match FirstOf(activations, chip)
            case None => forall a :: a in activations ==> a.chip != chip
            case Some(a) => a in activations && a.chip == chip
  {
    if activations != [] {
      FirstOfFacts(activations[1..], chip);
    }
  }

  lemma {:induction false} ActivesAre(activations: seq<Activation>, a: Activation)
    ensures a in Actives(activations) <==> a in activations && a.active
  {
    FilterMembers(activations, IsActive);
    SortPermutes(Filter(activations, IsActive), Newest);
    assert a in Actives(activations) <==> a in multiset(Actives(activations));
    assert a in Filter(activations, IsActive) <==> a in multiset(Filter(activations, IsActive));
    if a in activations && a.active {
      var i :| 0 <= i < |activations| && activations[i] == a;
      assert IsActive(activations[i]);
    }
  }

  // An activation is chosen exactly when the chip has an active one.
  lemma {:induction false} ChosenFacts(activations: seq<Activation>, chip: Chip)
    ensures match Chosen(activations, chip)
            case None => forall a :: a in activations && a.active ==> a.chip != chip
            case Some(a) => a in activations && a.active && a.chip == chip
  {
    FirstOfFacts(Actives(activations), chip);
    forall a
      ensures a in Actives(activations) <==> a in activations && a.active
    {
      ActivesAre(activations, a);
    }
  }

  // A normal team is left as it is.
  lemma {:induction false} SyncOfNormal(t: Team, current: nat, now: int)
    requires DistinctIds(t.activations) && Normal(t, current)
    ensures Synced(t, current, now) == t
  {
    if t.row.chip.Some? {
      ChosenFacts(t.activations, t.row.chip.value);
      var i :| OnlyActive(t.activations, i) && StandsFor(t.activations[i], t.row.chip.value, current);
      assert t.activations[i] in t.activations;
      assert Chosen(t.activations, t.row.chip.value) == Some(t.activations[i]);
      assert RetireAllBut(t.activations, Some(t.activations[i].id), now) == t.activations;
    } else {
      assert RetireAllBut(t.activations, None, now) == t.activations;
    }
  }

  lemma {:induction false} SyncNormalises(t: Team, current: nat, now: int)
    requires DistinctIds(t.activations)
    ensures Normal(Synced(t, current, now), current)
    ensures DistinctIds(Synced(t, current, now).activations)
  {
    if t.row.chip.Some? {
      ChosenFacts(t.activations, t.row.chip.value);
      var chosen := Chosen(t.activations, t.row.chip.value);
      if chosen.Some? && !Expired(chosen.value, current) {
        var i :| 0 <= i < |t.activations| && t.activations[i] == chosen.value;
        assert OnlyActive(Synced(t, current, now).activations, i);
      }
    }
  }

  // Synchronising again, at any time during the same matchday, changes nothing.
  lemma {:induction false} SyncIsIdempotent(t: Team, current: nat, now: int, later: int)
    requires DistinctIds(t.activations)
    ensures Synced(Synced(t, current, now), current, later) == Synced(t, current, now)
  {
    SyncNormalises(t, current, now);
    SyncOfNormal(Synced(t, current, now), current, later);
  }

  // ----- Undoing a Free Hit ---------------------------------------------------------------------

  ghost predicate Undone(t: Team, s: Snapshot) {
    HeldOf(t.picks) == s.held && SameColumns(t.row, s.row)
  }

  // Restoring brings back the captured picks, up to their ids and cached position, and every captured column.
  lemma {:induction false} RestoreUndoes(t: Team, matchday: nat)
    requires matchday in t.snapshots
    ensures Undone(Restored(t, matchday), t.snapshots[matchday])
    ensures Restored(t, matchday).row.chip == t.row.chip
    ensures Restored(t, matchday) == t.(row := Restored(t, matchday).row, picks := Restored(t, matchday).picks,
                                        nextId := Restored(t, matchday).nextId)
  {
  }

  // The end of a Free Hit through synchronisation: the picks are restored, but the row keeps what it held before.
  // The Free Hit is undone exactly when its columns had not changed.
  lemma {:induction false} SyncUndoesExactlyWhen(t: Team, current: nat, now: int)
    requires t.row.chip == Some(FreeHit) && Chosen(t.activations, FreeHit).Some?
    requires Expired(Chosen(t.activations, FreeHit).value, current)
    requires Chosen(t.activations, FreeHit).value.matchday.value in t.snapshots
    ensures var s := t.snapshots[Chosen(t.activations, FreeHit).value.matchday.value];
            && HeldOf(Synced(t, current, now).picks) == s.held
            && (Undone(Synced(t, current, now), s) <==> SameColumns(t.row, s.row))
  {
    ChosenFacts(t.activations, FreeHit);
  }
}
