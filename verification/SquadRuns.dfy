/** What holds of squads, budgets, snapshots and transfer costs over every run of a team. */
module SquadRuns {
  import opened Wrappers
  import opened Squads
  import opened Picks
  import opened ChipState
  import opened TeamOps

  function LinesHeld(held: seq<Held>): (r: seq<Line>)
  {
    seq(|held|, i requires 0 <= i < |held| => held[i].line)
  }

  // A new team has no picks until its first save.
  ghost predicate Fielded(lines: seq<Line>, players: Catalog) {
    lines == [] || Lawful(lines, players)
  }

  ghost predicate SquadsOk(t: Team, players: Catalog) {
    && Fielded(LinesOf(t.picks), players)
    && (forall m :: m in t.snapshots ==> Fielded(LinesHeld(t.snapshots[m].held), players))
    && t.row.budget >= 0
  }

  // ----- Lines under each operation -------------------------------------------------------------

  lemma {:induction false} CountMapped(a: seq<Line>, b: seq<Line>, f: Feature, g: Feature, players: Catalog)
    requires |a| == |b| && forall i :: 0 <= i < |a| ==> (Has(a[i], f, players) <==> Has(b[i], g, players))
    ensures Count(a, f, players) == Count(b, g, players)
  {
    if a != [] {
      assert forall i :: 0 <= i < |a| - 1 ==> a[1..][i] == a[i + 1] && b[1..][i] == b[i + 1];
      CountMapped(a[1..], b[1..], f, g, players);
    }
  }

  lemma {:induction false} CountsApart(lines: seq<Line>, players: Catalog)
    requires forall id :: Count(lines, IsPlayer(id), players) <= 1
    ensures OnePerPlayer(lines)
  {
    if lines != [] {
      forall id
        ensures Count(lines[1..], IsPlayer(id), players) <= 1
      {
        assert Count(lines, IsPlayer(id), players) <= 1;
      }
      CountsApart(lines[1..], players);
      var id := lines[0].player;
      assert Count(lines, IsPlayer(id), players) <= 1;
      CountBound(lines[1..], IsPlayer(id), players);
      forall j | 1 <= j < |lines|
        ensures lines[j].player != id
      {
        assert !Has(lines[1..][j - 1], IsPlayer(id), players);
      }
    }
  }

  lemma {:induction false} PicksApart(picks: seq<Pick>, players: Catalog)
    requires Fielded(LinesOf(picks), players)
    ensures DistinctPlayers(picks)
  {
    if picks != [] {
      CountsApart(LinesOf(picks), players);
      forall i, j | 0 <= i < j < |picks|
        ensures PlayerOf(picks[i]) != PlayerOf(picks[j])
      {
        assert LinesOf(picks)[i].player != LinesOf(picks)[j].player;
      }
    }
  }

  // Handing the armband over keeps a squad lawful.
  lemma {:induction false} LeadKeepsLawful(picks: seq<Pick>, captain: Id, vice: Id, multiplier: int, players: Catalog)
    requires Lawful(LinesOf(picks), players) && CheckCaptaincy(picks, captain, vice) == None
    ensures Lawful(LinesOf(LedBy(picks, captain, vice, multiplier)), players)
  {
    var a, b := LinesOf(picks), LinesOf(LedBy(picks, captain, vice, multiplier));
    PicksApart(picks, players);
    forall f: Feature | !f.Captain? && !f.Vice? && !f.Dual? && !f.BenchedRole?
      ensures Count(b, f, players) == Count(a, f, players)
    {
      CountMapped(b, a, f, f, players);
    }
    RolesAfterLead(picks, captain, vice, multiplier, players, b);
  }

  lemma {:induction false} RolesAfterLead(picks: seq<Pick>, captain: Id, vice: Id, multiplier: int, players: Catalog,
                                          b: seq<Line>)
    requires DistinctPlayers(picks) && CheckCaptaincy(picks, captain, vice) == None
    requires b == LinesOf(LedBy(picks, captain, vice, multiplier))
    requires forall id :: Count(LinesOf(picks), IsPlayer(id), players) <= 1
    ensures RolesLawful(b, players)
  {
    OwnedOnce(picks, captain, players);
    OwnedOnce(picks, vice, players);
    CountMapped(b, LinesOf(picks), Captain, IsPlayer(captain), players);
    CountMapped(b, LinesOf(picks), Vice, IsPlayer(vice), players);
    NoWrongRoles(picks, captain, vice, players, b);
  }

  lemma {:induction false} OwnedOnce(picks: seq<Pick>, player: Id, players: Catalog)
    requires Find(picks, player) < |picks| && Count(LinesOf(picks), IsPlayer(player), players) <= 1
    ensures Count(LinesOf(picks), IsPlayer(player), players) == 1
  {
    CountBound(LinesOf(picks), IsPlayer(player), players);
    assert Has(LinesOf(picks)[Find(picks, player)], IsPlayer(player), players);
  }

  // Both leaders are in the eleven and different.
  lemma {:induction false} NoWrongRoles(picks: seq<Pick>, captain: Id, vice: Id, players: Catalog, b: seq<Line>)
    requires DistinctPlayers(picks) && CheckCaptaincy(picks, captain, vice) == None && |b| == |picks|
    requires forall i :: 0 <= i < |b| ==>
      b[i] == picks[i].held.line.(captain := PlayerOf(picks[i]) == captain, vice := PlayerOf(picks[i]) == vice)
    ensures Count(b, Dual, players) == 0 && Count(b, BenchedRole, players) == 0
  {
    var c, v := Find(picks, captain), Find(picks, vice);
    assert forall i :: 0 <= i < |picks| && i != c ==> PlayerOf(picks[i]) != PlayerOf(picks[c]);
    assert forall i :: 0 <= i < |picks| && i != v ==> PlayerOf(picks[i]) != PlayerOf(picks[v]);
    CountBound(b, Dual, players);
    CountBound(b, BenchedRole, players);
  }

  // Exactly the requested players lead, the captain alone with the multiplier; nothing else about a pick changes.
  lemma {:induction false} CaptaincyAsRequested(t: Team, env: Env, captain: Id, vice: Id, players: Catalog, i: nat)
    requires UpdateCaptaincy(t, env, captain, vice).verdict == None && i < |Sync(t, env).picks|
    requires Fielded(LinesOf(Sync(t, env).picks), players)
    ensures var before, after := Sync(t, env).picks, UpdateCaptaincy(t, env, captain, vice).team.picks;
            && Of(after, captain).Some? && Of(after, vice).Some? && captain != vice
            && |after| == |before|
            && (after[i].held.line.captain <==> after[i] == Of(after, captain).value)
            && (after[i].held.line.vice <==> after[i] == Of(after, vice).value)
            && after[i].held.multiplier
                 == (if after[i].held.line.captain then CaptainMultiplier(Sync(t, env).row.chip) else 1)
            && before[i] == after[i].(held := after[i].held.(
                              line := after[i].held.line.(captain := before[i].held.line.captain,
                                                          vice := before[i].held.line.vice),
                              multiplier := before[i].held.multiplier))
  {
    var before, after := Sync(t, env).picks, UpdateCaptaincy(t, env, captain, vice).team.picks;
    PicksApart(before, players);
    assert forall k :: 0 <= k < |before| ==> PlayerOf(after[k]) == PlayerOf(before[k]);
    OfMember(after, after[i]);
    assert PlayerOf(after[Find(before, captain)]) == captain && PlayerOf(after[Find(before, vice)]) == vice;
  }

  // ----- Synchronisation and captures -------------------------------------------------------------

  lemma {:induction false} SyncKeepsSquads(t: Team, current: nat, now: int, players: Catalog)
    requires SquadsOk(t, players)
    ensures SquadsOk(Synced(t, current, now), players)
  {
    var u := Synced(t, current, now);
    if t.row.chip.Some? {
      ChosenFacts(t.activations, t.row.chip.value);
      var chosen := Chosen(t.activations, t.row.chip.value);
      if chosen.Some? && Expired(chosen.value, current) {
        EndKeepsSquads(t, chosen.value.chip, chosen.value.matchday.value, players);
      }
    }
  }

  lemma {:induction false} EndKeepsSquads(t: Team, chip: Chip, matchday: nat, players: Catalog)
    requires SquadsOk(t, players)
    ensures SquadsOk(Ended(t, chip, matchday), players)
  {
    var u := Ended(t, chip, matchday);
    if chip == FreeHit && matchday in t.snapshots {
      assert LinesOf(u.picks) == LinesHeld(t.snapshots[matchday].held);
    } else {
      assert LinesOf(u.picks) == LinesOf(t.picks);
    }
  }

  lemma {:induction false} CaptureKeepsSquads(t: Team, matchday: nat, players: Catalog)
    requires SquadsOk(t, players)
    ensures SquadsOk(Capture(t, matchday), players)
  {
    assert LinesHeld(HeldOf(t.picks)) == LinesOf(t.picks);
  }

  lemma {:induction false} RepricedKeepsSquads(t: Team, before: Catalog, after: Catalog)
    requires SquadsOk(t, before) && SamePlayers(before, after)
    ensures SquadsOk(t, after)
  {
    if t.picks != [] {
      LawfulWithCatalog(LinesOf(t.picks), before, after);
    }
    forall m | m in t.snapshots
      ensures Fielded(LinesHeld(t.snapshots[m].held), after)
    {
      if t.snapshots[m].held != [] {
        LawfulWithCatalog(LinesHeld(t.snapshots[m].held), before, after);
      }
    }
  }

  // Same lines and budget, same snapshots.
  lemma {:induction false} SameSquads(t: Team, u: Team, players: Catalog)
    requires SquadsOk(t, players) && LinesOf(u.picks) == LinesOf(t.picks)
    requires u.snapshots == t.snapshots && u.row.budget == t.row.budget
    ensures SquadsOk(u, players)
  {
  }

  // ----- Operations -----------------------------------------------------------------------------------

  lemma {:induction false} ActivateKeepsSquads(t: Team, env: Env, chip: Chip)
    requires SquadsOk(t, env.players)
    ensures SquadsOk(ActivateChip(t, env, chip).team, env.players)
  {
    var s := Sync(t, env);
    SyncKeepsSquads(t, env.current, env.now, env.players);
    CaptureKeepsSquads(s, env.current, env.players);
    var captured := if chip == FreeHit then Capture(s, env.current) else s;
    SameSquads(captured, Activated(s, chip, env), env.players);
  }

  lemma {:induction false} DeactivateKeepsSquads(t: Team, env: Env)
    requires SquadsOk(t, env.players)
    ensures SquadsOk(DeactivateChip(t, env).team, env.players)
  {
    if t.row.chip.Some? {
      var u := t.(activations := Cancelled(t.activations, t.row.chip.value, env.current),
                  row := t.row.(chip := None), picks := ApplyMultiplier(t.picks, 2));
      SameSquads(t, u, env.players);
      SyncKeepsSquads(u, env.current, env.now, env.players);
    } else {
      SyncKeepsSquads(t, env.current, env.now, env.players);
    }
  }

  lemma {:induction false} UpdateCaptaincyKeepsSquads(t: Team, env: Env, captain: Id, vice: Id)
    requires SquadsOk(t, env.players)
    ensures SquadsOk(UpdateCaptaincy(t, env, captain, vice).team, env.players)
  {
    var s := Sync(t, env);
    SyncKeepsSquads(t, env.current, env.now, env.players);
    if Guard(env).None? && CheckCaptaincy(s.picks, captain, vice).None? {
      LeadKeepsLawful(s.picks, captain, vice, CaptainMultiplier(s.row.chip), env.players);
    }
  }

  lemma {:induction false} TransferKeepsSquads(t: Team, env: Env, incoming: Id, outgoing: Id)
    requires SquadsOk(t, env.players)
    ensures SquadsOk(CreateTransfer(t, env, incoming, outgoing).team, env.players)
  {
    var s := Sync(t, env);
    SyncKeepsSquads(t, env.current, env.now, env.players);
    if Guard(env).None? && CheckTransfer(s.picks, s.row.budget, incoming, outgoing, env.players).None? {
      TransferTheorem(s.picks, s.row.budget, incoming, outgoing, env.players);
    }
  }

  lemma {:induction false} SaveKeepsSquads(t: Team, env: Env, request: SaveRequest)
    requires SquadsOk(t, env.players)
    ensures SquadsOk(UpdateTeam(t, env, request).team, env.players)
  {
    var s := Sync(t, env);
    SyncKeepsSquads(t, env.current, env.now, env.players);
    if Guard(env).None? && request.lines != [] && ValidatePicks(request.lines, env.players).None? {
      AcceptedSave(s.picks, request.lines, CaptainMultiplier(s.row.chip), env.players, s.nextId);
    }
  }

  // An accepted save stores the requested lines, and nothing else, as a lawful squad.
  lemma {:induction false} AcceptedSave(picks: seq<Pick>, lines: seq<Line>, captain: int, players: Catalog, id: Id)
    requires Fielded(LinesOf(picks), players) && ValidatePicks(lines, players) == None
    ensures AllListed(lines, players)
    ensures var r := SavedSquad(picks, lines, captain, players, id);
            && multiset(LinesOf(r)) == multiset(lines) && Lawful(LinesOf(r), players)
            && forall j :: 0 <= j < |lines| ==>
                 StoredAs(Of(r, lines[j].player), lines[j], Of(picks, lines[j].player), captain, players)
  {
    ValidationIsExact(lines, players);
    CountBound(lines, Listed, players);
    CountsApart(lines, players);
    PicksApart(picks, players);
    SaveStoresRequest(picks, lines, captain, players, id);
    LawfulPermuted(lines, LinesOf(SavedSquad(picks, lines, captain, players, id)), players);
  }

  lemma {:induction false} StepKeepsSquads(t: Team, env: Env, step: Step, before: Catalog)
    requires SquadsOk(t, before) && SamePlayers(before, env.players)
    ensures SquadsOk(Perform(t, env, step).team, env.players)
  {
    RepricedKeepsSquads(t, before, env.players);
    match step
    case Activate(chip) => ActivateKeepsSquads(t, env, chip);
    case Deactivate => DeactivateKeepsSquads(t, env);
    case Lead(captain, vice) => UpdateCaptaincyKeepsSquads(t, env, captain, vice);
    case Swap(incoming, outgoing) => TransferKeepsSquads(t, env, incoming, outgoing);
    case Save(request) => SaveKeepsSquads(t, env, request);
    case View => SyncKeepsSquads(t, env.current, env.now, env.players);
    case LockCapture => CaptureKeepsSquads(t, env.current, env.players);
  }

  // Over every run the squad stays lawful in every respect a save checks but its price, and the budget non-negative.
  lemma {:induction false} RunKeepsSquads(t: Team, script: Script, players: Catalog)
    requires SquadsOk(t, players) && OneCatalog(players, script)
    ensures SquadsOk(Run(t, script), LastCatalog(players, script))
  {
    if script != [] {
      var last := |script| - 1;
      RunKeepsSquads(t, script[..last], players);
      StepKeepsSquads(Run(t, script[..last]), script[last].0, script[last].1, LastCatalog(players, script[..last]));
    }
  }
}
