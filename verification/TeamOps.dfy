/** What a manager can do to a fantasy team, as functions on its stored state. */
module TeamOps {
  import opened Wrappers
  import opened Squads
  import opened Picks
  import opened ChipState

  // The current matchday as the lock service finds it.
  datatype Access = Missing | Locked | Open

  // What an operation finds around the team: the current matchday, the player catalogue and the clock.
  datatype Env = Env(current: nat, access: Access, players: Catalog, now: int)

  datatype Outcome = Outcome(team: Team, verdict: Verdict)

  // ensureMatchdayUnlockedForMutations
  function Guard(env: Env): Verdict {
    match env.access
    case Missing => Some(MatchdayMissing)
    case Locked => Some(MatchdayLocked)
    case Open => None
  }

  function Sync(t: Team, env: Env): Team {
    Synced(t, env.current, env.now)
  }

  function CaptainMultiplier(chip: Option<Chip>): int {
    if chip == Some(TripleCaptain) then 3 else 2
  }

  // ----- Chips ------------------------------------------------------------------------------

  function MaxUses(chip: Chip): nat {
    if chip == Wildcard then 2 else 1
  }

  function Uses(activations: seq<Activation>, chip: Chip): nat {
    if activations == [] then 0
    else Uses(activations[..|activations| - 1], chip) + if activations[|activations| - 1].chip == chip then 1 else 0
  }

  function Capture(t: Team, matchday: nat): Team {
    if matchday in t.snapshots then t
    else t.(snapshots := t.snapshots[matchday := Snapshot(t.row, HeldOf(t.picks))])
  }

  function Activated(t: Team, chip: Chip, env: Env): Team {
    var captured := if chip == FreeHit then Capture(t, env.current) else t;
    captured.(row := t.row.(chip := Some(chip)),
    activations := t.activations + [Activation(t.nextId, chip, true, env.now, None, Some(env.current))],
    picks := if chip == TripleCaptain then ApplyMultiplier(t.picks, 3) else t.picks,
    nextId := t.nextId + 1)
  }

  // The activation of a chip on a synchronised team.
  function ActivateSynced(s: Team, env: Env, chip: Chip): Outcome {
    if s.row.chip.Some? && s.row.chip != Some(chip) then Outcome(s, Some(OtherChipActive))
    else if s.row.chip == Some(chip) then Outcome(s, None)
    else if Uses(s.activations, chip) >= MaxUses(chip) then Outcome(s, Some(ChipUsed))
    else Outcome(Activated(s, chip, env), None)
  }

  function ActivateChip(t: Team, env: Env, chip: Chip): Outcome {
    if Guard(env).Some? then Outcome(t, Guard(env)) else ActivateSynced(Sync(t, env), env, chip)
  }

  predicate Cancels(a: Activation, chip: Chip, current: nat) {
    a.chip == chip && a.active && a.matchday == Some(current)
  }

  // Without the first activation of the chip that is active for the current matchday, if there is one.
  function Cancelled(activations: seq<Activation>, chip: Chip, current: nat): seq<Activation> {
    if activations == [] then []
    else if Cancels(activations[0], chip, current) then activations[1..]
    else [activations[0]] + Cancelled(activations[1..], chip, current)
  }

  function DeactivateChip(t: Team, env: Env): Outcome {
    if Guard(env).Some? then Outcome(t, Guard(env))
    else if t.row.chip.None? then Outcome(Sync(t, env), None)
    else
      var u := t.(activations := Cancelled(t.activations, t.row.chip.value, env.current),
                  row := t.row.(chip := None), picks := ApplyMultiplier(t.picks, 2));
      Outcome(Sync(u, env), None)
  }

  // ----- Captaincy ----------------------------------------------------------------------------

  function Led(p: Pick, captain: Id, vice: Id, multiplier: int): Pick {
    var l := p.held.line.(captain := PlayerOf(p) == captain, vice := PlayerOf(p) == vice);
    p.(held := p.held.(line := l, multiplier := MultiplierOf(l, multiplier)))
  }

  function LedBy(picks: seq<Pick>, captain: Id, vice: Id, multiplier: int): (r: seq<Pick>)
  {
    seq(|picks|, i requires 0 <= i < |picks| => Led(picks[i], captain, vice, multiplier))
  }

  function CheckCaptaincy(picks: seq<Pick>, captain: Id, vice: Id): Verdict {
    var c, v := Find(picks, captain), Find(picks, vice);
    if captain == vice then Some(SameCaptains)
    else if c == |picks| || v == |picks| then Some(CaptainNotOwned)
    else if picks[c].held.line.benched || picks[v].held.line.benched then Some(CaptainBenched)
    else None
  }

  function UpdateCaptaincy(t: Team, env: Env, captain: Id, vice: Id): Outcome {
    if Guard(env).Some? then Outcome(t, Guard(env))
    else
      var s := Sync(t, env);
      var v := CheckCaptaincy(s.picks, captain, vice);
      if v.Some? then Outcome(s, v)
      else Outcome(s.(picks := LedBy(s.picks, captain, vice, CaptainMultiplier(s.row.chip))), None)
  }

  // ----- Transfers ------------------------------------------------------------------------------

  predicate Unlimited(chip: Option<Chip>) {
    chip == Some(Wildcard) || chip == Some(FreeHit)
  }

  // resolveTransferAccounting
  function CostHit(free: int, used: nat, unlimited: bool): int {
    if unlimited || used < Max(1, free) then 0 else 4
  }

  function NextFree(free: int, used: nat, unlimited: bool): int {
    if unlimited then free else Max(0, Max(1, free) - (used + 1))
  }

  function Used(transfers: seq<Transfer>, matchday: nat): nat {
    if transfers == [] then 0
    else Used(transfers[..|transfers| - 1], matchday) + if transfers[|transfers| - 1].matchday == matchday then 1 else 0
  }

  function Transferred(t: Team, env: Env, incoming: Id, outgoing: Id): Team
    requires Find(t.picks, outgoing) < |t.picks| && incoming in env.players
  {
    var i := Find(t.picks, outgoing);
    var used, unlimited := Used(t.transfers, env.current), Unlimited(t.row.chip);
    t.(picks := Replaced(t.picks, i, incoming, env.players),
    row := t.row.(freeTransfers := NextFree(t.row.freeTransfers, used, unlimited),
                  budget := Projected(t.picks, i, t.row.budget, incoming, env.players)),
    transfers := t.transfers
                 + [Transfer(env.current, incoming, outgoing, CostHit(t.row.freeTransfers, used, unlimited))])
  }

  function CreateTransfer(t: Team, env: Env, incoming: Id, outgoing: Id): Outcome {
    var s := Sync(t, env);
    if Guard(env).Some? then Outcome(s, Guard(env))
    else
      var v := CheckTransfer(s.picks, s.row.budget, incoming, outgoing, env.players);
      if v.Some? then Outcome(s, v) else Outcome(Transferred(s, env, incoming, outgoing), None)
  }

  // ----- Saving a squad ---------------------------------------------------------------------------

  // A request may carry a name (already trimmed), a formation label and picks; an empty list of picks means none.
  datatype SaveRequest = SaveRequest(name: Option<string>, formation: Option<string>, lines: seq<Line>)

  function Relabelled(row: Row, request: SaveRequest): Row {
    row.(name := request.name.GetOr(row.name), formation := request.formation.GetOr(row.formation))
  }

  // The labels are saved before the picks are checked, and stay when the picks are rejected.
  function UpdateTeam(t: Team, env: Env, request: SaveRequest): Outcome {
    if Guard(env).Some? then Outcome(t, Guard(env))
    else
      var s := Sync(t, env);
      var u := s.(row := Relabelled(s.row, request));
      if request.lines == [] then Outcome(u, None)
      else if ValidatePicks(request.lines, env.players).Some? then Outcome(u, ValidatePicks(request.lines, env.players))
      else
        assert AllListed(request.lines, env.players) by {
          ValidationIsExact(request.lines, env.players);
          CountBound(request.lines, Listed, env.players);
        }
        Outcome(u.(picks := SavedSquad(u.picks, request.lines, CaptainMultiplier(u.row.chip), env.players, u.nextId),
                   nextId := u.nextId + |request.lines|), None)
  }

  // ----- Runs ---------------------------------------------------------------------------------------

  // A view only synchronises; a capture is what locking the matchday does to the team.
  datatype Step =
    | Activate(chip: Chip) | Deactivate | Lead(captain: Id, vice: Id) | Swap(incoming: Id, outgoing: Id)
    | Save(request: SaveRequest) | View | LockCapture

  function Perform(t: Team, env: Env, step: Step): Outcome {
    match step
    case Activate(chip) => ActivateChip(t, env, chip)
    case Deactivate => DeactivateChip(t, env)
    case Lead(captain, vice) => UpdateCaptaincy(t, env, captain, vice)
    case Swap(incoming, outgoing) => CreateTransfer(t, env, incoming, outgoing)
    case Save(request) => UpdateTeam(t, env, request)
    case View => Outcome(Sync(t, env), None)
    case LockCapture => Outcome(Capture(t, env.current), None)
  }

  type Script = seq<(Env, Step)>

  function Run(t: Team, script: Script): Team {
    if script == [] then t
    else
      var last := script[|script| - 1];
      Perform(Run(t, script[..|script| - 1]), last.0, last.1).team
  }

  function LastCatalog(players: Catalog, script: Script): Catalog {
    if script == [] then players else script[|script| - 1].0.players
  }

  // Players are added and repriced between steps, but keep their position and club, and none is removed.
  ghost predicate OneCatalog(players: Catalog, script: Script)
    decreases script
  {
    script != [] ==>
      && OneCatalog(players, script[..|script| - 1])
      && SamePlayers(LastCatalog(players, script[..|script| - 1]), LastCatalog(players, script))
  }
}
