/** Money and hits over runs of transfers. */
module TransferRuns {
  import opened Wrappers
  import opened Squads
  import opened Picks
  import opened ChipState
  import opened TeamOps
  import opened SquadRuns

  // ----- Money ------------------------------------------------------------------------------

  // Synchronisation would put back the squad of before a Free Hit.
  ghost predicate Restores(t: Team, current: nat) {
    && t.row.chip == Some(FreeHit) && Chosen(t.activations, FreeHit).Some?
    && Expired(Chosen(t.activations, FreeHit).value, current)
    && Chosen(t.activations, FreeHit).value.matchday.value in t.snapshots
  }

  // Transfers and views only, across any number of matchdays, without the end of a Free Hit in between.
  ghost predicate OnlyTransfers(t: Team, script: Script)
    decreases script
  {
    script != [] ==>
      var last := |script| - 1;
      && OnlyTransfers(t, script[..last])
      && (script[last].1.Swap? || script[last].1.View?)
      && !Restores(Run(t, script[..last]), script[last].0.current)
  }

  // Budget, squad value and formation.
  ghost predicate SameBooks(t: Team, before: Catalog, u: Team, after: Catalog) {
    && u.row.budget + Worth(u.picks) == t.row.budget + Worth(t.picks)
    && |u.picks| == |t.picks|
    && forall p :: Count(LinesOf(u.picks), StarterAt(p), after) == Count(LinesOf(t.picks), StarterAt(p), before)
  }

  lemma {:induction false} WorthOfSamePrices(a: seq<Pick>, b: seq<Pick>)
    requires |a| == |b| && forall i :: 0 <= i < |a| ==> a[i].held.sellPrice == b[i].held.sellPrice
    ensures Worth(a) == Worth(b)
  {
    if a != [] {
      WorthOfSamePrices(a[..|a| - 1], b[..|b| - 1]);
    }
  }

  lemma {:induction false} SyncKeepsBooks(t: Team, env: Env)
    requires !Restores(t, env.current)
    ensures SameBooks(t, env.players, Sync(t, env), env.players)
  {
    var s := Sync(t, env);
    if t.row.chip.Some? {
      ChosenFacts(t.activations, t.row.chip.value);
    }
    assert LinesOf(s.picks) == LinesOf(t.picks);
    WorthOfSamePrices(s.picks, t.picks);
  }

  lemma {:induction false} TransferKeepsBooks(t: Team, env: Env, incoming: Id, outgoing: Id)
    requires SquadsOk(t, env.players) && !Restores(t, env.current)
    ensures SameBooks(t, env.players, CreateTransfer(t, env, incoming, outgoing).team, env.players)
  {
    var s := Sync(t, env);
    SyncKeepsBooks(t, env);
    SyncKeepsSquads(t, env.current, env.now, env.players);
    if Guard(env).None? && CheckTransfer(s.picks, s.row.budget, incoming, outgoing, env.players).None? {
      TransferTheorem(s.picks, s.row.budget, incoming, outgoing, env.players);
    }
  }

  lemma {:induction false} RepricedBooks(t: Team, before: Catalog, after: Catalog)
    requires SquadsOk(t, before) && SamePlayers(before, after)
    ensures SameBooks(t, before, t, after)
  {
    if t.picks != [] {
      CountBound(LinesOf(t.picks), Listed, before);
    }
    forall p
      ensures Count(LinesOf(t.picks), StarterAt(p), after) == Count(LinesOf(t.picks), StarterAt(p), before)
    {
      CountWithCatalog(LinesOf(t.picks), StarterAt(p), before, after);
    }
  }

  // Whatever is bought and sold at whatever prices, budget plus sale value of the squad stays the same, and so does
  // the formation of the eleven.
  lemma {:induction false} TransfersKeepBooks(t: Team, script: Script, players: Catalog)
    requires SquadsOk(t, players) && OneCatalog(players, script) && OnlyTransfers(t, script)
    ensures SameBooks(t, players, Run(t, script), LastCatalog(players, script))
  {
    if script != [] {
      var last := |script| - 1;
      var mid, env := Run(t, script[..last]), script[last].0;
      TransfersKeepBooks(t, script[..last], players);
      RunKeepsSquads(t, script[..last], players);
      RepricedKeepsSquads(mid, LastCatalog(players, script[..last]), env.players);
      RepricedBooks(mid, LastCatalog(players, script[..last]), env.players);
      if script[last].1.Swap? {
        TransferKeepsBooks(mid, env, script[last].1.incoming, script[last].1.outgoing);
      } else {
        SyncKeepsBooks(mid, env);
      }
    }
  }

  // ----- Hits -----------------------------------------------------------------------------------

  function Cost(transfers: seq<Transfer>, matchday: nat): int {
    if transfers == [] then 0
    else Cost(transfers[..|transfers| - 1], matchday)
         + if transfers[|transfers| - 1].matchday == matchday then transfers[|transfers| - 1].cost else 0
  }

  // The first transfer of a matchday is free and every further one costs four points.
  ghost predicate FirstIsFree(transfers: seq<Transfer>, matchday: nat) {
    Cost(transfers, matchday) == 4 * Max(0, Used(transfers, matchday) - 1)
  }

  lemma {:induction false} StepKeepsFree(t: Team, env: Env, step: Step)
    requires 0 <= t.row.freeTransfers <= 1
    ensures 0 <= Perform(t, env, step).team.row.freeTransfers <= 1
  {
    match step
    case Activate(chip) =>
      assert ActivateSynced(Sync(t, env), env, chip).team.row.freeTransfers == t.row.freeTransfers;
    case Deactivate =>
    case Lead(captain, vice) =>
    case Swap(incoming, outgoing) =>
    case Save(request) =>
    case View =>
    case LockCapture =>
  }

  // The stored number of free transfers stays zero or one, whatever chips are played.
  lemma {:induction false} FreeTransfersStay(t: Team, script: Script)
    requires 0 <= t.row.freeTransfers <= 1
    ensures 0 <= Run(t, script).row.freeTransfers <= 1
  {
    if script != [] {
      var last := |script| - 1;
      FreeTransfersStay(t, script[..last]);
      StepKeepsFree(Run(t, script[..last]), script[last].0, script[last].1);
    }
  }

  // An accepted transfer of the matchday.
  predicate Swaps(t: Team, env: Env, step: Step, matchday: nat) {
    step.Swap? && env.current == matchday && CreateTransfer(t, env, step.incoming, step.outgoing).verdict.None?
  }

  // A further transfer of the matchday that a Wildcard or Free Hit makes free.
  predicate Spared(t: Team, env: Env, step: Step, matchday: nat) {
    Swaps(t, env, step, matchday) && Used(t.transfers, matchday) > 0 && Unlimited(Sync(t, env).row.chip)
  }

  function SwapsIn(t: Team, script: Script, matchday: nat): nat {
    if script == [] then 0
    else
      var front, last := script[..|script| - 1], script[|script| - 1];
      SwapsIn(t, front, matchday) + if Swaps(Run(t, front), last.0, last.1, matchday) then 1 else 0
  }

  function SparedIn(t: Team, script: Script, matchday: nat): nat {
    if script == [] then 0
    else
      var front, last := script[..|script| - 1], script[|script| - 1];
      SparedIn(t, front, matchday) + if Spared(Run(t, front), last.0, last.1, matchday) then 1 else 0
  }

  lemma {:induction false} SyncKeepsTransfers(t: Team, env: Env)
    ensures Sync(t, env).transfers == t.transfers && Sync(t, env).row.freeTransfers == t.row.freeTransfers
  {
  }

  lemma {:induction false} OthersKeepTransfers(t: Team, env: Env, step: Step)
    requires !step.Swap?
    ensures Perform(t, env, step).team.transfers == t.transfers
  {
    SyncKeepsTransfers(t, env);
    match step
    case Activate(chip) =>
    case Deactivate =>
    case Lead(captain, vice) =>
    case Save(request) =>
    case View =>
    case LockCapture =>
  }

  lemma {:induction false} TransferredCharges(s: Team, env: Env, incoming: Id, outgoing: Id, matchday: nat)
    requires 0 <= s.row.freeTransfers <= 1 && Find(s.picks, outgoing) < |s.picks| && incoming in env.players
    ensures var after, mine := Transferred(s, env, incoming, outgoing).transfers, env.current == matchday;
            && Used(after, matchday) == Used(s.transfers, matchday) + (if mine then 1 else 0)
            && Cost(after, matchday)
               == Cost(s.transfers, matchday)
                  + if mine && Used(s.transfers, matchday) > 0 && !Unlimited(s.row.chip) then 4 else 0
  {
    var after := Transferred(s, env, incoming, outgoing).transfers;
    assert after[..|s.transfers|] == s.transfers;
  }

  // A transfer costs four points exactly when it is not the first of its matchday and no unlimited chip is set;
  // nothing else costs or counts.
  lemma {:induction false} StepCharges(t: Team, env: Env, step: Step, matchday: nat)
    requires 0 <= t.row.freeTransfers <= 1
    ensures var after := Perform(t, env, step).team.transfers;
            && Used(after, matchday) == Used(t.transfers, matchday) + (if Swaps(t, env, step, matchday) then 1 else 0)
            && Cost(after, matchday)
               == Cost(t.transfers, matchday)
                  + if Swaps(t, env, step, matchday) && Used(t.transfers, matchday) > 0
                       && !Unlimited(Sync(t, env).row.chip) then 4 else 0
  {
    if step.Swap? {
      var s := Sync(t, env);
      SyncKeepsTransfers(t, env);
      if CreateTransfer(t, env, step.incoming, step.outgoing).verdict.None? {
        TransferredCharges(s, env, step.incoming, step.outgoing, matchday);
      }
    } else {
      OthersKeepTransfers(t, env, step);
    }
  }

  // k transfers of a matchday cost 4 * max(0, k - 1) less what was spared.
  ghost predicate CostLess(transfers: seq<Transfer>, matchday: nat, spared: nat) {
    Cost(transfers, matchday) == 4 * (Max(0, Used(transfers, matchday) - 1) - spared)
  }

  lemma {:induction false} StepKeepsCost(t: Team, env: Env, step: Step, matchday: nat, spared: nat)
    requires 0 <= t.row.freeTransfers <= 1 && CostLess(t.transfers, matchday, spared)
    ensures CostLess(Perform(t, env, step).team.transfers, matchday,
                     spared + if Spared(t, env, step, matchday) then 1 else 0)
  {
    StepCharges(t, env, step, matchday);
  }

  lemma {:induction false} RunKeepsCost(t: Team, script: Script, matchday: nat)
    requires 0 <= t.row.freeTransfers <= 1 && CostLess(t.transfers, matchday, 0)
    ensures CostLess(Run(t, script).transfers, matchday, SparedIn(t, script, matchday))
  {
    if script != [] {
      var front, last := script[..|script| - 1], script[|script| - 1];
      RunKeepsCost(t, front, matchday);
      FreeTransfersStay(t, front);
      StepKeepsCost(Run(t, front), last.0, last.1, matchday, SparedIn(t, front, matchday));
    }
  }

  lemma {:induction false} RunCountsTransfers(t: Team, script: Script, matchday: nat)
    requires 0 <= t.row.freeTransfers <= 1
    ensures Used(Run(t, script).transfers, matchday) == Used(t.transfers, matchday) + SwapsIn(t, script, matchday)
  {
    if script != [] {
      var front, last := script[..|script| - 1], script[|script| - 1];
      RunCountsTransfers(t, front, matchday);
      FreeTransfersStay(t, front);
      StepCharges(Run(t, front), last.0, last.1, matchday);
    }
  }

  // Over every run, whatever chips are played in which matchdays: k transfers of a matchday cost 4 * max(0, k - 1)
  // less what an unlimited chip spared - so exactly that when it spared none.
  lemma {:induction false} RunKeepsHits(t: Team, script: Script, matchday: nat)
    requires 0 <= t.row.freeTransfers <= 1 && FirstIsFree(t.transfers, matchday)
    ensures var end, k := Run(t, script).transfers, Used(t.transfers, matchday) + SwapsIn(t, script, matchday);
            && Used(end, matchday) == k
            && Cost(end, matchday) == 4 * (Max(0, k - 1) - SparedIn(t, script, matchday))
            && (FirstIsFree(end, matchday) <==> SparedIn(t, script, matchday) == 0)
  {
    RunKeepsCost(t, script, matchday);
    RunCountsTransfers(t, script, matchday);
  }

  // ----- The accounting beyond one free transfer ----------------------------------------------------

  function FreeAfter(free: int, k: nat): int {
    if k == 0 then free else NextFree(FreeAfter(free, k - 1), k - 1, false)
  }

  // What the first k transfers of a matchday cost.
  function Hits(free: int, k: nat): int {
    if k == 0 then 0 else Hits(free, k - 1) + CostHit(FreeAfter(free, k - 1), k - 1, false)
  }

  lemma {:induction false} FewFree(free: int, k: nat)
    requires free <= 1
    ensures Hits(free, k) == 4 * Max(0, k - Max(1, free))
    ensures k > 0 ==> FreeAfter(free, k) == 0
  {
    if k > 0 {
      FewFree(free, k - 1);
    }
  }

  lemma {:induction false} NeverMoreThanSpent(free: int, k: nat)
    requires free >= 2 && 2 <= k
    ensures FreeAfter(free, 1) == free - 1
    ensures FreeAfter(free, k) <= Max(0, free - 1 - k)
    ensures Hits(free, k) >= 0
  {
    assert FreeAfter(free, 1) == free - 1;
    if k > 2 {
      NeverMoreThanSpent(free, k - 1);
    } else {
      assert FreeAfter(free, 2) == NextFree(FreeAfter(free, 1), 1, false);
      assert Hits(free, 1) == 0;
    }
  }

  // Used transfers are counted twice once there are two free ones: the accounting charges beyond the free transfers,
  // and nothing else, exactly when at most one is free.
  lemma {:induction false} HitsLawExactlyWhen(free: int)
    ensures (forall k: nat :: Hits(free, k) == 4 * Max(0, k - Max(1, free))) <==> free <= 1
  {
    if free <= 1 {
      forall k: nat
        ensures Hits(free, k) == 4 * Max(0, k - Max(1, free))
      {
        FewFree(free, k);
      }
    } else {
      ChargedTooEarly(free);
    }
  }

  // With two or more free transfers the last of them is charged.
  lemma {:induction false} ChargedTooEarly(free: int)
    requires free >= 2
    ensures Hits(free, free) >= 4
  {
    if free == 2 {
      assert FreeAfter(2, 1) == 1;
    } else {
      NeverMoreThanSpent(free, free - 1);
    }
  }
}
