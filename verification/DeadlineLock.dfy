/** Deadline locks of matchdays and the squad snapshots they capture. */
module DeadlineLock {
  import opened Wrappers
  import opened ChipState

  // `content` is what a snapshot of the team would hold now.
  datatype TeamState = TeamState(id: Id, content: Snapshot)

  datatype Taken = Taken(team: Id, matchday: Id, content: Snapshot)

  datatype LockRow = LockRow(matchday: Id, active: bool)

  datatype Status = Opened | LockedStatus | Live | Finalized

  datatype Books = Books(teams: seq<TeamState>, taken: seq<Taken>, locks: seq<LockRow>, status: map<Id, Status>)

  datatype Answer =
    | MatchdayNotFound | TeamNotFound | UserNotFound | AlreadyLocked | LockedNow(created: int)
    | NotLocked | IsLocked | Done

  // ----- Queries ------------------------------------------------------------------------------

  // The stored snapshot of a team for a matchday.
  function SnapshotOf(taken: seq<Taken>, team: Id, matchday: Id): Option<Snapshot> {
    if taken == [] then None
    else if taken[0].team == team && taken[0].matchday == matchday then Some(taken[0].content)
    else SnapshotOf(taken[1..], team, matchday)
  }

  // The newest active lock of a matchday; -1 when there is none.
  function ActiveLock(locks: seq<LockRow>, matchday: Id): (r: int)
    ensures -1 <= r < |locks|
    ensures r >= 0 ==> locks[r].active && locks[r].matchday == matchday
    ensures forall i :: r < i < |locks| ==> !(locks[i].active && locks[i].matchday == matchday)
  {
    if locks == [] then -1
    else
      var last := |locks| - 1;
      if locks[last].active && locks[last].matchday == matchday then last else ActiveLock(locks[..last], matchday)
  }

  // ----- Operations ---------------------------------------------------------------------------

  function CaptureTeam(taken: seq<Taken>, team: TeamState, matchday: Id): seq<Taken> {
    if SnapshotOf(taken, team.id, matchday).Some? then taken else taken + [Taken(team.id, matchday, team.content)]
  }

  function CaptureAll(taken: seq<Taken>, teams: seq<TeamState>, matchday: Id): seq<Taken> {
    if teams == [] then taken
    else CaptureTeam(CaptureAll(taken, teams[..|teams| - 1], matchday), teams[|teams| - 1], matchday)
  }

  // `knownUser` tells whether the user who locks, if one is named, exists.
  function Lock(b: Books, matchday: Id, knownUser: bool): (Books, Answer) {
    if matchday !in b.status then (b, MatchdayNotFound)
    else if ActiveLock(b.locks, matchday) >= 0 then (b, AlreadyLocked)
    else if !knownUser then (b, UserNotFound)
    else
      var taken := CaptureAll(b.taken, b.teams, matchday);
      (b.(taken := taken, status := b.status[matchday := LockedStatus], locks := b.locks + [LockRow(matchday, true)]),
       LockedNow(|taken| - |b.taken|))
  }

  function Unlock(b: Books, matchday: Id): (Books, Answer) {
    if matchday !in b.status then (b, MatchdayNotFound)
    else
      var i := ActiveLock(b.locks, matchday);
      if i < 0 then (b, NotLocked)
      else (b.(locks := b.locks[i := b.locks[i].(active := false)], status := b.status[matchday := Opened]), Done)
  }

  // ensureMatchdayUnlockedForMutations
  function MutationAnswer(b: Books, matchday: Id): Answer {
    if matchday !in b.status then MatchdayNotFound
    else if ActiveLock(b.locks, matchday) >= 0 || b.status[matchday] == LockedStatus then IsLocked
    else Done
  }

  function TeamIndex(teams: seq<TeamState>, id: Id): (r: nat)
    ensures r <= |teams| && (r < |teams| ==> teams[r].id == id)
    ensures forall i :: 0 <= i < r ==> teams[i].id != id
  {
    if teams == [] || teams[0].id == id then 0 else 1 + TeamIndex(teams[1..], id)
  }

  // The snapshot part of a Free Hit activation.
  function FreeHitCapture(b: Books, team: Id, matchday: Id): (Books, Answer) {
    var i := TeamIndex(b.teams, team);
    if MutationAnswer(b, matchday) != Done then (b, MutationAnswer(b, matchday))
    else if i == |b.teams| then (b, TeamNotFound)
    else (b.(taken := CaptureTeam(b.taken, b.teams[i], matchday)), Done)
  }

  // Everything else that happens: teams change and join, matchdays are created and change status.
  datatype Step =
    | DoLock(matchday: Id, knownUser: bool) | DoUnlock(matchday: Id) | PlayFreeHit(team: Id, matchday: Id)
    | Edit(team: Id, content: Snapshot) | Join(team: Id, content: Snapshot) | SetStatus(matchday: Id, status: Status)

  function Perform(b: Books, step: Step): Books {
    match step
    case DoLock(matchday, knownUser) => Lock(b, matchday, knownUser).0
    case DoUnlock(matchday) => Unlock(b, matchday).0
    case PlayFreeHit(team, matchday) => FreeHitCapture(b, team, matchday).0
    case Edit(team, content) =>
      var i := TeamIndex(b.teams, team);
      if i < |b.teams| then b.(teams := b.teams[i := TeamState(team, content)]) else b
    case Join(team, content) =>
      if TeamIndex(b.teams, team) < |b.teams| then b else b.(teams := b.teams + [TeamState(team, content)])
    case SetStatus(matchday, status) => b.(status := b.status[matchday := status])
  }

  function Run(b: Books, script: seq<Step>): Books {
    if script == [] then b else Perform(Run(b, script[..|script| - 1]), script[|script| - 1])
  }

  // ----- What every run keeps -------------------------------------------------------------------

  ghost predicate OneSnapshotEach(taken: seq<Taken>) {
    forall i, j :: 0 <= i < j < |taken| ==> taken[i].team != taken[j].team || taken[i].matchday != taken[j].matchday
  }

  ghost predicate OneActiveLockEach(locks: seq<LockRow>) {
    forall i, j :: 0 <= i < j < |locks| && locks[i].active && locks[j].active ==> locks[i].matchday != locks[j].matchday
  }

  ghost predicate DistinctTeams(teams: seq<TeamState>) {
    forall i, j :: 0 <= i < j < |teams| ==> teams[i].id != teams[j].id
  }

  ghost predicate Sound(b: Books) {
    OneSnapshotEach(b.taken) && OneActiveLockEach(b.locks) && DistinctTeams(b.teams)
  }

  lemma {:induction false} SnapshotFound(taken: seq<Taken>, team: Id, matchday: Id)
    ensures SnapshotOf(taken, team, matchday).None?
       <==> forall i :: 0 <= i < |taken| ==> taken[i].team != team || taken[i].matchday != matchday
    ensures SnapshotOf(taken, team, matchday).Some? ==>
      Taken(team, matchday, SnapshotOf(taken, team, matchday).value) in taken
  {
    if taken != [] {
      SnapshotFound(taken[1..], team, matchday);
      assert forall i :: 0 <= i < |taken| - 1 ==> taken[1..][i] == taken[i + 1];
    }
  }

  lemma {:induction false} SnapshotOfAppend(taken: seq<Taken>, more: seq<Taken>, team: Id, matchday: Id)
    ensures SnapshotOf(taken + more, team, matchday)
         == if SnapshotOf(taken, team, matchday).Some? then SnapshotOf(taken, team, matchday)
            else SnapshotOf(more, team, matchday)
  {
    if taken == [] {
      assert taken + more == more;
    } else {
      SnapshotOfAppend(taken[1..], more, team, matchday);
      assert (taken + more)[1..] == taken[1..] + more;
    }
  }

  // Nothing is dropped or rewritten, only added, and what is added is new.
  ghost predicate OnlyAdds(taken: seq<Taken>, after: seq<Taken>) {
    taken <= after && (OneSnapshotEach(taken) ==> OneSnapshotEach(after))
  }

  lemma {:induction false} CaptureTeamAdds(taken: seq<Taken>, team: TeamState, matchday: Id)
    ensures OnlyAdds(taken, CaptureTeam(taken, team, matchday))
    ensures SnapshotOf(CaptureTeam(taken, team, matchday), team.id, matchday)
         == Some(SnapshotOf(taken, team.id, matchday).GetOr(team.content))
  {
    SnapshotFound(taken, team.id, matchday);
    SnapshotOfAppend(taken, [Taken(team.id, matchday, team.content)], team.id, matchday);
  }

  lemma {:induction false} CaptureAllAdds(taken: seq<Taken>, teams: seq<TeamState>, matchday: Id)
    ensures OnlyAdds(taken, CaptureAll(taken, teams, matchday))
  {
    if teams != [] {
      CaptureAllAdds(taken, teams[..|teams| - 1], matchday);
      CaptureTeamAdds(CaptureAll(taken, teams[..|teams| - 1], matchday), teams[|teams| - 1], matchday);
    }
  }

  lemma {:induction false} StepIsSound(b: Books, step: Step)
    requires Sound(b)
    ensures Sound(Perform(b, step)) && b.taken <= Perform(b, step).taken
  {
    match step
    case DoLock(matchday, knownUser) => CaptureAllAdds(b.taken, b.teams, matchday);
    case PlayFreeHit(team, matchday) =>
      if TeamIndex(b.teams, team) < |b.teams| {
        CaptureTeamAdds(b.taken, b.teams[TeamIndex(b.teams, team)], matchday);
      }
    case DoUnlock(matchday) =>
    case Edit(team, content) =>
    case Join(team, content) =>
    case SetStatus(matchday, status) =>
  }

  // Over every run there is one snapshot per team and matchday, written once and never changed, and at most one
  // active lock per matchday.
  lemma {:induction false} SnapshotsAreWriteOnce(b: Books, script: seq<Step>)
    requires Sound(b)
    ensures Sound(Run(b, script)) && b.taken <= Run(b, script).taken
  {
    if script != [] {
      SnapshotsAreWriteOnce(b, script[..|script| - 1]);
      StepIsSound(Run(b, script[..|script| - 1]), script[|script| - 1]);
    }
  }

  lemma {:induction false} PrefixKeepsSnapshot(taken: seq<Taken>, after: seq<Taken>, team: Id, matchday: Id)
    requires taken <= after && SnapshotOf(taken, team, matchday).Some?
    ensures SnapshotOf(after, team, matchday) == SnapshotOf(taken, team, matchday)
  {
    assert after == taken + after[|taken|..];
    SnapshotOfAppend(taken, after[|taken|..], team, matchday);
  }

  lemma {:induction false} CaptureAllCovers(taken: seq<Taken>, teams: seq<TeamState>, matchday: Id, i: nat)
    requires i < |teams| && DistinctTeams(teams)
    ensures SnapshotOf(CaptureAll(taken, teams, matchday), teams[i].id, matchday)
         == Some(SnapshotOf(taken, teams[i].id, matchday).GetOr(teams[i].content))
  {
    var last := |teams| - 1;
    var mid := CaptureAll(taken, teams[..last], matchday);
    CaptureTeamAdds(mid, teams[last], matchday);
    if i < last {
      CaptureAllCovers(taken, teams[..last], matchday, i);
      PrefixKeepsSnapshot(mid, CaptureAll(taken, teams, matchday), teams[i].id, matchday);
    } else {
      NotCaptured(taken, teams[..last], matchday, teams[last].id);
    }
  }

  lemma {:induction false} NotCaptured(taken: seq<Taken>, teams: seq<TeamState>, matchday: Id, team: Id)
    requires forall i :: 0 <= i < |teams| ==> teams[i].id != team
    ensures SnapshotOf(CaptureAll(taken, teams, matchday), team, matchday) == SnapshotOf(taken, team, matchday)
  {
    if teams != [] {
      var last := |teams| - 1;
      var mid := CaptureAll(taken, teams[..last], matchday);
      NotCaptured(taken, teams[..last], matchday, team);
      SnapshotOfAppend(mid, [Taken(teams[last].id, matchday, teams[last].content)], team, matchday);
    }
  }

  // After a lock every team has a snapshot of the matchday: the one it had, or else what it held at the lock. No
  // unlock, further lock, Free Hit or edit changes it again.
  lemma {:induction false} LockedSquadStands(b: Books, matchday: Id, knownUser: bool, script: seq<Step>, i: nat)
    requires Sound(b) && Lock(b, matchday, knownUser).1.LockedNow? && i < |b.teams|
    ensures SnapshotOf(Run(Lock(b, matchday, knownUser).0, script).taken, b.teams[i].id, matchday)
         == Some(SnapshotOf(b.taken, b.teams[i].id, matchday).GetOr(b.teams[i].content))
  {
    var locked := Lock(b, matchday, knownUser).0;
    StepIsSound(b, DoLock(matchday, knownUser));
    CaptureAllCovers(b.taken, b.teams, matchday, i);
    SnapshotsAreWriteOnce(locked, script);
    PrefixKeepsSnapshot(locked.taken, Run(locked, script).taken, b.teams[i].id, matchday);
  }

  // A second lock after an unlock captures only the teams that joined since; without any it creates nothing.
  lemma {:induction false} RelockCreatesNothing(b: Books, matchday: Id, knownUser: bool)
    requires Sound(b) && Lock(b, matchday, knownUser).1.LockedNow?
    ensures var locked := Lock(b, matchday, knownUser).0;
            var again := Unlock(locked, matchday).0;
            && Unlock(locked, matchday).1 == Done
            && Lock(again, matchday, true) == (again.(locks := again.locks + [LockRow(matchday, true)],
                                                      status := again.status[matchday := LockedStatus]), LockedNow(0))
  {
    var locked := Lock(b, matchday, knownUser).0;
    var again := Unlock(locked, matchday).0;
    StepIsSound(b, DoLock(matchday, knownUser));
    forall i | 0 <= i < |b.teams|
      ensures SnapshotOf(locked.taken, b.teams[i].id, matchday).Some?
    {
      CaptureAllCovers(b.taken, b.teams, matchday, i);
    }
    AllCaptured(again.taken, again.teams, matchday);
  }

  lemma {:induction false} AllCaptured(taken: seq<Taken>, teams: seq<TeamState>, matchday: Id)
    requires forall i :: 0 <= i < |teams| ==> SnapshotOf(taken, teams[i].id, matchday).Some?
    ensures CaptureAll(taken, teams, matchday) == taken
  {
    if teams != [] {
      AllCaptured(taken, teams[..|teams| - 1], matchday);
    }
  }

  // ----- What a lock is for ---------------------------------------------------------------------

  lemma {:induction false} StepKeepsLocked(b: Books, step: Step, matchday: Id)
    requires matchday in b.status && ActiveLock(b.locks, matchday) >= 0 && step != DoUnlock(matchday)
    ensures var after := Perform(b, step);
            matchday in after.status && ActiveLock(after.locks, matchday) >= 0
  {
    var i := ActiveLock(b.locks, matchday);
    var after := Perform(b, step);
    assert i < |after.locks| && after.locks[i] == b.locks[i];
  }

  // From a lock until it is undone, whatever else happens and whatever status the matchday is given, changes of
  // squads are refused; in particular no Free Hit captures anything for the matchday.
  lemma {:induction false} LockedStaysLocked(b: Books, matchday: Id, knownUser: bool, script: seq<Step>, team: Id)
    requires Lock(b, matchday, knownUser).1.LockedNow? && DoUnlock(matchday) !in script
    ensures var after := Run(Lock(b, matchday, knownUser).0, script);
            && MutationAnswer(after, matchday) == IsLocked
            && FreeHitCapture(after, team, matchday) == (after, IsLocked)
            && forall known :: Lock(after, matchday, known) == (after, AlreadyLocked)
  {
    StaysLocked(Lock(b, matchday, knownUser).0, matchday, script);
  }

  lemma {:induction false} StaysLocked(b: Books, matchday: Id, script: seq<Step>)
    requires matchday in b.status && ActiveLock(b.locks, matchday) >= 0 && DoUnlock(matchday) !in script
    ensures matchday in Run(b, script).status && ActiveLock(Run(b, script).locks, matchday) >= 0
  {
    if script != [] {
      StaysLocked(b, matchday, script[..|script| - 1]);
      StepKeepsLocked(Run(b, script[..|script| - 1]), script[|script| - 1], matchday);
    }
  }

  // A granted unlock reopens the matchday, and only that one.
  lemma {:induction false} UnlockReopens(b: Books, matchday: Id, other: Id)
    requires Sound(b) && Unlock(b, matchday).1 == Done
    ensures MutationAnswer(Unlock(b, matchday).0, matchday) == Done
    ensures other != matchday ==> MutationAnswer(Unlock(b, matchday).0, other) == MutationAnswer(b, other)
  {
    var i, after := ActiveLock(b.locks, matchday), Unlock(b, matchday).0;
    assert forall k :: 0 <= k < |b.locks| && k != i ==> after.locks[k] == b.locks[k];
    var j, k := ActiveLock(b.locks, other), ActiveLock(after.locks, other);
    if other != matchday && j >= 0 {
      assert after.locks[j] == b.locks[j];
    }
  }

  // ----- The service ------------------------------------------------------------------------------

  class LockService {
    var teams: seq<TeamState>
    var taken: seq<Taken>
    var locks: seq<LockRow>
    var status: map<Id, Status>

    constructor (books: Books)
      ensures State() == books
    {
      teams, taken, locks, status := books.teams, books.taken, books.locks, books.status;
    }

    function State(): Books
      reads this
    {
      Books(teams, taken, locks, status)
    }

    method CaptureSquads(matchday: Id) returns (created: nat)
      modifies this`taken
      ensures taken == CaptureAll(old(taken), teams, matchday)
      ensures |taken| == |old(taken)| + created
    {
      created := 0;
      var i := 0;
      while i < |teams|
        invariant i <= |teams| && taken == CaptureAll(old(taken), teams[..i], matchday)
        invariant |taken| == |old(taken)| + created
      {
        assert teams[..i + 1][..i] == teams[..i];
        if SnapshotOf(taken, teams[i].id, matchday).None? {
          taken := taken + [Taken(teams[i].id, matchday, teams[i].content)];
          created := created + 1;
        }
        i := i + 1;
      }
      assert teams[..|teams|] == teams;
    }

    method LockMatchday(matchday: Id, knownUser: bool) returns (answer: Answer)
      modifies this`taken, this`locks, this`status
      ensures (State(), answer) == Lock(old(State()), matchday, knownUser)
    {
      if matchday !in status {
        return MatchdayNotFound;
      }
      if ActiveLock(locks, matchday) >= 0 {
        return AlreadyLocked;
      }
      if !knownUser {
        return UserNotFound;
      }
      var created := CaptureSquads(matchday);
      status := status[matchday := LockedStatus];
      locks := locks + [LockRow(matchday, true)];
      answer := LockedNow(created);
    }

    method UnlockMatchday(matchday: Id) returns (answer: Answer)
      modifies this`locks, this`status
      ensures (State(), answer) == Unlock(old(State()), matchday)
    {
      if matchday !in status {
        return MatchdayNotFound;
      }
      var i := ActiveLock(locks, matchday);
      if i < 0 {
        return NotLocked;
      }
      locks := locks[i := locks[i].(active := false)];
      status := status[matchday := Opened];
      answer := Done;
    }

    // ensureMatchdayUnlockedForMutations
    method EnsureUnlocked(matchday: Id) returns (answer: Answer)
      ensures answer in {MatchdayNotFound, IsLocked, Done} && answer == MutationAnswer(State(), matchday)
      ensures answer == MatchdayNotFound <==> matchday !in status
      ensures answer == Done ==>
        status[matchday] != LockedStatus && forall i :: 0 <= i < |locks| ==>
          !(locks[i].active && locks[i].matchday == matchday)
    {
      if matchday !in status {
        answer := MatchdayNotFound;
      } else if ActiveLock(locks, matchday) >= 0 || status[matchday] == LockedStatus {
        answer := IsLocked;
      } else {
        answer := Done;
      }
    }

    // What an activation of the Free Hit does to the snapshots: the guard first, then the team, then its capture.
    method CaptureForFreeHit(team: Id, matchday: Id) returns (answer: Answer)
      modifies this`taken
      ensures (State(), answer) == FreeHitCapture(old(State()), team, matchday)
    {
      answer := EnsureUnlocked(matchday);
      if answer != Done {
        return;
      }
      var i := TeamIndex(teams, team);
      if i == |teams| {
        return TeamNotFound;
      }
      if SnapshotOf(taken, team, matchday).None? {
        taken := taken + [Taken(team, matchday, teams[i].content)];
      }
    }
  }
}
