/** What locking, unlocking and the guard answer, and the rows they leave behind, row by row. */
module LockAnswers {
  import opened Wrappers
  import opened ChipState
  import opened DeadlineLock

  ghost predicate HeldLock(locks: seq<LockRow>, matchday: Id) {
    exists i :: 0 <= i < |locks| && locks[i].active && locks[i].matchday == matchday
  }

  ghost predicate Captured(taken: seq<Taken>, team: Id, matchday: Id) {
    exists i :: 0 <= i < |taken| && taken[i].team == team && taken[i].matchday == matchday
  }

  lemma {:induction false} CapturedExactlyWhen(taken: seq<Taken>, team: Id, matchday: Id)
    ensures SnapshotOf(taken, team, matchday).Some? <==> Captured(taken, team, matchday)
  {
    SnapshotFound(taken, team, matchday);
  }

  // ----- Answers --------------------------------------------------------------------------------------------

  // A lock is refused for an unknown matchday, then for a lock it has already, then for an unknown user; a refusal
  // stores nothing. Otherwise the matchday is marked and has one more lock.
  lemma {:induction false} LockAnswered(b: Books, matchday: Id, knownUser: bool)
    ensures var (after, answer) := Lock(b, matchday, knownUser);
            if matchday !in b.status then (after, answer) == (b, MatchdayNotFound)
            else if HeldLock(b.locks, matchday) then (after, answer) == (b, AlreadyLocked)
            else if !knownUser then (after, answer) == (b, UserNotFound)
            else
              && answer == LockedNow(|after.taken| - |b.taken|) && after.teams == b.teams
              && after.locks == b.locks + [LockRow(matchday, true)]
              && after.status == b.status[matchday := LockedStatus]
  {
  }

  // An unlock needs a known matchday with an active lock. It makes exactly one active lock of the matchday inactive -
  // the newest - and opens the matchday.
  lemma {:induction false} UnlockAnswered(b: Books, matchday: Id)
    ensures var (after, answer) := Unlock(b, matchday);
            if matchday !in b.status then (after, answer) == (b, MatchdayNotFound)
            else if !HeldLock(b.locks, matchday) then (after, answer) == (b, NotLocked)
            else
              && answer == Done && after.teams == b.teams && after.taken == b.taken
              && after.status == b.status[matchday := Opened]
              && exists i ::
                   && 0 <= i < |b.locks| && b.locks[i] == LockRow(matchday, true)
                   && after.locks == b.locks[i := LockRow(matchday, false)]
                   && forall k :: i < k < |b.locks| ==> b.locks[k] != LockRow(matchday, true)
  {
    var i := ActiveLock(b.locks, matchday);
    if i >= 0 {
      assert b.locks[i] == LockRow(matchday, true);
    }
  }

  // Mutations of a known matchday are admitted exactly when it has no active lock and is not marked as locked.
  lemma {:induction false} MutationAnswered(b: Books, matchday: Id)
    ensures MutationAnswer(b, matchday) == MatchdayNotFound <==> matchday !in b.status
    ensures MutationAnswer(b, matchday) == Done <==>
              matchday in b.status && !HeldLock(b.locks, matchday) && b.status[matchday] != LockedStatus
    ensures MutationAnswer(b, matchday) in {MatchdayNotFound, IsLocked, Done}
  {
  }

  // ----- Captures ----------------------------------------------------------------------------------------------

  // The teams without a snapshot of the matchday.
  ghost function Uncaptured(taken: seq<Taken>, teams: seq<TeamState>, matchday: Id): set<int> {
    set i | 0 <= i < |teams| && !Captured(taken, teams[i].id, matchday)
  }

  // A row is an old one, or what one of those teams holds.
  ghost predicate Accounted(taken: seq<Taken>, teams: seq<TeamState>, matchday: Id, row: Taken) {
    || row in taken
    || exists i :: i in Uncaptured(taken, teams, matchday) && row == Taken(teams[i].id, matchday, teams[i].content)
  }

  lemma {:induction false} CapturesOnce(taken: seq<Taken>, teams: seq<TeamState>, matchday: Id)
    requires DistinctTeams(teams)
    ensures |CaptureAll(taken, teams, matchday)| == |taken| + |Uncaptured(taken, teams, matchday)|
  {
    if teams != [] {
      var last := |teams| - 1;
      CapturesOnce(taken, teams[..last], matchday);
      NotCaptured(taken, teams[..last], matchday, teams[last].id);
      CapturedExactlyWhen(taken, teams[last].id, matchday);
      UncapturedLast(taken, teams, matchday);
    }
  }

  lemma {:induction false} UncapturedLast(taken: seq<Taken>, teams: seq<TeamState>, matchday: Id)
    requires teams != []
    ensures var last := |teams| - 1;
            var front := Uncaptured(taken, teams[..last], matchday);
            && last !in front
            && Uncaptured(taken, teams, matchday)
               == front + if Captured(taken, teams[last].id, matchday) then {} else {last}
  {
  }

  lemma {:induction false} CapturesAccounted(taken: seq<Taken>, teams: seq<TeamState>, matchday: Id)
    requires DistinctTeams(teams)
    ensures forall k :: 0 <= k < |CaptureAll(taken, teams, matchday)| ==>
      Accounted(taken, teams, matchday, CaptureAll(taken, teams, matchday)[k])
  {
    if teams != [] {
      var last := |teams| - 1;
      var mid := CaptureAll(taken, teams[..last], matchday);
      CapturesAccounted(taken, teams[..last], matchday);
      UncapturedLast(taken, teams, matchday);
      NotCaptured(taken, teams[..last], matchday, teams[last].id);
      CapturedExactlyWhen(taken, teams[last].id, matchday);
      forall k | 0 <= k < |mid|
        ensures Accounted(taken, teams, matchday, mid[k])
      {
        assert Accounted(taken, teams[..last], matchday, mid[k]);
      }
    }
  }

  // A granted lock reports how many teams had no snapshot of the matchday; it keeps every row and adds one for each of
  // these teams, with what the team holds.
  lemma {:induction false} LockCaptures(b: Books, matchday: Id)
    requires Sound(b) && Lock(b, matchday, true).1.LockedNow?
    ensures var (after, answer) := Lock(b, matchday, true);
            && answer == LockedNow(|Uncaptured(b.taken, b.teams, matchday)|) && b.taken <= after.taken
            && (forall k :: 0 <= k < |after.taken| ==> Accounted(b.taken, b.teams, matchday, after.taken[k]))
            && forall i :: i in Uncaptured(b.taken, b.teams, matchday) ==>
                 Taken(b.teams[i].id, matchday, b.teams[i].content) in after.taken
  {
    var after := CaptureAll(b.taken, b.teams, matchday);
    CapturesOnce(b.taken, b.teams, matchday);
    CapturesAccounted(b.taken, b.teams, matchday);
    CaptureAllAdds(b.taken, b.teams, matchday);
    forall i | i in Uncaptured(b.taken, b.teams, matchday)
      ensures Taken(b.teams[i].id, matchday, b.teams[i].content) in after
    {
      CaptureAllCovers(b.taken, b.teams, matchday, i);
      CapturedExactlyWhen(b.taken, b.teams[i].id, matchday);
      SnapshotFound(after, b.teams[i].id, matchday);
    }
  }

  // A Free Hit in an open matchday captures its own team, once, and nothing else.
  lemma {:induction false} FreeHitCaptures(b: Books, matchday: Id, i: nat)
    requires DistinctTeams(b.teams) && i < |b.teams| && MutationAnswer(b, matchday) == Done
    ensures var (after, answer) := FreeHitCapture(b, b.teams[i].id, matchday);
            && answer == Done
            && after == b.(taken := after.taken)
            && after.taken
               == if Captured(b.taken, b.teams[i].id, matchday) then b.taken
                  else b.taken + [Taken(b.teams[i].id, matchday, b.teams[i].content)]
  {
    assert TeamIndex(b.teams, b.teams[i].id) == i;
    CapturedExactlyWhen(b.taken, b.teams[i].id, matchday);
  }

  // Between the locks a team's content is replaced, and an unknown team joins at the end.
  lemma {:induction false} TeamsChange(b: Books, team: Id, content: Snapshot)
    requires DistinctTeams(b.teams)
    ensures forall i :: 0 <= i < |b.teams| && b.teams[i].id == team ==>
              && Perform(b, Edit(team, content)) == b.(teams := b.teams[i := TeamState(team, content)])
              && Perform(b, Join(team, content)) == b
    ensures (forall i :: 0 <= i < |b.teams| ==> b.teams[i].id != team) ==>
              && Perform(b, Edit(team, content)) == b
              && Perform(b, Join(team, content)) == b.(teams := b.teams + [TeamState(team, content)])
  {
    forall i | 0 <= i < |b.teams| && b.teams[i].id == team
      ensures TeamIndex(b.teams, team) == i
    {
    }
  }
}
