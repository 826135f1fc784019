/** Ranked boards: the global board and one board per league, for a matchday and overall.

    The league boards are proved to be the global board restricted to the members of the league, and a second
    materialisation without changes to report the rank itself as the previous rank. */
module Leaderboards {
  import opened Wrappers
  import opened StableSort
  import S = Scoring

  // The account of a team may have been deleted.
  datatype Team = Team(id: Id, user: Option<Id>, createdAt: int)

  datatype Membership = Membership(user: Option<Id>, league: Option<Id>, archived: bool)

  datatype Row = Row(team: Team, total: int, matchday: int)

  // The entries with league null form the global boards; those with matchday null the overall boards.
  datatype Board = Board(league: Option<Id>, matchday: Option<Id>)

  datatype Entry = Entry(team: Id, rank: nat, previous: Option<nat>, total: int, matchday: int)

  // ----- Rows -------------------------------------------------------------------------------

  // Points of a player in the fixtures of one matchday.
  function MatchdayPoints(logs: seq<S.Log>, matchdayOf: map<Id, Id>, matchday: Id, player: Id): int {
    if logs == [] then 0
    else
      var l := logs[|logs| - 1];
      MatchdayPoints(logs[..|logs| - 1], matchdayOf, matchday, player)
      + if l.player == player && OfMatchday(l, matchdayOf, matchday) then l.total else 0
  }

  predicate OfMatchday(l: S.Log, matchdayOf: map<Id, Id>, matchday: Id) {
    l.fixture in matchdayOf && matchdayOf[l.fixture] == matchday
  }

  // The weighted points of the starters of one team; `points` holds the scorers of the matchday only.
  function MatchdaySum(picks: seq<S.Pick>, team: Id, points: map<Id, int>): int {
    if picks == [] then 0
    else
      var p := picks[|picks| - 1];
      MatchdaySum(picks[..|picks| - 1], team, points)
      + if p.team == team && !p.benched && p.player in points then points[p.player] * Max(p.multiplier, 1) else 0
  }

  function BuildRow(team: Team, picks: seq<S.Pick>, points: map<Id, int>): Row {
    Row(team, S.TeamSum(picks, team.id), MatchdaySum(picks, team.id, points))
  }

  // The same row straight from the stored score logs: what it is to show.
  ghost function MatchdayScore(picks: seq<S.Pick>, team: Id, logs: seq<S.Log>, matchdayOf: map<Id, Id>,
                               matchday: Id): int {
    if picks == [] then 0
    else
      var p := picks[|picks| - 1];
      MatchdayScore(picks[..|picks| - 1], team, logs, matchdayOf, matchday)
      + if p.team == team then S.Weighted(p.(livePoints := MatchdayPoints(logs, matchdayOf, matchday, p.player))) else 0
  }

  ghost function RowsOf(teams: seq<Team>, picks: seq<S.Pick>, logs: seq<S.Log>, matchdayOf: map<Id, Id>, matchday: Id)
    : (r: seq<Row>)
  {
    seq(|teams|, i requires 0 <= i < |teams| =>
      Row(teams[i], S.TeamSum(picks, teams[i].id), MatchdayScore(picks, teams[i].id, logs, matchdayOf, matchday)))
  }

  ghost predicate HoldsPoints(points: map<Id, int>, logs: seq<S.Log>, matchdayOf: map<Id, Id>, matchday: Id) {
    forall p :: (if p in points then points[p] else 0) == MatchdayPoints(logs, matchdayOf, matchday, p)
  }

  lemma {:induction false} SumShowsScore(picks: seq<S.Pick>, team: Id, points: map<Id, int>, logs: seq<S.Log>,
                                         matchdayOf: map<Id, Id>, matchday: Id)
    requires HoldsPoints(points, logs, matchdayOf, matchday)
    ensures MatchdaySum(picks, team, points) == MatchdayScore(picks, team, logs, matchdayOf, matchday)
  {
    if picks != [] {
      SumShowsScore(picks[..|picks| - 1], team, points, logs, matchdayOf, matchday);
      var p := picks[|picks| - 1];
      assert (if p.player in points then points[p.player] else 0)
           == MatchdayPoints(logs, matchdayOf, matchday, p.player);
    }
  }

  // ----- Ranking ------------------------------------------------------------------------------

  // More points first, then more points in the matchday, then the older team.
  function RowKey(r: Row): SortKey {
    SortKey(-r.total, -r.matchday, r.team.createdAt)
  }

  // What a higher place means: more points, or as many and more in the matchday, or as many again and no younger.
  predicate RanksAbove(a: Row, b: Row) {
    || a.total > b.total
    || (a.total == b.total && a.matchday > b.matchday)
    || (a.total == b.total && a.matchday == b.matchday && a.team.createdAt <= b.team.createdAt)
  }

  function Ranked(rows: seq<Row>): seq<Row> {
    Sort(rows, RowKey)
  }

  // Stored boards are read back by rank, then by points.
  function EntryKey(e: Entry): SortKey {
    SortKey(e.rank, -e.total, 0)
  }

  function LastRank(entries: seq<Entry>, team: Id): Option<nat> {
    if entries == [] then None
    else if entries[|entries| - 1].team == team then Some(entries[|entries| - 1].rank)
    else LastRank(entries[..|entries| - 1], team)
  }

  function PreviousRank(entries: seq<Entry>, team: Id): Option<nat> {
    LastRank(Sort(entries, EntryKey), team)
  }

  function Numbered(rows: seq<Row>, before: seq<Entry>): (r: seq<Entry>)
  {
    seq(|rows|, i requires 0 <= i < |rows| =>
      Entry(rows[i].team.id, i + 1, PreviousRank(before, rows[i].team.id), rows[i].total, rows[i].matchday))
  }

  // ----- Grouping by league -------------------------------------------------------------------

  // The leagues a user takes part in, in joining order; archived leagues and dangling rows do not count.
  function LeaguesOf(memberships: seq<Membership>, user: Id): seq<Id> {
    if memberships == [] then []
    else
      var m := memberships[0];
      if m.user == Some(user) && m.league.Some? && !m.archived
      then [m.league.value] + LeaguesOf(memberships[1..], user)
      else LeaguesOf(memberships[1..], user)
  }

  function Repeat(row: Row, leagues: seq<Id>, league: Id): seq<Row> {
    if leagues == [] then []
    else (if leagues[0] == league then [row] else []) + Repeat(row, leagues[1..], league)
  }

  // A team is listed in a league once per membership of its user.
  function LeagueRows(rows: seq<Row>, memberships: seq<Membership>, league: Id): seq<Row> {
    if rows == [] then []
    else
      (match rows[0].team.user
       case None => []
       case Some(user) => Repeat(rows[0], LeaguesOf(memberships, user), league))
      + LeagueRows(rows[1..], memberships, league)
  }

  predicate IsMember(memberships: seq<Membership>, team: Team, league: Id) {
    team.user.Some? && Membership(team.user, Some(league), false) in memberships
  }

  ghost predicate OneMembershipEach(memberships: seq<Membership>) {
    forall i, j :: 0 <= i < j < |memberships| && memberships[i].user.Some? && memberships[i].league.Some? ==>
      memberships[i].user != memberships[j].user || memberships[i].league != memberships[j].league
  }

  lemma {:induction false} LeaguesOfMembers(memberships: seq<Membership>, user: Id, league: Id)
    requires OneMembershipEach(memberships)
    ensures league in LeaguesOf(memberships, user) <==> Membership(Some(user), Some(league), false) in memberships
    ensures Distinct(LeaguesOf(memberships, user))
  {
    if memberships != [] {
      var m := memberships[0];
      LeaguesOfMembers(memberships[1..], user, league);
      if m.user == Some(user) && m.league.Some? {
        LeaguesOfMembers(memberships[1..], user, m.league.value);
      }
    }
  }

  lemma {:induction false} RepeatOnce(row: Row, leagues: seq<Id>, league: Id)
    requires Distinct(leagues)
    ensures Repeat(row, leagues, league) == if league in leagues then [row] else []
  {
    if leagues != [] {
      RepeatOnce(row, leagues[1..], league);
    }
  }

  lemma {:induction false} LeagueRowsAreMembers(rows: seq<Row>, memberships: seq<Membership>, league: Id)
    requires OneMembershipEach(memberships)
    ensures LeagueRows(rows, memberships, league) == Filter(rows, (r: Row) => IsMember(memberships, r.team, league))
  {
    if rows != [] {
      LeagueRowsAreMembers(rows[1..], memberships, league);
      if rows[0].team.user.Some? {
        var user := rows[0].team.user.value;
        LeaguesOfMembers(memberships, user, league);
        RepeatOnce(rows[0], LeaguesOf(memberships, user), league);
      }
    }
  }

  // ----- Materialisation as a function ----------------------------------------------------------

  type Boards = map<Board, seq<Entry>>

  function EntriesOf(boards: Boards, b: Board): seq<Entry> {
    if b in boards then boards[b] else []
  }

  predicate Rewritten(b: Board, matchday: Id) {
    b.matchday == None || b.matchday == Some(matchday)
  }

  function RowsFor(b: Board, rows: seq<Row>, memberships: seq<Membership>): seq<Row> {
    match b.league
    case None => rows
    case Some(league) => LeagueRows(rows, memberships, league)
  }

  function BoardAfter(boards: Boards, rows: seq<Row>, memberships: seq<Membership>, matchday: Id,
                      b: Board): seq<Entry> {
    if Rewritten(b, matchday) then Numbered(Ranked(RowsFor(b, rows, memberships)), EntriesOf(boards, b))
    else EntriesOf(boards, b)
  }

  ghost predicate BecomesMaterialized(boards: Boards, after: Boards, rows: seq<Row>, memberships: seq<Membership>,
                                      matchday: Id) {
    forall b :: EntriesOf(after, b) == BoardAfter(boards, rows, memberships, matchday, b)
  }

  // ----- Properties -------------------------------------------------------------------------------

  // Every board lists its teams once, best first, and numbers them from one.
  lemma {:induction false} BoardsAreOrdered(boards: Boards, rows: seq<Row>, memberships: seq<Membership>, matchday: Id,
                                            b: Board)
    requires Rewritten(b, matchday)
    ensures var source, ranked := RowsFor(b, rows, memberships), Ranked(RowsFor(b, rows, memberships));
            && multiset(ranked) == multiset(source)
            && (forall i, j :: 0 <= i < j < |ranked| ==> RanksAbove(ranked[i], ranked[j]))
            && var entries := BoardAfter(boards, rows, memberships, matchday, b);
               && |entries| == |source|
               && forall i :: 0 <= i < |entries| ==>
                    entries[i].rank == i + 1 && entries[i].team == ranked[i].team.id
                      && entries[i].total == ranked[i].total
  {
    SortPermutes(RowsFor(b, rows, memberships), RowKey);
    SortSorts(RowsFor(b, rows, memberships), RowKey);
    var ranked := Ranked(RowsFor(b, rows, memberships));
    forall i, j | 0 <= i < j < |ranked|
      ensures RanksAbove(ranked[i], ranked[j])
    {
      assert !Before(RowKey(ranked[j]), RowKey(ranked[i]));
    }
    assert |multiset(Ranked(RowsFor(b, rows, memberships)))| == |multiset(RowsFor(b, rows, memberships))|;
  }

  function MembersIn(rows: seq<Row>, memberships: seq<Membership>, league: Id): nat {
    |Filter(rows, (r: Row) => IsMember(memberships, r.team, league))|
  }

  // A league board is the global board restricted to the members and renumbered: the member at position p of the
  // global board has as many teams above him in his league as there are members above p.
  lemma {:induction false} LeagueBoardRestrictsGlobal(boards: Boards, rows: seq<Row>, memberships: seq<Membership>,
                                                      matchday: Id, league: Id, m: Option<Id>)
    requires OneMembershipEach(memberships)
    requires m == None || m == Some(matchday)
    ensures var ranked := Ranked(rows);
            var global := BoardAfter(boards, rows, memberships, matchday, Board(None, m));
            var board := BoardAfter(boards, rows, memberships, matchday, Board(Some(league), m));
            && |global| == |ranked| && |board| == MembersIn(ranked, memberships, league)
            && (forall p :: 0 <= p < |ranked| ==> global[p].team == ranked[p].team.id && global[p].rank == p + 1)
            && forall p :: 0 <= p < |ranked| && IsMember(memberships, ranked[p].team, league) ==>
                 var above := MembersIn(ranked[..p], memberships, league);
                 && above < |board|
                 && board[above].team == global[p].team && board[above].rank == above + 1
                 && board[above].total == global[p].total && board[above].matchday == global[p].matchday
  {
    var keep := (r: Row) => IsMember(memberships, r.team, league);
    var ranked := Ranked(rows);
    var members := LeagueRows(rows, memberships, league);
    LeagueRowsAreMembers(rows, memberships, league);
    FilterSort(rows, RowKey, keep);
    assert Ranked(members) == Filter(ranked, keep);
    forall p | 0 <= p < |ranked| && IsMember(memberships, ranked[p].team, league)
      ensures MembersIn(ranked[..p], memberships, league) < |Filter(ranked, keep)|
      ensures Filter(ranked, keep)[MembersIn(ranked[..p], memberships, league)] == ranked[p]
    {
      FilterPosition(ranked, keep, p);
    }
  }

  lemma {:induction false} LastRankFinds(entries: seq<Entry>, i: nat)
    requires i < |entries| && DistinctBy(entries, (e: Entry) => e.team)
    ensures LastRank(entries, entries[i].team) == Some(entries[i].rank)
  {
    var last := |entries| - 1;
    if i < last {
      assert ((e: Entry) => e.team)(entries[i]) != ((e: Entry) => e.team)(entries[last]);
      LastRankFinds(entries[..last], i);
    }
  }

  lemma {:induction false} RowsForAreDistinct(b: Board, rows: seq<Row>, memberships: seq<Membership>)
    requires OneMembershipEach(memberships) && DistinctBy(rows, (r: Row) => r.team.id)
    ensures DistinctBy(Ranked(RowsFor(b, rows, memberships)), (r: Row) => r.team.id)
  {
    var id := (r: Row) => r.team.id;
    if b.league.Some? {
      LeagueRowsAreMembers(rows, memberships, b.league.value);
      FilterKeepsDistinct(rows, (r: Row) => IsMember(memberships, r.team, b.league.value), id);
    }
    SortKeepsDistinct(RowsFor(b, rows, memberships), RowKey, id);
  }

  // Materialising twice without a change in between: every entry keeps its place and its points, and reports its
  // own rank as the previous one.
  lemma {:induction false} MaterializeTwice(boards: Boards, once: Boards, twice: Boards, rows: seq<Row>,
                                            memberships: seq<Membership>, matchday: Id, b: Board, i: nat)
    requires OneMembershipEach(memberships) && DistinctBy(rows, (r: Row) => r.team.id)
    requires BecomesMaterialized(boards, once, rows, memberships, matchday)
    requires BecomesMaterialized(once, twice, rows, memberships, matchday)
    requires Rewritten(b, matchday) && i < |EntriesOf(once, b)|
    ensures |EntriesOf(twice, b)| == |EntriesOf(once, b)|
    ensures EntriesOf(twice, b)[i].previous == Some(EntriesOf(twice, b)[i].rank)
    ensures EntriesOf(twice, b)[i] == EntriesOf(once, b)[i].(previous := Some(i + 1))
  {
    var ranked := Ranked(RowsFor(b, rows, memberships));
    var first := EntriesOf(once, b);
    assert first == BoardAfter(boards, rows, memberships, matchday, b);
    assert EntriesOf(twice, b) == BoardAfter(once, rows, memberships, matchday, b);
    RowsForAreDistinct(b, rows, memberships);
    assert DistinctBy(first, (e: Entry) => e.team) by {
      forall x, y | 0 <= x < y < |first|
        ensures ((e: Entry) => e.team)(first[x]) != ((e: Entry) => e.team)(first[y])
      {
        assert ((r: Row) => r.team.id)(ranked[x]) != ((r: Row) => r.team.id)(ranked[y]);
      }
    }
    SortOfSorted(first, EntryKey);
    LastRankFinds(first, i);
  }

  // ----- The service ------------------------------------------------------------------------------

  function Lookup<T>(m: map<Id, seq<T>>, k: Id): seq<T> {
    if k in m then m[k] else []
  }

  // Entries of a board once the leagues in `done` are published.
  ghost function LeagueEntries(leagueRows: map<Id, seq<Row>>, done: set<Id>, boards: Boards, stored: Boards,
                               matchday: Id, b: Board): seq<Entry>
    requires done <= leagueRows.Keys
  {
    if b.league.Some? && b.league.value in done && Rewritten(b, matchday)
    then Numbered(Ranked(leagueRows[b.league.value]), EntriesOf(stored, b))
    else EntriesOf(boards, b)
  }

  lemma {:induction false} Regroup<T>(done: seq<T>, step: seq<T>, rest: seq<T>, all: seq<T>)
    requires done + (step + rest) == all
    ensures (done + step) + rest == all
  {
  }

  // What is grouped so far, and what the remaining rows will add.
  ghost predicate Grouping(acc: map<Id, seq<Row>>, rest: seq<Row>, rows: seq<Row>, memberships: seq<Membership>) {
    forall l :: Lookup(acc, l) + LeagueRows(rest, memberships, l) == LeagueRows(rows, memberships, l)
  }

  lemma {:induction false} GroupRow(acc: map<Id, seq<Row>>, next: map<Id, seq<Row>>, leagues: seq<Id>, rest: seq<Row>,
                                    rows: seq<Row>, memberships: seq<Membership>)
    requires rest != [] && Grouping(acc, rest, rows, memberships)
    requires leagues == if rest[0].team.user.Some? then LeaguesOf(memberships, rest[0].team.user.value) else []
    requires forall l :: Lookup(next, l) == Lookup(acc, l) + Repeat(rest[0], leagues, l)
    ensures Grouping(next, rest[1..], rows, memberships)
  {
    forall l
      ensures Lookup(next, l) + LeagueRows(rest[1..], memberships, l) == LeagueRows(rows, memberships, l)
    {
      Regroup(Lookup(acc, l), Repeat(rest[0], leagues, l), LeagueRows(rest[1..], memberships, l),
              LeagueRows(rows, memberships, l));
    }
  }

  ghost predicate Collecting(acc: map<Id, seq<Id>>, rest: seq<Membership>, memberships: seq<Membership>,
                             users: set<Id>) {
    forall u :: u in users ==> Lookup(acc, u) + LeaguesOf(rest, u) == LeaguesOf(memberships, u)
  }

  lemma {:induction false} CollectMembership(acc: map<Id, seq<Id>>, next: map<Id, seq<Id>>, rest: seq<Membership>,
                                             memberships: seq<Membership>, users: set<Id>)
    requires rest != [] && Collecting(acc, rest, memberships, users)
    requires var m := rest[0];
             next == if m.user.Some? && m.league.Some? && m.user.value in users && !m.archived
                     then acc[m.user.value := Lookup(acc, m.user.value) + [m.league.value]] else acc
    ensures Collecting(next, rest[1..], memberships, users)
  {
    forall u | u in users
      ensures Lookup(next, u) + LeaguesOf(rest[1..], u) == LeaguesOf(memberships, u)
    {
      var m := rest[0];
      if m.user == Some(u) && m.league.Some? && !m.archived {
        Regroup(Lookup(acc, u), [m.league.value], LeaguesOf(rest[1..], u), LeaguesOf(memberships, u));
      }
    }
  }

  class LeaderboardStore {
    var teams: seq<Team>
    var picks: seq<S.Pick>
    var logs: seq<S.Log>
    var matchdayOf: map<Id, Id>
    var totals: map<Id, int>
    var memberships: seq<Membership>
    var boards: Boards

    constructor (teams: seq<Team>, picks: seq<S.Pick>, logs: seq<S.Log>, matchdayOf: map<Id, Id>,
                 memberships: seq<Membership>, boards: Boards)
      ensures this.teams == teams && this.picks == picks && this.logs == logs && this.matchdayOf == matchdayOf
      ensures totals == map[] && this.memberships == memberships && this.boards == boards
    {
      this.teams, this.picks, this.logs, this.matchdayOf := teams, picks, logs, matchdayOf;
      totals, this.memberships, this.boards := map[], memberships, boards;
    }

    method MatchdayPlayerPoints(matchday: Id) returns (points: map<Id, int>)
      ensures HoldsPoints(points, logs, matchdayOf, matchday)
    {
      points := map[];
      var i := 0;
      while i < |logs|
        invariant i <= |logs|
        invariant HoldsPoints(points, logs[..i], matchdayOf, matchday)
      {
        assert logs[..i + 1][..i] == logs[..i];
        var l := logs[i];
        if OfMatchday(l, matchdayOf, matchday) {
          points := points[l.player := (if l.player in points then points[l.player] else 0) + l.total];
        }
        i := i + 1;
      }
      assert logs[..|logs|] == logs;
    }

    // Builds the rows and stores the totals they show on the teams.
    method BuildRows(matchday: Id) returns (rows: seq<Row>)
      modifies this`totals
      ensures rows == RowsOf(teams, picks, logs, matchdayOf, matchday)
      ensures forall i :: 0 <= i < |teams| ==>
        teams[i].id in totals && totals[teams[i].id] == S.TeamSum(picks, teams[i].id)
      ensures forall t :: t in totals ==>
        (t in old(totals) && totals[t] == old(totals)[t]) || exists i :: 0 <= i < |teams| && teams[i].id == t
      ensures old(totals).Keys <= totals.Keys
    {
      var points := MatchdayPlayerPoints(matchday);
      rows := [];
      var i := 0;
      while i < |teams|
        invariant i <= |teams| && |rows| == i
        invariant forall k :: 0 <= k < i ==> rows[k] == RowsOf(teams, picks, logs, matchdayOf, matchday)[k]
        invariant forall k :: 0 <= k < i ==>
          teams[k].id in totals && totals[teams[k].id] == S.TeamSum(picks, teams[k].id)
        invariant forall t :: t in totals ==>
          (t in old(totals) && totals[t] == old(totals)[t]) || exists k :: 0 <= k < i && teams[k].id == t
        invariant old(totals).Keys <= totals.Keys
      {
        SumShowsScore(picks, teams[i].id, points, logs, matchdayOf, matchday);
        var row := BuildRow(teams[i], picks, points);
        rows := rows + [row];
        totals := totals[teams[i].id := row.total];
        i := i + 1;
      }
    }

    // The leagues of every user who has a team.
    method GroupMemberships(rows: seq<Row>) returns (byUser: map<Id, seq<Id>>)
      ensures forall i :: 0 <= i < |rows| && rows[i].team.user.Some? ==>
        Lookup(byUser, rows[i].team.user.value) == LeaguesOf(memberships, rows[i].team.user.value)
    {
      var users := set i | 0 <= i < |rows| && rows[i].team.user.Some? :: rows[i].team.user.value;
      byUser := map[];
      var i := 0;
      while i < |memberships|
        invariant i <= |memberships|
        invariant Collecting(byUser, memberships[i..], memberships, users)
      {
        var m := memberships[i];
        ghost var acc := byUser;
        if m.user.Some? && m.league.Some? && m.user.value in users && !m.archived {
          byUser := byUser[m.user.value := Lookup(byUser, m.user.value) + [m.league.value]];
        }
        CollectMembership(acc, byUser, memberships[i..], memberships, users);
        assert memberships[i..][1..] == memberships[i + 1..];
        i := i + 1;
      }
    }

    method AddRow(row: Row, leagues: seq<Id>, leagueRows: map<Id, seq<Row>>) returns (r: map<Id, seq<Row>>)
      ensures forall l :: Lookup(r, l) == Lookup(leagueRows, l) + Repeat(row, leagues, l)
    {
      r := leagueRows;
      var j := 0;
      while j < |leagues|
        invariant j <= |leagues|
        invariant forall l ::
          Lookup(r, l) + Repeat(row, leagues[j..], l) == Lookup(leagueRows, l) + Repeat(row, leagues, l)
      {
        assert leagues[j..][1..] == leagues[j + 1..];
        r := r[leagues[j] := Lookup(r, leagues[j]) + [row]];
        j := j + 1;
      }
    }

    method GroupRows(rows: seq<Row>) returns (leagueRows: map<Id, seq<Row>>)
      ensures forall l :: Lookup(leagueRows, l) == LeagueRows(rows, memberships, l)
    {
      var byUser := GroupMemberships(rows);
      leagueRows := map[];
      var i := 0;
      while i < |rows|
        invariant i <= |rows|
        invariant Grouping(leagueRows, rows[i..], rows, memberships)
      {
        var row := rows[i];
        ghost var acc := leagueRows;
        var leagues := if row.team.user.Some? then Lookup(byUser, row.team.user.value) else [];
        leagueRows := AddRow(row, leagues, leagueRows);
        GroupRow(acc, leagueRows, leagues, rows[i..], rows, memberships);
        assert rows[i..][1..] == rows[i + 1..];
        i := i + 1;
      }
    }

    // Deletes the global boards, or all league boards, of one matchday (or the overall ones).
    method DeleteEntries(leagues: bool, matchday: Option<Id>)
      modifies this`boards
      ensures forall b ::
        EntriesOf(boards, b)
        == if b.league.Some? == leagues && b.matchday == matchday then [] else EntriesOf(old(boards), b)
    {
      boards := map b | b in boards && !(b.league.Some? == leagues && b.matchday == matchday) :: boards[b];
    }

    method DeleteBoards(matchday: Id)
      modifies this`boards
      ensures forall b :: EntriesOf(boards, b) == if Rewritten(b, matchday) then [] else EntriesOf(old(boards), b)
    {
      DeleteEntries(false, None);
      DeleteEntries(false, Some(matchday));
      DeleteEntries(true, None);
      DeleteEntries(true, Some(matchday));
    }

    method PreviousRanks(stored: seq<Entry>) returns (ranks: map<Id, nat>)
      ensures forall t :: PreviousRank(stored, t) == if t in ranks then Some(ranks[t]) else None
    {
      var entries := Sort(stored, EntryKey);
      ranks := map[];
      var i := 0;
      while i < |entries|
        invariant i <= |entries|
        invariant forall t :: LastRank(entries[..i], t) == if t in ranks then Some(ranks[t]) else None
      {
        assert entries[..i + 1][..i] == entries[..i];
        ranks := ranks[entries[i].team := entries[i].rank];
        i := i + 1;
      }
      assert entries[..|entries|] == entries;
    }

    // Ranks the rows and stores them as the board b; `stored` are the entries it had before.
    method Publish(b: Board, rows: seq<Row>, stored: seq<Entry>)
      modifies this`boards
      ensures boards == old(boards)[b := Numbered(Ranked(rows), stored)]
    {
      var ranks := PreviousRanks(stored);
      var ranked := Ranked(rows);
      var entries := [];
      var i := 0;
      while i < |ranked|
        invariant i <= |ranked| && |entries| == i && boards == old(boards)
        invariant forall k :: 0 <= k < i ==> entries[k] == Numbered(ranked, stored)[k]
      {
        var row := ranked[i];
        var previous := if row.team.id in ranks then Some(ranks[row.team.id]) else None;
        entries := entries + [Entry(row.team.id, i + 1, previous, row.total, row.matchday)];
        i := i + 1;
      }
      assert entries == Numbered(ranked, stored);
      boards := boards[b := entries];
    }

    method PublishLeagues(leagueRows: map<Id, seq<Row>>, stored: Boards, matchday: Id)
      modifies this`boards
      ensures forall b ::
        EntriesOf(boards, b) == LeagueEntries(leagueRows, leagueRows.Keys, old(boards), stored, matchday, b)
    {
      var todo := leagueRows.Keys;
      while todo != {}
        invariant todo <= leagueRows.Keys
        invariant forall b ::
          EntriesOf(boards, b) == LeagueEntries(leagueRows, leagueRows.Keys - todo, old(boards), stored, matchday, b)
      {
        ghost var was := boards;
        var l :| l in todo;
        var overall, week := Board(Some(l), None), Board(Some(l), Some(matchday));
        Publish(overall, leagueRows[l], EntriesOf(stored, overall));
        Publish(week, leagueRows[l], EntriesOf(stored, week));
        forall b: Board
          ensures EntriesOf(boards, b)
               == LeagueEntries(leagueRows, leagueRows.Keys - (todo - {l}), old(boards), stored, matchday, b)
        {
          assert EntriesOf(was, b)
               == LeagueEntries(leagueRows, leagueRows.Keys - todo, old(boards), stored, matchday, b);
        }
        todo := todo - {l};
      }
    }

    // Deletes and rewrites every board of the matchday and every overall board.
    method Rewrite(rows: seq<Row>, matchday: Id)
      modifies this`boards
      ensures BecomesMaterialized(old(boards), boards, rows, memberships, matchday)
    {
      var stored := boards;
      var leagueRows := GroupRows(rows);
      DeleteBoards(matchday);
      ghost var kept := boards;
      var overall, week := Board(None, None), Board(None, Some(matchday));
      Publish(overall, rows, EntriesOf(stored, overall));
      Publish(week, rows, EntriesOf(stored, week));
      ghost var global := boards;
      PublishLeagues(leagueRows, stored, matchday);
      forall b
        ensures EntriesOf(boards, b) == BoardAfter(stored, rows, memberships, matchday, b)
      {
        assert EntriesOf(boards, b) == LeagueEntries(leagueRows, leagueRows.Keys, global, stored, matchday, b);
        if b.league.Some? {
          assert EntriesOf(global, b) == EntriesOf(kept, b);
          assert Lookup(leagueRows, b.league.value) == LeagueRows(rows, memberships, b.league.value);
        }
      }
    }

    method Materialize(matchday: Id) returns (count: nat)
      modifies this`boards, this`totals
      ensures count == |teams|
      ensures BecomesMaterialized(old(boards), boards, RowsOf(teams, picks, logs, matchdayOf, matchday), memberships,
                                  matchday)
      ensures forall i :: 0 <= i < |teams| ==>
        teams[i].id in totals && totals[teams[i].id] == S.TeamSum(picks, teams[i].id)
    {
      var rows := BuildRows(matchday);
      Rewrite(rows, matchday);
      count := |rows|;
    }
  }
}
