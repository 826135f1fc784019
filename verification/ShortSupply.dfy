/** One club less is not enough: a list whose forwards come from six clubs, with a lawful squad, on which the selection
    line by line fails. The cheap players of the first three lines fill four of the six clubs. */
module ShortSupply {
  import opened Wrappers
  import opened StableSort
  import opened SquadPick
  import opened SquadLines

  // The cheap twelve fill the clubs 0 to 3; every dear player and every forward has a club of his own in his line.
  function Keeper(i: nat): Player {
    if i < 2 then Player(i, 0, Goalkeeper, 1, 0, i) else Player(i, 14 + i, Goalkeeper, 2, 0, i)
  }

  function Back(i: nat): Player {
    if i < 5 then Player(4 + i, (2 + i) / 3, Defender, 1, 0, i) else Player(4 + i, 1 + i, Defender, 2, 0, i)
  }

  function Middle(i: nat): Player {
    if i < 5 then Player(14 + i, (7 + i) / 3, Midfielder, 1, 0, i) else Player(14 + i, 6 + i, Midfielder, 2, 0, i)
  }

  function Striker(i: nat): Player {
    Player(26 + i, i, Forward, 1, 0, i)
  }

  function Keepers(): (r: seq<Player>)
  {
    seq(4, (i: int) requires i >= 0 => Keeper(i))
  }

  function Defenders(): (r: seq<Player>)
  {
    seq(10, (i: int) requires i >= 0 => Back(i))
  }

  function Midfielders(): (r: seq<Player>)
  {
    seq(12, (i: int) requires i >= 0 => Middle(i))
  }

  function Forwards(): (r: seq<Player>)
  {
    seq(6, (i: int) requires i >= 0 => Striker(i))
  }

  function Listed(): seq<Player> {
    Keepers() + Defenders() + Midfielders() + Forwards()
  }

  function Twelve(): seq<Player> {
    Keepers()[..2] + Defenders()[..5] + Midfielders()[..5]
  }

  // ----- A squad exists -----------------------------------------------------------------------------

  lemma {:induction false} OneOfEachClub(players: seq<Player>, club: Id)
    requires forall i, j :: 0 <= i < j < |players| ==> players[i].club != players[j].club
    ensures ClubCount(players, club) <= 1
    ensures (forall i :: 0 <= i < |players| ==> players[i].club != club) ==> ClubCount(players, club) == 0
  {
    if players != [] {
      OneOfEachClub(players[..|players| - 1], club);
    }
  }

  lemma {:induction false} DearLinesAreListed()
    ensures multiset(Keepers()[2..]) <= multiset(Listed()) && multiset(Defenders()[5..]) <= multiset(Listed())
    ensures multiset(Midfielders()[5..10]) <= multiset(Listed()) && multiset(Forwards()[3..]) <= multiset(Listed())
  {
    assert Keepers() == Keepers()[..2] + Keepers()[2..] && Defenders() == Defenders()[..5] + Defenders()[5..];
    assert Midfielders() == Midfielders()[..5] + Midfielders()[5..10] + Midfielders()[10..];
    assert Forwards() == Forwards()[..3] + Forwards()[3..];
  }

  lemma {:induction false} SquadExists()
    ensures ValidSquad(Listed(), Keepers()[2..], Defenders()[5..], Midfielders()[5..10], Forwards()[3..])
  {
    var squad := Keepers()[2..] + Defenders()[5..] + Midfielders()[5..10] + Forwards()[3..];
    DearLinesAreListed();
    LinesAreApart(Listed(), Keepers()[2..], Defenders()[5..], Midfielders()[5..10], Forwards()[3..]);
    assert forall i :: 0 <= i < |squad| ==>
      squad[i].club == if i < 2 then 16 + i else if i < 12 then 4 + i else i - 9;
    forall club
      ensures ClubCount(squad, club) <= MAX_PER_CLUB
    {
      OneOfEachClub(squad, club);
    }
  }

  // ----- The lists of a position ----------------------------------------------------------------------

  lemma {:induction false} FilterAppend(a: seq<Player>, b: seq<Player>, keep: Player -> bool)
    ensures Filter(a + b, keep) == Filter(a, keep) + Filter(b, keep)
  {
    if a == [] {
      assert a + b == b;
    } else {
      assert (a + b)[1..] == a[1..] + b && (a + b)[0] == a[0];
      FilterAppend(a[1..], b, keep);
      calc {
        Filter(a + b, keep);
        (if keep(a[0]) then [a[0]] else []) + Filter(a[1..] + b, keep);
        (if keep(a[0]) then [a[0]] else []) + (Filter(a[1..], keep) + Filter(b, keep));
        ((if keep(a[0]) then [a[0]] else []) + Filter(a[1..], keep)) + Filter(b, keep);
        Filter(a, keep) + Filter(b, keep);
      }
    }
  }

  lemma {:induction false} FilterAllOrNothing(players: seq<Player>, keep: Player -> bool)
    ensures (forall p :: p in players ==> keep(p)) ==> Filter(players, keep) == players
    ensures (forall p :: p in players ==> !keep(p)) ==> Filter(players, keep) == []
  {
    if players != [] {
      FilterAllOrNothing(players[1..], keep);
    }
  }

  // The players of one position stand together in the list, in price order.
  lemma {:induction false} LineIs(all: seq<Player>, position: Position, before: seq<Player>, line: seq<Player>,
                                  after: seq<Player>)
    requires all == before + line + after && Sorted(line, PlayerKey)
    requires OfPosition(line, position) && forall p :: p in before + after ==> p.position != position
    ensures LineOf(all, position) == line
  {
    var keep := InPosition(position);
    assert forall p :: p in before || p in after ==> p in before + after;
    FilterAppend(before + line, after, keep);
    FilterAppend(before, line, keep);
    FilterAllOrNothing(before, keep);
    FilterAllOrNothing(line, keep);
    FilterAllOrNothing(after, keep);
    assert Filter(all, keep) == line;
    SortedLineIs(all, position, line);
  }

  lemma {:induction false} SortedLineIs(all: seq<Player>, position: Position, line: seq<Player>)
    requires Filter(all, InPosition(position)) == line && Sorted(line, PlayerKey)
    ensures LineOf(all, position) == line
  {
    SortOfSorted(line, PlayerKey);
  }

  lemma {:induction false} KeepersLine()
    ensures LineOf(Listed(), Goalkeeper) == Keepers()
  {
    assert Listed() == [] + Keepers() + (Defenders() + Midfielders() + Forwards());
    LineIs(Listed(), Goalkeeper, [], Keepers(), Defenders() + Midfielders() + Forwards());
  }

  lemma {:induction false} DefendersLine()
    ensures LineOf(Listed(), Defender) == Defenders()
  {
    assert Listed() == Keepers() + Defenders() + (Midfielders() + Forwards());
    LineIs(Listed(), Defender, Keepers(), Defenders(), Midfielders() + Forwards());
  }

  lemma {:induction false} MidfieldersLine()
    ensures LineOf(Listed(), Midfielder) == Midfielders()
  {
    LineIs(Listed(), Midfielder, Keepers() + Defenders(), Midfielders(), Forwards());
  }

  lemma {:induction false} ForwardsLine()
    ensures LineOf(Listed(), Forward) == Forwards()
  {
    assert Listed() == Keepers() + Defenders() + Midfielders() + Forwards() + [];
    LineIs(Listed(), Forward, Keepers() + Defenders() + Midfielders(), Forwards(), []);
  }

  // ----- The selection takes the cheap twelve -----------------------------------------------------------

  // Players listed club by club, three of each.
  lemma {:induction false} ThreeOfEachClub(players: seq<Player>, n: nat, club: Id)
    requires n <= |players| && forall i :: 0 <= i < n ==> players[i].club == i / 3
    ensures ClubCount(players[..n], club) == Min(3, Max(0, n - 3 * club))
  {
    if n > 0 {
      ThreeOfEachClub(players, n - 1, club);
      assert players[..n][..n - 1] == players[..n - 1];
    }
  }

  lemma {:induction false} TakesTheCheap(all: seq<Player>, position: Position, line: seq<Player>, earlier: seq<Player>,
                                         count: nat)
    requires LineOf(all, position) == line && count <= |line|
    requires forall i :: 0 <= i < |earlier| + count ==> (earlier + line[..count])[i].club == i / 3
    ensures NextLine(all, position, count, earlier) == line[..count]
  {
    var picks := earlier + line[..count];
    forall k, club | 0 <= k <= count
      ensures ClubCount(line[..k], club) <= Room(CountsOf(earlier), club)
    {
      assert picks[..|earlier| + k] == earlier + line[..k];
      ThreeOfEachClub(picks, |earlier| + k, club);
      ClubCountAppend(earlier, line[..k], club);
      CountsOfCounts(earlier, club);
    }
    TakesAll(line, CountsOf(earlier), count);
    TakenAtStop(line, CountsOf(earlier), count, count);
  }

  lemma {:induction false} CheapKeepers(all: seq<Player>, keepers: seq<Player>, none: seq<Player>)
    requires LineOf(all, Goalkeeper) == keepers && |keepers| >= 2 && |none| == 0
    requires keepers[0].club == 0 == keepers[1].club
    ensures NextLine(all, Goalkeeper, 2, none) == keepers[..2]
  {
    TakesTheCheap(all, Goalkeeper, keepers, none, 2);
  }

  lemma {:induction false} CheapDefenders()
    ensures NextLine(Listed(), Defender, 5, Keepers()[..2]) == Defenders()[..5]
  {
    DefendersLine();
    TakesTheCheap(Listed(), Defender, Defenders(), Keepers()[..2], 5);
  }

  lemma {:induction false} CheapMidfielders()
    ensures NextLine(Listed(), Midfielder, 5, Keepers()[..2] + Defenders()[..5]) == Midfielders()[..5]
  {
    var earlier := Keepers()[..2] + Defenders()[..5];
    assert forall i :: 0 <= i < 7 ==> earlier[i].club == i / 3;
    assert forall i :: 0 <= i < 5 ==> Midfielders()[i].club == (7 + i) / 3;
    MidfieldersLine();
    TakesTheCheap(Listed(), Midfielder, Midfielders(), earlier, 5);
  }

  // ----- Two forwards are left ------------------------------------------------------------------------

  lemma {:induction false} OnlyTheLastTwo(forwards: seq<Player>, counts: map<Id, int>, n: nat)
    requires n <= |forwards| == 6 && forall i :: 0 <= i < 4 ==> Room(counts, forwards[i].club) == 0
    ensures Size(Greedy(forwards, counts, n)) <= Max(0, n - 4)
  {
    if n > 0 {
      var before, club := Greedy(forwards, counts, n - 1), forwards[n - 1].club;
      OnlyTheLastTwo(forwards, counts, n - 1);
      SnocFacts(forwards, before, ClubSize(forwards, before, club) < Room(counts, club));
    }
  }

  lemma {:induction false} FourClubsAreFull(picks: seq<Player>, club: Id)
    requires |picks| == 12 && (forall i :: 0 <= i < 12 ==> picks[i].club == i / 3) && club < 4
    ensures Room(CountsOf(picks), club) == 0
  {
    CountsOfCounts(picks, club);
    ThreeOfEachClub(picks, 12, club);
    assert picks[..12] == picks;
  }

  lemma {:induction false} ForwardsDoNotSuffice()
    ensures OpeningsAfter(Listed(), Forward, Twelve()) <= 2
  {
    var counts := CountsOf(Twelve());
    forall i | 0 <= i < 4
      ensures Room(counts, Forwards()[i].club) == 0
    {
      FourClubsAreFull(Twelve(), i);
    }
    ForwardsLine();
    GreedySize(Forwards(), counts);
    OnlyTheLastTwo(Forwards(), counts, 6);
  }

  // ----- One club short --------------------------------------------------------------------------------

  lemma {:induction false} ClubsListed(all: seq<Player>, position: Position, line: seq<Player>)
    requires LineOf(all, position) == line
    ensures forall i :: 0 <= i < |line| ==> line[i].club in ClubsAt(all, position)
    ensures forall club :: club in ClubsAt(all, position) ==> exists i :: 0 <= i < |line| && line[i].club == club
  {
    ClubsFacts(line);
    forall club
      ensures club in Clubs(line) <==> club in ClubsAt(all, position)
    {
      ClubOfLine(all, position, club);
    }
  }

  lemma {:induction false} DifferentClubs(line: seq<Player>, from: nat, to: nat, clubs: set<Id>)
    requires from <= to <= |line| && forall i :: from <= i < to ==> line[i].club in clubs
    requires forall i, j :: from <= i < j < to ==> line[i].club != line[j].club
    ensures |clubs| >= to - from
  {
    if from < to {
      DifferentClubs(line, from, to - 1, clubs - {line[to - 1].club});
    }
  }

  lemma {:induction false} KeeperClubs(all: seq<Player>, clubs: set<Id>)
    requires LineOf(all, Goalkeeper) == Keepers() && clubs == ClubsAt(all, Goalkeeper)
    ensures |clubs| >= 2
  {
    ClubsListed(all, Goalkeeper, Keepers());
    DifferentClubs(Keepers(), 1, 3, clubs);
  }

  lemma {:induction false} DefenderClubs(all: seq<Player>, clubs: set<Id>)
    requires LineOf(all, Defender) == Defenders() && clubs == ClubsAt(all, Defender)
    ensures |clubs| >= 5
  {
    ClubsListed(all, Defender, Defenders());
    DifferentClubs(Defenders(), 5, 10, clubs);
  }

  lemma {:induction false} MidfielderClubs(all: seq<Player>, clubs: set<Id>)
    requires LineOf(all, Midfielder) == Midfielders() && clubs == ClubsAt(all, Midfielder)
    ensures |clubs| >= 7
  {
    ClubsListed(all, Midfielder, Midfielders());
    DifferentClubs(Midfielders(), 5, 12, clubs);
  }

  lemma {:induction false} ForwardClubs(all: seq<Player>, clubs: set<Id>)
    requires LineOf(all, Forward) == Forwards() && clubs == ClubsAt(all, Forward)
    ensures |clubs| == 6
  {
    var line := Forwards();
    ClubsListed(all, Forward, line);
    assert line[0].club == 0 && line[1].club == 1 && line[2].club == 2;
    assert line[3].club == 3 && line[4].club == 4 && line[5].club == 5;
    assert clubs == {0, 1, 2, 3, 4, 5};
  }

  // Every number of clubs is as demanded but that of the forwards, which is one short; a lawful squad exists; and the
  // four calls fail.
  lemma {:induction false} OneClubShort()
    ensures |ClubsAt(Listed(), Goalkeeper)| >= 2 && |ClubsAt(Listed(), Defender)| >= 5
    ensures |ClubsAt(Listed(), Midfielder)| >= 7 && |ClubsAt(Listed(), Forward)| == 6
    ensures ValidSquad(Listed(), Keepers()[2..], Defenders()[5..], Midfielders()[5..10], Forwards()[3..])
    ensures !Completes(Listed())
  {
    KeepersLine();
    KeeperClubs(Listed(), ClubsAt(Listed(), Goalkeeper));
    DefendersLine();
    DefenderClubs(Listed(), ClubsAt(Listed(), Defender));
    MidfieldersLine();
    MidfielderClubs(Listed(), ClubsAt(Listed(), Midfielder));
    ForwardsLine();
    ForwardClubs(Listed(), ClubsAt(Listed(), Forward));
    SquadExists();
    CheapKeepers(Listed(), Keepers(), []);
    CheapDefenders();
    CheapMidfielders();
    ForwardsDoNotSuffice();
  }
}
