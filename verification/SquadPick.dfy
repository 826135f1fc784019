/** The greedy pick of a squad line from a price-sorted list under a limit of three players per club.

    A selection is a mask over the list. The greedy pick is proved to be a cheapest selection of its size among
    all that respect the limit, and to succeed exactly when the clubs of the list have enough openings. */
module SquadPick {
  import opened Wrappers
  import opened StableSort

  // Prices are integer cents; `nameOrder` is the rank of the name in the locale's collation.
  datatype Player = Player(id: Id, club: Id, position: Position, price: int, totalPoints: int, nameOrder: int)

  const MAX_PER_CLUB := 3

  // Price ascending, then points descending, then name.
  function PlayerKey(p: Player): SortKey {
    SortKey(p.price, -p.totalPoints, p.nameOrder)
  }

  function SortPlayers(players: seq<Player>): seq<Player> {
    Sort(players, PlayerKey)
  }

  ghost predicate PriceSorted(players: seq<Player>) {
    forall i, j :: 0 <= i < j < |players| ==> players[i].price <= players[j].price
  }

  // The cheaper player stands first; of two equally dear ones the one with more points, and of two with as many the one
  // whose name comes first.
  ghost predicate StandsBefore(p: Player, q: Player) {
    || p.price < q.price
    || (p.price == q.price && p.totalPoints > q.totalPoints)
    || (p.price == q.price && p.totalPoints == q.totalPoints && p.nameOrder <= q.nameOrder)
  }

  lemma {:induction false} SortPlayersSortsByPrice(players: seq<Player>)
    ensures multiset(SortPlayers(players)) == multiset(players) && |SortPlayers(players)| == |players|
    ensures PriceSorted(SortPlayers(players))
    ensures forall i, j :: 0 <= i < j < |players| ==> StandsBefore(SortPlayers(players)[i], SortPlayers(players)[j])
  {
    SortSorts(players, PlayerKey);
    SortPermutes(players, PlayerKey);
    assert |multiset(SortPlayers(players))| == |multiset(players)|;
    forall i, j | 0 <= i < j < |SortPlayers(players)|
      ensures SortPlayers(players)[i].price <= SortPlayers(players)[j].price
      ensures StandsBefore(SortPlayers(players)[i], SortPlayers(players)[j])
    {
      assert !Before(PlayerKey(SortPlayers(players)[j]), PlayerKey(SortPlayers(players)[i]));
    }
  }

  // ----- Selections ---------------------------------------------------------------

  type Mask = seq<bool>

  function Bit(b: bool): nat {
    if b then 1 else 0
  }

  function Size(mask: Mask): nat {
    if mask == [] then 0 else Size(mask[..|mask| - 1]) + Bit(mask[|mask| - 1])
  }

  function ClubSize(players: seq<Player>, mask: Mask, club: Id): nat
    requires |mask| <= |players|
  {
    if mask == [] then 0
    else ClubSize(players, mask[..|mask| - 1], club) + Bit(mask[|mask| - 1] && players[|mask| - 1].club == club)
  }

  function Cost(players: seq<Player>, mask: Mask): int
    requires |mask| <= |players|
  {
    if mask == [] then 0
    else Cost(players, mask[..|mask| - 1]) + if mask[|mask| - 1] then players[|mask| - 1].price else 0
  }

  function Picked(players: seq<Player>, mask: Mask): seq<Player>
    requires |mask| <= |players|
  {
    if mask == [] then []
    else if mask[|mask| - 1] then Picked(players, mask[..|mask| - 1]) + [players[|mask| - 1]]
    else Picked(players, mask[..|mask| - 1])
  }

  function CountOf(teamCounts: map<Id, int>, club: Id): int {
    if club in teamCounts then teamCounts[club] else 0
  }

  // How many more players of a club the limit allows.
  function Room(teamCounts: map<Id, int>, club: Id): nat {
    if CountOf(teamCounts, club) >= MAX_PER_CLUB then 0 else MAX_PER_CLUB - CountOf(teamCounts, club)
  }

  ghost predicate Feasible(players: seq<Player>, mask: Mask, count: nat, teamCounts: map<Id, int>) {
    && |mask| == |players|
    && Size(mask) == count
    && forall club :: ClubSize(players, mask, club) <= Room(teamCounts, club)
  }

  // ----- The greedy mask -----------------------------------------------------------

  // Every player whose club still has room when the list is read in order.
  function Greedy(players: seq<Player>, teamCounts: map<Id, int>, n: nat): (mask: Mask)
    requires n <= |players|
    ensures |mask| == n
  {
    if n == 0 then []
    else
      var before := Greedy(players, teamCounts, n - 1);
      var club := players[n - 1].club;
      before + [ClubSize(players, before, club) < Room(teamCounts, club)]
  }

  lemma {:induction false} SnocFacts(players: seq<Player>, mask: Mask, b: bool)
    requires |mask| < |players|
    ensures Size(mask + [b]) == Size(mask) + Bit(b)
    ensures forall club :: ClubSize(players, mask + [b], club)
                        == ClubSize(players, mask, club) + Bit(b && players[|mask|].club == club)
    ensures Cost(players, mask + [b]) == Cost(players, mask) + if b then players[|mask|].price else 0
    ensures Picked(players, mask + [b])
         == if b then Picked(players, mask) + [players[|mask|]] else Picked(players, mask)
  {
    assert (mask + [b])[..|mask|] == mask;
  }

  lemma {:induction false} GreedyStep(players: seq<Player>, teamCounts: map<Id, int>, n: nat, club: Id)
    requires 1 <= n <= |players|
    ensures var before := ClubSize(players, Greedy(players, teamCounts, n - 1), club);
            ClubSize(players, Greedy(players, teamCounts, n), club)
            == before + Bit(players[n - 1].club == club && before < Room(teamCounts, club))
  {
    var before := Greedy(players, teamCounts, n - 1);
    SnocFacts(players, before, ClubSize(players, before, players[n - 1].club) < Room(teamCounts, players[n - 1].club));
  }

  // The greedy mask takes as many players of a club as any mask within the room can.
  lemma {:induction false} GreedyFillsClubs(players: seq<Player>, teamCounts: map<Id, int>, mask: Mask, club: Id)
    requires |mask| <= |players|
    requires ClubSize(players, mask, club) <= Room(teamCounts, club)
    ensures ClubSize(players, mask, club) <= ClubSize(players, Greedy(players, teamCounts, |mask|), club)
       <= Room(teamCounts, club)
  {
    if mask != [] {
      GreedyFillsClubs(players, teamCounts, mask[..|mask| - 1], club);
      GreedyStep(players, teamCounts, |mask|, club);
    }
  }

  lemma {:induction false} PrefixClubSize(players: seq<Player>, mask: Mask, n: nat, club: Id)
    requires n <= |mask| <= |players|
    ensures ClubSize(players, mask[..n], club) <= ClubSize(players, mask, club)
    ensures Size(mask[..n]) <= Size(mask)
    decreases |mask| - n
  {
    if n < |mask| {
      PrefixClubSize(players, mask, n + 1, club);
      assert mask[..n + 1][..n] == mask[..n];
    } else {
      assert mask[..n] == mask;
    }
  }

  // ----- Club by club domination is domination in total -----------------------------

  lemma {:induction false} ClearOne(players: seq<Player>, mask: Mask, j: nat, club: Id)
    requires j < |mask| <= |players| && mask[j]
    ensures Size(mask[j := false]) == Size(mask) - 1
    ensures ClubSize(players, mask[j := false], club) == ClubSize(players, mask, club) - Bit(players[j].club == club)
  {
    var last := |mask| - 1;
    if j == last {
      assert mask[j := false][..last] == mask[..last];
    } else {
      ClearOne(players, mask[..last], j, club);
      assert mask[j := false][..last] == mask[..last][j := false];
    }
  }

  lemma {:induction false} SomeBit(players: seq<Player>, mask: Mask, club: Id) returns (j: nat)
    requires |mask| <= |players| && ClubSize(players, mask, club) > 0
    ensures j < |mask| && mask[j] && players[j].club == club
  {
    var last := |mask| - 1;
    if mask[last] && players[last].club == club {
      j := last;
    } else {
      j := SomeBit(players, mask[..last], club);
    }
  }

  lemma {:induction false} BitCounts(players: seq<Player>, mask: Mask, j: nat)
    requires j < |mask| <= |players| && mask[j]
    ensures ClubSize(players, mask, players[j].club) > 0
  {
    if j < |mask| - 1 {
      BitCounts(players, mask[..|mask| - 1], j);
    }
  }

  lemma {:induction false} AnyBit(mask: Mask) returns (j: nat)
    requires Size(mask) > 0
    ensures j < |mask| && mask[j]
  {
    if mask[|mask| - 1] {
      j := |mask| - 1;
    } else {
      j := AnyBit(mask[..|mask| - 1]);
    }
  }

  ghost predicate Dominated(players: seq<Player>, s: Mask, t: Mask) {
    && |s| == |t| <= |players|
    && forall club :: ClubSize(players, s, club) <= ClubSize(players, t, club)
  }

  lemma {:induction false} DominationInTotal(players: seq<Player>, s: Mask, t: Mask)
    requires Dominated(players, s, t)
    ensures Size(s) <= Size(t)
    decreases Size(s)
  {
    if Size(s) > 0 {
      var i := AnyBit(s);
      BitCounts(players, s, i);
      var j := SomeBit(players, t, players[i].club);
      var s', t' := s[i := false], t[j := false];
      forall club
        ensures ClubSize(players, s', club) <= ClubSize(players, t', club)
      {
        ClearOne(players, s, i, club);
        ClearOne(players, t, j, club);
      }
      ClearOne(players, s, i, 0);
      ClearOne(players, t, j, 0);
      DominationInTotal(players, s', t');
    }
  }

  // On every prefix of the list the greedy mask is at least as large as any feasible selection.
  lemma {:induction false} GreedyLeads(players: seq<Player>, teamCounts: map<Id, int>, mask: Mask, count: nat, n: nat)
    requires Feasible(players, mask, count, teamCounts) && n <= |players|
    ensures Size(mask[..n]) <= Size(Greedy(players, teamCounts, n))
    ensures Size(mask[..n]) <= count
  {
    PrefixClubSize(players, mask, n, 0);
    forall club
      ensures ClubSize(players, mask[..n], club) <= ClubSize(players, Greedy(players, teamCounts, n), club)
    {
      PrefixClubSize(players, mask, n, club);
      GreedyFillsClubs(players, teamCounts, mask[..n], club);
    }
    DominationInTotal(players, mask[..n], Greedy(players, teamCounts, n));
  }

  // ----- Optimality -------------------------------------------------------------------

  ghost predicate Leads(s: Mask, t: Mask) {
    |s| == |t| && forall n :: 0 <= n <= |s| ==> Size(t[..n]) <= Size(s[..n])
  }

  // Moving to a price that is not lower keeps a bound on the cost of the lead.
  lemma {:induction false} LeadStep(lead: nat, low: int, price: int, difference: int, mine: bool, theirs: bool)
    requires low <= price && difference <= lead * low
    ensures difference + (if mine then price else 0) - (if theirs then price else 0)
         <= (lead + Bit(mine) - Bit(theirs)) * price
  {
    assert lead * low <= lead * price;
    assert (lead + 1) * price == lead * price + price;
    assert (lead - 1) * price == lead * price - price;
  }

  // A selection that is never behind on a price-sorted list pays at most the current price for its lead.
  lemma {:induction false} LeadIsCheap(players: seq<Player>, s: Mask, t: Mask, n: nat)
    requires PriceSorted(players) && Leads(s, t) && 1 <= n <= |s| <= |players|
    ensures Cost(players, s[..n]) - Cost(players, t[..n]) <= (Size(s[..n]) - Size(t[..n])) * players[n - 1].price
  {
    var s', t' := s[..n - 1], t[..n - 1];
    assert s[..n] == s' + [s[n - 1]] && t[..n] == t' + [t[n - 1]];
    SnocFacts(players, s', s[n - 1]);
    SnocFacts(players, t', t[n - 1]);
    var low := if n == 1 then players[0].price else players[n - 2].price;
    if n > 1 {
      LeadIsCheap(players, s, t, n - 1);
    }
    var lead, difference := Size(s') - Size(t'), Cost(players, s') - Cost(players, t');
    assert Size(s[..n]) - Size(t[..n]) == lead + Bit(s[n - 1]) - Bit(t[n - 1]);
    LeadStep(lead, low, players[n - 1].price, difference, s[n - 1], t[n - 1]);
  }

  // The greedy selection of `count`: the greedy mask up to the player that completes it, nothing after.
  ghost predicate StoppedGreedy(players: seq<Player>, s: Mask, count: nat, teamCounts: map<Id, int>, stop: nat) {
    && |s| == |players| && stop <= |s|
    && s[..stop] == Greedy(players, teamCounts, stop)
    && Size(s[..stop]) == count
    && forall i :: stop <= i < |s| ==> !s[i]
  }

  lemma {:induction false} SizeAfterStop(s: Mask, stop: nat, n: nat)
    requires stop <= n <= |s| && forall i :: stop <= i < |s| ==> !s[i]
    ensures Size(s[..n]) == Size(s[..stop])
  {
    if n > stop {
      SizeAfterStop(s, stop, n - 1);
      assert s[..n][..n - 1] == s[..n - 1];
    }
  }

  lemma {:induction false} GreedyPrefix(players: seq<Player>, teamCounts: map<Id, int>, n: nat, stop: nat)
    requires n <= stop <= |players|
    ensures Greedy(players, teamCounts, stop)[..n] == Greedy(players, teamCounts, n)
  {
    if n < stop {
      GreedyPrefix(players, teamCounts, n, stop - 1);
      var shorter, longer := Greedy(players, teamCounts, stop - 1), Greedy(players, teamCounts, stop);
      assert longer[..n] == shorter[..n];
    }
  }

  lemma {:induction false} StoppedGreedyLeads(players: seq<Player>, s: Mask, t: Mask, count: nat,
                                              teamCounts: map<Id, int>, stop: nat)
    requires StoppedGreedy(players, s, count, teamCounts, stop) && Feasible(players, t, count, teamCounts)
    ensures Leads(s, t)
  {
    forall n | 0 <= n <= |s|
      ensures Size(t[..n]) <= Size(s[..n])
    {
      GreedyLeads(players, teamCounts, t, count, n);
      if n <= stop {
        GreedyPrefix(players, teamCounts, n, stop);
        assert s[..n] == s[..stop][..n];
      } else {
        SizeAfterStop(s, stop, n);
      }
    }
  }

  // The optimality theorem: no selection of the same size within the club limits is cheaper.
  lemma {:induction false} GreedyIsCheapest(players: seq<Player>, s: Mask, t: Mask, count: nat,
                                            teamCounts: map<Id, int>, stop: nat)
    requires PriceSorted(players)
    requires StoppedGreedy(players, s, count, teamCounts, stop) && Feasible(players, t, count, teamCounts)
    ensures Cost(players, s) <= Cost(players, t)
  {
    if players != [] {
      assert s[..|s|] == s && t[..|s|] == t;
      SizeAfterStop(s, stop, |s|);
      StoppedGreedyLeads(players, s, t, count, teamCounts, stop);
      LeadIsCheap(players, s, t, |s|);
    }
  }

  // Failure is honest: when the greedy mask is too small, no selection of that size respects the limits.
  lemma {:induction false} GreedyFailsHonestly(players: seq<Player>, count: nat, teamCounts: map<Id, int>)
    requires Size(Greedy(players, teamCounts, |players|)) < count
    ensures !exists t :: Feasible(players, t, count, teamCounts)
  {
    forall t | Feasible(players, t, count, teamCounts)
      ensures false
    {
      assert t[..|players|] == t;
      GreedyLeads(players, teamCounts, t, count, |players|);
    }
  }

  // ----- One call of the selection -----------------------------------------------------

  function Padding(k: nat): (mask: Mask)
  {
    seq(k, _ => false)
  }

  lemma {:induction false} PaddingChangesNothing(players: seq<Player>, mask: Mask, k: nat, club: Id)
    requires |mask| + k <= |players|
    ensures Size(mask + Padding(k)) == Size(mask)
    ensures ClubSize(players, mask + Padding(k), club) == ClubSize(players, mask, club)
    ensures Picked(players, mask + Padding(k)) == Picked(players, mask)
  {
    if k == 0 {
      assert mask + Padding(0) == mask;
    } else {
      PaddingChangesNothing(players, mask, k - 1, club);
      assert (mask + Padding(k))[..|mask| + k - 1] == mask + Padding(k - 1);
    }
  }

  function ClubCount(picks: seq<Player>, club: Id): nat {
    if picks == [] then 0 else ClubCount(picks[..|picks| - 1], club) + Bit(picks[|picks| - 1].club == club)
  }

  lemma {:induction false} ClubCountAppend(a: seq<Player>, b: seq<Player>, club: Id)
    ensures ClubCount(a + b, club) == ClubCount(a, club) + ClubCount(b, club)
  {
    if b == [] {
      assert a + b == a;
    } else {
      ClubCountAppend(a, b[..|b| - 1], club);
      assert (a + b)[..|a + b| - 1] == a + b[..|b| - 1];
    }
  }

  lemma {:induction false} PickedFacts(players: seq<Player>, mask: Mask, club: Id)
    requires |mask| <= |players|
    ensures |Picked(players, mask)| == Size(mask)
    ensures ClubCount(Picked(players, mask), club) == ClubSize(players, mask, club)
    ensures multiset(Picked(players, mask)) <= multiset(players[..|mask|])
  {
    if mask != [] {
      var n := |mask| - 1;
      PickedFacts(players, mask[..n], club);
      assert players[..n + 1] == players[..n] + [players[n]];
      if mask[n] {
        var front := Picked(players, mask[..n]);
        assert (front + [players[n]])[..|front|] == front;
      }
    }
  }

  // What one call promises: a cheapest selection of `count` players within the limits left by `before`.
  ghost predicate CheapestLine(players: seq<Player>, mask: Mask, picks: seq<Player>, count: nat, before: map<Id, int>) {
    && Feasible(players, mask, count, before)
    && picks == Picked(players, mask)
    && (PriceSorted(players) ==> forall t :: Feasible(players, t, count, before) ==>
         Cost(players, mask) <= Cost(players, t))
  }

  lemma {:induction false} FinishedLine(players: seq<Player>, before: map<Id, int>, stop: nat, count: nat)
    returns (mask: Mask)
    requires stop <= |players| && Size(Greedy(players, before, stop)) == count
    ensures mask == Greedy(players, before, stop) + Padding(|players| - stop)
    ensures CheapestLine(players, mask, Picked(players, Greedy(players, before, stop)), count, before)
  {
    var greedy := Greedy(players, before, stop);
    mask := greedy + Padding(|players| - stop);
    forall club
      ensures ClubSize(players, mask, club) <= Room(before, club)
    {
      PaddingChangesNothing(players, greedy, |players| - stop, club);
      GreedyWithinRoom(players, before, stop, club);
    }
    PaddingChangesNothing(players, greedy, |players| - stop, 0);
    assert mask[..stop] == greedy;
    forall t | PriceSorted(players) && Feasible(players, t, count, before)
      ensures Cost(players, mask) <= Cost(players, t)
    {
      GreedyIsCheapest(players, mask, t, count, before, stop);
    }
  }

  lemma {:induction false} GreedyWithinRoom(players: seq<Player>, before: map<Id, int>, n: nat, club: Id)
    requires n <= |players|
    ensures ClubSize(players, Greedy(players, before, n), club) <= Room(before, club)
  {
    if n > 0 {
      GreedyWithinRoom(players, before, n - 1, club);
      GreedyStep(players, before, n, club);
    }
  }

  // The counts after a selection are the counts before plus what was selected.
  ghost predicate Counted(teamCounts: map<Id, int>, before: map<Id, int>, players: seq<Player>, mask: Mask)
    requires |mask| <= |players|
  {
    forall club :: CountOf(teamCounts, club) == CountOf(before, club) + ClubSize(players, mask, club)
  }

  // The state of the selection loop after i players.
  ghost predicate Progress(players: seq<Player>, before: map<Id, int>, i: nat, teamCounts: map<Id, int>,
                           selected: seq<Player>)
    requires i <= |players|
  {
    && selected == Picked(players, Greedy(players, before, i))
    && |selected| == Size(Greedy(players, before, i))
    && Counted(teamCounts, before, players, Greedy(players, before, i))
  }

  lemma {:induction false} ProgressStep(players: seq<Player>, before: map<Id, int>, i: nat, teamCounts: map<Id, int>,
                                        selected: seq<Player>)
    requires i < |players| && Progress(players, before, i, teamCounts, selected)
    ensures var p := players[i];
            var n := CountOf(teamCounts, p.club);
            && (n >= MAX_PER_CLUB ==> Progress(players, before, i + 1, teamCounts, selected))
            && (n < MAX_PER_CLUB ==> Progress(players, before, i + 1, teamCounts[p.club := n + 1], selected + [p]))
  {
    var greedy := Greedy(players, before, i);
    var p := players[i];
    var takes := ClubSize(players, greedy, p.club) < Room(before, p.club);
    assert CountOf(teamCounts, p.club) == CountOf(before, p.club) + ClubSize(players, greedy, p.club);
    SnocFacts(players, greedy, takes);
  }

  // The outcome of one call.
  ghost predicate Outcome(players: seq<Player>, count: nat, before: map<Id, int>, after: map<Id, int>,
                          r: Result<seq<Player>, string>, mask: Mask) {
    && |mask| == |players| && Counted(after, before, players, mask)
    && (r.Ok? ==> CheapestLine(players, mask, r.value, count, before))
    && (r.Err? ==> !exists t :: Feasible(players, t, count, before))
  }

  lemma {:induction false} LineCompleted(players: seq<Player>, before: map<Id, int>, i: nat, teamCounts: map<Id, int>,
                                         selected: seq<Player>, count: nat)
    returns (mask: Mask)
    requires i <= |players| && Progress(players, before, i, teamCounts, selected) && |selected| == count
    ensures Outcome(players, count, before, teamCounts, Ok(selected), mask)
  {
    mask := FinishedLine(players, before, i, count);
    forall club
      ensures CountOf(teamCounts, club) == CountOf(before, club) + ClubSize(players, mask, club)
    {
      PaddingChangesNothing(players, Greedy(players, before, i), |players| - i, club);
    }
  }

  lemma {:induction false} LineFailed(players: seq<Player>, before: map<Id, int>, teamCounts: map<Id, int>,
                                      selected: seq<Player>, count: nat, error: string)
    requires Progress(players, before, |players|, teamCounts, selected) && |selected| < count
    ensures Outcome(players, count, before, teamCounts, Err(error), Greedy(players, before, |players|))
  {
    GreedyFailsHonestly(players, count, before);
  }

  // ----- When one call succeeds ----------------------------------------------------------

  // The clubs of a list, each once.
  function Clubs(players: seq<Player>): seq<Id> {
    if players == [] then []
    else
      var clubs, club := Clubs(players[..|players| - 1]), players[|players| - 1].club;
      if club in clubs then clubs else clubs + [club]
  }

  // How many more players of these clubs the limit and the list allow.
  function OpenIn(clubs: seq<Id>, players: seq<Player>, teamCounts: map<Id, int>): nat {
    if clubs == [] then 0
    else
      var club := clubs[|clubs| - 1];
      OpenIn(clubs[..|clubs| - 1], players, teamCounts) + Min(Room(teamCounts, club), ClubCount(players, club))
  }

  function Openings(players: seq<Player>, teamCounts: map<Id, int>): nat {
    OpenIn(Clubs(players), players, teamCounts)
  }

  function SizeIn(clubs: seq<Id>, players: seq<Player>, mask: Mask): nat
    requires |mask| <= |players|
  {
    if clubs == [] then 0
    else SizeIn(clubs[..|clubs| - 1], players, mask) + ClubSize(players, mask, clubs[|clubs| - 1])
  }

  lemma {:induction false} ClubsFacts(players: seq<Player>)
    ensures Distinct(Clubs(players))
    ensures forall i :: 0 <= i < |players| ==> players[i].club in Clubs(players)
    ensures forall club :: club in Clubs(players) ==> exists i :: 0 <= i < |players| && players[i].club == club
  {
    if players != [] {
      var front := players[..|players| - 1];
      ClubsFacts(front);
      assert forall i :: 0 <= i < |front| ==> players[i] == front[i];
    }
  }

  lemma {:induction false} SizeInStep(clubs: seq<Id>, players: seq<Player>, mask: Mask)
    requires Distinct(clubs) && mask != [] && |mask| <= |players|
    ensures SizeIn(clubs, players, mask)
         == SizeIn(clubs, players, mask[..|mask| - 1]) + Bit(mask[|mask| - 1] && players[|mask| - 1].club in clubs)
  {
    if clubs != [] {
      var front := clubs[..|clubs| - 1];
      SizeInStep(front, players, mask);
      assert clubs == front + [clubs[|clubs| - 1]];
      assert clubs[|clubs| - 1] !in front;
    }
  }

  // The size of a selection is the sum of what it takes from each club.
  lemma {:induction false} SizeByClubs(clubs: seq<Id>, players: seq<Player>, mask: Mask)
    requires Distinct(clubs) && |mask| <= |players|
    requires forall i :: 0 <= i < |mask| ==> players[i].club in clubs
    ensures SizeIn(clubs, players, mask) == Size(mask)
  {
    if mask != [] {
      SizeByClubs(clubs, players, mask[..|mask| - 1]);
      SizeInStep(clubs, players, mask);
    } else {
      NothingInClubs(clubs, players);
    }
  }

  lemma {:induction false} NothingInClubs(clubs: seq<Id>, players: seq<Player>)
    ensures SizeIn(clubs, players, []) == 0
  {
    if clubs != [] {
      NothingInClubs(clubs[..|clubs| - 1], players);
    }
  }

  // The greedy mask takes what there is of a club, as far as there is room.
  lemma {:induction false} GreedyTakesOfClub(players: seq<Player>, teamCounts: map<Id, int>, n: nat, club: Id)
    requires n <= |players|
    ensures ClubSize(players, Greedy(players, teamCounts, n), club)
         == Min(Room(teamCounts, club), ClubCount(players[..n], club))
  {
    if n > 0 {
      GreedyTakesOfClub(players, teamCounts, n - 1, club);
      GreedyStep(players, teamCounts, n, club);
      assert players[..n][..n - 1] == players[..n - 1];
    }
  }

  lemma {:induction false} GreedyTakesOfClubs(clubs: seq<Id>, players: seq<Player>, teamCounts: map<Id, int>)
    ensures SizeIn(clubs, players, Greedy(players, teamCounts, |players|)) == OpenIn(clubs, players, teamCounts)
  {
    if clubs != [] {
      GreedyTakesOfClubs(clubs[..|clubs| - 1], players, teamCounts);
      GreedyTakesOfClub(players, teamCounts, |players|, clubs[|clubs| - 1]);
      assert players[..|players|] == players;
    }
  }

  lemma {:induction false} GreedySize(players: seq<Player>, teamCounts: map<Id, int>)
    ensures Size(Greedy(players, teamCounts, |players|)) == Openings(players, teamCounts)
  {
    ClubsFacts(players);
    SizeByClubs(Clubs(players), players, Greedy(players, teamCounts, |players|));
    GreedyTakesOfClubs(Clubs(players), players, teamCounts);
  }

  lemma {:induction false} StopFor(players: seq<Player>, teamCounts: map<Id, int>, count: nat, n: nat)
    returns (stop: nat)
    requires n <= |players| && count <= Size(Greedy(players, teamCounts, n))
    ensures stop <= n && Size(Greedy(players, teamCounts, stop)) == count
  {
    if Size(Greedy(players, teamCounts, n)) == count {
      stop := n;
    } else {
      var before := Greedy(players, teamCounts, n - 1);
      SnocFacts(players, before,
                ClubSize(players, before, players[n - 1].club) < Room(teamCounts, players[n - 1].club));
      stop := StopFor(players, teamCounts, count, n - 1);
    }
  }

  // A selection of the size exists exactly when the clubs of the list have that many openings.
  lemma {:induction false} FeasibleExactlyWhen(players: seq<Player>, count: nat, teamCounts: map<Id, int>)
    ensures (exists t :: Feasible(players, t, count, teamCounts)) <==> count <= Openings(players, teamCounts)
  {
    GreedySize(players, teamCounts);
    if count <= Openings(players, teamCounts) {
      var stop := StopFor(players, teamCounts, count, |players|);
      var mask := FinishedLine(players, teamCounts, stop, count);
      assert Feasible(players, mask, count, teamCounts);
    } else {
      GreedyFailsHonestly(players, count, teamCounts);
    }
  }

  // ----- What one call takes --------------------------------------------------------------

  // The players of the greedy mask, as far as they are needed.
  function Taken(players: seq<Player>, teamCounts: map<Id, int>, count: nat): seq<Player> {
    var all := Picked(players, Greedy(players, teamCounts, |players|));
    if count <= |all| then all[..count] else all
  }

  lemma {:induction false} PickedPrefix(players: seq<Player>, teamCounts: map<Id, int>, stop: nat, n: nat)
    requires stop <= n <= |players|
    ensures Picked(players, Greedy(players, teamCounts, stop)) <= Picked(players, Greedy(players, teamCounts, n))
  {
    if stop < n {
      var before := Greedy(players, teamCounts, n - 1);
      PickedPrefix(players, teamCounts, stop, n - 1);
      SnocFacts(players, before,
                ClubSize(players, before, players[n - 1].club) < Room(teamCounts, players[n - 1].club));
    }
  }

  lemma {:induction false} TakenAtStop(players: seq<Player>, teamCounts: map<Id, int>, stop: nat, count: nat)
    requires stop <= |players| && |Picked(players, Greedy(players, teamCounts, stop))| == count
    ensures Picked(players, Greedy(players, teamCounts, stop)) == Taken(players, teamCounts, count)
  {
    PickedPrefix(players, teamCounts, stop, |players|);
  }

  lemma {:induction false} TakesOneMore(players: seq<Player>, teamCounts: map<Id, int>, n: nat)
    requires 1 <= n <= |players|
    requires ClubCount(players[..n], players[n - 1].club) <= Room(teamCounts, players[n - 1].club)
    ensures Picked(players, Greedy(players, teamCounts, n))
         == Picked(players, Greedy(players, teamCounts, n - 1)) + [players[n - 1]]
  {
    var before := Greedy(players, teamCounts, n - 1);
    assert players[..n][..n - 1] == players[..n - 1];
    GreedyTakesOfClub(players, teamCounts, n - 1, players[n - 1].club);
    SnocFacts(players, before, true);
  }

  // As long as the limit allows it the greedy pass takes everybody.
  lemma {:induction false} TakesAll(players: seq<Player>, teamCounts: map<Id, int>, n: nat)
    requires n <= |players|
    requires forall k, club :: 0 <= k <= n ==> ClubCount(players[..k], club) <= Room(teamCounts, club)
    ensures Picked(players, Greedy(players, teamCounts, n)) == players[..n]
  {
    if n > 0 {
      TakesAll(players, teamCounts, n - 1);
      TakesOneMore(players, teamCounts, n);
    }
  }
}
