/** Fifteen-player squads: what a squad save demands, what it stores, and what a transfer replaces. */
module Squads {
  import opened Wrappers
  import opened StableSort

  // Prices are in hundredths of a million.
  datatype Player = Player(position: Position, club: Id, price: int)

  type Catalog = map<Id, Player>

  // One line of a squad save: which player stands where, and in which role.
  datatype Line = Line(player: Id, order: int, captain: bool, vice: bool, benched: bool)

  // ----- Counting ---------------------------------------------------------------------------

  datatype Feature =
    | IsPlayer(id: Id) | HasOrder(order: int) | Listed | Captain | Vice | Dual | Starter | BenchedRole
    | At(position: Position) | StarterAt(position: Position) | OfClub(club: Id)

  predicate Has(l: Line, f: Feature, players: Catalog) {
    match f
    case IsPlayer(id) => l.player == id
    case HasOrder(order) => l.order == order
    case Listed => l.player in players
    case Captain => l.captain
    case Vice => l.vice
    case Dual => l.captain && l.vice
    case Starter => !l.benched
    case BenchedRole => l.benched && (l.captain || l.vice)
    case At(position) => l.player in players && players[l.player].position == position
    case StarterAt(position) => !l.benched && l.player in players && players[l.player].position == position
    case OfClub(club) => l.player in players && players[l.player].club == club
  }

  function Count(lines: seq<Line>, f: Feature, players: Catalog): nat {
    if lines == [] then 0 else Count(lines[1..], f, players) + if Has(lines[0], f, players) then 1 else 0
  }

  lemma {:induction false} CountAppend(a: seq<Line>, b: seq<Line>, f: Feature, players: Catalog)
    ensures Count(a + b, f, players) == Count(a, f, players) + Count(b, f, players)
  {
    if a == [] {
      assert a + b == b;
    } else {
      CountAppend(a[1..], b, f, players);
      assert (a + b)[1..] == a[1..] + b;
    }
  }

  lemma {:induction false} CountUpdate(lines: seq<Line>, i: nat, l: Line, f: Feature, players: Catalog)
    requires i < |lines|
    ensures Count(lines[i := l], f, players)
         == Count(lines, f, players)
            - (if Has(lines[i], f, players) then 1 else 0) + if Has(l, f, players) then 1 else 0
  {
    if i > 0 {
      CountUpdate(lines[1..], i - 1, l, f, players);
      assert lines[i := l][1..] == lines[1..][i - 1 := l];
    } else {
      assert lines[i := l][1..] == lines[1..];
    }
  }

  lemma {:induction false} RemoveOne(lines: seq<Line>, i: nat, f: Feature, players: Catalog)
    requires i < |lines|
    ensures Count(lines, f, players)
         == Count(lines[..i] + lines[i + 1..], f, players) + if Has(lines[i], f, players) then 1 else 0
  {
    assert lines == lines[..i] + ([lines[i]] + lines[i + 1..]);
    CountAppend(lines[..i], lines[i + 1..], f, players);
    CountAppend(lines[..i], [lines[i]] + lines[i + 1..], f, players);
    assert ([lines[i]] + lines[i + 1..])[1..] == lines[i + 1..];
  }

  lemma {:induction false} Cancel(x: multiset<Line>, y: multiset<Line>, e: Line)
    requires x + multiset{e} == y + multiset{e}
    ensures x == y
  {
    assert x == x + multiset{e} - multiset{e};
    assert y == y + multiset{e} - multiset{e};
  }

  // Counts do not depend on the order of the lines.
  lemma {:induction false} CountPermuted(a: seq<Line>, b: seq<Line>, f: Feature, players: Catalog)
    requires multiset(a) == multiset(b)
    ensures Count(a, f, players) == Count(b, f, players)
  {
    if a == [] {
      assert |multiset(b)| == 0;
      assert b == [];
    } else {
      assert a[0] in multiset(b);
      var i :| 0 <= i < |b| && b[i] == a[0];
      PermutedRests(a, b, i);
      RemoveOne(a, 0, f, players);
      RemoveOne(b, i, f, players);
      assert a[..0] + a[1..] == a[1..];
      CountPermuted(a[1..], b[..i] + b[i + 1..], f, players);
    }
  }

  lemma {:induction false} TakeOut(lines: seq<Line>, i: nat)
    requires i < |lines|
    ensures multiset(lines) == multiset(lines[..i] + lines[i + 1..]) + multiset{lines[i]}
  {
    assert lines == lines[..i] + ([lines[i]] + lines[i + 1..]);
  }

  lemma {:induction false} PermutedRests(a: seq<Line>, b: seq<Line>, i: nat)
    requires i < |b| && a != [] && b[i] == a[0] && multiset(a) == multiset(b)
    ensures multiset(a[1..]) == multiset(b[..i] + b[i + 1..])
  {
    TakeOut(a, 0);
    TakeOut(b, i);
    assert a[..0] + a[1..] == a[1..];
    Cancel(multiset(a[1..]), multiset(b[..i] + b[i + 1..]), a[0]);
  }

  lemma {:induction false} CountBound(lines: seq<Line>, f: Feature, players: Catalog)
    ensures Count(lines, f, players) <= |lines|
    ensures Count(lines, f, players) == |lines| <==> forall i :: 0 <= i < |lines| ==> Has(lines[i], f, players)
    ensures Count(lines, f, players) == 0 <==> forall i :: 0 <= i < |lines| ==> !Has(lines[i], f, players)
  {
    if lines != [] {
      CountBound(lines[1..], f, players);
      assert forall i :: 0 <= i < |lines| - 1 ==> lines[1..][i] == lines[i + 1];
    }
  }

  // ----- The rules of a squad -------------------------------------------------------------------

  predicate FormationAllowed(def: nat, mid: nat, fwd: nat) {
    (def, mid, fwd) in {(4, 4, 2), (3, 5, 2), (3, 4, 3), (5, 2, 3), (5, 3, 2), (4, 3, 3), (4, 5, 1), (5, 4, 1)}
  }

  // Two goalkeepers, five defenders, five midfielders and three forwards.
  function Quota(p: Position): nat {
    match p
    case Goalkeeper => 2
    case Defender => 5
    case Midfielder => 5
    case Forward => 3
  }

  ghost predicate Lawful(lines: seq<Line>, players: Catalog) {
    && |lines| == 15
    && Count(lines, Listed, players) == 15
    && (forall id :: Count(lines, IsPlayer(id), players) <= 1)
    && (forall k :: 1 <= k <= 15 ==> Count(lines, HasOrder(k), players) == 1)
    && (forall p :: Count(lines, At(p), players) == Quota(p))
    && (forall c :: Count(lines, OfClub(c), players) <= 3)
    && RolesLawful(lines, players) && ElevenLawful(lines, players)
  }

  // One captain and one other vice-captain, both in the eleven.
  predicate RolesLawful(lines: seq<Line>, players: Catalog) {
    && Count(lines, Captain, players) == 1 && Count(lines, Vice, players) == 1
    && Count(lines, Dual, players) == 0 && Count(lines, BenchedRole, players) == 0
  }

  predicate ElevenLawful(lines: seq<Line>, players: Catalog) {
    && Count(lines, Starter, players) == 11 && Count(lines, StarterAt(Goalkeeper), players) == 1
    && FormationAllowed(Count(lines, StarterAt(Defender), players), Count(lines, StarterAt(Midfielder), players),
                        Count(lines, StarterAt(Forward), players))
  }

  lemma {:induction false} LawfulPermuted(a: seq<Line>, b: seq<Line>, players: Catalog)
    requires Lawful(a, players) && multiset(a) == multiset(b)
    ensures Lawful(b, players)
  {
    assert |multiset(a)| == |multiset(b)|;
    forall f
      ensures Count(a, f, players) == Count(b, f, players)
    {
      CountPermuted(a, b, f, players);
    }
  }

  // Prices may move; players keep their position and their club, and are not removed.
  ghost predicate SamePlayers(before: Catalog, after: Catalog) {
    forall id :: id in before ==>
      id in after && after[id].position == before[id].position && after[id].club == before[id].club
  }

  lemma {:induction false} CountWithCatalog(lines: seq<Line>, f: Feature, before: Catalog, after: Catalog)
    requires SamePlayers(before, after) && forall i :: 0 <= i < |lines| ==> lines[i].player in before
    ensures Count(lines, f, before) == Count(lines, f, after)
  {
    if lines != [] {
      assert lines[0].player in before;
      assert forall i :: 0 <= i < |lines| - 1 ==> lines[1..][i] == lines[i + 1];
      CountWithCatalog(lines[1..], f, before, after);
    }
  }

  lemma {:induction false} LawfulWithCatalog(lines: seq<Line>, before: Catalog, after: Catalog)
    requires Lawful(lines, before) && SamePlayers(before, after)
    ensures Lawful(lines, after)
  {
    CountBound(lines, Listed, before);
    forall f
      ensures Count(lines, f, before) == Count(lines, f, after)
    {
      CountWithCatalog(lines, f, before, after);
    }
  }

  // ----- validatePicks ----------------------------------------------------------------------------

  datatype Rejection =
    | NotFifteen | DuplicatePlayers | CaptainCount | ViceCount | DualRole | DuplicateOrders | OrdersNotOneToFifteen
    | StarterCount | BenchCount | RoleOnBench | PlayerNotFound | SquadQuota | ClubLimit | ValueLimit
    | StarterGoalkeeper | StarterDefenders | StarterMidfielders | StarterForwards | Formation
    | BenchGoalkeeper | BenchOutfield
    | MatchdayMissing | MatchdayLocked | SameCaptains | CaptainNotOwned | CaptainBenched
    | SamePlayer | OutgoingNotOwned | IncomingNotFound | IncomingOwned | NoPosition | OtherPosition | NoBudget
    | OtherChipActive | ChipUsed

  type Verdict = Option<Rejection>

  function PlayerIds(lines: seq<Line>): set<Id> {
    set i | 0 <= i < |lines| :: lines[i].player
  }

  function Orders(lines: seq<Line>): seq<int> {
    seq(|lines|, i requires 0 <= i < |lines| => lines[i].order)
  }

  function OrderKey(order: int): SortKey {
    SortKey(order, 0, 0)
  }

  function Values(s: seq<int>): set<int> {
    set k | k in s
  }

  predicate OneToFifteen(orders: seq<int>) {
    var sorted := Sort(orders, OrderKey);
    forall i :: 0 <= i < 15 && i < |sorted| ==> sorted[i] == i + 1
  }

  function Value(lines: seq<Line>, players: Catalog): int {
    if lines == [] then 0
    else Value(lines[1..], players) + if lines[0].player in players then players[lines[0].player].price else 0
  }

  predicate OverClubLimit(lines: seq<Line>, players: Catalog) {
    exists i :: 0 <= i < |lines| && lines[i].player in players
                && Count(lines, OfClub(players[lines[i].player].club), players) > 3
  }

  // The checks of validatePicks on the request alone, in order.
  function ValidateRequest(lines: seq<Line>, players: Catalog): Verdict {
    var orders := Orders(lines);
    if |lines| != 15 then Some(NotFifteen)
    else if |PlayerIds(lines)| != |lines| then Some(DuplicatePlayers)
    else if Count(lines, Captain, players) != 1 then Some(CaptainCount)
    else if Count(lines, Vice, players) != 1 then Some(ViceCount)
    else if Count(lines, Dual, players) > 0 then Some(DualRole)
    else if |Values(orders)| != |orders| then Some(DuplicateOrders)
    else if !OneToFifteen(orders) then Some(OrdersNotOneToFifteen)
    else if Count(lines, Starter, players) != 11 then Some(StarterCount)
    else if |lines| - Count(lines, Starter, players) != 4 then Some(BenchCount)
    else if Count(lines, BenchedRole, players) > 0 then Some(RoleOnBench)
    else None
  }

  // The checks against the player catalogue.
  function ValidateSquad(lines: seq<Line>, players: Catalog): Verdict {
    if Count(lines, Listed, players) != |lines| then Some(PlayerNotFound)
    else if exists p :: Count(lines, At(p), players) != Quota(p) then Some(SquadQuota)
    else if OverClubLimit(lines, players) then Some(ClubLimit)
    else if Value(lines, players) > 10000 then Some(ValueLimit)
    else ValidateEleven(lines, players)
  }

  function ValidateEleven(lines: seq<Line>, players: Catalog): Verdict {
    var gk, def := Count(lines, StarterAt(Goalkeeper), players), Count(lines, StarterAt(Defender), players);
    var mid, fwd := Count(lines, StarterAt(Midfielder), players), Count(lines, StarterAt(Forward), players);
    if gk != 1 then Some(StarterGoalkeeper)
    else if def < 3 || def > 5 then Some(StarterDefenders)
    else if mid < 2 || mid > 5 then Some(StarterMidfielders)
    else if fwd < 1 || fwd > 3 then Some(StarterForwards)
    else if !FormationAllowed(def, mid, fwd) then Some(Formation)
    else if Count(lines, At(Goalkeeper), players) - gk != 1 then Some(BenchGoalkeeper)
    else if Count(lines, At(Defender), players) + Count(lines, At(Midfielder), players)
      + Count(lines, At(Forward), players)
            - def - mid - fwd != 3 then Some(BenchOutfield)
    else None
  }

  function ValidatePicks(lines: seq<Line>, players: Catalog): Verdict {
    var v := ValidateRequest(lines, players);
    if v.Some? then v else ValidateSquad(lines, players)
  }

  // ----- Validation accepts exactly the lawful squads within the budget -----------------------------

  lemma {:induction false} PlayerIdsGrow(lines: seq<Line>)
    requires lines != []
    ensures PlayerIds(lines) == PlayerIds(lines[1..]) + {lines[0].player}
  {
    var rest := lines[1..];
    forall x | x in PlayerIds(lines)
      ensures x in PlayerIds(rest) + {lines[0].player}
    {
      var i :| 0 <= i < |lines| && lines[i].player == x;
      assert i == 0 || rest[i - 1].player == x;
    }
    forall x | x in PlayerIds(rest)
      ensures x in PlayerIds(lines)
    {
      var i :| 0 <= i < |rest| && rest[i].player == x;
      assert lines[i + 1].player == x;
    }
  }

  lemma {:induction false} PlayerCounted(lines: seq<Line>, players: Catalog, id: Id)
    ensures id in PlayerIds(lines) <==> Count(lines, IsPlayer(id), players) > 0
  {
    CountBound(lines, IsPlayer(id), players);
    if id in PlayerIds(lines) {
      var i :| 0 <= i < |lines| && lines[i].player == id;
      assert Has(lines[i], IsPlayer(id), players);
    }
  }

  lemma {:induction false} DistinctPlayersCounted(lines: seq<Line>, players: Catalog)
    ensures |PlayerIds(lines)| <= |lines|
    ensures |PlayerIds(lines)| == |lines| <==> forall id :: Count(lines, IsPlayer(id), players) <= 1
  {
    if lines != [] {
      var rest, id := lines[1..], lines[0].player;
      DistinctPlayersCounted(rest, players);
      PlayerIdsGrow(lines);
      PlayerCounted(rest, players, id);
      assert Count(lines, IsPlayer(id), players) == Count(rest, IsPlayer(id), players) + 1;
      forall x | x != id
        ensures Count(lines, IsPlayer(x), players) == Count(rest, IsPlayer(x), players)
      {
      }
    }
  }

  lemma {:induction false} DistinctOrdersCounted(lines: seq<Line>, players: Catalog)
    ensures |Values(Orders(lines))| <= |lines|
    ensures |Values(Orders(lines))| == |lines| <==> forall k :: Count(lines, HasOrder(k), players) <= 1
  {
    if lines != [] {
      var rest, order := lines[1..], lines[0].order;
      DistinctOrdersCounted(rest, players);
      assert Orders(lines) == [order] + Orders(rest);
      assert Values(Orders(lines)) == Values(Orders(rest)) + {order};
      OrderCounted(rest, players, order);
      assert Count(lines, HasOrder(order), players) == Count(rest, HasOrder(order), players) + 1;
      forall x | x != order
        ensures Count(lines, HasOrder(x), players) == Count(rest, HasOrder(x), players)
      {
      }
    }
  }

  lemma {:induction false} IncreasingSteps(s: seq<int>, i: nat, j: nat)
    requires i <= j < |s| && forall x, y :: 0 <= x < y < |s| ==> s[x] < s[y]
    ensures s[j] >= s[i] + (j - i)
  {
    if i < j {
      IncreasingSteps(s, i, j - 1);
    }
  }

  // Distinct orders sort to 1, 2, ..., 15 exactly when each of these numbers occurs.
  lemma {:induction false} SortedOneToFifteen(orders: seq<int>)
    requires |orders| == 15 && |Values(orders)| == 15
    ensures OneToFifteen(orders)
       <==> forall k :: 1 <= k <= 15 ==> k in orders
  {
    var sorted := Sort(orders, OrderKey);
    SortPermutes(orders, OrderKey);
    SortSorts(orders, OrderKey);
    assert |multiset(sorted)| == |multiset(orders)|;
    if forall i :: 0 <= i < 15 ==> sorted[i] == i + 1 {
      forall k | 1 <= k <= 15
        ensures k in orders
      {
        assert sorted[k - 1] == k;
        assert k in multiset(sorted);
      }
    }
    if forall k :: 1 <= k <= 15 ==> k in orders {
      OneToFifteenSorts(orders, sorted);
    }
  }

  lemma {:induction false} OneToFifteenSorts(orders: seq<int>, sorted: seq<int>)
    requires |orders| == 15 == |sorted| && |Values(orders)| == 15
    requires multiset(sorted) == multiset(orders) && Sorted(sorted, OrderKey)
    requires forall k :: 1 <= k <= 15 ==> k in orders
    ensures forall i :: 0 <= i < 15 ==> sorted[i] == i + 1
  {
    var all := Values(orders);
    var wanted := UpTo(15);
    assert wanted <= all;
    EqualByCardinality(wanted, all);
    AllDistinct(sorted, orders);
    forall i | 0 <= i < 15
      ensures sorted[i] == i + 1
    {
      assert sorted[0] in multiset(orders) && sorted[14] in multiset(orders);
      assert sorted[0] in all && sorted[14] in all;
      IncreasingSteps(sorted, 0, i);
      IncreasingSteps(sorted, i, 14);
    }
  }

  function UpTo(n: nat): (r: set<int>)
    ensures forall k :: k in r <==> 1 <= k <= n
    ensures |r| == n
  {
    if n == 0 then {} else UpTo(n - 1) + {n}
  }

  lemma {:induction false} EqualByCardinality(a: set<int>, b: set<int>)
    requires a <= b && |a| == |b|
    ensures a == b
  {
    assert b == a + (b - a);
    assert |b - a| == 0;
  }

  lemma {:induction false} SetOfSeq(s: seq<int>)
    ensures |Values(s)| <= |s|
    ensures |Values(s)| == |s| ==> Distinct(s)
  {
    if s != [] {
      SetOfSeq(s[1..]);
      assert Values(s) == Values(s[1..]) + {s[0]};
    }
  }

  // A sorted permutation of distinct numbers increases strictly.
  lemma {:induction false} AllDistinct(sorted: seq<int>, orders: seq<int>)
    requires |sorted| == |orders| == |Values(orders)| && multiset(sorted) == multiset(orders)
    requires Sorted(sorted, OrderKey)
    ensures forall x, y :: 0 <= x < y < |sorted| ==> sorted[x] < sorted[y]
  {
    assert forall k :: k in sorted <==> k in multiset(sorted);
    assert Values(sorted) == Values(orders);
    SetOfSeq(sorted);
    forall x, y | 0 <= x < y < |sorted|
      ensures sorted[x] < sorted[y]
    {
      assert !Before(OrderKey(sorted[y]), OrderKey(sorted[x]));
    }
  }

  lemma {:induction false} OrderCounted(lines: seq<Line>, players: Catalog, k: int)
    ensures k in Orders(lines) <==> Count(lines, HasOrder(k), players) > 0
  {
    CountBound(lines, HasOrder(k), players);
    if k in Orders(lines) {
      var i :| 0 <= i < |lines| && Orders(lines)[i] == k;
      assert Has(lines[i], HasOrder(k), players);
    } else {
      assert forall i :: 0 <= i < |lines| ==> lines[i].order == Orders(lines)[i];
    }
  }

  lemma {:induction false} OneEachIsAll(lines: seq<Line>, players: Catalog)
    requires |lines| == 15
    ensures (forall k :: 1 <= k <= 15 ==> Count(lines, HasOrder(k), players) == 1)
       <==> |Values(Orders(lines))| == 15 && forall k :: 1 <= k <= 15 ==> k in Orders(lines)
  {
    var orders := Orders(lines);
    var all := Values(orders);
    DistinctOrdersCounted(lines, players);
    forall k
      ensures k in orders <==> Count(lines, HasOrder(k), players) > 0
    {
      OrderCounted(lines, players, k);
    }
    if forall k :: 1 <= k <= 15 ==> Count(lines, HasOrder(k), players) == 1 {
      assert UpTo(15) <= all;
      SubsetBound(UpTo(15), all);
    }
  }

  lemma {:induction false} OrdersExact(lines: seq<Line>, players: Catalog)
    requires |lines| == 15
    ensures (forall k :: 1 <= k <= 15 ==> Count(lines, HasOrder(k), players) == 1)
       <==> |Values(Orders(lines))| == 15
            && OneToFifteen(Orders(lines))
  {
    OneEachIsAll(lines, players);
    if |Values(Orders(lines))| == 15 {
      SortedOneToFifteen(Orders(lines));
    }
  }

  lemma {:induction false} SubsetBound(a: set<int>, b: set<int>)
    requires a <= b
    ensures |a| <= |b|
  {
    assert b == a + (b - a);
  }

  lemma {:induction false} ClubLimitExact(lines: seq<Line>, players: Catalog)
    requires Count(lines, Listed, players) == |lines|
    ensures OverClubLimit(lines, players) <==> exists c :: Count(lines, OfClub(c), players) > 3
  {
    CountBound(lines, Listed, players);
    if c :| Count(lines, OfClub(c), players) > 3 {
      CountBound(lines, OfClub(c), players);
      var i :| 0 <= i < |lines| && Has(lines[i], OfClub(c), players);
      assert players[lines[i].player].club == c;
    }
  }

  lemma {:induction false} RequestExact(lines: seq<Line>, players: Catalog)
    ensures ValidateRequest(lines, players) == None
       <==> && |lines| == 15
            && (forall id :: Count(lines, IsPlayer(id), players) <= 1)
            && (forall k :: 1 <= k <= 15 ==> Count(lines, HasOrder(k), players) == 1)
            && RolesLawful(lines, players)
            && Count(lines, Starter, players) == 11
  {
    DistinctPlayersCounted(lines, players);
    if |lines| == 15 {
      OrdersExact(lines, players);
    }
  }

  // A save is accepted exactly when the squad is lawful and costs at most 100.00M.
  lemma {:induction false} ValidationIsExact(lines: seq<Line>, players: Catalog)
    ensures ValidatePicks(lines, players) == None <==> Lawful(lines, players) && Value(lines, players) <= 10000
  {
    RequestExact(lines, players);
    if Count(lines, Listed, players) == |lines| {
      ClubLimitExact(lines, players);
    }
    if forall p :: Count(lines, At(p), players) == Quota(p) {
      assert Count(lines, At(Goalkeeper), players) == 2 && Count(lines, At(Defender), players) == 5;
      assert Count(lines, At(Midfielder), players) == 5 && Count(lines, At(Forward), players) == 3;
    }
  }
}
