/** What a lawful squad is, line by line: the counts of a validation as numbers of lines. */
module LawfulSquads {
  import opened Wrappers
  import opened Average
  import opened Squads

  // The lines with a feature.
  function Where(lines: seq<Line>, f: Feature, players: Catalog): set<int> {
    set i | 0 <= i < |lines| && Has(lines[i], f, players)
  }

  lemma {:induction false} CountIsSize(lines: seq<Line>, f: Feature, players: Catalog)
    ensures Count(lines, f, players) == |Where(lines, f, players)|
  {
    if lines != [] {
      var front, last := lines[..|lines| - 1], lines[|lines| - 1];
      CountIsSize(front, f, players);
      assert lines == front + [last] && [last][1..] == [];
      CountAppend(front, [last], f, players);
      WhereSnoc(front, last, f, players);
    }
  }

  lemma {:induction false} WhereSnoc(front: seq<Line>, last: Line, f: Feature, players: Catalog)
    ensures Where(front + [last], f, players)
         == Where(front, f, players) + if Has(last, f, players) then {|front|} else {}
    ensures |front| !in Where(front, f, players)
  {
    assert forall i :: 0 <= i < |front| ==> (front + [last])[i] == front[i];
  }

  function LinesAt(lines: seq<Line>, position: Position, players: Catalog): set<int> {
    set i | 0 <= i < |lines| && lines[i].player in players && players[lines[i].player].position == position
  }

  function StartersAt(lines: seq<Line>, position: Position, players: Catalog): set<int> {
    set i | 0 <= i < |lines| && !lines[i].benched && lines[i].player in players
            && players[lines[i].player].position == position
  }

  function LinesOfClub(lines: seq<Line>, club: Id, players: Catalog): set<int> {
    set i | 0 <= i < |lines| && lines[i].player in players && players[lines[i].player].club == club
  }

  lemma {:induction false} PositionsCounted(lines: seq<Line>, position: Position, players: Catalog)
    ensures Count(lines, At(position), players) == |LinesAt(lines, position, players)|
    ensures Count(lines, StarterAt(position), players) == |StartersAt(lines, position, players)|
  {
    CountIsSize(lines, At(position), players);
    CountIsSize(lines, StarterAt(position), players);
    assert Where(lines, At(position), players) == LinesAt(lines, position, players);
    assert Where(lines, StarterAt(position), players) == StartersAt(lines, position, players);
  }

  lemma {:induction false} ClubsCounted(lines: seq<Line>, club: Id, players: Catalog)
    ensures Count(lines, OfClub(club), players) == |LinesOfClub(lines, club, players)|
  {
    CountIsSize(lines, OfClub(club), players);
    assert Where(lines, OfClub(club), players) == LinesOfClub(lines, club, players);
  }

  ghost predicate HoldsNumber(lines: seq<Line>, k: int) {
    exists i :: 0 <= i < |lines| && lines[i].order == k
  }

  // The lines are numbered one to fifteen and hold different, known players.
  ghost predicate Numbered(lines: seq<Line>, players: Catalog) {
    && |lines| == 15
    && (forall i :: 0 <= i < 15 ==> lines[i].player in players)
    && (forall i, j :: 0 <= i < j < 15 ==> lines[i].player != lines[j].player)
    && (forall k :: 1 <= k <= 15 ==> HoldsNumber(lines, k))
  }

  // One captain and one vice-captain, different players, both in the eleven.
  ghost predicate Led(lines: seq<Line>) {
    exists c, v :: LedBy(lines, c, v)
  }

  ghost predicate LedBy(lines: seq<Line>, c: int, v: int) {
    && 0 <= c < |lines| && 0 <= v < |lines| && c != v && !lines[c].benched && !lines[v].benched
    && (forall i :: 0 <= i < |lines| ==> (lines[i].captain <==> i == c))
    && (forall i :: 0 <= i < |lines| ==> (lines[i].vice <==> i == v))
  }

  lemma {:induction false} NumbersCounted(lines: seq<Line>, players: Catalog)
    requires |lines| == 15
    ensures Numbered(lines, players)
       <==> && Count(lines, Listed, players) == 15
            && (forall id :: Count(lines, IsPlayer(id), players) <= 1)
            && (forall k :: 1 <= k <= 15 ==> Count(lines, HasOrder(k), players) == 1)
  {
    CountBound(lines, Listed, players);
    PlayersApart(lines, players);
    OrdersCounted(lines, players);
  }

  lemma {:induction false} PlayersApart(lines: seq<Line>, players: Catalog)
    ensures (forall id :: Count(lines, IsPlayer(id), players) <= 1)
       <==> forall i, j :: 0 <= i < j < |lines| ==> lines[i].player != lines[j].player
  {
    if lines != [] {
      var rest := lines[1..];
      PlayersApart(rest, players);
      assert forall i :: 0 <= i < |rest| ==> rest[i] == lines[i + 1];
      forall id
        ensures Count(lines, IsPlayer(id), players)
             == Count(rest, IsPlayer(id), players) + if lines[0].player == id then 1 else 0
      {
      }
      PlayerCounted(rest, players, lines[0].player);
      FirstApart(lines, players);
    }
  }

  lemma {:induction false} FirstApart(lines: seq<Line>, players: Catalog)
    requires lines != []
    ensures lines[0].player in PlayerIds(lines[1..])
       <==> exists j :: 1 <= j < |lines| && lines[j].player == lines[0].player
  {
    if lines[0].player in PlayerIds(lines[1..]) {
      var j :| 0 <= j < |lines[1..]| && lines[1..][j].player == lines[0].player;
      assert lines[j + 1].player == lines[0].player;
    }
    if j :| 1 <= j < |lines| && lines[j].player == lines[0].player {
      assert lines[1..][j - 1].player == lines[0].player;
    }
  }

  lemma {:induction false} OrdersCounted(lines: seq<Line>, players: Catalog)
    requires |lines| == 15
    ensures (forall k :: 1 <= k <= 15 ==> Count(lines, HasOrder(k), players) == 1)
       <==> forall k :: 1 <= k <= 15 ==> HoldsNumber(lines, k)
  {
    forall k
      ensures Count(lines, HasOrder(k), players) > 0 <==> HoldsNumber(lines, k)
    {
      NumberHeld(lines, players, k);
    }
    if forall k :: 1 <= k <= 15 ==> HoldsNumber(lines, k) {
      OneEach(lines, players);
    }
  }

  lemma {:induction false} NumberHeld(lines: seq<Line>, players: Catalog, k: int)
    ensures Count(lines, HasOrder(k), players) > 0 <==> HoldsNumber(lines, k)
    ensures k in Orders(lines) <==> HoldsNumber(lines, k)
  {
    CountBound(lines, HasOrder(k), players);
    if i :| 0 <= i < |lines| && lines[i].order == k {
      assert Has(lines[i], HasOrder(k), players) && Orders(lines)[i] == k;
    }
  }

  // Fifteen lines that hold the fifteen numbers hold each once.
  lemma {:induction false} OneEach(lines: seq<Line>, players: Catalog)
    requires |lines| == 15 && forall k :: 1 <= k <= 15 ==> HoldsNumber(lines, k)
    ensures forall k :: 1 <= k <= 15 ==> Count(lines, HasOrder(k), players) == 1
  {
    var orders := Orders(lines);
    forall k | 1 <= k <= 15
      ensures k in Values(orders) && Count(lines, HasOrder(k), players) > 0
    {
      NumberHeld(lines, players, k);
    }
    SubsetBound(UpTo(15), Values(orders));
    DistinctOrdersCounted(lines, players);
  }

  ghost predicate OnlyAt(lines: seq<Line>, f: Feature, players: Catalog, c: int) {
    0 <= c < |lines| && forall i :: 0 <= i < |lines| ==> (Has(lines[i], f, players) <==> i == c)
  }

  lemma {:induction false} OneLine(lines: seq<Line>, f: Feature, players: Catalog)
    ensures Count(lines, f, players) == 1 <==> exists c :: OnlyAt(lines, f, players, c)
  {
    CountIsSize(lines, f, players);
    var where := Where(lines, f, players);
    if |where| == 1 {
      var c :| c in where;
      OnlyMember(where, c);
      assert forall i :: 0 <= i < |lines| && Has(lines[i], f, players) ==> i in where;
      assert OnlyAt(lines, f, players, c);
    }
    if c :| OnlyAt(lines, f, players, c) {
      assert where == {c};
    }
  }

  lemma {:induction false} OnlyMember(s: set<int>, c: int)
    requires |s| == 1 && c in s
    ensures s == {c}
  {
    assert |s - {c}| == 0;
  }

  lemma {:induction false} LawfulRolesLead(lines: seq<Line>, players: Catalog)
    requires RolesLawful(lines, players)
    ensures Led(lines)
  {
    OneLine(lines, Captain, players);
    OneLine(lines, Vice, players);
    CountBound(lines, Dual, players);
    CountBound(lines, BenchedRole, players);
    var c :| OnlyAt(lines, Captain, players, c);
    var v :| OnlyAt(lines, Vice, players, v);
    assert Has(lines[c], Captain, players) && Has(lines[v], Vice, players);
    assert !Has(lines[c], Dual, players);
    assert !Has(lines[c], BenchedRole, players) && !Has(lines[v], BenchedRole, players);
    assert forall i :: 0 <= i < |lines| ==> (Has(lines[i], Captain, players) <==> lines[i].captain);
    assert forall i :: 0 <= i < |lines| ==> (Has(lines[i], Vice, players) <==> lines[i].vice);
    assert LedBy(lines, c, v);
  }

  lemma {:induction false} LeadersAreLawful(lines: seq<Line>, players: Catalog, c: int, v: int)
    requires LedBy(lines, c, v)
    ensures RolesLawful(lines, players)
  {
    assert OnlyAt(lines, Captain, players, c) && OnlyAt(lines, Vice, players, v);
    OneLine(lines, Captain, players);
    OneLine(lines, Vice, players);
    CountBound(lines, Dual, players);
    CountBound(lines, BenchedRole, players);
  }

  lemma {:induction false} RolesCounted(lines: seq<Line>, players: Catalog)
    ensures RolesLawful(lines, players) <==> Led(lines)
  {
    if RolesLawful(lines, players) {
      LawfulRolesLead(lines, players);
    }
    if c, v :| LedBy(lines, c, v) {
      LeadersAreLawful(lines, players, c, v);
    }
  }

  // The eight formations are all those of ten outfield players with three to five defenders, two to five midfielders
  // and one to three forwards: the last check of the eleven refuses nothing that eleven starters pass.
  lemma {:induction false} FormationsAreAll(def: nat, mid: nat, fwd: nat)
    ensures FormationAllowed(def, mid, fwd)
       <==> def + mid + fwd == 10 && 3 <= def <= 5 && 2 <= mid <= 5 && 1 <= fwd <= 3
  {
  }

  // What a lawful squad is, without a count: fifteen different known players numbered one to fifteen; two goalkeepers,
  // five defenders, five midfielders and three forwards; at most three of a club; one captain and another
  // vice-captain in the eleven; and an eleven of one goalkeeper, three to five defenders, two to five midfielders and
  // one to three forwards.
  ghost predicate IsLawful(lines: seq<Line>, players: Catalog) {
    && Numbered(lines, players) && Led(lines)
    && |LinesAt(lines, Goalkeeper, players)| == 2 && |LinesAt(lines, Defender, players)| == 5
    && |LinesAt(lines, Midfielder, players)| == 5 && |LinesAt(lines, Forward, players)| == 3
    && (forall c :: |LinesOfClub(lines, c, players)| <= 3)
    && |set i | 0 <= i < |lines| && !lines[i].benched| == 11
    && |StartersAt(lines, Goalkeeper, players)| == 1 && 3 <= |StartersAt(lines, Defender, players)| <= 5
    && 2 <= |StartersAt(lines, Midfielder, players)| <= 5 && 1 <= |StartersAt(lines, Forward, players)| <= 3
  }

  lemma {:induction false} StartersCounted(lines: seq<Line>, players: Catalog)
    ensures Count(lines, Starter, players) == |set i | 0 <= i < |lines| && !lines[i].benched|
  {
    CountIsSize(lines, Starter, players);
    assert Where(lines, Starter, players) == set i | 0 <= i < |lines| && !lines[i].benched;
  }

  // Eleven known starters are the starters of the four positions.
  lemma {:induction false} ElevenAddsUp(lines: seq<Line>, players: Catalog)
    requires forall i :: 0 <= i < |lines| ==> lines[i].player in players
    ensures Count(lines, Starter, players)
         == Count(lines, StarterAt(Goalkeeper), players) + Count(lines, StarterAt(Defender), players)
            + Count(lines, StarterAt(Midfielder), players) + Count(lines, StarterAt(Forward), players)
  {
    if lines != [] {
      assert lines[0].player in players;
      assert forall i :: 0 <= i < |lines| - 1 ==> lines[1..][i] == lines[i + 1];
      ElevenAddsUp(lines[1..], players);
    }
  }

  lemma {:induction false} ElevenCounted(lines: seq<Line>, players: Catalog)
    requires forall i :: 0 <= i < |lines| ==> lines[i].player in players
    ensures ElevenLawful(lines, players)
       <==> && |set i | 0 <= i < |lines| && !lines[i].benched| == 11
            && |StartersAt(lines, Goalkeeper, players)| == 1 && 3 <= |StartersAt(lines, Defender, players)| <= 5
            && 2 <= |StartersAt(lines, Midfielder, players)| <= 5 && 1 <= |StartersAt(lines, Forward, players)| <= 3
  {
    StartersCounted(lines, players);
    PositionsCounted(lines, Goalkeeper, players);
    PositionsCounted(lines, Defender, players);
    PositionsCounted(lines, Midfielder, players);
    PositionsCounted(lines, Forward, players);
    ElevenAddsUp(lines, players);
    FormationsAreAll(Count(lines, StarterAt(Defender), players), Count(lines, StarterAt(Midfielder), players),
                     Count(lines, StarterAt(Forward), players));
  }

  lemma {:induction false} QuotasCounted(lines: seq<Line>, players: Catalog)
    ensures (forall p :: Count(lines, At(p), players) == Quota(p))
       <==> && |LinesAt(lines, Goalkeeper, players)| == 2 && |LinesAt(lines, Defender, players)| == 5
            && |LinesAt(lines, Midfielder, players)| == 5 && |LinesAt(lines, Forward, players)| == 3
  {
    forall p
      ensures Count(lines, At(p), players) == |LinesAt(lines, p, players)|
    {
      PositionsCounted(lines, p, players);
    }
  }

  lemma {:induction false} LawfulMeans(lines: seq<Line>, players: Catalog)
    ensures Lawful(lines, players) <==> IsLawful(lines, players)
  {
    forall c
      ensures Count(lines, OfClub(c), players) == |LinesOfClub(lines, c, players)|
    {
      ClubsCounted(lines, c, players);
    }
    RolesCounted(lines, players);
    QuotasCounted(lines, players);
    if |lines| == 15 {
      NumbersCounted(lines, players);
      CountBound(lines, Listed, players);
      if Count(lines, Listed, players) == 15 {
        ElevenCounted(lines, players);
      }
    }
  }

  // ----- The price of a squad ---------------------------------------------------------------------------------

  function PricesOf(lines: seq<Line>, players: Catalog): (r: seq<int>)
  {
    seq(|lines|, i requires 0 <= i < |lines| =>
          if lines[i].player in players then players[lines[i].player].price else 0)
  }

  lemma {:induction false} SumFromFront(s: seq<int>)
    requires s != []
    ensures SumOf(s) == s[0] + SumOf(s[1..])
  {
    if |s| > 1 {
      SumFromFront(s[..|s| - 1]);
      assert s[..|s| - 1][1..] == s[1..][..|s| - 2];
    }
  }

  lemma {:induction false} ValueAddsUp(lines: seq<Line>, players: Catalog)
    ensures Value(lines, players) == SumOf(PricesOf(lines, players))
  {
    if lines != [] {
      ValueAddsUp(lines[1..], players);
      SumFromFront(PricesOf(lines, players));
      assert PricesOf(lines, players)[1..] == PricesOf(lines[1..], players);
    }
  }

  // A save accepts exactly the lawful squads that cost at most 100.00M, in these terms.
  lemma {:induction false} AcceptedExactlyWhen(lines: seq<Line>, players: Catalog)
    ensures ValidatePicks(lines, players) == None
       <==> IsLawful(lines, players) && SumOf(PricesOf(lines, players)) <= 10000
  {
    ValidationIsExact(lines, players);
    LawfulMeans(lines, players);
    ValueAddsUp(lines, players);
  }
}
