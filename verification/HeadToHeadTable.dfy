/** The table of a head-to-head league: standing rows sorted in place and numbered. */
module HeadToHeadTable {
  import opened StableSort
  import opened HeadToHead

  datatype Standing = Standing(key: Key, record: Record, rank: int)

  // League points, then points difference, then points scored; all descending.
  function TableKey(s: Standing): SortKey {
    SortKey(-s.record.leaguePoints, -(s.record.pointsFor - s.record.pointsAgainst), -s.record.pointsFor)
  }

  // What a higher place means: more league points, or as many and a better difference, or as good and no fewer points.
  predicate StandsAbove(a: Record, b: Record) {
    || a.leaguePoints > b.leaguePoints
    || (a.leaguePoints == b.leaguePoints && a.pointsFor - a.pointsAgainst > b.pointsFor - b.pointsAgainst)
    || (a.leaguePoints == b.leaguePoints && a.pointsFor - a.pointsAgainst == b.pointsFor - b.pointsAgainst
        && a.pointsFor >= b.pointsFor)
  }

  function Number(s: seq<Standing>): (r: seq<Standing>)
  {
    seq(|s|, i requires 0 <= i < |s| => s[i].(rank := i + 1))
  }

  function RankedTable(s: seq<Standing>): seq<Standing> {
    Number(Sort(s, TableKey))
  }

  lemma {:induction false} NumberKeepsSorted(s: seq<Standing>)
    requires Sorted(s, TableKey)
    ensures Sorted(Number(s), TableKey)
  {
    forall i, j | 0 <= i < j < |s|
      ensures !Before(TableKey(Number(s)[j]), TableKey(Number(s)[i]))
    {
      assert !Before(TableKey(s[j]), TableKey(s[i]));
    }
  }

  // Rows that tie on all three criteria stay in the order in which they were loaded.
  lemma {:induction false} TiesKeepTheirOrder(s: seq<Standing>, k: SortKey, tied: Standing -> bool)
    requires forall x :: tied(x) <==> TableKey(x) == k
    ensures Filter(Sort(s, TableKey), tied) == Filter(s, tied)
  {
    Stability(s, TableKey, k, tied);
  }

  // The table is a permutation of the rows with ranks from one in table order, and ranking it again changes nothing.
  lemma {:induction false} TableTheorem(s: seq<Standing>)
    ensures var sorted, table := Sort(s, TableKey), RankedTable(s);
            && multiset(sorted) == multiset(s)
            && |table| == |s|
            && (forall i :: 0 <= i < |table| ==> table[i] == sorted[i].(rank := i + 1))
            && (forall i, j :: 0 <= i < j < |table| ==> StandsAbove(table[i].record, table[j].record))
            && RankedTable(table) == table
  {
    var sorted := Sort(s, TableKey);
    SortPermutes(s, TableKey);
    SortSorts(s, TableKey);
    NumberKeepsSorted(sorted);
    SortOfSorted(Number(sorted), TableKey);
    forall i, j | 0 <= i < j < |sorted|
      ensures StandsAbove(sorted[i].record, sorted[j].record)
    {
      assert !Before(TableKey(sorted[j]), TableKey(sorted[i]));
    }
    assert |multiset(sorted)| == |multiset(s)|;
    assert Number(Number(sorted)) == Number(sorted);
  }

  method RankStandings(standings: array<Standing>)
    modifies standings
    ensures standings[..] == RankedTable(old(standings[..]))
  {
    var sorted := Sort(standings[..], TableKey);
    SortPermutes(standings[..], TableKey);
    assert |multiset(sorted)| == |multiset(standings[..])|;
    var i := 0;
    while i < standings.Length
      invariant i <= standings.Length == |sorted|
      invariant forall k :: 0 <= k < i ==> standings[k] == Number(sorted)[k]
    {
      standings[i] := sorted[i].(rank := i + 1);
      i := i + 1;
    }
  }
}
