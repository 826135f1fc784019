/** The rounded average used for the virtual Average team and for entries without a fantasy team. */
module Average {
  function SumOf(scores: seq<int>): int {
    if scores == [] then 0 else SumOf(scores[..|scores| - 1]) + scores[|scores| - 1]
  }

  // Math.round rounds half up, also for negative averages.
  function Rounded(sum: int, count: nat): int {
    if count == 0 then 0 else (2 * sum + count) / (2 * count)
  }

  // The rounded average is the integer nearest to sum / count, and the larger one of two nearest.
  lemma {:induction false} RoundedIsNearest(sum: int, count: nat)
    requires count > 0
    ensures -(count as int) < 2 * (sum - Rounded(sum, count) * count) + 1
    ensures 2 * (sum - Rounded(sum, count) * count) < count
  {
    var q := Rounded(sum, count);
    assert 2 * sum + count == (2 * count) * q + (2 * sum + count) % (2 * count);
    assert (2 * count) * q == 2 * (q * count);
  }

  method AverageScore(scores: seq<int>) returns (average: int)
    ensures average == Rounded(SumOf(scores), |scores|)
  {
    var sum := 0;
    for i := 0 to |scores|
      invariant sum == SumOf(scores[..i])
    {
      assert scores[..i + 1][..i] == scores[..i];
      sum := sum + scores[i];
    }
    assert scores[..|scores|] == scores;
    average := if |scores| > 0 then (2 * sum + |scores|) / (2 * |scores|) else 0;
  }
}
