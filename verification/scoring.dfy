/**
 * Score arithmetic shared by the quality scripts: `Math.round` of a ratio, the mean
 * of per-file scores, and the EXCELLENT/GOOD/FAIR/POOR table (90/75/60) that the
 * standards report and the rules report both apply to that mean.
 */
module Scoring {
  import opened Wrappers

  /** `Math.round(num / den)`: the integer nearest to the ratio, halves rounded up. */
  function RoundDiv(num: int, den: nat): (r: int)
    requires den > 0
    ensures 2 * den * r - den <= 2 * num < 2 * den * r + den
  {
    var q := (2 * num + den) / (2 * den);
    assert 2 * den * q <= 2 * num + den < 2 * den * q + 2 * den;
    q
  }

  /** Two integers within half a unit of the same ratio are the same integer. */
  lemma RoundDivUnique(num: int, den: nat, r: int)
    requires den > 0
    requires 2 * den * r - den <= 2 * num < 2 * den * r + den
    ensures RoundDiv(num, den) == r
  {
    var q := RoundDiv(num, den);
    assert 2 * den * (q - r) < 2 * den && 2 * den * (r - q) < 2 * den;
    CancelFactor(2 * den, q - r, 1);
    CancelFactor(2 * den, r - q, 1);
  }

  /** Rounding a larger ratio never gives a smaller integer. */
  lemma RoundDivMonotone(a: int, b: int, den: nat)
    requires den > 0 && a <= b
    ensures RoundDiv(a, den) <= RoundDiv(b, den)
  {
    var p, q := RoundDiv(a, den), RoundDiv(b, den);
    assert 2 * den * p < 2 * den * (q + 1);
    CancelFactor(2 * den, p, q + 1);
  }

  /** A positive factor can be cancelled from a strict inequality. */
  lemma CancelFactor(d: int, a: int, b: int)
    requires d > 0
    requires d * a < d * b
    ensures a < b
  {
    if a >= b {
      MultiplyMono(d, b, a);
    }
  }

  lemma MultiplyMono(d: int, a: int, b: int)
    requires d >= 0 && a <= b
    ensures d * a <= d * b
  {
    assert d * b - d * a == d * (b - a);
  }

  /** `Math.round(passed / total * 100)`, the share of passed checks as a percentage. */
  function Percent(passed: nat, total: nat): int
    requires 0 < total
  {
    RoundDiv(100 * passed, total)
  }

  /** When the ratio is a whole percentage, rounding leaves it alone: 5 checks give steps of 20, 4 give steps of 25. */
  lemma PercentExact(passed: nat, total: nat, step: nat)
    requires 0 < total && total * step == 100
    ensures Percent(passed, total) == step * passed
  {
    assert 2 * total * (step * passed) == 200 * passed by {
      assert total * (step * passed) == (total * step) * passed;
    }
    RoundDivUnique(100 * passed, total, step * passed);
  }

  /** `xs.reduce((total, x) => total + x, 0)` */
  function Sum(xs: seq<int>): int {
    if xs == [] then 0 else Sum(xs[..|xs| - 1]) + xs[|xs| - 1]
  }

  /** The sum of four counts, written out. */
  lemma SumOfFour(xs: seq<int>)
    requires |xs| == 4
    ensures Sum(xs) == xs[0] + xs[1] + xs[2] + xs[3]
  {
    assert Sum(xs[..1]) == xs[0] by { assert xs[..1][..0] == []; }
    assert Sum(xs[..2]) == xs[0] + xs[1] by { assert xs[..2][..1] == xs[..1]; }
    assert Sum(xs[..3]) == xs[0] + xs[1] + xs[2] by { assert xs[..3][..2] == xs[..2]; }
  }

  /** The sum of five counts, written out. */
  lemma SumOfFive(xs: seq<int>)
    requires |xs| == 5
    ensures Sum(xs) == xs[0] + xs[1] + xs[2] + xs[3] + xs[4]
  {
    SumOfFour(xs[..4]);
  }

  /** Every element lies in [lo, hi], so the sum lies in [n * lo, n * hi]. */
  lemma {:induction false} SumBounds(xs: seq<int>, lo: int, hi: int)
    requires forall k :: 0 <= k < |xs| ==> lo <= xs[k] <= hi
    ensures |xs| * lo <= Sum(xs) <= |xs| * hi
  {
    if xs != [] {
      SumBounds(xs[..|xs| - 1], lo, hi);
      assert |xs| * lo == (|xs| - 1) * lo + lo;
      assert |xs| * hi == (|xs| - 1) * hi + hi;
    }
  }

  /**
   * `Math.round(totalScore / totalFiles)` over the files' scores. With no file the
   * division is 0/0, which is NaN in JavaScript; `None` stands for that NaN.
   */
  function AverageScore(scores: seq<int>): (avg: Option<int>)
    ensures avg.None? <==> scores == []
  {
    if scores == [] then None else Some(RoundDiv(Sum(scores), |scores|))
  }

  /** The mean of scores that all lie in [0, 100] lies in [0, 100]. */
  lemma AverageInRange(scores: seq<int>)
    requires scores != []
    requires forall k :: 0 <= k < |scores| ==> 0 <= scores[k] <= 100
    ensures 0 <= AverageScore(scores).value <= 100
  {
    var n := |scores|;
    SumBounds(scores, 0, 100);
    var r := AverageScore(scores).value;
    assert 0 <= r by {
      if r < 0 { MultiplyMono(2 * n, r, -1); }
    }
    assert r <= 100 by {
      if r > 100 { MultiplyMono(2 * n, 101, r); }
    }
  }

  datatype Tier = Excellent | Good | Fair | Poor

  /** Position of a tier in the table, best first. */
  function Rank(t: Tier): nat {
    match t
    case Excellent => 0
    case Good => 1
    case Fair => 2
    case Poor => 3
  }

  /**
   * The tier of an average score: at least 90 EXCELLENT, at least 75 GOOD, at least
   * 60 FAIR, else POOR. NaN fails every comparison and so lands in POOR.
   */
  function ComplianceTier(average: Option<int>): (t: Tier)
    ensures t == Excellent <==> average.Some? && average.value >= 90
    ensures t == Good <==> average.Some? && 75 <= average.value < 90
    ensures t == Fair <==> average.Some? && 60 <= average.value < 75
    ensures t == Poor <==> average.None? || average.value < 60
  {
    match average
    case None => Poor
    case Some(a) =>
      if a >= 90 then Excellent
      else if a >= 75 then Good
      else if a >= 60 then Fair
      else Poor
  }

  /** A higher average never gets a worse tier. */
  lemma ComplianceTierMonotone(a: int, b: int)
    requires a <= b
    ensures Rank(ComplianceTier(Some(b))) <= Rank(ComplianceTier(Some(a)))
  {
  }

  /** What a report concludes: the rounded mean (None for NaN) and its tier. */
  datatype Summary = Summary(average: Option<int>, tier: Tier)

  /** The average-and-tier decision of a report over per-file scores. */
  function Summarize(scores: seq<int>): (r: Summary)
    ensures r.average == AverageScore(scores)
    ensures scores == [] ==> r.tier == Poor
  {
    var avg := AverageScore(scores);
    Summary(avg, ComplianceTier(avg))
  }

  /** Two files scoring 100 and 60 average to 80, which is GOOD. */
  lemma SummarizeExample()
    ensures Summarize([100, 60]) == Summary(Some(80), Good)
  {
    assert Sum([100, 60]) == 160 by {
      assert [100, 60][..1] == [100];
      assert Sum([100]) == 100 by { assert [100][..0] == []; }
    }
    RoundDivUnique(160, 2, 80);
  }
}
