/**
 * The probability-distribution check that the secret space delegates to
 * `check_prob_distribution` in `qiflib.util.probability`. That module is not
 * part of this model, so the check is stated here over exact reals: every entry
 * is non-negative and the entries sum to exactly 1 (the library compares with
 * a floating-point tolerance instead).
 */
module Probability {

  /** Sum of the entries of a vector. */
  function Sum(p: seq<real>): real
  {
    if |p| == 0 then 0.0 else p[0] + Sum(p[1..])
  }

  predicate NonNegative(p: seq<real>)
  {
    forall i :: 0 <= i < |p| ==> 0.0 <= p[i]
  }

  /** Exact-real stand-in for `check_prob_distribution` succeeding. */
  predicate IsDistribution(p: seq<real>)
  {
    NonNegative(p) && Sum(p) == 1.0
  }

  lemma {:induction false} SumOfNonNegative(p: seq<real>)
    requires NonNegative(p)
    ensures Sum(p) >= 0.0
  {
    if |p| > 0 {
      assert NonNegative(p[1..]) by {
        forall i | 0 <= i < |p[1..]| ensures 0.0 <= p[1..][i] {
          assert p[1..][i] == p[i + 1];
        }
      }
      SumOfNonNegative(p[1..]);
    }
  }

  /** In a non-negative vector no entry exceeds the total. */
  lemma {:induction false} EntryAtMostSum(p: seq<real>, i: int)
    requires NonNegative(p)
    requires 0 <= i < |p|
    ensures p[i] <= Sum(p)
  {
    assert NonNegative(p[1..]) by {
      forall j | 0 <= j < |p[1..]| ensures 0.0 <= p[1..][j] {
        assert p[1..][j] == p[j + 1];
      }
    }
    if i == 0 {
      SumOfNonNegative(p[1..]);
    } else {
      EntryAtMostSum(p[1..], i - 1);
      assert p[1..][i - 1] == p[i];
    }
  }

  /** Every entry of a distribution is a probability, i.e. lies in [0, 1]. */
  lemma DistributionEntriesInUnitInterval(p: seq<real>)
    requires IsDistribution(p)
    ensures forall i :: 0 <= i < |p| ==> 0.0 <= p[i] <= 1.0
  {
    forall i | 0 <= i < |p| ensures 0.0 <= p[i] <= 1.0 {
      EntryAtMostSum(p, i);
    }
  }
}
