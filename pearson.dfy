/** The Pearson chi-square test of uniformity on [0,1): the sample is binned
    by the frequency binner, and the chi-square sum of the counts against the
    expected count `num / cellNum` is compared with the quantile. */
module Pearson {
  import opened Frequencies

  /** A floating-point statistic: a number, positive infinity (what
      `c * c / 0.0` gives for a count `c != 0`), or the not-a-number value
      that `0.0 / 0.0` gives. The chi-square sum never reaches negative
      infinity, because the expected count is never negative. */
  datatype Statistic = Finite(value: real) | Infinite | NaN

  /** The comparison `hi < quantile`, which is false for infinity and for
      not-a-number. */
  predicate Below(s: Statistic, quantile: real)
    ensures !s.Finite? ==> !Below(s, quantile)
    ensures s.Finite? ==> (Below(s, quantile) <==> s.value < quantile)
  {
    s.Finite? && s.value < quantile
  }

  /** Floating-point addition on the statistics that can arise: not-a-number
      absorbs everything, then infinity absorbs numbers. */
  function Plus(a: Statistic, b: Statistic): (r: Statistic)
    ensures r.NaN? <==> a.NaN? || b.NaN?
    ensures r.Infinite? <==> !r.NaN? && (a.Infinite? || b.Infinite?)
    ensures a.Finite? && b.Finite? ==> r == Finite(a.value + b.value)
  {
    if a.NaN? || b.NaN? then NaN
    else if a.Infinite? || b.Infinite? then Infinite
    else Finite(a.value + b.value)
  }

  /** One term `pow(count - expected, 2.0) / expected` of the sum. With a zero
      expected count, a zero count gives `0.0 / 0.0` and any other count
      gives a positive number divided by zero. */
  function Term(count: int, expected: real): (t: Statistic)
    ensures expected == 0.0 ==> (t.NaN? <==> count == 0) && (t.Infinite? <==> count != 0)
    ensures 0.0 < expected ==> t.Finite? && 0.0 <= t.value
  {
    if expected != 0.0 then
      assert 0.0 < expected ==> 0.0 <= Square(count as real - expected) / expected by {
        if 0.0 < expected {
          TermSign(count as real - expected, expected);
        }
      }
      Finite(Square(count as real - expected) / expected)
    else if count == 0 then NaN
    else Infinite
  }

  function Square(x: real): real {
    x * x
  }

  /** The chi-square sum over the counts, accumulated left to right. With a
      positive expected count it is never negative. */
  function ChiSquare(counts: seq<int>, expected: real): (hi: real)
    requires expected != 0.0
    ensures 0.0 < expected ==> 0.0 <= hi
    decreases |counts|
  {
    if counts == [] then 0.0
    else
      var last := counts[|counts| - 1];
      var term := Square(last as real - expected) / expected;
      assert 0.0 < expected ==> 0.0 <= term by {
        if 0.0 < expected {
          TermSign(last as real - expected, expected);
        }
      }
      ChiSquare(counts[..|counts| - 1], expected) + term
  }

  /** The sum of the terms against a zero expected count, accumulated left
      to right: not-a-number when some count is zero, otherwise infinity for
      any count at all. */
  function ZeroExpectedSum(counts: seq<int>): (hi: Statistic)
    ensures hi.NaN? <==> exists k :: 0 <= k < |counts| && counts[k] == 0
    ensures hi.Infinite? <==> counts != [] && forall k :: 0 <= k < |counts| ==> counts[k] != 0
    ensures hi.Finite? <==> counts == []
    ensures hi.Finite? ==> hi.value == 0.0
    decreases |counts|
  {
    if counts == [] then Finite(0.0)
    else
      var prefix := counts[..|counts| - 1];
      assert forall k :: 0 <= k < |prefix| ==> prefix[k] == counts[k];
      Plus(ZeroExpectedSum(prefix), Term(counts[|counts| - 1], 0.0))
  }

  /** The statistic the test computes from the counts. With an empty sample
      the expected count is zero: the statistic is not-a-number when a count
      is zero and infinite when none is. */
  function PearsonStatistic(counts: seq<int>, num: nat, cellNum: nat): (hi: Statistic)
    requires 0 < cellNum
    ensures 0 < num ==> hi.Finite?
    ensures num == 0 && counts != [] ==> !hi.Finite?
    ensures num == 0 ==> (hi.NaN? <==> exists k :: 0 <= k < |counts| && counts[k] == 0)
    ensures hi.Finite? ==> 0.0 <= hi.value
  {
    if num == 0 then ZeroExpectedSum(counts)
    else
      assert 0.0 < num as real / cellNum as real;
      Finite(ChiSquare(counts, num as real / cellNum as real))
  }

  lemma SquareSign(d: real)
    ensures 0.0 <= Square(d)
    ensures Square(d) == 0.0 <==> d == 0.0
  {
    if 0.0 < d {
      calc { Square(d); d * d; > 0.0; }
    } else if d < 0.0 {
      calc { Square(d); (-d) * (-d); > 0.0; }
    }
  }

  /** One term of the sum is non-negative, and zero exactly when the count
      is the expected one. */
  lemma TermSign(d: real, expected: real)
    requires 0.0 < expected
    ensures 0.0 <= Square(d) / expected
    ensures Square(d) / expected == 0.0 <==> d == 0.0
  {
    SquareSign(d);
    var q := Square(d) / expected;
    assert q * expected == Square(d);
  }

  /** The chi-square sum is zero exactly when every count equals the
      expected count. */
  lemma {:induction false} ChiSquareZero(counts: seq<int>, expected: real)
    requires 0.0 < expected
    ensures ChiSquare(counts, expected) == 0.0 <==> forall k :: 0 <= k < |counts| ==> counts[k] as real == expected
  {
    if counts != [] {
      var prefix := counts[..|counts| - 1];
      var last := counts[|counts| - 1] as real;
      ChiSquareZero(prefix, expected);
      TermSign(last - expected, expected);
      if forall k :: 0 <= k < |counts| ==> counts[k] as real == expected {
        assert forall k :: 0 <= k < |prefix| ==> prefix[k] as real == expected by {
          forall k | 0 <= k < |prefix| ensures prefix[k] as real == expected {
            assert prefix[k] == counts[k];
          }
        }
      }
      if ChiSquare(counts, expected) == 0.0 {
        forall k | 0 <= k < |counts| ensures counts[k] as real == expected {
          if k < |prefix| {
            assert prefix[k] == counts[k];
          }
        }
      }
    }
  }

  /** Counts that all equal `num / cellNum` give the statistic zero, which
      passes for every positive quantile. */
  lemma ExactCountsPass(counts: seq<int>, num: nat, cellNum: nat, quantile: real)
    requires 0 < num && 0 < cellNum && 0.0 < quantile
    requires forall k :: 0 <= k < |counts| ==> counts[k] as real == num as real / cellNum as real
    ensures PearsonStatistic(counts, num, cellNum) == Finite(0.0)
    ensures Below(PearsonStatistic(counts, num, cellNum), quantile)
  {
    ChiSquareZero(counts, num as real / cellNum as real);
  }

  /** The accumulator loop of `checkPearsonTestUniform` over the counts
      `freq` of `num` values: the chi-square sum against `num / cellNum`,
      in floating-point terms when `num` is zero. */
  method SumChiSquare(freq: array<int>, num: nat, cellNum: nat) returns (hi: Statistic)
    requires freq.Length == cellNum && 0 < cellNum
    ensures hi == PearsonStatistic(freq[..], num, cellNum)
  {
    ghost var counts := freq[..];
    var uniformFreq := num as real / cellNum as real;
    assert uniformFreq == 0.0 <==> num == 0 by {
      assert uniformFreq * cellNum as real == num as real;
    }
    hi := Finite(0.0);
    for i := 0 to cellNum
      invariant num != 0 ==> hi == Finite(ChiSquare(counts[..i], uniformFreq))
      invariant num == 0 ==> hi == ZeroExpectedSum(counts[..i])
    {
      assert counts[..i + 1][..i] == counts[..i];
      hi := Plus(hi, Term(freq[i], uniformFreq));
    }
    assert counts == counts[..cellNum];
  }

  /** `checkPearsonTestUniform`: bins the first `num` values over `cellNum`
      cells of [0,1) and compares the chi-square statistic with the
      quantile. An empty sample leaves every count at zero, so its statistic
      is not-a-number. */
  method CheckPearson(quantile: real, sequence: array<real>, num: nat, cellNum: nat)
    returns (passed: bool, hi: Statistic)
    requires num <= sequence.Length && 0 < cellNum
    ensures hi == PearsonStatistic(Bin(sequence[..num], cellNum, CellWidth(cellNum, 0.0, 1.0)).counts, num, cellNum)
    ensures num == 0 ==> hi.NaN?
    ensures passed <==> Below(hi, quantile)
    ensures passed ==> 0 < num
  {
    var empericFreq := CalcFrequencies(sequence, num, cellNum, 0.0, 1.0);
    assert num == 0 ==> sequence[..num] == [];
    assert num == 0 ==> empericFreq[0] == 0;
    hi := SumChiSquare(empericFreq, num, cellNum);
    passed := Below(hi, quantile);
  }
}
