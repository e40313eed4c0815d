/** The Kolmogorov distance between a sample and the uniform distribution
    on [0,1), and the quantile form of the Kolmogorov test. The sample is
    expected to be sorted ascending; nothing checks this. */
module Kolmogorov {

  function Abs(x: real): (r: real)
    ensures 0.0 <= r && (r == x || r == -x)
  {
    if x < 0.0 then -x else x
  }

  /** `std::max` on two values. */
  function Max(a: real, b: real): (m: real)
    ensures a <= m && b <= m && (m == a || m == b)
  {
    if a < b then b else a
  }

  /** The gap at position `i` between the ideal uniform distribution
      function, `(i + 1) / num`, and the sample value `x`. */
  function Deviation(x: real, i: nat, num: nat): (d: real)
    requires 0 < num
    ensures 0.0 <= d
    ensures d == 0.0 <==> x == (i + 1) as real / num as real
  {
    Abs((i + 1) as real / num as real - x)
  }

  /** The distance accumulated over the sample values `s` (the first `|s|`
      of `num`): it starts at zero and takes the maximum with each
      deviation, so it is the largest deviation, or zero when `s` is empty. */
  function Distance(s: seq<real>, num: nat): (d: real)
    requires 0 < num || s == []
    ensures 0.0 <= d
    ensures forall i :: 0 <= i < |s| ==> Deviation(s[i], i, num) <= d
    ensures s == [] ==> d == 0.0
    ensures s != [] ==> exists i :: 0 <= i < |s| && d == Deviation(s[i], i, num)
    decreases |s|
  {
    if s == [] then 0.0
    else Max(Distance(s[..|s| - 1], num), Deviation(s[|s| - 1], |s| - 1, num))
  }

  /** The perfectly uniform grid `(i + 1) / num` is at distance zero. */
  lemma UniformGridDistance(s: seq<real>, num: nat)
    requires 0 < num
    requires forall i :: 0 <= i < |s| ==> s[i] == (i + 1) as real / num as real
    ensures Distance(s, num) == 0.0
  {
    if s != [] {
      var i :| 0 <= i < |s| && Distance(s, num) == Deviation(s[i], i, num);
      assert Deviation(s[i], i, num) == 0.0;
    }
  }

  /** `calcKolmogorovDistanceUniform` over the first `num` values. */
  method CalcKolmogorovDistance(sequence: array<real>, num: nat) returns (result: real)
    requires num <= sequence.Length
    ensures result == Distance(sequence[..num], num)
  {
    result := 0.0;
    for i := 0 to num
      invariant result == Distance(sequence[..i], num)
    {
      assert sequence[..i + 1][..i] == sequence[..i];
      result := Max(result, Abs((i + 1) as real / num as real - sequence[i]));
    }
  }

  /** The test statistic: the distance scaled by the square root of the
      sample size. */
  function Statistic(rootNum: real, distance: real): (s: real)
    ensures 0.0 <= rootNum && 0.0 <= distance ==> 0.0 <= s
    ensures distance == 0.0 ==> s == 0.0
  {
    rootNum * distance
  }

  /** `checkKolmogorovTestUniformQuantile`: the statistic is the distance
      scaled by the square root of `num`, which the caller supplies as
      `rootNum`; the test passes when the statistic is below the quantile. */
  method CheckKolmogorovQuantile(quantile: real, sequence: array<real>, num: nat, rootNum: real)
    returns (passed: bool, distance: real)
    requires num <= sequence.Length
    requires 0.0 <= rootNum && rootNum * rootNum == num as real
    ensures distance == Statistic(rootNum, Distance(sequence[..num], num))
    ensures passed <==> distance < quantile
  {
    var d := CalcKolmogorovDistance(sequence, num);
    distance := Statistic(rootNum, d);
    passed := distance < quantile;
  }

  /** The uniform grid passes the test for every positive quantile. */
  lemma UniformGridPasses(s: seq<real>, num: nat, rootNum: real, quantile: real)
    requires 0 < num && 0.0 < quantile
    requires forall i :: 0 <= i < |s| ==> s[i] == (i + 1) as real / num as real
    ensures Statistic(rootNum, Distance(s, num)) < quantile
  {
    UniformGridDistance(s, num);
  }
}
