/** The pseudo-random generator capability used by the combiner.
    A deterministic generator is fully described by the stream of values it
    emits; `drawn` is the position in that stream, i.e. how many times
    `Next` has been called. The concrete multiplicative generator is not
    part of this model: any stream of values in [0,1) stands for it. */
module Generators {

  /** The values a generator emits from position `start` on, `n` of them. */
  function Draws(stream: nat -> real, start: nat, n: nat): (s: seq<real>)
    ensures |s| == n
    ensures forall k :: 0 <= k < n ==> s[k] == stream(start + k)
  {
    seq(n, k requires 0 <= k => stream(start + k))
  }

  /** Every value of `s` lies in [0,1). */
  predicate InUnitInterval(s: seq<real>) {
    forall j :: 0 <= j < |s| ==> 0.0 <= s[j] < 1.0
  }

  class Prng {
    /** The output stream of the generator. */
    const stream: nat -> real
    /** The number of values drawn so far. */
    var drawn: nat

    /** A generator only ever returns values in [0,1). */
    ghost predicate Valid() {
      forall k: nat :: 0.0 <= stream(k) < 1.0
    }

    constructor (stream: nat -> real)
      ensures this.stream == stream && drawn == 0
    {
      this.stream := stream;
      drawn := 0;
    }

    /** Draws the next value and advances the generator. */
    method Next() returns (x: real)
      modifies this`drawn
      ensures x == stream(old(drawn)) && drawn == old(drawn) + 1
      ensures Valid() ==> 0.0 <= x < 1.0
    {
      x := stream(drawn);
      drawn := drawn + 1;
    }
  }
}
