/** The MacLaren-Marsaglia combination of two generator streams: a lookup
    table filled from the first stream is read at positions chosen by the
    second stream, and each slot read is refilled with the next unused value
    of the first stream. */
module Combiner {
  import opened Generators

  /** The C++ conversion `(int)x`: truncation toward zero. */
  function Truncate(x: real): (n: int)
    ensures 0.0 <= x ==> n as real <= x < n as real + 1.0
    ensures x < 0.0 ==> n as real - 1.0 < x <= n as real
  {
    if 0.0 <= x then x.Floor else -((-x).Floor)
  }

  /** The table slot `(int)(u * offset)` selected by a value `u` of the
      second stream. */
  function TableIndex(u: real, offset: nat): (k: int)
    ensures 0.0 <= u ==> k as real <= u * offset as real < k as real + 1.0
    ensures u < 0.0 ==> k as real - 1.0 < u * offset as real <= k as real
  {
    Truncate(u * offset as real)
  }

  /** A value of the second stream in [0,1) always selects a slot of the table. */
  lemma TableIndexInRange(u: real, offset: nat)
    requires 0.0 <= u < 1.0 && 0 < offset
    ensures 0 <= TableIndex(u, offset) < offset
  {
    var x := u * offset as real;
    assert offset as real - x == (1.0 - u) * offset as real;
    assert 0.0 <= x < offset as real;
  }

  /** The slots selected by all values of the second stream. */
  function Slots(S: seq<real>, offset: nat): (I: seq<int>)
    requires InUnitInterval(S) && (0 < offset || |S| == 0)
    ensures |I| == |S|
    ensures forall j :: 0 <= j < |S| ==> I[j] == TableIndex(S[j], offset) && 0 <= I[j] < offset
  {
    assert forall j :: 0 <= j < |S| ==> 0 <= TableIndex(S[j], offset) < offset by {
      forall j | 0 <= j < |S| ensures 0 <= TableIndex(S[j], offset) < offset {
        TableIndexInRange(S[j], offset);
      }
    }
    seq(|S|, j requires 0 <= j < |S| => TableIndex(S[j], offset))
  }

  /** What the combining loop needs: `F` holds `|I| + offset` draws of the
      first stream and every selected slot `I[j]` lies in the table. */
  predicate Admissible(F: seq<real>, I: seq<int>, offset: nat) {
    && |F| == |I| + offset
    && (forall j :: 0 <= j < |I| ==> 0 <= I[j] < offset)
  }

  /** The lookup table after `i` steps of the combining loop: the first
      `offset` draws, then in each step the selected slot is refilled with
      the next draw. */
  function TableAfter(F: seq<real>, I: seq<int>, offset: nat, i: nat): (t: seq<real>)
    requires Admissible(F, I, offset) && i <= |I|
    ensures |t| == offset
    decreases i
  {
    if i == 0 then F[..offset]
    else TableAfter(F, I, offset, i - 1)[I[i - 1] := F[offset + i - 1]]
  }

  /** The first `i` outputs of the combining loop: output `j` is the table
      entry in slot `I[j]` before it is refilled. */
  function Outputs(F: seq<real>, I: seq<int>, offset: nat, i: nat): (r: seq<real>)
    requires Admissible(F, I, offset) && i <= |I|
    ensures |r| == i
    decreases i
  {
    if i == 0 then []
    else Outputs(F, I, offset, i - 1) + [TableAfter(F, I, offset, i - 1)[I[i - 1]]]
  }

  /** The combined sequence, one output per selected slot. No draw is lost
      or duplicated: the outputs and the final table together are exactly
      the draws of the first stream. */
  function Combine(F: seq<real>, I: seq<int>, offset: nat): (r: seq<real>)
    requires Admissible(F, I, offset)
    ensures |r| == |I|
    ensures multiset(r) + multiset(TableAfter(F, I, offset, |I|)) == multiset(F)
  {
    TableConservation(F, I, offset, |I|);
    assert F[..offset + |I|] == F;
    Outputs(F, I, offset, |I|)
  }

  /** Each output is read from the table as it stands before that step. */
  lemma {:induction false} OutputAt(F: seq<real>, I: seq<int>, offset: nat, n: nat, i: nat)
    requires Admissible(F, I, offset) && i < n <= |I|
    ensures Outputs(F, I, offset, n)[i] == TableAfter(F, I, offset, i)[I[i]]
  {
    if i < n - 1 {
      OutputAt(F, I, offset, n - 1, i);
    }
  }

  /** Step `i` changes exactly one slot of the table, `I[i]`, and sets it to
      `F[offset + i]`; the other slots keep their values. The step emits the
      slot's value from before the refill. */
  lemma CombineStep(F: seq<real>, I: seq<int>, offset: nat, i: nat)
    requires Admissible(F, I, offset) && i < |I|
    ensures TableAfter(F, I, offset, i + 1) == TableAfter(F, I, offset, i)[I[i] := F[offset + i]]
    ensures TableAfter(F, I, offset, i + 1)[I[i]] == F[offset + i]
    ensures forall k :: 0 <= k < offset && k != I[i] ==>
              TableAfter(F, I, offset, i + 1)[k] == TableAfter(F, I, offset, i)[k]
    ensures Outputs(F, I, offset, i + 1) == Outputs(F, I, offset, i) + [TableAfter(F, I, offset, i)[I[i]]]
  {
  }

  /** Nothing is lost and nothing is duplicated: after `i` steps, the table
      and the outputs so far together are exactly the first `offset + i`
      draws of the first stream. */
  lemma {:induction false} TableConservation(F: seq<real>, I: seq<int>, offset: nat, i: nat)
    requires Admissible(F, I, offset) && i <= |I|
    ensures multiset(TableAfter(F, I, offset, i)) + multiset(Outputs(F, I, offset, i))
            == multiset(F[..offset + i])
  {
    if i == 0 {
      assert F[..offset] == F[..offset + 0];
    } else {
      var j := i - 1;
      TableConservation(F, I, offset, j);
      var t, o := TableAfter(F, I, offset, j), Outputs(F, I, offset, j);
      assert TableAfter(F, I, offset, i) == t[I[j] := F[offset + j]];
      assert Outputs(F, I, offset, i) == o + [t[I[j]]];
      assert F[..offset + i] == F[..offset + j] + [F[offset + j]];
      ConservationStep(t, o, F[..offset + j], I[j], F[offset + j]);
    }
  }

  /** One step of the conservation proof: the table `t` gives its entry in
      slot `k` to the outputs `o` and takes the next draw `v`. */
  lemma ConservationStep(t: seq<real>, o: seq<real>, d: seq<real>, k: nat, v: real)
    requires k < |t| && multiset(t) + multiset(o) == multiset(d)
    ensures multiset(t[k := v]) + multiset(o + [t[k]]) == multiset(d + [v])
  {
    MultisetOfUpdate(t, k, v);
    calc {
      multiset(t[k := v]) + multiset(o + [t[k]]);
      multiset(t[k := v]) + (multiset(o) + multiset{t[k]});
      (multiset(t[k := v]) + multiset{t[k]}) + multiset(o);
      (multiset(t) + multiset{v}) + multiset(o);
      (multiset(t) + multiset(o)) + multiset{v};
      multiset(d + [v]);
    }
  }

  /** Overwriting one element of a sequence swaps one occurrence in its multiset. */
  lemma MultisetOfUpdate(s: seq<real>, k: nat, v: real)
    requires k < |s|
    ensures multiset(s[k := v]) + multiset{s[k]} == multiset(s) + multiset{v}
  {
    assert s == s[..k] + [s[k]] + s[k + 1..];
    assert s[k := v] == s[..k] + [v] + s[k + 1..];
  }

  /** After `i` steps every slot of the table holds one of the first
      `offset + i` draws of the first stream. */
  lemma TableHoldsDraws(F: seq<real>, I: seq<int>, offset: nat, i: nat)
    requires Admissible(F, I, offset) && i <= |I|
    ensures forall k :: 0 <= k < offset ==> TableAfter(F, I, offset, i)[k] in F[..offset + i]
  {
    var t := TableAfter(F, I, offset, i);
    TableConservation(F, I, offset, i);
    forall k | 0 <= k < offset
      ensures t[k] in F[..offset + i]
    {
      assert t[k] in multiset(t);
      assert t[k] in multiset(F[..offset + i]);
    }
  }

  /** Output `i` is one of the draws of the first stream made before it,
      `F[..offset + i]`. */
  lemma OutputsAreDraws(F: seq<real>, I: seq<int>, offset: nat)
    requires Admissible(F, I, offset)
    ensures forall i :: 0 <= i < |I| ==> Combine(F, I, offset)[i] in F[..offset + i]
  {
    forall i | 0 <= i < |I|
      ensures Combine(F, I, offset)[i] in F[..offset + i]
    {
      TableHoldsDraws(F, I, offset, i);
      OutputAt(F, I, offset, |I|, i);
    }
  }

  /** When the first stream is constant, so is the combined sequence,
      whatever slots the second stream selects. */
  lemma ConstantFirstStream(F: seq<real>, I: seq<int>, offset: nat, c: real)
    requires Admissible(F, I, offset)
    requires forall j :: 0 <= j < |F| ==> F[j] == c
    ensures forall i :: 0 <= i < |I| ==> Combine(F, I, offset)[i] == c
  {
    OutputsAreDraws(F, I, offset);
    forall i | 0 <= i < |I|
      ensures Combine(F, I, offset)[i] == c
    {
      var drawn := F[..offset + i];
      assert Combine(F, I, offset)[i] in drawn;
      var j :| 0 <= j < |drawn| && drawn[j] == Combine(F, I, offset)[i];
      assert F[j] == drawn[j];
    }
  }

  /** Combining values of [0,1) yields values of [0,1). */
  lemma CombineInUnitInterval(F: seq<real>, I: seq<int>, offset: nat)
    requires Admissible(F, I, offset) && InUnitInterval(F)
    ensures InUnitInterval(Combine(F, I, offset))
  {
    OutputsAreDraws(F, I, offset);
    forall i | 0 <= i < |I|
      ensures 0.0 <= Combine(F, I, offset)[i] < 1.0
    {
      var drawn := F[..offset + i];
      assert Combine(F, I, offset)[i] in drawn;
      var j :| 0 <= j < |drawn| && drawn[j] == Combine(F, I, offset)[i];
      assert F[j] == drawn[j];
    }
  }

  /** The stream position of the second generator's first draw: right after
      the first generator's draws when the two are the same generator. */
  function SecondStart(same: bool, firstDrawn: nat, secondDrawn: nat, offset: nat, num: nat): nat {
    if same then firstDrawn + num + offset else secondDrawn
  }

  /** Draws the next `n` values of `g` into a new array, as the two loops
      that fill `firstSequence` and `secondSequence` do. */
  method Generate(g: Prng, n: nat) returns (a: array<real>)
    modifies g`drawn
    ensures fresh(a) && a.Length == n
    ensures g.drawn == old(g.drawn) + n
    ensures a[..] == Draws(g.stream, old(g.drawn), n)
  {
    a := new real[n];
    ghost var start := g.drawn;
    for i := 0 to n
      invariant g.drawn == start + i
      invariant forall k :: 0 <= k < i ==> a[k] == g.stream(start + k)
    {
      a[i] := g.Next();
    }
    assert a[..] == Draws(g.stream, start, n);
  }

  /** `methodMacLarenMarsaglie`: draws `num + offset` values from `first`,
      then `num` values from `second` (the same generator when the two are
      one object), and returns their MacLaren-Marsaglia combination. */
  method MacLarenMarsaglia(first: Prng, second: Prng, offset: nat, num: nat) returns (result: array<real>)
    requires second.Valid()
    requires 0 < offset || num == 0
    modifies first`drawn, second`drawn
    ensures fresh(result) && result.Length == num
    ensures first != second ==> first.drawn == old(first.drawn) + num + offset
    ensures first != second ==> second.drawn == old(second.drawn) + num
    ensures first == second ==> first.drawn == old(first.drawn) + num + offset + num
    ensures InUnitInterval(Draws(second.stream, SecondStart(first == second, old(first.drawn), old(second.drawn), offset, num), num))
    ensures result[..] == Combine(Draws(first.stream, old(first.drawn), num + offset),
                                  Slots(Draws(second.stream, SecondStart(first == second, old(first.drawn), old(second.drawn), offset, num), num), offset),
                                  offset)
  {
    ghost var firstStart, secondOld := first.drawn, second.drawn;
    var firstSequence := Generate(first, num + offset);
    ghost var F := firstSequence[..];
    ghost var secondStart := second.drawn;
    assert secondStart == SecondStart(first == second, firstStart, secondOld, offset, num);
    var secondSequence := Generate(second, num);
    ghost var S := secondSequence[..];
    assert InUnitInterval(S) by {
      forall j | 0 <= j < num ensures 0.0 <= S[j] < 1.0 {
        assert S[j] == second.stream(secondStart + j);
      }
    }
    result := Shuffle(firstSequence, secondSequence, offset, num);
    assert result[..] == Combine(F, Slots(S, offset), offset);
  }

  /** The table phase of `methodMacLarenMarsaglie`: fills the lookup table
      from the first `offset` draws of the first stream, then for each value
      of the second stream emits the selected slot and refills it with the
      next draw. */
  method Shuffle(firstSequence: array<real>, secondSequence: array<real>, offset: nat, num: nat)
    returns (result: array<real>)
    requires firstSequence.Length == num + offset && secondSequence.Length == num
    requires InUnitInterval(secondSequence[..]) && (0 < offset || num == 0)
    ensures fresh(result)
    ensures result[..] == Combine(firstSequence[..], Slots(secondSequence[..], offset), offset)
  {
    ghost var F, I := firstSequence[..], Slots(secondSequence[..], offset);
    var lookupTable := new real[offset];
    result := new real[num];
    for i := 0 to offset
      invariant forall k :: 0 <= k < i ==> lookupTable[k] == F[k]
    {
      lookupTable[i] := firstSequence[i];
    }
    assert lookupTable[..] == F[..offset];

    var index: int;
    for i := 0 to num
      invariant lookupTable[..] == TableAfter(F, I, offset, i)
      invariant result[..i] == Outputs(F, I, offset, i)
    {
      CombineStep(F, I, offset, i);
      index := TableIndex(secondSequence[i], offset);
      result[i] := lookupTable[index];
      lookupTable[index] := firstSequence[i + offset];
      assert result[..i + 1] == result[..i] + [result[i]];
    }
    assert result[..] == result[..num];
  }

  /** Two generators with constant output: the first emits `c`, the second
      `u`. The combined sequence is `c` throughout, whatever `u` selects. */
  method CombineConstantStreams(c: real, u: real, offset: nat, num: nat) returns (result: array<real>)
    requires 0.0 <= u < 1.0 && 0 < offset
    ensures result.Length == num
    ensures forall i :: 0 <= i < num ==> result[i] == c
  {
    var first := new Prng(_ => c);
    var second := new Prng(_ => u);
    result := MacLarenMarsaglia(first, second, offset, num);
    ConstantFirstStream(Draws(first.stream, 0, num + offset), Slots(Draws(second.stream, 0, num), offset), offset, c);
  }
}
