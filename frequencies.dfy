/** The empirical frequency binner used by the Pearson test. It walks the
    sequence once with a cursor on the current cell and the cell's upper
    border. The model follows the code exactly:
    - the cell width divides the range by `cellNum + 1`;
    - the first border is one width, whatever the left border is;
    - a value at or above the border advances the cursor by one cell and is
      itself not counted;
    - once the cursor is on the last cell, values at or above its border are
      dropped. */
module Frequencies {

  /** The binner's state: the counts so far, the cursor `resultIndex` and
      the running border `curBorder`. */
  datatype Binning = Binning(counts: seq<int>, cursor: int, border: real)

  /** The cell width: the range divided by one more than the number of cells. */
  function CellWidth(cellNum: nat, leftBorder: real, rightBorder: real): (w: real)
    ensures (cellNum + 1) as real * w == rightBorder - leftBorder
  {
    (rightBorder - leftBorder) / (cellNum + 1) as real
  }

  /** The binner's loop invariant: one count per cell, the cursor on a cell,
      and the border one width above the cursor's cell. */
  predicate Consistent(b: Binning, cellNum: nat, step: real) {
    && |b.counts| == cellNum
    && 0 <= b.cursor < cellNum
    && b.border == (b.cursor + 1) as real * step
    && (forall k :: 0 <= k < cellNum ==> 0 <= b.counts[k])
  }

  /** One iteration of the binning loop on the value `x`. */
  function BinStep(b: Binning, x: real, step: real): (b': Binning)
    requires 0 <= b.cursor < |b.counts|
    ensures |b'.counts| == |b.counts|
    ensures forall k :: 0 <= k < |b.counts| && k != b.cursor ==> b'.counts[k] == b.counts[k]
    ensures b'.counts[b.cursor] == b.counts[b.cursor] + (if x < b.border then 1 else 0)
    ensures b'.cursor == (if x < b.border || b.cursor == |b.counts| - 1 then b.cursor else b.cursor + 1)
    ensures b'.border == (if b'.cursor == b.cursor then b.border else b.border + step)
  {
    if x < b.border then b.(counts := b.counts[b.cursor := b.counts[b.cursor] + 1])
    else if b.cursor < |b.counts| - 1 then b.(cursor := b.cursor + 1, border := b.border + step)
    else b
  }

  /** The state after binning all of `xs`, starting from zero counts, the
      cursor on the first cell and the border at one width. */
  function Bin(xs: seq<real>, cellNum: nat, step: real): (b: Binning)
    requires 0 < cellNum
    ensures Consistent(b, cellNum, step)
    decreases |xs|
  {
    if xs == [] then Binning(seq(cellNum, _ => 0), 0, step)
    else
      var prev := Bin(xs[..|xs| - 1], cellNum, step);
      assert (prev.cursor + 1 + 1) as real * step == (prev.cursor + 1) as real * step + step;
      BinStep(prev, xs[|xs| - 1], step)
  }

  /** The number of values of `xs` that no count received: those that
      advanced the cursor and those dropped past the last border. */
  function Uncounted(xs: seq<real>, cellNum: nat, step: real): (n: nat)
    requires 0 < cellNum
    decreases |xs|
  {
    if xs == [] then 0
    else
      var prefix := xs[..|xs| - 1];
      Uncounted(prefix, cellNum, step) + (if xs[|xs| - 1] < Bin(prefix, cellNum, step).border then 0 else 1)
  }

  function Sum(s: seq<int>): int {
    if s == [] then 0 else s[0] + Sum(s[1..])
  }

  lemma {:induction false} SumOfIncrement(s: seq<int>, k: nat)
    requires k < |s|
    ensures Sum(s[k := s[k] + 1]) == Sum(s) + 1
  {
    if k > 0 {
      SumOfIncrement(s[1..], k - 1);
      assert s[k := s[k] + 1][1..] == s[1..][k - 1 := s[1..][k - 1] + 1];
    }
  }

  lemma {:induction false} SumOfZeros(n: nat)
    ensures Sum(seq(n, _ => 0)) == 0
  {
    if n > 0 {
      SumOfZeros(n - 1);
      assert seq(n, _ => 0)[1..] == seq(n - 1, _ => 0);
    }
  }

  /** Every value is accounted for: the counts plus the uncounted values
      add up to the length of the sequence. Each advance of the cursor costs
      one uncounted value, so the counts total at most `|xs|` minus the
      cursor. */
  lemma {:induction false} CountTotals(xs: seq<real>, cellNum: nat, step: real)
    requires 0 < cellNum
    ensures Sum(Bin(xs, cellNum, step).counts) + Uncounted(xs, cellNum, step) == |xs|
    ensures Bin(xs, cellNum, step).cursor <= Uncounted(xs, cellNum, step)
    ensures Sum(Bin(xs, cellNum, step).counts) <= |xs| - Bin(xs, cellNum, step).cursor
  {
    if xs == [] {
      SumOfZeros(cellNum);
    } else {
      var prefix := xs[..|xs| - 1];
      CountTotals(prefix, cellNum, step);
      var b := Bin(prefix, cellNum, step);
      if xs[|xs| - 1] < b.border {
        SumOfIncrement(b.counts, b.cursor);
      }
    }
  }

  /** The effect of one more value `x`: only the cursor's cell may change,
      by one when `x` is below the border and not at all otherwise; the
      cursor stays or moves one cell on, and moves exactly when `x` is at or
      above the border and the cursor is not on the last cell. */
  lemma BinAppend(xs: seq<real>, x: real, cellNum: nat, step: real)
    requires 0 < cellNum
    ensures var b, b' := Bin(xs, cellNum, step), Bin(xs + [x], cellNum, step);
            && (forall k :: 0 <= k < cellNum && k != b.cursor ==> b'.counts[k] == b.counts[k])
            && b'.counts[b.cursor] == b.counts[b.cursor] + (if x < b.border then 1 else 0)
            && b'.cursor == (if x < b.border || b.cursor == cellNum - 1 then b.cursor else b.cursor + 1)
  {
    assert (xs + [x])[..|xs + [x]| - 1] == xs;
  }

  /** The cursor never moves back. */
  lemma {:induction false} CursorMonotone(xs: seq<real>, i: nat, j: nat, cellNum: nat, step: real)
    requires 0 < cellNum && i <= j <= |xs|
    ensures Bin(xs[..i], cellNum, step).cursor <= Bin(xs[..j], cellNum, step).cursor
  {
    if i < j {
      CursorMonotone(xs, i, j - 1, cellNum, step);
      assert xs[..j][..j - 1] == xs[..j - 1];
    }
  }

  /** `calcFrequenciesEmperic`: the counts of the first `num` values of
      `sequence` over `cellNum` cells of `[leftBorder, rightBorder)`. */
  method CalcFrequencies(sequence: array<real>, num: nat, cellNum: nat, leftBorder: real, rightBorder: real)
    returns (result: array<int>)
    requires num <= sequence.Length && 0 < cellNum
    ensures fresh(result) && result.Length == cellNum
    ensures result[..] == Bin(sequence[..num], cellNum, CellWidth(cellNum, leftBorder, rightBorder)).counts
  {
    result := new int[cellNum];
    var step := (rightBorder - leftBorder) / (cellNum + 1) as real;
    var curBorder := step;
    var resultIndex := 0;

    for i := 0 to cellNum
      invariant result[..i] == seq(i, _ => 0)
    {
      result[i] := 0;
    }

    for i := 0 to num
      invariant 0 <= resultIndex <= cellNum - 1
      // with Bin's own invariant, curBorder == (resultIndex + 1) * step
      invariant Bin(sequence[..i], cellNum, step) == Binning(result[..], resultIndex, curBorder)
    {
      assert sequence[..i + 1][..i] == sequence[..i];
      ghost var next := BinStep(Binning(result[..], resultIndex, curBorder), sequence[i], step);
      assert Bin(sequence[..i + 1], cellNum, step) == next;
      if sequence[i] < curBorder {
        result[resultIndex] := result[resultIndex] + 1;
      } else if resultIndex < cellNum - 1 {
        resultIndex := resultIndex + 1;
        curBorder := curBorder + step;
      }
      assert Binning(result[..], resultIndex, curBorder) == next;
    }
  }
}
