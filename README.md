# ISM_Lab1 in Dafny

A model of the numeric core of `ISM_Lab1.cpp`. This program produces
pseudo-random sequences and tests them for uniformity on [0,1). The model has
three parts:

- **The MacLaren-Marsaglia combiner** (`combiner.dfy`, module `Combiner`).
  It draws `num + offset` values from a first generator and `num` values from
  a second one. It fills a lookup table of `offset` slots from the first
  stream. For each value `u` of the second stream, it emits the slot
  `(int)(u * offset)` and refills that slot with the next unused draw of the
  first stream. `MacLarenMarsaglia` and `Shuffle` are methods over arrays,
  proved against the specification functions `TableAfter`, `Outputs` and
  `Combine`. The lemmas prove that every table slot and every output is an
  earlier draw of the first stream, and that no draw of the first stream is
  lost or duplicated.
- **The generator capability** (`generators.dfy`, module `Generators`).
  The concrete multiplicative generator is not part of this model. A
  generator is an object `Prng` with a fixed output stream (`nat -> real`)
  and a mutable count of draws. Its invariant `Valid()` says that every
  value lies in [0,1). `Next` returns the value at the current position and
  advances the position.
- **The statistical tests**:
  - `kolmogorov.dfy`: the Kolmogorov distance, `max |(i+1)/num - x_i|`, and
    the quantile verdict.
  - `frequencies.dfy`: the single-pass frequency binner, modelled as
    written.
  - `pearson.dfy`: the Pearson chi-square sum and its verdict
    `hi < quantile`.

Values are Dafny `real`s. The model has no IEEE rounding. The C++
`(int)` cast is truncation toward zero.

The binner follows the code, not an ideal histogram:

- the cell width is `(rightBorder - leftBorder) / (cellNum + 1)`;
- the first border is one width, whatever `leftBorder` is;
- a value at or above the current border advances the cursor, and that value
  is not counted;
- once the cursor is on the last cell, values at or above its border are
  dropped.

An idealised histogram would put these values in the last cell. The code
(ISM_Lab1.cpp:72-80) drops them, and the model follows the code.

With an empty sample, the expected count of the Pearson test is `0.0`. A
zero count then gives the term `0.0 / 0.0`, which is not-a-number, and any
other count gives positive infinity. The model represents these values with
`Pearson.Statistic.NaN` and `Pearson.Statistic.Infinite`, and adds them as
floating-point addition does. The binner leaves every count of an empty
sample at zero, so the test's statistic is then not-a-number and its verdict
is false.

## Model

| member | source | states |
|---|---|---|
| `Generators.Prng.Next` | ISM_Lab1.cpp:116 | returns the value at the generator's current position and advances the position by one; a valid generator returns a value in [0,1) |
| `Generators.Draws` | ISM_Lab1.cpp:114-121 | the `n` values a generator emits from a given position, in order |
| `Combiner.Truncate` | ISM_Lab1.cpp:129 | the C++ `(int)` cast: the integer part of a non-negative value and the truncation toward zero of a negative one |
| `Combiner.TableIndex` | ISM_Lab1.cpp:129 | the slot `(int)(u * offset)`: the integer part of `u * offset`, rounded toward zero |
| `Combiner.TableIndexInRange` | ISM_Lab1.cpp:129-131 | a second-stream value in [0,1) selects a slot `0 <= index < offset`, so the table read and write are in bounds |
| `Combiner.Slots` | ISM_Lab1.cpp:129 | the slot selected by each second-stream value, each within the table |
| `Combiner.TableAfter` | ISM_Lab1.cpp:123-131 | the lookup table after `i` combining steps always has `offset` slots |
| `Combiner.Outputs` | ISM_Lab1.cpp:127-132 | the combining loop emits one value per step |
| `Combiner.Combine` | ISM_Lab1.cpp:127-132 | the combined sequence has one value per second-stream value, and the outputs plus the final table are exactly the draws of the first stream, as multisets |
| `Combiner.OutputAt` | ISM_Lab1.cpp:130 | output `i` is the table's slot `index` as it stood before step `i` refilled it |
| `Combiner.CombineStep` | ISM_Lab1.cpp:130-131 | step `i` changes exactly the selected slot, setting it to `F[offset + i]`; every other slot is unchanged, and the old value of the slot is emitted |
| `Combiner.TableConservation` | ISM_Lab1.cpp:123-132 | after `i` steps the table and the outputs together are exactly the first `offset + i` draws of the first stream, as multisets |
| `Combiner.TableHoldsDraws` | ISM_Lab1.cpp:123-131 | after `i` steps every table slot holds one of `F[0 .. offset + i)` |
| `Combiner.OutputsAreDraws` | ISM_Lab1.cpp:127-132 | output `i` is one of `F[0 .. offset + i)` |
| `Combiner.ConstantFirstStream` | ISM_Lab1.cpp:123-132 | if the first stream is constant `c`, every output is `c`, whatever slots the second stream selects |
| `Combiner.CombineInUnitInterval` | ISM_Lab1.cpp:127-132 | if the first stream lies in [0,1), so does the combined sequence |
| `Combiner.Generate` | ISM_Lab1.cpp:114-121 | fills a new array of length `n` with the generator's next `n` values, and advances the generator by exactly `n` draws |
| `Combiner.MacLarenMarsaglia` | ISM_Lab1.cpp:105-139 | returns `num` values, which are the combination of the first generator's next `num + offset` draws with the second generator's next `num` draws; it calls `first.Next` `num + offset` times and `second.Next` `num` times, and when the two are one object the second draws come after the first ones |
| `Combiner.Shuffle` | ISM_Lab1.cpp:123-132 | fills the table from the first `offset` draws, then emits and refills one selected slot per second-stream value; the result is `Combine` of the two buffers |
| `Combiner.CombineConstantStreams` | ISM_Lab1.cpp:105-139 | two constant generators, the first emitting `c`: the combined sequence is `c` in every position |
| `Frequencies.Bin` | ISM_Lab1.cpp:60-81 | the binner's state after any prefix of the sequence has `cellNum` counts, none negative, and a cursor on a cell with `curBorder == (resultIndex + 1) * step` |
| `Frequencies.CellWidth` | ISM_Lab1.cpp:61 | `cellNum + 1` cells of the returned width span exactly `[leftBorder, rightBorder)` |
| `Frequencies.BinStep` | ISM_Lab1.cpp:72-80 | one loop iteration keeps the number of cells, changes only the cursor's count, by one exactly when the value is below the border; it advances the cursor, and the border by one step, exactly when the value is at or above the border and the cursor is not on the last cell |
| `Frequencies.BinAppend` | ISM_Lab1.cpp:72-80 | one more value changes at most the cursor's count, by one exactly when the value is below the border; the cursor advances by one exactly when the value is at or above the border and the cursor is not on the last cell |
| `Frequencies.CursorMonotone` | ISM_Lab1.cpp:76-79 | the cursor never moves back |
| `Frequencies.CountTotals` | ISM_Lab1.cpp:70-81 | the counts plus the uncounted values (those that advanced the cursor or were dropped) add up to `num`; the number of uncounted values is at least the cursor's position; so the counts add up to at most `num` |
| `Frequencies.SumOfZeros` | ISM_Lab1.cpp:65-68 | the freshly zeroed count table adds up to zero |
| `Frequencies.CalcFrequencies` | ISM_Lab1.cpp:58-84 | returns a new array of `cellNum` counts equal to `Bin` on the first `num` values, with step `(rightBorder - leftBorder) / (cellNum + 1)` |
| `Kolmogorov.Abs` | ISM_Lab1.cpp:40 | the absolute value is non-negative and is `x` or `-x` |
| `Kolmogorov.Max` | ISM_Lab1.cpp:40 | `std::max` is an upper bound of both arguments and equals one of them |
| `Kolmogorov.Distance` | ISM_Lab1.cpp:35-43 | the distance is at least 0 and at least every `abs((i+1)/num - x_i)`; it is 0 on the empty sample, and otherwise it equals one of those terms, so it is their maximum |
| `Kolmogorov.Deviation` | ISM_Lab1.cpp:40 | the term `abs((i+1)/num - x)` is non-negative, and zero exactly when `x == (i+1)/num` |
| `Kolmogorov.Statistic` | ISM_Lab1.cpp:47 | `sqrt(num)` times the distance is non-negative, and zero when the distance is zero |
| `Kolmogorov.UniformGridDistance` | ISM_Lab1.cpp:37-42 | the grid `x_i == (i+1)/num` is at distance 0 |
| `Kolmogorov.CalcKolmogorovDistance` | ISM_Lab1.cpp:35-43 | the accumulator loop returns `Distance` of the first `num` values |
| `Kolmogorov.CheckKolmogorovQuantile` | ISM_Lab1.cpp:45-50 | the statistic is `sqrt(num)` times the distance, and the test passes exactly when the statistic is below the quantile |
| `Kolmogorov.UniformGridPasses` | ISM_Lab1.cpp:45-49 | the uniform grid passes the test for every positive quantile |
| `Pearson.Plus` | ISM_Lab1.cpp:94 | the floating-point `hi +=` on the values that arise: not-a-number when either side is, otherwise infinity when either side is, otherwise the sum of the numbers |
| `Pearson.Term` | ISM_Lab1.cpp:94 | one term `pow(count - expected, 2.0) / expected`: a non-negative number for a positive expected count; for a zero expected count, not-a-number when the count is zero and infinity otherwise |
| `Pearson.ZeroExpectedSum` | ISM_Lab1.cpp:90-95 | the sum against a zero expected count: not-a-number exactly when some count is zero, infinity exactly when the counts are non-empty and none is zero, and `0.0` for no counts |
| `Pearson.PearsonStatistic` | ISM_Lab1.cpp:88-95 | the statistic is a non-negative number when the sample is non-empty; for an empty sample with at least one cell it is not a number, and it is not-a-number exactly when some count is zero |
| `Pearson.ChiSquare` | ISM_Lab1.cpp:92-95 | the chi-square sum of `(count - expected)^2 / expected` over the counts is never negative when the expected count is positive |
| `Pearson.Below` | ISM_Lab1.cpp:101 | the comparison `hi < quantile`: the comparison of the values for a number; false for infinity and for not-a-number |
| `Pearson.SumChiSquare` | ISM_Lab1.cpp:89-95 | the accumulator loop over the counts returns `PearsonStatistic` of them: the chi-square sum against `num / cellNum` for any counts, with the floating-point results of a zero expected count when `num` is zero |
| `Pearson.TermSign` | ISM_Lab1.cpp:94 | one term `(count - expected)^2 / expected` is non-negative, and it is zero exactly when the count is the expected one |
| `Pearson.ChiSquareZero` | ISM_Lab1.cpp:89-95 | the chi-square sum is zero exactly when every count equals `num / cellNum` |
| `Pearson.ExactCountsPass` | ISM_Lab1.cpp:86-101 | counts that all equal `num / cellNum` give the statistic 0, which passes for every positive quantile |
| `Pearson.CheckPearson` | ISM_Lab1.cpp:86-102 | the statistic is the chi-square sum of the binner's counts over [0,1) against `num / cellNum`, and it is not-a-number for an empty sample, whose counts are all zero; the test passes exactly when the statistic is a number below the quantile |

## Left out

- `main` (ISM_Lab1.cpp:141-282) is left out. It is console, file and gnuplot pipe I/O plus orchestration.
- The `fprintf` calls in the two test verdicts (ISM_Lab1.cpp:48, 99) are left out. The statistic is returned to the caller instead.
- `calcKolmogorovDistribution` and `checkKolmogorovTestUniformSignificance` (ISM_Lab1.cpp:21-31, 52-55) are left out. They depend on `exp` and on a truncated floating-point series.
- `printBool` (ISM_Lab1.cpp:15-18) is left out. It is output formatting.
- `MultiplicativePRNG.h` is not part of this model. The concrete generator, its modulus arithmetic and its `reset` are not modelled. Any stream of values stands for a generator, and the combiner's range property assumes only `Valid()` of the second generator.
- The `PRNG` base class is modelled as the concrete class `Generators.Prng`. Its behaviour is fixed by a stream function rather than by an overridable `next`.
- Kolmogorov.CheckKolmogorovQuantile: `sqrt(num)` is not computed. The caller supplies it as `rootNum`, and the requires clause says that `rootNum` is the non-negative square root of `num`.
- IEEE double rounding, overflow of the C++ `int` sizes and counters, and the `int`-to-`double` conversions are not modelled. All arithmetic is exact `real` or unbounded `int`.
- Frequencies.CalcFrequencies: requires `cellNum > 0`. With `cellNum == 0`, the source increments `result[0]` of an empty array for the first value below the border, which is undefined behaviour.
- Pearson.CheckPearson: requires `cellNum > 0`, for the same reason, because it calls the binner.
- Combiner.MacLarenMarsaglia: requires `offset > 0` unless `num == 0`. With an empty table, the source reads and writes `lookupTable[0]` out of bounds.
- Combiner.MacLarenMarsaglia: requires the second generator to be valid. Because `(int)` truncates toward zero, a value `u` selects a slot outside the table when `u >= 1` or `u <= -1/offset`; values in `(-1/offset, 0)` select slot 0, but the model does not admit them.
- The three working buffers that the source frees with `delete[]` are not modelled. Memory management has no counterpart in Dafny.
- Negative sizes are not modelled: `num`, `offset` and `cellNum` are natural numbers. With a negative size the source behaves as follows: `new[]` throws `std::bad_array_new_length` in `calcFrequenciesEmperic` and `methodMacLarenMarsaglie` (ISM_Lab1.cpp:60, 109-112); `checkKolmogorovTestUniformQuantile` returns false because `sqrt` of a negative number is not-a-number (ISM_Lab1.cpp:47-49); `checkPearsonTestUniform` with a negative `num` gets `hi == num`, so it passes for every non-negative quantile (ISM_Lab1.cpp:90-94).
