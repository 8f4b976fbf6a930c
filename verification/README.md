# floret acquisition-order model

floret plans the order in which a tomography instrument collects its tilt
series. It starts from the continuous tilt angles and gives every angle a
fractional helix position. It then reorders the angles with one of three
schemes:

- the dose-symmetric scan sorts by distance from the reference angle, then
  shuffles repeatedly in batches of 1, 2, 4, …;
- the spiral scan takes every n-th angle, pass after pass;
- the swinging scan takes the spiral's stride series alternately from the
  first (forwards) and from the last (reversed), working inwards.

Finally it expands the ordered series over the beam shifts along the pillar
and flattens the result shift by shift, angle by angle, or angle by angle with
adjacent shifts skipped.

This project models that reordering core in Dafny, from
`src/floret/__init__.py`. Every scheme works on an index order, and the
pipeline applies that one order to the angles and to the positions together.
The proofs cover:

- every scheme returns a permutation of the indices;
- `shuffle_array` places each element at an exact slot;
- the dose-symmetric order is the unique stable sort by absolute deviation;
- the spiral scan is the stable sort by residue;
- the swinging scan reads the series from both ends;
- the final flattening puts each (shift, angle) cell at an exact slot, and
  different cells at different slots;
- for a given angle series, `generate_scan` fails exactly on the arguments
  the source rejects;
- on success, `generate_scan` makes every (position, angle) exposure exactly
  once;
- for the tests' series `arange(-90, 90, 4.5)`, the dose-symmetric scans with
  symmetry 1 to 5 acquire exactly the tests' vectors `b1` to `b5`, and
  `generate_scan` with symmetry 5 acquires `b5`.

## Files

| file | module | models |
|---|---|---|
| `arith.dfy` | `Arith` | powers of two, division facts, row-major index arithmetic |
| `seqs.dfy` | `Seqs` | `arange`, reversal, concatenation, stride slices `s[i::n]`, fancy indexing `xs[order]` |
| `shuffle.dfy` | `Shuffle` | `shuffle_array` |
| `stable_sort.dfy` | `StableSort` | the stable `sorted(..., key=abs(angle - zero))` |
| `schemes.dfy` | `Schemes` | the dose-symmetric, spiral and swinging scans |
| `positions.dfy` | `Positions` | `generate_initial_positions`, `generate_shifted_positions` |
| `layout.dfy` | `Layouts` | `generate_final_order` |
| `scan.dfy` | `Scan` | `generate_scan` with `get_stepnum` and its argument checks |
| `vectors.dfy` | `Vectors` | the worked examples of `tests/test_floret.py` |
| `test_vectors.dfy` | `TestVectors` | the 40-angle vectors `b1` to `b5` of `tests/test_floret.py` |
| `dose_vectors.dfy` | `DoseVectors` | the dose-symmetric scans of `arange(-90, 90, 4.5)` and their angle vectors |

## Modelling decisions

- **Angles are an input.** The floating-point construction of the tilt
  angles in `generate_initial_angles` is not modelled. `GenerateScan` takes
  the angles as a sequence. It models only the check that exactly one of
  `tilt_angle_step` and `num_tilt_angles` is set. The two `stepGiven` and
  `countGiven` flags say which ones were set.
- **Exact arithmetic.** Angles and positions are exact reals, and the helix
  fraction `i / nhelix` is the exact rational. All index arithmetic is on
  unbounded naturals, and nothing in the core can overflow.
- **Errors.** The leaf functions turn the source's `assert`s into `requires`
  clauses; those are the preconditions the source puts on its callers.
  `GenerateScan` returns a `Result`. For a given angle series, every failure
  the remaining arguments can cause becomes a `ScanError`, checked in the
  source's order.
- **Test vectors are exact.** The tests compare with `assert_allclose`. The
  angles of `arange(-90, 90, 4.5)` are multiples of 4.5, exact in binary
  floating point as in the reals, so the model states exact equality.
- **`order_by` follows the code.** Two values are meant: the command line
  accepts only `choices=["angle", "position"]`
  (`src/floret/command_line/__init__.py:105-109`), and the docstring of
  `generate_final_order` names only those two (`src/floret/__init__.py:269-270`).
  The function itself compares `order_by` with `"angle"` only, at
  `src/floret/__init__.py:287`. Called directly with any other value, not only
  `"position"`, it flattens shift by shift and raises no error. The model
  follows the function (`Layouts.ArrangementOf`).
- **The default step count follows the code.** `get_stepnum` replaces only a
  step number of `0`, and only when `symmetry > 0`. It does this whatever the
  mode. `generate_scan`'s own default step number is `1`.

## Model

| member | source | states |
|---|---|---|
| `Shuffle.ShuffleArray` | src/floret/__init__.py:71-109 | For `0 < n <= len/2`: the result is a permutation of the input, of the same length. |
| `Shuffle.ShuffleSlots` | src/floret/__init__.py:94-105 | Front-half element `j` lands at `FrontSlot(j)`. Back-half element `len-1-j` (the reversed back half) lands at `BackSlot(j)`. |
| `Shuffle.BatchSizes` | src/floret/__init__.py:99-100 | `array_split(s, arange(n, len, n))` gives `ceil(len/n)` batches (one for an empty input). Every batch but the last has `n` elements; the last has between 1 and `n`. |
| `Shuffle.ConcatBatches` | src/floret/__init__.py:99-100 | Splitting into batches of `n` loses and adds nothing: the batches concatenate back to the input. |
| `Shuffle.ZipLongestOneSided` | src/floret/__init__.py:103-105 | Once one side of `zip_longest` is exhausted, the remaining batches of the other side follow in order. |
| `Shuffle.WeaveStep` | src/floret/__init__.py:99-105 | While both sides have more than one batch, `zip_longest` emits a full batch of the front, then a full batch of the back, then the weave of the rest. |
| `Shuffle.WeaveBackShort` | src/floret/__init__.py:99-105 | When the back side is a single batch, the output is the first front batch, the back side, then the rest of the front. |
| `Shuffle.WeaveFrontShort` | src/floret/__init__.py:99-105 | When the front side is a single batch, the output is the front side followed by the whole back side. |
| `Shuffle.WeaveLength` | src/floret/__init__.py:103-106 | The interleaving emits as many elements as both sides hold. |
| `Shuffle.WeaveMultiset` | src/floret/__init__.py:103-106 | The interleaving keeps every element of both halves, so the output length equals the input length (the assertion at line 106). |
| `Shuffle.WeaveFront` | src/floret/__init__.py:99-105 | Element `j` of the first side lands after its own `j/n` earlier batches and as many partner elements as fit in them. |
| `Shuffle.WeaveBack` | src/floret/__init__.py:99-105 | Element `j` of the second side lands after its own earlier batches and the first side's batches up to and including the matching one. |
| `StableSort.SortByKey` | src/floret/__init__.py:141 | Sorting an index sequence by key gives a permutation of it, ordered by key with ties by increasing index. For `arange(N)`, the only input at line 141, that is Python's stable input order. |
| `StableSort.OrderedUnique` | src/floret/__init__.py:141 | Two stably ordered arrangements of the same indices are equal, so the stable sort has a single answer. |
| `StableSort.DeviationOrder` | src/floret/__init__.py:141 | `sorted(arange(N), key=abs(angles[x]-zero))` is a permutation of `0..N-1`, nearest to zero first, equally distant angles by increasing index. |
| `StableSort.DeviationOrderCharacterized` | src/floret/__init__.py:141 | Any index order with those properties is exactly `DeviationOrder`. |
| `StableSort.Deviation` | src/floret/__init__.py:141 | The key `abs(angle - zero)` is non-negative and is one of `angle - zero` and `zero - angle`. |
| `Schemes.ShuffleRounds` | src/floret/__init__.py:144-145 | Repeated shuffle rounds with batches `1, 2, 4, ...` keep the length and the multiset of the order. |
| `Schemes.DoseSymmetricScan` | src/floret/__init__.py:112-148 | The result is a permutation of the indices. Symmetry `<= 0` gives the continuous order. Symmetry `1` gives the indices ordered by deviation from zero, with ties by index. |
| `Schemes.DoseSymmetricStep` | src/floret/__init__.py:139-145 | Symmetry `s >= 2` is symmetry `s-1` followed by one more shuffle with batch size `2^(s-2)`, which fits whenever symmetry `s` fits. |
| `Schemes.SpiralScan` | src/floret/__init__.py:151-172 | The result is a permutation of the indices. `n <= 1` gives the continuous order. |
| `Schemes.SpiralIsResidueSort` | src/floret/__init__.py:164-169 | For `n > 1` the spiral order is the stable sort of `0..N-1` by `i mod n`: residue classes in turn, each increasing. |
| `Schemes.StrideOfRange` | src/floret/__init__.py:169 | `arange(N)[off::n]` is increasing and holds only indices with residue `off`. |
| `Schemes.OrderedConcat` | src/floret/__init__.py:169 | Concatenating ordered series with consecutive keys gives an ordered sequence. |
| `Schemes.SwingingScan` | src/floret/__init__.py:175-207 | The result is a permutation of the indices. `n <= 1` gives the continuous order. |
| `Schemes.SwingSlotsBijective` | src/floret/__init__.py:189-193 | `flip_or_not` uses every series exactly once. Series `j` is reversed exactly when `2j >= n`. |
| `Schemes.FlipOrNot` | src/floret/__init__.py:189-193 | Slot `i` holds the elements of series `SlotSource(i)` (`i/2` for even `i`, `n-1-i/2` for odd `i`), no more and no fewer. |
| `Schemes.SwingSlotOfSeries` | src/floret/__init__.py:189-197 | Read from the series side: series `j` fills slot `SlotOf(j)`, forwards when `2j < n` and reversed otherwise. |
| `Schemes.SwingSlotsArePeel` | src/floret/__init__.py:201-204 | The slots read in order are the sweep from both ends: first series forwards, last series reversed, then the inner series the same way. |
| `Schemes.SwingPeelMultiset` | src/floret/__init__.py:201-204 | The sweep from both ends keeps every element of every series. |
| `Positions.InitialPositions` | src/floret/__init__.py:210-230 | Entry `k` is the helix fraction `(k mod nhelix)/nhelix`, which lies in `[0, 1)`. There are exactly `nangles` entries. |
| `Positions.BlocksFromEntries` | src/floret/__init__.py:224-229 | The blocks `range(min(N-j, nhelix))` for `j` in steps of `nhelix` list the fractions of indices `j..N-1` in order. |
| `Positions.ShiftRowsCells` | src/floret/__init__.py:254 | Row `r` of the stacked grid is the positions moved by `position_min + r`. |
| `Positions.TileCells` | src/floret/__init__.py:255 | Every row of the tiled angle grid is the angle row. |
| `Positions.ShiftedPositions` | src/floret/__init__.py:233-257 | Both grids are `(pmax-pmin) x N`. Position cell `(r, c)` is `positions[c] + pmin + r`. Every angle row is the input angles. |
| `Layouts.ArrangementOf` | src/floret/__init__.py:287-294 | Any `order_by` other than `"angle"` flattens shift by shift. `interleave_positions` matters only with `"angle"`, where it selects the skip-one-shift pass. |
| `Layouts.Layout` | src/floret/__init__.py:260-301 | The flattening has `rows*cols` entries and holds the grid's multiset of cells. |
| `Layouts.LayoutCells` | src/floret/__init__.py:287-298 | Cell `(shift r, angle c)` lands at `CellSlot`. That is `r*cols+c` shift by shift; `c*rows+r` angle by angle; and when interleaved, even shifts first (`c*ceil(rows/2)+r/2`), then odd shifts (`cols*ceil(rows/2)+c*floor(rows/2)+r/2`). |
| `Layouts.CellSlotInjective` | src/floret/__init__.py:287-298 | Different cells land at different output positions, so each arrangement is a bijection between cells and output positions. |
| `Layouts.TransposeIsStrides` | src/floret/__init__.py:288-289 | The transpose's rows are the column strides `flat[c::cols]` of the row-major flattening. |
| `Layouts.TransposeMultiset` | src/floret/__init__.py:288-289 | Transposing keeps every cell. |
| `Layouts.InterleaveMultiset` | src/floret/__init__.py:293-294 | The even-shift pass and the odd-shift pass together hold every cell. |
| `Layouts.InterleavedCell` | src/floret/__init__.py:293-294 | The interleaved flattening puts transposed cell `(c, r)` at the interleaved `CellSlot`. |
| `Layouts.ParityCounts` | src/floret/__init__.py:293 | `range(rows)[0::2]` has `ceil(rows/2)` entries and `[1::2]` has `floor(rows/2)`. Together they cover all rows. |
| `Layouts.LayoutZip` | src/floret/__init__.py:287-298 | Flattening the angle grid and the position grid by the same arrangement keeps each angle paired with its position. |
| `Layouts.ZipConcat` | src/floret/__init__.py:297-298 | Row-major flattening keeps cells of two same-shaped grids paired. |
| `Layouts.ZipEveryOther` | src/floret/__init__.py:293-294 | The skip-and-regroup pass keeps cells of two same-shaped grids paired. |
| `Scan.ParseMode` | src/floret/__init__.py:349 | The accepted modes are exactly "symmetric", "spiral" and "swinging", each mapped to its own scheme. |
| `Scan.StepNum` | src/floret/__init__.py:341-345 | A step number of 0 with positive symmetry becomes `floor(N / 2^(symmetry-1))`. Otherwise the given step number is kept. |
| `Scan.SchemeOrder` | src/floret/__init__.py:369-378 | Whichever scheme the mode selects, the order is a permutation of the indices. |
| `Scan.GenerateScan` | src/floret/__init__.py:304-395 | The call succeeds exactly when all argument checks pass and every shuffle batch fits. On success, positions and angles both have `(pmax-pmin)*N` entries. |
| `Seqs.Gather` | src/floret/__init__.py:381-382 | `xs[order]` has one entry per index, and entry `k` is `xs[order[k]]`. |
| `Seqs.GatherPermutation` | src/floret/__init__.py:381-382 | Reading an array through an index permutation keeps its multiset of elements. |
| `Scan.Pipeline` | src/floret/__init__.py:363-392 | The accepted pipeline produces `(pmax-pmin)*N` positions and as many angles. |
| `Scan.Order` | src/floret/__init__.py:366-378 | The scheme order for accepted arguments is a permutation of `0..N-1`. |
| `Scan.ScanErrors` | src/floret/__init__.py:348-351 | The checks fail in the source's order: symmetry, mode, nhelix, shift range, then angle spacing (lines 34-37), then the shuffle batch (line 93). Between the two, `NoAngles` rejects an empty series: the source cannot produce one, but the model takes the angles as an input and guards that domain itself. |
| `Scan.BatchTooLargeExactly` | src/floret/__init__.py:93 | In symmetric mode with valid arguments, the call fails exactly when the last batch `2^(symmetry-2)` exceeds `N // 2`. |
| `Scan.ScanCoversExposures` | src/floret/__init__.py:363-392 | Whatever the mode, symmetry and arrangement, the `(position, angle)` pairs are a rearrangement of all `(fraction(i) + shift, angle_i)` combinations: every exposure is made exactly once. |
| `Scan.RowsMultiset` | src/floret/__init__.py:297-298 | Grids whose rows hold the same cells flatten to the same multiset. |
| `Scan.ScanSlots` | src/floret/__init__.py:381-392 | The `c`-th angle of the scheme order at shift `r` is exposure `CellSlot(r, c)`. It is paired with position `fraction(order[c]) + pmin + r`. |
| `Scan.SingleShiftAngles` | src/floret/__init__.py:381-392 | With one beam shift, every arrangement acquires the angles in scheme order. |
| `Scan.SymmetryZeroIsContinuous` | src/floret/__init__.py:369-372 | Symmetric mode with symmetry 0 and one shift acquires the angles in their continuous order. |
| `Vectors.WeaveByOne` | src/floret/__init__.py:99-105 | With batch size 1 and a front side as long as the back side or one longer, the output alternates the two sides, front first. |
| `Vectors.ShuffleByOne` | src/floret/__init__.py:94-105 | For every length `>= 2`, odd or even, `shuffle_array(x, 1)` alternates `x[0], x[-1], x[1], x[-2], ...`. |
| `Vectors.ShuffleArangeEleven` | tests/test_floret.py:26-40 | `shuffle_array(arange(11), n)` for `n = 1..5` gives the five orders the tests expect. |
| `Vectors.SpiralTwo` | tests/test_floret.py:294-297 | `angles[spiral(angles, 2)]` is `angles[0::2] + angles[1::2]`. |
| `Vectors.SpiralFour` | tests/test_floret.py:299-302 | `angles[spiral(angles, 4)]` is `angles[0::4] + angles[1::4] + angles[2::4] + angles[3::4]`. |
| `Vectors.SwingingTwo` | tests/test_floret.py:312-315 | `angles[swinging(angles, 2)]` is `angles[0::2] + flip(angles[1::2])`. |
| `Vectors.SwingingFour` | tests/test_floret.py:317-322 | `angles[swinging(angles, 4)]` is `angles[0::4] + flip(angles[3::4]) + angles[1::4] + flip(angles[2::4])`. |
| `Vectors.HelixOfTwo` | tests/test_floret.py:329-330 | `generate_initial_positions(2, 10)` is `tile([0, 0.5], 5)`. |
| `Vectors.HelixOfOne` | tests/test_floret.py:326-327 | `generate_initial_positions(1, N)` is all zeros. |
| `Vectors.TwoShiftsOfOneHelix` | tests/test_floret.py:336-340 | Two shifts of a single helix give a row of zeros over a row of ones. |
| `Vectors.FinalOrderByAngle` | tests/test_floret.py:348-354 | Ordered by angle without interleaving, the two shifts alternate `0, 1, 0, 1, ...`. |
| `Vectors.FinalOrderByPosition` | tests/test_floret.py:355-360 | Ordered by position, all zeros of the first shift precede all ones of the second. |
| `Vectors.ScanSpiralFour` | tests/test_floret.py:413-415 | `generate_scan` in spiral mode with step 4 and one shift acquires the four stride series in turn. |
| `Vectors.ScanSwingingFour` | tests/test_floret.py:417-421 | `generate_scan` in swinging mode with step 4 and one shift sweeps forwards and backwards. |
| `StableSort.OrderedFromAdjacent` | src/floret/__init__.py:141 | An index sequence in which every entry precedes the next by key, ties by index, is stably ordered throughout. |
| `Scan.SymmetricScanAngles` | src/floret/__init__.py:369-382 | In symmetric mode with one shift, the angles acquired are those of the dose-symmetric order about the middle angle `angles[N // 2]`. |
| `Scan.DefaultScan` | src/floret/__init__.py:304-318 | With exactly one of `tilt_angle_step` and `num_tilt_angles` set and every other defaulted argument at its default, a series is accepted exactly when it is non-empty, and its angles are then acquired in their continuous order. |
| `DoseVectors.EvenSeriesOrder` | src/floret/__init__.py:140-141 | For `2c` evenly spaced angles whose middle angle `angles[c]` is the zero, the sort by deviation is the centre-out order `c, c-1, c+1, c-2, ..., 2c-1, 0`. Ties go to the lower index, which is the angle below the zero. |
| `DoseVectors.GatherShuffle` | src/floret/__init__.py:71-109 | Shuffling an index order and then reading the angles through it equals reading first and shuffling the angles. So `angles[order]` goes through the same rounds as `order`. |
| `DoseVectors.DoseSymmetricAnglesStep` | src/floret/__init__.py:139-145 | For any series and zero, the angles of the scan with symmetry `s >= 2` are those of symmetry `s-1` shuffled in batches of `2^(s-2)`. |
| `DoseVectors.SeriesVectorB1` | tests/test_floret.py:51-96 | `angles[generate_dose_symmetric_scan(arange(-90, 90, 4.5), 1)]` is `b1`, entry by entry. |
| `DoseVectors.SeriesVectorB2` | tests/test_floret.py:98-143 | With symmetry 2 it is `b2`. |
| `DoseVectors.SeriesVectorB3` | tests/test_floret.py:145-190 | With symmetry 3 it is `b3`. |
| `DoseVectors.SeriesVectorB4` | tests/test_floret.py:192-237 | With symmetry 4 it is `b4`. |
| `DoseVectors.SeriesVectorB5` | tests/test_floret.py:239-284 | With symmetry 5 it is `b5`. |
| `DoseVectors.GenerateScanVectors` | tests/test_floret.py:363-411 | Take the angles of `generate_scan(0, -90, 90, 4.5)` to be `arange(-90, 90, 4.5)`, as line 365 checks. With `symmetry=5` the call is accepted and acquires `b5`. This holds for any helix count and output arrangement, as long as there is one shift. |

## Left out

- `generate_initial_angles` (`src/floret/__init__.py:5-68`) builds the angles
  with floating-point `arange`, `floor` and `ceil`. It is not modelled, since
  the angles are an input. Its range assertions (lines 27-30, 60-65) are left
  out with it. Only the spacing check at lines 34-37 is kept.
- `generate_initial_angles` divides by `num_tilt_angles` at
  `src/floret/__init__.py:55`, so `num_tilt_angles=0` raises
  `ZeroDivisionError`. Since the angles are an input, this failure has no
  error kind; the error kinds cover the failures for a given angle series.
- The `RuntimeError("Programmer Error")` branches (lines 57 and 378) cannot be
  reached once the earlier checks pass, so they have no error kind.
- Floating-point rounding of `i / nhelix`, `positions + p` and
  `abs(angle - zero)` is not modelled: the model computes exactly. A float tie
  in the deviation key that exact arithmetic would break, or the reverse, is
  therefore not captured.
- The command-line front end and its text output are outside the core.
