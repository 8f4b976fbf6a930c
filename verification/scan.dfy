/** `generate_scan`: the whole reordering pipeline. It validates its
    arguments, gives every angle its helix position, reorders angles and
    positions by the chosen scheme, expands them over the beam shifts and
    flattens the result. The continuous tilt angles are an input here: their
    floating-point construction is not modelled, only the check that exactly
    one of the angle step and the angle count is given. */
module Scan {
  import opened Arith
  import opened Seqs
  import opened Schemes
  import opened Positions
  import opened Layouts

  /** Each assertion or `RuntimeError` of the pipeline that a caller can trigger. */
  datatype ScanError =
    | NegativeSymmetry          // symmetry < 0
    | UnknownMode               // mode not "symmetric", "spiral" or "swinging"
    | NoHelix                   // nhelix < 1
    | EmptyPositionRange        // position_max - position_min < 1
    | NoAngleSpacing            // neither the angle step nor the angle count is set
    | ConflictingAngleSpacing   // both are set
    | NoAngles                  // the tilt series is empty
    | BatchTooLarge             // a shuffle round's batch exceeds half the series

  datatype Result<T> = Ok(value: T) | Err(error: ScanError)

  datatype Mode = Symmetric | Spiral | Swinging

  /** The mode names `generate_scan` accepts. */
  function ParseMode(mode: string): (r: Result<Mode>)
    ensures r.Ok? <==> mode in {"symmetric", "spiral", "swinging"}
    ensures r.Ok? ==> (r.value == Symmetric <==> mode == "symmetric")
    ensures r.Ok? ==> (r.value == Spiral <==> mode == "spiral")
  {
    if mode == "symmetric" then Ok(Symmetric)
    else if mode == "spiral" then Ok(Spiral)
    else if mode == "swinging" then Ok(Swinging)
    else Err(UnknownMode)
  }

  /** The arguments of `generate_scan` other than the angles. `stepGiven` and
      `countGiven` say whether `tilt_angle_step` and `num_tilt_angles` were set. */
  datatype Params = Params(
    stepGiven: bool,
    countGiven: bool,
    mode: string,
    symmetry: int,
    stepnum: int,
    nhelix: int,
    pmin: int,
    pmax: int,
    orderBy: string,
    interleave: bool)

  /** The acquisition: one position and one angle per exposure, in order. */
  datatype Acquisition = Acquisition(positions: seq<real>, angles: seq<real>)

  /** `get_stepnum`: a step number of 0 with a positive symmetry defaults to
      `N // 2^(symmetry - 1)`; otherwise the given step number is kept. */
  function StepNum(count: nat, symmetry: int, stepnum: int): (r: int)
    ensures stepnum != 0 || symmetry <= 0 ==> r == stepnum
    ensures stepnum == 0 && symmetry > 0 ==>
              r >= 0 && r * Pow2(symmetry - 1) <= count < (r + 1) * Pow2(symmetry - 1)
  {
    if stepnum == 0 && symmetry > 0 then
      var d := Pow2(symmetry - 1);
      FloorDivBounds(count, d);
      count / d
    else
      stepnum
  }

  /** `count // d` is the largest multiple count of `d` not above `count`. */
  lemma FloorDivBounds(count: nat, d: nat)
    requires d > 0
    ensures count / d >= 0
    ensures (count / d) * d <= count < (count / d + 1) * d
  {
    assert count == (count / d) * d + count % d;
    assert (count / d + 1) * d == (count / d) * d + d;
  }

  /** The index order the chosen scheme produces. For the dose-symmetric scan
      the reference angle is the middle entry `angles[N // 2]`. */
  function SchemeOrder(mode: Mode, angles: seq<real>, symmetry: int, stepnum: int): (order: seq<nat>)
    requires |angles| > 0
    requires mode == Symmetric ==> RoundsFit(RoundCount(symmetry), |angles|)
    ensures IsIndexPermutation(order, |angles|)
  {
    match mode
    case Symmetric => DoseSymmetricScan(angles, symmetry, angles[|angles| / 2])
    case Spiral => SpiralScan(angles, stepnum)
    case Swinging => SwingingScan(angles, stepnum)
  }

  /** Everything `generate_scan` demands before it starts reordering. */
  predicate ArgumentsValid(angles: seq<real>, p: Params) {
    p.symmetry >= 0 && ParseMode(p.mode).Ok? && p.nhelix >= 1 && p.pmax - p.pmin >= 1
    && p.stepGiven != p.countGiven && |angles| > 0
  }

  /** Whether every shuffle round of the chosen scheme accepts its batch size. */
  predicate BatchesFit(angles: seq<real>, p: Params)
    requires ParseMode(p.mode).Ok?
  {
    ParseMode(p.mode).value == Symmetric ==> RoundsFit(RoundCount(p.symmetry), |angles|)
  }

  /** `generate_scan`, returning `(positions, angles)`. */
  function GenerateScan(angles: seq<real>, p: Params): (r: Result<Acquisition>)
    ensures r.Ok? <==> ArgumentsValid(angles, p) && BatchesFit(angles, p)
    ensures r.Ok? ==>
              |r.value.positions| == |r.value.angles| == (p.pmax - p.pmin) * |angles|
  {
    if p.symmetry < 0 then Err(NegativeSymmetry)
    else if ParseMode(p.mode).Err? then Err(UnknownMode)
    else if p.nhelix < 1 then Err(NoHelix)
    else if p.pmax - p.pmin < 1 then Err(EmptyPositionRange)
    else if !p.stepGiven && !p.countGiven then Err(NoAngleSpacing)
    else if p.stepGiven && p.countGiven then Err(ConflictingAngleSpacing)
    else if |angles| == 0 then Err(NoAngles)
    else if !BatchesFit(angles, p) then Err(BatchTooLarge)
    else
      Ok(Pipeline(angles, p))
  }

  /** An accepted call runs the pipeline. */
  lemma ScanIsPipeline(angles: seq<real>, p: Params)
    requires GenerateScan(angles, p).Ok?
    ensures ArgumentsValid(angles, p) && BatchesFit(angles, p)
    ensures GenerateScan(angles, p) == Ok(Pipeline(angles, p))
  {
  }

  /** The reordering once the arguments are accepted: order, gather, shift and flatten. */
  function Pipeline(angles: seq<real>, p: Params): (a: Acquisition)
    requires ArgumentsValid(angles, p) && BatchesFit(angles, p)
    ensures |a.positions| == |a.angles| == (p.pmax - p.pmin) * |angles|
  {
    var n := |angles|;
    var order := Order(angles, p);
    PermutationInRange(order, n);
    var positions := InitialPositions(p.nhelix, n);
    var grids := ShiftedPositions(Gather(angles, order), Gather(positions, order), p.pmin, p.pmax);
    var rows := p.pmax - p.pmin;
    Acquisition(Layout(grids.positions, rows, n, p.orderBy, p.interleave),
                Layout(grids.angles, rows, n, p.orderBy, p.interleave))
  }

  /** The scheme order for the accepted arguments. */
  function Order(angles: seq<real>, p: Params): (order: seq<nat>)
    requires ArgumentsValid(angles, p) && BatchesFit(angles, p)
    ensures IsIndexPermutation(order, |angles|)
  {
    SchemeOrder(ParseMode(p.mode).value, angles, p.symmetry, StepNum(|angles|, p.symmetry, p.stepnum))
  }

  /** The first failed check decides the error, in the order the source makes them. */
  lemma ScanErrors(angles: seq<real>, p: Params)
    ensures p.symmetry < 0 ==> GenerateScan(angles, p) == Err(NegativeSymmetry)
    ensures p.symmetry >= 0 && !(p.mode in {"symmetric", "spiral", "swinging"}) ==>
              GenerateScan(angles, p) == Err(UnknownMode)
    ensures p.symmetry >= 0 && p.mode in {"symmetric", "spiral", "swinging"} && p.nhelix < 1 ==>
              GenerateScan(angles, p) == Err(NoHelix)
    ensures p.symmetry >= 0 && p.mode in {"symmetric", "spiral", "swinging"} && p.nhelix >= 1
            && p.pmax - p.pmin < 1 ==>
              GenerateScan(angles, p) == Err(EmptyPositionRange)
    ensures p.symmetry >= 0 && p.mode in {"symmetric", "spiral", "swinging"} && p.nhelix >= 1
            && p.pmax - p.pmin >= 1 && p.stepGiven == p.countGiven ==>
              GenerateScan(angles, p) == Err(if p.stepGiven then ConflictingAngleSpacing else NoAngleSpacing)
    ensures p.symmetry >= 0 && p.mode in {"symmetric", "spiral", "swinging"} && p.nhelix >= 1
            && p.pmax - p.pmin >= 1 && p.stepGiven != p.countGiven && |angles| == 0 ==>
              GenerateScan(angles, p) == Err(NoAngles)
    ensures ArgumentsValid(angles, p) && !BatchesFit(angles, p) ==>
              GenerateScan(angles, p) == Err(BatchTooLarge)
  {
  }

  /** The dose-symmetric scan fails exactly when its last (largest) shuffle
      batch `2^(symmetry - 2)` exceeds half the series. */
  lemma BatchTooLargeExactly(angles: seq<real>, p: Params)
    requires ArgumentsValid(angles, p) && p.mode == "symmetric"
    ensures GenerateScan(angles, p) == Err(BatchTooLarge) <==>
              p.symmetry >= 2 && Pow2(p.symmetry - 2) > |angles| / 2
  {
    assert ParseMode(p.mode) == Ok(Symmetric);
    assert BatchesFit(angles, p) <==> RoundsFit(RoundCount(p.symmetry), |angles|);
  }

  // ---------------------------------------------------------------------------
  // What the acquisition contains
  // ---------------------------------------------------------------------------

  /** Every (position, angle) exposure the scan should make: angle `i` at its
      helix fraction plus each beam shift in `pmin..pmax-1`, one row per shift. */
  function Exposures(angles: seq<real>, nhelix: int, pmin: int, pmax: int): (g: seq<seq<(real, real)>>)
    requires nhelix > 0 && pmax > pmin
    ensures IsGrid(g, pmax - pmin, |angles|)
  {
    seq(pmax - pmin, row requires 0 <= row < pmax - pmin =>
      seq(|angles|, i requires 0 <= i < |angles| =>
        (Fraction(i % nhelix, nhelix) + (pmin + row) as real, angles[i])))
  }

  /** Whatever the mode, symmetry and flattening, the scan makes every exposure
      exactly once: paired up, its positions and angles are a rearrangement of
      all (helix fraction + shift, angle) combinations. */
  lemma ScanCoversExposures(angles: seq<real>, p: Params)
    requires GenerateScan(angles, p).Ok?
    ensures multiset(Zip(GenerateScan(angles, p).value.positions, GenerateScan(angles, p).value.angles))
         == multiset(Concat(Exposures(angles, p.nhelix, p.pmin, p.pmax)))
  {
    ScanIsPipeline(angles, p);
    var n, rows := |angles|, p.pmax - p.pmin;
    var order := Order(angles, p);
    PermutationInRange(order, n);
    var positions := InitialPositions(p.nhelix, n);
    var grids := ShiftedPositions(Gather(angles, order), Gather(positions, order), p.pmin, p.pmax);
    LayoutZip(grids.positions, grids.angles, rows, n, p.orderBy, p.interleave);
    ShiftedGridsCoverExposures(angles, p.nhelix, p.pmin, p.pmax, order);
  }

  /** Before flattening: the shifted grids of the angles and helix positions
      read in any index permutation pair up, row by row, into a rearrangement
      of the exposures. */
  lemma ShiftedGridsCoverExposures(angles: seq<real>, nhelix: int, pmin: int, pmax: int, order: seq<nat>)
    requires nhelix > 0 && pmax > pmin && |angles| > 0
    requires IsIndexPermutation(order, |angles|)
    requires |order| == |angles| && forall k :: 0 <= k < |order| ==> order[k] < |angles|
    ensures var grids := ShiftedPositions(Gather(angles, order),
                                          Gather(InitialPositions(nhelix, |angles|), order), pmin, pmax);
            multiset(Concat(ZipGrid(grids.positions, grids.angles, pmax - pmin, |angles|)))
            == multiset(Concat(Exposures(angles, nhelix, pmin, pmax)))
  {
    var n, rows := |angles|, pmax - pmin;
    var positions := InitialPositions(nhelix, n);
    var grids := ShiftedPositions(Gather(angles, order), Gather(positions, order), pmin, pmax);
    var z := ZipGrid(grids.positions, grids.angles, rows, n);
    var e := Exposures(angles, nhelix, pmin, pmax);
    forall row | 0 <= row < rows
      ensures multiset(z[row]) == multiset(e[row])
    {
      assert z[row] == Gather(e[row], order);
      GatherPermutation(e[row], order);
    }
    RowsMultiset(z, e);
  }

  /** Grids whose rows hold the same elements flatten to the same elements. */
  lemma {:induction false} RowsMultiset<T>(g: seq<seq<T>>, h: seq<seq<T>>)
    requires |g| == |h|
    requires forall r :: 0 <= r < |g| ==> multiset(g[r]) == multiset(h[r])
    ensures multiset(Concat(g)) == multiset(Concat(h))
    decreases |g|
  {
    if |g| > 0 {
      RowsMultiset(g[1..], h[1..]);
    }
  }

  /** Where each exposure is made: the `c`-th angle of the scheme order, at beam
      shift `row`, is exposure number `CellSlot(...)` of the acquisition. */
  lemma ScanSlots(angles: seq<real>, p: Params, row: nat, c: nat)
    requires GenerateScan(angles, p).Ok?
    requires row < p.pmax - p.pmin && c < |angles|
    ensures ArgumentsValid(angles, p) && BatchesFit(angles, p)
    ensures |Order(angles, p)| == |angles| && Order(angles, p)[c] < |angles|
    ensures CellSlot(ArrangementOf(p.orderBy, p.interleave), row, c, p.pmax - p.pmin, |angles|)
            < (p.pmax - p.pmin) * |angles|
    ensures GenerateScan(angles, p).value.angles[CellSlot(ArrangementOf(p.orderBy, p.interleave), row, c, p.pmax - p.pmin, |angles|)]
            == angles[Order(angles, p)[c]]
    ensures GenerateScan(angles, p).value.positions[CellSlot(ArrangementOf(p.orderBy, p.interleave), row, c, p.pmax - p.pmin, |angles|)]
            == Fraction(Order(angles, p)[c] % p.nhelix, p.nhelix) + (p.pmin + row) as real
  {
    ScanIsPipeline(angles, p);
    PipelineSlots(angles, p, row, c);
  }

  /** `ScanSlots` for the pipeline of accepted arguments. */
  lemma PipelineSlots(angles: seq<real>, p: Params, row: nat, c: nat)
    requires ArgumentsValid(angles, p) && BatchesFit(angles, p)
    requires row < p.pmax - p.pmin && c < |angles|
    ensures |Order(angles, p)| == |angles| && Order(angles, p)[c] < |angles|
    ensures CellSlot(ArrangementOf(p.orderBy, p.interleave), row, c, p.pmax - p.pmin, |angles|)
            < (p.pmax - p.pmin) * |angles|
    ensures Pipeline(angles, p).angles[CellSlot(ArrangementOf(p.orderBy, p.interleave), row, c, p.pmax - p.pmin, |angles|)]
            == angles[Order(angles, p)[c]]
    ensures Pipeline(angles, p).positions[CellSlot(ArrangementOf(p.orderBy, p.interleave), row, c, p.pmax - p.pmin, |angles|)]
            == Fraction(Order(angles, p)[c] % p.nhelix, p.nhelix) + (p.pmin + row) as real
  {
    var n, rows := |angles|, p.pmax - p.pmin;
    var order := Order(angles, p);
    PermutationInRange(order, n);
    var positions := InitialPositions(p.nhelix, n);
    var grids := ShiftedPositions(Gather(angles, order), Gather(positions, order), p.pmin, p.pmax);
    LayoutCell(grids.positions, rows, n, p.orderBy, p.interleave, row, c);
    LayoutCell(grids.angles, rows, n, p.orderBy, p.interleave, row, c);
    assert grids.angles[row][c] == angles[order[c]];
    assert grids.positions[row][c] == positions[order[c]] + (p.pmin + row) as real;
  }

  /** With a single beam shift every arrangement reads the one row in order, so
      the acquired angles are the tilt angles in scheme order. */
  lemma SingleShiftAngles(angles: seq<real>, p: Params)
    requires GenerateScan(angles, p).Ok? && p.pmax - p.pmin == 1
    ensures ArgumentsValid(angles, p) && BatchesFit(angles, p)
    ensures forall c :: 0 <= c < |Order(angles, p)| ==> Order(angles, p)[c] < |angles|
    ensures GenerateScan(angles, p).value.angles == Gather(angles, Order(angles, p))
  {
    ScanIsPipeline(angles, p);
    var order := Order(angles, p);
    PermutationInRange(order, |angles|);
    SinglePipelineAngles(angles, p);
  }

  /** `SingleShiftAngles` for the pipeline of accepted arguments. */
  lemma SinglePipelineAngles(angles: seq<real>, p: Params)
    requires ArgumentsValid(angles, p) && BatchesFit(angles, p) && p.pmax - p.pmin == 1
    requires forall c :: 0 <= c < |Order(angles, p)| ==> Order(angles, p)[c] < |angles|
    ensures Pipeline(angles, p).angles == Gather(angles, Order(angles, p))
  {
    var order := Order(angles, p);
    PermutationInRange(order, |angles|);
    var out := Pipeline(angles, p).angles;
    assert |out| == |angles| by {
      assert (p.pmax - p.pmin) * |angles| == |angles|;
    }
    var a := ArrangementOf(p.orderBy, p.interleave);
    forall c | 0 <= c < |angles|
      ensures out[c] == angles[order[c]]
    {
      PipelineSlots(angles, p, 0, c);
      SingleRowSlot(a, c, |angles|);
    }
  }

  /** In a one-row grid every arrangement puts column `c` at position `c`. */
  lemma SingleRowSlot(a: Arrangement, c: nat, cols: nat)
    ensures CellSlot(a, 0, c, 1, cols) == c
  {
  }

  /** `generate_scan(symmetry=0)` in the default symmetric mode with one beam
      shift acquires the tilt angles in their continuous order. */
  lemma SymmetryZeroIsContinuous(angles: seq<real>, p: Params)
    requires GenerateScan(angles, p).Ok?
    requires p.mode == "symmetric" && p.symmetry == 0 && p.pmax - p.pmin == 1
    ensures GenerateScan(angles, p).value.angles == angles
  {
    SingleShiftAngles(angles, p);
  }

  /** In the symmetric mode with one beam shift, `generate_scan` acquires the
      angles in the dose-symmetric order about the middle angle. */
  lemma SymmetricScanAngles(angles: seq<real>, p: Params)
    requires GenerateScan(angles, p).Ok?
    requires p.mode == "symmetric" && p.pmax - p.pmin == 1
    ensures ArgumentsValid(angles, p) && BatchesFit(angles, p)
    ensures Order(angles, p) == DoseSymmetricScan(angles, p.symmetry, angles[|angles| / 2])
    ensures forall c :: 0 <= c < |Order(angles, p)| ==> Order(angles, p)[c] < |angles|
    ensures GenerateScan(angles, p).value.angles == Gather(angles, Order(angles, p))
  {
    SingleShiftAngles(angles, p);
  }

  /** `generate_scan`'s defaults for every argument that has one: symmetric
      mode, symmetry 0, step number 1, one helix, positions 0 to 1, ordered by
      angle, interleaved. The angle spacing has no usable default, so the
      caller says which of `tilt_angle_step` and `num_tilt_angles` it sets. */
  function DefaultParams(stepGiven: bool): Params {
    Params(stepGiven, !stepGiven, "symmetric", 0, 1, 1, 0, 1, "angle", true)
  }

  /** With the defaults, a series is accepted exactly when it is non-empty,
      and its angles are acquired once each, in their continuous order. */
  lemma DefaultScan(angles: seq<real>, stepGiven: bool)
    ensures GenerateScan(angles, DefaultParams(stepGiven)).Ok? <==> |angles| > 0
    ensures |angles| > 0 ==> GenerateScan(angles, DefaultParams(stepGiven)).value.angles == angles
  {
    if |angles| > 0 {
      SymmetryZeroIsContinuous(angles, DefaultParams(stepGiven));
    }
  }
}
