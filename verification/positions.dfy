/** The position pipeline before the final flattening: the n-helix fraction of
    every angle (`generate_initial_positions`) and the grid of beam-shifted
    copies along the pillar (`generate_shifted_positions`). Positions are exact
    rationals; the source's floating-point quotient `i / nhelix` is read as the
    real number it approximates. */
module Positions {
  import opened Arith
  import opened Seqs

  /** The fraction `num / den` as an exact real. */
  function Fraction(num: int, den: int): real
    requires den > 0
  {
    num as real / den as real
  }

  /** A numerator in `0..den-1` gives a fraction in `[0, 1)`. */
  lemma FractionInUnit(num: int, den: int)
    requires 0 <= num < den
    ensures 0.0 <= Fraction(num, den) < 1.0
  {
    var q := Fraction(num, den);
    assert q * den as real == num as real;
  }

  /** `[i / nhelix for i in range(len)]`: one block of the helix. */
  function Block(len: nat, nhelix: nat): (r: seq<real>)
    requires nhelix > 0
    ensures |r| == len
  {
    seq(len, i requires 0 <= i < len => Fraction(i, nhelix))
  }

  /** The blocks for `j in range(start, count, nhelix)`, block `j` holding
      `min(count - j, nhelix)` fractions. */
  function BlocksFrom(nhelix: nat, count: nat, start: nat): seq<real>
    requires nhelix > 0
    decreases count - start
  {
    if start >= count then []
    else
      var len := if count - start <= nhelix then count - start else nhelix;
      Block(len, nhelix) + BlocksFrom(nhelix, count, start + nhelix)
  }

  /** `generate_initial_positions(nhelix, count)`: entry `k` is the helix
      fraction `(k mod nhelix) / nhelix`, which lies in `[0, 1)`. */
  function InitialPositions(nhelix: int, count: int): (r: seq<real>)
    requires nhelix > 0 && count > 0
    ensures |r| == count
    ensures forall k :: 0 <= k < count ==> r[k] == Fraction(k % nhelix, nhelix)
    ensures forall k :: 0 <= k < count ==> 0.0 <= r[k] < 1.0
  {
    var r := BlocksFrom(nhelix, count, 0);
    BlocksFromEntries(nhelix, count, 0);
    forall k | 0 <= k < count
      ensures 0.0 <= r[k] < 1.0
    {
      FractionInUnit(k % nhelix, nhelix);
    }
    r
  }

  /** The blocks from a multiple of `nhelix` onwards hold the fractions of the
      indices `start..count-1`. */
  lemma {:induction false} BlocksFromEntries(nhelix: nat, count: nat, start: nat)
    requires nhelix > 0 && start % nhelix == 0
    ensures |BlocksFrom(nhelix, count, start)| == if start <= count then count - start else 0
    ensures forall m :: 0 <= m < |BlocksFrom(nhelix, count, start)| ==>
              BlocksFrom(nhelix, count, start)[m] == Fraction((start + m) % nhelix, nhelix)
    decreases count - start
  {
    if start < count {
      var len := if count - start <= nhelix then count - start else nhelix;
      var head, tail := Block(len, nhelix), BlocksFrom(nhelix, count, start + nhelix);
      DivModAddDivisor(start, nhelix);
      assert len < nhelix ==> tail == [];
      BlocksFromEntries(nhelix, count, start + nhelix);
      var all := BlocksFrom(nhelix, count, start);
      assert all == head + tail;
      forall m | 0 <= m < |all|
        ensures all[m] == Fraction((start + m) % nhelix, nhelix)
      {
        if m < len {
          BlockEntry(nhelix, start, len, m);
        } else {
          assert all[m] == tail[m - nhelix];
        }
      }
    }
  }

  /** Entry `m` of a block that starts at a multiple of `nhelix` is the
      fraction of index `start + m`. */
  lemma BlockEntry(nhelix: nat, start: nat, len: nat, m: nat)
    requires nhelix > 0 && start % nhelix == 0 && m < len <= nhelix
    ensures Block(len, nhelix)[m] == Fraction((start + m) % nhelix, nhelix)
  {
    DivModUnique(start + m, nhelix, start / nhelix, m);
  }

  /** `positions + p` elementwise. */
  function AddShift(positions: seq<real>, p: int): (r: seq<real>)
    ensures |r| == |positions|
  {
    seq(|positions|, c requires 0 <= c < |positions| => positions[c] + p as real)
  }

  /** `np.stack([positions + p for p in range(lo, hi)])`. */
  function ShiftRows(positions: seq<real>, lo: int, hi: int): (g: seq<seq<real>>)
    decreases hi - lo
  {
    if lo >= hi then [] else [AddShift(positions, lo)] + ShiftRows(positions, lo + 1, hi)
  }

  /** `np.tile(row, (rows, 1))`: `rows` copies of the same row. */
  function Tile<T>(row: seq<T>, rows: nat): seq<seq<T>>
  {
    if rows == 0 then [] else [row] + Tile(row, rows - 1)
  }

  /** The shifted grid row `r` is the positions moved by `lo + r`. */
  lemma {:induction false} ShiftRowsCells(positions: seq<real>, lo: int, hi: int)
    requires lo <= hi
    ensures IsGrid(ShiftRows(positions, lo, hi), hi - lo, |positions|)
    ensures forall r, c :: 0 <= r < hi - lo && 0 <= c < |positions| ==>
              ShiftRows(positions, lo, hi)[r][c] == positions[c] + (lo + r) as real
    decreases hi - lo
  {
    if lo < hi {
      ShiftRowsCells(positions, lo + 1, hi);
      var g := ShiftRows(positions, lo, hi);
      forall r | 0 < r < hi - lo
        ensures g[r] == ShiftRows(positions, lo + 1, hi)[r - 1]
      {
      }
    }
  }

  /** Every row of a tiled grid is the original row. */
  lemma {:induction false} TileCells<T>(row: seq<T>, rows: nat)
    ensures IsGrid(Tile(row, rows), rows, |row|)
    ensures forall r :: 0 <= r < rows ==> Tile(row, rows)[r] == row
    decreases rows
  {
    if rows > 0 {
      TileCells(row, rows - 1);
    }
  }

  /** The angle and position grids of `generate_shifted_positions`. */
  datatype ShiftedGrids = ShiftedGrids(angles: seq<seq<real>>, positions: seq<seq<real>>)

  /** `generate_shifted_positions(angles, positions, pmin, pmax)`: one row per
      beam shift `p` in `pmin..pmax-1`; the position row is shifted by `p`, the
      angle row is repeated unchanged, and both grids have the same shape. */
  function ShiftedPositions(angles: seq<real>, positions: seq<real>, pmin: int, pmax: int)
    : (r: ShiftedGrids)
    requires pmax - pmin > 0
    requires |angles| == |positions|
    ensures IsGrid(r.angles, pmax - pmin, |angles|)
    ensures IsGrid(r.positions, pmax - pmin, |angles|)
    ensures forall row, c :: 0 <= row < pmax - pmin && 0 <= c < |angles| ==>
              r.positions[row][c] == positions[c] + (pmin + row) as real
    ensures forall row :: 0 <= row < pmax - pmin ==> r.angles[row] == angles
  {
    var shifted := ShiftRows(positions, pmin, pmax);
    ShiftRowsCells(positions, pmin, pmax);
    TileCells(angles, pmax - pmin);
    ShiftedGrids(Tile(angles, |shifted|), shifted)
  }
}
