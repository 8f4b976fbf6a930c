/** The final flattening of the shift x angle grids (`generate_final_order`).
    A grid has one row per beam shift and one column per acquired angle. It
    is read in one of three layouts:
    - row-major (one full angle sweep per shift) unless `order_by` is "angle";
    - transposed, all shifts of one angle together, when `order_by` is "angle";
    - transposed with the even-numbered shifts of every angle first and the
      odd-numbered ones after, when `order_by` is "angle" and positions are
      interleaved.
    The same layout is applied to the angle grid and to the position grid. */
module Layouts {
  import opened Arith
  import opened Seqs

  /** `g.T` for a `rows` x `cols` grid. */
  function Transpose<T>(g: seq<seq<T>>, rows: nat, cols: nat): (t: seq<seq<T>>)
    requires IsGrid(g, rows, cols)
    ensures IsGrid(t, cols, rows)
    ensures forall c, r :: 0 <= c < cols && 0 <= r < rows ==> t[c][r] == g[r][c]
  {
    seq(cols, c requires 0 <= c < cols => seq(rows, r requires 0 <= r < rows => g[r][c]))
  }

  /** `t[:, i::2]`: every other column of `t`, starting at column `i`. */
  function EveryOther<T>(t: seq<seq<T>>, i: nat): (h: seq<seq<T>>)
    ensures |h| == |t|
    ensures forall c :: 0 <= c < |t| ==> h[c] == Stride(t[c], i, 2)
  {
    seq(|t|, c requires 0 <= c < |t| => Stride(t[c], i, 2))
  }

  /** The three ways `generate_final_order` reads the grid. */
  datatype Arrangement = ShiftByShift | AngleByAngle | AngleByAngleInterleaved

  /** The source's dispatch: `order_by` is compared with "angle" only, so any
      other value (not just "position") reads the grid row by row. */
  function ArrangementOf(orderBy: string, interleave: bool): (a: Arrangement)
    ensures a == ShiftByShift <==> orderBy != "angle"
    ensures a == AngleByAngleInterleaved <==> orderBy == "angle" && interleave
    ensures a == AngleByAngle <==> orderBy == "angle" && !interleave
  {
    if orderBy == "angle" then
      if interleave then AngleByAngleInterleaved else AngleByAngle
    else
      ShiftByShift
  }

  /** `generate_final_order` on one grid: the flattened sequence. */
  function Layout<T>(g: seq<seq<T>>, rows: nat, cols: nat, orderBy: string, interleave: bool): (r: seq<T>)
    requires IsGrid(g, rows, cols)
    ensures |r| == rows * cols
    ensures multiset(r) == multiset(Concat(g))
  {
    ConcatGridLength(g, rows, cols);
    if orderBy == "angle" then
      var t := Transpose(g, rows, cols);
      TransposeMultiset(g, rows, cols);
      ConcatGridLength(t, cols, rows);
      if interleave then
        InterleaveLength(t, cols, rows);
        InterleaveMultiset(t);
        Concat(EveryOther(t, 0)) + Concat(EveryOther(t, 1))
      else
        Concat(t)
    else
      Concat(g)
  }

  // ---------------------------------------------------------------------------
  // Where every cell lands
  // ---------------------------------------------------------------------------

  /** Number of even-numbered shifts among `rows` (`len(range(0, rows, 2))`). */
  function EvenCount(rows: nat): nat {
    (rows + 1) / 2
  }

  /** Number of odd-numbered shifts among `rows`. */
  function OddCount(rows: nat): nat {
    rows / 2
  }

  /** Output position of cell (shift `row`, angle `c`) of a `rows` x `cols` grid. */
  function CellSlot(a: Arrangement, row: nat, c: nat, rows: nat, cols: nat): nat {
    match a
    case ShiftByShift => RowMajor(row, c, cols)
    case AngleByAngle => RowMajor(c, row, rows)
    case AngleByAngleInterleaved =>
      if row % 2 == 0 then RowMajor(c, row / 2, EvenCount(rows))
      else cols * EvenCount(rows) + RowMajor(c, row / 2, OddCount(rows))
  }

  /** `LayoutCells` for one cell. */
  lemma LayoutCell<T>(g: seq<seq<T>>, rows: nat, cols: nat, orderBy: string, interleave: bool, row: nat, c: nat)
    requires IsGrid(g, rows, cols) && row < rows && c < cols
    ensures CellSlot(ArrangementOf(orderBy, interleave), row, c, rows, cols) < rows * cols
    ensures Layout(g, rows, cols, orderBy, interleave)[CellSlot(ArrangementOf(orderBy, interleave), row, c, rows, cols)]
            == g[row][c]
  {
    LayoutCells(g, rows, cols, orderBy, interleave);
  }

  /** Every cell of the grid is placed at its `CellSlot`. */
  lemma LayoutCells<T>(g: seq<seq<T>>, rows: nat, cols: nat, orderBy: string, interleave: bool)
    requires IsGrid(g, rows, cols)
    ensures forall row, c :: 0 <= row < rows && 0 <= c < cols ==>
              CellSlot(ArrangementOf(orderBy, interleave), row, c, rows, cols) < rows * cols &&
              Layout(g, rows, cols, orderBy, interleave)[CellSlot(ArrangementOf(orderBy, interleave), row, c, rows, cols)]
              == g[row][c]
  {
    var a := ArrangementOf(orderBy, interleave);
    var r := Layout(g, rows, cols, orderBy, interleave);
    forall row, c | 0 <= row < rows && 0 <= c < cols
      ensures CellSlot(a, row, c, rows, cols) < rows * cols && r[CellSlot(a, row, c, rows, cols)] == g[row][c]
    {
      match a
      case ShiftByShift =>
        ConcatGridCell(g, rows, cols, row, c);
      case AngleByAngle =>
        ConcatGridCell(Transpose(g, rows, cols), cols, rows, c, row);
      case AngleByAngleInterleaved =>
        InterleavedCell(Transpose(g, rows, cols), cols, rows, c, row);
    }
  }

  /** Different cells land at different positions, so with `rows * cols` cells
      and positions the layout is a bijection between the two. */
  lemma CellSlotInjective(a: Arrangement, rows: nat, cols: nat, r1: nat, c1: nat, r2: nat, c2: nat)
    requires r1 < rows && c1 < cols && r2 < rows && c2 < cols
    requires CellSlot(a, r1, c1, rows, cols) == CellSlot(a, r2, c2, rows, cols)
    ensures r1 == r2 && c1 == c2
  {
    match a
    case ShiftByShift =>
      RowMajorSplit(r1, c1, cols);
      RowMajorSplit(r2, c2, cols);
    case AngleByAngle =>
      RowMajorSplit(c1, r1, rows);
      RowMajorSplit(c2, r2, rows);
    case AngleByAngleInterleaved =>
      var e, o := EvenCount(rows), OddCount(rows);
      if r1 % 2 == 0 && r2 % 2 == 0 {
        RowMajorSplit(c1, r1 / 2, e);
        RowMajorSplit(c2, r2 / 2, e);
      } else if r1 % 2 == 1 && r2 % 2 == 1 {
        RowMajorSplit(c1, r1 / 2, o);
        RowMajorSplit(c2, r2 / 2, o);
      } else if r1 % 2 == 0 {
        RowMajorInRange(c1, r1 / 2, cols, e);
        assert false;
      } else {
        RowMajorInRange(c2, r2 / 2, cols, e);
        assert false;
      }
  }

  // ---------------------------------------------------------------------------
  // Transposed reading
  // ---------------------------------------------------------------------------

  /** Column `c` of a grid is the stride series `flatten(g)[c::cols]`, so the
      transposed grid is the stride split of the row-major flattening. */
  lemma TransposeIsStrides<T>(g: seq<seq<T>>, rows: nat, cols: nat)
    requires IsGrid(g, rows, cols) && cols > 0
    ensures Transpose(g, rows, cols) == Strides(Concat(g), cols)
  {
    var t, s := Transpose(g, rows, cols), Strides(Concat(g), cols);
    ConcatGrid(g, rows, cols);
    forall c | 0 <= c < cols
      ensures t[c] == s[c]
    {
      ColumnIsStride(g, rows, cols, c);
    }
  }

  lemma ColumnIsStride<T>(g: seq<seq<T>>, rows: nat, cols: nat, c: nat)
    requires IsGrid(g, rows, cols) && c < cols
    ensures Stride(Concat(g), c, cols) == Transpose(g, rows, cols)[c]
  {
    var col := Stride(Concat(g), c, cols);
    ConcatGridLength(g, rows, cols);
    ColumnCount(rows, cols, c);
    forall m | 0 <= m < rows
      ensures col[m] == g[m][c]
    {
      StrideElement(Concat(g), c, cols, m);
      ConcatGridCell(g, rows, cols, m, c);
    }
  }

  /** A column of a `rows` x `cols` grid has `rows` entries. */
  lemma ColumnCount(rows: nat, cols: nat, c: nat)
    requires c < cols
    ensures StrideCount(rows * cols, c, cols) == rows
  {
    if rows > 0 {
      assert rows * cols - c - 1 == (rows - 1) * cols + (cols - c - 1);
      DivModUnique(rows * cols - c - 1, cols, rows - 1, cols - c - 1);
    }
  }

  /** Transposing keeps every cell. */
  lemma TransposeMultiset<T>(g: seq<seq<T>>, rows: nat, cols: nat)
    requires IsGrid(g, rows, cols)
    ensures multiset(Concat(Transpose(g, rows, cols))) == multiset(Concat(g))
  {
    if cols == 0 {
      EmptyConcat(g);
      assert Transpose(g, rows, cols) == [];
    } else {
      TransposeIsStrides(g, rows, cols);
      StridesPartition(Concat(g), cols);
    }
  }

  // ---------------------------------------------------------------------------
  // Interleaved reading
  // ---------------------------------------------------------------------------

  /** Even and odd entries of a row of `rows` elements. */
  lemma ParityCounts(rows: nat)
    ensures StrideCount(rows, 0, 2) == EvenCount(rows)
    ensures StrideCount(rows, 1, 2) == OddCount(rows)
    ensures EvenCount(rows) + OddCount(rows) == rows
  {
    if rows >= 1 {
      DivModAddDivisor(rows - 1, 2);
    }
    if rows >= 2 {
      DivModAddDivisor(rows - 2, 2);
    }
  }

  /** Both halves of the interleaved reading, and their total length. */
  lemma InterleaveLength<T>(t: seq<seq<T>>, cols: nat, rows: nat)
    requires IsGrid(t, cols, rows)
    ensures IsGrid(EveryOther(t, 0), cols, EvenCount(rows))
    ensures IsGrid(EveryOther(t, 1), cols, OddCount(rows))
    ensures |Concat(EveryOther(t, 0))| == cols * EvenCount(rows)
    ensures |Concat(EveryOther(t, 1))| == cols * OddCount(rows)
    ensures |Concat(EveryOther(t, 0)) + Concat(EveryOther(t, 1))| == cols * rows
  {
    ParityCounts(rows);
    ConcatGridLength(EveryOther(t, 0), cols, EvenCount(rows));
    ConcatGridLength(EveryOther(t, 1), cols, OddCount(rows));
    assert cols * EvenCount(rows) + cols * OddCount(rows) == cols * rows;
  }

  /** In the interleaved reading, shift `row` of angle `c` sits in the even half
      or the odd half according to the parity of `row`. */
  lemma InterleavedCell<T>(t: seq<seq<T>>, cols: nat, rows: nat, c: nat, row: nat)
    requires IsGrid(t, cols, rows) && c < cols && row < rows
    ensures CellSlot(AngleByAngleInterleaved, row, c, rows, cols) < cols * rows
    ensures |Concat(EveryOther(t, 0)) + Concat(EveryOther(t, 1))| == cols * rows
    ensures (Concat(EveryOther(t, 0)) + Concat(EveryOther(t, 1)))[CellSlot(AngleByAngleInterleaved, row, c, rows, cols)]
         == t[c][row]
  {
    InterleaveLength(t, cols, rows);
    var even, odd := EveryOther(t, 0), EveryOther(t, 1);
    var half := row / 2;
    assert row == 2 * half + row % 2;
    if row % 2 == 0 {
      assert half < EvenCount(rows);
      ConcatGridCell(even, cols, EvenCount(rows), c, half);
      StrideElements(t[c], 0, 2);
    } else {
      assert half < OddCount(rows);
      ConcatGridCell(odd, cols, OddCount(rows), c, half);
      StrideElements(t[c], 1, 2);
    }
  }

  /** The even and the odd shifts of every angle together are all its shifts. */
  lemma {:induction false} InterleaveMultiset<T>(t: seq<seq<T>>)
    ensures multiset(Concat(EveryOther(t, 0))) + multiset(Concat(EveryOther(t, 1)))
         == multiset(Concat(t))
    decreases |t|
  {
    if |t| > 0 {
      InterleaveMultiset(t[1..]);
      EveryOtherTail(t, 0);
      EveryOtherTail(t, 1);
      EvenOddHalves(t[0]);
      assert Concat(t) == t[0] + Concat(t[1..]);
      var e, o := Concat(EveryOther(t[1..], 0)), Concat(EveryOther(t[1..], 1));
      calc {
        multiset(Concat(EveryOther(t, 0))) + multiset(Concat(EveryOther(t, 1)));
        multiset(Stride(t[0], 0, 2)) + multiset(e) + (multiset(Stride(t[0], 1, 2)) + multiset(o));
        multiset(t[0]) + (multiset(e) + multiset(o));
        multiset(Concat(t));
      }
    }
  }

  /** The even and the odd entries of a row together are the row. */
  lemma EvenOddHalves<T>(s: seq<T>)
    ensures multiset(Stride(s, 0, 2)) + multiset(Stride(s, 1, 2)) == multiset(s)
  {
    StridesPartition(s, 2);
    var halves := Strides(s, 2);
    assert halves[1..][1..] == [];
    assert Concat(halves) == Stride(s, 0, 2) + (Stride(s, 1, 2) + Concat(halves[1..][1..]));
  }

  lemma EveryOtherTail<T>(t: seq<seq<T>>, i: nat)
    requires |t| > 0
    ensures Concat(EveryOther(t, i)) == Stride(t[0], i, 2) + Concat(EveryOther(t[1..], i))
  {
    assert EveryOther(t, i)[1..] == EveryOther(t[1..], i);
  }

  // ---------------------------------------------------------------------------
  // Angles and positions move together
  // ---------------------------------------------------------------------------

  /** Pairs the entries of two sequences of equal length. */
  function Zip<A, B>(a: seq<A>, b: seq<B>): (z: seq<(A, B)>)
    requires |a| == |b|
    ensures |z| == |a|
    ensures forall k :: 0 <= k < |a| ==> z[k] == (a[k], b[k])
  {
    seq(|a|, k requires 0 <= k < |a| => (a[k], b[k]))
  }

  /** Pairs two grids of the same shape cell by cell. */
  function ZipGrid<A, B>(a: seq<seq<A>>, b: seq<seq<B>>, rows: nat, cols: nat): (z: seq<seq<(A, B)>>)
    requires IsGrid(a, rows, cols) && IsGrid(b, rows, cols)
    ensures IsGrid(z, rows, cols)
    ensures forall r :: 0 <= r < rows ==> z[r] == Zip(a[r], b[r])
  {
    seq(rows, r requires 0 <= r < rows => Zip(a[r], b[r]))
  }

  /** Flattening the angle grid and the position grid and then pairing them
      gives the flattening of the grid of (angle, position) cells: whatever the
      arrangement, the two grids are permuted by the same cell order. */
  lemma LayoutZip<A, B>(a: seq<seq<A>>, b: seq<seq<B>>, rows: nat, cols: nat, orderBy: string, interleave: bool)
    requires IsGrid(a, rows, cols) && IsGrid(b, rows, cols)
    ensures Zip(Layout(a, rows, cols, orderBy, interleave), Layout(b, rows, cols, orderBy, interleave))
         == Layout(ZipGrid(a, b, rows, cols), rows, cols, orderBy, interleave)
  {
    var z := ZipGrid(a, b, rows, cols);
    var la, lb := Layout(a, rows, cols, orderBy, interleave), Layout(b, rows, cols, orderBy, interleave);
    var lz := Layout(z, rows, cols, orderBy, interleave);
    if orderBy == "angle" {
      var ta, tb, tz := Transpose(a, rows, cols), Transpose(b, rows, cols), Transpose(z, rows, cols);
      assert tz == ZipGrid(ta, tb, cols, rows) by {
        forall c | 0 <= c < cols
          ensures tz[c] == Zip(ta[c], tb[c])
        {
        }
      }
      if interleave {
        InterleaveLength(ta, cols, rows);
        InterleaveLength(tb, cols, rows);
        ZipEveryOther(ta, tb, cols, rows, 0);
        ZipEveryOther(ta, tb, cols, rows, 1);
        ZipAppend(Concat(EveryOther(ta, 0)), Concat(EveryOther(ta, 1)),
                  Concat(EveryOther(tb, 0)), Concat(EveryOther(tb, 1)));
      } else {
        ZipConcat(ta, tb, cols, rows);
      }
    } else {
      ZipConcat(a, b, rows, cols);
    }
  }

  lemma ZipAppend<A, B>(a1: seq<A>, a2: seq<A>, b1: seq<B>, b2: seq<B>)
    requires |a1| == |b1| && |a2| == |b2|
    ensures Zip(a1 + a2, b1 + b2) == Zip(a1, b1) + Zip(a2, b2)
  {
  }

  /** Pairing commutes with row-major flattening. */
  lemma {:induction false} ZipConcat<A, B>(a: seq<seq<A>>, b: seq<seq<B>>, rows: nat, cols: nat)
    requires IsGrid(a, rows, cols) && IsGrid(b, rows, cols)
    ensures |Concat(a)| == |Concat(b)|
    ensures Zip(Concat(a), Concat(b)) == Concat(ZipGrid(a, b, rows, cols))
    decreases rows
  {
    ConcatGridLength(a, rows, cols);
    ConcatGridLength(b, rows, cols);
    if rows > 0 {
      ZipConcat(a[1..], b[1..], rows - 1, cols);
      ConcatGridLength(a[1..], rows - 1, cols);
      ConcatGridLength(b[1..], rows - 1, cols);
      ZipAppend(a[0], Concat(a[1..]), b[0], Concat(b[1..]));
      assert ZipGrid(a, b, rows, cols)[1..] == ZipGrid(a[1..], b[1..], rows - 1, cols);
    }
  }

  /** Pairing commutes with taking a stride series. */
  lemma ZipStride<A, B>(a: seq<A>, b: seq<B>, off: nat, n: nat)
    requires |a| == |b| && n > 0
    ensures |Stride(a, off, n)| == |Stride(b, off, n)|
    ensures Zip(Stride(a, off, n), Stride(b, off, n)) == Stride(Zip(a, b), off, n)
  {
    StrideElements(a, off, n);
    StrideElements(b, off, n);
    StrideElements(Zip(a, b), off, n);
  }

  /** Pairing commutes with `t[:, i::2].flatten()`. */
  lemma ZipEveryOther<A, B>(a: seq<seq<A>>, b: seq<seq<B>>, cols: nat, rows: nat, i: nat)
    requires IsGrid(a, cols, rows) && IsGrid(b, cols, rows) && i < 2
    ensures IsGrid(EveryOther(a, i), cols, StrideCount(rows, i, 2))
    ensures IsGrid(EveryOther(b, i), cols, StrideCount(rows, i, 2))
    ensures |Concat(EveryOther(a, i))| == |Concat(EveryOther(b, i))|
    ensures Zip(Concat(EveryOther(a, i)), Concat(EveryOther(b, i)))
         == Concat(EveryOther(ZipGrid(a, b, cols, rows), i))
  {
    var ea, eb := EveryOther(a, i), EveryOther(b, i);
    var ez := EveryOther(ZipGrid(a, b, cols, rows), i);
    var len := StrideCount(rows, i, 2);
    forall c | 0 <= c < cols
      ensures ez[c] == Zip(ea[c], eb[c])
    {
      ZipStride(a[c], b[c], i, 2);
    }
    assert ez == ZipGrid(ea, eb, cols, len);
    ZipConcat(ea, eb, cols, len);
  }
}
