/** The worked examples the repository's tests check, stated for the model.
    The shuffle examples are proved for an arbitrary 11-element sequence and
    then read on `0..10`; the scheme examples are proved for every tilt series. */
module Vectors {
  import opened Arith
  import opened Seqs
  import opened Shuffle
  import opened Schemes
  import opened Positions
  import opened Layouts
  import opened Scan

  // ---------------------------------------------------------------------------
  // shuffle_array on 11 elements, batch sizes 1 to 5
  // ---------------------------------------------------------------------------

  /** With batch size 1 the weave alternates single elements of the two
      sides, front first, whenever the front side is as long as the back side
      or one longer. */
  lemma {:induction false} WeaveByOne<T>(a: seq<T>, b: seq<T>)
    requires |b| <= |a| <= |b| + 1
    ensures |Weave(a, b, 1)| == |a| + |b|
    ensures forall k :: 0 <= k < |a| + |b| ==>
              Weave(a, b, 1)[k] == if k % 2 == 0 then a[k / 2] else b[k / 2]
    decreases |b|
  {
    WeaveLength(a, b, 1);
    var w := Weave(a, b, 1);
    if |a| <= 1 {
      WeaveFrontShort(a, b, 1);
    } else if |b| <= 1 {
      WeaveBackShort(a, b, 1);
    } else {
      WeaveStep(a, b, 1);
      WeaveByOne(a[1..], b[1..]);
      WeaveByOneTail(a, b, w, Weave(a[1..], b[1..], 1));
    }
  }

  /** The step case of `WeaveByOne`: two leading elements, then the
      alternation of the rest shifted by two. */
  lemma WeaveByOneTail<T>(a: seq<T>, b: seq<T>, w: seq<T>, rest: seq<T>)
    requires 1 < |b| <= |a| <= |b| + 1
    requires w == a[..1] + b[..1] + rest
    requires |rest| == |a| + |b| - 2
    requires forall k :: 0 <= k < |rest| ==> rest[k] == if k % 2 == 0 then a[1..][k / 2] else b[1..][k / 2]
    ensures forall k :: 0 <= k < |a| + |b| ==> w[k] == if k % 2 == 0 then a[k / 2] else b[k / 2]
  {
    forall k | 0 <= k < |a| + |b|
      ensures w[k] == if k % 2 == 0 then a[k / 2] else b[k / 2]
    {
      if k >= 2 {
        assert w[k] == rest[k - 2];
        DivModAddDivisor(k - 2, 2);
      }
    }
  }

  /** `shuffle_array(x, 1)` alternates between the front of `x` and its back:
      even output positions read `x` forwards from the start, odd ones read it
      backwards from the end. */
  lemma ShuffleByOne<T>(x: seq<T>)
    requires |x| >= 2
    ensures |ShuffleArray(x, 1)| == |x|
    ensures forall k :: 0 <= k < |x| ==>
              ShuffleArray(x, 1)[k] == if k % 2 == 0 then x[k / 2] else x[|x| - 1 - k / 2]
  {
    var h := FrontLength(|x|);
    var front, back := x[..h], Reverse(x[h..]);
    assert ShuffleArray(x, 1) == Weave(front, back, 1);
    WeaveByOne(front, back);
    forall k | 0 <= k < |x|
      ensures ShuffleArray(x, 1)[k] == if k % 2 == 0 then x[k / 2] else x[|x| - 1 - k / 2]
    {
      if k % 2 == 1 {
        assert k / 2 < |back|;
        assert back[k / 2] == x[|x| - 1 - k / 2];
      }
    }
  }

  /** `shuffle_array(x, n)` weaves the front six entries with the reversed
      back five. */
  lemma ShuffleElevenHalves<T>(x: seq<T>, n: nat)
    requires |x| == 11 && 0 < n <= 5
    ensures ShuffleArray(x, n) == Weave(x[..6], [x[10], x[9], x[8], x[7], x[6]], n)
  {
    var b := Reverse(x[6..]);
    assert b[0] == x[10] && b[1] == x[9] && b[2] == x[8] && b[3] == x[7] && b[4] == x[6];
    assert b == [x[10], x[9], x[8], x[7], x[6]];
  }

  lemma ShuffleElevenBy1<T>(x: seq<T>)
    requires |x| == 11
    ensures ShuffleArray(x, 1) == [x[0], x[10], x[1], x[9], x[2], x[8], x[3], x[7], x[4], x[6], x[5]]
  {
    ShuffleElevenHalves(x, 1);
    WeaveOfElevenBy1(x);
  }

  lemma WeaveOfElevenBy1<T>(x: seq<T>)
    requires |x| == 11
    ensures Weave(x[..6], [x[10], x[9], x[8], x[7], x[6]], 1) == [x[0], x[10], x[1], x[9], x[2], x[8], x[3], x[7], x[4], x[6], x[5]]
  {
    var a, b := x[..6], [x[10], x[9], x[8], x[7], x[6]];
    assert a[0] == x[0] && a[1] == x[1] && a[2] == x[2] && a[3] == x[3] && a[4] == x[4] && a[5] == x[5];
    WeaveSixFiveBy1(a, b);
  }

  /** Batch size 1 on a front of six and a back of five. */
  lemma WeaveSixFiveBy1<T>(a: seq<T>, b: seq<T>)
    requires |a| == 6 && |b| == 5
    ensures Weave(a, b, 1) == [a[0], b[0], a[1], b[1], a[2], b[2], a[3], b[3], a[4], b[4], a[5]]
  {
    WeaveByOne(a, b);
  }

  lemma ShuffleElevenBy2<T>(x: seq<T>)
    requires |x| == 11
    ensures ShuffleArray(x, 2) == [x[0], x[1], x[10], x[9], x[2], x[3], x[8], x[7], x[4], x[5], x[6]]
  {
    ShuffleElevenHalves(x, 2);
    WeaveOfElevenBy2(x);
  }

  lemma WeaveOfElevenBy2<T>(x: seq<T>)
    requires |x| == 11
    ensures Weave(x[..6], [x[10], x[9], x[8], x[7], x[6]], 2) == [x[0], x[1], x[10], x[9], x[2], x[3], x[8], x[7], x[4], x[5], x[6]]
  {
    var a, b := x[..6], [x[10], x[9], x[8], x[7], x[6]];
    assert a[0] == x[0] && a[1] == x[1] && a[2] == x[2] && a[3] == x[3] && a[4] == x[4] && a[5] == x[5];
    WeaveSixFiveBy2(a, b);
  }

  /** Batch size 2 on a front of six and a back of five. */
  lemma WeaveSixFiveBy2<T>(a: seq<T>, b: seq<T>)
    requires |a| == 6 && |b| == 5
    ensures Weave(a, b, 2) == [a[0], a[1], b[0], b[1], a[2], a[3], b[2], b[3], a[4], a[5], b[4]]
  {
    WeaveStep(a, b, 2);
    WeaveStep(a[2..], b[2..], 2);
    WeaveFrontShort(a[4..], b[4..], 2);
  }

  lemma ShuffleElevenBy3<T>(x: seq<T>)
    requires |x| == 11
    ensures ShuffleArray(x, 3) == [x[0], x[1], x[2], x[10], x[9], x[8], x[3], x[4], x[5], x[7], x[6]]
  {
    ShuffleElevenHalves(x, 3);
    WeaveOfElevenBy3(x);
  }

  lemma WeaveOfElevenBy3<T>(x: seq<T>)
    requires |x| == 11
    ensures Weave(x[..6], [x[10], x[9], x[8], x[7], x[6]], 3) == [x[0], x[1], x[2], x[10], x[9], x[8], x[3], x[4], x[5], x[7], x[6]]
  {
    var a, b := x[..6], [x[10], x[9], x[8], x[7], x[6]];
    assert a[0] == x[0] && a[1] == x[1] && a[2] == x[2] && a[3] == x[3] && a[4] == x[4] && a[5] == x[5];
    WeaveSixFiveBy3(a, b);
  }

  /** Batch size 3 on a front of six and a back of five. */
  lemma WeaveSixFiveBy3<T>(a: seq<T>, b: seq<T>)
    requires |a| == 6 && |b| == 5
    ensures Weave(a, b, 3) == [a[0], a[1], a[2], b[0], b[1], b[2], a[3], a[4], a[5], b[3], b[4]]
  {
    WeaveStep(a, b, 3);
    WeaveFrontShort(a[3..], b[3..], 3);
  }

  lemma ShuffleElevenBy4<T>(x: seq<T>)
    requires |x| == 11
    ensures ShuffleArray(x, 4) == [x[0], x[1], x[2], x[3], x[10], x[9], x[8], x[7], x[4], x[5], x[6]]
  {
    ShuffleElevenHalves(x, 4);
    WeaveOfElevenBy4(x);
  }

  lemma WeaveOfElevenBy4<T>(x: seq<T>)
    requires |x| == 11
    ensures Weave(x[..6], [x[10], x[9], x[8], x[7], x[6]], 4) == [x[0], x[1], x[2], x[3], x[10], x[9], x[8], x[7], x[4], x[5], x[6]]
  {
    var a, b := x[..6], [x[10], x[9], x[8], x[7], x[6]];
    assert a[0] == x[0] && a[1] == x[1] && a[2] == x[2] && a[3] == x[3] && a[4] == x[4] && a[5] == x[5];
    WeaveSixFiveBy4(a, b);
  }

  /** Batch size 4 on a front of six and a back of five. */
  lemma WeaveSixFiveBy4<T>(a: seq<T>, b: seq<T>)
    requires |a| == 6 && |b| == 5
    ensures Weave(a, b, 4) == [a[0], a[1], a[2], a[3], b[0], b[1], b[2], b[3], a[4], a[5], b[4]]
  {
    WeaveStep(a, b, 4);
    WeaveFrontShort(a[4..], b[4..], 4);
  }

  lemma ShuffleElevenBy5<T>(x: seq<T>)
    requires |x| == 11
    ensures ShuffleArray(x, 5) == [x[0], x[1], x[2], x[3], x[4], x[10], x[9], x[8], x[7], x[6], x[5]]
  {
    ShuffleElevenHalves(x, 5);
    WeaveOfElevenBy5(x);
  }

  lemma WeaveOfElevenBy5<T>(x: seq<T>)
    requires |x| == 11
    ensures Weave(x[..6], [x[10], x[9], x[8], x[7], x[6]], 5) == [x[0], x[1], x[2], x[3], x[4], x[10], x[9], x[8], x[7], x[6], x[5]]
  {
    var a, b := x[..6], [x[10], x[9], x[8], x[7], x[6]];
    assert a[0] == x[0] && a[1] == x[1] && a[2] == x[2] && a[3] == x[3] && a[4] == x[4] && a[5] == x[5];
    WeaveSixFiveBy5(a, b);
  }

  /** Batch size 5 on a front of six and a back of five. */
  lemma WeaveSixFiveBy5<T>(a: seq<T>, b: seq<T>)
    requires |a| == 6 && |b| == 5
    ensures Weave(a, b, 5) == [a[0], a[1], a[2], a[3], a[4], b[0], b[1], b[2], b[3], b[4], a[5]]
  {
    WeaveBackShort(a, b, 5);
  }

  /** `shuffle_array(arange(11), n)` for n = 1..5. */
  lemma ShuffleArangeEleven()
    ensures ShuffleArray(Range(11), 1) == [0, 10, 1, 9, 2, 8, 3, 7, 4, 6, 5]
    ensures ShuffleArray(Range(11), 2) == [0, 1, 10, 9, 2, 3, 8, 7, 4, 5, 6]
    ensures ShuffleArray(Range(11), 3) == [0, 1, 2, 10, 9, 8, 3, 4, 5, 7, 6]
    ensures ShuffleArray(Range(11), 4) == [0, 1, 2, 3, 10, 9, 8, 7, 4, 5, 6]
    ensures ShuffleArray(Range(11), 5) == [0, 1, 2, 3, 4, 10, 9, 8, 7, 6, 5]
  {
    var x := Range(11);
    assert x == [0, 1, 2, 3, 4, 5, 6, 7, 8, 9, 10];
    ShuffleElevenBy1(x);
    ShuffleElevenBy2(x);
    ShuffleElevenBy3(x);
    ShuffleElevenBy4(x);
    ShuffleElevenBy5(x);
  }

  // ---------------------------------------------------------------------------
  // Spiral and swinging scans with four series
  // ---------------------------------------------------------------------------

  /** Reading an array through a stride series of its indices is the stride
      series of the array. */
  lemma GatherStride<T>(xs: seq<T>, off: nat, n: nat)
    requires n > 0
    ensures forall k :: 0 <= k < |Stride<nat>(Range(|xs|), off, n)| ==> Stride<nat>(Range(|xs|), off, n)[k] < |xs|
    ensures Gather(xs, Stride<nat>(Range(|xs|), off, n)) == Stride(xs, off, n)
  {
    var idx: seq<nat> := Stride<nat>(Range(|xs|), off, n);
    forall k | 0 <= k < |idx|
      ensures idx[k] < |xs| && idx[k] == k * n + off
    {
      StrideElement<nat>(Range(|xs|), off, n, k);
    }
    var g := Gather(xs, idx);
    forall k | 0 <= k < |idx|
      ensures g[k] == Stride(xs, off, n)[k]
    {
      StrideElement(xs, off, n, k);
    }
  }

  lemma GatherAppend<T>(xs: seq<T>, o1: seq<nat>, o2: seq<nat>)
    requires forall k :: 0 <= k < |o1| ==> o1[k] < |xs|
    requires forall k :: 0 <= k < |o2| ==> o2[k] < |xs|
    ensures Gather(xs, o1 + o2) == Gather(xs, o1) + Gather(xs, o2)
  {
  }

  lemma GatherReverse<T>(xs: seq<T>, o: seq<nat>)
    requires forall k :: 0 <= k < |o| ==> o[k] < |xs|
    ensures Gather(xs, Reverse(o)) == Reverse(Gather(xs, o))
  {
  }

  lemma ConcatFour<T>(ss: seq<seq<T>>)
    requires |ss| == 4
    ensures Concat(ss) == ss[0] + ss[1] + ss[2] + ss[3]
  {
    var rest := ss[2..];
    ConcatTwoHeads(ss);
    ConcatTwoHeads(rest);
    assert rest[0] == ss[2] && rest[1] == ss[3];
    assert rest[2..] == [];
  }

  /** Gathering through four concatenated index series is the concatenation of
      the four gathers. */
  lemma GatherFour<T>(xs: seq<T>, o0: seq<nat>, o1: seq<nat>, o2: seq<nat>, o3: seq<nat>)
    requires forall k :: 0 <= k < |o0| ==> o0[k] < |xs|
    requires forall k :: 0 <= k < |o1| ==> o1[k] < |xs|
    requires forall k :: 0 <= k < |o2| ==> o2[k] < |xs|
    requires forall k :: 0 <= k < |o3| ==> o3[k] < |xs|
    ensures Gather(xs, o0 + o1 + o2 + o3) == Gather(xs, o0) + Gather(xs, o1) + Gather(xs, o2) + Gather(xs, o3)
  {
    GatherAppend(xs, o0, o1);
    GatherAppend(xs, o0 + o1, o2);
    GatherAppend(xs, o0 + o1 + o2, o3);
  }

  /** The index order of `generate_spiral_scan(angles, 4)` is the four stride
      series one after the other. */
  lemma SpiralFourOrder(angles: seq<real>)
    ensures SpiralScan(angles, 4)
         == Stride<nat>(Range(|angles|), 0, 4) + Stride<nat>(Range(|angles|), 1, 4)
          + Stride<nat>(Range(|angles|), 2, 4) + Stride<nat>(Range(|angles|), 3, 4)
  {
    ConcatFour(Strides<nat>(Range(|angles|), 4));
  }

  /** `angles[generate_spiral_scan(angles, 4)]` is
      `concatenate([angles[0::4], angles[1::4], angles[2::4], angles[3::4]])`. */
  lemma SpiralFour(angles: seq<real>)
    ensures forall k :: 0 <= k < |SpiralScan(angles, 4)| ==> SpiralScan(angles, 4)[k] < |angles|
    ensures Gather(angles, SpiralScan(angles, 4))
         == Stride(angles, 0, 4) + Stride(angles, 1, 4) + Stride(angles, 2, 4) + Stride(angles, 3, 4)
  {
    var r := Range(|angles|);
    PermutationInRange(SpiralScan(angles, 4), |angles|);
    SpiralFourOrder(angles);
    GatherStride(angles, 0, 4);
    GatherStride(angles, 1, 4);
    GatherStride(angles, 2, 4);
    GatherStride(angles, 3, 4);
    GatherFour(angles, Stride<nat>(r, 0, 4), Stride<nat>(r, 1, 4), Stride<nat>(r, 2, 4), Stride<nat>(r, 3, 4));
  }

  lemma SwingSlotsOfFour(splits: seq<seq<nat>>)
    requires |splits| == 4
    ensures SwingSlots(splits) == [splits[0], Reverse(splits[3]), splits[1], Reverse(splits[2])]
  {
    var slots := SwingSlots(splits);
    assert slots[0] == FlipOrNot(splits, 0) == splits[0];
    assert slots[1] == FlipOrNot(splits, 1) == Reverse(splits[3]);
    assert slots[2] == FlipOrNot(splits, 2) == splits[1];
    assert slots[3] == FlipOrNot(splits, 3) == Reverse(splits[2]);
  }

  /** The index order of `generate_swinging_scan(angles, 4)` takes the stride
      series 0 and 1 forwards and 3 and 2 backwards, alternating. */
  lemma SwingingFourOrder(angles: seq<real>)
    ensures SwingingScan(angles, 4)
         == Stride<nat>(Range(|angles|), 0, 4) + Reverse(Stride<nat>(Range(|angles|), 3, 4))
          + Stride<nat>(Range(|angles|), 1, 4) + Reverse(Stride<nat>(Range(|angles|), 2, 4))
  {
    var ss := Strides<nat>(Range(|angles|), 4);
    SwingSlotsOfFour(ss);
    ConcatFour(SwingSlots(ss));
  }

  /** `angles[generate_swinging_scan(angles, 4)]` is `concatenate([angles[0::4],
      flip(angles[3::4]), angles[1::4], flip(angles[2::4])])`. */
  lemma SwingingFour(angles: seq<real>)
    ensures forall k :: 0 <= k < |SwingingScan(angles, 4)| ==> SwingingScan(angles, 4)[k] < |angles|
    ensures Gather(angles, SwingingScan(angles, 4))
         == Stride(angles, 0, 4) + Reverse(Stride(angles, 3, 4))
          + Stride(angles, 1, 4) + Reverse(Stride(angles, 2, 4))
  {
    var r := Range(|angles|);
    var s0, s1, s2, s3 := Stride<nat>(r, 0, 4), Stride<nat>(r, 1, 4), Stride<nat>(r, 2, 4), Stride<nat>(r, 3, 4);
    PermutationInRange(SwingingScan(angles, 4), |angles|);
    SwingingFourOrder(angles);
    GatherStride(angles, 0, 4);
    GatherStride(angles, 1, 4);
    GatherStride(angles, 2, 4);
    GatherStride(angles, 3, 4);
    GatherReverse(angles, s3);
    GatherReverse(angles, s2);
    GatherFour(angles, s0, Reverse(s3), s1, Reverse(s2));
  }

  /** `angles[generate_spiral_scan(angles, 2)]` is `concatenate([angles[0::2], angles[1::2]])`. */
  lemma SpiralTwo(angles: seq<real>)
    ensures forall k :: 0 <= k < |SpiralScan(angles, 2)| ==> SpiralScan(angles, 2)[k] < |angles|
    ensures Gather(angles, SpiralScan(angles, 2)) == Stride(angles, 0, 2) + Stride(angles, 1, 2)
  {
    var r := Range(|angles|);
    var ss := Strides<nat>(r, 2);
    PermutationInRange(SpiralScan(angles, 2), |angles|);
    ConcatTwoHeads(ss);
    assert ss[2..] == [];
    GatherStride(angles, 0, 2);
    GatherStride(angles, 1, 2);
    GatherAppend(angles, ss[0], ss[1]);
  }

  /** `angles[generate_swinging_scan(angles, 2)]` is
      `concatenate([angles[0::2], flip(angles[1::2])])`. */
  lemma SwingingTwo(angles: seq<real>)
    ensures forall k :: 0 <= k < |SwingingScan(angles, 2)| ==> SwingingScan(angles, 2)[k] < |angles|
    ensures Gather(angles, SwingingScan(angles, 2)) == Stride(angles, 0, 2) + Reverse(Stride(angles, 1, 2))
  {
    var r := Range(|angles|);
    var ss := Strides<nat>(r, 2);
    var slots := SwingSlots(ss);
    PermutationInRange(SwingingScan(angles, 2), |angles|);
    assert slots[0] == ss[0] && slots[1] == Reverse(ss[1]);
    ConcatTwoHeads(slots);
    assert slots[2..] == [];
    GatherStride(angles, 0, 2);
    GatherStride(angles, 1, 2);
    GatherReverse(angles, ss[1]);
    GatherAppend(angles, ss[0], Reverse(ss[1]));
  }

  // ---------------------------------------------------------------------------
  // Helix positions
  // ---------------------------------------------------------------------------

  /** `generate_initial_positions(2, 10)` is `tile([0, 0.5], 5)`. */
  lemma HelixOfTwo()
    ensures InitialPositions(2, 10) == [0.0, 0.5, 0.0, 0.5, 0.0, 0.5, 0.0, 0.5, 0.0, 0.5]
  {
    var r := InitialPositions(2, 10);
    forall k | 0 <= k < 10
      ensures r[k] == if k % 2 == 0 then 0.0 else 0.5
    {
    }
  }

  /** `generate_initial_positions(1, n)` is all zeros. */
  lemma HelixOfOne(count: nat)
    requires count > 0
    ensures forall k :: 0 <= k < count ==> InitialPositions(1, count)[k] == 0.0
  {
  }

  /** Two beam shifts of a single helix: the position grid is a row of zeros
      over a row of ones (`generate_shifted_positions(a0, p0, 0, 2)`). */
  lemma TwoShiftsOfOneHelix(angles: seq<real>)
    requires |angles| > 0
    ensures ShiftedPositions(angles, InitialPositions(1, |angles|), 0, 2).positions
         == [seq(|angles|, _ => 0.0), seq(|angles|, _ => 1.0)]
  {
    var n := |angles|;
    var g := ShiftedPositions(angles, InitialPositions(1, n), 0, 2).positions;
    forall row, c | 0 <= row < 2 && 0 <= c < n
      ensures g[row][c] == row as real
    {
      assert c % 1 == 0;
    }
    assert g[0] == seq(n, _ => 0.0);
    assert g[1] == seq(n, _ => 1.0);
  }

  /** Ordered by angle, the two shifts alternate: `[0, 1, 0, 1, ...]`. */
  lemma FinalOrderByAngle(angles: seq<real>)
    requires |angles| > 0
    ensures Layout(ShiftedPositions(angles, InitialPositions(1, |angles|), 0, 2).positions,
                   2, |angles|, "angle", false)
         == seq(2 * |angles|, k => (k % 2) as real)
  {
    var n := |angles|;
    var g := ShiftedPositions(angles, InitialPositions(1, n), 0, 2).positions;
    TwoShiftsOfOneHelix(angles);
    LayoutCells(g, 2, n, "angle", false);
    var r := Layout(g, 2, n, "angle", false);
    forall k | 0 <= k < 2 * n
      ensures r[k] == (k % 2) as real
    {
      var c, row := k / 2, k % 2;
      assert CellSlot(AngleByAngle, row, c, 2, n) == k;
    }
  }

  /** Ordered by position, the zeros of the first shift precede the ones of
      the second. */
  lemma FinalOrderByPosition(angles: seq<real>)
    requires |angles| > 0
    ensures Layout(ShiftedPositions(angles, InitialPositions(1, |angles|), 0, 2).positions,
                   2, |angles|, "position", false)
         == seq(|angles|, _ => 0.0) + seq(|angles|, _ => 1.0)
  {
    var n := |angles|;
    var g := ShiftedPositions(angles, InitialPositions(1, n), 0, 2).positions;
    TwoShiftsOfOneHelix(angles);
    assert Concat(g) == g[0] + Concat(g[1..]);
    assert Concat(g[1..]) == g[1] + Concat(g[2..]);
  }

  // ---------------------------------------------------------------------------
  // generate_scan with four spiral or swinging series and one beam shift
  // ---------------------------------------------------------------------------

  /** `generate_scan(mode="spiral", stepnum=4)` acquires the four stride series in turn. */
  lemma ScanSpiralFour(angles: seq<real>, p: Params)
    requires GenerateScan(angles, p).Ok?
    requires p.mode == "spiral" && p.stepnum == 4 && p.pmax - p.pmin == 1
    ensures GenerateScan(angles, p).value.angles
         == Stride(angles, 0, 4) + Stride(angles, 1, 4) + Stride(angles, 2, 4) + Stride(angles, 3, 4)
  {
    SingleShiftAngles(angles, p);
    SpiralFour(angles);
  }

  /** `generate_scan(mode="swinging", stepnum=4)` sweeps forwards and backwards. */
  lemma ScanSwingingFour(angles: seq<real>, p: Params)
    requires GenerateScan(angles, p).Ok?
    requires p.mode == "swinging" && p.stepnum == 4 && p.pmax - p.pmin == 1
    ensures GenerateScan(angles, p).value.angles
         == Stride(angles, 0, 4) + Reverse(Stride(angles, 3, 4))
          + Stride(angles, 1, 4) + Reverse(Stride(angles, 2, 4))
  {
    SingleShiftAngles(angles, p);
    SwingingFour(angles);
  }
}
