/** The three acquisition schemes (`generate_dose_symmetric_scan`,
    `generate_spiral_scan`, `generate_swinging_scan`). Each looks only at the
    number of angles (and, for the dose-symmetric scan, their distance from
    the reference angle) and returns an index order over them; the angles
    themselves are never recomputed. */
module Schemes {
  import opened Arith
  import opened Seqs
  import opened Shuffle
  import opened StableSort

  // ---------------------------------------------------------------------------
  // Dose-symmetric scan
  // ---------------------------------------------------------------------------

  /** Every round `i < rounds` shuffles with batch size `2^i`, which
      `shuffle_array` accepts only while it is at most half the length. */
  predicate RoundsFit(rounds: nat, len: nat) {
    rounds == 0 || Pow2(rounds - 1) <= len / 2
  }

  /** A round count that fits still fits with one round fewer. */
  lemma RoundsFitFewer(rounds: nat, len: nat)
    requires rounds > 0 && RoundsFit(rounds, len)
    ensures RoundsFit(rounds - 1, len)
  {
    if rounds >= 2 {
      Pow2Monotone(rounds - 2, rounds - 1);
    }
  }

  /** `for i in range(rounds): order = shuffle_array(order, 2**i)`. */
  function ShuffleRounds(order: seq<nat>, rounds: nat): (r: seq<nat>)
    requires RoundsFit(rounds, |order|)
    ensures |r| == |order|
    ensures multiset(r) == multiset(order)
  {
    if rounds == 0 then order
    else
      RoundsFitFewer(rounds, |order|);
      var prev := ShuffleRounds(order, rounds - 1);
      ShuffleArray(prev, Pow2(rounds - 1))
  }

  /** The shuffle rounds a dose-symmetric scan of the given symmetry performs
      (`symmetry - 1` of them, none for symmetry 0 or less). */
  function RoundCount(symmetry: int): nat {
    if symmetry > 1 then symmetry - 1 else 0
  }

  /** `generate_dose_symmetric_scan(angles, symmetry, zero)`. For symmetry 0 (or
      less) the continuous order; otherwise the indices sorted by distance from
      `zero`, then shuffled `symmetry - 1` times with batches 1, 2, 4, ... */
  function DoseSymmetricScan(angles: seq<real>, symmetry: int, zero: real): (order: seq<nat>)
    requires RoundsFit(RoundCount(symmetry), |angles|)
    ensures IsIndexPermutation(order, |angles|)
    ensures symmetry <= 0 ==> order == Range(|angles|)
    ensures symmetry == 1 ==>
              InKeyRange(Deviations(angles, zero), order) &&
              Ordered(Deviations(angles, zero), order)
  {
    if symmetry > 0 then
      var sorted := DeviationOrder(angles, zero);
      ShuffleRounds(sorted, RoundCount(symmetry))
    else
      Range(|angles|)
  }

  /** Raising the symmetry by one adds one shuffle round, with batch size
      `2^(symmetry - 1)`, on top of the previous order. */
  lemma DoseSymmetricStep(angles: seq<real>, symmetry: int, zero: real)
    requires symmetry >= 2
    requires RoundsFit(RoundCount(symmetry), |angles|)
    ensures RoundsFit(RoundCount(symmetry - 1), |angles|)
    ensures Pow2(symmetry - 2) <= |DoseSymmetricScan(angles, symmetry - 1, zero)| / 2
    ensures DoseSymmetricScan(angles, symmetry, zero)
         == ShuffleArray(DoseSymmetricScan(angles, symmetry - 1, zero), Pow2(symmetry - 2))
  {
    var sorted := DeviationOrder(angles, zero);
    DoseSymmetricIsRounds(angles, symmetry, zero);
    DoseSymmetricIsRounds(angles, symmetry - 1, zero);
    RoundsFitFewer(symmetry - 1, |angles|);
    ShuffleRoundsLast(sorted, symmetry - 1,
      DoseSymmetricScan(angles, symmetry - 1, zero), DoseSymmetricScan(angles, symmetry, zero));
  }

  /** `ShuffleRoundsStep` with the two orders named. */
  lemma ShuffleRoundsLast(order: seq<nat>, rounds: nat, prev: seq<nat>, cur: seq<nat>)
    requires rounds > 0 && RoundsFit(rounds, |order|)
    requires RoundsFit(rounds - 1, |order|)
    requires prev == ShuffleRounds(order, rounds - 1) && cur == ShuffleRounds(order, rounds)
    ensures Pow2(rounds - 1) <= |prev| / 2
    ensures cur == ShuffleArray(prev, Pow2(rounds - 1))
  {
    ShuffleRoundsStep(order, rounds);
  }

  /** A positive symmetry shuffles the distance order `RoundCount` times. */
  lemma DoseSymmetricIsRounds(angles: seq<real>, symmetry: int, zero: real)
    requires symmetry > 0 && RoundsFit(RoundCount(symmetry), |angles|)
    ensures |DeviationOrder(angles, zero)| == |angles|
    ensures DoseSymmetricScan(angles, symmetry, zero) == ShuffleRounds(DeviationOrder(angles, zero), RoundCount(symmetry))
  {
  }

  /** The last shuffle round acts on the order the earlier rounds left. */
  lemma ShuffleRoundsStep(order: seq<nat>, rounds: nat)
    requires rounds > 0 && RoundsFit(rounds, |order|)
    ensures RoundsFit(rounds - 1, |order|)
    ensures Pow2(rounds - 1) <= |ShuffleRounds(order, rounds - 1)| / 2
    ensures ShuffleRounds(order, rounds) == ShuffleArray(ShuffleRounds(order, rounds - 1), Pow2(rounds - 1))
  {
    RoundsFitFewer(rounds, |order|);
  }

  // ---------------------------------------------------------------------------
  // Spiral scan
  // ---------------------------------------------------------------------------

  /** `generate_spiral_scan(angles, n)`: for `n > 1`, the `n` stride series
      `order[i::n]` one after another; otherwise the continuous order. */
  function SpiralScan(angles: seq<real>, n: int): (order: seq<nat>)
    ensures IsIndexPermutation(order, |angles|)
    ensures n <= 1 ==> order == Range(|angles|)
  {
    var order := Range(|angles|);
    if n > 1 then
      StridesPartition(order, n);
      Concat(Strides(order, n))
    else
      order
  }

  /** The residue of each index modulo `n`: the key a spiral scan is sorted by. */
  function Residues(count: nat, n: nat): (key: seq<real>)
    requires n > 0
    ensures |key| == count
    ensures forall i :: 0 <= i < count ==> key[i] == (i % n) as real
  {
    seq(count, i requires 0 <= i < count => (i % n) as real)
  }

  /** The spiral scan lists the indices grouped by their residue modulo `n`
      (residue 0 first), each group in increasing order; it is the stable
      sort of `0..N-1` by `i % n`. */
  lemma SpiralIsResidueSort(angles: seq<real>, n: int)
    requires n > 1
    ensures InKeyRange(Residues(|angles|, n), SpiralScan(angles, n))
    ensures Ordered(Residues(|angles|, n), SpiralScan(angles, n))
    ensures SpiralScan(angles, n) == SortByKey(Residues(|angles|, n), Range(|angles|))
  {
    var count := |angles|;
    var key := Residues(count, n);
    var ss := Strides(Range(count), n);
    forall i | 0 <= i < n
      ensures InKeyRange(key, ss[i]) && Ordered(key, ss[i])
      ensures forall m :: 0 <= m < |ss[i]| ==> key[ss[i][m]] == i as real
    {
      StrideOfRange(count, i, n);
    }
    OrderedConcat(key, ss, 0);
    PermutationInRange(SpiralScan(angles, n), count);
    assert InKeyRange(key, Range(count));
    OrderedUnique(key, SpiralScan(angles, n), SortByKey(key, Range(count)));
  }

  /** `arange(count)[off::n]` holds `off, off + n, off + 2n, ...`, all with residue `off`. */
  lemma StrideOfRange(count: nat, off: nat, n: nat)
    requires 0 <= off < n
    ensures InKeyRange(Residues(count, n), Stride(Range(count), off, n))
    ensures Ordered(Residues(count, n), Stride(Range(count), off, n))
    ensures forall m :: 0 <= m < |Stride(Range(count), off, n)| ==>
              Residues(count, n)[Stride(Range(count), off, n)[m]] == off as real
  {
    var s := Stride(Range(count), off, n);
    var key := Residues(count, n);
    StrideElements(Range(count), off, n);
    forall m | 0 <= m < |s|
      ensures s[m] < count && key[s[m]] == off as real
    {
      DivModUnique(off + m * n, n, m, off);
    }
    forall p, q | 0 <= p < q < |s|
      ensures !Precedes(key, s[q], s[p])
    {
      assert p * n < q * n by {
        MulAtLeastFactor(q - p, n);
        assert (q - p) * n == q * n - p * n;
      }
    }
  }

  /** Series whose keys are the consecutive values `base, base + 1, ...`, each
      series ordered, concatenate to an ordered sequence. */
  lemma {:induction false} OrderedConcat(key: seq<real>, ss: seq<seq<nat>>, base: nat)
    requires forall i :: 0 <= i < |ss| ==> InKeyRange(key, ss[i]) && Ordered(key, ss[i])
    requires forall i, m :: 0 <= i < |ss| && 0 <= m < |ss[i]| ==>
               ss[i][m] < |key| && key[ss[i][m]] == (base + i) as real
    ensures InKeyRange(key, Concat(ss)) && Ordered(key, Concat(ss))
    ensures forall p :: 0 <= p < |Concat(ss)| ==> key[Concat(ss)[p]] >= base as real
    decreases |ss|
  {
    if |ss| > 0 {
      var head, tail := ss[0], ss[1..];
      forall i, m | 0 <= i < |tail| && 0 <= m < |tail[i]|
        ensures key[tail[i][m]] == (base + 1 + i) as real
      {
        assert tail[i] == ss[i + 1];
      }
      OrderedConcat(key, tail, base + 1);
      var rest := Concat(tail);
      assert Concat(ss) == head + rest;
      forall p, q | 0 <= p < q < |head + rest|
        ensures !Precedes(key, (head + rest)[q], (head + rest)[p])
      {
        if q >= |head| && p < |head| {
          assert key[(head + rest)[p]] == base as real;
          assert key[(head + rest)[q]] >= (base + 1) as real;
        } else if q < |head| {
          assert (head + rest)[q] == head[q] && (head + rest)[p] == head[p];
        } else {
          assert (head + rest)[q] == rest[q - |head|] && (head + rest)[p] == rest[p - |head|];
        }
      }
      forall p | 0 <= p < |head + rest|
        ensures key[(head + rest)[p]] >= base as real
      {
        if p < |head| {
          assert (head + rest)[p] == head[p];
        } else {
          assert (head + rest)[p] == rest[p - |head|];
        }
      }
    }
  }

  // ---------------------------------------------------------------------------
  // Swinging scan
  // ---------------------------------------------------------------------------

  /** `flip_or_not(splits, i)`: output slot `i` takes series `i / 2` forwards
      when `i` is even, and series `len(splits) - i / 2 - 1` backwards when odd. */
  function FlipOrNot(splits: seq<seq<nat>>, i: nat): (slot: seq<nat>)
    requires i < |splits|
    ensures SlotSource(i, |splits|) < |splits|
    ensures |slot| == |splits[SlotSource(i, |splits|)]|
    ensures multiset(slot) == multiset(splits[SlotSource(i, |splits|)])
  {
    if i % 2 == 0 then splits[i / 2]
    else
      ReverseMultiset(splits[|splits| - i / 2 - 1]);
      Reverse(splits[|splits| - i / 2 - 1])
  }

  /** The slots of a swinging scan, in output order. */
  function SwingSlots(splits: seq<seq<nat>>): (slots: seq<seq<nat>>)
    ensures |slots| == |splits|
  {
    seq(|splits|, i requires 0 <= i < |splits| => FlipOrNot(splits, i))
  }

  /** `generate_swinging_scan(angles, n)`: for `n > 1`, the stride series taken
      alternately from the front (forwards) and from the back (reversed);
      otherwise the continuous order. */
  function SwingingScan(angles: seq<real>, n: int): (order: seq<nat>)
    ensures IsIndexPermutation(order, |angles|)
    ensures n <= 1 ==> order == Range(|angles|)
  {
    var order := Range(|angles|);
    if n > 1 then
      var splits := Strides(order, n);
      SwingSlotsArePeel(splits);
      SwingPeelMultiset(splits);
      StridesPartition(order, n);
      Concat(SwingSlots(splits))
    else
      order
  }

  /** The boustrophedon sweep defined from both ends: first series forwards,
      last series backwards, then the same for the series in between. */
  function SwingPeel(splits: seq<seq<nat>>): seq<nat>
    decreases |splits|
  {
    if |splits| == 0 then []
    else if |splits| == 1 then splits[0]
    else splits[0] + Reverse(splits[|splits| - 1]) + SwingPeel(splits[1..|splits| - 1])
  }

  /** Which series fills output slot `i` of `n`. */
  function SlotSource(i: nat, n: nat): nat
    requires i < n
  {
    if i % 2 == 0 then i / 2 else n - 1 - i / 2
  }

  /** Which output slot series `j` of `n` fills. */
  function SlotOf(j: nat, n: nat): nat
    requires j < n
  {
    if 2 * j < n then 2 * j else 2 * (n - 1 - j) + 1
  }

  /** The slot assignment of the swinging scan is a bijection between slots and
      series: every series is used exactly once, and series `j` is reversed
      exactly when it lands in an odd slot, i.e. when `2 * j >= n`. */
  lemma SwingSlotsBijective(n: nat)
    ensures forall i :: 0 <= i < n ==> SlotSource(i, n) < n && SlotOf(SlotSource(i, n), n) == i
    ensures forall j :: 0 <= j < n ==> SlotOf(j, n) < n && SlotSource(SlotOf(j, n), n) == j
    ensures forall j :: 0 <= j < n ==> (SlotOf(j, n) % 2 == 1 <==> 2 * j >= n)
  {
  }

  /** Where each series ends up: series `j` of `n` fills slot `SlotOf(j, n)`,
      forwards in the first half of the series and reversed in the second. */
  lemma SwingSlotOfSeries(splits: seq<seq<nat>>)
    ensures forall j :: 0 <= j < |splits| ==>
              SlotOf(j, |splits|) < |splits| &&
              SwingSlots(splits)[SlotOf(j, |splits|)] == if 2 * j < |splits| then splits[j] else Reverse(splits[j])
  {
    var n := |splits|;
    forall j | 0 <= j < n
      ensures SlotOf(j, n) < n &&
              SwingSlots(splits)[SlotOf(j, n)] == if 2 * j < n then splits[j] else Reverse(splits[j])
    {
      var i := SlotOf(j, n);
      if 2 * j < n {
        DivModUnique(i, 2, j, 0);
      } else {
        DivModUnique(i, 2, n - 1 - j, 1);
      }
      assert SwingSlots(splits)[i] == FlipOrNot(splits, i);
    }
  }

  /** Reading the slots in order is the sweep from both ends. */
  lemma {:induction false} SwingSlotsArePeel(splits: seq<seq<nat>>)
    ensures Concat(SwingSlots(splits)) == SwingPeel(splits)
    decreases |splits|
  {
    var n := |splits|;
    if n == 1 {
      assert SwingSlots(splits)[1..] == [];
    } else if n >= 2 {
      var inner := splits[1..n - 1];
      SwingSlotsArePeel(inner);
      SwingSlotsOuter(splits);
      ConcatTwoHeads(SwingSlots(splits));
    }
  }

  /** The first two slots are the outer series; the remaining slots are those
      of the series in between. */
  lemma SwingSlotsOuter(splits: seq<seq<nat>>)
    requires |splits| >= 2
    ensures SwingSlots(splits)[0] == splits[0]
    ensures SwingSlots(splits)[1] == Reverse(splits[|splits| - 1])
    ensures SwingSlots(splits)[2..] == SwingSlots(splits[1..|splits| - 1])
  {
    var n := |splits|;
    var slots, innerSlots := SwingSlots(splits), SwingSlots(splits[1..n - 1]);
    assert slots[0] == FlipOrNot(splits, 0);
    assert slots[1] == FlipOrNot(splits, 1);
    SwingSlotsShifted(splits);
    assert |slots[2..]| == |innerSlots|;
  }

  /** Slot `i + 2` of the series is slot `i` of the series in between. */
  lemma SwingSlotsShifted(splits: seq<seq<nat>>)
    requires |splits| >= 2
    ensures forall i :: 0 <= i < |splits| - 2 ==>
              SwingSlots(splits)[2..][i] == SwingSlots(splits[1..|splits| - 1])[i]
  {
    var n := |splits|;
    forall i | 0 <= i < n - 2
      ensures SwingSlots(splits)[2..][i] == SwingSlots(splits[1..n - 1])[i]
    {
      SwingSlotShifted(splits, i);
    }
  }

  lemma SwingSlotShifted(splits: seq<seq<nat>>, i: nat)
    requires i + 2 < |splits|
    ensures SwingSlots(splits)[2..][i] == SwingSlots(splits[1..|splits| - 1])[i]
  {
    assert SwingSlots(splits)[2..][i] == FlipOrNot(splits, i + 2);
    assert SwingSlots(splits[1..|splits| - 1])[i] == FlipOrNot(splits[1..|splits| - 1], i);
    FlipOrNotInner(splits, i);
  }

  /** Slot `i + 2` of the series reads what slot `i` of the inner series reads. */
  lemma FlipOrNotInner(splits: seq<seq<nat>>, i: nat)
    requires i + 2 < |splits|
    ensures FlipOrNot(splits, i + 2) == FlipOrNot(splits[1..|splits| - 1], i)
  {
    var n, h, r := |splits|, i / 2, i % 2;
    var inner := splits[1..n - 1];
    DivModUnique(i + 2, 2, h + 1, r);
    if r == 0 {
      assert inner[h] == splits[h + 1];
    } else {
      var src := splits[n - h - 2];
      assert inner[n - h - 3] == src;
      assert FlipOrNot(splits, i + 2) == Reverse(src);
      assert FlipOrNot(inner, i) == Reverse(src);
    }
  }

  lemma ConcatTwoHeads<T>(ss: seq<seq<T>>)
    requires |ss| >= 2
    ensures Concat(ss) == ss[0] + ss[1] + Concat(ss[2..])
  {
    assert ss[1..][0] == ss[1] && ss[1..][1..] == ss[2..];
  }

  /** The sweep from both ends uses every series once. */
  lemma {:induction false} SwingPeelMultiset(splits: seq<seq<nat>>)
    ensures multiset(SwingPeel(splits)) == multiset(Concat(splits))
    decreases |splits|
  {
    var n := |splits|;
    if n == 1 {
      assert splits[1..] == [];
    } else if n >= 2 {
      var first, inner, last := splits[0], splits[1..n - 1], splits[n - 1];
      assert SwingPeel(splits) == first + Reverse(last) + SwingPeel(inner);
      SwingPeelMultiset(inner);
      ReverseMultiset(last);
      ConcatOuter(splits);
      calc {
        multiset(SwingPeel(splits));
        multiset(first) + multiset(Reverse(last)) + multiset(SwingPeel(inner));
        multiset(first) + multiset(last) + multiset(Concat(inner));
      }
    }
  }

  /** The concatenation of at least two series splits into the first, the middle
      ones and the last. */
  lemma ConcatOuter<T>(ss: seq<seq<T>>)
    requires |ss| >= 2
    ensures multiset(Concat(ss))
         == multiset(ss[0]) + multiset(Concat(ss[1..|ss| - 1])) + multiset(ss[|ss| - 1])
  {
    var n := |ss|;
    var middle, last := ss[1..n - 1], [ss[n - 1]];
    assert Concat(ss) == ss[0] + Concat(ss[1..]);
    assert ss[1..] == middle + last by {
      forall k | 0 <= k < n - 1
        ensures ss[1..][k] == (middle + last)[k]
      {
        if k < n - 2 {
          assert (middle + last)[k] == middle[k];
        }
      }
    }
    ConcatMultiset(middle, last);
    assert last[1..] == [];
    assert Concat(last) == ss[n - 1] + Concat(last[1..]);
  }
}
