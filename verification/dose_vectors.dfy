/** The dose-symmetric scans of the repository's 40-angle series
    `arange(-90, 90, 4.5)` for symmetry 1 to 5, and `generate_scan` on that
    series with symmetry 5. The symmetry-1 order is derived for every evenly
    spaced series whose middle angle is the zero; every further shuffle round
    is carried from the index order to the angles (`GatherShuffle`) and read
    off entry by entry from the slots `Shuffle.ShuffleFrontSlot` and
    `Shuffle.ShuffleBackSlot` give. */
module DoseVectors {
  import opened Seqs
  import opened Shuffle
  import opened StableSort
  import opened Arith
  import opened Schemes
  import opened Vectors
  import opened Scan
  import opened TestVectors

  /** `angles` is `np.arange(-90, 90, 4.5)`: the angles -90 + 4.5 i for i in 0..39. */
  predicate IsTiltSeries(angles: seq<real>) {
    |angles| == 40 && forall i :: 0 <= i < 40 ==> angles[i] == 4.5 * (i as real) - 90.0
  }

  /** The centre-out order of `2c` indices: c, c-1, c+1, c-2, c+2, ..., 1, 2c-1, 0. */
  function CentreOut(c: nat): (r: seq<nat>)
    ensures |r| == 2 * c
  {
    seq(2 * c, k requires 0 <= k < 2 * c => if k % 2 == 0 then c + k / 2 else c - 1 - k / 2)
  }

  /** The centre-out order is `shuffle_array(x, 1)` of the rotation
      `c..2c-1, 0..c-1`, so it lists every index once. */
  lemma CentreOutIsShuffle(c: nat)
    requires c > 0
    ensures CentreOut(c) == ShuffleArray(Range(2 * c)[c..] + Range(2 * c)[..c], 1)
    ensures IsIndexPermutation(CentreOut(c), 2 * c)
  {
    var n := 2 * c;
    var rot := Range(n)[c..] + Range(n)[..c];
    ShuffleByOne(rot);
    AlternationIsCentreOut(c, rot, ShuffleArray(rot, 1));
    assert Range(n) == Range(n)[..c] + Range(n)[c..];
  }

  /** Reading the rotation `c..2c-1, 0..c-1` alternately from the front and
      from the back gives the centre-out order. */
  lemma AlternationIsCentreOut(c: nat, rot: seq<nat>, r: seq<nat>)
    requires c > 0 && rot == Range(2 * c)[c..] + Range(2 * c)[..c]
    requires |r| == 2 * c
    requires forall k :: 0 <= k < |rot| ==> r[k] == if k % 2 == 0 then rot[k / 2] else rot[|rot| - 1 - k / 2]
    ensures r == CentreOut(c)
  {
    forall k | 0 <= k < 2 * c
      ensures r[k] == CentreOut(c)[k]
    {
      if k % 2 == 0 {
        assert rot[k / 2] == c + k / 2;
      } else {
        assert rot[2 * c - 1 - k / 2] == c - 1 - k / 2;
      }
    }
  }

  /** Entry `k` of the centre-out order lies `(k + 1) / 2` steps from the middle. */
  lemma CentreOutDeviation(angles: seq<real>, zero: real, step: real, c: nat, k: nat)
    requires |angles| == 2 * c && step > 0.0 && k < 2 * c
    requires forall i :: 0 <= i < |angles| ==> angles[i] == zero + step * ((i - c) as real)
    ensures CentreOut(c)[k] < |angles|
    ensures Deviations(angles, zero)[CentreOut(c)[k]] == step * (((k + 1) / 2) as real)
  {
    var i := CentreOut(c)[k];
    assert Deviations(angles, zero)[i] == Deviation(angles[i], zero);
    if k % 2 == 0 {
      assert i - c == k / 2 == (k + 1) / 2;
      assert angles[i] - zero == step * ((k / 2) as real);
    } else {
      assert i - c == -((k + 1) / 2);
      assert angles[i] - zero == step * ((i - c) as real) == -(step * (((k + 1) / 2) as real));
    }
  }

  /** When the keys grow by whole steps along the centre-out order, every entry
      of it precedes the next: by a smaller key, or for the two angles equally
      far below and above the middle, by the lower index. */
  lemma CentreOutAdjacent(key: seq<real>, step: real, c: nat, k: nat)
    requires |key| == 2 * c && step > 0.0 && k + 1 < 2 * c
    requires CentreOut(c)[k] < |key| && CentreOut(c)[k + 1] < |key|
    requires key[CentreOut(c)[k]] == step * (((k + 1) / 2) as real)
    requires key[CentreOut(c)[k + 1]] == step * (((k + 2) / 2) as real)
    ensures Precedes(key, CentreOut(c)[k], CentreOut(c)[k + 1])
  {
    CentreOutTie(c, k);
    PrecedesBySteps(key, CentreOut(c)[k], CentreOut(c)[k + 1], step, (k + 1) / 2, (k + 2) / 2);
  }

  /** Neighbours of the centre-out order are either a step apart from the
      middle or mirror images, the lower index first. */
  lemma CentreOutTie(c: nat, k: nat)
    requires k + 1 < 2 * c
    ensures (k + 1) / 2 < (k + 2) / 2 || ((k + 1) / 2 == (k + 2) / 2 && CentreOut(c)[k] < CentreOut(c)[k + 1])
  {
  }

  /** Keys that are whole multiples of a positive step compare as the multiples do. */
  lemma PrecedesBySteps(key: seq<real>, i: nat, j: nat, step: real, m1: nat, m2: nat)
    requires i < |key| && j < |key| && step > 0.0
    requires key[i] == step * (m1 as real) && key[j] == step * (m2 as real)
    requires m1 < m2 || (m1 == m2 && i < j)
    ensures Precedes(key, i, j)
  {
    if m1 < m2 {
      assert step * (m2 as real) - step * (m1 as real) == step * ((m2 - m1) as real);
    }
  }

  /** Symmetry 1 on an evenly spaced series of `2c` angles centred on the
      zero: the indices leave the middle alternately downwards and upwards,
      ending at the lowest angle. */
  lemma EvenSeriesOrder(angles: seq<real>, zero: real, step: real, c: nat)
    requires |angles| == 2 * c && c > 0 && step > 0.0
    requires forall i :: 0 <= i < |angles| ==> angles[i] == zero + step * ((i - c) as real)
    ensures DeviationOrder(angles, zero) == CentreOut(c)
  {
    var key := Deviations(angles, zero);
    var order := CentreOut(c);
    CentreOutIsShuffle(c);
    PermutationInRange(order, 2 * c);
    CentreOutKeys(angles, zero, step, c);
    CentreOutOrdered(key, step, c);
    DeviationOrderCharacterized(angles, zero, order);
  }

  /** Every entry of the centre-out order with its deviation. */
  lemma CentreOutKeys(angles: seq<real>, zero: real, step: real, c: nat)
    requires |angles| == 2 * c && step > 0.0
    requires forall i :: 0 <= i < |angles| ==> angles[i] == zero + step * ((i - c) as real)
    ensures forall k :: 0 <= k < 2 * c ==>
              CentreOut(c)[k] < |angles| && Deviations(angles, zero)[CentreOut(c)[k]] == step * (((k + 1) / 2) as real)
  {
    forall k | 0 <= k < 2 * c
      ensures CentreOut(c)[k] < |angles| && Deviations(angles, zero)[CentreOut(c)[k]] == step * (((k + 1) / 2) as real)
    {
      CentreOutDeviation(angles, zero, step, c, k);
    }
  }

  /** Keys growing by whole steps along the centre-out order make it ordered. */
  lemma CentreOutOrdered(key: seq<real>, step: real, c: nat)
    requires |key| == 2 * c && step > 0.0
    requires forall k :: 0 <= k < 2 * c ==>
               CentreOut(c)[k] < |key| && key[CentreOut(c)[k]] == step * (((k + 1) / 2) as real)
    ensures InKeyRange(key, CentreOut(c)) && Ordered(key, CentreOut(c))
  {
    var order := CentreOut(c);
    forall p | 0 <= p < |order| - 1
      ensures Precedes(key, order[p], order[p + 1])
    {
      CentreOutAdjacent(key, step, c, p);
    }
    OrderedFromAdjacent(key, order);
  }

  /** Every entry of a weave of two index sequences comes from one of them. */
  lemma WeaveInRange(a: seq<nat>, b: seq<nat>, n: nat, bound: nat)
    requires n > 0
    requires forall k :: 0 <= k < |a| ==> a[k] < bound
    requires forall k :: 0 <= k < |b| ==> b[k] < bound
    ensures |Weave<nat>(a, b, n)| == |a| + |b|
    ensures forall k :: 0 <= k < |Weave<nat>(a, b, n)| ==> Weave<nat>(a, b, n)[k] < bound
  {
    var w := Weave<nat>(a, b, n);
    WeaveMultiset<nat>(a, b, n);
    forall k | 0 <= k < |w|
      ensures w[k] < bound
    {
      assert w[k] in multiset(a + b);
      var i :| 0 <= i < |a + b| && (a + b)[i] == w[k];
    }
  }

  /** Weaving two index sequences and then reading an array through the result
      is weaving the two readings: the batches move entries without looking
      at them. */
  lemma {:induction false} GatherWeave<T>(xs: seq<T>, a: seq<nat>, b: seq<nat>, n: nat)
    requires n > 0
    requires forall k :: 0 <= k < |a| ==> a[k] < |xs|
    requires forall k :: 0 <= k < |b| ==> b[k] < |xs|
    ensures |Weave<nat>(a, b, n)| == |a| + |b|
    ensures forall k :: 0 <= k < |Weave<nat>(a, b, n)| ==> Weave<nat>(a, b, n)[k] < |xs|
    ensures Gather(xs, Weave<nat>(a, b, n)) == Weave(Gather(xs, a), Gather(xs, b), n)
    decreases |a|
  {
    WeaveInRange(a, b, n, |xs|);
    var ga, gb := Gather(xs, a), Gather(xs, b);
    if |a| <= n {
      WeaveFrontShort<nat>(a, b, n);
      WeaveFrontShort(ga, gb, n);
      GatherAppend(xs, a, b);
    } else if |b| <= n {
      WeaveBackShort<nat>(a, b, n);
      WeaveBackShort(ga, gb, n);
      assert ga[..n] == Gather(xs, a[..n]) && ga[n..] == Gather(xs, a[n..]);
      GatherAppend(xs, a[..n], b);
      GatherAppend(xs, a[..n] + b, a[n..]);
    } else {
      WeaveStep<nat>(a, b, n);
      WeaveStep(ga, gb, n);
      assert ga[..n] == Gather(xs, a[..n]) && ga[n..] == Gather(xs, a[n..]);
      assert gb[..n] == Gather(xs, b[..n]) && gb[n..] == Gather(xs, b[n..]);
      GatherWeave(xs, a[n..], b[n..], n);
      GatherAppend(xs, a[..n], b[..n]);
      GatherAppend(xs, a[..n] + b[..n], Weave<nat>(a[n..], b[n..], n));
    }
  }

  /** `angles[shuffle_array(order, n)]` is `shuffle_array(angles[order], n)`:
      shuffling an index order and reading the angles through it gives the
      same sequence as shuffling the angles already read. */
  lemma GatherShuffle<T>(xs: seq<T>, order: seq<nat>, n: nat)
    requires 0 < n <= |order| / 2
    requires forall k :: 0 <= k < |order| ==> order[k] < |xs|
    ensures forall k :: 0 <= k < |order| ==> ShuffleArray<nat>(order, n)[k] < |xs|
    ensures Gather(xs, ShuffleArray<nat>(order, n)) == ShuffleArray(Gather(xs, order), n)
  {
    var h := FrontLength(|order|);
    var g := Gather(xs, order);
    var front, back := order[..h], Reverse(order[h..]);
    assert g[..h] == Gather(xs, front) && g[h..] == Gather(xs, order[h..]);
    GatherReverse(xs, order[h..]);
    GatherWeave(xs, front, back, n);
    assert ShuffleArray<nat>(order, n) == Weave<nat>(front, back, n);
    assert ShuffleArray(g, n) == Weave(g[..h], Reverse(g[h..]), n);
  }

  /** Of 40 entries, front-half entry `j` goes to slot `(j / n) * n + j`: its
      own earlier batches and as many batches of the back half precede it. */
  lemma FortyFront<T>(x: seq<T>, n: nat, j: nat, k: nat)
    requires |x| == 40 && 0 < n <= 20 && j < 20
    requires k == (j / n) * n + j
    ensures k < 40 && ShuffleArray(x, n)[k] == x[j]
  {
    ShuffleFrontSlot(x, n, j);
    FloorDivBounds(j, n);
  }

  /** Of 40 entries, entry `39 - j` (entry `j` of the reversed back half) goes
      behind the matching front batch, or behind the whole front half once
      that has run out. */
  lemma FortyBack<T>(x: seq<T>, n: nat, j: nat, k: nat)
    requires |x| == 40 && 0 < n <= 20 && j < 20
    requires k == (if (j / n + 1) * n <= 20 then (j / n + 1) * n else 20) + j
    ensures k < 40 && ShuffleArray(x, n)[k] == x[39 - j]
  {
    ShuffleBackSlot(x, n, j);
  }

  /** `shuffle_array(x, 1)` of 40 entries: where the front-half entries land. */
  lemma ShuffleFortyBy1Front<T>(x: seq<T>)
    requires |x| == 40
    ensures |ShuffleArray(x, 1)| == 40
    ensures ShuffleArray(x, 1)[0] == x[0]
    ensures ShuffleArray(x, 1)[2] == x[1]
    ensures ShuffleArray(x, 1)[4] == x[2]
    ensures ShuffleArray(x, 1)[6] == x[3]
    ensures ShuffleArray(x, 1)[8] == x[4]
    ensures ShuffleArray(x, 1)[10] == x[5]
    ensures ShuffleArray(x, 1)[12] == x[6]
    ensures ShuffleArray(x, 1)[14] == x[7]
    ensures ShuffleArray(x, 1)[16] == x[8]
    ensures ShuffleArray(x, 1)[18] == x[9]
    ensures ShuffleArray(x, 1)[20] == x[10]
    ensures ShuffleArray(x, 1)[22] == x[11]
    ensures ShuffleArray(x, 1)[24] == x[12]
    ensures ShuffleArray(x, 1)[26] == x[13]
    ensures ShuffleArray(x, 1)[28] == x[14]
    ensures ShuffleArray(x, 1)[30] == x[15]
    ensures ShuffleArray(x, 1)[32] == x[16]
    ensures ShuffleArray(x, 1)[34] == x[17]
    ensures ShuffleArray(x, 1)[36] == x[18]
    ensures ShuffleArray(x, 1)[38] == x[19]
  {
    FortyFront(x, 1, 0, 0);
    FortyFront(x, 1, 1, 2);
    FortyFront(x, 1, 2, 4);
    FortyFront(x, 1, 3, 6);
    FortyFront(x, 1, 4, 8);
    FortyFront(x, 1, 5, 10);
    FortyFront(x, 1, 6, 12);
    FortyFront(x, 1, 7, 14);
    FortyFront(x, 1, 8, 16);
    FortyFront(x, 1, 9, 18);
    FortyFront(x, 1, 10, 20);
    FortyFront(x, 1, 11, 22);
    FortyFront(x, 1, 12, 24);
    FortyFront(x, 1, 13, 26);
    FortyFront(x, 1, 14, 28);
    FortyFront(x, 1, 15, 30);
    FortyFront(x, 1, 16, 32);
    FortyFront(x, 1, 17, 34);
    FortyFront(x, 1, 18, 36);
    FortyFront(x, 1, 19, 38);
  }

  /** `shuffle_array(x, 1)` of 40 entries: where the back-half entries land,
      read from the last one backwards. */
  lemma ShuffleFortyBy1Back<T>(x: seq<T>)
    requires |x| == 40
    ensures |ShuffleArray(x, 1)| == 40
    ensures ShuffleArray(x, 1)[1] == x[39]
    ensures ShuffleArray(x, 1)[3] == x[38]
    ensures ShuffleArray(x, 1)[5] == x[37]
    ensures ShuffleArray(x, 1)[7] == x[36]
    ensures ShuffleArray(x, 1)[9] == x[35]
    ensures ShuffleArray(x, 1)[11] == x[34]
    ensures ShuffleArray(x, 1)[13] == x[33]
    ensures ShuffleArray(x, 1)[15] == x[32]
    ensures ShuffleArray(x, 1)[17] == x[31]
    ensures ShuffleArray(x, 1)[19] == x[30]
    ensures ShuffleArray(x, 1)[21] == x[29]
    ensures ShuffleArray(x, 1)[23] == x[28]
    ensures ShuffleArray(x, 1)[25] == x[27]
    ensures ShuffleArray(x, 1)[27] == x[26]
    ensures ShuffleArray(x, 1)[29] == x[25]
    ensures ShuffleArray(x, 1)[31] == x[24]
    ensures ShuffleArray(x, 1)[33] == x[23]
    ensures ShuffleArray(x, 1)[35] == x[22]
    ensures ShuffleArray(x, 1)[37] == x[21]
    ensures ShuffleArray(x, 1)[39] == x[20]
  {
    FortyBack(x, 1, 0, 1);
    FortyBack(x, 1, 1, 3);
    FortyBack(x, 1, 2, 5);
    FortyBack(x, 1, 3, 7);
    FortyBack(x, 1, 4, 9);
    FortyBack(x, 1, 5, 11);
    FortyBack(x, 1, 6, 13);
    FortyBack(x, 1, 7, 15);
    FortyBack(x, 1, 8, 17);
    FortyBack(x, 1, 9, 19);
    FortyBack(x, 1, 10, 21);
    FortyBack(x, 1, 11, 23);
    FortyBack(x, 1, 12, 25);
    FortyBack(x, 1, 13, 27);
    FortyBack(x, 1, 14, 29);
    FortyBack(x, 1, 15, 31);
    FortyBack(x, 1, 16, 33);
    FortyBack(x, 1, 17, 35);
    FortyBack(x, 1, 18, 37);
    FortyBack(x, 1, 19, 39);
  }

  /** `shuffle_array(x, 2)` of 40 entries: where the front-half entries land. */
  lemma ShuffleFortyBy2Front<T>(x: seq<T>)
    requires |x| == 40
    ensures |ShuffleArray(x, 2)| == 40
    ensures ShuffleArray(x, 2)[0] == x[0]
    ensures ShuffleArray(x, 2)[1] == x[1]
    ensures ShuffleArray(x, 2)[4] == x[2]
    ensures ShuffleArray(x, 2)[5] == x[3]
    ensures ShuffleArray(x, 2)[8] == x[4]
    ensures ShuffleArray(x, 2)[9] == x[5]
    ensures ShuffleArray(x, 2)[12] == x[6]
    ensures ShuffleArray(x, 2)[13] == x[7]
    ensures ShuffleArray(x, 2)[16] == x[8]
    ensures ShuffleArray(x, 2)[17] == x[9]
    ensures ShuffleArray(x, 2)[20] == x[10]
    ensures ShuffleArray(x, 2)[21] == x[11]
    ensures ShuffleArray(x, 2)[24] == x[12]
    ensures ShuffleArray(x, 2)[25] == x[13]
    ensures ShuffleArray(x, 2)[28] == x[14]
    ensures ShuffleArray(x, 2)[29] == x[15]
    ensures ShuffleArray(x, 2)[32] == x[16]
    ensures ShuffleArray(x, 2)[33] == x[17]
    ensures ShuffleArray(x, 2)[36] == x[18]
    ensures ShuffleArray(x, 2)[37] == x[19]
  {
    FortyFront(x, 2, 0, 0);
    FortyFront(x, 2, 1, 1);
    FortyFront(x, 2, 2, 4);
    FortyFront(x, 2, 3, 5);
    FortyFront(x, 2, 4, 8);
    FortyFront(x, 2, 5, 9);
    FortyFront(x, 2, 6, 12);
    FortyFront(x, 2, 7, 13);
    FortyFront(x, 2, 8, 16);
    FortyFront(x, 2, 9, 17);
    FortyFront(x, 2, 10, 20);
    FortyFront(x, 2, 11, 21);
    FortyFront(x, 2, 12, 24);
    FortyFront(x, 2, 13, 25);
    FortyFront(x, 2, 14, 28);
    FortyFront(x, 2, 15, 29);
    FortyFront(x, 2, 16, 32);
    FortyFront(x, 2, 17, 33);
    FortyFront(x, 2, 18, 36);
    FortyFront(x, 2, 19, 37);
  }

  /** `shuffle_array(x, 2)` of 40 entries: where the back-half entries land,
      read from the last one backwards. */
  lemma ShuffleFortyBy2Back<T>(x: seq<T>)
    requires |x| == 40
    ensures |ShuffleArray(x, 2)| == 40
    ensures ShuffleArray(x, 2)[2] == x[39]
    ensures ShuffleArray(x, 2)[3] == x[38]
    ensures ShuffleArray(x, 2)[6] == x[37]
    ensures ShuffleArray(x, 2)[7] == x[36]
    ensures ShuffleArray(x, 2)[10] == x[35]
    ensures ShuffleArray(x, 2)[11] == x[34]
    ensures ShuffleArray(x, 2)[14] == x[33]
    ensures ShuffleArray(x, 2)[15] == x[32]
    ensures ShuffleArray(x, 2)[18] == x[31]
    ensures ShuffleArray(x, 2)[19] == x[30]
    ensures ShuffleArray(x, 2)[22] == x[29]
    ensures ShuffleArray(x, 2)[23] == x[28]
    ensures ShuffleArray(x, 2)[26] == x[27]
    ensures ShuffleArray(x, 2)[27] == x[26]
    ensures ShuffleArray(x, 2)[30] == x[25]
    ensures ShuffleArray(x, 2)[31] == x[24]
    ensures ShuffleArray(x, 2)[34] == x[23]
    ensures ShuffleArray(x, 2)[35] == x[22]
    ensures ShuffleArray(x, 2)[38] == x[21]
    ensures ShuffleArray(x, 2)[39] == x[20]
  {
    FortyBack(x, 2, 0, 2);
    FortyBack(x, 2, 1, 3);
    FortyBack(x, 2, 2, 6);
    FortyBack(x, 2, 3, 7);
    FortyBack(x, 2, 4, 10);
    FortyBack(x, 2, 5, 11);
    FortyBack(x, 2, 6, 14);
    FortyBack(x, 2, 7, 15);
    FortyBack(x, 2, 8, 18);
    FortyBack(x, 2, 9, 19);
    FortyBack(x, 2, 10, 22);
    FortyBack(x, 2, 11, 23);
    FortyBack(x, 2, 12, 26);
    FortyBack(x, 2, 13, 27);
    FortyBack(x, 2, 14, 30);
    FortyBack(x, 2, 15, 31);
    FortyBack(x, 2, 16, 34);
    FortyBack(x, 2, 17, 35);
    FortyBack(x, 2, 18, 38);
    FortyBack(x, 2, 19, 39);
  }

  /** `shuffle_array(x, 4)` of 40 entries: where the front-half entries land. */
  lemma ShuffleFortyBy4Front<T>(x: seq<T>)
    requires |x| == 40
    ensures |ShuffleArray(x, 4)| == 40
    ensures ShuffleArray(x, 4)[0] == x[0]
    ensures ShuffleArray(x, 4)[1] == x[1]
    ensures ShuffleArray(x, 4)[2] == x[2]
    ensures ShuffleArray(x, 4)[3] == x[3]
    ensures ShuffleArray(x, 4)[8] == x[4]
    ensures ShuffleArray(x, 4)[9] == x[5]
    ensures ShuffleArray(x, 4)[10] == x[6]
    ensures ShuffleArray(x, 4)[11] == x[7]
    ensures ShuffleArray(x, 4)[16] == x[8]
    ensures ShuffleArray(x, 4)[17] == x[9]
    ensures ShuffleArray(x, 4)[18] == x[10]
    ensures ShuffleArray(x, 4)[19] == x[11]
    ensures ShuffleArray(x, 4)[24] == x[12]
    ensures ShuffleArray(x, 4)[25] == x[13]
    ensures ShuffleArray(x, 4)[26] == x[14]
    ensures ShuffleArray(x, 4)[27] == x[15]
    ensures ShuffleArray(x, 4)[32] == x[16]
    ensures ShuffleArray(x, 4)[33] == x[17]
    ensures ShuffleArray(x, 4)[34] == x[18]
    ensures ShuffleArray(x, 4)[35] == x[19]
  {
    FortyFront(x, 4, 0, 0);
    FortyFront(x, 4, 1, 1);
    FortyFront(x, 4, 2, 2);
    FortyFront(x, 4, 3, 3);
    FortyFront(x, 4, 4, 8);
    FortyFront(x, 4, 5, 9);
    FortyFront(x, 4, 6, 10);
    FortyFront(x, 4, 7, 11);
    FortyFront(x, 4, 8, 16);
    FortyFront(x, 4, 9, 17);
    FortyFront(x, 4, 10, 18);
    FortyFront(x, 4, 11, 19);
    FortyFront(x, 4, 12, 24);
    FortyFront(x, 4, 13, 25);
    FortyFront(x, 4, 14, 26);
    FortyFront(x, 4, 15, 27);
    FortyFront(x, 4, 16, 32);
    FortyFront(x, 4, 17, 33);
    FortyFront(x, 4, 18, 34);
    FortyFront(x, 4, 19, 35);
  }

  /** `shuffle_array(x, 4)` of 40 entries: where the back-half entries land,
      read from the last one backwards. */
  lemma ShuffleFortyBy4Back<T>(x: seq<T>)
    requires |x| == 40
    ensures |ShuffleArray(x, 4)| == 40
    ensures ShuffleArray(x, 4)[4] == x[39]
    ensures ShuffleArray(x, 4)[5] == x[38]
    ensures ShuffleArray(x, 4)[6] == x[37]
    ensures ShuffleArray(x, 4)[7] == x[36]
    ensures ShuffleArray(x, 4)[12] == x[35]
    ensures ShuffleArray(x, 4)[13] == x[34]
    ensures ShuffleArray(x, 4)[14] == x[33]
    ensures ShuffleArray(x, 4)[15] == x[32]
    ensures ShuffleArray(x, 4)[20] == x[31]
    ensures ShuffleArray(x, 4)[21] == x[30]
    ensures ShuffleArray(x, 4)[22] == x[29]
    ensures ShuffleArray(x, 4)[23] == x[28]
    ensures ShuffleArray(x, 4)[28] == x[27]
    ensures ShuffleArray(x, 4)[29] == x[26]
    ensures ShuffleArray(x, 4)[30] == x[25]
    ensures ShuffleArray(x, 4)[31] == x[24]
    ensures ShuffleArray(x, 4)[36] == x[23]
    ensures ShuffleArray(x, 4)[37] == x[22]
    ensures ShuffleArray(x, 4)[38] == x[21]
    ensures ShuffleArray(x, 4)[39] == x[20]
  {
    FortyBack(x, 4, 0, 4);
    FortyBack(x, 4, 1, 5);
    FortyBack(x, 4, 2, 6);
    FortyBack(x, 4, 3, 7);
    FortyBack(x, 4, 4, 12);
    FortyBack(x, 4, 5, 13);
    FortyBack(x, 4, 6, 14);
    FortyBack(x, 4, 7, 15);
    FortyBack(x, 4, 8, 20);
    FortyBack(x, 4, 9, 21);
    FortyBack(x, 4, 10, 22);
    FortyBack(x, 4, 11, 23);
    FortyBack(x, 4, 12, 28);
    FortyBack(x, 4, 13, 29);
    FortyBack(x, 4, 14, 30);
    FortyBack(x, 4, 15, 31);
    FortyBack(x, 4, 16, 36);
    FortyBack(x, 4, 17, 37);
    FortyBack(x, 4, 18, 38);
    FortyBack(x, 4, 19, 39);
  }

  /** `shuffle_array(x, 8)` of 40 entries: where the front-half entries land. */
  lemma ShuffleFortyBy8Front<T>(x: seq<T>)
    requires |x| == 40
    ensures |ShuffleArray(x, 8)| == 40
    ensures ShuffleArray(x, 8)[0] == x[0]
    ensures ShuffleArray(x, 8)[1] == x[1]
    ensures ShuffleArray(x, 8)[2] == x[2]
    ensures ShuffleArray(x, 8)[3] == x[3]
    ensures ShuffleArray(x, 8)[4] == x[4]
    ensures ShuffleArray(x, 8)[5] == x[5]
    ensures ShuffleArray(x, 8)[6] == x[6]
    ensures ShuffleArray(x, 8)[7] == x[7]
    ensures ShuffleArray(x, 8)[16] == x[8]
    ensures ShuffleArray(x, 8)[17] == x[9]
    ensures ShuffleArray(x, 8)[18] == x[10]
    ensures ShuffleArray(x, 8)[19] == x[11]
    ensures ShuffleArray(x, 8)[20] == x[12]
    ensures ShuffleArray(x, 8)[21] == x[13]
    ensures ShuffleArray(x, 8)[22] == x[14]
    ensures ShuffleArray(x, 8)[23] == x[15]
    ensures ShuffleArray(x, 8)[32] == x[16]
    ensures ShuffleArray(x, 8)[33] == x[17]
    ensures ShuffleArray(x, 8)[34] == x[18]
    ensures ShuffleArray(x, 8)[35] == x[19]
  {
    FortyFront(x, 8, 0, 0);
    FortyFront(x, 8, 1, 1);
    FortyFront(x, 8, 2, 2);
    FortyFront(x, 8, 3, 3);
    FortyFront(x, 8, 4, 4);
    FortyFront(x, 8, 5, 5);
    FortyFront(x, 8, 6, 6);
    FortyFront(x, 8, 7, 7);
    FortyFront(x, 8, 8, 16);
    FortyFront(x, 8, 9, 17);
    FortyFront(x, 8, 10, 18);
    FortyFront(x, 8, 11, 19);
    FortyFront(x, 8, 12, 20);
    FortyFront(x, 8, 13, 21);
    FortyFront(x, 8, 14, 22);
    FortyFront(x, 8, 15, 23);
    FortyFront(x, 8, 16, 32);
    FortyFront(x, 8, 17, 33);
    FortyFront(x, 8, 18, 34);
    FortyFront(x, 8, 19, 35);
  }

  /** `shuffle_array(x, 8)` of 40 entries: where the back-half entries land,
      read from the last one backwards. */
  lemma ShuffleFortyBy8Back<T>(x: seq<T>)
    requires |x| == 40
    ensures |ShuffleArray(x, 8)| == 40
    ensures ShuffleArray(x, 8)[8] == x[39]
    ensures ShuffleArray(x, 8)[9] == x[38]
    ensures ShuffleArray(x, 8)[10] == x[37]
    ensures ShuffleArray(x, 8)[11] == x[36]
    ensures ShuffleArray(x, 8)[12] == x[35]
    ensures ShuffleArray(x, 8)[13] == x[34]
    ensures ShuffleArray(x, 8)[14] == x[33]
    ensures ShuffleArray(x, 8)[15] == x[32]
    ensures ShuffleArray(x, 8)[24] == x[31]
    ensures ShuffleArray(x, 8)[25] == x[30]
    ensures ShuffleArray(x, 8)[26] == x[29]
    ensures ShuffleArray(x, 8)[27] == x[28]
    ensures ShuffleArray(x, 8)[28] == x[27]
    ensures ShuffleArray(x, 8)[29] == x[26]
    ensures ShuffleArray(x, 8)[30] == x[25]
    ensures ShuffleArray(x, 8)[31] == x[24]
    ensures ShuffleArray(x, 8)[36] == x[23]
    ensures ShuffleArray(x, 8)[37] == x[22]
    ensures ShuffleArray(x, 8)[38] == x[21]
    ensures ShuffleArray(x, 8)[39] == x[20]
  {
    FortyBack(x, 8, 0, 8);
    FortyBack(x, 8, 1, 9);
    FortyBack(x, 8, 2, 10);
    FortyBack(x, 8, 3, 11);
    FortyBack(x, 8, 4, 12);
    FortyBack(x, 8, 5, 13);
    FortyBack(x, 8, 6, 14);
    FortyBack(x, 8, 7, 15);
    FortyBack(x, 8, 8, 24);
    FortyBack(x, 8, 9, 25);
    FortyBack(x, 8, 10, 26);
    FortyBack(x, 8, 11, 27);
    FortyBack(x, 8, 12, 28);
    FortyBack(x, 8, 13, 29);
    FortyBack(x, 8, 14, 30);
    FortyBack(x, 8, 15, 31);
    FortyBack(x, 8, 16, 36);
    FortyBack(x, 8, 17, 37);
    FortyBack(x, 8, 18, 38);
    FortyBack(x, 8, 19, 39);
  }

  /** Shuffle round 1, in batches of 1, turns the test vector `b1` into `b2`. */
  lemma RoundB2(x: seq<real>, y: seq<real>)
    requires IsB1(x) && y == ShuffleArray(x, 1)
    ensures IsB2(y)
  {
    ShuffleFortyBy1Front(x);
    ShuffleFortyBy1Back(x);
  }

  /** Shuffle round 2, in batches of 2, turns the test vector `b2` into `b3`. */
  lemma RoundB3(x: seq<real>, y: seq<real>)
    requires IsB2(x) && y == ShuffleArray(x, 2)
    ensures IsB3(y)
  {
    ShuffleFortyBy2Front(x);
    ShuffleFortyBy2Back(x);
  }

  /** Shuffle round 3, in batches of 4, turns the test vector `b3` into `b4`. */
  lemma RoundB4(x: seq<real>, y: seq<real>)
    requires IsB3(x) && y == ShuffleArray(x, 4)
    ensures IsB4(y)
  {
    ShuffleFortyBy4Front(x);
    ShuffleFortyBy4Back(x);
  }

  /** Shuffle round 4, in batches of 8, turns the test vector `b4` into `b5`. */
  lemma RoundB5(x: seq<real>, y: seq<real>)
    requires IsB4(x) && y == ShuffleArray(x, 8)
    ensures IsB5(y)
  {
    ShuffleFortyBy8Front(x);
    ShuffleFortyBy8Back(x);
  }

  /** The centre-out order picks the test vector `b1` out of the series. */
  lemma AnglesB1(angles: seq<real>)
    requires IsTiltSeries(angles)
    ensures forall k :: 0 <= k < |CentreOut(20)| ==> CentreOut(20)[k] < |angles|
    ensures IsB1(Gather(angles, CentreOut(20)))
  {
  }

  /** Seen through the angles, one more symmetry level is one more shuffle
      round: the angles of the scan with `symmetry` are those of the scan with
      `symmetry - 1`, shuffled in batches of `2^(symmetry - 2)`. */
  lemma DoseSymmetricAnglesStep(angles: seq<real>, symmetry: int, zero: real, prev: seq<nat>, cur: seq<nat>)
    requires symmetry >= 2 && RoundsFit(RoundCount(symmetry), |angles|)
    requires RoundsFit(RoundCount(symmetry - 1), |angles|)
    requires prev == DoseSymmetricScan(angles, symmetry - 1, zero)
    requires cur == DoseSymmetricScan(angles, symmetry, zero)
    ensures |prev| == |angles| && |cur| == |angles|
    ensures forall k :: 0 <= k < |prev| ==> prev[k] < |angles|
    ensures forall k :: 0 <= k < |cur| ==> cur[k] < |angles|
    ensures Pow2(symmetry - 2) <= |angles| / 2
    ensures Gather(angles, cur) == ShuffleArray(Gather(angles, prev), Pow2(symmetry - 2))
  {
    DoseSymmetricStep(angles, symmetry, zero);
    PermutationInRange(prev, |angles|);
    PermutationInRange(cur, |angles|);
    GatherShuffle(angles, prev, Pow2(symmetry - 2));
  }

  /** Symmetry 1 on `arange(-90, 90, 4.5)` about the zero tilt angle 0 is the
      centre-out order. */
  lemma SeriesSymmetryOne(angles: seq<real>, zero: real)
    requires IsTiltSeries(angles) && zero == 0.0
    ensures DeviationOrder(angles, zero) == CentreOut(20)
  {
    assert forall i :: 0 <= i < |angles| ==> angles[i] == zero + 4.5 * ((i - 20) as real);
    EvenSeriesOrder(angles, zero, 4.5, 20);
  }

  /** `angles[generate_dose_symmetric_scan(angles, 1)]` for `arange(-90, 90, 4.5)`
      and the default zero tilt angle 0 is the test vector `b1`. */
  lemma SeriesVectorB1(angles: seq<real>, zero: real)
    requires IsTiltSeries(angles) && zero == 0.0
    ensures RoundsFit(RoundCount(1), |angles|)
    ensures forall k :: 0 <= k < |DoseSymmetricScan(angles, 1, zero)| ==> DoseSymmetricScan(angles, 1, zero)[k] < |angles|
    ensures IsB1(Gather(angles, DoseSymmetricScan(angles, 1, zero)))
  {
    DoseSymmetricIsRounds(angles, 1, zero);
    SeriesSymmetryOne(angles, zero);
    AnglesB1(angles);
  }

  /** `angles[generate_dose_symmetric_scan(angles, 2)]` for `arange(-90, 90, 4.5)`
      and the default zero tilt angle 0 is the test vector `b2`. */
  lemma SeriesVectorB2(angles: seq<real>, zero: real)
    requires IsTiltSeries(angles) && zero == 0.0
    ensures RoundsFit(RoundCount(2), |angles|)
    ensures forall k :: 0 <= k < |DoseSymmetricScan(angles, 2, zero)| ==> DoseSymmetricScan(angles, 2, zero)[k] < |angles|
    ensures IsB2(Gather(angles, DoseSymmetricScan(angles, 2, zero)))
  {
    var prev, cur := DoseSymmetricScan(angles, 1, zero), DoseSymmetricScan(angles, 2, zero);
    SeriesVectorB1(angles, zero);
    assert Pow2(2 - 2) == 1;
    DoseSymmetricAnglesStep(angles, 2, zero, prev, cur);
    RoundB2(Gather(angles, prev), Gather(angles, cur));
  }

  /** `angles[generate_dose_symmetric_scan(angles, 3)]` for `arange(-90, 90, 4.5)`
      and the default zero tilt angle 0 is the test vector `b3`. */
  lemma SeriesVectorB3(angles: seq<real>, zero: real)
    requires IsTiltSeries(angles) && zero == 0.0
    ensures RoundsFit(RoundCount(3), |angles|)
    ensures forall k :: 0 <= k < |DoseSymmetricScan(angles, 3, zero)| ==> DoseSymmetricScan(angles, 3, zero)[k] < |angles|
    ensures IsB3(Gather(angles, DoseSymmetricScan(angles, 3, zero)))
  {
    var prev, cur := DoseSymmetricScan(angles, 2, zero), DoseSymmetricScan(angles, 3, zero);
    SeriesVectorB2(angles, zero);
    assert Pow2(3 - 2) == 2;
    DoseSymmetricAnglesStep(angles, 3, zero, prev, cur);
    RoundB3(Gather(angles, prev), Gather(angles, cur));
  }

  /** `angles[generate_dose_symmetric_scan(angles, 4)]` for `arange(-90, 90, 4.5)`
      and the default zero tilt angle 0 is the test vector `b4`. */
  lemma SeriesVectorB4(angles: seq<real>, zero: real)
    requires IsTiltSeries(angles) && zero == 0.0
    ensures RoundsFit(RoundCount(4), |angles|)
    ensures forall k :: 0 <= k < |DoseSymmetricScan(angles, 4, zero)| ==> DoseSymmetricScan(angles, 4, zero)[k] < |angles|
    ensures IsB4(Gather(angles, DoseSymmetricScan(angles, 4, zero)))
  {
    var prev, cur := DoseSymmetricScan(angles, 3, zero), DoseSymmetricScan(angles, 4, zero);
    SeriesVectorB3(angles, zero);
    assert Pow2(4 - 2) == 4;
    DoseSymmetricAnglesStep(angles, 4, zero, prev, cur);
    RoundB4(Gather(angles, prev), Gather(angles, cur));
  }

  /** `angles[generate_dose_symmetric_scan(angles, 5)]` for `arange(-90, 90, 4.5)`
      and the default zero tilt angle 0 is the test vector `b5`. */
  lemma SeriesVectorB5(angles: seq<real>, zero: real)
    requires IsTiltSeries(angles) && zero == 0.0
    ensures RoundsFit(RoundCount(5), |angles|)
    ensures forall k :: 0 <= k < |DoseSymmetricScan(angles, 5, zero)| ==> DoseSymmetricScan(angles, 5, zero)[k] < |angles|
    ensures IsB5(Gather(angles, DoseSymmetricScan(angles, 5, zero)))
  {
    var prev, cur := DoseSymmetricScan(angles, 4, zero), DoseSymmetricScan(angles, 5, zero);
    SeriesVectorB4(angles, zero);
    assert Pow2(5 - 2) == 8;
    DoseSymmetricAnglesStep(angles, 5, zero, prev, cur);
    RoundB5(Gather(angles, prev), Gather(angles, cur));
  }

  /** `generate_scan(0, -90, 90, 4.5, symmetry=5)` acquires the test vector
      `b5`: in the symmetric mode with one beam shift, whatever the number of
      helices and the arrangement of the output. */
  lemma GenerateScanVectors(angles: seq<real>, p: Params)
    requires IsTiltSeries(angles)
    requires p.mode == "symmetric" && p.symmetry == 5
    requires p.nhelix >= 1 && p.pmax - p.pmin == 1 && p.stepGiven != p.countGiven
    ensures GenerateScan(angles, p).Ok?
    ensures IsB5(GenerateScan(angles, p).value.angles)
  {
    var zero := angles[|angles| / 2];
    assert zero == 0.0;
    SeriesVectorB5(angles, zero);
    SymmetricScanAngles(angles, p);
  }
}
