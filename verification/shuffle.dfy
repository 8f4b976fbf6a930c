/** The batch shuffler (`shuffle_array`): the primitive the dose-symmetric
    scan applies repeatedly. The input is split into a front half of
    ceil(L/2) elements and a back half, which is reversed; both halves are
    cut into batches of `n`, and the batches are interleaved front, back,
    front, back, ..., the longer side finishing alone. */
module Shuffle {
  import opened Arith
  import opened Seqs

  /** Length of the first part of `np.array_split(x, 2)`: the extra element of
      an odd-length array goes to the first part. */
  function FrontLength(len: nat): nat {
    (len + 1) / 2
  }

  /** `np.array_split(s, np.arange(n, len(s), n))`: consecutive batches of `n`
      elements, the last one possibly shorter. As in numpy, a sequence of at
      most `n` elements (the empty one included) is a single batch. */
  function Batches<T>(s: seq<T>, n: nat): (r: seq<seq<T>>)
    requires n > 0
    ensures |r| > 0
    decreases |s|
  {
    if |s| <= n then [s] else [s[..n]] + Batches(s[n..], n)
  }

  /** Every batch but the last holds exactly `n` elements; the last holds at
      most `n`, and at least one unless the sequence is empty. There are
      `ceil(len / n)` batches, and one for the empty sequence. */
  lemma {:induction false} BatchSizes<T>(s: seq<T>, n: nat)
    requires n > 0
    ensures |Batches(s, n)| == if |s| == 0 then 1 else (|s| + n - 1) / n
    ensures forall k :: 0 <= k < |Batches(s, n)| - 1 ==> |Batches(s, n)[k]| == n
    ensures 0 < |Batches(s, n)[|Batches(s, n)| - 1]| <= n || |s| == 0
    decreases |s|
  {
    var r := Batches(s, n);
    if |s| <= n {
      if |s| > 0 {
        DivModUnique(|s| + n - 1, n, 1, |s| - 1);
      }
    } else {
      BatchSizes(s[n..], n);
      var rest := Batches(s[n..], n);
      assert r == [s[..n]] + rest;
      DivModAddDivisor(|s| - 1, n);
      assert (|s| + n - 1) / n == (|s| - 1) / n + 1;
      assert (|s| - n + n - 1) / n == (|s| - 1) / n;
      forall k | 0 <= k < |r| - 1
        ensures |r[k]| == n
      {
        if k > 0 {
          assert r[k] == rest[k - 1];
        }
      }
    }
  }

  /** Concatenating the batches gives the sequence back. */
  lemma {:induction false} ConcatBatches<T>(s: seq<T>, n: nat)
    requires n > 0
    ensures Concat(Batches(s, n)) == s
    decreases |s|
  {
    if |s| > n {
      ConcatBatches(s[n..], n);
      assert s == s[..n] + s[n..];
    }
  }

  /** The pairs of `zip_longest(a, b)` flattened in order, a missing partner
      (`None`) contributing nothing. */
  function ZipLongestConcat<T>(a: seq<seq<T>>, b: seq<seq<T>>): seq<T>
    decreases |a| + |b|
  {
    if |a| == 0 && |b| == 0 then []
    else if |a| == 0 then b[0] + ZipLongestConcat(a, b[1..])
    else if |b| == 0 then a[0] + ZipLongestConcat(a[1..], b)
    else a[0] + b[0] + ZipLongestConcat(a[1..], b[1..])
  }

  /** Once one side has run out, `zip_longest` just concatenates the other. */
  lemma {:induction false} ZipLongestOneSided<T>(a: seq<seq<T>>)
    ensures ZipLongestConcat(a, []) == Concat(a)
    ensures ZipLongestConcat([], a) == Concat(a)
  {
    if |a| > 0 {
      ZipLongestOneSided(a[1..]);
    }
  }

  /** The batch shuffle of `x` with batch size `n` (`shuffle_array`): a
      rearrangement of `x`. Where each element lands is `ShuffleSlots`. */
  function ShuffleArray<T>(x: seq<T>, n: nat): (r: seq<T>)
    requires 0 < n <= |x| / 2
    ensures |r| == |x|
    ensures multiset(r) == multiset(x)
  {
    var h := FrontLength(|x|);
    var front, back := x[..h], Reverse(x[h..]);
    assert x == front + x[h..];
    ReverseMultiset(x[h..]);
    WeaveMultiset(front, back, n);
    Weave(front, back, n)
  }

  /** Front-half element `j` of a shuffle lands at `FrontSlot(j)`, and element
      `j` of the reversed back half at `BackSlot(j)`. */
  lemma ShuffleSlots<T>(x: seq<T>, n: nat)
    requires 0 < n <= |x| / 2
    ensures forall j :: 0 <= j < FrontLength(|x|) ==>
              FrontSlot(j, n, |x|) < |x| && ShuffleArray(x, n)[FrontSlot(j, n, |x|)] == x[j]
    ensures forall j :: 0 <= j < |x| - FrontLength(|x|) ==>
              BackSlot(j, n, |x|) < |x| && ShuffleArray(x, n)[BackSlot(j, n, |x|)] == x[|x| - 1 - j]
  {
    forall j | 0 <= j < FrontLength(|x|)
      ensures FrontSlot(j, n, |x|) < |x| && ShuffleArray(x, n)[FrontSlot(j, n, |x|)] == x[j]
    {
      ShuffleFrontSlot(x, n, j);
    }
    forall j | 0 <= j < |x| - FrontLength(|x|)
      ensures BackSlot(j, n, |x|) < |x| && ShuffleArray(x, n)[BackSlot(j, n, |x|)] == x[|x| - 1 - j]
    {
      ShuffleBackSlot(x, n, j);
    }
  }

  lemma ShuffleFrontSlot<T>(x: seq<T>, n: nat, j: nat)
    requires 0 < n <= |x| / 2 && j < FrontLength(|x|)
    ensures FrontSlot(j, n, |x|) < |x| && ShuffleArray(x, n)[FrontSlot(j, n, |x|)] == x[j]
  {
    var h := FrontLength(|x|);
    var front, back := x[..h], Reverse(x[h..]);
    assert ShuffleArray(x, n) == Weave(front, back, n);
    assert FrontSlot(j, n, |x|) == FirstSlot(j, n, |back|);
    WeaveFront(front, back, n, j);
  }

  lemma ShuffleBackSlot<T>(x: seq<T>, n: nat, j: nat)
    requires 0 < n <= |x| / 2 && j < |x| - FrontLength(|x|)
    ensures BackSlot(j, n, |x|) < |x| && ShuffleArray(x, n)[BackSlot(j, n, |x|)] == x[|x| - 1 - j]
  {
    var h := FrontLength(|x|);
    var front, back := x[..h], Reverse(x[h..]);
    assert ShuffleArray(x, n) == Weave(front, back, n);
    assert BackSlot(j, n, |x|) == SecondSlot(j, n, |front|);
    WeaveBack(front, back, n, j);
    assert back[j] == x[|x| - 1 - j];
  }

  function Min(a: int, b: int): int {
    if a <= b then a else b
  }

  /** Output position of element `j` of a batched sequence whose partner has `other`
      elements: the `j / n` earlier batches of its own side, and as many of the
      partner's elements as fit in those batches, precede it. */
  function FirstSlot(j: nat, n: nat, other: nat): nat
    requires n > 0
  {
    Min((j / n) * n, other) + j
  }

  /** Output position of element `j` of the second (partner) side: its own `j / n`
      earlier batches and the first side's batches up to and including the
      matching one precede it. */
  function SecondSlot(j: nat, n: nat, other: nat): nat
    requires n > 0
  {
    Min((j / n + 1) * n, other) + j
  }

  /** Where `shuffle_array` puts element `j` of the front half. */
  function FrontSlot(j: nat, n: nat, len: nat): nat
    requires n > 0
  {
    FirstSlot(j, n, len - FrontLength(len))
  }

  /** Where `shuffle_array` puts element `j` of the reversed back half, i.e. the
      element `x[len - 1 - j]`. */
  function BackSlot(j: nat, n: nat, len: nat): nat
    requires n > 0
  {
    SecondSlot(j, n, FrontLength(len))
  }

  /** `shuffle_array`'s interleaving of the batches of `a` with those of `b`. */
  function Weave<T>(a: seq<T>, b: seq<T>, n: nat): seq<T>
    requires n > 0
  {
    ZipLongestConcat(Batches(a, n), Batches(b, n))
  }

  /** While both sides have more than one batch, a full batch of each is emitted. */
  lemma WeaveStep<T>(a: seq<T>, b: seq<T>, n: nat)
    requires n > 0 && |a| > n && |b| > n
    ensures Weave(a, b, n) == a[..n] + b[..n] + Weave(a[n..], b[n..], n)
  {
    var ba, bb := Batches(a, n), Batches(b, n);
    assert ba[0] == a[..n] && ba[1..] == Batches(a[n..], n);
    assert bb[0] == b[..n] && bb[1..] == Batches(b[n..], n);
  }

  /** When the back side fits in one batch, the rest of the front follows it. */
  lemma WeaveBackShort<T>(a: seq<T>, b: seq<T>, n: nat)
    requires n > 0 && |a| > n && |b| <= n
    ensures Weave(a, b, n) == a[..n] + b + a[n..]
  {
    var ba := Batches(a, n);
    assert ba[0] == a[..n] && ba[1..] == Batches(a[n..], n);
    assert Batches(b, n) == [b];
    assert [b][1..] == [];
    assert Weave(a, b, n) == a[..n] + b + ZipLongestConcat(ba[1..], []);
    ZipLongestOneSided(ba[1..]);
    ConcatBatches(a[n..], n);
  }

  /** When the front side fits in one batch, the result is the front then the back. */
  lemma WeaveFrontShort<T>(a: seq<T>, b: seq<T>, n: nat)
    requires n > 0 && |a| <= n
    ensures Weave(a, b, n) == a + b
  {
    var bb := Batches(b, n);
    assert Batches(a, n) == [a];
    assert [a][1..] == [];
    assert Weave(a, b, n) == a + bb[0] + ZipLongestConcat([], bb[1..]);
    ZipLongestOneSided(bb[1..]);
    ConcatBatches(b, n);
    assert bb == [bb[0]] + bb[1..];
  }

  /** The interleaving is a rearrangement of `a + b`. */
  lemma {:induction false} WeaveMultiset<T>(a: seq<T>, b: seq<T>, n: nat)
    requires n > 0
    ensures |Weave(a, b, n)| == |a| + |b|
    ensures multiset(Weave(a, b, n)) == multiset(a + b)
    decreases |a|
  {
    WeaveLength(a, b, n);
    if |a| > n && |b| > n {
      WeaveMultiset(a[n..], b[n..], n);
      WeaveStepMultiset(a, b, n);
    } else if |a| > n {
      WeaveBackShort(a, b, n);
      SplitMultiset(a, b, n);
    } else {
      WeaveFrontShort(a, b, n);
    }
  }

  /** One full step keeps the rearrangement property of the rest. */
  lemma WeaveStepMultiset<T>(a: seq<T>, b: seq<T>, n: nat)
    requires n > 0 && |a| > n && |b| > n
    requires multiset(Weave(a[n..], b[n..], n)) == multiset(a[n..] + b[n..])
    ensures multiset(Weave(a, b, n)) == multiset(a + b)
  {
    var w := Weave(a[n..], b[n..], n);
    calc {
      multiset(Weave(a, b, n));
      == { WeaveStep(a, b, n); }
      multiset(a[..n] + b[..n] + w);
      == { InterleaveParts(a[..n], b[..n], a[n..], b[n..], w); }
      multiset((a[..n] + a[n..]) + (b[..n] + b[n..]));
      == { assert a[..n] + a[n..] == a; assert b[..n] + b[n..] == b; }
      multiset(a + b);
    }
  }

  lemma InterleaveParts<T>(p: seq<T>, q: seq<T>, r: seq<T>, s: seq<T>, w: seq<T>)
    requires multiset(w) == multiset(r + s)
    ensures multiset(p + q + w) == multiset((p + r) + (q + s))
  {
  }

  /** Moving `b` in between the two parts of `a` keeps the elements. */
  lemma SplitMultiset<T>(a: seq<T>, b: seq<T>, n: nat)
    requires n <= |a|
    ensures multiset(a[..n] + b + a[n..]) == multiset(a + b)
  {
    assert a == a[..n] + a[n..];
  }

  /** The interleaving emits every element of both sides. */
  lemma {:induction false} WeaveLength<T>(a: seq<T>, b: seq<T>, n: nat)
    requires n > 0
    ensures |Weave(a, b, n)| == |a| + |b|
    decreases |a|
  {
    if |a| > n && |b| > n {
      WeaveStep(a, b, n);
      WeaveLength(a[n..], b[n..], n);
    } else if |a| > n {
      WeaveBackShort(a, b, n);
    } else {
      WeaveFrontShort(a, b, n);
    }
  }

  /** The front side keeps its order: element `j` of `a` lands at `FirstSlot`. */
  lemma {:induction false} WeaveFront<T>(a: seq<T>, b: seq<T>, n: nat, j: nat)
    requires n > 0 && j < |a|
    ensures FirstSlot(j, n, |b|) < |a| + |b|
    ensures FirstSlot(j, n, |b|) < |Weave(a, b, n)| && Weave(a, b, n)[FirstSlot(j, n, |b|)] == a[j]
    decreases |a|
  {
    WeaveLength(a, b, n);
    if j < n {
      FirstSlotSmall(j, n, |b|);
      if |a| > n && |b| > n {
        WeaveStep(a, b, n);
      } else if |a| > n {
        WeaveBackShort(a, b, n);
      } else {
        WeaveFrontShort(a, b, n);
      }
    } else if |b| > n {
      WeaveStep(a, b, n);
      WeaveFront(a[n..], b[n..], n, j - n);
      FirstSlotStep(j, n, |b|);
    } else {
      WeaveBackShort(a, b, n);
      FirstSlotPast(j, n, |b|);
    }
  }

  /** The back side keeps its order: element `j` of `b` lands at `SecondSlot`. */
  lemma {:induction false} WeaveBack<T>(a: seq<T>, b: seq<T>, n: nat, j: nat)
    requires n > 0 && j < |b|
    ensures SecondSlot(j, n, |a|) < |a| + |b|
    ensures SecondSlot(j, n, |a|) < |Weave(a, b, n)| && Weave(a, b, n)[SecondSlot(j, n, |a|)] == b[j]
    decreases |a|
  {
    WeaveLength(a, b, n);
    if |a| <= n {
      WeaveFrontShort(a, b, n);
      SecondSlotPast(j, n, |a|);
    } else if j < n {
      SecondSlotSmall(j, n, |a|);
      if |b| > n {
        WeaveStep(a, b, n);
      } else {
        WeaveBackShort(a, b, n);
      }
    } else {
      WeaveStep(a, b, n);
      WeaveBack(a[n..], b[n..], n, j - n);
      SecondSlotStep(j, n, |a|);
    }
  }

  lemma FirstSlotSmall(j: nat, n: nat, other: nat)
    requires n > 0 && j < n
    ensures FirstSlot(j, n, other) == j
  {
    DivModUnique(j, n, 0, j);
  }

  lemma FirstSlotPast(j: nat, n: nat, other: nat)
    requires n > 0 && n <= j && other <= n
    ensures FirstSlot(j, n, other) == other + j
  {
    DivModAddDivisor(j - n, n);
    MulAtLeastFactor(j / n, n);
  }

  lemma FirstSlotStep(j: nat, n: nat, other: nat)
    requires n > 0 && n <= j && n <= other
    ensures FirstSlot(j, n, other) == 2 * n + FirstSlot(j - n, n, other - n)
  {
    DivModAddDivisor(j - n, n);
    assert (j / n) * n == (j - n) / n * n + n;
  }

  lemma SecondSlotSmall(j: nat, n: nat, other: nat)
    requires n > 0 && j < n
    ensures SecondSlot(j, n, other) == Min(n, other) + j
  {
    DivModUnique(j, n, 0, j);
  }

  lemma SecondSlotPast(j: nat, n: nat, other: nat)
    requires n > 0 && other <= n
    ensures SecondSlot(j, n, other) == other + j
  {
    MulAtLeastFactor(j / n + 1, n);
  }

  lemma SecondSlotStep(j: nat, n: nat, other: nat)
    requires n > 0 && n <= j && n <= other
    ensures SecondSlot(j, n, other) == 2 * n + SecondSlot(j - n, n, other - n)
  {
    DivModAddDivisor(j - n, n);
    assert (j / n + 1) * n == ((j - n) / n + 1) * n + n;
  }
}
