/** The stable sort behind `sorted(order, key=lambda x: abs(angles[x] - zero))`:
    indices ordered by a per-index key, ties kept in their original (increasing)
    index order. Because ties are broken by the index, the order is a total
    order on indices, so the sorted result is unique; the model computes it by
    insertion and proves that any stable sort would return the same sequence. */
module StableSort {
  import opened Seqs

  /** Every entry of `s` is an index into `key`. */
  predicate InKeyRange(key: seq<real>, s: seq<nat>) {
    forall p :: 0 <= p < |s| ==> s[p] < |key|
  }

  /** Index `i` is placed before index `j`: its key is smaller, or the keys tie
      and `i` comes first in the input. */
  predicate Precedes(key: seq<real>, i: nat, j: nat)
    requires i < |key| && j < |key|
  {
    key[i] < key[j] || (key[i] == key[j] && i < j)
  }

  /** No later entry of `s` should have been placed before an earlier one. */
  predicate Ordered(key: seq<real>, s: seq<nat>)
    requires InKeyRange(key, s)
  {
    forall p, q :: 0 <= p < q < |s| ==> !Precedes(key, s[q], s[p])
  }

  /** Inserts `x` in front of the first entry it precedes. */
  function Insert(key: seq<real>, x: nat, s: seq<nat>): (r: seq<nat>)
    requires x < |key| && InKeyRange(key, s)
    ensures |r| == |s| + 1
    ensures multiset(r) == multiset(s) + multiset{x}
    ensures InKeyRange(key, r)
    ensures Ordered(key, s) ==> Ordered(key, r)
  {
    if |s| == 0 then [x]
    else if Precedes(key, x, s[0]) then
      InsertFront(key, x, s);
      [x] + s
    else
      var rest := Insert(key, x, s[1..]);
      assert s == [s[0]] + s[1..];
      InsertBehind(key, x, s, rest);
      [s[0]] + rest
  }

  /** An index that precedes the head of an ordered sequence may go in front. */
  lemma InsertFront(key: seq<real>, x: nat, s: seq<nat>)
    requires x < |key| && InKeyRange(key, s) && |s| > 0
    requires Precedes(key, x, s[0])
    ensures InKeyRange(key, [x] + s)
    ensures Ordered(key, s) ==> Ordered(key, [x] + s)
  {
    var r := [x] + s;
    if Ordered(key, s) {
      forall p, q | 0 <= p < q < |r|
        ensures !Precedes(key, r[q], r[p])
      {
        if p == 0 {
          assert r[q] == s[q - 1];
          assert q - 1 > 0 ==> !Precedes(key, s[q - 1], s[0]);
        } else {
          assert r[q] == s[q - 1] && r[p] == s[p - 1];
        }
      }
    }
  }

  /** An index that does not precede the head goes behind it: the head stays
      in front of the other indices sorted together with `x`. */
  lemma InsertBehind(key: seq<real>, x: nat, s: seq<nat>, rest: seq<nat>)
    requires x < |key| && InKeyRange(key, s) && |s| > 0
    requires !Precedes(key, x, s[0])
    requires InKeyRange(key, rest)
    requires multiset(rest) == multiset(s[1..]) + multiset{x}
    requires Ordered(key, s[1..]) ==> Ordered(key, rest)
    ensures InKeyRange(key, [s[0]] + rest)
    ensures Ordered(key, s) ==> Ordered(key, [s[0]] + rest)
  {
    var r := [s[0]] + rest;
    if Ordered(key, s) {
      OrderedTail(key, s);
      forall q | 0 <= q < |rest|
        ensures !Precedes(key, rest[q], s[0])
      {
        assert rest[q] in multiset(rest);
        if rest[q] != x {
          assert rest[q] in multiset(s[1..]);
          var p :| 0 <= p < |s[1..]| && s[1..][p] == rest[q];
          assert !Precedes(key, s[p + 1], s[0]);
        }
      }
      forall p, q | 0 <= p < q < |r|
        ensures !Precedes(key, r[q], r[p])
      {
        if p == 0 {
          assert r[q] == rest[q - 1];
        } else {
          assert r[q] == rest[q - 1] && r[p] == rest[p - 1];
        }
      }
    }
  }

  /** Insertion sort of the index sequence `s` by `key`. */
  function SortByKey(key: seq<real>, s: seq<nat>): (r: seq<nat>)
    requires InKeyRange(key, s)
    ensures multiset(r) == multiset(s)
    ensures InKeyRange(key, r)
    ensures Ordered(key, r)
  {
    if |s| == 0 then []
    else
      assert s == [s[0]] + s[1..];
      Insert(key, s[0], SortByKey(key, s[1..]))
  }

  /** Two orderings of the same indices that are both ordered by `key` (with
      index tie-break) are the same sequence: the stable sort has one answer. */
  lemma {:induction false} OrderedUnique(key: seq<real>, a: seq<nat>, b: seq<nat>)
    requires InKeyRange(key, a) && InKeyRange(key, b)
    requires Ordered(key, a) && Ordered(key, b)
    requires multiset(a) == multiset(b)
    ensures a == b
    decreases |a|
  {
    assert |a| == |multiset(a)| == |b|;
    if |a| > 0 {
      SameFirst(key, a, b);
      OrderedTail(key, a);
      OrderedTail(key, b);
      RemoveAt(a, 0);
      RemoveAt(b, 0);
      assert Without(a, 0) == a[1..] && Without(b, 0) == b[1..];
      OrderedUnique(key, a[1..], b[1..]);
      assert a == [a[0]] + a[1..];
    }
  }

  lemma OrderedTail(key: seq<real>, s: seq<nat>)
    requires InKeyRange(key, s) && Ordered(key, s) && |s| > 0
    ensures InKeyRange(key, s[1..]) && Ordered(key, s[1..])
  {
    forall p, q | 0 <= p < q < |s| - 1
      ensures !Precedes(key, s[1..][q], s[1..][p])
    {
      assert s[1..][q] == s[q + 1] && s[1..][p] == s[p + 1];
    }
  }

  /** Two ordered arrangements of the same non-empty multiset start alike. */
  lemma SameFirst(key: seq<real>, a: seq<nat>, b: seq<nat>)
    requires InKeyRange(key, a) && InKeyRange(key, b)
    requires Ordered(key, a) && Ordered(key, b)
    requires multiset(a) == multiset(b) && |a| > 0 && |b| > 0
    ensures a[0] == b[0]
  {
    assert a[0] in multiset(b);
    var j :| 0 <= j < |b| && b[j] == a[0];
    assert b[0] in multiset(a);
    var i :| 0 <= i < |a| && a[i] == b[0];
    if i > 0 && j > 0 {
      assert !Precedes(key, a[i], a[0]);
      assert !Precedes(key, b[j], b[0]);
    }
  }

  /** A sequence whose every entry precedes the next one is ordered: the
      index tie-break makes `Precedes` a strict total order, so checking
      neighbours suffices. */
  lemma OrderedFromAdjacent(key: seq<real>, s: seq<nat>)
    requires InKeyRange(key, s)
    requires forall p :: 0 <= p < |s| - 1 ==> Precedes(key, s[p], s[p + 1])
    ensures Ordered(key, s)
  {
    forall p, q | 0 <= p < q < |s|
      ensures !Precedes(key, s[q], s[p])
    {
      PrecedesChain(key, s, p, q);
    }
  }

  lemma {:induction false} PrecedesChain(key: seq<real>, s: seq<nat>, p: nat, q: nat)
    requires InKeyRange(key, s) && p < q < |s|
    requires forall i :: 0 <= i < |s| - 1 ==> Precedes(key, s[i], s[i + 1])
    ensures Precedes(key, s[p], s[q])
    decreases q - p
  {
    if q > p + 1 {
      PrecedesChain(key, s, p, q - 1);
      assert Precedes(key, s[q - 1], s[q]);
    }
  }

  /** The absolute deviation `abs(angle - zero)` that orders the dose-symmetric scan. */
  function Deviation(angle: real, zero: real): (d: real)
    ensures d >= 0.0
    ensures d == angle - zero || d == zero - angle
  {
    if angle >= zero then angle - zero else zero - angle
  }

  /** The key of every angle index. */
  function Deviations(angles: seq<real>, zero: real): (key: seq<real>)
    ensures |key| == |angles|
    ensures forall i :: 0 <= i < |angles| ==> key[i] == Deviation(angles[i], zero)
  {
    seq(|angles|, i requires 0 <= i < |angles| => Deviation(angles[i], zero))
  }

  /** `sorted(arange(N), key=lambda x: abs(angles[x] - zero))`: every index once,
      nearest-to-zero first, equally distant angles in increasing index order. */
  function DeviationOrder(angles: seq<real>, zero: real): (order: seq<nat>)
    ensures IsIndexPermutation(order, |angles|)
    ensures |order| == |angles|
    ensures InKeyRange(Deviations(angles, zero), order)
    ensures Ordered(Deviations(angles, zero), order)
  {
    var key := Deviations(angles, zero);
    assert InKeyRange(key, Range(|angles|));
    var r := SortByKey(key, Range(|angles|));
    assert |r| == |multiset(r)| == |angles|;
    r
  }

  /** Any index order of the angles that is sorted by deviation with the stable
      tie-break is exactly `DeviationOrder`. */
  lemma DeviationOrderCharacterized(angles: seq<real>, zero: real, order: seq<nat>)
    requires IsIndexPermutation(order, |angles|)
    requires InKeyRange(Deviations(angles, zero), order)
    requires Ordered(Deviations(angles, zero), order)
    ensures order == DeviationOrder(angles, zero)
  {
    OrderedUnique(Deviations(angles, zero), order, DeviationOrder(angles, zero));
  }
}
