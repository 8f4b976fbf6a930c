/** Sequence vocabulary of the reordering engine. The engine works on index
    orders (permutations of 0..N-1) and applies them to parallel arrays, so
    this module provides the sequence forms of the numpy operations it uses:
    `arange`, `flip`, `concatenate`, stride slices `s[off::n]` and fancy
    indexing `xs[order]`, together with the multiset facts that show each
    reordering loses and duplicates nothing. */
module Seqs {
  import opened Arith

  /** `arange(n)`: the identity order 0, 1, ..., n-1. */
  function Range(n: nat): (r: seq<nat>)
    ensures |r| == n
    ensures forall i :: 0 <= i < n ==> r[i] == i
  {
    seq(n, i => i)
  }

  /** `order` lists every index of 0..n-1 exactly once. */
  predicate IsIndexPermutation(order: seq<nat>, n: nat) {
    multiset(order) == multiset(Range(n))
  }

  /** Every entry of an index permutation of 0..n-1 is a valid index. */
  lemma PermutationInRange(order: seq<nat>, n: nat)
    requires IsIndexPermutation(order, n)
    ensures |order| == n
    ensures forall k :: 0 <= k < |order| ==> order[k] < n
  {
    assert |multiset(order)| == |multiset(Range(n))|;
    forall k | 0 <= k < |order|
      ensures order[k] < n
    {
      assert order[k] in multiset(order);
      assert order[k] in multiset(Range(n));
    }
  }

  /** `np.flip`: the sequence read backwards. */
  function Reverse<T>(s: seq<T>): (r: seq<T>)
    ensures |r| == |s|
    ensures forall i :: 0 <= i < |s| ==> r[i] == s[|s| - 1 - i]
  {
    if |s| == 0 then [] else Reverse(s[1..]) + [s[0]]
  }

  /** Reversal keeps every element with its multiplicity. */
  lemma {:induction false} ReverseMultiset<T>(s: seq<T>)
    ensures multiset(Reverse(s)) == multiset(s)
  {
    if |s| > 0 {
      ReverseMultiset(s[1..]);
      assert s == [s[0]] + s[1..];
    }
  }

  /** `np.concatenate` of a list of arrays (also `flatten` of a 2-D array,
      read row by row). */
  function Concat<T>(ss: seq<seq<T>>): seq<T>
  {
    if |ss| == 0 then [] else ss[0] + Concat(ss[1..])
  }

  lemma {:induction false} ConcatAppend<T>(a: seq<seq<T>>, b: seq<seq<T>>)
    ensures Concat(a + b) == Concat(a) + Concat(b)
  {
    if |a| == 0 {
      assert a + b == b;
    } else {
      assert (a + b)[1..] == a[1..] + b;
      ConcatAppend(a[1..], b);
    }
  }

  /** A 2-D array of shape `rows` x `cols`, stored row by row. */
  predicate IsGrid<T>(g: seq<seq<T>>, rows: nat, cols: nat) {
    |g| == rows && forall r :: 0 <= r < rows ==> |g[r]| == cols
  }

  /** Position of cell (r, c) once a grid with `cols` columns is flattened row by row. */
  function RowMajor(r: nat, c: nat, cols: nat): nat {
    r * cols + c
  }

  /** Row-major flattening: cell (r, c) lands at `RowMajor(r, c, cols)`. */
  lemma {:induction false} ConcatGrid<T>(g: seq<seq<T>>, rows: nat, cols: nat)
    requires IsGrid(g, rows, cols)
    ensures |Concat(g)| == rows * cols
    ensures forall r, c :: 0 <= r < rows && 0 <= c < cols ==>
              0 <= RowMajor(r, c, cols) < |Concat(g)| && Concat(g)[RowMajor(r, c, cols)] == g[r][c]
  {
    ConcatGridLength(g, rows, cols);
    forall r, c | 0 <= r < rows && 0 <= c < cols
      ensures 0 <= RowMajor(r, c, cols) < |Concat(g)| && Concat(g)[RowMajor(r, c, cols)] == g[r][c]
    {
      ConcatGridCell(g, rows, cols, r, c);
    }
  }

  lemma {:induction false} ConcatGridLength<T>(g: seq<seq<T>>, rows: nat, cols: nat)
    requires IsGrid(g, rows, cols)
    ensures |Concat(g)| == rows * cols
  {
    if rows > 0 {
      ConcatGridLength(g[1..], rows - 1, cols);
      assert rows * cols == cols + (rows - 1) * cols;
    }
  }

  lemma {:induction false} ConcatGridCell<T>(g: seq<seq<T>>, rows: nat, cols: nat, r: nat, c: nat)
    requires IsGrid(g, rows, cols) && r < rows && c < cols
    ensures r * cols + c < |Concat(g)| && Concat(g)[r * cols + c] == g[r][c]
  {
    ConcatGridLength(g, rows, cols);
    RowMajorInRange(r, c, rows, cols);
    var tail := g[1..];
    assert Concat(g) == g[0] + Concat(tail);
    if r > 0 {
      ConcatGridCell(tail, rows - 1, cols, r - 1, c);
      assert r * cols + c == cols + ((r - 1) * cols + c);
    }
  }

  /** Flattening keeps every element of every row. */
  lemma {:induction false} ConcatMultiset<T>(a: seq<seq<T>>, b: seq<seq<T>>)
    ensures multiset(Concat(a + b)) == multiset(Concat(a)) + multiset(Concat(b))
  {
    ConcatAppend(a, b);
  }

  /** Number of elements of the Python slice `s[off::n]` when `|s| == len`. */
  function StrideCount(len: nat, off: nat, n: nat): nat
    requires n > 0
  {
    if off >= len then 0 else (len - off - 1) / n + 1
  }

  /** The Python slice `s[off::n]`: the elements at `off`, `off + n`, `off + 2n`, ... */
  function Stride<T>(s: seq<T>, off: nat, n: nat): (r: seq<T>)
    requires n > 0
    ensures |r| == StrideCount(|s|, off, n)
    decreases |s| - off
  {
    if off >= |s| then []
    else
      StrideStep(|s|, off, n);
      [s[off]] + Stride(s, off + n, n)
  }

  /** Element `m` of `s[off::n]` is `s[off + m * n]`. */
  lemma {:induction false} StrideElements<T>(s: seq<T>, off: nat, n: nat)
    requires n > 0
    ensures forall m :: 0 <= m < |Stride(s, off, n)| ==>
              off + m * n < |s| && Stride(s, off, n)[m] == s[off + m * n]
    decreases |s| - off
  {
    if off < |s| {
      var rest := Stride(s, off + n, n);
      StrideElements(s, off + n, n);
      forall m | 0 <= m < |Stride(s, off, n)|
        ensures off + m * n < |s| && Stride(s, off, n)[m] == s[off + m * n]
      {
        if m > 0 {
          assert m * n == n + (m - 1) * n;
          assert Stride(s, off, n)[m] == rest[m - 1];
        }
      }
    }
  }

  /** Element `m` of `s[off::n]`, for one `m`. */
  lemma StrideElement<T>(s: seq<T>, off: nat, n: nat, m: nat)
    requires n > 0 && m < |Stride(s, off, n)|
    ensures off + m * n < |s| && Stride(s, off, n)[m] == s[m * n + off]
  {
    StrideElements(s, off, n);
  }

  lemma StrideStep(len: nat, off: nat, n: nat)
    requires n > 0 && off < len
    ensures StrideCount(len, off, n) == StrideCount(len, off + n, n) + 1
  {
    if off + n < len {
      DivModAddDivisor(len - off - n - 1, n);
    }
  }

  /** The `n` interleaved series `[s[i::n] for i in range(n)]`. */
  function Strides<T>(s: seq<T>, n: nat): (r: seq<seq<T>>)
    requires n > 0
    ensures |r| == n
  {
    seq(n, i requires 0 <= i < n => Stride(s, i, n))
  }

  /** Appending `x` to `s` appends it to exactly the series whose offset is
      congruent to its index. */
  lemma {:induction false} StrideSnoc<T>(s: seq<T>, x: T, off: nat, n: nat)
    requires n > 0
    ensures Stride(s + [x], off, n)
         == Stride(s, off, n) + (if off <= |s| && (|s| - off) % n == 0 then [x] else [])
    decreases |s| - off
  {
    if off < |s| {
      var tail := if off <= |s| && (|s| - off) % n == 0 then [x] else [];
      var next := if off + n <= |s| && (|s| - off - n) % n == 0 then [x] else [];
      LastInSeries(|s|, off, n);
      assert tail == next;
      calc {
        Stride(s + [x], off, n);
        == { assert (s + [x])[off] == s[off]; }
        [s[off]] + Stride(s + [x], off + n, n);
        == { StrideSnoc(s, x, off + n, n); }
        [s[off]] + (Stride(s, off + n, n) + next);
        ([s[off]] + Stride(s, off + n, n)) + tail;
        Stride(s, off, n) + tail;
      }
    } else if off == |s| {
      assert Stride(s + [x], off, n) == [x] + Stride(s + [x], off + n, n);
      assert 0 % n == 0;
    }
  }

  /** Index `len` continues the series at `off < len` exactly when it
      continues the series one step further on. */
  lemma LastInSeries(len: nat, off: nat, n: nat)
    requires n > 0 && off < len
    ensures (len - off) % n == 0 <==> off + n <= len && (len - off - n) % n == 0
  {
    if off + n <= len {
      DivModAddDivisor(len - off - n, n);
    } else {
      DivModUnique(len - off, n, 0, len - off);
    }
  }

  lemma StridesSnoc<T>(s: seq<T>, x: T, n: nat)
    requires n > 0
    ensures Strides(s + [x], n) == Strides(s, n)[|s| % n := Strides(s, n)[|s| % n] + [x]]
  {
    var k := |s| % n;
    var a := Strides(s + [x], n);
    var b := Strides(s, n)[k := Strides(s, n)[k] + [x]];
    forall i | 0 <= i < n
      ensures a[i] == b[i]
    {
      StrideSnoc(s, x, i, n);
      StrideOwner(|s|, n, i);
    }
    assert a == b;
  }

  /** Appending one element to one of the concatenated parts adds exactly that element. */
  lemma {:induction false} ConcatSnocPart<T>(ss: seq<seq<T>>, k: nat, x: T)
    requires k < |ss|
    ensures multiset(Concat(ss[k := ss[k] + [x]])) == multiset(Concat(ss)) + multiset{x}
  {
    if k > 0 {
      ConcatSnocPart(ss[1..], k - 1, x);
      assert ss[k := ss[k] + [x]][1..] == ss[1..][k - 1 := ss[1..][k - 1] + [x]];
    }
  }

  /** The `n` stride series of `s` partition it: together they hold every
      element of `s` exactly once. */
  lemma {:induction false} StridesPartition<T>(s: seq<T>, n: nat)
    requires n > 0
    ensures multiset(Concat(Strides(s, n))) == multiset(s)
  {
    if |s| == 0 {
      EmptyStrides<T>(n);
    } else {
      var init, x := s[..|s| - 1], s[|s| - 1];
      assert s == init + [x];
      StridesPartition(init, n);
      StridesSnoc(init, x, n);
      ConcatSnocPart(Strides(init, n), |init| % n, x);
    }
  }

  lemma {:induction false} EmptyStrides<T>(n: nat)
    requires n > 0
    ensures Concat(Strides<T>([], n)) == []
  {
    EmptyConcat(Strides<T>([], n));
  }

  lemma {:induction false} EmptyConcat<T>(ss: seq<seq<T>>)
    requires forall i :: 0 <= i < |ss| ==> ss[i] == []
    ensures Concat(ss) == []
  {
    if |ss| > 0 {
      EmptyConcat(ss[1..]);
    }
  }

  /** numpy fancy indexing `xs[order]`. */
  function Gather<T>(xs: seq<T>, order: seq<nat>): (r: seq<T>)
    requires forall k :: 0 <= k < |order| ==> order[k] < |xs|
    ensures |r| == |order|
    ensures forall k :: 0 <= k < |order| ==> r[k] == xs[order[k]]
  {
    seq(|order|, k requires 0 <= k < |order| => xs[order[k]])
  }

  /** Gathering by two index sequences with the same multiset of indices yields
      the same multiset of values. */
  lemma {:induction false} GatherSameIndices<T>(xs: seq<T>, o1: seq<nat>, o2: seq<nat>)
    requires forall k :: 0 <= k < |o1| ==> o1[k] < |xs|
    requires multiset(o1) == multiset(o2)
    ensures forall k :: 0 <= k < |o2| ==> o2[k] < |xs|
    ensures multiset(Gather(xs, o1)) == multiset(Gather(xs, o2))
    decreases |o1|
  {
    SameMultisetInRange(o1, o2, |xs|);
    if |o1| == 0 {
      assert |o2| == |multiset(o2)| == 0;
    } else {
      var j := FindIndex(o2, o1[0]);
      var rest1, rest2 := Without(o1, 0), Without(o2, j);
      RemoveAt(o1, 0);
      RemoveAt(o2, j);
      GatherSameIndices(xs, rest1, rest2);
      GatherRemoveAt(xs, o1, 0);
      GatherRemoveAt(xs, o2, j);
    }
  }

  lemma SameMultisetInRange(o1: seq<nat>, o2: seq<nat>, n: nat)
    requires forall k :: 0 <= k < |o1| ==> o1[k] < n
    requires multiset(o1) == multiset(o2)
    ensures forall k :: 0 <= k < |o2| ==> o2[k] < n
  {
    forall k | 0 <= k < |o2|
      ensures o2[k] < n
    {
      assert o2[k] in multiset(o1);
    }
  }

  /** A position at which a member of `s` occurs. */
  lemma FindIndex<T>(s: seq<T>, x: T) returns (j: nat)
    requires x in multiset(s)
    ensures j < |s| && s[j] == x
  {
    j :| 0 <= j < |s| && s[j] == x;
  }

  /** `s` with position `j` deleted. */
  function Without<T>(s: seq<T>, j: nat): (r: seq<T>)
    requires j < |s|
    ensures |r| == |s| - 1
    ensures forall k :: 0 <= k < j ==> r[k] == s[k]
    ensures forall k :: j <= k < |r| ==> r[k] == s[k + 1]
  {
    s[..j] + s[j + 1..]
  }

  /** Deleting position `j` removes one copy of its element. */
  lemma RemoveAt<T>(s: seq<T>, j: nat)
    requires j < |s|
    ensures multiset(Without(s, j)) == multiset(s) - multiset{s[j]}
  {
    assert s == s[..j] + [s[j]] + s[j + 1..];
  }

  lemma GatherRemoveAt<T>(xs: seq<T>, o: seq<nat>, j: nat)
    requires forall k :: 0 <= k < |o| ==> o[k] < |xs|
    requires j < |o|
    ensures multiset(Gather(xs, o)) == multiset(Gather(xs, Without(o, j))) + multiset{xs[o[j]]}
  {
    var g := Gather(xs, o);
    assert g == g[..j] + [g[j]] + g[j + 1..];
    assert Gather(xs, Without(o, j)) == g[..j] + g[j + 1..];
  }

  /** Applying an index permutation to an array rearranges it without losing
      or duplicating any element. */
  lemma GatherPermutation<T>(xs: seq<T>, order: seq<nat>)
    requires IsIndexPermutation(order, |xs|)
    ensures forall k :: 0 <= k < |order| ==> order[k] < |xs|
    ensures multiset(Gather(xs, order)) == multiset(xs)
  {
    PermutationInRange(order, |xs|);
    GatherSameIndices(xs, order, Range(|xs|));
    assert Gather(xs, Range(|xs|)) == xs;
  }
}
