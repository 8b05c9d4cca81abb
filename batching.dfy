/**
 * The batches `xml_files[i:i + batch_size]` for `i` in `range(0, n, batch_size)`,
 * and their concatenation (`pd.concat` of the batch tables).
 */
module Batching {

  function Min(a: int, b: int): int
  {
    if a <= b then a else b
  }

  /** The slices of `s` at offsets 0, `size`, `2 * size`, ... below `|s|`;
      Python's slice stops at the end of the list. */
  function Batches<T>(s: seq<T>, size: nat): seq<seq<T>>
    requires size > 0
    decreases |s|
  {
    if s == [] then []
    else
      var end := Min(size, |s|);
      [s[..end]] + Batches(s[end..], size)
  }

  /** The concatenation of a list of lists, in order. */
  function Flatten<T>(ss: seq<seq<T>>): seq<T>
  {
    if ss == [] then [] else ss[0] + Flatten(ss[1..])
  }

  lemma {:induction false} FlattenConcat<T>(a: seq<seq<T>>, b: seq<seq<T>>)
    ensures Flatten(a + b) == Flatten(a) + Flatten(b)
  {
    if a == [] {
      assert a + b == b;
    } else {
      assert (a + b)[1..] == a[1..] + b;
      FlattenConcat(a[1..], b);
    }
  }

  /** The batches partition the list: put back together they are the list itself. */
  lemma {:induction false} BatchesPartition<T>(s: seq<T>, size: nat)
    requires size > 0
    ensures Flatten(Batches(s, size)) == s
  {
    if s != [] {
      var end := Min(size, |s|);
      BatchesPartition(s[end..], size);
      assert s == s[..end] + s[end..];
    }
  }

  /** Every batch is non-empty and holds at most `size` elements; all but
      the last hold exactly `size`. */
  lemma {:induction false} BatchesSized<T>(s: seq<T>, size: nat)
    requires size > 0
    ensures forall k :: 0 <= k < |Batches(s, size)| ==> 0 < |Batches(s, size)[k]| <= size
    ensures forall k :: 0 <= k < |Batches(s, size)| - 1 ==> |Batches(s, size)[k]| == size
  {
    if s != [] {
      var end := Min(size, |s|);
      BatchesSized(s[end..], size);
      var bs, rest := Batches(s, size), Batches(s[end..], size);
      assert bs == [s[..end]] + rest;
      assert forall k :: 0 < k < |bs| ==> bs[k] == rest[k - 1];
      if end < size {
        assert s[end..] == [] && rest == [];
      }
      assert 0 < |bs[0]| <= size;
      forall k | 0 < k < |bs| ensures 0 < |bs[k]| <= size && (k < |bs| - 1 ==> |bs[k]| == size) {
        assert bs[k] == rest[k - 1];
        assert 0 < |rest[k - 1]| <= size;
      }
    }
  }

  lemma MulSucc(k: nat, b: int)
    ensures (k + 1) * b == k * b + b
  {
  }

  /** There are `ceil(|s| / size)` batches: the fewest whose capacity covers the list. */
  lemma {:induction false} BatchesCount<T>(s: seq<T>, size: nat)
    requires size > 0
    ensures var count := |Batches(s, size)|;
      (count - 1) * size < |s| <= count * size || (s == [] && count == 0)
  {
    if s != [] {
      var end := Min(size, |s|);
      var rest := Batches(s[end..], size);
      BatchesCount(s[end..], size);
      assert |Batches(s, size)| == |rest| + 1;
      MulSucc(|rest|, size);
      if |rest| > 0 {
        MulSucc(|rest| - 1, size);
      }
    }
  }

  /** Batch `k` is the slice `s[k * size : k * size + size]`. */
  lemma BatchAt<T>(s: seq<T>, size: nat, k: nat)
    requires size > 0
    requires k < |Batches(s, size)|
    ensures k * size < |s|
    ensures Batches(s, size)[k] == s[k * size .. Min(k * size + size, |s|)]
  {
    BatchFrom(s, size, k);
    OffsetIsProduct(k, size);
  }

  /** `k * size` as `k` steps of `size`. */
  function Offset(k: nat, size: nat): nat
  {
    if k == 0 then 0 else size + Offset(k - 1, size)
  }

  lemma {:induction false} OffsetIsProduct(k: nat, size: nat)
    ensures Offset(k, size) == k * size
  {
    if k > 0 {
      OffsetIsProduct(k - 1, size);
      MulSucc(k - 1, size);
    }
  }

  lemma {:induction false} BatchFrom<T>(s: seq<T>, size: nat, k: nat)
    requires size > 0
    requires k < |Batches(s, size)|
    ensures Offset(k, size) < |s|
    ensures Batches(s, size)[k] == s[Offset(k, size) .. Min(Offset(k, size) + size, |s|)]
  {
    if k == 0 {
      var end := Min(size, |s|);
      assert Batches(s, size)[0] == s[..end];
      assert s[..end] == s[0..end];
    } else {
      BatchesTail(s, size, k);
      var rest := s[size..];
      var m := Offset(k - 1, size);
      BatchFrom(rest, size, k - 1);
      ShiftedSlice(s, size, m, Batches(s, size)[k]);
      assert Offset(k, size) == size + m;
    }
  }

  /** A slice of `s[size..]` is the slice of `s` shifted by `size`. */
  lemma ShiftedSlice<T>(s: seq<T>, size: nat, m: nat, b: seq<T>)
    requires size <= |s| && m < |s| - size
    requires b == s[size..][m..Min(m + size, |s[size..]|)]
    ensures b == s[size + m..Min(size + m + size, |s|)]
  {
    SliceOfSlice(s, size, m, Min(m + size, |s| - size));
  }

  /** Past the first batch, batch `k` is batch `k - 1` of the rest, and the first batch is full. */
  lemma BatchesTail<T>(s: seq<T>, size: nat, k: nat)
    requires size > 0
    requires 0 < k < |Batches(s, size)|
    ensures size < |s| && k - 1 < |Batches(s[size..], size)|
    ensures Batches(s, size)[k] == Batches(s[size..], size)[k - 1]
  {
    var end := Min(size, |s|);
    assert Batches(s, size) == [s[..end]] + Batches(s[end..], size);
    assert s[end..] != [];
  }

  lemma SliceOfSlice<T>(s: seq<T>, a: nat, b: nat, c: nat)
    requires a <= |s| && b <= c <= |s| - a
    ensures s[a..][b..c] == s[a + b..a + c]
  {
  }

  /** `f` applied to every element, the results concatenated in order (a
      loop that appends what each element gives). */
  function FlatMap<T, U>(s: seq<T>, f: T -> seq<U>): seq<U>
  {
    if s == [] then [] else f(s[0]) + FlatMap(s[1..], f)
  }

  lemma {:induction false} FlatMapConcat<T, U>(a: seq<T>, b: seq<T>, f: T -> seq<U>)
    ensures FlatMap(a + b, f) == FlatMap(a, f) + FlatMap(b, f)
  {
    if a == [] {
      assert a + b == b;
    } else {
      assert (a + b)[1..] == a[1..] + b;
      FlatMapConcat(a[1..], b, f);
    }
  }

  /** An element contributes between what precedes and what follows it. */
  lemma FlatMapAround<T, U>(a: seq<T>, x: T, b: seq<T>, f: T -> seq<U>)
    ensures FlatMap(a + [x] + b, f) == FlatMap(a, f) + f(x) + FlatMap(b, f)
  {
    FlatMapConcat(a + [x], b, f);
    FlatMapConcat(a, [x], f);
    assert [x][1..] == [];
  }

  /** What element `k` contributes sits between what comes before and after it. */
  lemma FlatMapSplitAt<T, U>(s: seq<T>, k: nat, f: T -> seq<U>)
    requires k < |s|
    ensures FlatMap(s, f) == FlatMap(s[..k], f) + f(s[k]) + FlatMap(s[k + 1..], f)
    ensures FlatMap(s[..k] + s[k + 1..], f) == FlatMap(s[..k], f) + FlatMap(s[k + 1..], f)
  {
    SliceAround(s, k);
    FlatMapAround(s[..k], s[k], s[k + 1..], f);
    FlatMapConcat(s[..k], s[k + 1..], f);
  }

  /** An element that contributes nothing can be left out. */
  lemma FlatMapSkip<T, U>(s: seq<T>, k: nat, f: T -> seq<U>)
    requires k < |s| && f(s[k]) == []
    ensures FlatMap(s, f) == FlatMap(s[..k] + s[k + 1..], f)
  {
    FlatMapSplitAt(s, k, f);
  }

  /** One more element appends what it contributes. */
  lemma FlatMapSnoc<T, U>(s: seq<T>, j: nat, f: T -> seq<U>)
    requires j < |s|
    ensures FlatMap(s[..j + 1], f) == FlatMap(s[..j], f) + f(s[j])
  {
    SliceSnoc(s, j);
    FlatMapConcat(s[..j], [s[j]], f);
    assert FlatMap([s[j]], f) == f(s[j]) + FlatMap([s[j]][1..], f);
    assert [s[j]][1..] == [];
  }

  lemma SliceSnoc<T>(s: seq<T>, j: nat)
    requires j < |s|
    ensures s[..j + 1] == s[..j] + [s[j]]
  {
  }

  /** A loop that has consumed `s[..i]` and now consumes `s[i..end]` has what
      the elements from `end` on still give left to do. */
  lemma FlatMapStep<T, U>(s: seq<T>, i: nat, end: nat, f: T -> seq<U>, acc: seq<U>, part: seq<U>)
    requires i <= end <= |s|
    requires acc + FlatMap(s[i..], f) == FlatMap(s, f)
    requires part == FlatMap(s[i..end], f)
    ensures (acc + part) + FlatMap(s[end..], f) == FlatMap(s, f)
  {
    SliceSplit(s, i, end);
    FlatMapRegroup(s[i..], s[i..end], s[end..], f, acc, FlatMap(s, f));
  }

  lemma SliceAround<T>(s: seq<T>, k: nat)
    requires k < |s|
    ensures s == s[..k] + [s[k]] + s[k + 1..]
  {
  }

  lemma SliceSplit<T>(s: seq<T>, i: nat, end: nat)
    requires i <= end <= |s|
    ensures s[i..] == s[i..end] + s[end..]
  {
  }

  lemma FlatMapRegroup<T, U>(rest: seq<T>, a: seq<T>, b: seq<T>, f: T -> seq<U>, acc: seq<U>, total: seq<U>)
    requires rest == a + b
    requires acc + FlatMap(rest, f) == total
    ensures (acc + FlatMap(a, f)) + FlatMap(b, f) == total
  {
    FlatMapConcat(a, b, f);
  }
}
