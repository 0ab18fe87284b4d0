// The two merge sorts, in place on an array. Both are proved to leave the one
// stably sorted arrangement, so they agree.
module MergeSort {
  import opened StableSort

  // ---- One step of a merge

  // `left` and `right` are sorted; i and j elements of them are already in `out`.
  ghost predicate Merging<T(!new)>(cmp: (T, T) -> int, left: seq<T>, right: seq<T>, i: nat, j: nat, out: seq<T>) {
    && i <= |left| && j <= |right| && |out| == i + j
    && Ordered(cmp, out)
    && Rearranged(cmp, left[..i] + right[..j], out)
    && (forall a, b :: 0 <= a < |out| && i <= b < |left| ==> cmp(out[a], left[b]) <= 0)
    && (forall a, b :: 0 <= a < |out| && j <= b < |right| ==> cmp(out[a], right[b]) <= 0)
    && (forall a, b :: 0 <= a < j && i <= b < |left| ==> cmp(right[a], left[b]) < 0)
  }

  lemma TakeLeft<T(!new)>(cmp: (T, T) -> int, left: seq<T>, right: seq<T>, i: nat, j: nat, out: seq<T>)
    requires TotalPreorder(cmp) && Ordered(cmp, left) && Ordered(cmp, right)
    requires Merging(cmp, left, right, i, j, out) && i < |left|
    requires j < |right| ==> cmp(left[i], right[j]) <= 0
    ensures Merging(cmp, left, right, i + 1, j, out + [left[i]])
  {
    var l := left[i];
    BelowRest(cmp, right, l, j);
    forall x
      ensures Class(cmp, out + [l], x) == Class(cmp, left[..i + 1] + right[..j], x)
    {
      LeftClass(cmp, left, right, i, j, out, x);
    }
    hide TotalPreorder, Class;
  }

  lemma BelowRest<T(!new)>(cmp: (T, T) -> int, s: seq<T>, l: T, k: nat)
    requires TotalPreorder(cmp) && Ordered(cmp, s) && (k < |s| ==> cmp(l, s[k]) <= 0)
    ensures forall b :: k <= b < |s| ==> cmp(l, s[b]) <= 0
  {
    forall b | k <= b < |s|
      ensures cmp(l, s[b]) <= 0
    {
      assert b > k ==> cmp(s[k], s[b]) <= 0;
      assert cmp(l, s[k]) <= 0;
    }
  }

  // What is taken from the left is in no class with what was taken from the right.
  lemma LeftClass<T(!new)>(cmp: (T, T) -> int, left: seq<T>, right: seq<T>, i: nat, j: nat, out: seq<T>, x: T)
    requires TotalPreorder(cmp) && i < |left| && j <= |right|
    requires Class(cmp, out, x) == Class(cmp, left[..i] + right[..j], x)
    requires forall k :: 0 <= k < j ==> cmp(right[k], left[i]) < 0
    ensures Class(cmp, out + [left[i]], x) == Class(cmp, left[..i + 1] + right[..j], x)
  {
    hide TotalPreorder;
    var l := left[i];
    assert left[..i + 1] == left[..i] + [l];
    ClassOfOne(cmp, l, x);
    if cmp(x, l) == 0 {
      NoneEqual(cmp, right[..j], l, x);
      ClassEmpty(cmp, right[..j], x);
    }
    hide Class;
    ClassOfSum(cmp, out, [l], x);
    ClassOfSum(cmp, left[..i], right[..j], x);
    ClassOfSum(cmp, left[..i + 1], right[..j], x);
    ClassOfSum(cmp, left[..i], [l], x);
  }

  lemma NoneEqual<T(!new)>(cmp: (T, T) -> int, s: seq<T>, l: T, x: T)
    requires TotalPreorder(cmp) && cmp(x, l) == 0 && forall k :: 0 <= k < |s| ==> cmp(s[k], l) < 0
    ensures forall k :: 0 <= k < |s| ==> cmp(x, s[k]) != 0
  {
    forall k | 0 <= k < |s|
      ensures cmp(x, s[k]) != 0
    {
      assert cmp(l, s[k]) > 0 <==> cmp(s[k], l) < 0;
      assert cmp(l, x) > 0 <==> cmp(x, l) < 0;
      Transitive(cmp, l, x, s[k]);
    }
  }

  lemma Transitive<T(!new)>(cmp: (T, T) -> int, x: T, y: T, z: T)
    requires TotalPreorder(cmp)
    ensures cmp(x, y) <= 0 && cmp(y, z) <= 0 ==> cmp(x, z) <= 0
  {
  }

  lemma TakeRight<T(!new)>(cmp: (T, T) -> int, left: seq<T>, right: seq<T>, i: nat, j: nat, out: seq<T>)
    requires TotalPreorder(cmp) && Ordered(cmp, left) && Ordered(cmp, right)
    requires Merging(cmp, left, right, i, j, out) && j < |right|
    requires i < |left| ==> cmp(left[i], right[j]) > 0
    ensures Merging(cmp, left, right, i, j + 1, out + [right[j]])
  {
    var r := right[j];
    AboveRest(cmp, left, r, i);
    forall x
      ensures Class(cmp, out + [r], x) == Class(cmp, left[..i] + right[..j + 1], x)
    {
      assert left[..i] + right[..j + 1] == (left[..i] + right[..j]) + [r];
      ClassOfSum(cmp, out, [r], x);
      ClassOfSum(cmp, left[..i] + right[..j], [r], x);
    }
    hide TotalPreorder, Class;
  }

  lemma AboveRest<T(!new)>(cmp: (T, T) -> int, s: seq<T>, r: T, k: nat)
    requires TotalPreorder(cmp) && Ordered(cmp, s) && (k < |s| ==> cmp(s[k], r) > 0)
    ensures forall b :: k <= b < |s| ==> cmp(r, s[b]) < 0
  {
    forall b | k <= b < |s|
      ensures cmp(r, s[b]) < 0
    {
      assert cmp(s[k], r) > 0 && (b > k ==> cmp(s[k], s[b]) <= 0);
      assert cmp(s[b], r) > 0 <==> cmp(r, s[b]) < 0;
    }
  }

  lemma Merged<T(!new)>(cmp: (T, T) -> int, left: seq<T>, right: seq<T>, out: seq<T>)
    requires Merging(cmp, left, right, |left|, |right|, out)
    ensures StablySorted(cmp, left + right, out) && |out| == |left| + |right|
  {
    assert left[..|left|] == left && right[..|right|] == right;
  }

  // ---- merge

  // The buffer tmp is filled from front to back, and then copied over the two runs.
  method Merge<T(!new)>(a: array<T>, start: nat, mid: nat, end: nat, cmp: (T, T) -> int)
    requires TotalPreorder(cmp) && start <= mid < end < a.Length
    requires Ordered(cmp, a[start..mid + 1]) && Ordered(cmp, a[mid + 1..end + 1])
    modifies a
    ensures forall i :: 0 <= i < a.Length && !(start <= i <= end) ==> a[i] == old(a[i])
    ensures StablySorted(cmp, old(a[start..end + 1]), a[start..end + 1])
  {
    hide TotalPreorder, Ordered, Rearranged, Merging, StablySorted;
    ghost var left, right := a[start..mid + 1], a[mid + 1..end + 1];
    assert a[start..end + 1] == left + right;
    var tmp: seq<T> := [];
    var i, j := start, mid + 1;
    ghost var p, q := 0, 0;
    NothingMerged(cmp, left, right);
    while i <= mid && j <= end
      invariant i == start + p && j == mid + 1 + q && p <= |left| && q <= |right|
      invariant a[..] == old(a[..]) && Merging(cmp, left, right, p, q, tmp)
    {
      if cmp(a[i], a[j]) <= 0 {
        TakeLeft(cmp, left, right, p, q, tmp);
        tmp := tmp + [a[i]];
        i, p := i + 1, p + 1;
      } else {
        TakeRight(cmp, left, right, p, q, tmp);
        tmp := tmp + [a[j]];
        j, q := j + 1, q + 1;
      }
    }
    while i <= mid
      invariant i == start + p && j == mid + 1 + q && p <= |left| && q <= |right|
      invariant p < |left| ==> q == |right|
      invariant a[..] == old(a[..]) && Merging(cmp, left, right, p, q, tmp)
    {
      TakeLeft(cmp, left, right, p, q, tmp);
      tmp := tmp + [a[i]];
      i, p := i + 1, p + 1;
    }
    while j <= end
      invariant j == mid + 1 + q && p == |left| && q <= |right|
      invariant a[..] == old(a[..]) && Merging(cmp, left, right, p, q, tmp)
    {
      TakeRight(cmp, left, right, p, q, tmp);
      tmp := tmp + [a[j]];
      j, q := j + 1, q + 1;
    }
    Merged(cmp, left, right, tmp);
    assert |tmp| == end - start + 1;
    CopyBack(a, start, tmp);
  }

  method CopyBack<T>(a: array<T>, start: nat, tmp: seq<T>)
    requires start + |tmp| <= a.Length
    modifies a
    ensures forall i :: 0 <= i < a.Length && !(start <= i < start + |tmp|) ==> a[i] == old(a[i])
    ensures a[start..start + |tmp|] == tmp
  {
    for k := 0 to |tmp|
      invariant forall i :: 0 <= i < a.Length && !(start <= i < start + k) ==> a[i] == old(a[i])
      invariant a[start..start + k] == tmp[..k]
    {
      a[start + k] := tmp[k];
    }
  }

  lemma NothingMerged<T(!new)>(cmp: (T, T) -> int, left: seq<T>, right: seq<T>)
    ensures Merging(cmp, left, right, 0, 0, [])
  {
    assert left[..0] + right[..0] == [];
  }

  lemma One<T(!new)>(cmp: (T, T) -> int, s: seq<T>)
    requires |s| <= 1
    ensures StablySorted(cmp, s, s)
  {
  }

  // ---- mergesort and msort

  lemma HalvesSorted<T(!new)>(cmp: (T, T) -> int, l: seq<T>, r: seq<T>, l': seq<T>, r': seq<T>, out: seq<T>)
    requires StablySorted(cmp, l, l') && StablySorted(cmp, r, r') && StablySorted(cmp, l' + r', out)
    ensures StablySorted(cmp, l + r, out)
  {
    RearrangedSum(cmp, l, l', r, r');
    RearrangedTrans(cmp, l + r, l' + r', out);
  }

  method MergeSortRange<T(!new)>(a: array<T>, start: nat, end: nat, cmp: (T, T) -> int)
    requires TotalPreorder(cmp) && start <= end < a.Length
    modifies a
    ensures forall i :: 0 <= i < a.Length && !(start <= i <= end) ==> a[i] == old(a[i])
    ensures StablySorted(cmp, old(a[start..end + 1]), a[start..end + 1])
    decreases end - start
  {
    hide TotalPreorder, Ordered, Rearranged, StablySorted;
    if start < end {
      var mid := (end + start) / 2;
      ghost var l, r := a[start..mid + 1], a[mid + 1..end + 1];
      assert a[start..end + 1] == l + r;
      MergeSortRange(a, start, mid, cmp);
      assert a[mid + 1..end + 1] == r;
      ghost var l' := a[start..mid + 1];
      MergeSortRange(a, mid + 1, end, cmp);
      ghost var r' := a[mid + 1..end + 1];
      assert a[start..mid + 1] == l';
      assert a[start..end + 1] == l' + r';
      SortedIsOrdered(cmp, l, l');
      SortedIsOrdered(cmp, r, r');
      Merge(a, start, mid, end, cmp);
      HalvesSorted(cmp, l, r, l', r', a[start..end + 1]);
    } else {
      One(cmp, a[start..end + 1]);
    }
  }

  lemma SortedIsOrdered<T(!new)>(cmp: (T, T) -> int, s: seq<T>, r: seq<T>)
    requires StablySorted(cmp, s, r)
    ensures Ordered(cmp, r)
  {
  }

  // msort of msort.c. It computes nmemb - 1, so it wants at least one element.
  method Sort<T(!new)>(a: array<T>, cmp: (T, T) -> int)
    requires TotalPreorder(cmp) && a.Length >= 1
    modifies a
    ensures StablySorted(cmp, old(a[..]), a[..])
  {
    hide TotalPreorder, StablySorted;
    MergeSortRange(a, 0, a.Length - 1, cmp);
    assert a[0..a.Length - 1 + 1] == a[..] && old(a[0..a.Length - 1 + 1]) == old(a[..]);
  }

  // ---- The optimised version

  // When the second run starts above the end of the first, there is nothing to merge.
  lemma RunsInOrder<T(!new)>(cmp: (T, T) -> int, l: seq<T>, r: seq<T>)
    requires TotalPreorder(cmp) && Ordered(cmp, l) && Ordered(cmp, r) && l != [] && r != []
    requires cmp(r[0], l[|l| - 1]) > 0
    ensures StablySorted(cmp, l + r, l + r)
  {
    var s := l + r;
    forall i, k | 0 <= i < k < |s|
      ensures cmp(s[i], s[k]) <= 0
    {
      if i < |l| <= k {
        var last := l[|l| - 1];
        assert cmp(last, r[0]) <= 0 by {
          assert cmp(r[0], last) > 0 <==> cmp(last, r[0]) < 0;
        }
        assert i < |l| - 1 ==> cmp(l[i], last) <= 0;
        assert k > |l| ==> cmp(r[0], r[k - |l|]) <= 0;
        Transitive(cmp, l[i], last, r[0]);
        Transitive(cmp, l[i], r[0], s[k]);
        Transitive(cmp, last, r[0], s[k]);
      }
    }
  }

  method MergeSortSkipping<T(!new)>(a: array<T>, start: nat, end: nat, cmp: (T, T) -> int)
    requires TotalPreorder(cmp) && start <= end < a.Length
    modifies a
    ensures forall i :: 0 <= i < a.Length && !(start <= i <= end) ==> a[i] == old(a[i])
    ensures StablySorted(cmp, old(a[start..end + 1]), a[start..end + 1])
    decreases end - start
  {
    hide TotalPreorder, Ordered, Rearranged, StablySorted;
    if start < end {
      var mid := (end + start) / 2;
      ghost var l, r := a[start..mid + 1], a[mid + 1..end + 1];
      assert a[start..end + 1] == l + r;
      MergeSortSkipping(a, start, mid, cmp);
      assert a[mid + 1..end + 1] == r;
      ghost var l' := a[start..mid + 1];
      MergeSortSkipping(a, mid + 1, end, cmp);
      ghost var r' := a[mid + 1..end + 1];
      assert a[start..mid + 1] == l';
      assert a[start..end + 1] == l' + r';
      SortedIsOrdered(cmp, l, l');
      SortedIsOrdered(cmp, r, r');
      if cmp(a[mid + 1], a[mid]) > 0 {
        RunsInOrder(cmp, l', r');
      } else {
        Merge(a, start, mid, end, cmp);
      }
      HalvesSorted(cmp, l, r, l', r', a[start..end + 1]);
    } else {
      One(cmp, a[start..end + 1]);
    }
  }

  // Sorted but for the element at j, which belongs further down.
  ghost predicate Sinking<T>(cmp: (T, T) -> int, s: seq<T>, j: nat, i: nat)
    requires j <= i < |s|
  {
    && (forall u, v :: 0 <= u < v <= i && u != j && v != j ==> cmp(s[u], s[v]) <= 0)
    && (forall v :: j < v <= i ==> cmp(s[j], s[v]) <= 0)
  }

  lemma SinkStep<T(!new)>(cmp: (T, T) -> int, s: seq<T>, j: nat, i: nat)
    requires TotalPreorder(cmp) && 0 < j <= i < |s| && Sinking(cmp, s, j, i) && cmp(s[j - 1], s[j]) > 0
    ensures Sinking(cmp, s[j - 1 := s[j]][j := s[j - 1]], j - 1, i)
  {
    assert cmp(s[j - 1], s[j]) > 0 <==> cmp(s[j], s[j - 1]) < 0;
  }

  lemma SinkDone<T(!new)>(cmp: (T, T) -> int, s: seq<T>, j: nat, i: nat)
    requires TotalPreorder(cmp) && j <= i < |s| && Sinking(cmp, s, j, i) && (j > 0 ==> cmp(s[j - 1], s[j]) <= 0)
    ensures Ordered(cmp, s[..i + 1])
  {
    forall u | 0 <= u < j
      ensures cmp(s[u], s[j]) <= 0
    {
      assert u < j - 1 ==> cmp(s[u], s[j - 1]) <= 0;
      Transitive(cmp, s[u], s[j - 1], s[j]);
    }
    hide TotalPreorder;
  }

  lemma SinkStart<T(!new)>(cmp: (T, T) -> int, s: seq<T>, i: nat)
    requires i < |s| && Ordered(cmp, s[..i])
    ensures Sinking(cmp, s, i, i)
  {
    assert forall u, v :: 0 <= u < v < i ==> s[..i][u] == s[u] && s[..i][v] == s[v];
  }

  lemma SortedStart<T(!new)>(cmp: (T, T) -> int, s: seq<T>)
    ensures Rearranged(cmp, s, s) && (|s| >= 1 ==> Ordered(cmp, s[..1])) && (|s| == 0 ==> Ordered(cmp, s))
  {
  }

  method InsertionSort<T(!new)>(a: array<T>, cmp: (T, T) -> int)
    requires TotalPreorder(cmp)
    modifies a
    ensures StablySorted(cmp, old(a[..]), a[..])
  {
    hide TotalPreorder, Ordered, Rearranged, Sinking;
    SortedStart(cmp, a[..]);
    var i := 1;
    while i < a.Length
      invariant i >= 1 && Rearranged(cmp, old(a[..]), a[..])
      invariant Ordered(cmp, if i <= a.Length then a[..i] else a[..])
    {
      var j := i;
      SinkStart(cmp, a[..], i);
      while j > 0
        invariant j <= i && Sinking(cmp, a[..], j, i) && Rearranged(cmp, old(a[..]), a[..])
      {
        if cmp(a[j - 1], a[j]) > 0 {
          ghost var s := a[..];
          SinkStep(cmp, s, j, i);
          ExchangeRearranged(cmp, s, j - 1);
          a[j - 1], a[j] := a[j], a[j - 1];
          RearrangedTrans(cmp, old(a[..]), s, a[..]);
          assert a[..] == s[j - 1 := s[j]][j := s[j - 1]];
        } else {
          break;
        }
        j := j - 1;
      }
      SinkDone(cmp, a[..], j, i);
      i := i + 1;
    }
    assert a[..a.Length] == a[..];
  }

  // msort of msort_opt.c
  method SortOptimised<T(!new)>(a: array<T>, cmp: (T, T) -> int)
    requires TotalPreorder(cmp)
    modifies a
    ensures StablySorted(cmp, old(a[..]), a[..])
  {
    hide TotalPreorder, StablySorted;
    if a.Length < 17 {
      InsertionSort(a, cmp);
    } else {
      MergeSortSkipping(a, 0, a.Length - 1, cmp);
      assert a[0..a.Length - 1 + 1] == a[..] && old(a[0..a.Length - 1 + 1]) == old(a[..]);
    }
  }

  // Sorted by the one and by the other, two copies of an array end up equal.
  method SortBoth<T(!new)>(a: array<T>, b: array<T>, cmp: (T, T) -> int)
    requires TotalPreorder(cmp) && a != b && a[..] == b[..] && a.Length >= 1
    modifies a, b
    ensures a[..] == b[..] && Ordered(cmp, a[..]) && multiset(a[..]) == multiset(old(a[..]))
  {
    hide TotalPreorder;
    Sort(a, cmp);
    SortOptimised(b, cmp);
    StableSortIsUnique(cmp, old(a[..]), a[..], b[..]);
    RearrangedIsPermutation(cmp, old(a[..]), a[..]);
  }
}
