// Quicksort in place with four choices of the pivot, on indices that wrap around.
module QuickSort {
  import opened StableSort

  const SIZE := 0x1_0000_0000_0000_0000  // the values of size_t

  // right - left + 1 in size_t: the elements from left up to right.
  function Count(left: nat, right: nat): nat { (right - left + 1) % SIZE }

  // n - 1 in size_t
  function Before(n: nat): (r: nat)
    ensures r < SIZE
  {
    (n - 1) % SIZE
  }

  // What firstsort may add to cnt for n elements.
  function Bound(n: nat): int { if n == 0 then 0 else (n * n + 3 * n - 4) / 2 }

  // One partition of n elements and the sorting of the two sides stay within it.
  lemma BoundSplits(n: nat, k: nat)
    requires n >= 2 && k < n
    ensures n + 1 + Bound(k) + Bound(n - 1 - k) <= Bound(n)
  {
    var l := n - 1 - k;
    Half(n);
    Half(k);
    Half(l);
    Product(k, l);
  }

  lemma Half(n: nat)
    ensures n > 0 ==> 2 * Bound(n) == n * n + 3 * n - 4
  {
    var t := n / 2;
    if n % 2 == 0 {
      assert n == 2 * t && n * n + 3 * n - 4 == 2 * (n * t + 3 * t - 2);
    } else {
      assert n == 2 * t + 1 && n * n + 3 * n - 4 == 2 * (2 * t * t + 5 * t);
    }
  }

  lemma Product(k: nat, l: nat)
    ensures (k + l + 1) * (k + l + 1) == k * k + l * l + 2 * k * l + 2 * (k + l) + 1
    ensures k * l >= 0
  {
  }

  // ---- Partitions as sequences

  ghost predicate Exchanged<T>(s: seq<T>, s': seq<T>, i: nat, k: nat) {
    i < |s| && k < |s| && s' == s[i := s[k]][k := s[i]]
  }

  ghost predicate AtMost<T>(cmp: (T, T) -> int, s: seq<T>, p: T) { forall x :: x in s ==> cmp(x, p) <= 0 }

  ghost predicate AtLeast<T>(cmp: (T, T) -> int, s: seq<T>, p: T) { forall x :: x in s ==> cmp(p, x) <= 0 }

  // The element at j is in its place between left and right.
  ghost predicate PartitionedAt<T>(cmp: (T, T) -> int, s: seq<T>, left: nat, j: nat, right: nat) {
    && left <= j <= right < |s|
    && AtMost(cmp, s[left..j], s[j]) && AtLeast(cmp, s[j + 1..right + 1], s[j])
  }

  // Sorting both sides of a partition sorts the whole.
  lemma SidesSorted<T(!new)>(cmp: (T, T) -> int, l: seq<T>, p: T, r: seq<T>, l': seq<T>, r': seq<T>)
    requires TotalPreorder(cmp) && AtMost(cmp, l, p) && AtLeast(cmp, r, p)
    requires Ordered(cmp, l') && multiset(l') == multiset(l) && Ordered(cmp, r') && multiset(r') == multiset(r)
    ensures Ordered(cmp, l' + [p] + r') && multiset(l' + [p] + r') == multiset(l + [p] + r)
  {
    var s := l' + [p] + r';
    forall x | x in l'
      ensures cmp(x, p) <= 0
    {
      assert x in multiset(l');
    }
    forall x | x in r'
      ensures cmp(p, x) <= 0
    {
      assert x in multiset(r');
    }
    forall i, k | 0 <= i < k < |s|
      ensures cmp(s[i], s[k]) <= 0
    {
      assert cmp(s[i], p) <= 0 && cmp(p, s[k]) <= 0 ==> cmp(s[i], s[k]) <= 0;
    }
  }

  lemma SwapKeepsElements<T>(s: seq<T>, i: nat, k: nat)
    requires i < |s| && k < |s|
    ensures multiset(s[i := s[k]][k := s[i]]) == multiset(s)
  {
  }

  datatype PivotChoice = First | Last | Random | MedianOfThree

  class Quick<T(!new)> {
    var cnt: nat  // comparisons

    constructor () {
      cnt := 0;
    }

    // Both elements are in the range from left to right, which holds the elements that
    // it held in `origin`.
    method Swap(a: array<T>, i: nat, k: nat, ghost left: nat, ghost right: nat, ghost origin: seq<T>)
      requires left <= i <= right < a.Length && left <= k <= right && Within(origin, a[..], left, right)
      modifies a
      ensures Exchanged(old(a[..]), a[..], i, k) && Within(origin, a[..], left, right)
    {
      hide Within;
      ghost var s := a[..];
      SwapInRange(s, i, k, left, right);
      WithinTransitive(origin, s, s[i := s[k]][k := s[i]], left, right);
      var tmp := a[i];
      a[i] := a[k];
      a[k] := tmp;
      assert a[..] == s[i := s[k]][k := s[i]];
    }

    // Sorts the ends and the middle of the range.
    method MedianOf(a: array<T>, cmp: (T, T) -> int, left: nat, right: nat, ghost origin: seq<T>) returns (mid: nat)
      requires TotalPreorder(cmp) && left <= right < a.Length && Within(origin, a[..], left, right)
      modifies a, this
      ensures mid == (left + right) / 2 && cnt == old(cnt) + 3
      ensures cmp(a[left], a[mid]) <= 0 && cmp(a[mid], a[right]) <= 0
      ensures Within(origin, a[..], left, right)
    {
      hide Within, TotalPreorder;
      ghost var l, m, r := a[left], a[(left + right) / 2], a[right];
      ThreeSorted(cmp, l, m, r);
      mid := (left + right) / 2;
      if cmp(a[left], a[mid]) > 0 {
        Swap(a, left, mid, left, right, origin);
      }
      if cmp(a[mid], a[right]) > 0 {
        Swap(a, mid, right, left, right, origin);
      }
      if cmp(a[left], a[mid]) > 0 {
        Swap(a, left, mid, left, right, origin);
      }
      cnt := cnt + 3;
    }

    // The function sort: partitions by the first element. The range holds the elements
    // that it held in `origin`.
    method Partition(a: array<T>, cmp: (T, T) -> int, left: nat, right: nat, ghost origin: seq<T>) returns (j: nat)
      requires TotalPreorder(cmp) && left < right < a.Length && Within(origin, a[..], left, right)
      modifies a, this
      ensures PartitionedAt(cmp, a[..], left, j, right)
      ensures Within(origin, a[..], left, right)
      ensures old(cnt) + (right - left + 1) <= cnt <= old(cnt) + (right - left + 1) + 1
    {
      hide TotalPreorder, PartitionedAt, Parted, Scanned, Within;
      var i := left;
      j := right + 1;
      PartedStart(cmp, a[..], left, right);
      while true
        invariant left <= i < j <= right + 1 && Parted(cmp, a[..], left, i, j, right)
        invariant Within(origin, a[..], left, right)
        invariant cnt == old(cnt) + (i - left) + (right + 1 - j)
        decreases j - i
      {
        ghost var s, from, j0 := a[..], i, j;
        ScanBounds(cmp, s, left, i, j, right);
        i := ScanUp(a, cmp, i, left, right, s);
        ScannedUp(cmp, s, left, from, i, j, right);
        j := ScanDown(a, cmp, j, i, left, right, s);
        ScannedDown(cmp, s, left, from, i, j0, j, right);
        if i >= j {
          break;
        }
        Swap(a, i, j, left, right, origin);
        SwapParted(cmp, s, left, i, j, right);
      }
      ghost var s := a[..];
      PivotIntoPlace(cmp, s, left, i, j, right);
      Swap(a, left, j, left, right, origin);
    }

    // From the element after i up to the first that is not below the pivot, or the last.
    method ScanUp(a: array<T>, cmp: (T, T) -> int, from: nat, left: nat, right: nat, ghost s: seq<T>) returns (i: nat)
      requires s == a[..] && left <= from < right < a.Length
      modifies this
      ensures from < i <= right && (i < right ==> cmp(s[left], s[i]) <= 0)
      ensures forall k :: from < k < i ==> cmp(s[left], s[k]) > 0
      ensures cnt == old(cnt) + (i - from) + if cmp(s[left], s[i]) > 0 then 1 else 0
    {
      i := from + 1;
      while cmp(a[left], a[i]) > 0
        invariant from < i <= right
        invariant forall k :: from < k < i ==> cmp(s[left], s[k]) > 0
        invariant cnt == old(cnt) + (i - from - 1)
        decreases right - i
      {
        cnt := cnt + 1;
        if i == right {
          break;
        }
        i := i + 1;
      }
      cnt := cnt + 1;
    }

    // From the element before j down to the first that is not above the pivot.
    method ScanDown(a: array<T>, cmp: (T, T) -> int, from: nat, i: nat, left: nat, right: nat, ghost s: seq<T>)
      returns (j: nat)
      requires s == a[..] && left < i <= right < a.Length && i <= from <= right + 1
      requires cmp(s[left], s[i - 1]) >= 0
      modifies this
      ensures i - 1 <= j < from && cmp(s[left], s[j]) >= 0
      ensures cmp(s[left], s[i]) > 0 && i < from ==> i <= j
      ensures forall k :: j < k < from ==> cmp(s[left], s[k]) < 0
      ensures cnt == old(cnt) + (from - j)
    {
      j := from - 1;
      while cmp(a[left], a[j]) < 0
        invariant i - 1 <= j < from
        invariant cmp(a[left], a[i]) > 0 && i < from ==> i <= j
        invariant forall k :: j < k < from ==> cmp(s[left], s[k]) < 0
        invariant cnt == old(cnt) + (from - 1 - j)
        decreases j
      {
        cnt := cnt + 1;
        if j == left {
          break;
        }
        j := j - 1;
      }
      cnt := cnt + 1;
    }

    method FirstSort(a: array<T>, cmp: (T, T) -> int, left: nat, right: nat)
      requires TotalPreorder(cmp) && left < SIZE && right < SIZE && left + Count(left, right) <= a.Length < SIZE
      modifies a, this
      ensures SortedPart(cmp, old(a[..]), a[..], left, Count(left, right))
      ensures cnt <= old(cnt) + Bound(Count(left, right))
      decreases Count(left, right)
    {
      hide TotalPreorder, SortedPart, Within, PartitionedAt, Bound, Count, Before, Exchanged;
      ghost var n, s0 := Count(left, right), a[..];
      if Count(left, right) <= 1 {
        ShortIsSorted(cmp, s0, left, n);
        BoundNonNegative(n);
        return;
      }
      CountSides(left, right, a.Length, left);
      WithinSelf(s0, left, right);
      var j := Partition(a, cmp, left, right, s0);
      ghost var s1 := a[..];
      Pivoted(cmp, s1, left, j, right);
      CountSides(left, right, a.Length, j);
      FirstSort(a, cmp, left, Before(j));
      ghost var s2 := a[..];
      FirstSort(a, cmp, j + 1, right);
      Assemble(cmp, s0, s1, s2, a[..], left, j, right);
      assert n - 1 - (j - left) == right - j;
      BoundSplits(n, j - left);
    }

    // The last element as the pivot.
    method LastSort(a: array<T>, cmp: (T, T) -> int, left: nat, right: nat)
      requires TotalPreorder(cmp) && left < SIZE && right < SIZE && left + Count(left, right) <= a.Length < SIZE
      modifies a, this
      ensures SortedPart(cmp, old(a[..]), a[..], left, Count(left, right))
      ensures cnt <= old(cnt) + Bound(Count(left, right))
      decreases Count(left, right)
    {
      hide TotalPreorder, SortedPart, Within, PartitionedAt, Bound, Count, Before, Exchanged;
      ghost var n, s0 := Count(left, right), a[..];
      if Count(left, right) <= 1 {
        ShortIsSorted(cmp, s0, left, n);
        BoundNonNegative(n);
        return;
      }
      CountSides(left, right, a.Length, left);
      WithinSelf(s0, left, right);
      Swap(a, left, right, left, right, s0);
      var j := Partition(a, cmp, left, right, s0);
      ghost var s1 := a[..];
      Pivoted(cmp, s1, left, j, right);
      CountSides(left, right, a.Length, j);
      LastSort(a, cmp, left, Before(j));
      ghost var s2 := a[..];
      LastSort(a, cmp, j + 1, right);
      Assemble(cmp, s0, s1, s2, a[..], left, j, right);
      assert n - 1 - (j - left) == right - j;
      BoundSplits(n, j - left);
    }

    // Any element as the pivot, whatever rand returns.
    method RandomSort(a: array<T>, cmp: (T, T) -> int, left: nat, right: nat)
      requires TotalPreorder(cmp) && left < SIZE && right < SIZE && left + Count(left, right) <= a.Length < SIZE
      modifies a, this
      ensures SortedPart(cmp, old(a[..]), a[..], left, Count(left, right))
      ensures cnt <= old(cnt) + Bound(Count(left, right))
      decreases Count(left, right)
    {
      hide TotalPreorder, SortedPart, Within, PartitionedAt, Bound, Count, Before, Exchanged;
      ghost var n, s0 := Count(left, right), a[..];
      if Count(left, right) <= 1 {
        ShortIsSorted(cmp, s0, left, n);
        BoundNonNegative(n);
        return;
      }
      CountSides(left, right, a.Length, left);
      var pi: nat :| left <= pi <= right;
      WithinSelf(s0, left, right);
      Swap(a, left, pi, left, right, s0);
      var j := Partition(a, cmp, left, right, s0);
      ghost var s1 := a[..];
      Pivoted(cmp, s1, left, j, right);
      CountSides(left, right, a.Length, j);
      RandomSort(a, cmp, left, Before(j));
      ghost var s2 := a[..];
      RandomSort(a, cmp, j + 1, right);
      Assemble(cmp, s0, s1, s2, a[..], left, j, right);
      assert n - 1 - (j - left) == right - j;
      BoundSplits(n, j - left);
    }

    // The middle of three elements as the pivot; finding it takes three more comparisons.
    method MedianSort(a: array<T>, cmp: (T, T) -> int, left: nat, right: nat)
      requires TotalPreorder(cmp) && left < SIZE && right < SIZE && left + Count(left, right) <= a.Length < SIZE
      modifies a, this
      ensures SortedPart(cmp, old(a[..]), a[..], left, Count(left, right))
      ensures cnt <= old(cnt) + Bound(Count(left, right)) + 3 * Count(left, right)
      decreases Count(left, right)
    {
      hide TotalPreorder, SortedPart, Within, PartitionedAt, Bound, Count, Before, Exchanged;
      ghost var n, s0 := Count(left, right), a[..];
      if Count(left, right) <= 1 {
        ShortIsSorted(cmp, s0, left, n);
        BoundNonNegative(n);
        return;
      }
      CountSides(left, right, a.Length, left);
      WithinSelf(s0, left, right);
      var pi := MedianOf(a, cmp, left, right, s0);
      Swap(a, left, pi, left, right, s0);
      var j := Partition(a, cmp, left, right, s0);
      ghost var s1 := a[..];
      Pivoted(cmp, s1, left, j, right);
      CountSides(left, right, a.Length, j);
      MedianSort(a, cmp, left, Before(j));
      ghost var s2 := a[..];
      MedianSort(a, cmp, j + 1, right);
      Assemble(cmp, s0, s1, s2, a[..], left, j, right);
      assert n - 1 - (j - left) == right - j;
      BoundSplits(n, j - left);
    }

    method Sort(a: array<T>, cmp: (T, T) -> int, choice: PivotChoice)
      requires TotalPreorder(cmp) && a.Length < SIZE
      modifies a, this
      ensures Ordered(cmp, a[..]) && multiset(a[..]) == multiset(old(a[..]))
      ensures choice == First || choice == Last ==> cnt <= Bound(a.Length)
    {
      hide TotalPreorder, Bound, Ordered, Count, Before, SortedPart;
      WholeCount(a.Length);
      var last := Before(a.Length);
      cnt := 0;
      match choice {
        case First => FirstSort(a, cmp, 0, last);
        case Last => LastSort(a, cmp, 0, last);
        case MedianOfThree => MedianSort(a, cmp, 0, last);
        case Random =>
          RandomSort(a, cmp, 0, last);
          WholeSorted(cmp, old(a[..]), a[..]);
          for k := 1 to 10
            invariant SortedPart(cmp, old(a[..]), a[..], 0, a.Length)
          {
            ghost var s := a[..];
            RandomSort(a, cmp, 0, last);
            SortedAgain(cmp, old(a[..]), s, a[..]);
          }
      }
      WholeSorted(cmp, old(a[..]), a[..]);
    }
  }

  // ---- One level of the recursion

  // s' is s with the n elements from left on sorted.
  ghost predicate SortedPart<T>(cmp: (T, T) -> int, s: seq<T>, s': seq<T>, left: nat, n: nat) {
    && left + n <= |s| == |s'|
    && (forall k :: 0 <= k < |s| && !(left <= k < left + n) ==> s'[k] == s[k])
    && Ordered(cmp, s'[left..left + n]) && multiset(s'[left..left + n]) == multiset(s[left..left + n])
  }

  lemma ShortIsSorted<T>(cmp: (T, T) -> int, s: seq<T>, left: nat, n: nat)
    requires left + n <= |s| && n <= 1
    ensures SortedPart(cmp, s, s, left, n)
  {
  }

  // The two indices that the recursive calls pass on.
  lemma CountSides(left: nat, right: nat, length: nat, j: nat)
    requires left < SIZE && right < SIZE && left + Count(left, right) <= length < SIZE && Count(left, right) >= 2
    ensures left < right < length && Count(left, right) == right - left + 1
    ensures left <= j <= right ==> Count(left, Before(j)) == j - left && Count(j + 1, right) == right - j
  {
  }

  // An empty array is passed as the range from 0 to the largest size_t.
  lemma WholeCount(n: nat)
    requires n < SIZE
    ensures Count(0, Before(n)) == n
  {
  }

  lemma WholeSorted<T>(cmp: (T, T) -> int, s: seq<T>, s': seq<T>)
    requires SortedPart(cmp, s, s', 0, |s|)
    ensures Ordered(cmp, s') && multiset(s') == multiset(s)
  {
    assert s'[0..0 + |s|] == s' && s[0..0 + |s|] == s;
  }

  lemma SortedAgain<T>(cmp: (T, T) -> int, s: seq<T>, s': seq<T>, s'': seq<T>)
    requires SortedPart(cmp, s, s', 0, |s|) && SortedPart(cmp, s', s'', 0, |s|)
    ensures SortedPart(cmp, s, s'', 0, |s|)
  {
  }

  lemma Assemble<T(!new)>(cmp: (T, T) -> int, s0: seq<T>, s1: seq<T>, s2: seq<T>, s3: seq<T>, left: nat, j: nat,
                          right: nat)
    requires TotalPreorder(cmp) && Within(s0, s1, left, right) && PartitionedAt(cmp, s1, left, j, right)
    requires SortedPart(cmp, s1, s2, left, j - left) && SortedPart(cmp, s2, s3, j + 1, right - j)
    ensures SortedPart(cmp, s0, s3, left, right - left + 1)
  {
    hide TotalPreorder, Ordered, AtMost, AtLeast, Within, PartitionedAt, SortedPart;
    SidesDone(cmp, s1, s2, s3, left, j, right);
    var l, p, r := s1[left..j], s1[j], s1[j + 1..right + 1];
    var l', r' := s3[left..j], s3[j + 1..right + 1];
    SidesSorted(cmp, l, p, r, l', r');
    WholeDone(cmp, s0, s1, s3, l + [p] + r, l' + [p] + r', left, j, right);
  }

  lemma WholeDone<T>(cmp: (T, T) -> int, s0: seq<T>, s1: seq<T>, s3: seq<T>, t: seq<T>, t': seq<T>, left: nat,
                     j: nat, right: nat)
    requires Within(s0, s1, left, right) && left <= j <= right < |s1| == |s3|
    requires t == s1[left..j] + [s1[j]] + s1[j + 1..right + 1] && t' == s3[left..j] + [s3[j]] + s3[j + 1..right + 1]
    requires Ordered(cmp, t') && multiset(t') == multiset(t)
    requires forall k :: 0 <= k < |s1| && !(left <= k <= right) ==> s3[k] == s1[k]
    ensures SortedPart(cmp, s0, s3, left, right - left + 1)
  {
    hide Ordered;
    Range(s1, s1[left..j], s1[j], s1[j + 1..right + 1], left, j, right);
    Range(s3, s3[left..j], s3[j], s3[j + 1..right + 1], left, j, right);
  }

  lemma SidesDone<T>(cmp: (T, T) -> int, s1: seq<T>, s2: seq<T>, s3: seq<T>, left: nat, j: nat, right: nat)
    requires PartitionedAt(cmp, s1, left, j, right)
    requires SortedPart(cmp, s1, s2, left, j - left) && SortedPart(cmp, s2, s3, j + 1, right - j)
    ensures left <= j <= right < |s1| == |s3| && s3[j] == s1[j]
    ensures AtMost(cmp, s1[left..j], s1[j]) && AtLeast(cmp, s1[j + 1..right + 1], s1[j])
    ensures Ordered(cmp, s3[left..j]) && multiset(s3[left..j]) == multiset(s1[left..j])
    ensures Ordered(cmp, s3[j + 1..right + 1]) && multiset(s3[j + 1..right + 1]) == multiset(s1[j + 1..right + 1])
    ensures forall k :: 0 <= k < |s1| && !(left <= k <= right) ==> s3[k] == s1[k]
  {
    hide Ordered, AtMost, AtLeast;
    assert s2[j + 1..right + 1] == s1[j + 1..right + 1] && s3[left..j] == s2[left..j];
  }

  lemma Range<T>(s: seq<T>, l: seq<T>, p: T, r: seq<T>, left: nat, j: nat, right: nat)
    requires left <= j <= right < |s| && l == s[left..j] && p == s[j] && r == s[j + 1..right + 1]
    ensures s[left..right + 1] == l + [p] + r
  {
  }

  // ---- Steps of the partition loop, on sequences

  // s' is s with the elements from left to right rearranged.
  ghost predicate Within<T>(s: seq<T>, s': seq<T>, left: nat, right: nat) {
    && left <= right < |s| == |s'|
    && (forall n :: 0 <= n < |s| && !(left <= n <= right) ==> s'[n] == s[n])
    && multiset(s'[left..right + 1]) == multiset(s[left..right + 1])
  }

  lemma WithinSelf<T>(s: seq<T>, left: nat, right: nat)
    requires left <= right < |s|
    ensures Within(s, s, left, right)
  {
  }

  lemma WithinTransitive<T>(s: seq<T>, s': seq<T>, s'': seq<T>, left: nat, right: nat)
    requires Within(s, s', left, right) && Within(s', s'', left, right)
    ensures Within(s, s'', left, right)
  {
  }

  // Up to i nothing is above the pivot, from j on nothing below it.
  ghost predicate Parted<T>(cmp: (T, T) -> int, s: seq<T>, left: nat, i: nat, j: nat, right: nat) {
    && left <= i <= right < |s| && left < j <= right + 1 && (j == right + 1 ==> i == left)
    && (forall k :: left < k <= i ==> cmp(s[left], s[k]) >= 0)
    && (forall k :: j <= k <= right ==> cmp(s[left], s[k]) <= 0)
  }

  lemma PartedStart<T>(cmp: (T, T) -> int, s: seq<T>, left: nat, right: nat)
    requires left < right < |s|
    ensures Parted(cmp, s, left, left, right + 1, right)
  {
  }

  lemma ScanBounds<T(!new)>(cmp: (T, T) -> int, s: seq<T>, left: nat, i: nat, j: nat, right: nat)
    requires TotalPreorder(cmp) && Parted(cmp, s, left, i, j, right) && i < j && left < right
    ensures i < right && cmp(s[left], s[left]) == 0
  {
    Reflexive(cmp, s[left]);
  }

  // ScanUp does not pass j.
  lemma ScannedUp<T>(cmp: (T, T) -> int, s: seq<T>, left: nat, from: nat, i: nat, j: nat, right: nat)
    requires Parted(cmp, s, left, from, j, right) && from < j && from < i <= right && cmp(s[left], s[left]) == 0
    requires forall k :: from < k < i ==> cmp(s[left], s[k]) > 0
    ensures i <= j && cmp(s[left], s[i - 1]) >= 0
    ensures j <= right && i == j ==> cmp(s[left], s[i]) <= 0
    ensures forall k :: left < k < i ==> cmp(s[left], s[k]) >= 0
  {
    assert j > right || cmp(s[left], s[j]) <= 0;
  }

  // Both scans have stopped.
  ghost predicate Scanned<T>(cmp: (T, T) -> int, s: seq<T>, left: nat, i: nat, j: nat, right: nat) {
    && left < i <= right < |s| && i - 1 <= j <= right
    && (forall k :: left < k < i ==> cmp(s[left], s[k]) >= 0)
    && (forall k :: j < k <= right ==> cmp(s[left], s[k]) <= 0)
    && cmp(s[left], s[j]) >= 0 && (i < right ==> cmp(s[left], s[i]) <= 0)
  }

  lemma ScannedDown<T>(cmp: (T, T) -> int, s: seq<T>, left: nat, from: nat, i: nat, j0: nat, j: nat, right: nat)
    requires Parted(cmp, s, left, from, j0, right) && left <= from < i <= right && i - 1 <= j < j0
    requires forall k :: left < k < i ==> cmp(s[left], s[k]) >= 0
    requires i < right ==> cmp(s[left], s[i]) <= 0
    requires cmp(s[left], s[j]) >= 0 && forall k :: j < k < j0 ==> cmp(s[left], s[k]) < 0
    ensures Scanned(cmp, s, left, i, j, right)
  {
  }

  lemma SwapParted<T>(cmp: (T, T) -> int, s: seq<T>, left: nat, i: nat, j: nat, right: nat)
    requires Scanned(cmp, s, left, i, j, right) && i < j
    ensures Parted(cmp, s[i := s[j]][j := s[i]], left, i, j, right)
  {
  }

  // Exchanging the pivot with the last element that is not above it.
  lemma PivotIntoPlace<T(!new)>(cmp: (T, T) -> int, s: seq<T>, left: nat, i: nat, j: nat, right: nat)
    requires TotalPreorder(cmp) && Scanned(cmp, s, left, i, j, right) && j <= i && left <= j
    ensures PartitionedAt(cmp, s[left := s[j]][j := s[left]], left, j, right)
  {
    var r := s[left := s[j]][j := s[left]];
    forall k | left <= k < j
      ensures cmp(r[k], s[left]) <= 0
    {
      Flip(cmp, s[left], r[k]);
    }
    hide TotalPreorder;
  }

  lemma BoundNonNegative(n: nat)
    ensures Bound(n) >= 0
  {
    Half(n);
  }

  lemma Pivoted<T>(cmp: (T, T) -> int, s: seq<T>, left: nat, j: nat, right: nat)
    requires PartitionedAt(cmp, s, left, j, right)
    ensures left <= j <= right < |s|
  {
  }

  lemma Flip<T(!new)>(cmp: (T, T) -> int, x: T, y: T)
    requires TotalPreorder(cmp)
    ensures cmp(x, y) > 0 <==> cmp(y, x) < 0
    ensures cmp(x, y) >= 0 ==> cmp(y, x) <= 0
  {
    assert cmp(y, x) > 0 <==> cmp(x, y) < 0;
  }

  // Any three elements compare consistently.
  lemma ThreeSorted<T(!new)>(cmp: (T, T) -> int, l: T, m: T, r: T)
    requires TotalPreorder(cmp)
    ensures forall x, y, z :: x in {l, m, r} && y in {l, m, r} && z in {l, m, r} ==>
      (cmp(x, y) > 0 <==> cmp(y, x) < 0) && (cmp(x, y) <= 0 && cmp(y, z) <= 0 ==> cmp(x, z) <= 0)
  {
  }

  lemma Reflexive<T(!new)>(cmp: (T, T) -> int, x: T)
    requires TotalPreorder(cmp)
    ensures cmp(x, x) == 0
  {
    assert cmp(x, x) > 0 <==> cmp(x, x) < 0;
  }

  lemma SwapInRange<T>(s: seq<T>, i: nat, k: nat, left: nat, right: nat)
    requires left <= i <= right < |s| && left <= k <= right
    ensures var r := s[i := s[k]][k := s[i]];
      Within(s, r, left, right)
  {
    var t := s[left..right + 1];
    SwapKeepsElements(t, i - left, k - left);
    assert s[i := s[k]][k := s[i]][left..right + 1] == t[i - left := t[k - left]][k - left := t[i - left]];
  }
}
