// Moving block boundaries: merging, splitting, changing a tag, and growing the heap.
module MallocCuts {
  import opened MallocHeap
  import opened MallocLists
  import opened MallocBlocks

  // ---- A new division of the blocks from b up to n

  // From b up to n there is to be one block (mid == n), or two that meet at mid.
  ghost predicate CanCut(g: Shape, b: nat, mid: nat, n: nat) {
    && b in g.next && b != PROLOGUE
    && Boundary(g, n)
    && mid % 2 == 0 && b + 4 <= mid
    && (mid == n || mid + 4 <= n)
  }

  function CutNext(next: map<nat, nat>, b: nat, mid: nat, n: nat): map<nat, nat> {
    var rest := map x | x in next && !(b <= x < n) :: next[x];
    if mid < n then rest[b := mid][mid := n] else rest[b := mid]
  }

  function CutFree(free: set<nat>, b: nat, mid: nat, n: nat, first: bool, second: bool): set<nat> {
    (set x | x in free && !(b <= x < n)) + (if first then {b} else {}) + (if mid < n && second then {mid} else {})
  }

  // `first` and `second`: whether the new blocks are free.
  function Recut(g: Shape, b: nat, mid: nat, n: nat, first: bool, second: bool): Shape {
    g.(next := CutNext(g.next, b, mid, n), free := CutFree(g.free, b, mid, n, first, second))
  }

  function RecutMem(m: Mem, b: nat, mid: nat, n: nat, first: bool, second: bool): (r: Mem)
    requires 1 <= b && b + 4 <= mid && (mid == n || mid + 4 <= n) && n <= |m|
    ensures |r| == |m|
  {
    var t := TagMem(m, b, mid, !first);
    if mid < n then TagMem(t, mid, n, !second) else t
  }

  lemma CutBounds(g: Shape, b: nat, mid: nat, n: nat)
    requires Tiling(g) && CanCut(g, b, mid, n)
    ensures 1 <= b && b % 2 == 0 && n % 2 == 0 && b + 4 <= mid <= n <= g.end
    ensures forall x :: x in g.next && x < b ==> g.next[x] <= b
    ensures forall x :: x in g.next && x < n ==> g.next[x] <= n
    ensures b > PROLOGUE
  {
    assert Sized(b, g.next[b], g.end);
    if n in g.next {
      assert Sized(n, g.next[n], g.end);
    }
  }

  // What becomes of a block that starts outside the part that is cut.
  lemma Outside(g: Shape, b: nat, mid: nat, n: nat, x: nat)
    requires Tiling(g) && CanCut(g, b, mid, n) && x in g.next && !(b <= x < n)
    ensures var next := CutNext(g.next, b, mid, n);
      x in next && next[x] == g.next[x] && Sized(x, next[x], g.end) && (next[x] <= b || n <= x)
      && (next[x] in next || next[x] == g.end)
  {
    CutBounds(g, b, mid, n);
    assert Sized(x, g.next[x], g.end) && HasNext(g, x);
  }

  lemma CutOrder(g: Shape, b: nat, mid: nat, n: nat, x: nat, y: nat)
    requires Tiling(g) && CanCut(g, b, mid, n)
    requires var next := CutNext(g.next, b, mid, n); x in next && y in next && x < y
    ensures CutNext(g.next, b, mid, n)[x] <= y
  {
    CutBounds(g, b, mid, n);
    assert x in g.next && y in g.next && x < y ==> g.next[x] <= y;
    if !(b <= x < n) {
      Outside(g, b, mid, n, x);
    }
    if !(b <= y < n) {
      Outside(g, b, mid, n, y);
    }
    hide Tiling, Boundary;
  }

  lemma CutSized(g: Shape, b: nat, mid: nat, n: nat, x: nat)
    requires Tiling(g) && CanCut(g, b, mid, n)
    requires x in CutNext(g.next, b, mid, n)
    ensures var next := CutNext(g.next, b, mid, n);
      Sized(x, next[x], g.end) && (next[x] in next || next[x] == g.end)
  {
    CutBounds(g, b, mid, n);
    if !(b <= x < n) {
      Outside(g, b, mid, n, x);
    }
    hide Tiling;
  }

  lemma RecutTiling(g: Shape, b: nat, mid: nat, n: nat, first: bool, second: bool)
    requires Tiling(g) && CanCut(g, b, mid, n)
    ensures Tiling(Recut(g, b, mid, n, first, second))
  {
    CutBounds(g, b, mid, n);
    var g' := Recut(g, b, mid, n, first, second);
    Outside(g, b, mid, n, PROLOGUE);
    FreeAfterCut(g, b, mid, n, first, second);
    assert g.next[PROLOGUE] == FIRST && g.end % 2 == 0;
    hide Tiling, CanCut, CutNext, CutFree, Sized, HasNext, HasPrev;
    forall x | x in g'.next
      ensures Sized(x, g'.next[x], g'.end) && HasNext(g', x)
    {
      CutSized(g, b, mid, n, x);
    }
    forall x, y | x in g'.next && y in g'.next && x < y
      ensures g'.next[x] <= y
    {
      CutOrder(g, b, mid, n, x, y);
    }
    forall c | (c in g'.next || c == g'.end) && c != PROLOGUE
      ensures HasPrev(g', c)
    {
      CutPrev(g, b, mid, n, first, second, c);
    }
    TilingFrom(g');
  }

  lemma FreeAfterCut(g: Shape, b: nat, mid: nat, n: nat, first: bool, second: bool)
    requires Tiling(g) && CanCut(g, b, mid, n)
    ensures forall x :: x in CutFree(g.free, b, mid, n, first, second) ==>
      x in CutNext(g.next, b, mid, n) && x != PROLOGUE
  {
    CutBounds(g, b, mid, n);
  }

  lemma TilingFrom(g: Shape)
    requires PROLOGUE in g.next && g.next[PROLOGUE] == FIRST && g.end % 2 == 0
    requires forall x :: x in g.next ==> Sized(x, g.next[x], g.end) && HasNext(g, x)
    requires forall x, y :: x in g.next && y in g.next && x < y ==> g.next[x] <= y
    requires forall c {:trigger HasPrev(g, c)} :: (c in g.next || c == g.end) && c != PROLOGUE ==> HasPrev(g, c)
    requires forall x :: x in g.free ==> x in g.next && x != PROLOGUE
    ensures Tiling(g)
  {
  }

  lemma CutPrev(g: Shape, b: nat, mid: nat, n: nat, first: bool, second: bool, c: nat)
    requires Tiling(g) && CanCut(g, b, mid, n)
    requires c in CutNext(g.next, b, mid, n) || c == g.end
    requires c != PROLOGUE
    ensures HasPrev(Recut(g, b, mid, n, first, second), c)
  {
    CutBounds(g, b, mid, n);
    var g' := Recut(g, b, mid, n, first, second);
    if c == mid {
      assert g'.next[b] == c;
    } else if c == n {
      assert g'.next[mid] == c;
    } else {
      assert HasPrev(g, c);
      var p :| p in g.next && g.next[p] == c;
      assert Sized(p, c, g.end);
      assert g'.next[p] == c;
    }
  }

  ghost predicate TagsOf(m: Mem, b: nat, n: nat, alloc: bool) {
    1 <= b && b + 4 <= n <= |m| && m[b - 1] == Pack(4 * (n - b), alloc) && m[n - 2] == Pack(4 * (n - b), alloc)
  }

  lemma TaggedFrom(m: Mem, g: Shape)
    requires Tiling(g) && 1 <= g.end <= |m| && m[g.end - 1] == Pack(0, true)
    requires forall x :: x in g.next ==> TagsOf(m, x, g.next[x], x !in g.free)
    ensures Tagged(m, g)
  {
  }

  lemma RecutTagged(m: Mem, g: Shape, b: nat, mid: nat, n: nat, first: bool, second: bool)
    requires Tiling(g) && Tagged(m, g) && CanCut(g, b, mid, n)
    requires 1 <= b && b + 4 <= mid && (mid == n || mid + 4 <= n) && n <= |m|
    requires Tiling(Recut(g, b, mid, n, first, second))
    ensures Tagged(RecutMem(m, b, mid, n, first, second), Recut(g, b, mid, n, first, second))
  {
    CutBounds(g, b, mid, n);
    var m', g' := RecutMem(m, b, mid, n, first, second), Recut(g, b, mid, n, first, second);
    assert m'[g.end - 1] == m[g.end - 1];
    hide Tiling, Pack, Boundary, TagsOf, CutNext, CutFree, RecutMem;
    forall x | x in g'.next
      ensures TagsOf(m', x, g'.next[x], x !in g'.free)
    {
      if b <= x < n {
        NewTags(m, g, b, mid, n, first, second, x);
      } else {
        OldTags(m, g, b, mid, n, first, second, x);
      }
    }
    TaggedFrom(m', g');
  }

  lemma NewTags(m: Mem, g: Shape, b: nat, mid: nat, n: nat, first: bool, second: bool, x: nat)
    requires 1 <= b && b + 4 <= mid && (mid == n || mid + 4 <= n) && n <= |m|
    requires b <= x < n && x in CutNext(g.next, b, mid, n)
    ensures var g' := Recut(g, b, mid, n, first, second);
      TagsOf(RecutMem(m, b, mid, n, first, second), x, g'.next[x], x !in g'.free)
  {
    hide Pack;
  }

  lemma OldTags(m: Mem, g: Shape, b: nat, mid: nat, n: nat, first: bool, second: bool, x: nat)
    requires Tiling(g) && Tagged(m, g) && CanCut(g, b, mid, n)
    requires 1 <= b && b + 4 <= mid && (mid == n || mid + 4 <= n) && n <= |m|
    requires x in CutNext(g.next, b, mid, n) && !(b <= x < n)
    ensures var g' := Recut(g, b, mid, n, first, second);
      TagsOf(RecutMem(m, b, mid, n, first, second), x, g'.next[x], x !in g'.free)
  {
    TagOutside(m, g, b, mid, n, first, second, x);
    assert x in g.next && (x in g.free <==> x in CutFree(g.free, b, mid, n, first, second));
    hide RecutMem, Tiling;
  }

  lemma TagOutside(m: Mem, g: Shape, b: nat, mid: nat, n: nat, first: bool, second: bool, x: nat)
    requires Tiling(g) && Tagged(m, g) && CanCut(g, b, mid, n)
    requires 1 <= b && b + 4 <= mid && (mid == n || mid + 4 <= n) && n <= |m|
    requires x in g.next && !(b <= x < n)
    ensures var m' := RecutMem(m, b, mid, n, first, second);
      && 1 <= x && x + 4 <= g.next[x] <= |m|
      && m'[x - 1] == m[x - 1] && m'[g.next[x] - 2] == m[g.next[x] - 2]
  {
    Outside(g, b, mid, n, x);
    hide Tiling, CutNext, Boundary, Pack;
  }

  // Outside the new tags nothing is written; those at mid fall into block w.
  lemma RecutWrites(m: Mem, g: Shape, b: nat, mid: nat, n: nat, first: bool, second: bool, w: nat)
    requires 1 <= b && b + 4 <= mid && (mid == n || mid + 4 <= n) && n <= |m|
    requires b in g.next && Boundary(g, n)
    requires mid < n ==> w in g.next && w + 2 <= mid <= g.next[w]
    ensures WritesApart(m, RecutMem(m, b, mid, n, first, second), g, w)
  {
    hide Pack;
  }

  lemma RecutSorted(g: Shape, b: nat, mid: nat, n: nat, first: bool, second: bool, pending: set<nat>)
    requires Tiling(g) && Sorted(g, pending) && CanCut(g, b, mid, n)
    requires forall x :: x in g.free && b <= x < n ==> x in pending
    requires Tiling(Recut(g, b, mid, n, first, second))
    ensures Sorted(Recut(g, b, mid, n, first, second), CutFree(pending, b, mid, n, first, second))
  {
    CutBounds(g, b, mid, n);
    var g', pending' := Recut(g, b, mid, n, first, second), CutFree(pending, b, mid, n, first, second);
    hide Tiling, Sorted, CutFree, CutNext, CanCut;
    ListedAfterCut(g.next, g.free, b, mid, n, first, second, pending);
    SortedCarries(g, pending, g', pending');
  }

  // Free blocks that are in a list are outside the part that is cut.
  lemma ListedAfterCut(next: map<nat, nat>, free: set<nat>, b: nat, mid: nat, n: nat, first: bool, second: bool,
                       pending: set<nat>)
    requires b < mid <= n && forall x :: x in free ==> x in next
    requires forall x :: x in free && b <= x < n ==> x in pending
    ensures forall x :: x in CutFree(free, b, mid, n, first, second) && x !in CutFree(pending, b, mid, n, first, second)
                        <==> x in free && x !in pending
    ensures forall x :: x in free && x !in pending ==>
      x in CutNext(next, b, mid, n) && CutNext(next, b, mid, n)[x] == next[x]
  {
  }

  lemma SortedCarries(g: Shape, pending: set<nat>, g': Shape, pending': set<nat>)
    requires Tiling(g) && Sorted(g, pending) && Tiling(g') && g'.lists == g.lists
    requires forall x :: x in g'.free && x !in pending' <==> x in g.free && x !in pending
    requires forall x :: x in g.free && x !in pending ==> g'.next[x] == g.next[x]
    ensures Sorted(g', pending')
  {
    forall c, x | 0 <= c < LISTSIZE && x in g'.lists[c]
      ensures Belongs(g', pending', c, x)
    {
      assert Belongs(g, pending, c, x);
    }
    forall x | x in g'.free && x !in pending'
      ensures x in g'.lists[ClassOf(g', x)]
    {
      assert x in g.lists[ClassOf(g, x)];
    }
  }

  lemma RecutStep(m: Mem, g: Shape, b: nat, mid: nat, n: nat, first: bool, second: bool, pending: set<nat>, w: nat)
    requires Consistent(m, g, pending) && CanCut(g, b, mid, n)
    requires forall x :: x in g.free && b <= x < n ==> x in pending
    requires w in g.next && b <= w < n && (mid < n ==> w + 2 <= mid <= g.next[w])
    ensures 1 <= b && b + 4 <= mid && (mid == n || mid + 4 <= n) && n <= |m|
    ensures Consistent(RecutMem(m, b, mid, n, first, second), Recut(g, b, mid, n, first, second),
                       CutFree(pending, b, mid, n, first, second))
    ensures WritesApart(m, RecutMem(m, b, mid, n, first, second), g, w)
  {
    CutBounds(g, b, mid, n);
    var m', g' := RecutMem(m, b, mid, n, first, second), Recut(g, b, mid, n, first, second);
    RecutTiling(g, b, mid, n, first, second);
    RecutTagged(m, g, b, mid, n, first, second);
    RecutSorted(g, b, mid, n, first, second, pending);
    RecutWrites(m, g, b, mid, n, first, second, w);
    hide Tiling, Tagged, Sorted, CutFree, CutNext, CanCut, RecutMem;
    ApartKeepsLinks(m, m', g, w, pending);
  }

  function LiveBlocks(g: Shape): set<nat> {
    set x | x in g.next && Live(g, x)
  }

  // The live blocks outside the part that is cut.
  function LiveOutside(g: Shape, b: nat, n: nat): set<nat> {
    set x | x in g.next && Live(g, x) && !(b <= x < n)
  }

  lemma RecutKeeps(m: Mem, g: Shape, b: nat, mid: nat, n: nat, first: bool, second: bool, w: nat)
    requires Tiling(g) && CanCut(g, b, mid, n) && b <= w < n <= |m|
    requires b + 4 <= mid && 1 <= b && (mid == n || mid + 4 <= n)
    requires WritesApart(m, RecutMem(m, b, mid, n, first, second), g, w)
    ensures Keeps(m, g, RecutMem(m, b, mid, n, first, second), Recut(g, b, mid, n, first, second), LiveOutside(g, b, n))
  {
    CutBounds(g, b, mid, n);
    var m', g', k := RecutMem(m, b, mid, n, first, second), Recut(g, b, mid, n, first, second), LiveOutside(g, b, n);
    forall x | x in k
      ensures x != w && Live(g, x) && Live(g', x) && g'.next[x] == g.next[x]
    {
    }
    hide Tiling, CanCut, CutNext, CutFree, LiveOutside;
    ApartKeepsPayload(m, m', g, g', w, k);
  }

  // ---- Growing the heap

  function Grown(g: Shape, n: nat): Shape {
    g.(next := g.next[g.end := n], free := g.free + {g.end}, end := n)
  }

  // The new block takes over the word of the old epilogue as its header.
  function GrowMem(m: Mem, end: nat, n: nat): (r: Mem)
    requires 1 <= end && end + 4 <= n <= |m|
    ensures |r| == |m|
  {
    TagMem(m, end, n, false)[n - 1 := Pack(0, true)]
  }

  lemma GrowTiling(g: Shape, n: nat)
    requires Tiling(g) && g.end + 4 <= n && n % 2 == 0
    ensures Tiling(Grown(g, n)) && g.end !in g.next && g.end >= FIRST
  {
    var g' := Grown(g, n);
    assert Sized(PROLOGUE, g.next[PROLOGUE], g.end);
    assert forall x :: x in g.next ==> Sized(x, g.next[x], g.end);
    forall x | x in g'.next
      ensures Sized(x, g'.next[x], g'.end) && HasNext(g', x)
    {
      assert HasNext(g, x);
    }
    forall c | (c in g'.next || c == g'.end) && c != PROLOGUE
      ensures HasPrev(g', c)
    {
      if c == n {
        assert g'.next[g.end] == c;
      } else {
        assert HasPrev(g, c);
        var p :| p in g.next && g.next[p] == c;
        assert g'.next[p] == c;
      }
    }
    TilingFrom(g');
  }

  lemma GrowTagged(m: Mem, g: Shape, n: nat)
    requires Tiling(g) && Tagged(m, g) && Tiling(Grown(g, n))
    requires FIRST <= g.end && g.end + 4 <= n <= |m| && g.end !in g.next
    ensures Tagged(GrowMem(m, g.end, n), Grown(g, n))
  {
    var m', g' := GrowMem(m, g.end, n), Grown(g, n);
    forall x | x in g'.next
      ensures TagsOf(m', x, g'.next[x], x !in g'.free)
    {
      if x in g.next {
        assert Sized(x, g.next[x], g.end);
      }
      hide Pack, Tiling;
    }
    hide Tiling, TagsOf;
    TaggedFrom(m', g');
  }

  lemma GrowWrites(m: Mem, g: Shape, n: nat)
    requires FIRST <= g.end && g.end + 4 <= n <= |m|
    ensures WritesApart(m, GrowMem(m, g.end, n), g, g.end)
  {
    hide Pack;
  }

  lemma GrowStep(m: Mem, g: Shape, n: nat)
    requires Consistent(m, g, {}) && g.end + 4 <= n <= |m| && n % 2 == 0
    ensures g.end >= FIRST && g.end !in g.next
    ensures Consistent(GrowMem(m, g.end, n), Grown(g, n), {g.end})
    ensures Keeps(m, g, GrowMem(m, g.end, n), Grown(g, n), LiveBlocks(g))
  {
    GrowTiling(g, n);
    GrowTagged(m, g, n);
    GrowWrites(m, g, n);
    var m', g' := GrowMem(m, g.end, n), Grown(g, n);
    GrowSorted(g, n);
    assert g.end !in g.free;
    hide Tiling, Tagged, Sorted, GrowMem, WritesApart;
    ApartKeepsLinks(m, m', g, g.end, {});
    hide AllLinked;
    ApartKeepsPayload(m, m', g, g', g.end, LiveBlocks(g));
  }

  lemma GrowSorted(g: Shape, n: nat)
    requires Tiling(g) && Sorted(g, {}) && Tiling(Grown(g, n)) && g.end !in g.next
    ensures Sorted(Grown(g, n), {g.end})
  {
    assert g.end !in g.free;
    hide Tiling, Sorted;
    SortedCarries(g, {}, Grown(g, n), {g.end});
  }
}
