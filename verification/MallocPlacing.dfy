// Taking a free block into use, giving one back, and growing the heap.
module MallocPlacing {
  import opened MallocHeap
  import opened MallocLists
  import opened MallocBlocks
  import opened MallocCuts
  import opened MallocSteps

  lemma JoinLive(g: Shape, bp: nat, g': Shape)
    requires Tiling(g) && bp in g.free && HasPrev(g, bp)
    requires var lo, hi := JoinStart(g, bp), JoinEnd(g, bp);
      g'.next == CutNext(g.next, lo, hi, hi) && g'.free == CutFree(g.free, lo, hi, hi, true, false)
    ensures LiveBlocks(g') == LiveBlocks(g)
    ensures var lo, hi := JoinStart(g, bp), JoinEnd(g, bp); lo in g'.free && g'.next[lo] == hi
    ensures JoinStart(g, bp) <= bp && g.next[bp] <= JoinEnd(g, bp)
  {
    JoinPart(g, bp);
    assert HasNext(g, bp);
    if g.next[bp] in g.free {
      assert Sized(g.next[bp], g.next[g.next[bp]], g.end);
    }
  }

  // Every block starts where it is cut when only b starts from b up to n.
  lemma OnlyItself(g: Shape, b: nat)
    requires Tiling(g) && b in g.next
    ensures b + 4 <= g.next[b] && (g.next[b] - b) % 2 == 0 && b >= 1 && g.next[b] <= g.end
    ensures forall x :: x in g.next && b <= x < g.next[b] ==> x == b
    ensures b != PROLOGUE ==> CanCut(g, b, g.next[b], g.next[b])
  {
    assert Sized(b, g.next[b], g.end) && HasNext(g, b);
  }

  lemma NewTag(g: Shape, b: nat, free: bool)
    requires b in g.next && b + 4 <= g.next[b]
    requires forall x :: x in g.next && b <= x < g.next[b] ==> x == b
    requires forall x :: x in g.free ==> x in g.next
    ensures var n := g.next[b];
      Recut(g, b, n, n, free, false) == g.(free := if free then g.free + {b} else g.free - {b})
  {
    var n := g.next[b];
    assert CutNext(g.next, b, n, n) == g.next;
    assert CutFree(g.free, b, n, n, free, false) == if free then g.free + {b} else g.free - {b};
  }

  lemma OthersOutside(g: Shape, b: nat)
    requires b in g.next && b + 4 <= g.next[b]
    requires forall x :: x in g.next && b <= x < g.next[b] ==> x == b
    ensures LiveOutside(g, b, g.next[b]) == LiveBlocks(g) - {b}
  {
  }

  // ---- mm_free

  lemma ReleaseShape(g: Shape, b: nat, g': Shape)
    requires Tiling(g) && Coalesced(g) && Live(g, b) && g' == g.(free := g.free + {b}) && Tiling(g')
    ensures CoalescedBut(g', b) && LiveBlocks(g') == LiveBlocks(g) - {b}
  {
  }

  // Marking a live block free leaves it the only one that may have free neighbours.
  lemma ReleaseStep(m: Mem, g: Shape, b: nat)
    requires Consistent(m, g, {}) && Coalesced(g) && Live(g, b)
    ensures var n := g.next[b];
      && 1 <= b && b + 4 <= n <= |m| && (n - b) % 2 == 0
      && var m', g' := TagMem(m, b, n, false), g.(free := g.free + {b});
         && Consistent(m', g', {b}) && CoalescedBut(g', b)
         && Keeps(m, g, m', g', LiveBlocks(g) - {b}) && LiveBlocks(g') == LiveBlocks(g) - {b}
  {
    hide Tiling, Tagged, Sorted, AllLinked, Coalesced, CanCut, Recut, CutFree, CutNext, LiveBlocks, LiveOutside,
      Keeps, TagMem, WritesApart;
    var n := g.next[b];
    OnlyItself(g, b);
    FreeFacts(g, {});
    NewTag(g, b, true);
    OthersOutside(g, b);
    PendingCut({}, b, n, n, true, false);
    RecutStep(m, g, b, n, n, true, false, {}, b);
    RecutKeeps(m, g, b, n, n, true, false, b);
    ReleaseShape(g, b, g.(free := g.free + {b}));
  }

  lemma PendingCut(pending: set<nat>, b: nat, mid: nat, n: nat, first: bool, second: bool)
    requires pending <= {b} && b < mid <= n
    ensures mid == n ==> CutFree(pending, b, mid, n, first, second) == if first then {b} else {}
    ensures mid < n && !first && second ==> CutFree(pending, b, mid, n, first, second) == {mid}
  {
  }

  // ---- place

  lemma SplitShape(g: Shape, b: nat, mid: nat, g': Shape)
    requires Tiling(g) && Coalesced(g) && b in g.free && b + 4 <= mid && mid + 4 <= g.next[b]
    requires g' == Recut(g, b, mid, g.next[b], false, true) && Tiling(g')
    ensures Coalesced(g') && b in g'.next && g'.next[b] == mid && Live(g', b) && mid in g'.free
    ensures LiveBlocks(g') == LiveBlocks(g) + {b}
  {
    OnlyItself(g, b);
    forall x | x in g'.free
      ensures g'.next[x] !in g'.free
    {
      assert x != mid ==> x in g.free && g.next[x] !in g.free;
      if x != mid {
        assert HasNext(g, x);
      }
    }
  }

  lemma SplitCut(g: Shape, b: nat, mid: nat)
    requires Tiling(g) && b in g.free && b + 4 <= mid && mid % 2 == 0 && mid + 4 <= g.next[b]
    ensures CanCut(g, b, mid, g.next[b]) && (mid - b) % 2 == 0 && (g.next[b] - mid) % 2 == 0
  {
    assert Sized(b, g.next[b], g.end) && HasNext(g, b);
  }

  // Part of a free block, which has left its list, goes into use.
  lemma SplitStep(m: Mem, g: Shape, b: nat, mid: nat)
    requires Consistent(m, g, {b}) && Coalesced(g) && b in g.free
    requires b + 4 <= mid && mid % 2 == 0 && mid + 4 <= g.next[b]
    ensures var n := g.next[b];
      && 1 <= b && n <= |m| && (mid - b) % 2 == 0 && (n - mid) % 2 == 0
      && var m', g' := RecutMem(m, b, mid, n, false, true), Recut(g, b, mid, n, false, true);
         && mid in g'.free && Consistent(m', g', {mid}) && Coalesced(g')
         && b in g'.next && g'.next[b] == mid && Live(g', b)
         && Keeps(m, g, m', g', LiveBlocks(g)) && LiveBlocks(g') == LiveBlocks(g) + {b}
  {
    hide Tiling, Tagged, Sorted, AllLinked, Coalesced, CanCut, CutFree, CutNext, LiveBlocks, LiveOutside, Keeps, TagMem,
      RecutMem, WritesApart;
    FreeFacts(g, {b});
    var n := g.next[b];
    OnlyItself(g, b);
    SplitCut(g, b, mid);
    OthersOutside(g, b);
    FreeIsNotLive(g, b);
    PendingCut({b}, b, mid, n, false, true);
    RecutStep(m, g, b, mid, n, false, true, {b}, b);
    RecutKeeps(m, g, b, mid, n, false, true, b);
    SplitShape(g, b, mid, Recut(g, b, mid, n, false, true));
  }

  lemma FreeIsNotLive(g: Shape, b: nat)
    requires b in g.free
    ensures LiveBlocks(g) - {b} == LiveBlocks(g) && b !in LiveBlocks(g)
  {
  }

  lemma TakeShape(g: Shape, b: nat, g': Shape)
    requires Tiling(g) && Coalesced(g) && b in g.free && g' == g.(free := g.free - {b}) && Tiling(g')
    ensures Coalesced(g') && Live(g', b) && LiveBlocks(g') == LiveBlocks(g) + {b}
  {
  }

  lemma TakeStep(m: Mem, g: Shape, b: nat)
    requires Consistent(m, g, {b}) && Coalesced(g) && b in g.free
    ensures var n := g.next[b];
      && 1 <= b && b + 4 <= n <= |m| && (n - b) % 2 == 0
      && var m', g' := TagMem(m, b, n, true), g.(free := g.free - {b});
         && Consistent(m', g', {}) && Coalesced(g') && Live(g', b)
         && Keeps(m, g, m', g', LiveBlocks(g)) && LiveBlocks(g') == LiveBlocks(g) + {b}
  {
    hide Tiling, Tagged, Sorted, AllLinked, Coalesced, CanCut, Recut, CutFree, CutNext, LiveBlocks, LiveOutside,
      Keeps, TagMem, WritesApart;
    FreeFacts(g, {b});
    var n := g.next[b];
    OnlyItself(g, b);
    NewTag(g, b, false);
    OthersOutside(g, b);
    FreeIsNotLive(g, b);
    PendingCut({b}, b, n, n, false, false);
    RecutStep(m, g, b, n, n, false, false, {b}, b);
    RecutKeeps(m, g, b, n, n, false, false, b);
    TakeShape(g, b, g.(free := g.free - {b}));
  }

  // From g to g', bp has become live and spans up to n; all else that was live stays.
  ghost predicate Placed(m: Mem, g: Shape, bp: nat, n: nat, m': Mem, g': Shape) {
    && Consistent(m', g', {}) && Coalesced(g') && g'.end == g.end
    && Live(g', bp) && g'.next[bp] == n
    && LiveBlocks(g') == LiveBlocks(g) + {bp}
    && Keeps(m, g, m', g', LiveBlocks(g))
  }

  lemma SizeAfterDelete(m: Mem, g: Shape, bp: nat)
    requires Consistent(m, g, {}) && bp in g.free && bp in g.next
    ensures CanDelete(m, bp) && bp + 4 <= g.next[bp] <= |m| && SizeOf(DeleteMem(m, bp)[bp - 1]) == Bytes(g, bp)
  {
    hide Tiling, Tagged, Sorted, AllLinked, DeleteMem, CanDelete, SizeOf;
    FreeFacts(g, {});
    DeleteReady(m, g, bp, {});
    NextNeighbour(m, g, bp);
    NextNeighbour(DeleteMem(m, bp), WithDeleted(g, bp), bp);
  }

  // The three steps of place: out of the list, two pairs of tags, the rest into a list.
  lemma PlaceSplit(m: Mem, g: Shape, bp: nat, mid: nat) returns (m1: Mem, m2: Mem, m3: Mem, g': Shape)
    requires Consistent(m, g, {}) && Coalesced(g) && bp in g.free && bp in g.next
    requires bp + 4 <= mid && mid % 2 == 0 && mid + 4 <= g.next[bp]
    ensures 1 <= bp && g.next[bp] <= |m| == |m1| == |m2| == |m3|
    ensures CanDelete(m, bp) && m1 == DeleteMem(m, bp)
    ensures m2 == RecutMem(m1, bp, mid, g.next[bp], false, true)
    ensures CanInsert(m2, mid) && mid >= FIRST && 0 <= Class(m2, mid) < LISTSIZE
    ensures m2[PROLOGUE + Class(m2, mid)] != mid && m3 == InsertMem(m2, mid)
    ensures Placed(m, g, bp, mid, m3, g')
  {
    hide Tiling, Tagged, Sorted, AllLinked, Keeps, Coalesced, CutNext, CutFree, DeleteMem, CanDelete, InsertMem,
      CanInsert, Class, LiveBlocks, RecutMem;
    FreeFacts(g, {});
    DeleteReady(m, g, bp, {});
    m1 := DeleteMem(m, bp);
    var g1 := WithDeleted(g, bp);
    assert {} + {bp} == {bp};
    SameStructure(g, g1);
    SameLive(g, g1);
    SplitStep(m1, g1, bp, mid);
    m2 := RecutMem(m1, bp, mid, g.next[bp], false, true);
    var g2 := Recut(g1, bp, mid, g.next[bp], false, true);
    FreeFacts(g2, {mid});
    InsertReady(m2, g2, mid, {mid});
    ClassIs(m2, g2, mid);
    m3, g' := InsertMem(m2, mid), WithInserted(g2, mid);
    assert {mid} - {mid} == {};
    SameStructure(g2, g');
    SameLive(g2, g');
    KeepsTransitive(m, g, m1, g1, m2, g2, LiveBlocks(g));
    KeepsFewer(m2, g2, m3, g', LiveBlocks(g2), LiveBlocks(g));
    KeepsTransitive(m, g, m2, g2, m3, g', LiveBlocks(g));
  }

  lemma PlaceWhole(m: Mem, g: Shape, bp: nat) returns (m1: Mem, m2: Mem, g': Shape)
    requires Consistent(m, g, {}) && Coalesced(g) && bp in g.free && bp in g.next
    ensures 1 <= bp && bp + 4 <= g.next[bp] <= |m| == |m1| == |m2|
    ensures CanDelete(m, bp) && m1 == DeleteMem(m, bp)
    ensures m2 == TagMem(m1, bp, g.next[bp], true)
    ensures Placed(m, g, bp, g.next[bp], m2, g')
  {
    hide Tiling, Tagged, Sorted, AllLinked, Keeps, Coalesced, DeleteMem, CanDelete, Class, LiveBlocks, TagMem;
    FreeFacts(g, {});
    DeleteReady(m, g, bp, {});
    m1 := DeleteMem(m, bp);
    var g1 := WithDeleted(g, bp);
    assert {} + {bp} == {bp};
    SameStructure(g, g1);
    SameLive(g, g1);
    TakeStep(m1, g1, bp);
    m2, g' := TagMem(m1, bp, g.next[bp], true), g1.(free := g1.free - {bp});
    KeepsTransitive(m, g, m1, g1, m2, g', LiveBlocks(g));
  }

  // ---- extend

  lemma GrowLive(g: Shape, n: nat)
    requires Tiling(g) && Coalesced(g) && g.end !in g.next && Tiling(Grown(g, n))
    ensures CoalescedBut(Grown(g, n), g.end) && LiveBlocks(Grown(g, n)) == LiveBlocks(g)
  {
  }

  lemma GrowReady(m: Mem, g: Shape, n: nat)
    requires Consistent(m, g, {}) && Coalesced(g) && g.end + 4 <= n <= |m| && (n - g.end) % 2 == 0
    ensures g.end >= FIRST && g.end !in g.next
    ensures Consistent(GrowMem(m, g.end, n), Grown(g, n), {g.end})
    ensures CoalescedBut(Grown(g, n), g.end) && LiveBlocks(Grown(g, n)) == LiveBlocks(g)
    ensures Keeps(m, g, GrowMem(m, g.end, n), Grown(g, n), LiveBlocks(g))
  {
    assert g.end % 2 == 0;
    hide Tiling, Tagged, Sorted, AllLinked, Coalesced, CoalescedBut, LiveBlocks, Keeps, GrowMem, Grown;
    GrowStep(m, g, n);
    GrowLive(g, n);
  }

  // ---- fit

  ghost predicate Fits(g: Shape, b: nat, size: nat) {
    b in g.free && b in g.next && b <= g.next[b] && Bytes(g, b) >= size
  }

  // No block of list c is large enough.
  ghost predicate NoneFits(g: Shape, c: nat, size: nat)
    requires |g.lists| == LISTSIZE && c < LISTSIZE
  {
    forall b :: b in g.lists[c] ==> !Fits(g, b, size)
  }

  // bp is the first block that is large enough in the lists from the class of size on.
  ghost predicate FirstFit(g: Shape, size: nat, bp: nat, c: nat, k: nat)
    requires |g.lists| == LISTSIZE && size >= 16
  {
    && CalClass(size) <= c < LISTSIZE && k < |g.lists[c]| && g.lists[c][k] == bp && Fits(g, bp, size)
    && (forall d :: CalClass(size) <= d < c && 0 <= d ==> NoneFits(g, d, size))
    && (forall j :: 0 <= j < k ==> !Fits(g, g.lists[c][j], size))
  }

  // As calclass is monotone, scanning from the class of size on misses nothing.
  lemma ScanIsComplete(g: Shape, size: nat)
    requires Tiling(g) && Sorted(g, {}) && size >= 16
    requires forall c :: CalClass(size) <= c < LISTSIZE && 0 <= c ==> NoneFits(g, c, size)
    ensures forall b :: !Fits(g, b, size)
  {
    forall b
      ensures !Fits(g, b, size)
    {
      if b in g.free {
        assert Sized(b, g.next[b], g.end) && b in g.lists[ClassOf(g, b)];
        if CalClass(size) <= ClassOf(g, b) {
          assert NoneFits(g, ClassOf(g, b), size);
        } else if size <= Bytes(g, b) {
          LogMonotone(size, Bytes(g, b), LISTSIZE);
          assert false;
        }
      }
    }
  }

  // The k-th block of a list: its link, its size and the class.
  lemma ListEntry(m: Mem, g: Shape, c: nat, k: nat)
    requires Consistent(m, g, {}) && c < LISTSIZE && k < |g.lists[c]|
    ensures var b := g.lists[c][k];
      && 1 <= b && b + 1 < |m| && b in g.free && b in g.next && b <= g.next[b]
      && SizeOf(m[b - 1]) == Bytes(g, b)
      && m[b + 1] == (if k + 1 < |g.lists[c]| then g.lists[c][k + 1] else 0)
  {
    assert Linked(m, c, g.lists[c]) && LinkedAt(m, g.lists[c], k);
    assert Belongs(g, {}, c, g.lists[c][k]);
    ReadTag(m, g, g.lists[c][k]);
  }

  lemma ListHead(m: Mem, g: Shape, c: nat)
    requires Consistent(m, g, {}) && c < LISTSIZE
    ensures |g.lists| == LISTSIZE && m[PROLOGUE + c] == if g.lists[c] == [] then 0 else g.lists[c][0]
  {
    assert Linked(m, c, g.lists[c]);
  }

  // ---- Sizes

  // The block size for a request, with the wrap-around of size_t.
  function Adjusted(size: nat): nat {
    if size <= 8 then 16 else 8 * ((size + 15) % 0x1_0000_0000 / 8)
  }

  // The block can hold the request and its tags, with less than 16 bytes to spare,
  // exactly when the request is not so large that the sum wraps.
  lemma AdjustedHolds(size: nat)
    requires 0 < size < 0x1_0000_0000
    ensures Adjusted(size) % 8 == 0
    ensures Adjusted(size) >= 16 <==> size <= 0xffff_fff0
    ensures Adjusted(size) >= size + 8 <==> size <= 0xffff_fff0
    ensures size <= 0xffff_fff0 ==> Adjusted(size) < size + 16 || Adjusted(size) == 16
  {
  }

  // What a successful request gives its caller: a new live block, aligned to 8 bytes,
  // with room for the request, while every block that was live keeps its place and words.
  ghost predicate Allocated(m: Mem, g: Shape, bp: nat, size: nat, m': Mem, g': Shape) {
    && Live(g', bp) && bp % 2 == 0 && g'.end <= |m'|
    && bp !in LiveBlocks(g) && LiveBlocks(g') == LiveBlocks(g) + {bp}
    && bp <= g'.next[bp] <= g'.end && Bytes(g', bp) >= size + 8
    && Keeps(m, g, m', g', LiveBlocks(g))
  }

  lemma LiveBounds(m: Mem, g: Shape, b: nat)
    requires Tiling(g) && Tagged(m, g) && b in g.next
    ensures b % 2 == 0 && b <= g.next[b] <= g.end <= |m| && (b != PROLOGUE ==> b >= FIRST)
  {
    assert Sized(b, g.next[b], g.end) && Sized(PROLOGUE, FIRST, g.end);
  }

  // Live blocks share no word.
  lemma LiveApart(g: Shape, b: nat, c: nat, i: nat)
    requires Tiling(g) && Live(g, b) && Live(g, c) && b != c && InPayload(g, b, i)
    ensures !InPayload(g, c, i) && i < g.end
  {
    assert Sized(b, g.next[b], g.end) && Sized(c, g.next[c], g.end);
    assert b < c ==> g.next[b] <= c;
    assert c < b ==> g.next[c] <= b;
  }

  // ---- mm_init

  ghost function FirstShape(): (g: Shape)
    ensures |g.lists| == LISTSIZE && forall c :: 0 <= c < LISTSIZE ==> g.lists[c] == []
    ensures g.next == map[PROLOGUE := FIRST] && g.free == {} && g.end == FIRST
  {
    Shape(map[PROLOGUE := FIRST], {}, seq(LISTSIZE, _ => []), FIRST)
  }

  lemma FirstHeap(m: Mem)
    requires |m| >= FIRST && m[1] == Pack(88, true) && m[22] == Pack(88, true) && m[23] == Pack(0, true)
    requires forall i :: PROLOGUE <= i < PROLOGUE + LISTSIZE ==> m[i] == 0
    ensures Consistent(m, FirstShape(), {}) && Coalesced(FirstShape()) && LiveBlocks(FirstShape()) == {}
  {
    var g := FirstShape();
    assert g.next[PROLOGUE] == FIRST && Sized(PROLOGUE, FIRST, FIRST);
    forall c | (c in g.next || c == g.end) && c != PROLOGUE
      ensures HasPrev(g, c)
    {
      assert g.next[PROLOGUE] == c;
    }
    TilingFrom(g);
    assert AllLinked(m, g);
  }
}
