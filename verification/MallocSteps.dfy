// Neighbouring blocks, and what joining them does to the shape of the heap.
module MallocSteps {
  import opened MallocHeap
  import opened MallocLists
  import opened MallocBlocks
  import opened MallocCuts

  // ---- The block arithmetic of the source

  function NextBlock(m: Mem, bp: nat): nat
    requires 1 <= bp <= |m|
  {
    bp + SizeOf(m[bp - 1]) / 4
  }

  function PrevBlock(m: Mem, bp: nat): int
    requires 2 <= bp <= |m|
  {
    bp - SizeOf(m[bp - 2]) / 4
  }

  function Footer(m: Mem, bp: nat): int
    requires 1 <= bp <= |m|
  {
    bp + SizeOf(m[bp - 1]) / 4 - 2
  }

  // ---- Neighbours

  ghost function PrevOf(g: Shape, b: nat): (p: nat)
    requires HasPrev(g, b)
    ensures p in g.next && g.next[p] == b
  {
    var p :| p in g.next && g.next[p] == b;
    p
  }

  lemma PrevUnique(g: Shape, b: nat, x: nat)
    requires Tiling(g) && HasPrev(g, b) && x in g.next && g.next[x] == b
    ensures x == PrevOf(g, b)
  {
    var p := PrevOf(g, b);
    assert Sized(p, b, g.end) && Sized(x, b, g.end);
  }

  lemma PrevSame(g: Shape, g': Shape, b: nat)
    requires Tiling(g) && HasPrev(g, b) && g'.next == g.next
    ensures HasPrev(g', b) && PrevOf(g', b) == PrevOf(g, b)
  {
    assert g'.next[PrevOf(g, b)] == b;
    PrevUnique(g, b, PrevOf(g', b));
  }

  lemma NextNeighbour(m: Mem, g: Shape, b: nat)
    requires Tiling(g) && Tagged(m, g) && b in g.next
    ensures 1 <= b && b + 4 <= g.next[b] <= |m|
    ensures NextBlock(m, b) == g.next[b] && Footer(m, b) == g.next[b] - 2
    ensures SizeOf(m[b - 1]) == SizeOf(m[g.next[b] - 2]) == Bytes(g, b)
    ensures IsAlloc(m[g.next[b] - 1]) == (g.next[b] !in g.free)
    ensures g.next[b] in g.next ==> g.next[b] <= g.next[g.next[b]] && SizeOf(m[g.next[b] - 1]) == Bytes(g, g.next[b])
  {
    ReadTag(m, g, b);
    var n := g.next[b];
    assert HasNext(g, b);
    if n in g.next {
      ReadTag(m, g, n);
    } else {
      assert n !in g.free && m[n - 1] == Pack(0, true);
    }
  }

  lemma PrevNeighbour(m: Mem, g: Shape, b: nat)
    requires Tiling(g) && Tagged(m, g) && b in g.next && b != PROLOGUE
    ensures HasPrev(g, b)
    ensures var p := PrevOf(g, b);
      && 1 <= p && p + 4 <= b <= |m|
      && PrevBlock(m, b) == p && Footer(m, p) == b - 2
      && IsAlloc(m[b - 2]) == (p !in g.free)
      && SizeOf(m[p - 1]) == Bytes(g, p)
  {
    assert HasPrev(g, b);
    var p := PrevOf(g, b);
    ReadTag(m, g, p);
    ReadTag(m, g, b);
  }

  lemma FreeFacts(g: Shape, pending: set<nat>)
    requires Tiling(g) && Sorted(g, pending)
    ensures |g.lists| == LISTSIZE
    ensures forall b :: b in g.free ==> b in g.next && b != PROLOGUE && b > 0 && b % 2 == 0 && HasPrev(g, b)
  {
    assert forall b :: b in g.free ==> Sized(b, g.next[b], g.end);
  }

  // ---- Joining a free block with its free neighbours

  ghost function JoinStart(g: Shape, b: nat): nat
    requires HasPrev(g, b)
  {
    if PrevOf(g, b) in g.free then PrevOf(g, b) else b
  }

  function JoinEnd(g: Shape, b: nat): nat
    requires b in g.next && forall x :: x in g.free ==> x in g.next
  {
    if g.next[b] in g.free then g.next[g.next[b]] else g.next[b]
  }

  // Only b may have free neighbours.
  ghost predicate CoalescedBut(g: Shape, b: nat)
    requires Tiling(g)
  {
    forall x :: x in g.free && x != b && g.next[x] != b ==> g.next[x] !in g.free
  }

  lemma JoinPart(g: Shape, b: nat)
    requires Tiling(g) && b in g.free
    ensures HasPrev(g, b)
    ensures var lo, hi := JoinStart(g, b), JoinEnd(g, b);
      && lo in g.free && lo <= b < hi && CanCut(g, lo, hi, hi)
      && (forall x :: x in g.next && lo <= x < hi ==> x == lo || x == b || x == g.next[b])
      && (forall x :: x in g.next && lo <= x < hi ==> x in g.free)
  {
    assert HasPrev(g, b) && HasNext(g, b);
    var p, n := PrevOf(g, b), g.next[b];
    assert Sized(p, b, g.end) && Sized(b, n, g.end);
    if n in g.free {
      assert HasNext(g, n) && Sized(n, g.next[n], g.end);
      JoinMembers(g, p, b, n, g.next[n]);
    } else {
      JoinMembers(g, p, b, n, n);
    }
  }

  lemma JoinMembers(g: Shape, p: nat, b: nat, n: nat, hi: nat)
    requires Tiling(g) && p in g.next && g.next[p] == b && b in g.next && g.next[b] == n
    requires hi == n || (n in g.next && g.next[n] == hi)
    ensures forall x :: x in g.next && p <= x < hi ==> x == p || x == b || x == n
    ensures hi == n ==> forall x :: x in g.next && p <= x < hi ==> x == p || x == b
    ensures forall x :: x in g.next && b <= x < hi ==> x != p
  {
    assert Sized(p, b, g.end) && Sized(b, n, g.end);
    forall x | x in g.next && p <= x < hi
      ensures x == p || x == b || (x == n && hi != n)
    {
      assert x > p ==> x >= b;
      assert x > b ==> x >= n;
    }
  }

  lemma JoinCoalesced(g: Shape, b: nat, g': Shape)
    requires Tiling(g) && b in g.free && CoalescedBut(g, b) && HasPrev(g, b)
    requires var lo, hi := JoinStart(g, b), JoinEnd(g, b);
      g'.next == CutNext(g.next, lo, hi, hi) && g'.free == CutFree(g.free, lo, hi, hi, true, false)
    requires Tiling(g')
    ensures Coalesced(g')
  {
    JoinPart(g, b);
    var lo, hi := JoinStart(g, b), JoinEnd(g, b);
    var p, n := PrevOf(g, b), g.next[b];
    assert hi !in g.free by {
      if n in g.free {
        assert g.next[n] != b by {
          assert Sized(b, n, g.end) && Sized(n, g.next[n], g.end);
        }
      }
    }
    forall x | x in g'.free
      ensures g'.next[x] !in g'.free
    {
      if x != lo {
        JoinBefore(g, b, x);
      }
      hide Tiling;
    }
  }

  // A free block away from the join meets no free block after it.
  lemma JoinBefore(g: Shape, b: nat, x: nat)
    requires Tiling(g) && b in g.free && CoalescedBut(g, b) && HasPrev(g, b)
    requires var lo, hi := JoinStart(g, b), JoinEnd(g, b); x in g.free && !(lo <= x < hi)
    ensures g.next[x] !in g.free && g.next[x] != JoinStart(g, b)
  {
    var p := PrevOf(g, b);
    if g.next[x] == b {
      PrevUnique(g, b, x);
    }
    assert Sized(p, b, g.end) && Sized(x, g.next[x], g.end);
    JoinPart(g, b);
  }

  // ---- List operations, with what they keep

  lemma InsertReady(m: Mem, g: Shape, bp: nat, pending: set<nat>)
    requires Consistent(m, g, pending) && bp in g.free && bp in pending
    ensures CanInsert(m, bp) && bp >= FIRST && m[PROLOGUE + Class(m, bp)] != bp && bp + 4 <= g.next[bp]
    ensures Consistent(InsertMem(m, bp), WithInserted(g, bp), pending - {bp})
    ensures Keeps(m, g, InsertMem(m, bp), WithInserted(g, bp), LiveBlocks(g))
  {
    InsertStep(m, g, bp, pending);
    HeadIsOther(m, g, bp, pending);
    hide InsertMem, Class, Tagged, Sorted, AllLinked, LinksOnly, Keeps;
    LinksKeep(m, InsertMem(m, bp), g, WithInserted(g, bp), LiveBlocks(g));
  }

  lemma DeleteReady(m: Mem, g: Shape, bp: nat, pending: set<nat>)
    requires Consistent(m, g, pending) && bp in g.free && bp !in pending
    ensures CanDelete(m, bp) && bp + 4 <= g.next[bp] && bp in g.lists[ClassOf(g, bp)]
    ensures Consistent(DeleteMem(m, bp), WithDeleted(g, bp), pending + {bp})
    ensures Keeps(m, g, DeleteMem(m, bp), WithDeleted(g, bp), LiveBlocks(g))
  {
    DeleteStep(m, g, bp, pending);
    hide DeleteMem, Class, Tagged, Sorted, AllLinked, LinksOnly, Keeps;
    LinksKeep(m, DeleteMem(m, bp), g, WithDeleted(g, bp), LiveBlocks(g));
  }

  // The same blocks, whatever the lists.
  predicate SameBlocks(g: Shape, g': Shape) {
    g'.next == g.next && g'.free == g.free && g'.end == g.end
  }

  // bp and its free neighbours have become one block, which is in no list yet.
  ghost predicate Joined(m: Mem, g: Shape, bp: nat, m': Mem, g': Shape)
    requires HasPrev(g, bp) && bp in g.next && forall x :: x in g.free ==> x in g.next
  {
    var lo, hi := JoinStart(g, bp), JoinEnd(g, bp);
    && g'.next == CutNext(g.next, lo, hi, hi) && g'.free == CutFree(g.free, lo, hi, hi, true, false) && g'.end == g.end
    && lo in g'.free && Consistent(m', g', {lo}) && Coalesced(g')
    && Keeps(m, g, m', g', LiveBlocks(g))
  }

  // The new tags of a join, once the neighbours that take part are out of their lists.
  lemma JoinStep(m0: Mem, g0: Shape, bp: nat, m: Mem, g: Shape, gone: set<nat>)
    requires Tiling(g0) && bp in g0.free && HasPrev(g0, bp) && CoalescedBut(g0, bp)
    requires SameBlocks(g0, g) && Consistent(m, g, gone + {bp})
    requires Keeps(m0, g0, m, g, LiveBlocks(g0))
    requires gone == {PrevOf(g0, bp), g0.next[bp]} * g0.free
    ensures var lo, hi := JoinStart(g0, bp), JoinEnd(g0, bp);
      && 1 <= lo && lo + 4 <= hi <= |m| && (hi - lo) % 2 == 0
      && Joined(m0, g0, bp, RecutMem(m, lo, hi, hi, true, false), Recut(g, lo, hi, hi, true, false))
  {
    hide Tiling, CoalescedBut, Consistent, Coalesced, Keeps, LiveBlocks, CutNext, CutFree, RecutMem, JoinStart, JoinEnd;
    JoinParts(m0, g0, bp, m, g, gone);
    JoinEven(g0, bp);
  }

  lemma JoinEven(g: Shape, bp: nat)
    requires Tiling(g) && bp in g.free && HasPrev(g, bp)
    ensures (JoinEnd(g, bp) - JoinStart(g, bp)) % 2 == 0
  {
    assert Sized(PrevOf(g, bp), bp, g.end) && Sized(bp, g.next[bp], g.end);
    if g.next[bp] in g.free {
      assert Sized(g.next[bp], g.next[g.next[bp]], g.end);
    }
  }

  lemma JoinParts(m0: Mem, g0: Shape, bp: nat, m: Mem, g: Shape, gone: set<nat>)
    requires Tiling(g0) && bp in g0.free && HasPrev(g0, bp) && CoalescedBut(g0, bp)
    requires SameBlocks(g0, g) && Consistent(m, g, gone + {bp})
    requires Keeps(m0, g0, m, g, LiveBlocks(g0))
    requires gone == {PrevOf(g0, bp), g0.next[bp]} * g0.free
    ensures var lo, hi := JoinStart(g0, bp), JoinEnd(g0, bp);
      && 1 <= lo && lo + 4 <= hi <= |m|
      && lo in Recut(g, lo, hi, hi, true, false).free
      && Consistent(RecutMem(m, lo, hi, hi, true, false), Recut(g, lo, hi, hi, true, false), {lo})
      && Coalesced(Recut(g, lo, hi, hi, true, false))
      && Keeps(m0, g0, RecutMem(m, lo, hi, hi, true, false), Recut(g, lo, hi, hi, true, false), LiveBlocks(g0))
  {
    var lo, hi, pending := JoinStart(g0, bp), JoinEnd(g0, bp), gone + {bp};
    JoinPart(g0, bp);
    JoinPending(g0, bp, gone);
    AllOutside(g0, g, lo, hi);
    assert CanCut(g, lo, hi, hi) && bp in g.next && lo in CutFree(g.free, lo, hi, hi, true, false);
    hide CanCut, CutNext, CutFree, RecutMem, Sorted, Tagged, AllLinked, JoinStart, JoinEnd, CoalescedBut, Coalesced,
      LiveBlocks, LiveOutside, Keeps, WritesApart;
    RecutStep(m, g, lo, hi, hi, true, false, pending, bp);
    JoinCoalesced(g0, bp, Recut(g, lo, hi, hi, true, false));
    RecutKeeps(m, g, lo, hi, hi, true, false, bp);
    KeepsTransitive(m0, g0, m, g, RecutMem(m, lo, hi, hi, true, false), Recut(g, lo, hi, hi, true, false),
                    LiveBlocks(g0));
  }

  lemma AllOutside(g0: Shape, g: Shape, lo: nat, hi: nat)
    requires SameBlocks(g0, g) && forall x :: x in g0.next && lo <= x < hi ==> x in g0.free
    ensures LiveOutside(g, lo, hi) == LiveBlocks(g0)
  {
  }

  lemma JoinPending(g: Shape, bp: nat, gone: set<nat>)
    requires Tiling(g) && bp in g.free && HasPrev(g, bp)
    requires gone == {PrevOf(g, bp), g.next[bp]} * g.free
    ensures var lo, hi := JoinStart(g, bp), JoinEnd(g, bp);
      && (forall x :: x in g.free && lo <= x < hi ==> x in gone + {bp})
      && CutFree(gone + {bp}, lo, hi, hi, true, false) == {lo}
  {
    JoinPart(g, bp);
    var lo, hi, n := JoinStart(g, bp), JoinEnd(g, bp), g.next[bp];
    assert Sized(bp, n, g.end);
    if n in g.free {
      assert Sized(n, g.next[n], g.end);
    }
    assert Sized(PrevOf(g, bp), bp, g.end);
  }

  // PUT of a header makes FOOTER point to the end of the new block.
  lemma PutTags(m: Mem, b: nat, n: nat, alloc: bool)
    requires 1 <= b && b + 4 <= n <= |m| && (n - b) % 2 == 0
    ensures var w := Pack(4 * (n - b), alloc);
      && Footer(m[b - 1 := w], b) == n - 2 && NextBlock(m[b - 1 := w], b) == n
      && m[b - 1 := w][n - 2 := w] == TagMem(m, b, n, alloc)
  {
    hide SizeOf, Pack;
    EvenBytes(n - b);
    PackRead((n - b) / 2, alloc);
  }

  lemma TagRead(m: Mem, b: nat, n: nat, alloc: bool)
    requires 1 <= b && b + 4 <= n <= |m| && (n - b) % 2 == 0
    ensures NextBlock(TagMem(m, b, n, alloc), b) == n
  {
    hide SizeOf, Pack;
    EvenBytes(n - b);
    PackRead((n - b) / 2, alloc);
  }

  // With no free neighbour a join changes nothing.
  lemma JoinAlone(m: Mem, g: Shape, b: nat)
    requires Tiling(g) && Tagged(m, g) && b in g.free
    requires HasPrev(g, b) && PrevOf(g, b) !in g.free && g.next[b] !in g.free
    ensures JoinStart(g, b) == b && JoinEnd(g, b) == g.next[b] && b >= 1 && b + 4 <= g.next[b] <= |m|
    ensures RecutMem(m, b, g.next[b], g.next[b], true, false) == m
    ensures Recut(g, b, g.next[b], g.next[b], true, false) == g
    ensures {PrevOf(g, b), g.next[b]} * g.free == {}
  {
    assert Sized(b, g.next[b], g.end);
    var n := g.next[b];
    assert forall x :: x in g.next && b <= x < n ==> x == b;
    var w := Pack(4 * (n - b), false);
    assert m[b - 1] == w && m[n - 2] == w;
    hide Tiling, Tagged, Pack;
    assert CutNext(g.next, b, n, n) == g.next;
    assert CutFree(g.free, b, n, n, true, false) == g.free;
    assert m[b - 1 := w][n - 2 := w] == m;
  }

  lemma SameStructure(g: Shape, g': Shape)
    requires Tiling(g) && Coalesced(g) && SameBlocks(g, g') && Tiling(g')
    ensures Coalesced(g')
  {
  }

  lemma SameLive(g: Shape, g': Shape)
    requires SameBlocks(g, g')
    ensures LiveBlocks(g') == LiveBlocks(g)
  {
  }

  lemma KeepsSelf(m: Mem, g: Shape)
    ensures Keeps(m, g, m, g, LiveBlocks(g))
  {
  }

  lemma Finish(m: Mem, g: Shape, bp: nat, m1: Mem, g1: Shape, m2: Mem, g2: Shape)
    requires Tiling(g) && bp in g.free && HasPrev(g, bp) && Joined(m, g, bp, m1, g1)
    requires SameBlocks(g1, g2) && Tiling(g2) && Keeps(m1, g1, m2, g2, LiveBlocks(g1))
    ensures Coalesced(g2) && Keeps(m, g, m2, g2, LiveBlocks(g))
  {
    SameStructure(g1, g2);
    assert forall b :: b in LiveBlocks(g) ==> b in LiveBlocks(g1);
    hide Tiling, Consistent, Coalesced, CutNext, CutFree, LiveBlocks;
    KeepsFewer(m1, g1, m2, g2, LiveBlocks(g1), LiveBlocks(g));
    KeepsTransitive(m, g, m1, g1, m2, g2, LiveBlocks(g));
  }

  lemma KeepsFewer(m: Mem, g: Shape, m': Mem, g': Shape, k: set<nat>, fewer: set<nat>)
    requires Keeps(m, g, m', g', k) && fewer <= k
    ensures Keeps(m, g, m', g', fewer)
  {
  }

  // Both neighbours leave their lists.
  lemma DeleteBoth(m: Mem, g: Shape, bp: nat) returns (m1: Mem, m2: Mem, g2: Shape)
    requires Consistent(m, g, {bp}) && bp in g.free && HasPrev(g, bp)
    requires PrevOf(g, bp) in g.free && g.next[bp] in g.free
    ensures bp >= 2 && bp + 2 <= |m| == |m1| == |m2|
    ensures PrevBlock(m, bp) == PrevOf(g, bp) && CanDelete(m, PrevOf(g, bp)) && m1 == DeleteMem(m, PrevOf(g, bp))
    ensures NextBlock(m1, bp) == g.next[bp] && CanDelete(m1, g.next[bp]) && m2 == DeleteMem(m1, g.next[bp])
    ensures SizeOf(m[bp - 1]) == 4 * (g.next[bp] - bp)
    ensures SameBlocks(g, g2) && Consistent(m2, g2, {PrevOf(g, bp), g.next[bp]} + {bp})
    ensures Keeps(m, g, m2, g2, LiveBlocks(g))
  {
    hide Tiling, Tagged, Sorted, AllLinked, Keeps, SizeOf, LiveBlocks, DeleteMem, CanDelete, Class;
    FreeFacts(g, {bp});
    var p, n := PrevOf(g, bp), g.next[bp];
    NextNeighbour(m, g, bp);
    PrevNeighbour(m, g, bp);
    DeleteReady(m, g, p, {bp});
    m1 := DeleteMem(m, p);
    var g1 := WithDeleted(g, p);
    FreeFacts(g1, {bp} + {p});
    NextNeighbour(m1, g1, bp);
    assert n !in {bp} + {p};
    DeleteReady(m1, g1, n, {bp} + {p});
    m2, g2 := DeleteMem(m1, n), WithDeleted(g1, n);
    assert {bp} + {p} + {n} == {p, n} + {bp};
    SameLive(g, g1);
    KeepsTransitive(m, g, m1, g1, m2, g2, LiveBlocks(g));
  }

  // What the fourth case of coalesce reads and where it writes, with size w for the tags.
  lemma BothReads(m: Mem, g: Shape, bp: nat, w: nat)
    requires Tiling(g) && Tagged(m, g) && bp in g.next && bp != PROLOGUE && g.next[bp] in g.next
    ensures HasPrev(g, bp)
    ensures var p, n := PrevOf(g, bp), g.next[bp];
      && 1 <= p && p + 4 <= bp && bp + 4 <= n && n + 4 <= g.next[n] <= |m|
      && PrevBlock(m, bp) == p && NextBlock(m, bp) == n && Footer(m, n) == g.next[n] - 2
      && SizeOf(m[p - 1]) == 4 * (bp - p) && SizeOf(m[g.next[n] - 2]) == 4 * (g.next[n] - n)
      && NextBlock(m[p - 1 := w], bp) == n && Footer(m[p - 1 := w], n) == g.next[n] - 2
      && PrevBlock(m[p - 1 := w][g.next[n] - 2 := w], bp) == p
  {
    hide SizeOf, IsAlloc;
    NextNeighbour(m, g, bp);
    NextNeighbour(m, g, g.next[bp]);
    PrevNeighbour(m, g, bp);
  }
}
