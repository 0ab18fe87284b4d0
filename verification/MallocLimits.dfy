// Calls on heaps that the allocator itself builds, with which it cannot deal.
module MallocLimits {
  import opened MallocHeap
  import opened MallocBlocks
  import opened MallocCuts
  import opened MallocSteps
  import opened MallocPlacing
  import opened MallocMoving
  import opened MallocAllocator

  // A request for more than 2^32 - 16 bytes is rounded to 0 or 8, and the search for a
  // block begins before the first list: in front of the heap, or at the header of the
  // prologue, which is taken for the head of a list.
  lemma OversizedSearch(m: Mem, g: Shape, size: nat)
    requires Heap(m, g) && 0xffff_fff0 < size < 0x1_0000_0000
    ensures Adjusted(size) == (if size <= 0xffff_fff8 then 0 else 8)
    ensures CalClass(Adjusted(size)) == (if size <= 0xffff_fff8 then -4 else -1)
    ensures PROLOGUE + CalClass(0) < 0 && m[PROLOGUE + CalClass(8)] == Pack(88, true)
  {
    assert (size + 15) % 0x1_0000_0000 == size + 15 - 0x1_0000_0000;
    assert Log(0, 20) == 0;
    assert Log(8, 20) == 1 + Log(4, 19) == 2 + Log(2, 18) == 3 + Log(1, 17);
    assert m[PROLOGUE - 1] == Pack(Bytes(g, PROLOGUE), PROLOGUE !in g.free);
  }

  // One live block at the start of the heap, and all that follows it free.
  ghost predicate OneThenFree(g: Shape, b: nat) {
    && Live(g, b) && b == FIRST && b <= g.next[b]
    && g.next[b] in g.free && g.next[b] in g.next && g.next[g.next[b]] == g.end && g.free == {g.next[b]}
  }

  lemma OneLive(m: Mem, g: Shape)
    requires Heap(m, g) && LiveBlocks(g) == {FIRST} && Live(g, FIRST) && g.next[FIRST] < g.end
    ensures OneThenFree(g, FIRST)
  {
    var c: nat := g.next[FIRST];
    assert Sized(FIRST, c, g.end) && HasNext(g, FIRST);
    assert c in g.next && c !in LiveBlocks(g) && c != PROLOGUE;
    var d: nat := g.next[c];
    assert Sized(c, d, g.end) && HasNext(g, c);
    assert d !in g.next || d in LiveBlocks(g) || d in g.free;
    forall x | x in g.free
      ensures x == c
    {
      assert Sized(x, g.next[x], g.end) && Sized(PROLOGUE, FIRST, g.end);
      assert x >= c || x <= FIRST;
      assert x <= c || x >= d;
    }
  }

  // The first block of a new heap.
  method FirstBlock(a: Allocator) returns (ptr: nat)
    requires a.brk == 0 && FIRST + CHUNKSIZE / 4 <= a.mem.Length < MAX_WORDS
    modifies a, a.mem
    ensures a.Valid() && OneThenFree(a.shape, ptr) && a.shape.end == FIRST + CHUNKSIZE / 4
    ensures 16 <= Bytes(a.shape, ptr) < 32
  {
    hide Tiling, Tagged, Sorted, AllLinked, Coalesced, LiveBlocks, Keeps;
    var ok := a.Init();
    AllFreed(a.mem[..], a.shape);
    assert Fits(a.shape, FIRST, 16);
    ptr := a.Malloc(8);
    OneLive(a.mem[..], a.shape);
  }

  // After mm_init and mm_malloc(8), mm_realloc to 4088 bytes takes the whole of the free
  // block that follows, and leaves a free block of 0 bytes, for which there is no list.
  method NothingRemains(a: Allocator) returns (ptr: nat)
    requires a.brk == 0 && FIRST + CHUNKSIZE / 4 <= a.mem.Length < MAX_WORDS
    modifies a, a.mem
    ensures a.Valid() && Live(a.shape, ptr) && ptr <= a.shape.next[ptr] && a.shape.next[ptr] in a.shape.free
    ensures a.Grows(ptr, 4088) && !a.Stuck(ptr, 4088)
    ensures a.Together(ptr) == Adjusted(4088) && CalClass(a.Together(ptr) - Adjusted(4088)) == -4
  {
    hide Tiling, Tagged, Sorted, AllLinked, Coalesced, LiveBlocks, Keeps;
    ptr := FirstBlock(a);
    LiveBounds(a.mem[..], a.shape, a.shape.next[ptr]);
    RemainderHasClass(0);
    assert Log(0, 20) == 0;
  }

  // With a second mm_malloc(8) and no more memory than the first chunk, mm_realloc of the
  // first block to 5000 bytes has to move it, and mm_malloc returns NULL.
  method NowhereToMove(a: Allocator) returns (ptr: nat)
    requires a.brk == 0 && FIRST + CHUNKSIZE / 4 == a.mem.Length
    modifies a, a.mem
    ensures a.Valid() && Live(a.shape, ptr) && ptr <= a.shape.next[ptr] && a.shape.next[ptr] !in a.shape.free
    ensures a.Grows(ptr, 5000) && !a.Serves(Adjusted(Adjusted(5000)))
  {
    hide Tiling, Tagged, Sorted, AllLinked, Coalesced, LiveBlocks, Keeps;
    ptr := FirstBlock(a);
    ghost var m, g := a.mem[..], a.shape;
    LiveBounds(m, g, g.next[ptr]);
    assert Fits(g, g.next[ptr], 16);
    var q := a.Malloc(8);
    SecondLive(m, g, ptr, a.mem[..], a.shape, q);
    NoneThatLarge(a.mem[..], a.shape, Adjusted(Adjusted(5000)));
  }

  lemma SecondLive(m: Mem, g: Shape, ptr: nat, m': Mem, g': Shape, q: nat)
    requires OneThenFree(g, ptr) && q in g.free
    requires LiveBlocks(g') == LiveBlocks(g) + {q} && Keeps(m, g, m', g', LiveBlocks(g))
    ensures Live(g', ptr) && g'.next[ptr] == g.next[ptr] == q && Live(g', q)
  {
    assert ptr in LiveBlocks(g);
    assert ptr in LiveBlocks(g') && q in LiveBlocks(g');
  }

  lemma NoneThatLarge(m: Mem, g: Shape, size: nat)
    requires Heap(m, g) && size > 4 * g.end
    ensures !exists b :: Fits(g, b, size)
  {
    forall b | b in g.next
      ensures !Fits(g, b, size)
    {
      assert Sized(b, g.next[b], g.end);
    }
  }
}
