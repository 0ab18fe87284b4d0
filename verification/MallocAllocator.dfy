// The allocator, working in place on the words of the heap.
module MallocAllocator {
  import opened MallocHeap
  import opened MallocLists
  import opened MallocBlocks
  import opened MallocCuts
  import opened MallocSteps
  import opened MallocPlacing
  import opened MallocMoving

  const MAX_WORDS := 0x2000_0000   // below 2^31 bytes
  const CHUNKSIZE := 4096
  const NULL: nat := 0

  class Allocator {
    const mem: array<nat>
    var brk: nat
    ghost var shape: Shape

    // `pending` are the free blocks that are in no list.
    ghost predicate Ready(pending: set<nat>)
      reads this, mem
    {
      mem.Length < MAX_WORDS && brk == shape.end && Consistent(mem[..], shape, pending)
    }

    ghost predicate Valid()
      reads this, mem
    {
      Ready({}) && Coalesced(shape)
    }

    constructor (capacity: nat)
      requires capacity < MAX_WORDS
      ensures fresh(mem) && mem.Length == capacity && brk == 0
    {
      mem := new nat[capacity];
      brk := 0;
      shape := Shape(map[], {}, [], 0);
    }

    // The loop of calclass.
    static method CalculateClass(size: nat) returns (c: int)
      ensures c == CalClass(size)
    {
      var log, tmp := 0, size;
      while log < LISTSIZE && tmp > 1
        invariant 0 <= log <= LISTSIZE
        invariant Log(size, LISTSIZE) == log + Log(tmp, LISTSIZE - log)
      {
        tmp := tmp / 2;
        log := log + 1;
      }
      c := log - 4;
    }

    // PUT of the header and then, where it now says, of the footer.
    method PutBoth(bp: nat, size: nat, alloc: bool)
      requires 1 <= bp && size % 8 == 0 && size >= 16 && bp + size / 4 <= mem.Length
      modifies mem
      ensures mem[..] == TagMem(old(mem[..]), bp, bp + size / 4, alloc)
    {
      hide SizeOf, Pack;
      Quarter(size);
      ghost var m, n := mem[..], bp + size / 4;
      PutTags(m, bp, n, alloc);
      mem[bp - 1] := Pack(size, alloc);
      assert mem[..] == m[bp - 1 := Pack(size, alloc)];
      mem[Footer(mem[..], bp)] := Pack(size, alloc);
    }

    // Puts bp second in its list, or first in an empty one.
    method Insert(bp: nat)
      requires CanInsert(mem[..], bp) && bp >= FIRST && mem[PROLOGUE + Class(mem[..], bp)] != bp
      modifies mem
      ensures mem[..] == InsertMem(old(mem[..]), bp)
    {
      hide CalClass;
      var listClass := CalculateClass(SizeOf(mem[bp - 1]));
      var root := PROLOGUE + listClass;
      if mem[root] == NULL {
        mem[root] := bp;
        mem[bp + 1] := NULL;
        mem[bp] := NULL;
      } else {
        mem[bp + 1] := mem[mem[root] + 1];
        mem[bp] := mem[root];
        mem[mem[root] + 1] := bp;
        if mem[bp + 1] != NULL {
          mem[mem[bp + 1]] := bp;
        }
      }
    }

    method Delete(bp: nat)
      requires CanDelete(mem[..], bp)
      modifies mem
      ensures mem[..] == DeleteMem(old(mem[..]), bp)
    {
      hide CalClass;
      var listClass := CalculateClass(SizeOf(mem[bp - 1]));
      var root := PROLOGUE + listClass;
      if bp == mem[root] {
        mem[root] := mem[bp + 1];
      } else {
        mem[mem[bp] + 1] := mem[bp + 1];
        if mem[bp + 1] != NULL {
          mem[mem[bp + 1]] := mem[bp];
        }
      }
    }

    // The second case of coalesce: the block after bp is free.
    method JoinNext(bp: nat)
      requires Ready({bp}) && bp in shape.free && CoalescedBut(shape, bp)
      requires HasPrev(shape, bp) && PrevOf(shape, bp) !in shape.free && shape.next[bp] in shape.free
      modifies mem, `shape
      ensures Joined(old(mem[..]), old(shape), bp, mem[..], shape)
    {
      hide Tiling, Tagged, Sorted, AllLinked, Keeps, CoalescedBut, Coalesced, SizeOf, CutNext, CutFree, LiveBlocks,
        DeleteMem, CanDelete, Class, Joined;
      ghost var m, g := mem[..], shape;
      FreeFacts(g, {bp});
      ghost var n := g.next[bp];
      NextNeighbour(m, g, bp);
      DeleteReady(m, g, n, {bp});
      ghost var m1, g1 := DeleteMem(m, n), WithDeleted(g, n);
      assert {PrevOf(g, bp), n} * g.free == {n} && {bp} + {n} == {n} + {bp};
      JoinStep(m, g, bp, m1, g1, {n});
      NextNeighbour(m1, g1, bp);
      hide Consistent;

      var size := SizeOf(mem[bp - 1]);
      Delete(NextBlock(mem[..], bp));
      size := size + SizeOf(mem[NextBlock(mem[..], bp) - 1]);
      assert size == 4 * (g.next[n] - bp);
      EvenBytes(g.next[n] - bp);
      PutBoth(bp, size, false);
      shape := Recut(g1, bp, g.next[n], g.next[n], true, false);
      assert mem[..] == RecutMem(m1, bp, g.next[n], g.next[n], true, false);
    }

    // The third case: the block before bp is free.
    method JoinPrev(bp: nat) returns (r: nat)
      requires Ready({bp}) && bp in shape.free && CoalescedBut(shape, bp)
      requires HasPrev(shape, bp) && PrevOf(shape, bp) in shape.free && shape.next[bp] !in shape.free
      modifies mem, `shape
      ensures Joined(old(mem[..]), old(shape), bp, mem[..], shape) && r == old(PrevOf(shape, bp))
    {
      hide Tiling, Tagged, Sorted, AllLinked, Keeps, CoalescedBut, Coalesced, SizeOf, CutNext, CutFree, LiveBlocks,
        DeleteMem, CanDelete, Class, Joined;
      ghost var m, g := mem[..], shape;
      FreeFacts(g, {bp});
      ghost var p, n := PrevOf(g, bp), g.next[bp];
      NextNeighbour(m, g, bp);
      PrevNeighbour(m, g, bp);
      DeleteReady(m, g, p, {bp});
      ghost var m1, g1 := DeleteMem(m, p), WithDeleted(g, p);
      assert {p, n} * g.free == {p} && {bp} + {p} == {p} + {bp};
      JoinStep(m, g, bp, m1, g1, {p});
      NextNeighbour(m1, g1, bp);
      PrevNeighbour(m1, g1, bp);
      PrevSame(g, g1, bp);
      PutTags(m1, p, n, false);

      var size := SizeOf(mem[bp - 1]);
      Delete(PrevBlock(mem[..], bp));
      size := size + SizeOf(mem[PrevBlock(mem[..], bp) - 1]);
      assert size == 4 * (n - p);
      mem[PrevBlock(mem[..], bp) - 1] := Pack(size, false);
      assert mem[..] == m1[p - 1 := Pack(size, false)];
      mem[Footer(mem[..], bp)] := Pack(size, false);
      shape := Recut(g1, p, n, n, true, false);
      assert mem[..] == RecutMem(m1, p, n, n, true, false);
      r := PrevBlock(mem[..], bp);
    }

    // The fourth case: both are free.
    method JoinBoth(bp: nat) returns (r: nat)
      requires Ready({bp}) && bp in shape.free && CoalescedBut(shape, bp)
      requires HasPrev(shape, bp) && PrevOf(shape, bp) in shape.free && shape.next[bp] in shape.free
      modifies mem, `shape
      ensures Joined(old(mem[..]), old(shape), bp, mem[..], shape) && r == old(PrevOf(shape, bp))
    {
      hide Tiling, Tagged, Sorted, AllLinked, Keeps, CoalescedBut, Coalesced, SizeOf, CutNext, CutFree, LiveBlocks,
        DeleteMem, CanDelete, Class, Joined;
      ghost var m, g := mem[..], shape;
      FreeFacts(g, {bp});
      ghost var p, n := PrevOf(g, bp), g.next[bp];
      ghost var m1, m2, g2 := DeleteBoth(m, g, bp);
      PrevSame(g, g2, bp);
      assert {p, n} * g.free == {p, n};
      hide PrevBlock, NextBlock, Footer, Pack;
      JoinStep(m, g, bp, m2, g2, {p, n});
      ghost var hi := g.next[n];
      BothReads(m2, g2, bp, Pack(4 * (hi - p), false));

      var size := SizeOf(mem[bp - 1]);
      Delete(PrevBlock(mem[..], bp));
      Delete(NextBlock(mem[..], bp));
      size := size + SizeOf(mem[PrevBlock(mem[..], bp) - 1]) + SizeOf(mem[Footer(mem[..], NextBlock(mem[..], bp))]);
      assert size == 4 * (hi - p);
      mem[PrevBlock(mem[..], bp) - 1] := Pack(size, false);
      assert mem[..] == m2[p - 1 := Pack(size, false)];
      mem[Footer(mem[..], NextBlock(mem[..], bp))] := Pack(size, false);
      shape := Recut(g2, p, hi, hi, true, false);
      assert mem[..] == RecutMem(m2, p, hi, hi, true, false);
      r := PrevBlock(mem[..], bp);
    }

    // Joins bp with the free blocks beside it and enters the result in its list.
    method Coalesce(bp: nat) returns (r: nat)
      requires Ready({bp}) && bp in shape.free && CoalescedBut(shape, bp)
      modifies mem, `shape
      ensures Valid() && shape.end == old(shape.end)
      ensures old(HasPrev(shape, bp)) && r == old(JoinStart(shape, bp))
      ensures shape.next == old(CutNext(shape.next, JoinStart(shape, bp), JoinEnd(shape, bp), JoinEnd(shape, bp)))
      ensures shape.free
        == old(CutFree(shape.free, JoinStart(shape, bp), JoinEnd(shape, bp), JoinEnd(shape, bp), true, false))
      ensures LiveBlocks(shape) == old(LiveBlocks(shape))
      ensures r in shape.free && r <= bp && old(shape.next[bp]) <= shape.next[r]
      ensures Keeps(old(mem[..]), old(shape), mem[..], shape, old(LiveBlocks(shape)))
    {
      hide Tiling, Tagged, Sorted, AllLinked, Keeps, CoalescedBut, Coalesced, IsAlloc, SizeOf, CutNext, CutFree,
        LiveBlocks;
      ghost var m, g := mem[..], shape;
      FreeFacts(g, {bp});
      NextNeighbour(m, g, bp);
      PrevNeighbour(m, g, bp);
      var prevAlloc := IsAlloc(mem[Footer(mem[..], PrevBlock(mem[..], bp))]);
      var nextAlloc := IsAlloc(mem[NextBlock(mem[..], bp) - 1]);
      r := bp;
      if prevAlloc && nextAlloc {
        JoinAlone(m, g, bp);
        KeepsSelf(m, g);
        assert {} + {bp} == {bp};
        JoinStep(m, g, bp, m, g, {});
      } else if prevAlloc && !nextAlloc {
        JoinNext(bp);
      } else if !prevAlloc && nextAlloc {
        r := JoinPrev(bp);
      } else {
        r := JoinBoth(bp);
      }
      ghost var m1, g1 := mem[..], shape;
      FreeFacts(g1, {r});
      InsertReady(m1, g1, r, {r});
      Insert(r);
      assert {r} - {r} == {};
      shape := WithInserted(g1, r);
      Finish(m, g, bp, m1, g1, mem[..], shape);
      JoinLive(g, bp, shape);
    }

    // Moves the break, unless the heap would outgrow its store; the argument of sbrk
    // is a signed int.
    method Sbrk(incr: nat) returns (oldBrk: int)
      requires incr < 0x1_0000_0000 && incr % 4 == 0 && mem.Length < MAX_WORDS
      modifies `brk
      ensures oldBrk == -1 <==> 4 * old(brk) + incr > 4 * mem.Length
      ensures oldBrk != -1 ==> oldBrk == old(brk) && 4 * brk == 4 * old(brk) + incr
      ensures oldBrk == -1 ==> brk == old(brk)
    {
      if incr >= 0x8000_0000 || 4 * brk + incr > 4 * mem.Length {
        return -1;
      }
      oldBrk := brk;
      brk := brk + incr / 4;
    }

    // Grows the heap by a free block, joined with the last one if that is free too.
    method Extend(words: nat) returns (bp: nat)
      requires Valid() && 3 <= words < 0x3fff_ffff
      modifies this, mem
      ensures Valid()
      ensures bp == NULL <==> old(brk) + words + words % 2 > mem.Length
      ensures bp == NULL ==> shape == old(shape) && mem[..] == old(mem[..])
      ensures bp != NULL ==> shape.end == old(shape.end) + words + words % 2
      ensures bp != NULL ==> Fits(shape, bp, 4 * words)
      ensures bp != NULL ==> LiveBlocks(shape) == old(LiveBlocks(shape))
      ensures bp != NULL ==> Keeps(old(mem[..]), old(shape), mem[..], shape, old(LiveBlocks(shape)))
    {
      hide Tiling, Tagged, Sorted, AllLinked, Coalesced, Keeps, LiveBlocks, CutNext, CutFree, SizeOf, CoalescedBut;
      ghost var m, g := mem[..], shape;
      var size := if words % 2 == 1 then (words + 1) * 4 else words * 4;
      var p := Sbrk(size);
      if p == -1 {
        return NULL;
      }
      bp := p;
      ghost var n := bp + size / 4;
      GrowReady(m, g, n);
      PutBoth(bp, size, false);
      TagRead(m, bp, n, false);
      mem[NextBlock(mem[..], bp) - 1] := Pack(0, true);
      assert mem[..] == GrowMem(m, bp, n);
      shape := Grown(g, n);
      ghost var m1, g1 := mem[..], shape;

      bp := Coalesce(bp);
      FreeFacts(shape, {});
      KeepsTransitive(m, g, m1, g1, mem[..], shape, LiveBlocks(g));
    }

    // The first block that is large enough, in the lists from the class of size on.
    method Fit(size: nat) returns (bp: nat)
      requires Valid() && size >= 16
      ensures bp == NULL <==> forall b :: !Fits(shape, b, size)
      ensures bp != NULL ==> Fits(shape, bp, size)
      ensures bp != NULL ==> |shape.lists| == LISTSIZE && exists c: nat, k: nat :: FirstFit(shape, size, bp, c, k)
    {
      hide Tiling, Tagged, AllLinked, Coalesced, SizeOf;
      FreeFacts(shape, {});
      ClassRange(size);
      var listClass := CalculateClass(size);
      for i := listClass to LISTSIZE
        invariant forall c :: listClass <= c < i && 0 <= c < LISTSIZE ==> NoneFits(shape, c, size)
      {
        ghost var l, k := shape.lists[i], 0;
        ListHead(mem[..], shape, i);
        bp := mem[PROLOGUE + i];
        while bp != NULL
          invariant 0 <= k <= |l| && bp == if k < |l| then l[k] else NULL
          invariant k < |l| ==> bp in l
          invariant forall j :: 0 <= j < k ==> !Fits(shape, l[j], size)
          decreases |l| - k
        {
          ListEntry(mem[..], shape, i, k);
          if size <= SizeOf(mem[bp - 1]) {
            assert Fits(shape, bp, size);
            assert FirstFit(shape, size, bp, i, k);
            return;
          }
          bp := mem[bp + 1];
          k := k + 1;
        }
        assert NoneFits(shape, i, size);
      }
      ScanIsComplete(shape, size);
      return NULL;
    }

    // Takes bp into use; what is left over becomes a free block if it can hold one.
    method Place(bp: nat, size: nat)
      requires Valid() && size % 8 == 0 && size >= 16 && Fits(shape, bp, size)
      modifies mem, `shape
      ensures Valid() && shape.end == old(shape.end)
      ensures Live(shape, bp) && bp <= shape.next[bp] && size <= Bytes(shape, bp) < size + 16
      ensures LiveBlocks(shape) == old(LiveBlocks(shape)) + {bp} && bp !in old(LiveBlocks(shape))
      ensures Keeps(old(mem[..]), old(shape), mem[..], shape, old(LiveBlocks(shape)))
    {
      hide Tiling, Tagged, Sorted, AllLinked, Keeps, Coalesced, SizeOf, DeleteMem, CanDelete, InsertMem, CanInsert,
        Class, LiveBlocks, TagMem;
      ghost var m, g := mem[..], shape;
      FreeFacts(g, {});
      ghost var n := g.next[bp];
      BlockBytes(g, bp);
      Quarter(size);
      QuarterRest(Bytes(g, bp), size);
      SizeAfterDelete(m, g, bp);
      FreeIsNotLive(g, bp);

      Delete(bp);
      ghost var m1 := mem[..];
      var csize := SizeOf(mem[bp - 1]);
      if csize - size >= 16 {
        ghost var mid := bp + size / 4;
        ghost var s1, s2, s3, g' := PlaceSplit(m, g, bp, mid);
        PutBoth(bp, size, true);
        TagRead(m1, bp, mid, true);
        var rest := NextBlock(mem[..], bp);
        PutBoth(rest, csize - size, false);
        assert mem[..] == s2;
        Insert(rest);
        shape := g';
      } else {
        ghost var s1, s2, g' := PlaceWhole(m, g, bp);
        PutBoth(bp, csize, true);
        shape := g';
      }
    }

    method Init() returns (ok: bool)
      requires brk == 0 && mem.Length < MAX_WORDS
      modifies this, mem
      ensures ok <==> mem.Length >= FIRST + CHUNKSIZE / 4
      ensures mem.Length >= FIRST ==> Valid() && LiveBlocks(shape) == {}
      ensures ok ==> shape.end == FIRST + CHUNKSIZE / 4
    {
      hide Tiling, Tagged, Sorted, AllLinked, Coalesced, LiveBlocks, Keeps, Fits;
      var heap := Sbrk((LISTSIZE + 4) * 4);
      if heap == -1 {
        return false;
      }
      mem[heap] := 0;
      mem[heap + 1] := Pack((LISTSIZE + 2) * 4, true);
      for i := 0 to LISTSIZE
        invariant brk == FIRST && mem[1] == Pack(88, true)
        invariant forall j :: PROLOGUE <= j < PROLOGUE + i ==> mem[j] == NULL
      {
        mem[heap + 2 + i] := NULL;
      }
      mem[heap + LISTSIZE + 2] := Pack((LISTSIZE + 2) * 4, true);
      mem[heap + LISTSIZE + 3] := Pack(0, true);
      shape := FirstShape();
      FirstHeap(mem[..]);
      var bp := Extend(CHUNKSIZE / 4);
      ok := bp != NULL;
    }

    // Whether a block of asize bytes can be had, from the lists or from sbrk.
    ghost predicate Serves(asize: nat)
      reads this, mem
    {
      || (exists b :: Fits(shape, b, asize))
      || 4 * brk + (if asize > CHUNKSIZE then asize else CHUNKSIZE) <= 4 * mem.Length
    }

    method Malloc(size: nat) returns (bp: nat)
      requires Valid() && size <= 0xffff_fff0
      modifies this, mem
      ensures Valid()
      ensures bp == NULL <==> size == 0 || !old(Serves(Adjusted(size)))
      ensures bp == NULL ==> mem[..] == old(mem[..]) && shape == old(shape)
      ensures bp != NULL ==> Allocated(old(mem[..]), old(shape), bp, size, mem[..], shape)
      ensures bp != NULL ==> bp <= shape.next[bp] && Bytes(shape, bp) < Adjusted(size) + 16
      ensures bp != NULL && old(exists b :: Fits(shape, b, Adjusted(size))) ==> bp in old(shape.free)
      ensures bp == NULL || old(exists b :: Fits(shape, b, Adjusted(size))) ==> shape.end == old(shape.end)
      ensures bp != NULL && !old(exists b :: Fits(shape, b, Adjusted(size))) ==>
        4 * shape.end == 4 * old(shape.end) + if Adjusted(size) > CHUNKSIZE then Adjusted(size) else CHUNKSIZE
    {
      hide Tiling, Tagged, Sorted, AllLinked, Coalesced, LiveBlocks, Keeps, FirstFit;
      if size == 0 {
        return NULL;
      }
      AdjustedHolds(size);
      var asize := if size <= 8 then 16 else 8 * ((size + 15) % 0x1_0000_0000 / 8);
      ghost var m, g := mem[..], shape;
      bp := Fit(asize);
      if bp != NULL {
        Place(bp, asize);
        LiveBounds(mem[..], shape, bp);
        return;
      }
      var extendsize := if asize > CHUNKSIZE then asize else CHUNKSIZE;
      Quarter(asize);
      bp := Extend(extendsize / 4);
      if bp == NULL {
        return;
      }
      ghost var m1, g1 := mem[..], shape;
      assert Fits(shape, bp, 4 * (extendsize / 4)) && 4 * (extendsize / 4) >= asize;
      Place(bp, asize);
      LiveBounds(mem[..], shape, bp);
      KeepsTransitive(m, g, m1, g1, mem[..], shape, LiveBlocks(g));
    }

    method Free(bp: nat)
      requires Valid() && Live(shape, bp)
      modifies mem, `shape
      ensures Valid() && shape.end == old(shape.end)
      ensures LiveBlocks(shape) == old(LiveBlocks(shape)) - {bp}
      ensures Keeps(old(mem[..]), old(shape), mem[..], shape, LiveBlocks(shape))
    {
      hide Tiling, Tagged, Sorted, AllLinked, Coalesced, LiveBlocks, Keeps, SizeOf, CoalescedBut, CutNext, CutFree;
      ghost var m, g := mem[..], shape;
      NextNeighbour(m, g, bp);
      BlockBytes(g, bp);
      ReleaseStep(m, g, bp);
      var size := SizeOf(mem[bp - 1]);
      PutBoth(bp, size, false);
      shape := g.(free := g.free + {bp});
      ghost var m1, g1 := mem[..], shape;
      var r := Coalesce(bp);
      KeepsTransitive(m, g, m1, g1, mem[..], shape, LiveBlocks(shape));
    }

    // A user writes into a live block.
    method Store(bp: nat, i: nat, v: nat)
      requires Valid() && Live(shape, bp) && InPayload(shape, bp, i) && i < mem.Length
      modifies mem
      ensures Valid() && mem[..] == old(mem[..])[i := v]
    {
      PayloadWrite(mem[..], shape, bp, i, v);
      hide Tiling, Tagged, Sorted, AllLinked, Coalesced;
      mem[i] := v;
      assert mem[..] == old(mem[..])[i := v];
    }

    // The request is for more than the block has, as mm_realloc computes it.
    ghost predicate Grows(ptr: nat, size: nat)
      reads this
      requires ptr in shape.next && ptr <= shape.next[ptr]
    {
      Space(Bytes(shape, ptr), Adjusted(size)) < 0
    }

    // The bytes of ptr, with those of the block after it.
    ghost function Together(ptr: nat): nat
      reads this
      requires ptr in shape.next && ptr <= shape.next[ptr]
    {
      var n := shape.next[ptr];
      Bytes(shape, ptr) + if n in shape.next && n <= shape.next[n] then Bytes(shape, n) else 0
    }

    // The block should grow but the free block that follows is too small.
    ghost predicate Stuck(ptr: nat, size: nat)
      reads this
      requires ptr in shape.next && ptr <= shape.next[ptr]
    {
      Grows(ptr, size) && shape.next[ptr] in shape.free && Together(ptr) < Adjusted(size)
    }

    // The second case of mm_realloc: the block grows into the free one that follows.
    method GrowInPlace(ptr: nat, asize: nat)
      requires Valid() && Live(shape, ptr) && asize % 8 == 0
      requires shape.next[ptr] in shape.free && shape.next[ptr] in shape.next
      requires ptr <= shape.next[ptr] <= shape.next[shape.next[ptr]]
      requires Bytes(shape, ptr) < asize && asize + 16 <= Together(ptr)
      modifies mem, `shape
      ensures Valid() && shape.end == old(shape.end)
      ensures Live(shape, ptr) && ptr <= shape.next[ptr] && Bytes(shape, ptr) == asize
      ensures LiveBlocks(shape) == old(LiveBlocks(shape))
      ensures Keeps(old(mem[..]), old(shape), mem[..], shape, old(LiveBlocks(shape)) - {ptr})
      ensures HoldsOld(old(mem[..]), old(shape), ptr, mem[..], ptr)
    {
      hide Tiling, Tagged, Sorted, AllLinked, Coalesced, LiveBlocks, Keeps, SizeOf, DeleteMem, CanDelete, InsertMem,
        CanInsert, Class, HoldsOld, TagMem;
      ghost var m, g := mem[..], shape;
      ghost var c := g.next[ptr];
      ghost var mid, n := ptr + asize / 4, g.next[c];
      BlockBytes(g, ptr);
      BlockBytes(g, c);
      Quarter(asize);
      LiveBounds(m, g, ptr);
      NextNeighbour(m, g, ptr);
      SizeAfterDelete(m, g, c);
      ghost var m1, m2, m3, g' := GrowSteps(m, g, ptr, mid);
      QuarterSum(Bytes(g, ptr), Bytes(g, c));
      var sizesum := SizeOf(mem[ptr - 1]) + SizeOf(mem[NextBlock(mem[..], ptr) - 1]);
      QuarterRest(sizesum, asize);
      Delete(NextBlock(mem[..], ptr));
      PutBoth(ptr, asize, true);
      TagRead(m1, ptr, mid, true);
      var rest := NextBlock(mem[..], ptr);
      PutBoth(rest, sizesum - asize, false);
      assert mem[..] == m2;
      Insert(rest);
      shape := g';
    }

    // memcpy of n words into a live block.
    method Copy(to: nat, from: nat, n: nat)
      requires Valid() && Live(shape, to) && to + n + 2 <= shape.next[to] <= mem.Length && from + n <= mem.Length
      requires from + n <= to || to + n <= from
      modifies mem
      ensures Valid()
      ensures forall i :: 0 <= i < mem.Length && !(to <= i < to + n) ==> mem[i] == old(mem[i])
      ensures forall i :: to <= i < to + n ==> mem[i] == old(mem[from + (i - to)])
    {
      hide Tiling, Tagged, Sorted, AllLinked, Coalesced;
      for j := 0 to n
        invariant Valid()
        invariant forall i :: 0 <= i < mem.Length && !(to <= i < to + j) ==> mem[i] == old(mem[i])
        invariant forall i :: to <= i < to + j ==> mem[i] == old(mem[from + (i - to)])
      {
        Store(to, to + j, mem[from + j]);
      }
    }

    // The third case of mm_realloc: the contents move to a new block.
    method Relocate(ptr: nat, asize: nat) returns (r: nat)
      requires Valid() && Live(shape, ptr) && ptr <= shape.next[ptr]
      requires Bytes(shape, ptr) < asize <= 0xffff_fff0 && asize % 8 == 0 && Serves(Adjusted(asize))
      modifies this, mem
      ensures Valid() && r != NULL && shape.end >= old(shape.end)
      ensures Live(shape, r) && r <= shape.next[r] && Bytes(shape, r) >= asize + 8
      ensures r !in old(LiveBlocks(shape)) && LiveBlocks(shape) == old(LiveBlocks(shape)) - {ptr} + {r}
      ensures Keeps(old(mem[..]), old(shape), mem[..], shape, old(LiveBlocks(shape)) - {ptr})
      ensures HoldsOld(old(mem[..]), old(shape), ptr, mem[..], r)
    {
      hide Tiling, Tagged, Sorted, AllLinked, Coalesced, LiveBlocks, Keeps, SizeOf, HoldsOld;
      ghost var m, g := mem[..], shape;
      BlockBytes(g, ptr);
      NextNeighbour(m, g, ptr);
      IsLive(g, ptr);
      var csize := SizeOf(mem[ptr - 1]);
      r := Malloc(asize);
      ghost var m1, g1 := mem[..], shape;
      Quarter(csize);
      Quarter(asize);
      IsLive(g1, ptr);
      KeepsHolds(m, g, ptr, m1, g1, LiveBlocks(g));
      TwoApart(g1, ptr, r);
      BlockBytes(g1, r);
      LiveBounds(m1, g1, ptr);
      Copy(r, ptr, csize / 4);
      ghost var m2 := mem[..];
      CopyKeeps(m1, g1, r, csize / 4, m2);
      Free(ptr);
      RelocateHolds(m, g, ptr, m1, g1, r, m2, mem[..], shape);
    }

    // Resizes a live block. Growth into the next block must leave room for a free one,
    // and a block that has to move must find memory: the source checks neither.
    method Realloc(ptr: nat, size: nat) returns (r: nat)
      requires Valid() && Live(shape, ptr) && ptr <= shape.next[ptr] && size <= 0xffff_fff0
      requires Grows(ptr, size) && shape.next[ptr] in shape.free && !Stuck(ptr, size) ==>
        Together(ptr) >= Adjusted(size) + 16
      requires Grows(ptr, size) && shape.next[ptr] !in shape.free ==> Serves(Adjusted(Adjusted(size)))
      modifies this, mem
      ensures Valid() && shape.end >= old(shape.end)
      ensures size == 0 ==> r == NULL && mem[..] == old(mem[..]) && shape == old(shape)
      ensures size > 0 ==> HoldsOld(old(mem[..]), old(shape), ptr, mem[..], r)
      ensures size > 0 ==> Keeps(old(mem[..]), old(shape), mem[..], shape, old(LiveBlocks(shape)) - {ptr})
      ensures size > 0 ==> LiveBlocks(shape) == old(LiveBlocks(shape)) - {ptr} + {r}
      ensures size > 0 ==> (r == ptr <==> !old(Grows(ptr, size) && shape.next[ptr] !in shape.free))
      ensures size > 0 && r != ptr ==> r !in old(LiveBlocks(shape))
      ensures size > 0 ==> Live(shape, r) && r <= shape.next[r]
      ensures size > 0 && (!old(Grows(ptr, size)) || old(Stuck(ptr, size))) ==>
        mem[..] == old(mem[..]) && shape == old(shape)
      ensures size > 0 && old(Grows(ptr, size) && shape.next[ptr] in shape.free && !Stuck(ptr, size)) ==>
        Bytes(shape, r) == Adjusted(size)
      ensures size > 0 ==> (Bytes(shape, r) >= Adjusted(size)
                       <==> Adjusted(size) <= old(Bytes(shape, ptr)) + 0x8000_0000 && !old(Stuck(ptr, size)))
    {
      hide Tiling, Tagged, Sorted, AllLinked, Coalesced, LiveBlocks, Keeps, SizeOf, HoldsOld, IsAlloc, Space;
      ghost var m, g := mem[..], shape;
      NextNeighbour(m, g, ptr);
      BlockBytes(g, ptr);
      LiveBounds(m, g, ptr);
      IsLive(g, ptr);
      var csize := SizeOf(mem[ptr - 1]);
      if size == 0 {
        return NULL;
      }
      AdjustedHolds(size);
      StaysPut(m, g, ptr);
      var asize := if size <= 8 then 16 else 8 * ((size + 15) % 0x1_0000_0000 / 8);
      var space := Space(csize, asize);
      SpaceNegative(csize, asize);
      r := ptr;
      if space < 0 {
        if !IsAlloc(mem[NextBlock(mem[..], ptr) - 1]) {
          FreeFacts(g, {});
          BlockBytes(g, g.next[ptr]);
          var sizesum := csize + SizeOf(mem[NextBlock(mem[..], ptr) - 1]);
          if sizesum >= asize {
            GrowInPlace(ptr, asize);
          }
        } else {
          r := Relocate(ptr, asize);
        }
      }
    }
  }
}
