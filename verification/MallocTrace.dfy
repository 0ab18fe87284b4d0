// Whole runs of the allocator: a trace of requests, each block filled by its owner.
module MallocTrace {
  import opened MallocHeap
  import opened MallocBlocks
  import opened MallocCuts
  import opened MallocSteps
  import opened MallocPlacing
  import opened MallocMoving
  import opened MallocAllocator

  datatype Request = Alloc(id: nat, size: nat) | Resize(id: nat, size: nat) | Release(id: nat)

  datatype Block = Block(address: nat, size: nat)

  datatype Outcome = Granted(block: Block) | Refused | Released | Ignored

  datatype Snapshot = Snapshot(mem: Mem, shape: Shape)

  // The identifiers requested and not released since.
  function Held(requests: seq<Request>): set<nat> {
    if requests == [] then {}
    else
      var before := Held(requests[..|requests| - 1]);
      match requests[|requests| - 1]
      case Alloc(id, _) => before + {id}
      case Resize(_, _) => before
      case Release(id) => before - {id}
  }

  // Who owns which block, from what became of each request.
  function Owners(requests: seq<Request>, outcomes: seq<Outcome>): map<nat, Block>
    requires |requests| == |outcomes|
  {
    if requests == [] then map[]
    else
      var k := |requests| - 1;
      var before := Owners(requests[..k], outcomes[..k]);
      if !requests[k].Release? && outcomes[k].Granted? then before[requests[k].id := outcomes[k].block]
      else if requests[k].Release? && outcomes[k].Released? then before - {requests[k].id}
      else before
  }

  lemma {:induction false} OwnersHeld(requests: seq<Request>, outcomes: seq<Outcome>)
    requires |requests| == |outcomes|
    requires forall k :: 0 <= k < |requests| && requests[k].Release? && outcomes[k].Ignored? ==>
      requests[k].id !in Owners(requests[..k], outcomes[..k])
    requires forall k :: 0 <= k < |requests| && requests[k].Release? ==> outcomes[k] in {Released, Ignored}
    requires forall k :: 0 <= k < |requests| && requests[k].Resize? && outcomes[k].Granted? ==>
      requests[k].id in Owners(requests[..k], outcomes[..k])
    ensures Owners(requests, outcomes).Keys <= Held(requests)
  {
    if requests != [] {
      var k := |requests| - 1;
      forall j | 0 <= j < k
        ensures requests[..k][..j] == requests[..j] && outcomes[..k][..j] == outcomes[..j]
      {
      }
      OwnersHeld(requests[..k], outcomes[..k]);
    }
  }

  // A block of asize bytes can be had, from the lists or from the store of `capacity` words.
  ghost predicate Available(g: Shape, capacity: nat, asize: nat) {
    || (exists b :: Fits(g, b, asize))
    || 4 * g.end + (if asize > CHUNKSIZE then asize else CHUNKSIZE) <= 4 * capacity
  }

  // mm_realloc as the shape of the heap decides it: the block must grow, the block after
  // it is free, and both together are large enough.
  ghost predicate MustGrow(g: Shape, b: nat, size: nat)
    requires b in g.next && b <= g.next[b]
  {
    Space(Bytes(g, b), Adjusted(size)) < 0
  }

  ghost function WithNext(g: Shape, b: nat): nat
    requires b in g.next && b <= g.next[b]
  {
    var n := g.next[b];
    Bytes(g, b) + if n in g.next && n <= g.next[n] then Bytes(g, n) else 0
  }

  // The calls that mm_realloc can deal with: what it leaves of a free block has a list,
  // and a block that has to move finds another one.
  ghost predicate Resizable(g: Shape, capacity: nat, b: nat, size: nat)
    requires b in g.next && b <= g.next[b]
  {
    MustGrow(g, b, size) ==>
      if g.next[b] in g.free then WithNext(g, b) < Adjusted(size) || WithNext(g, b) >= Adjusted(size) + 16
      else Available(g, capacity, Adjusted(Adjusted(size)))
  }

  // What a block is good for after mm_realloc to `size`.
  ghost predicate Suffices(g: Shape, b: nat, size: nat)
    requires b in g.next && b <= g.next[b]
  {
    && Adjusted(size) <= Bytes(g, b) + 0x8000_0000
    && !(MustGrow(g, b, size) && g.next[b] in g.free && WithNext(g, b) < Adjusted(size))
  }

  // The block keeps its words, where it is or, if it must grow and a live block follows
  // it, in another one; nobody else's block changes.
  ghost predicate Resized(h: Snapshot, b: nat, size: nat, h': Snapshot, b': nat)
    requires b in h.shape.next && b <= h.shape.next[b]
  {
    && HoldsOld(h.mem, h.shape, b, h'.mem, b')
    && LiveBlocks(h'.shape) == LiveBlocks(h.shape) - {b} + {b'}
    && Keeps(h.mem, h.shape, h'.mem, h'.shape, LiveBlocks(h.shape) - {b})
    && (b' == b <==> !(MustGrow(h.shape, b, size) && h.shape.next[b] !in h.shape.free))
    && (b' == b || b' !in LiveBlocks(h.shape))
  }

  // What becomes of a request. One for an identifier that already has a block, or a
  // resize or release without one, is not made, nor a resize that mm_realloc cannot deal with.
  ghost predicate Served(h: Snapshot, owners: map<nat, Block>, r: Request, o: Outcome, h': Snapshot) {
    match r
    case Alloc(id, size) =>
      if id in owners then o == Ignored && h' == h
      else if size == 0 || !Available(h.shape, |h.mem|, Adjusted(size)) then o == Refused && h' == h
      else
        && o.Granted? && o.block.size == size
        && Allocated(h.mem, h.shape, o.block.address, size, h'.mem, h'.shape)
        && Bytes(h'.shape, o.block.address) < Adjusted(size) + 16
        && OwnedBy(h'.mem, h'.shape, o.block, id)
    case Resize(id, size) =>
      if id !in owners then o == Ignored && h' == h
      else
        var b := owners[id].address;
        && b in h.shape.next && b <= h.shape.next[b]
        && if !Resizable(h.shape, |h.mem|, b, size) then o == Ignored && h' == h
           else if size == 0 then o == Refused && h' == h
           else
             && o.Granted? && Resized(h, b, size, h', o.block.address)
             && o.block.size == (if Suffices(h.shape, b, size) then size else owners[id].size)
             && OwnedBy(h'.mem, h'.shape, o.block, id)
    case Release(id) =>
      if id !in owners then o == Ignored && h' == h
      else
        && o == Released
        && LiveBlocks(h'.shape) == LiveBlocks(h.shape) - {owners[id].address}
        && Keeps(h.mem, h.shape, h'.mem, h'.shape, LiveBlocks(h'.shape))
  }

  // The heaps through which a run goes, from the empty one, and what became of its requests.
  ghost predicate Ran(requests: seq<Request>, outcomes: seq<Outcome>, heaps: seq<Snapshot>) {
    && |outcomes| == |requests| && |heaps| == |requests| + 1
    && LiveBlocks(heaps[0].shape) == {} && heaps[0].shape.end == FIRST + CHUNKSIZE / 4
    && (forall h :: h in heaps ==> Heap(h.mem, h.shape))
    && forall k :: 0 <= k < |requests| ==> RanAt(requests, outcomes, heaps, k)
  }

  ghost predicate RanAt(requests: seq<Request>, outcomes: seq<Outcome>, heaps: seq<Snapshot>, k: nat)
    requires k < |requests| == |outcomes| && |heaps| == |requests| + 1
  {
    Served(heaps[k], Owners(requests[..k], outcomes[..k]), requests[k], outcomes[k], heaps[k + 1])
  }

  lemma RanFurther(requests: seq<Request>, outcomes: seq<Outcome>, heaps: seq<Snapshot>,
                   r: Request, o: Outcome, h: Snapshot)
    requires Ran(requests, outcomes, heaps) && Heap(h.mem, h.shape)
    requires Served(heaps[|requests|], Owners(requests, outcomes), r, o, h)
    ensures Ran(requests + [r], outcomes + [o], heaps + [h])
    ensures Owners(requests + [r], outcomes + [o]) ==
      if !r.Release? && o.Granted? then Owners(requests, outcomes)[r.id := o.block]
      else if r.Release? && o.Released? then Owners(requests, outcomes) - {r.id}
      else Owners(requests, outcomes)
  {
    hide Served, Owners, LiveBlocks, Heap;
    var requests', outcomes', heaps' := requests + [r], outcomes + [o], heaps + [h];
    forall k | 0 <= k < |requests'|
      ensures RanAt(requests', outcomes', heaps', k)
    {
      assert requests'[..k] == requests[..k] && outcomes'[..k] == outcomes[..k];
      if k < |requests| {
        assert RanAt(requests, outcomes, heaps, k);
      } else {
        assert requests[..k] == requests && outcomes[..k] == outcomes;
      }
    }
    OwnersFurther(requests, outcomes, r, o);
  }

  lemma OwnersFurther(requests: seq<Request>, outcomes: seq<Outcome>, r: Request, o: Outcome)
    requires |requests| == |outcomes|
    ensures Owners(requests + [r], outcomes + [o]) ==
      if !r.Release? && o.Granted? then Owners(requests, outcomes)[r.id := o.block]
      else if r.Release? && o.Released? then Owners(requests, outcomes) - {r.id}
      else Owners(requests, outcomes)
  {
    var k := |requests|;
    assert (requests + [r])[..k] == requests && (outcomes + [o])[..k] == outcomes;
  }

  lemma RanHeld(requests: seq<Request>, outcomes: seq<Outcome>, heaps: seq<Snapshot>)
    requires Ran(requests, outcomes, heaps)
    ensures Owners(requests, outcomes).Keys <= Held(requests)
  {
    hide Owners, Available, Allocated, OwnedBy, Keeps, LiveBlocks;
    forall k | 0 <= k < |requests| && requests[k].Release?
      ensures outcomes[k] in {Released, Ignored}
      ensures outcomes[k].Ignored? ==> requests[k].id !in Owners(requests[..k], outcomes[..k])
    {
      assert RanAt(requests, outcomes, heaps, k);
    }
    forall k | 0 <= k < |requests| && requests[k].Resize? && outcomes[k].Granted?
      ensures requests[k].id in Owners(requests[..k], outcomes[..k])
    {
      assert RanAt(requests, outcomes, heaps, k);
    }
    OwnersHeld(requests, outcomes);
  }

  // The block is live, aligned, in the heap, large enough, and holds its owner's mark.
  ghost predicate OwnedBy(m: Mem, g: Shape, b: Block, id: nat) {
    && Live(g, b.address) && b.address % 2 == 0
    && b.address <= g.next[b.address] <= g.end <= |m| && Bytes(g, b.address) >= b.size + 8
    && (forall i :: 0 <= i < |m| && InPayload(g, b.address, i) ==> m[i] == id)
  }

  // The live blocks are those of the owners, each its own.
  ghost predicate Sound(m: Mem, g: Shape, owners: map<nat, Block>) {
    && (forall x :: x in owners ==> OwnedBy(m, g, owners[x], x))
    && (forall x, y :: x in owners && y in owners && x != y ==> owners[x].address != owners[y].address)
    && (forall b :: b in LiveBlocks(g) ==> exists x :: x in owners && owners[x].address == b)
  }

  lemma StillOwned(m: Mem, g: Shape, m': Mem, g': Shape, k: set<nat>, b: Block, id: nat)
    requires OwnedBy(m, g, b, id) && b.address in k && Keeps(m, g, m', g', k) && g'.end <= |m'| && g.end <= g'.end
    ensures OwnedBy(m', g', b, id)
  {
    forall i | 0 <= i < |m'| && InPayload(g', b.address, i)
      ensures m'[i] == id
    {
      assert InPayload(g, b.address, i);
    }
  }

  lemma AllocSound(m: Mem, g: Shape, owners: map<nat, Block>, m': Mem, g': Shape, id: nat, b: Block)
    requires Sound(m, g, owners) && id !in owners
    requires Allocated(m, g, b.address, b.size, m', g') && OwnedBy(m', g', b, id) && g.end <= g'.end
    ensures Sound(m', g', owners[id := b])
  {
    var owners' := owners[id := b];
    forall x | x in owners'
      ensures OwnedBy(m', g', owners'[x], x)
    {
      if x != id {
        StillOwned(m, g, m', g', LiveBlocks(g), owners[x], x);
      }
    }
    forall c | c in LiveBlocks(g')
      ensures exists x :: x in owners' && owners'[x].address == c
    {
      if c in LiveBlocks(g) {
        var x :| x in owners && owners[x].address == c;
        assert x in owners' && owners'[x].address == c;
      } else {
        assert id in owners' && owners'[id].address == c;
      }
    }
    hide OwnedBy, Keeps;
  }

  lemma ReleaseSound(m: Mem, g: Shape, owners: map<nat, Block>, m': Mem, g': Shape, id: nat)
    requires Sound(m, g, owners) && id in owners
    requires LiveBlocks(g') == LiveBlocks(g) - {owners[id].address} && g'.end == g.end && |m'| == |m|
    requires Keeps(m, g, m', g', LiveBlocks(g'))
    ensures Sound(m', g', owners - {id})
  {
    var owners' := owners - {id};
    forall x | x in owners'
      ensures OwnedBy(m', g', owners'[x], x)
    {
      IsLive(g, owners[x].address);
      StillOwned(m, g, m', g', LiveBlocks(g'), owners[x], x);
    }
    forall c | c in LiveBlocks(g')
      ensures exists x :: x in owners' && owners'[x].address == c
    {
      var x :| x in owners && owners[x].address == c;
      assert x in owners' && owners'[x].address == c;
    }
    hide OwnedBy, Keeps;
  }

  // The owner fills the block with its mark.
  method Fill(a: Allocator, bp: nat, id: nat)
    requires a.Valid() && Live(a.shape, bp)
    modifies a.mem
    ensures a.Valid()
    ensures forall i :: 0 <= i < a.mem.Length && InPayload(a.shape, bp, i) ==> a.mem[i] == id
    ensures forall i :: 0 <= i < a.mem.Length && !InPayload(a.shape, bp, i) ==> a.mem[i] == old(a.mem[i])
  {
    hide Tiling, Tagged, Sorted, AllLinked, Coalesced;
    NextNeighbour(a.mem[..], a.shape, bp);
    var end := NextBlock(a.mem[..], bp) - 2;
    for i := bp to end
      invariant a.Valid()
      invariant forall j :: bp <= j < i ==> a.mem[j] == id
      invariant forall j :: 0 <= j < a.mem.Length && !(bp <= j < i) ==> a.mem[j] == old(a.mem[j])
    {
      a.Store(bp, i, id);
    }
  }

  lemma FilledIsOwned(m: Mem, g: Shape, b: Block, id: nat, m1: Mem, g1: Shape)
    requires Allocated(m1, g1, b.address, b.size, m, g)
    requires forall i :: 0 <= i < |m| && InPayload(g, b.address, i) ==> m[i] == id
    ensures OwnedBy(m, g, b, id)
  {
  }

  // Filling the new block disturbs no other.
  lemma FillAllocated(m0: Mem, g0: Shape, bp: nat, size: nat, m: Mem, g: Shape, m': Mem)
    requires Tiling(g) && Allocated(m0, g0, bp, size, m, g) && |m'| == |m|
    requires forall i :: 0 <= i < |m| && !InPayload(g, bp, i) ==> m'[i] == m[i]
    ensures Allocated(m0, g0, bp, size, m', g)
  {
    forall b, i | b in LiveBlocks(g0) && 0 <= i < |m| && InPayload(g0, b, i)
      ensures m'[i] == m0[i]
    {
      LiveApart(g, b, bp, i);
    }
  }

  // From the empty heap, any trace of mm_malloc, mm_realloc and mm_free. A request is refused exactly
  // when no block can be had for it; each block that was granted and not released since is
  // as large as it was last asked to be, if that sufficed, and holds what its owner put there.
  method Replay(a: Allocator, requests: seq<Request>)
    returns (ok: bool, outcomes: seq<Outcome>, ghost heaps: seq<Snapshot>)
    requires a.brk == 0 && a.mem.Length < MAX_WORDS
    requires forall r :: r in requests && !r.Release? ==> r.size <= 0xffff_fff0
    modifies a, a.mem
    ensures ok <==> a.mem.Length >= FIRST + CHUNKSIZE / 4
    ensures ok ==> Ran(requests, outcomes, heaps) && heaps[|requests|] == Snapshot(a.mem[..], a.shape) && a.Valid()
    ensures ok ==> Sound(a.mem[..], a.shape, Owners(requests, outcomes))
    ensures ok && Held(requests) == {} ==> a.shape.free == {FIRST} && a.shape.next[FIRST] == a.shape.end
  {
    hide Tiling, Tagged, Sorted, AllLinked, Coalesced, LiveBlocks, Keeps, Sound, OwnedBy, Ran, Served, Owners;
    outcomes, heaps := [], [];
    var owners: map<nat, Block> := map[];
    ok := a.Init();
    if !ok {
      return;
    }
    NoOwners(a.mem[..], a.shape);
    heaps := [Snapshot(a.mem[..], a.shape)];
    RanNothing(heaps[0]);
    for k := 0 to |requests|
      invariant a.Valid() && a.shape.end >= FIRST + CHUNKSIZE / 4
      invariant |outcomes| == k && |heaps| == k + 1 && heaps[k] == Snapshot(a.mem[..], a.shape)
      invariant Ran(requests[..k], outcomes, heaps) && owners == Owners(requests[..k], outcomes)
      invariant Sound(a.mem[..], a.shape, owners)
    {
      assert requests[..k + 1] == requests[..k] + [requests[k]];
      var o;
      o, owners := Serve(a, requests[k], owners);
      RanFurther(requests[..k], outcomes, heaps, requests[k], o, Snapshot(a.mem[..], a.shape));
      outcomes, heaps := outcomes + [o], heaps + [Snapshot(a.mem[..], a.shape)];
    }
    assert requests[..|requests|] == requests;
    RanHeld(requests, outcomes, heaps);
    if owners == map[] {
      NoneLive(a.mem[..], a.shape);
      AllFreed(a.mem[..], a.shape);
    }
  }

  lemma RanNothing(h: Snapshot)
    requires LiveBlocks(h.shape) == {} && h.shape.end == FIRST + CHUNKSIZE / 4 && Heap(h.mem, h.shape)
    ensures Ran([], [], [h]) && Owners([], []) == map[]
  {
  }

  method Serve(a: Allocator, r: Request, owners: map<nat, Block>) returns (o: Outcome, owners': map<nat, Block>)
    requires a.Valid() && (!r.Release? ==> r.size <= 0xffff_fff0) && Sound(a.mem[..], a.shape, owners)
    modifies a, a.mem
    ensures a.Valid() && Sound(a.mem[..], a.shape, owners') && a.shape.end >= old(a.shape.end)
    ensures Served(Snapshot(old(a.mem[..]), old(a.shape)), owners, r, o, Snapshot(a.mem[..], a.shape))
    ensures owners' ==
      if !r.Release? && o.Granted? then owners[r.id := o.block]
      else if r.Release? && o.Released? then owners - {r.id}
      else owners
  {
    hide Tiling, Tagged, Sorted, AllLinked, Coalesced, LiveBlocks, Keeps, Sound, OwnedBy, Available, Allocated;
    o, owners' := Ignored, owners;
    match r
    case Alloc(id, size) =>
      if id !in owners {
        o, owners' := Grant(a, id, size, owners);
      }
    case Resize(id, size) =>
      if id in owners {
        OwnedIsLive(a.mem[..], a.shape, owners, id);
        var b := CanResize(a, owners[id].address, size);
        if b {
          o, owners' := Regrant(a, id, size, owners);
        }
      }
    case Release(id) =>
      if id in owners {
        owners' := Return(a, id, owners);
        o := Released;
      }
  }

  lemma NoOwners(m: Mem, g: Shape)
    requires LiveBlocks(g) == {}
    ensures Sound(m, g, map[])
  {
  }

  lemma NoneLive(m: Mem, g: Shape)
    requires Sound(m, g, map[])
    ensures LiveBlocks(g) == {}
  {
  }

  method Grant(a: Allocator, id: nat, size: nat, owners: map<nat, Block>)
    returns (o: Outcome, owners': map<nat, Block>)
    requires a.Valid() && size <= 0xffff_fff0 && id !in owners && Sound(a.mem[..], a.shape, owners)
    modifies a, a.mem
    ensures a.Valid() && Sound(a.mem[..], a.shape, owners') && a.shape.end >= old(a.shape.end)
    ensures Served(Snapshot(old(a.mem[..]), old(a.shape)), owners, Alloc(id, size), o, Snapshot(a.mem[..], a.shape))
    ensures owners' == if o.Granted? then owners[id := o.block] else owners
  {
    hide Tiling, Tagged, Sorted, AllLinked, Coalesced, LiveBlocks, Keeps, Sound, OwnedBy;
    ghost var m, g := a.mem[..], a.shape;
    assert a.Serves(Adjusted(size)) <==> Available(g, |m|, Adjusted(size));
    var bp := a.Malloc(size);
    if bp == NULL {
      return Refused, owners;
    }
    ghost var m1, g1 := a.mem[..], a.shape;
    Fill(a, bp, id);
    FillAllocated(m, g, bp, size, m1, g1, a.mem[..]);
    FilledIsOwned(a.mem[..], g1, Block(bp, size), id, m, g);
    AllocSound(m, g, owners, a.mem[..], g1, id, Block(bp, size));
    return Granted(Block(bp, size)), owners[id := Block(bp, size)];
  }

  lemma OwnedIsLive(m: Mem, g: Shape, owners: map<nat, Block>, id: nat)
    requires Sound(m, g, owners) && id in owners
    ensures Live(g, owners[id].address) && owners[id].address <= g.next[owners[id].address]
    ensures Bytes(g, owners[id].address) >= owners[id].size + 8
    ensures forall i :: 0 <= i < |m| && InPayload(g, owners[id].address, i) ==> m[i] == id
  {
    assert OwnedBy(m, g, owners[id], id);
  }

  // Whether mm_realloc can deal with the request, from the tags and the lists.
  method CanResize(a: Allocator, ptr: nat, size: nat) returns (b: bool)
    requires a.Valid() && Live(a.shape, ptr) && ptr <= a.shape.next[ptr] && size <= 0xffff_fff0
    ensures b == Resizable(a.shape, a.mem.Length, ptr, size)
  {
    hide Tiling, Tagged, Sorted, AllLinked, Coalesced, SizeOf, IsAlloc, Space, FirstFit;
    ghost var m, g := a.mem[..], a.shape;
    NextNeighbour(m, g, ptr);
    BlockBytes(g, ptr);
    LiveBounds(m, g, ptr);
    var csize, asize := SizeOf(a.mem[ptr - 1]), Adjusted(size);
    SpaceNegative(csize, asize);
    if Space(csize, asize) >= 0 {
      return true;
    }
    var next := NextBlock(a.mem[..], ptr);
    if !IsAlloc(a.mem[next - 1]) {
      FreeIsBlock(g, next);
      var sizesum := csize + SizeOf(a.mem[next - 1]);
      return sizesum < asize || sizesum >= asize + 16;
    }
    var want := Adjusted(asize);
    AdjustedHolds(asize);
    var bp := a.Fit(want);
    return bp != NULL || 4 * a.brk + (if want > CHUNKSIZE then want else CHUNKSIZE) <= 4 * a.mem.Length;
  }

  lemma FreeIsBlock(g: Shape, b: nat)
    requires Tiling(g) && b in g.free
    ensures b in g.next
  {
  }

  lemma ResizeSound(h: Snapshot, owners: map<nat, Block>, h': Snapshot, id: nat, size: nat, b': Block)
    requires Sound(h.mem, h.shape, owners) && id in owners && h.shape.end <= h'.shape.end <= |h'.mem|
    requires owners[id].address in h.shape.next && owners[id].address <= h.shape.next[owners[id].address]
    requires Resized(h, owners[id].address, size, h', b'.address) && OwnedBy(h'.mem, h'.shape, b', id)
    ensures Sound(h'.mem, h'.shape, owners[id := b'])
  {
    hide HoldsOld, MustGrow;
    var b, owners' := owners[id].address, owners[id := b'];
    forall x | x in owners'
      ensures OwnedBy(h'.mem, h'.shape, owners'[x], x)
    {
      if x != id {
        OwnedIsLive(h.mem, h.shape, owners, x);
        StillOwned(h.mem, h.shape, h'.mem, h'.shape, LiveBlocks(h.shape) - {b}, owners[x], x);
      }
    }
    forall x | x in owners && x != id
      ensures owners[x].address != b'.address
    {
      OwnedIsLive(h.mem, h.shape, owners, x);
    }
    forall c | c in LiveBlocks(h'.shape)
      ensures exists x :: x in owners' && owners'[x].address == c
    {
      if c == b'.address {
        assert id in owners' && owners'[id].address == c;
      } else {
        var x :| x in owners && owners[x].address == c;
        assert x in owners' && owners'[x].address == c;
      }
    }
    hide OwnedBy, Keeps;
  }

  // The owner fills the rest of the block; the words it had are its mark already.
  lemma FillResized(h: Snapshot, b: nat, size: nat, h1: Snapshot, r: nat, m': Mem, id: nat)
    requires b in h.shape.next && b <= h.shape.next[b] && Resized(h, b, size, h1, r)
    requires Tiling(h1.shape) && Live(h1.shape, r) && |m'| == |h1.mem|
    requires forall i :: 0 <= i < |h.mem| && InPayload(h.shape, b, i) ==> h.mem[i] == id
    requires forall i :: 0 <= i < |m'| && InPayload(h1.shape, r, i) ==> m'[i] == id
    requires forall i :: 0 <= i < |m'| && !InPayload(h1.shape, r, i) ==> m'[i] == h1.mem[i]
    ensures Resized(h, b, size, Snapshot(m', h1.shape), r)
  {
    hide MustGrow, Tiling;
    forall c, i | c in LiveBlocks(h.shape) - {b} && 0 <= i < |m'| && InPayload(h.shape, c, i)
      ensures m'[i] == h.mem[i]
    {
      assert h1.mem[i] == h.mem[i];
      LiveApart(h1.shape, c, r, i);
    }
  }

  method Regrant(a: Allocator, id: nat, size: nat, owners: map<nat, Block>)
    returns (o: Outcome, owners': map<nat, Block>)
    requires a.Valid() && size <= 0xffff_fff0 && id in owners && Sound(a.mem[..], a.shape, owners)
    requires owners[id].address in a.shape.next && owners[id].address <= a.shape.next[owners[id].address]
    requires Resizable(a.shape, a.mem.Length, owners[id].address, size)
    modifies a, a.mem
    ensures a.Valid() && Sound(a.mem[..], a.shape, owners') && a.shape.end >= old(a.shape.end)
    ensures Served(Snapshot(old(a.mem[..]), old(a.shape)), owners, Resize(id, size), o, Snapshot(a.mem[..], a.shape))
    ensures owners' == if o.Granted? then owners[id := o.block] else owners
  {
    hide Tiling, Tagged, Sorted, AllLinked, Coalesced, LiveBlocks, Keeps, Sound, OwnedBy, HoldsOld, Space;
    ghost var h := Snapshot(a.mem[..], a.shape);
    var b := owners[id];
    OwnedIsLive(h.mem, h.shape, owners, id);
    var r := a.Realloc(b.address, size);
    if size == 0 {
      return Refused, owners;
    }
    ghost var h1 := Snapshot(a.mem[..], a.shape);
    LiveBounds(h.mem, h.shape, b.address);
    InsufficientStays(h.shape, b.address, size);
    assert Bytes(h1.shape, r) >= Adjusted(size) <==> Suffices(h.shape, b.address, size);
    assert !Suffices(h.shape, b.address, size) ==> h1 == h && r == b.address;
    Fill(a, r, id);
    ghost var h2 := Snapshot(a.mem[..], a.shape);
    FillResized(h, b.address, size, h1, r, h2.mem, id);
    NextNeighbour(h2.mem, h2.shape, r);
    LiveBounds(h2.mem, h2.shape, r);
    AdjustedHolds(size);
    var block := Block(r, if SizeOf(a.mem[r - 1]) >= Adjusted(size) then size else b.size);
    FilledResized(h2, block, id);
    ResizeSound(h, owners, h2, id, size, block);
    return Granted(block), owners[id := block];
  }

  // A block that does not suffice stays as it is.
  lemma InsufficientStays(g: Shape, b: nat, size: nat)
    requires b in g.next && b <= g.next[b] && Bytes(g, b) < 0x8000_0000 && Adjusted(size) < 0x1_0000_0000
    ensures Suffices(g, b, size) || !MustGrow(g, b, size) || (g.next[b] in g.free && WithNext(g, b) < Adjusted(size))
  {
    SpaceNegative(Bytes(g, b), Adjusted(size));
  }

  lemma FilledResized(h: Snapshot, b: Block, id: nat)
    requires Live(h.shape, b.address) && b.address % 2 == 0
    requires b.address <= h.shape.next[b.address] <= h.shape.end <= |h.mem|
    requires Bytes(h.shape, b.address) >= b.size + 8
    requires forall i :: 0 <= i < |h.mem| && InPayload(h.shape, b.address, i) ==> h.mem[i] == id
    ensures OwnedBy(h.mem, h.shape, b, id)
  {
  }

  method Return(a: Allocator, id: nat, owners: map<nat, Block>) returns (owners': map<nat, Block>)
    requires a.Valid() && id in owners && Sound(a.mem[..], a.shape, owners)
    modifies a, a.mem
    ensures a.Valid() && Sound(a.mem[..], a.shape, owners') && a.shape.end == old(a.shape.end)
    ensures owners' == owners - {id}
    ensures LiveBlocks(a.shape) == old(LiveBlocks(a.shape)) - {owners[id].address}
    ensures Keeps(old(a.mem[..]), old(a.shape), a.mem[..], a.shape, LiveBlocks(a.shape))
  {
    hide Tiling, Tagged, Sorted, AllLinked, Coalesced, LiveBlocks, Keeps;
    ghost var m, g := a.mem[..], a.shape;
    assert OwnedBy(m, g, owners[id], id);
    a.Free(owners[id].address);
    ReleaseSound(m, g, owners, a.mem[..], a.shape, id);
    return owners - {id};
  }
}
