// What the single steps of the allocator do to a consistent heap: list operations,
// merging, splitting, freeing and growing.
module MallocBlocks {
  import opened MallocHeap
  import opened MallocLists

  // The blocks of k are live before and after, as large as before, and hold the same
  // words.
  ghost predicate Keeps(m: Mem, g: Shape, m': Mem, g': Shape, k: set<nat>) {
    && |m'| == |m|
    && (forall b :: b in k ==> Live(g, b) && Live(g', b) && g'.next[b] == g.next[b])
    && (forall b, i :: b in k && 0 <= i < |m| && InPayload(g, b, i) ==> m'[i] == m[i])
  }

  lemma KeepsTransitive(m: Mem, g: Shape, m': Mem, g': Shape, m'': Mem, g'': Shape, k: set<nat>)
    requires Keeps(m, g, m', g', k) && Keeps(m', g', m'', g'', k)
    ensures Keeps(m, g, m'', g'', k)
  {
    forall b, i | b in k && 0 <= i < |m| && InPayload(g, b, i)
      ensures m''[i] == m[i]
    {
      assert InPayload(g', b, i);
    }
  }

  lemma LinksKeep(m: Mem, m': Mem, g: Shape, g': Shape, k: set<nat>)
    requires Tiling(g) && LinksOnly(m, m', g) && g'.next == g.next && g'.free == g.free
    requires forall b :: b in k ==> Live(g, b)
    ensures Keeps(m, g, m', g', k)
  {
    forall b, i | b in k && 0 <= i < |m| && InPayload(g, b, i)
      ensures m'[i] == m[i]
    {
      if m'[i] != m[i] {
        LinksAreNotPayload(g, b, i);
      }
    }
  }

  // ---- Reading tags

  lemma PackRead(t: nat, alloc: bool)
    ensures SizeOf(Pack(8 * t, alloc)) == 8 * t && IsAlloc(Pack(8 * t, alloc)) == alloc
  {
  }

  lemma BlockBytes(g: Shape, b: nat)
    requires Tiling(g) && b in g.next
    ensures b + 4 <= g.next[b] && Bytes(g, b) % 8 == 0 && Bytes(g, b) >= 16
    ensures g.next[b] == b + Bytes(g, b) / 4
  {
    assert Sized(b, g.next[b], g.end);
    hide Tiling;
    EvenBytes(g.next[b] - b);
  }

  lemma EvenBytes(n: nat)
    requires n % 2 == 0
    ensures 4 * n % 8 == 0 && 4 * n / 4 == n
  {
    var t := n / 2;
    assert 4 * n == 8 * t;
  }

  lemma Quarter(size: nat)
    requires size % 8 == 0
    ensures 4 * (size / 4) == size && size / 4 % 2 == 0
  {
    var t := size / 8;
    assert size == 8 * t;
  }

  lemma QuarterSum(a: nat, b: nat)
    requires a % 8 == 0 && b % 8 == 0
    ensures (a + b) % 8 == 0
  {
    var t, u := a / 8, b / 8;
    assert a + b == 8 * (t + u);
  }

  lemma QuarterRest(size: nat, part: nat)
    requires size % 8 == 0 && part % 8 == 0 && part <= size
    ensures (size - part) % 8 == 0 && 4 * ((size - part) / 4) == size - part
  {
    var t, u := size / 8, part / 8;
    assert size == 8 * t && part == 8 * u;
    assert size - part == 8 * (t - u);
  }

  lemma ReadTag(m: Mem, g: Shape, b: nat)
    requires Tiling(g) && Tagged(m, g) && b in g.next
    ensures b + 4 <= g.next[b] <= g.end <= |m| && b >= PROLOGUE
    ensures SizeOf(m[b - 1]) == SizeOf(m[g.next[b] - 2]) == Bytes(g, b) >= 16
    ensures IsAlloc(m[b - 1]) == IsAlloc(m[g.next[b] - 2]) == (b !in g.free)
    ensures g.next[b] == b + Bytes(g, b) / 4
  {
    hide SizeOf, IsAlloc, Pack;
    assert Sized(b, g.next[b], g.end);
    assert m[b - 1] == m[g.next[b] - 2] == Pack(Bytes(g, b), b !in g.free);
    BlockBytes(g, b);
    hide Tiling, Tagged;
    PackRead(Bytes(g, b) / 8, b !in g.free);
  }

  lemma ClassIs(m: Mem, g: Shape, b: nat)
    requires Tiling(g) && Tagged(m, g) && b in g.next
    ensures b + 4 <= g.next[b] && Class(m, b) == ClassOf(g, b)
  {
    ReadTag(m, g, b);
    assert Sized(b, g.next[b], g.end);
  }

  lemma FreeIsNode(g: Shape, b: nat)
    requires Tiling(g) && b in g.free
    ensures FIRST <= b && b % 2 == 0 && b + 4 <= g.end
  {
    assert Sized(b, g.next[b], g.end);
  }

  // ---- insert

  function WithInserted(g: Shape, bp: nat): Shape
    requires |g.lists| == LISTSIZE && bp in g.next && bp + 4 <= g.next[bp]
  {
    var c := ClassOf(g, bp);
    g.(lists := g.lists[c := Inserted(g.lists[c], bp)])
  }

  // The first two blocks of a list, whose links insert touches.
  lemma HeadOfList(m: Mem, g: Shape, c: nat, pending: set<nat>)
    requires Consistent(m, g, pending) && c < LISTSIZE
    ensures var l, h := g.lists[c], m[PROLOGUE + c];
      && (h == 0 <==> l == [])
      && (h != 0 ==> h == l[0] && h in g.free && h + 1 < |m|
                     && m[h + 1] == (if |l| > 1 then l[1] else 0)
                     && (m[h + 1] != 0 <==> |l| > 1)
                     && (|l| > 1 ==> l[1] in g.free && l[1] + 1 < |m|))
  {
    hide Tiling, Tagged;
    var l := g.lists[c];
    assert Linked(m, c, l);
    if l != [] {
      assert LinkedAt(m, l, 0) && l[0] in l;
      if |l| > 1 {
        assert LinkedAt(m, l, 1) && l[1] in l;
      }
    }
  }

  lemma InsertWrites(m: Mem, g: Shape, bp: nat)
    requires CanInsert(m, bp) && bp in g.free
    requires var h := m[PROLOGUE + Class(m, bp)];
      h != 0 ==> h in g.free && (m[h + 1] != 0 ==> m[h + 1] in g.free)
    ensures LinksOnly(m, InsertMem(m, bp), g)
  {
    hide CalClass;
  }

  lemma InsertPossible(m: Mem, g: Shape, bp: nat, pending: set<nat>)
    requires Consistent(m, g, pending) && bp in g.free
    ensures CanInsert(m, bp) && bp + 4 <= g.next[bp] && Class(m, bp) == ClassOf(g, bp)
    ensures LinksOnly(m, InsertMem(m, bp), g)
  {
    ClassIs(m, g, bp);
    FreeIsNode(g, bp);
    HeadOfList(m, g, ClassOf(g, bp), pending);
    hide Tiling, Sorted, AllLinked, CalClass, InsertMem, LinksOnly;
    InsertWrites(m, g, bp);
  }

  lemma InsertSorted(g: Shape, bp: nat, pending: set<nat>)
    requires Tiling(g) && Sorted(g, pending) && bp in g.free && bp in pending
    requires bp + 4 <= g.next[bp]
    ensures Tiling(WithInserted(g, bp)) && Sorted(WithInserted(g, bp), pending - {bp})
  {
    var c, g' := ClassOf(g, bp), WithInserted(g, bp);
    assert bp !in g.lists[c] by {
      assert !Belongs(g, pending, c, bp);
    }
    InsertedElements(g.lists[c], bp);
    SameTiling(g, g');
    forall d, b | 0 <= d < LISTSIZE && b in g'.lists[d]
      ensures Belongs(g', pending - {bp}, d, b)
    {
      assert b == bp || Belongs(g, pending, d, b);
    }
    forall b | b in g'.free && b !in pending - {bp}
      ensures b in g'.lists[ClassOf(g', b)]
    {
      assert b == bp || b in g.lists[ClassOf(g, b)];
    }
  }

  lemma SameTiling(g: Shape, g': Shape)
    requires Tiling(g) && g'.next == g.next && g'.free == g.free && g'.end == g.end
    ensures Tiling(g')
  {
    forall b
      ensures HasNext(g', b)
    {
      assert HasNext(g, b);
    }
    forall c | (c in g'.next || c == g'.end) && c != PROLOGUE
      ensures HasPrev(g', c)
    {
      assert HasPrev(g, c);
    }
  }

  // Lists of different classes have no block in common.
  lemma Elsewhere(g: Shape, pending: set<nat>, c: nat, d: nat)
    requires Tiling(g) && Sorted(g, pending) && c < LISTSIZE && d < LISTSIZE && c != d
    ensures forall x :: x in g.lists[d] ==> x !in g.lists[c]
  {
    forall x | x in g.lists[d]
      ensures x !in g.lists[c]
    {
      assert Belongs(g, pending, d, x);
      assert !Belongs(g, pending, c, x);
    }
  }

  lemma InsertStep(m: Mem, g: Shape, bp: nat, pending: set<nat>)
    requires Consistent(m, g, pending) && bp in g.free && bp in pending
    ensures CanInsert(m, bp) && bp + 4 <= g.next[bp]
    ensures LinksOnly(m, InsertMem(m, bp), g)
    ensures Consistent(InsertMem(m, bp), WithInserted(g, bp), pending - {bp})
  {
    InsertPossible(m, g, bp, pending);
    FreeIsNode(g, bp);
    InsertSorted(g, bp, pending);
    var c, m', g' := ClassOf(g, bp), InsertMem(m, bp), WithInserted(g, bp);
    LinksKeepTags(m, m', g);
    forall d: nat | d < LISTSIZE
      ensures Linked(m', d, g'.lists[d])
    {
      InsertLinks(m, g, bp, pending, d);
    }
    SameTags(m', g, g');
  }

  lemma SameTags(m: Mem, g: Shape, g': Shape)
    requires Tiling(g) && Tagged(m, g) && Tiling(g') && g'.next == g.next && g'.free == g.free && g'.end == g.end
    ensures Tagged(m, g')
  {
  }

  lemma InsertLinks(m: Mem, g: Shape, bp: nat, pending: set<nat>, d: nat)
    requires Consistent(m, g, pending) && bp in g.free && bp in pending && d < LISTSIZE
    requires CanInsert(m, bp) && bp + 4 <= g.next[bp] && Class(m, bp) == ClassOf(g, bp)
    ensures Linked(InsertMem(m, bp), d, WithInserted(g, bp).lists[d])
  {
    hide InsertMem, CalClass;
    FreeIsNode(g, bp);
    var c := ClassOf(g, bp);
    assert Linked(m, c, g.lists[c]) && Linked(m, d, g.lists[d]);
    if d == c {
      InsertOne(m, g.lists[c], bp);
    } else {
      Elsewhere(g, pending, c, d);
      InsertElsewhere(m, g.lists[c], bp, d, g.lists[d]);
    }
  }

  // A block being inserted is not yet the head of its list.
  lemma HeadIsOther(m: Mem, g: Shape, bp: nat, pending: set<nat>)
    requires Consistent(m, g, pending) && bp in g.free && bp in pending
    ensures bp >= FIRST && CanInsert(m, bp) && m[PROLOGUE + Class(m, bp)] != bp
  {
    FreeIsNode(g, bp);
    InsertPossible(m, g, bp, pending);
    var c := ClassOf(g, bp);
    HeadOfList(m, g, c, pending);
    hide Tiling, Tagged;
    assert Linked(m, c, g.lists[c]);
    assert bp !in g.lists[c];
  }

  // ---- delete

  function IndexIn(l: seq<nat>, b: nat): (k: nat)
    requires b in l
    ensures k < |l| && l[k] == b
  {
    if l[0] == b then 0 else 1 + IndexIn(l[1..], b)
  }

  function WithDeleted(g: Shape, bp: nat): Shape
    requires |g.lists| == LISTSIZE && bp in g.next && bp + 4 <= g.next[bp] && bp in g.lists[ClassOf(g, bp)]
  {
    var c := ClassOf(g, bp);
    g.(lists := g.lists[c := Removed(g.lists[c], IndexIn(g.lists[c], bp))])
  }

  lemma DeleteWrites(m: Mem, g: Shape, bp: nat)
    requires CanDelete(m, bp) && bp in g.free
    requires m[PROLOGUE + Class(m, bp)] != bp ==> m[bp] in g.free && (m[bp + 1] != 0 ==> m[bp + 1] in g.free)
    ensures LinksOnly(m, DeleteMem(m, bp), g)
  {
    hide CalClass;
  }

  lemma DeletePossible(m: Mem, g: Shape, bp: nat, pending: set<nat>)
    requires Consistent(m, g, pending) && bp in g.free && bp !in pending
    ensures CanDelete(m, bp) && bp + 4 <= g.next[bp] && Class(m, bp) == ClassOf(g, bp)
    ensures bp in g.lists[ClassOf(g, bp)]
    ensures LinksOnly(m, DeleteMem(m, bp), g)
  {
    ClassIs(m, g, bp);
    FreeIsNode(g, bp);
    var c := ClassOf(g, bp);
    var k := IndexIn(g.lists[c], bp);
    NeighboursInList(m, g, c, k, pending);
    hide Tiling, Sorted, AllLinked, CalClass, DeleteMem, LinksOnly;
    DeleteWrites(m, g, bp);
  }

  lemma NeighboursInList(m: Mem, g: Shape, c: nat, k: nat, pending: set<nat>)
    requires Consistent(m, g, pending) && c < LISTSIZE && k < |g.lists[c]|
    ensures var l := g.lists[c];
      && l[k] + 1 < |m|
      && m[PROLOGUE + c] == l[0]
      && (k > 0 ==> l[0] != l[k] && l[k] != l[k - 1] && l[k - 1] % 2 == 0)
      && (k > 0 ==> m[l[k]] == l[k - 1] && l[k - 1] in g.free && l[k - 1] + 1 < |m|)
      && (if k + 1 < |l| then m[l[k] + 1] == l[k + 1] && l[k + 1] in g.free && l[k + 1] + 1 < |m| else m[l[k] + 1] == 0)
  {
    hide Tiling, Tagged;
    var l := g.lists[c];
    assert Linked(m, c, l);
    assert LinkedAt(m, l, k);
    if k > 0 {
      assert LinkedAt(m, l, k - 1) && l[k - 1] in l;
    }
    if k + 1 < |l| {
      assert LinkedAt(m, l, k + 1) && l[k + 1] in l;
    }
  }

  lemma DeleteSorted(g: Shape, bp: nat, pending: set<nat>)
    requires Tiling(g) && Sorted(g, pending) && bp in g.free && bp !in pending
    requires bp + 4 <= g.next[bp]
    ensures bp in g.lists[ClassOf(g, bp)]
    ensures Tiling(WithDeleted(g, bp)) && Sorted(WithDeleted(g, bp), pending + {bp})
  {
    var c, g' := ClassOf(g, bp), WithDeleted(g, bp);
    RemovedElements(g.lists[c], IndexIn(g.lists[c], bp));
    SameTiling(g, g');
    forall d, b | 0 <= d < LISTSIZE && b in g'.lists[d]
      ensures Belongs(g', pending + {bp}, d, b)
    {
      assert Belongs(g, pending, d, b);
      assert d != c ==> b != bp;
    }
    forall b | b in g'.free && b !in pending + {bp}
      ensures b in g'.lists[ClassOf(g', b)]
    {
      assert b in g.lists[ClassOf(g, b)];
    }
  }

  lemma DeleteLinks(m: Mem, g: Shape, bp: nat, pending: set<nat>, d: nat)
    requires Consistent(m, g, pending) && bp in g.free && bp !in pending && d < LISTSIZE
    requires CanDelete(m, bp) && bp + 4 <= g.next[bp] && Class(m, bp) == ClassOf(g, bp)
    requires bp in g.lists[ClassOf(g, bp)]
    ensures Linked(DeleteMem(m, bp), d, WithDeleted(g, bp).lists[d])
  {
    hide DeleteMem, CalClass;
    var c := ClassOf(g, bp);
    var k := IndexIn(g.lists[c], bp);
    assert Linked(m, c, g.lists[c]) && Linked(m, d, g.lists[d]);
    if d == c {
      DeleteOne(m, g.lists[c], k);
    } else {
      Elsewhere(g, pending, c, d);
      DeleteElsewhere(m, g.lists[c], k, d, g.lists[d]);
    }
  }

  lemma DeleteStep(m: Mem, g: Shape, bp: nat, pending: set<nat>)
    requires Consistent(m, g, pending) && bp in g.free && bp !in pending
    ensures CanDelete(m, bp) && bp + 4 <= g.next[bp] && bp in g.lists[ClassOf(g, bp)]
    ensures LinksOnly(m, DeleteMem(m, bp), g)
    ensures Consistent(DeleteMem(m, bp), WithDeleted(g, bp), pending + {bp})
  {
    DeletePossible(m, g, bp, pending);
    DeleteSorted(g, bp, pending);
    var m', g' := DeleteMem(m, bp), WithDeleted(g, bp);
    LinksKeepTags(m, m', g);
    forall d: nat | d < LISTSIZE
      ensures Linked(m', d, g'.lists[d])
    {
      DeleteLinks(m, g, bp, pending, d);
    }
    SameTags(m', g, g');
  }

  // ---- Writing tags

  // PUT of header and footer of a block from b to n.
  function TagMem(m: Mem, b: nat, n: nat, alloc: bool): (r: Mem)
    requires 1 <= b && b + 2 <= n <= |m| + 1
    ensures |r| == |m|
  {
    m[b - 1 := Pack(4 * (n - b), alloc)][n - 2 := Pack(4 * (n - b), alloc)]
  }

  predicate Boundary(g: Shape, y: nat) { y in g.next || y == g.end }

  // A word next to a block boundary, inside block b, or beyond the heap.
  ghost predicate Apart(g: Shape, b: nat, i: nat) {
    || Boundary(g, i + 1)
    || Boundary(g, i + 2)
    || (b in g.next && b <= i < g.next[b])
    || i >= g.end
  }

  ghost predicate WritesApart(m: Mem, m': Mem, g: Shape, b: nat) {
    |m'| == |m| && forall i :: 0 <= i < |m| && m'[i] != m[i] ==> Apart(g, b, i)
  }

  // A word in the first half of a block is not beside a boundary.
  lemma NotBeside(g: Shape, x: nat, i: nat)
    requires Tiling(g) && x in g.next && x <= i < g.next[x] - 2
    ensures !Boundary(g, i + 1) && !Boundary(g, i + 2) && i < g.end
    ensures forall b :: b in g.next && b != x ==> !(b <= i < g.next[b])
  {
    assert Sized(x, g.next[x], g.end);
  }

  lemma ApartFromLinks(g: Shape, b: nat, i: nat, x: nat)
    requires Tiling(g) && Apart(g, b, i) && x in g.free && x != b && b != PROLOGUE
    ensures i != x && i != x + 1 && !(PROLOGUE <= i < PROLOGUE + LISTSIZE)
  {
    ApartFromRoots(g, b, i);
    assert Sized(x, g.next[x], g.end);
    hide Boundary;
    NotBeside(g, x, x);
    NotBeside(g, x, x + 1);
  }

  lemma ApartFromRoots(g: Shape, b: nat, i: nat)
    requires Tiling(g) && Apart(g, b, i) && b != PROLOGUE
    ensures !(PROLOGUE <= i < PROLOGUE + LISTSIZE)
  {
    hide Boundary;
    if PROLOGUE <= i < PROLOGUE + LISTSIZE {
      NotBeside(g, PROLOGUE, i);
    }
  }

  lemma ApartFromPayload(g: Shape, b: nat, i: nat, x: nat)
    requires Tiling(g) && Apart(g, b, i) && Live(g, x) && x != b
    ensures !InPayload(g, x, i)
  {
    hide Boundary;
    if InPayload(g, x, i) {
      NotBeside(g, x, i);
    }
  }

  // Writing apart from the listed blocks leaves all lists as they are.
  lemma ApartKeepsLinks(m: Mem, m': Mem, g: Shape, b: nat, pending: set<nat>)
    requires Consistent(m, g, pending) && WritesApart(m, m', g, b) && b != PROLOGUE
    requires b in g.free ==> b in pending
    ensures AllLinked(m', g)
  {
    forall c: nat | c < LISTSIZE
      ensures Linked(m', c, g.lists[c])
    {
      var l := g.lists[c];
      assert Linked(m, c, l);
      if m'[PROLOGUE + c] != m[PROLOGUE + c] {
        ApartFromRoots(g, b, PROLOGUE + c);
      }
      forall x | x in l && x + 1 < |m|
        ensures m'[x] == m[x] && m'[x + 1] == m[x + 1]
      {
        assert Belongs(g, pending, c, x);
        if m'[x] != m[x] {
          ApartFromLinks(g, b, x, x);
        }
        if m'[x + 1] != m[x + 1] {
          ApartFromLinks(g, b, x + 1, x);
        }
      }
      SameLinks(m, m', c, l);
    }
  }

  lemma ApartKeepsPayload(m: Mem, m': Mem, g: Shape, g': Shape, b: nat, k: set<nat>)
    requires Tiling(g) && WritesApart(m, m', g, b)
    requires forall x :: x in k ==> x != b && Live(g, x) && Live(g', x) && g'.next[x] == g.next[x]
    ensures Keeps(m, g, m', g', k)
  {
    forall x, i | x in k && 0 <= i < |m| && InPayload(g, x, i)
      ensures m'[i] == m[i]
    {
      if m'[i] != m[i] {
        ApartFromPayload(g, b, i, x);
      }
    }
  }
}
