// The heap of the allocator: a sequence of words, and the shape it encodes.
// Addresses are word numbers from the start of the heap, sizes are bytes.
module MallocHeap {

  const LISTSIZE := 20
  const PROLOGUE := 2   // payload of the prologue block, which holds the list heads
  const FIRST := 24     // payload of the first ordinary block

  type Mem = seq<nat>

  function SizeOf(w: nat): nat { w - w % 8 }

  predicate IsAlloc(w: nat) { w % 2 == 1 }

  function Pack(size: nat, alloc: bool): nat { size + if alloc then 1 else 0 }

  // ---- calclass

  function Log(size: nat, cap: nat): (r: nat)
    ensures r <= cap
    decreases cap, size
  {
    if cap == 0 || size <= 1 then 0 else 1 + Log(size / 2, cap - 1)
  }

  function CalClass(size: nat): int { Log(size, LISTSIZE) - 4 }

  lemma {:induction false} LogMonotone(a: nat, b: nat, cap: nat)
    requires a <= b
    ensures Log(a, cap) <= Log(b, cap)
    decreases cap
  {
    if cap > 0 && a > 1 {
      LogMonotone(a / 2, b / 2, cap - 1);
    }
  }

  lemma ClassRange(size: nat)
    requires size >= 16
    ensures 0 <= CalClass(size) <= LISTSIZE - 4
  {
    assert Log(16, 20) == 1 + Log(8, 19) == 2 + Log(4, 18) == 3 + Log(2, 17) == 4 + Log(1, 16);
    LogMonotone(16, size, 20);
  }

  // ---- The shape of a heap

  // `next` takes the payload of each block to that of the following one (`end` after
  // the last); `lists` are the free lists.
  datatype Shape = Shape(next: map<nat, nat>, free: set<nat>, lists: seq<seq<nat>>, end: nat)

  ghost predicate HasPrev(g: Shape, c: nat) {
    exists b :: b in g.next && g.next[b] == c
  }

  ghost predicate HasNext(g: Shape, b: nat) {
    b in g.next ==> g.next[b] in g.next || g.next[b] == g.end
  }

  // A block from b to n: even, of at least 16 bytes, below the end of the heap.
  predicate Sized(b: nat, n: nat, end: nat) {
    PROLOGUE <= b && b % 2 == 0 && n % 2 == 0 && b + 4 <= n <= end
  }

  // Blocks tile the heap from the prologue to `end`, in multiples of 8 bytes, each of
  // at least 16.
  ghost predicate Tiling(g: Shape) {
    && PROLOGUE in g.next && g.next[PROLOGUE] == FIRST
    && g.end % 2 == 0
    && (forall b :: b in g.next ==> Sized(b, g.next[b], g.end))
    && (forall b {:trigger HasNext(g, b)} :: HasNext(g, b))
    && (forall b, c :: b in g.next && c in g.next && b < c ==> g.next[b] <= c)
    && (forall c {:trigger HasPrev(g, c)} :: (c in g.next || c == g.end) && c != PROLOGUE ==> HasPrev(g, c))
    && (forall b :: b in g.free ==> b in g.next && b != PROLOGUE)
  }

  function Bytes(g: Shape, b: nat): nat
    requires b in g.next && b <= g.next[b]
  {
    4 * (g.next[b] - b)
  }

  // Header and footer of every block hold its size and whether it is allocated.
  ghost predicate Tagged(m: Mem, g: Shape)
    requires Tiling(g)
  {
    && g.end <= |m|
    && m[g.end - 1] == Pack(0, true)
    && (forall b :: b in g.next ==>
          m[b - 1] == Pack(Bytes(g, b), b !in g.free) && m[g.next[b] - 2] == Pack(Bytes(g, b), b !in g.free))
  }

  // The links of the k-th block of a list. The back link of the first is never read.
  ghost predicate LinkedAt(m: Mem, l: seq<nat>, k: nat)
    requires k < |l|
  {
    && FIRST <= l[k] && l[k] % 2 == 0 && l[k] + 1 < |m|
    && m[l[k] + 1] == (if k + 1 < |l| then l[k + 1] else 0)
    && (k > 0 ==> m[l[k]] == l[k - 1])
  }

  ghost predicate Linked(m: Mem, c: nat, l: seq<nat>)
    requires c < LISTSIZE && |m| >= FIRST
  {
    && m[PROLOGUE + c] == (if l == [] then 0 else l[0])
    && (forall k {:trigger LinkedAt(m, l, k)} :: 0 <= k < |l| ==> LinkedAt(m, l, k))
  }

  ghost predicate Distinct(l: seq<nat>) {
    forall i, k :: 0 <= i < k < |l| ==> l[i] != l[k]
  }

  ghost predicate Belongs(g: Shape, pending: set<nat>, c: nat, b: nat)
    requires Tiling(g)
  {
    b in g.free && b !in pending && CalClass(Bytes(g, b)) == c
  }

  // Each free block outside `pending` is in exactly one list, that of its class.
  ghost predicate Sorted(g: Shape, pending: set<nat>)
    requires Tiling(g)
  {
    && |g.lists| == LISTSIZE
    && (forall c :: 0 <= c < LISTSIZE ==> Distinct(g.lists[c]))
    && (forall c, b :: 0 <= c < LISTSIZE && b in g.lists[c] ==> Belongs(g, pending, c, b))
    && (forall b :: b in g.free && b !in pending ==> b in g.lists[ClassOf(g, b)])
  }

  function ClassOf(g: Shape, b: nat): (c: nat)
    requires b in g.next && b + 4 <= g.next[b]
    ensures c < LISTSIZE && c == CalClass(Bytes(g, b))
  {
    ClassRange(Bytes(g, b));
    CalClass(Bytes(g, b))
  }

  ghost predicate AllLinked(m: Mem, g: Shape)
    requires |g.lists| == LISTSIZE && |m| >= FIRST
  {
    forall c :: 0 <= c < LISTSIZE ==> Linked(m, c, g.lists[c])
  }

  // The heap between operations, but for the blocks in `pending`, which are free and
  // not yet in a list.
  ghost predicate Consistent(m: Mem, g: Shape, pending: set<nat>) {
    Tiling(g) && Tagged(m, g) && Sorted(g, pending) && |m| >= FIRST && AllLinked(m, g)
  }

  // No free block outside `pending` has a free neighbour.
  ghost predicate Coalesced(g: Shape)
    requires Tiling(g)
  {
    forall b :: b in g.free ==> g.next[b] !in g.free
  }

  ghost predicate Heap(m: Mem, g: Shape) {
    Consistent(m, g, {}) && Coalesced(g)
  }

  // ---- Words

  // The words of an allocated block that its user may write.
  predicate InPayload(g: Shape, b: nat, i: nat)
    requires b in g.next
  {
    b <= i && i + 2 < g.next[b]
  }

  predicate Live(g: Shape, b: nat) { b in g.next && b !in g.free && b != PROLOGUE }

  // List heads and the two link words of free blocks.
  ghost predicate IsLink(g: Shape, i: nat) {
    || PROLOGUE <= i < PROLOGUE + LISTSIZE
    || i in g.free
    || (i > 0 && i - 1 in g.free)
  }

  // m' differs from m in link words only.
  ghost predicate LinksOnly(m: Mem, m': Mem, g: Shape) {
    |m'| == |m| && forall i :: 0 <= i < |m| && m'[i] != m[i] ==> IsLink(g, i)
  }

  lemma LinksAreNotTags(g: Shape, b: nat, i: nat)
    requires Tiling(g) && b in g.next && IsLink(g, i)
    ensures i != b - 1 && i != g.next[b] - 2 && i != g.end - 1
  {
  }

  lemma LinksAreNotPayload(g: Shape, b: nat, i: nat)
    requires Tiling(g) && Live(g, b) && IsLink(g, i)
    ensures !InPayload(g, b, i)
  {
  }

  lemma LinksKeepTags(m: Mem, m': Mem, g: Shape)
    requires Tiling(g) && Tagged(m, g) && LinksOnly(m, m', g)
    ensures Tagged(m', g)
  {
    forall b | b in g.next
      ensures m'[b - 1] == m[b - 1] && m'[g.next[b] - 2] == m[g.next[b] - 2] && m'[g.end - 1] == m[g.end - 1]
    {
      if m'[b - 1] != m[b - 1] {
        LinksAreNotTags(g, b, b - 1);
      }
      if m'[g.next[b] - 2] != m[g.next[b] - 2] {
        LinksAreNotTags(g, b, g.next[b] - 2);
      }
      if m'[g.end - 1] != m[g.end - 1] {
        LinksAreNotTags(g, b, g.end - 1);
      }
    }
  }
}
