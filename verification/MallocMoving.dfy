// Writing into live blocks and resizing them, and what holds of the heap as a whole.
module MallocMoving {
  import opened MallocHeap
  import opened MallocLists
  import opened MallocBlocks
  import opened MallocCuts
  import opened MallocSteps
  import opened MallocPlacing

  // ---- The user's words

  // Whatever is written into a live block, the heap stays consistent.
  lemma PayloadWrite(m: Mem, g: Shape, b: nat, i: nat, v: nat)
    requires Consistent(m, g, {}) && Live(g, b) && InPayload(g, b, i) && i < |m|
    ensures Consistent(m[i := v], g, {})
  {
    hide Sorted, AllLinked, Tagged;
    PayloadIsNotTag(m, g, b, i, v);
    assert WritesApart(m, m[i := v], g, b);
    hide Tiling;
    ApartKeepsLinks(m, m[i := v], g, b, {});
  }

  lemma PayloadIsNotTag(m: Mem, g: Shape, b: nat, i: nat, v: nat)
    requires Tiling(g) && Tagged(m, g) && Live(g, b) && InPayload(g, b, i) && i < |m|
    ensures Tagged(m[i := v], g)
  {
    NotBeside(g, b, i);
    forall x | x in g.next
      ensures m[i := v][x - 1] == m[x - 1] && m[i := v][g.next[x] - 2] == m[g.next[x] - 2]
    {
      assert Sized(x, g.next[x], g.end) && HasNext(g, x) && Boundary(g, x) && Boundary(g, g.next[x]);
    }
    assert Boundary(g, g.end);
  }

  // The words of old block b are found at r.
  ghost predicate HoldsOld(m: Mem, g: Shape, b: nat, m': Mem, r: nat)
    requires b in g.next
  {
    forall i :: 0 <= i < |m| && InPayload(g, b, i) ==> r + (i - b) < |m'| && m'[r + (i - b)] == m[i]
  }

  // ---- mm_realloc

  // csize - asize, as an int.
  function Space(csize: nat, asize: nat): int {
    var d := (csize - asize) % 0x1_0000_0000;
    if d >= 0x8000_0000 then d - 0x1_0000_0000 else d
  }

  lemma SpaceNegative(csize: nat, asize: nat)
    requires csize < 0x8000_0000 && asize < 0x1_0000_0000
    ensures Space(csize, asize) < 0 <==> csize < asize <= csize + 0x8000_0000
  {
  }

  // The free block that mm_realloc leaves behind has a list only if it has 16 bytes.
  lemma RemainderHasClass(size: nat)
    requires size % 8 == 0
    ensures 0 <= CalClass(size) < LISTSIZE <==> size >= 16
  {
    if size >= 16 {
      ClassRange(size);
    } else {
      assert size == 0 || size == 8;
      assert Log(8, 20) == 1 + Log(4, 19) == 2 + Log(2, 18) == 3 + Log(1, 17);
    }
  }

  // The boundary after live block b moves into the free block that follows, which has
  // left its list.
  lemma MoveBoundary(m: Mem, g: Shape, b: nat, mid: nat)
    requires Live(g, b) && g.next[b] in g.free && g.next[b] in g.next
    requires Consistent(m, g, {g.next[b]}) && Coalesced(g)
    requires g.next[b] + 2 <= mid && mid % 2 == 0 && mid + 4 <= g.next[g.next[b]]
    ensures var n := g.next[g.next[b]];
      && 1 <= b && b + 4 <= mid && n <= |m|
      && var m', g' := RecutMem(m, b, mid, n, false, true), Recut(g, b, mid, n, false, true);
         && mid in g'.free && Consistent(m', g', {mid}) && Coalesced(g')
         && Live(g', b) && g'.next[b] == mid && LiveBlocks(g') == LiveBlocks(g)
         && Keeps(m, g, m', g', LiveBlocks(g) - {b}) && HoldsOld(m, g, b, m', b)
  {
    var c, n := g.next[b], g.next[g.next[b]];
    MoveCut(g, b, mid);
    hide Tiling, Tagged, Sorted, AllLinked, Coalesced, CanCut, CutFree, CutNext, LiveBlocks, LiveOutside, Keeps,
      RecutMem, WritesApart, HoldsOld;
    RecutStep(m, g, b, mid, n, false, true, {c}, c);
    RecutKeeps(m, g, b, mid, n, false, true, c);
    MoveShape(g, b, mid, Recut(g, b, mid, n, false, true));
    ApartHolds(m, g, b, RecutMem(m, b, mid, n, false, true), c);
  }

  lemma ApartHolds(m: Mem, g: Shape, b: nat, m': Mem, c: nat)
    requires Tiling(g) && Live(g, b) && b != c && WritesApart(m, m', g, c)
    ensures HoldsOld(m, g, b, m', b)
  {
    forall i | 0 <= i < |m| && InPayload(g, b, i)
      ensures m'[i] == m[i]
    {
      if m'[i] != m[i] {
        ApartFromPayload(g, c, i, b);
      }
    }
  }

  lemma MoveCut(g: Shape, b: nat, mid: nat)
    requires Tiling(g) && Live(g, b) && g.next[b] in g.free && g.next[b] in g.next
    requires g.next[b] + 2 <= mid && mid % 2 == 0 && mid + 4 <= g.next[g.next[b]]
    ensures var c, n := g.next[b], g.next[g.next[b]];
      && b < c < n && CanCut(g, b, mid, n)
      && (forall x :: x in g.next && b <= x < n ==> x == b || x == c)
      && (forall x :: x in g.free && b <= x < n ==> x in {c})
      && CutFree({c}, b, mid, n, false, true) == {mid}
      && LiveOutside(g, b, n) == LiveBlocks(g) - {b}
  {
    var c, n := g.next[b], g.next[g.next[b]];
    assert Sized(b, c, g.end) && Sized(c, n, g.end) && HasNext(g, c);
    JoinMembers(g, b, c, n, n);
  }

  lemma MoveShape(g: Shape, b: nat, mid: nat, g': Shape)
    requires Tiling(g) && Coalesced(g) && Live(g, b) && g.next[b] in g.free && g.next[b] in g.next
    requires g.next[b] + 2 <= mid && mid % 2 == 0 && mid + 4 <= g.next[g.next[b]]
    requires g' == Recut(g, b, mid, g.next[g.next[b]], false, true) && Tiling(g')
    ensures Coalesced(g') && mid in g'.free && Live(g', b) && g'.next[b] == mid && LiveBlocks(g') == LiveBlocks(g)
  {
    hide Tiling, CanCut;
    var c, n := g.next[b], g.next[g.next[b]];
    MoveCut(g, b, mid);
    FreeAfterCut(g, b, mid, n, false, true);
    forall x | x in g'.free
      ensures g'.next[x] !in g'.free
    {
      if x != mid {
        MoveElsewhere(g, b, mid, n, x);
      } else {
        assert c in g.free && g.next[c] == n;
      }
    }
  }

  lemma MoveElsewhere(g: Shape, b: nat, mid: nat, n: nat, x: nat)
    requires Tiling(g) && Coalesced(g) && CanCut(g, b, mid, n) && mid < n
    requires x in g.free && !(b <= x < n)
    ensures x in CutNext(g.next, b, mid, n) && CutNext(g.next, b, mid, n)[x] == g.next[x]
    ensures g.next[x] !in CutFree(g.free, b, mid, n, false, true)
  {
    Outside(g, b, mid, n, x);
    CutBounds(g, b, mid, n);
    assert Sized(x, g.next[x], g.end);
    hide Tiling, CanCut, CutNext;
  }

  lemma HoldsTransitive(m: Mem, g: Shape, b: nat, m': Mem, g': Shape, m'': Mem)
    requires Live(g, b) && Live(g', b) && g.next[b] <= g'.next[b] && |m'| == |m| == |m''|
    requires HoldsOld(m, g, b, m', b) && HoldsOld(m', g', b, m'', b)
    ensures HoldsOld(m, g, b, m'', b)
  {
    forall i | 0 <= i < |m| && InPayload(g, b, i)
      ensures m''[i] == m[i]
    {
      assert InPayload(g', b, i);
      assert m'[b + (i - b)] == m[i] && m''[b + (i - b)] == m'[i];
    }
  }

  lemma KeepsHolds(m: Mem, g: Shape, b: nat, m': Mem, g': Shape, k: set<nat>)
    requires Live(g, b) && b in k && Keeps(m, g, m', g', k)
    ensures HoldsOld(m, g, b, m', b) && Live(g', b) && g'.next[b] == g.next[b]
  {
  }

  lemma IsLive(g: Shape, b: nat)
    ensures b in LiveBlocks(g) <==> Live(g, b)
  {
  }

  lemma TwoApart(g: Shape, b: nat, c: nat)
    requires Tiling(g) && b in g.next && c in g.next && b != c
    ensures b <= g.next[b] && c <= g.next[c] && (g.next[b] <= c || g.next[c] <= b)
  {
    assert Sized(b, g.next[b], g.end) && Sized(c, g.next[c], g.end);
  }

  lemma CopyKeeps(m: Mem, g: Shape, to: nat, n: nat, m': Mem)
    requires Tiling(g) && Live(g, to) && to + n + 2 <= g.next[to] && |m'| == |m|
    requires forall i :: 0 <= i < |m| && !(to <= i < to + n) ==> m'[i] == m[i]
    ensures Keeps(m, g, m', g, LiveBlocks(g) - {to})
  {
    forall b, i | b in LiveBlocks(g) - {to} && 0 <= i < |m| && InPayload(g, b, i)
      ensures m'[i] == m[i]
    {
      TwoApart(g, b, to);
    }
  }

  // A new block r (in g1), the words of b copied there (m2), b freed (m3).
  lemma RelocateHolds(m: Mem, g: Shape, b: nat, m1: Mem, g1: Shape, r: nat, m2: Mem, m3: Mem, g3: Shape)
    requires Live(g, b) && Live(g1, r) && r !in LiveBlocks(g) && b <= g.next[b]
    requires r + (g.next[b] - b) + 2 <= g1.next[r] <= |m| && g.next[b] <= |m| == |m1|
    requires LiveBlocks(g1) == LiveBlocks(g) + {r} && LiveBlocks(g3) == LiveBlocks(g1) - {b}
    requires Keeps(m, g, m1, g1, LiveBlocks(g)) && Keeps(m1, g1, m2, g1, LiveBlocks(g1) - {r})
    requires Keeps(m2, g1, m3, g3, LiveBlocks(g3))
    requires forall i :: r <= i < r + (g.next[b] - b) ==> m2[i] == m1[b + (i - r)]
    ensures Keeps(m, g, m3, g3, LiveBlocks(g) - {b}) && HoldsOld(m, g, b, m3, r)
    ensures Live(g3, r) && g3.next[r] == g1.next[r] && LiveBlocks(g3) == LiveBlocks(g) - {b} + {r}
  {
    IsLive(g, b);
    assert r in LiveBlocks(g3);
    forall i | 0 <= i < |m| && InPayload(g, b, i)
      ensures m3[r + (i - b)] == m[i]
    {
      var j := i - b;
      assert m1[i] == m[i] && i == b + j && m2[r + j] == m1[b + (r + j - r)];
      assert InPayload(g1, r, r + j);
    }
    hide LiveBlocks;
    KeepsFewer(m, g, m1, g1, LiveBlocks(g), LiveBlocks(g) - {b});
    KeepsFewer(m1, g1, m2, g1, LiveBlocks(g1) - {r}, LiveBlocks(g) - {b});
    KeepsFewer(m2, g1, m3, g3, LiveBlocks(g3), LiveBlocks(g) - {b});
    hide Keeps;
    KeepsTransitive(m, g, m1, g1, m2, g1, LiveBlocks(g) - {b});
    KeepsTransitive(m, g, m2, g1, m3, g3, LiveBlocks(g) - {b});
  }

  lemma StaysPut(m: Mem, g: Shape, b: nat)
    requires Live(g, b)
    ensures HoldsOld(m, g, b, m, b) && Keeps(m, g, m, g, LiveBlocks(g) - {b})
    ensures LiveBlocks(g) - {b} + {b} == LiveBlocks(g)
  {
  }

  // Out of the list, the boundary moved, the rest into a list.
  lemma GrowSteps(m: Mem, g: Shape, b: nat, mid: nat) returns (m1: Mem, m2: Mem, m3: Mem, g': Shape)
    requires Consistent(m, g, {}) && Coalesced(g) && Live(g, b)
    requires g.next[b] in g.free && g.next[b] in g.next
    requires g.next[b] + 2 <= mid && mid % 2 == 0 && mid + 4 <= g.next[g.next[b]]
    ensures var c, n := g.next[b], g.next[g.next[b]];
      && 1 <= b && b + 4 <= mid && mid + 4 <= n <= |m| == |m1| == |m2| == |m3|
      && CanDelete(m, c) && m1 == DeleteMem(m, c)
      && m2 == RecutMem(m1, b, mid, n, false, true)
      && CanInsert(m2, mid) && mid >= FIRST && 0 <= Class(m2, mid) < LISTSIZE && m2[PROLOGUE + Class(m2, mid)] != mid
      && m3 == InsertMem(m2, mid)
      && Consistent(m3, g', {}) && Coalesced(g') && g'.end == g.end
      && Live(g', b) && g'.next[b] == mid && LiveBlocks(g') == LiveBlocks(g)
      && Keeps(m, g, m3, g', LiveBlocks(g) - {b}) && HoldsOld(m, g, b, m3, b)
  {
    hide Tiling, Tagged, Sorted, AllLinked, Keeps, Coalesced, CutNext, CutFree, DeleteMem, CanDelete, InsertMem,
      CanInsert, Class, LiveBlocks, RecutMem, HoldsOld;
    var c, n := g.next[b], g.next[g.next[b]];
    FreeFacts(g, {});
    IsLive(g, b);
    DeleteReady(m, g, c, {});
    m1 := DeleteMem(m, c);
    var g1 := WithDeleted(g, c);
    assert {} + {c} == {c};
    SameStructure(g, g1);
    SameLive(g, g1);
    KeepsHolds(m, g, b, m1, g1, LiveBlocks(g));
    MoveBoundary(m1, g1, b, mid);
    m2 := RecutMem(m1, b, mid, n, false, true);
    var g2 := Recut(g1, b, mid, n, false, true);
    HoldsTransitive(m, g, b, m1, g1, m2);
    FreeFacts(g2, {mid});
    InsertReady(m2, g2, mid, {mid});
    ClassIs(m2, g2, mid);
    m3, g' := InsertMem(m2, mid), WithInserted(g2, mid);
    assert {mid} - {mid} == {};
    SameStructure(g2, g');
    SameLive(g2, g');
    KeepsHolds(m2, g2, b, m3, g', LiveBlocks(g2));
    HoldsTransitive(m, g, b, m2, g2, m3);
    KeepsFewer(m, g, m1, g1, LiveBlocks(g), LiveBlocks(g) - {b});
    KeepsTransitive(m, g, m1, g1, m2, g2, LiveBlocks(g) - {b});
    KeepsFewer(m2, g2, m3, g', LiveBlocks(g2), LiveBlocks(g) - {b});
    KeepsTransitive(m, g, m2, g2, m3, g', LiveBlocks(g) - {b});
  }

  // ---- The heap as a whole

  function Sum(g: Shape, b: nat): nat
    requires Tiling(g) && (b in g.next || b == g.end)
    decreases g.end - b
  {
    if b in g.next then
      assert Sized(b, g.next[b], g.end) && HasNext(g, b);
      Bytes(g, b) + Sum(g, g.next[b])
    else 0
  }

  // The sizes of the blocks add up to what was obtained from sbrk.
  lemma {:induction false} SizesAddUp(g: Shape, b: nat)
    requires Tiling(g) && (b in g.next || b == g.end)
    ensures Sum(g, b) == 4 * (g.end - b)
    decreases g.end - b
  {
    if b in g.next {
      assert Sized(b, g.next[b], g.end) && HasNext(g, b);
      SizesAddUp(g, g.next[b]);
    }
  }

  // With nothing live, all of the heap is one free block (if there is any).
  lemma AllFreed(m: Mem, g: Shape)
    requires Heap(m, g) && LiveBlocks(g) == {} && g.end > FIRST
    ensures FIRST in g.free && g.next[FIRST] == g.end && Bytes(g, FIRST) == 4 * (g.end - FIRST)
    ensures g.next.Keys == {PROLOGUE, FIRST} && g.free == {FIRST}
  {
    assert Sized(PROLOGUE, FIRST, g.end) && HasNext(g, PROLOGUE);
    assert FIRST in g.next && (FIRST in g.free || FIRST in LiveBlocks(g));
    var n := g.next[FIRST];
    assert Sized(FIRST, n, g.end) && HasNext(g, FIRST);
    assert n in g.next ==> n in LiveBlocks(g) || n == PROLOGUE;
    forall x | x in g.next
      ensures x == PROLOGUE || x == FIRST
    {
      assert Sized(x, g.next[x], g.end);
      assert x > PROLOGUE ==> x >= FIRST;
      assert x > FIRST ==> x >= n;
    }
  }
}
