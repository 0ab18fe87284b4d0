// The segregated free lists, threaded through the free blocks.
module MallocLists {
  import opened MallocHeap

  // ---- insert and delete, as functions on memory

  function Class(m: Mem, bp: nat): int
    requires 1 <= bp <= |m|
  {
    CalClass(SizeOf(m[bp - 1]))
  }

  // The words that insert reads or writes are inside the heap.
  predicate CanInsert(m: Mem, bp: nat) {
    && 1 <= bp && bp + 1 < |m| && |m| >= FIRST
    && 0 <= Class(m, bp) < LISTSIZE
    && var h := m[PROLOGUE + Class(m, bp)];
       h != 0 ==> h + 1 < |m| && m[h + 1] < |m|
  }

  function InsertMem(m: Mem, bp: nat): (r: Mem)
    requires CanInsert(m, bp)
    ensures |r| == |m|
  {
    var root := PROLOGUE + Class(m, bp);
    var h := m[root];
    if h == 0 then m[root := bp][bp + 1 := 0][bp := 0]
    else
      var n := m[h + 1];
      var t := m[bp + 1 := n][bp := h][h + 1 := bp];
      if n != 0 then t[n := bp] else t
  }

  predicate CanDelete(m: Mem, bp: nat) {
    && 1 <= bp && bp + 1 < |m| && |m| >= FIRST
    && 0 <= Class(m, bp) < LISTSIZE
    && (m[PROLOGUE + Class(m, bp)] != bp ==> m[bp] + 1 < |m| && m[bp + 1] < |m| && m[bp] != bp && m[bp] + 1 != bp)
  }

  function DeleteMem(m: Mem, bp: nat): (r: Mem)
    requires CanDelete(m, bp)
    ensures |r| == |m|
  {
    var root := PROLOGUE + Class(m, bp);
    if m[root] == bp then m[root := m[bp + 1]]
    else
      var p, n := m[bp], m[bp + 1];
      var t := m[p + 1 := n];
      if n != 0 then t[n := p] else t
  }

  // ---- What they do to the lists

  function Inserted(l: seq<nat>, bp: nat): seq<nat> {
    if l == [] then [bp] else [l[0], bp] + l[1..]
  }

  function Removed(l: seq<nat>, k: nat): seq<nat>
    requires k < |l|
  {
    l[..k] + l[k + 1..]
  }

  lemma InsertedElements(l: seq<nat>, bp: nat)
    requires Distinct(l) && bp !in l
    ensures Distinct(Inserted(l, bp))
    ensures forall x :: x in Inserted(l, bp) <==> x in l || x == bp
  {
    if l != [] {
      assert l == [l[0]] + l[1..];
    }
  }

  lemma RemovedElements(l: seq<nat>, k: nat)
    requires k < |l| && Distinct(l)
    ensures Distinct(Removed(l, k))
    ensures forall x :: x in Removed(l, k) <==> x in l && x != l[k]
  {
    assert l == l[..k] + [l[k]] + l[k + 1..];
  }

  // Memories that agree on the words of a list.
  lemma SameLinks(m: Mem, m': Mem, c: nat, l: seq<nat>)
    requires c < LISTSIZE && FIRST <= |m| == |m'| && Linked(m, c, l)
    requires m'[PROLOGUE + c] == m[PROLOGUE + c]
    requires forall x :: x in l && x + 1 < |m| ==> m'[x] == m[x] && m'[x + 1] == m[x + 1]
    ensures Linked(m', c, l)
  {
    forall k: nat | k < |l|
      ensures LinkedAt(m', l, k)
    {
      assert LinkedAt(m, l, k) && l[k] in l;
    }
  }

  lemma InsertOne(m: Mem, l: seq<nat>, bp: nat)
    requires CanInsert(m, bp) && Linked(m, Class(m, bp), l)
    requires FIRST <= bp && bp % 2 == 0
    requires Distinct(l) && bp !in l
    ensures Linked(InsertMem(m, bp), Class(m, bp), Inserted(l, bp))
  {
    hide Class, CalClass;
    var m', l' := InsertMem(m, bp), Inserted(l, bp);
    if l != [] {
      assert LinkedAt(m, l, 0);
      if |l| > 1 {
        assert LinkedAt(m, l, 1);
      }
    }
    forall k: nat | k < |l'|
      ensures LinkedAt(m', l', k)
    {
      if k >= 2 {
        assert LinkedAt(m, l, k - 1) && l'[k] == l[k - 1];
        assert l[k - 1] != l[0] && l[k - 1] != bp;
        assert k + 1 < |l'| ==> l'[k + 1] == l[k];
        assert k > 2 ==> l'[k - 1] == l[k - 2] && l[k - 1] != l[1];
      }
    }
  }

  lemma InsertElsewhere(m: Mem, l: seq<nat>, bp: nat, d: nat, other: seq<nat>)
    requires CanInsert(m, bp) && Linked(m, Class(m, bp), l)
    requires FIRST <= bp && bp % 2 == 0
    requires d < LISTSIZE && d != Class(m, bp) && Linked(m, d, other)
    requires forall x :: x in other ==> x !in l && x != bp
    ensures Linked(InsertMem(m, bp), d, other)
  {
    hide Class;
    if l != [] {
      assert LinkedAt(m, l, 0);
      if |l| > 1 {
        assert LinkedAt(m, l, 1);
      }
    }
    InList(m, d, other);
    SameLinks(m, InsertMem(m, bp), d, other);
  }

  lemma InList(m: Mem, c: nat, l: seq<nat>)
    requires c < LISTSIZE && |m| >= FIRST && Linked(m, c, l)
    ensures forall x :: x in l ==> FIRST <= x && x % 2 == 0 && x + 1 < |m|
  {
    forall x | x in l
      ensures FIRST <= x && x % 2 == 0 && x + 1 < |m|
    {
      var k :| 0 <= k < |l| && l[k] == x;
      assert LinkedAt(m, l, k);
    }
  }

  lemma DeleteOne(m: Mem, l: seq<nat>, k: nat)
    requires k < |l| && 1 <= l[k] < |m| && CanDelete(m, l[k])
    requires Linked(m, Class(m, l[k]), l) && Distinct(l)
    ensures Linked(DeleteMem(m, l[k]), Class(m, l[k]), Removed(l, k))
  {
    hide Class;
    var m', l' := DeleteMem(m, l[k]), Removed(l, k);
    assert LinkedAt(m, l, k) && LinkedAt(m, l, 0);
    if k > 0 {
      assert LinkedAt(m, l, k - 1);
    }
    if k + 1 < |l| {
      assert LinkedAt(m, l, k + 1);
    }
    forall i: nat | i < |l'|
      ensures LinkedAt(m', l', i)
    {
      var o := if i < k then i else i + 1;
      assert LinkedAt(m, l, o);
      RemovedAt(l, k, i);
      assert k > 0 && o != k - 1 ==> l[o] != l[k - 1];
      assert k + 1 < |l| && o != k + 1 ==> l[o] != l[k + 1];
      hide Removed, Distinct;
    }
  }

  lemma RemovedAt(l: seq<nat>, k: nat, i: nat)
    requires k < |l| && i < |l| - 1
    ensures var l', o := Removed(l, k), if i < k then i else i + 1;
      && |l'| == |l| - 1 && l'[i] == l[o]
      && (i + 1 < |l'| ==> l'[i + 1] == if o + 1 == k then l[k + 1] else l[o + 1])
      && (i > 0 ==> l'[i - 1] == if o == k + 1 then l[k - 1] else l[o - 1])
  {
  }

  lemma DeleteElsewhere(m: Mem, l: seq<nat>, k: nat, d: nat, other: seq<nat>)
    requires k < |l| && 1 <= l[k] < |m| && CanDelete(m, l[k])
    requires Linked(m, Class(m, l[k]), l) && Distinct(l)
    requires d < LISTSIZE && d != Class(m, l[k]) && Linked(m, d, other)
    requires forall x :: x in other ==> x !in l
    ensures Linked(DeleteMem(m, l[k]), d, other)
  {
    hide Class;
    assert LinkedAt(m, l, k) && LinkedAt(m, l, 0);
    if k > 0 {
      assert LinkedAt(m, l, k - 1);
    }
    if k + 1 < |l| {
      assert LinkedAt(m, l, k + 1);
    }
    InList(m, d, other);
    SameLinks(m, DeleteMem(m, l[k]), d, other);
  }
}
