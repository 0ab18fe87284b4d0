// What it means to sort stably, and that there is only one way to do it.
module StableSort {

  // A comparison function in the manner of qsort: the sign of the result is the order.
  ghost predicate TotalPreorder<T(!new)>(cmp: (T, T) -> int) {
    && (forall x, y {:trigger cmp(x, y)} :: cmp(x, y) > 0 <==> cmp(y, x) < 0)
    && (forall x, y, z {:trigger cmp(x, y), cmp(y, z)} :: cmp(x, y) <= 0 && cmp(y, z) <= 0 ==> cmp(x, z) <= 0)
  }

  ghost predicate Ordered<T>(cmp: (T, T) -> int, s: seq<T>) {
    forall i, k :: 0 <= i < k < |s| ==> cmp(s[i], s[k]) <= 0
  }

  // The elements of s that compare equal to x, in their order.
  function Class<T>(cmp: (T, T) -> int, s: seq<T>, x: T): seq<T> {
    if s == [] then []
    else
      var rest := Class(cmp, s[..|s| - 1], x);
      if cmp(x, s[|s| - 1]) == 0 then rest + [s[|s| - 1]] else rest
  }

  // r holds the elements of s, and equal ones in the same order.
  ghost predicate Rearranged<T(!new)>(cmp: (T, T) -> int, s: seq<T>, r: seq<T>) {
    forall x :: Class(cmp, r, x) == Class(cmp, s, x)
  }

  ghost predicate StablySorted<T(!new)>(cmp: (T, T) -> int, s: seq<T>, r: seq<T>) {
    Ordered(cmp, r) && Rearranged(cmp, s, r)
  }

  lemma {:induction false} ClassOfSum<T>(cmp: (T, T) -> int, s: seq<T>, t: seq<T>, x: T)
    ensures Class(cmp, s + t, x) == Class(cmp, s, x) + Class(cmp, t, x)
  {
    if t == [] {
      assert s + t == s;
    } else {
      ClassOfSum(cmp, s, t[..|t| - 1], x);
      assert (s + t)[..|s + t| - 1] == s + t[..|t| - 1];
    }
  }

  lemma ClassOfOne<T>(cmp: (T, T) -> int, y: T, x: T)
    ensures Class(cmp, [y], x) == if cmp(x, y) == 0 then [y] else []
  {
    assert [y][..0] == [];
    assert Class(cmp, [], x) == [];
  }

  lemma {:induction false} ClassMembers<T>(cmp: (T, T) -> int, s: seq<T>, x: T)
    ensures forall y :: y in Class(cmp, s, x) <==> y in s && cmp(x, y) == 0
  {
    if s != [] {
      ClassMembers(cmp, s[..|s| - 1], x);
      assert s == s[..|s| - 1] + [s[|s| - 1]];
    }
  }

  lemma {:induction false} ClassEmpty<T>(cmp: (T, T) -> int, s: seq<T>, x: T)
    requires forall i :: 0 <= i < |s| ==> cmp(x, s[i]) != 0
    ensures Class(cmp, s, x) == []
  {
    if s != [] {
      ClassEmpty(cmp, s[..|s| - 1], x);
    }
  }

  lemma RearrangedSum<T(!new)>(cmp: (T, T) -> int, s: seq<T>, r: seq<T>, s': seq<T>, r': seq<T>)
    requires Rearranged(cmp, s, r) && Rearranged(cmp, s', r')
    ensures Rearranged(cmp, s + s', r + r')
  {
    forall x
      ensures Class(cmp, r + r', x) == Class(cmp, s + s', x)
    {
      ClassOfSum(cmp, r, r', x);
      ClassOfSum(cmp, s, s', x);
    }
  }

  lemma RearrangedTrans<T(!new)>(cmp: (T, T) -> int, s: seq<T>, r: seq<T>, q: seq<T>)
    requires Rearranged(cmp, s, r) && Rearranged(cmp, r, q)
    ensures Rearranged(cmp, s, q)
  {
  }

  // Two neighbours that are out of order may be exchanged.
  lemma ExchangeRearranged<T(!new)>(cmp: (T, T) -> int, s: seq<T>, k: nat)
    requires k + 1 < |s| && TotalPreorder(cmp) && cmp(s[k], s[k + 1]) > 0
    ensures Rearranged(cmp, s, s[k := s[k + 1]][k + 1 := s[k]])
  {
    var r, a, b := s[k := s[k + 1]][k + 1 := s[k]], s[k], s[k + 1];
    assert s == s[..k] + ([a] + [b]) + s[k + 2..];
    assert r == s[..k] + ([b] + [a]) + s[k + 2..];
    forall x
      ensures Class(cmp, r, x) == Class(cmp, s, x)
    {
      PairClass(cmp, a, b, x);
      ClassOfSum(cmp, s[..k], [a] + [b], x);
      ClassOfSum(cmp, s[..k], [b] + [a], x);
      ClassOfSum(cmp, s[..k] + ([a] + [b]), s[k + 2..], x);
      ClassOfSum(cmp, s[..k] + ([b] + [a]), s[k + 2..], x);
    }
  }

  lemma PairClass<T(!new)>(cmp: (T, T) -> int, a: T, b: T, x: T)
    requires TotalPreorder(cmp) && cmp(a, b) > 0
    ensures Class(cmp, [a] + [b], x) == Class(cmp, [b] + [a], x)
  {
    ClassOfSum(cmp, [a], [b], x);
    ClassOfSum(cmp, [b], [a], x);
    ClassOfOne(cmp, a, x);
    ClassOfOne(cmp, b, x);
    assert cmp(x, b) == 0 ==> cmp(b, x) <= 0;
    assert cmp(x, a) == 0 ==> cmp(a, x) <= 0;
    assert cmp(a, x) <= 0 && cmp(x, b) <= 0 ==> cmp(a, b) <= 0;
  }

  // ---- Uniqueness

  // The same members, as often.
  lemma {:induction false} RearrangedIsPermutation<T(!new)>(cmp: (T, T) -> int, s: seq<T>, r: seq<T>)
    requires TotalPreorder(cmp) && Rearranged(cmp, s, r)
    ensures multiset(r) == multiset(s)
  {
    forall y
      ensures multiset(r)[y] == multiset(s)[y]
    {
      assert cmp(y, y) == 0 by {
        assert cmp(y, y) > 0 <==> cmp(y, y) < 0;
      }
      CountInClass(cmp, s, y);
      CountInClass(cmp, r, y);
      assert Class(cmp, r, y) == Class(cmp, s, y);
    }
  }

  lemma {:induction false} CountInClass<T>(cmp: (T, T) -> int, s: seq<T>, y: T)
    requires cmp(y, y) == 0
    ensures multiset(Class(cmp, s, y))[y] == multiset(s)[y]
  {
    if s != [] {
      CountInClass(cmp, s[..|s| - 1], y);
      assert s == s[..|s| - 1] + [s[|s| - 1]];
    }
  }

  // The last of a sorted sequence is the last of its class.
  lemma LastOfClass<T>(cmp: (T, T) -> int, r: seq<T>)
    requires r != [] && cmp(r[|r| - 1], r[|r| - 1]) == 0
    ensures var last := r[|r| - 1]; var c := Class(cmp, r, last); c != [] && c[|c| - 1] == last
  {
  }

  lemma DropLast<T(!new)>(cmp: (T, T) -> int, r: seq<T>, q: seq<T>, x: T)
    requires r != [] && q != [] && r[|r| - 1] == q[|q| - 1] && Class(cmp, q, x) == Class(cmp, r, x)
    ensures Class(cmp, q[..|q| - 1], x) == Class(cmp, r[..|r| - 1], x)
  {
    var a, b := Class(cmp, r[..|r| - 1], x), Class(cmp, q[..|q| - 1], x);
    if cmp(x, r[|r| - 1]) == 0 {
      assert a == Class(cmp, r, x)[..|a|] && b == Class(cmp, q, x)[..|b|];
    }
  }

  // There is at most one stably sorted arrangement.
  lemma StableSortIsUnique<T(!new)>(cmp: (T, T) -> int, s: seq<T>, r: seq<T>, q: seq<T>)
    requires TotalPreorder(cmp) && StablySorted(cmp, s, r) && StablySorted(cmp, s, q)
    ensures r == q
  {
    hide TotalPreorder, Ordered;
    OrderedIsUnique(cmp, r, q);
  }

  lemma {:induction false} OrderedIsUnique<T(!new)>(cmp: (T, T) -> int, r: seq<T>, q: seq<T>)
    requires TotalPreorder(cmp) && Ordered(cmp, r) && Ordered(cmp, q) && Rearranged(cmp, r, q)
    ensures r == q
    decreases |r|
  {
    hide TotalPreorder, Class;
    RearrangedIsPermutation(cmp, r, q);
    assert |r| == |multiset(r)| == |multiset(q)| == |q|;
    if r != [] {
      SameLast(cmp, r, q);
      var r', q' := r[..|r| - 1], q[..|q| - 1];
      forall x
        ensures Class(cmp, q', x) == Class(cmp, r', x)
      {
        DropLast(cmp, r, q, x);
      }
      OrderedIsUnique(cmp, r', q');
      assert r == r' + [r[|r| - 1]] && q == q' + [q[|q| - 1]];
    }
  }

  lemma SameLast<T(!new)>(cmp: (T, T) -> int, r: seq<T>, q: seq<T>)
    requires TotalPreorder(cmp) && Ordered(cmp, r) && Ordered(cmp, q) && r != [] && q != []
    requires Rearranged(cmp, r, q) && multiset(r) == multiset(q)
    ensures r[|r| - 1] == q[|q| - 1]
  {
    var a, b := r[|r| - 1], q[|q| - 1];
    assert a in multiset(q) && b in multiset(r);
    assert cmp(a, a) == 0 && cmp(b, b) == 0 by {
      assert cmp(a, a) > 0 <==> cmp(a, a) < 0;
      assert cmp(b, b) > 0 <==> cmp(b, b) < 0;
    }
    assert cmp(a, b) <= 0 && cmp(b, a) <= 0;
    assert cmp(a, b) == 0;
    LastOfClass(cmp, r);
    LastIn(cmp, q, a);
    assert Class(cmp, q, a) == Class(cmp, r, a);
  }

  lemma LastIn<T>(cmp: (T, T) -> int, q: seq<T>, x: T)
    requires q != [] && cmp(x, q[|q| - 1]) == 0
    ensures var c := Class(cmp, q, x); c != [] && c[|c| - 1] == q[|q| - 1]
  {
  }
}
