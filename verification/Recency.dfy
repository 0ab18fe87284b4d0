// The aging counters under LRU hold the recency list of the set, and what follows
// from that for caches of different associativity.
module Recency {
  import opened CacheModel

  // ---- The reference: tags in the order of their last use, latest first

  ghost predicate Distinct(list: seq<Word>) {
    forall a, b :: 0 <= a < b < |list| ==> list[a] != list[b]
  }

  function Without(list: seq<Word>, tag: Word): seq<Word> {
    if list == [] then [] else if list[0] == tag then list[1..] else [list[0]] + Without(list[1..], tag)
  }

  function MoveToFront(list: seq<Word>, tag: Word): seq<Word> { [tag] + Without(list, tag) }

  // All tags of a trace in that order.
  function Stack(trace: seq<Access>): seq<Word> {
    if trace == [] then [] else MoveToFront(Stack(trace[..|trace| - 1]), trace[|trace| - 1].tag)
  }

  function Take(list: seq<Word>, k: nat): seq<Word> { if k < |list| then list[..k] else list }

  // ---- What a set holds

  ghost predicate Resident(s: CacheSet, tag: Word) {
    exists i :: 0 <= i < |s| && s[i].valid && s[i].tag == tag
  }

  // The valid ways of s hold exactly the tags of the list, older ones later in it.
  ghost predicate Ranks(s: CacheSet, list: seq<Word>) {
    && |list| <= |s|
    && (forall i :: 0 <= i < |s| ==> (s[i].valid <==> i < |list|))
    && Distinct(list)
    && (forall i :: 0 <= i < |list| ==> s[i].tag in list)
    && (forall t :: t in list ==> Resident(s, t))
    && Ordered(s, list)
  }

  ghost predicate Ordered(s: CacheSet, list: seq<Word>) {
    forall a, b, i, k ::
      (0 <= a < b < |list| && 0 <= i < |s| && 0 <= k < |s| && s[i].valid && s[k].valid
       && s[i].tag == list[a] && s[k].tag == list[b])
      ==> s[i].time < s[k].time
  }

  // ---- Lists

  lemma {:induction false} WithoutFacts(list: seq<Word>, tag: Word)
    requires Distinct(list)
    ensures Distinct(Without(list, tag)) && tag !in Without(list, tag)
    ensures forall t :: t in Without(list, tag) <==> t in list && t != tag
    ensures |Without(list, tag)| == |list| - (if tag in list then 1 else 0)
  {
    if list != [] {
      var rest := list[1..];
      assert list == [list[0]] + rest;
      assert Distinct(rest);
      if list[0] != tag {
        WithoutFacts(rest, tag);
        assert Without(list, tag) == [list[0]] + Without(rest, tag);
        assert list[0] !in Without(rest, tag) by {
          assert list[0] !in rest;
        }
      } else {
        assert tag !in rest;
      }
    }
  }

  // The order of what is left is the order it had.
  lemma {:induction false} WithoutOrder(list: seq<Word>, tag: Word, a: nat, b: nat) returns (c: nat, d: nat)
    requires Distinct(list) && a < b < |Without(list, tag)|
    ensures c < d < |list| && list[c] == Without(list, tag)[a] && list[d] == Without(list, tag)[b]
  {
    if list[0] == tag {
      c, d := a + 1, b + 1;
    } else if a == 0 {
      c := 0;
      var x := Without(list, tag)[b];
      WithoutFacts(list[1..], tag);
      assert x in Without(list[1..], tag);
      d :| 1 <= d < |list| && list[d] == x;
    } else {
      c, d := WithoutOrder(list[1..], tag, a - 1, b - 1);
      c, d := c + 1, d + 1;
    }
  }

  lemma {:induction false} WithoutAbsent(list: seq<Word>, tag: Word)
    requires tag !in list
    ensures Without(list, tag) == list
  {
    if list != [] {
      WithoutAbsent(list[1..], tag);
    }
  }

  // Removing a tag and keeping the first k, in either order.
  lemma {:induction false} TakeWithout(list: seq<Word>, tag: Word, k: nat)
    requires Distinct(list) && k > 0
    ensures tag in Take(list, k) ==> Take(Without(list, tag), k - 1) == Without(Take(list, k), tag)
    ensures tag !in Take(list, k) ==> Take(Without(list, tag), k - 1) == Take(list, k - 1)
    decreases list
  {
    if list == [] {
    } else if list[0] == tag {
      assert Take(list, k) == [tag] + Take(list[1..], k - 1);
    } else if k == 1 {
      assert Take(list, 1) == [list[0]];
    } else {
      TakeWithout(list[1..], tag, k - 1);
      TakeCons(list, k);
      TakeCons([list[0]] + Without(list[1..], tag), k - 1);
      TakeCons(list, k - 1);
    }
  }

  lemma TakeCons(list: seq<Word>, k: nat)
    requires list != [] && k > 0
    ensures Take(list, k) == [list[0]] + Take(list[1..], k - 1)
  {
  }

  // Keeping the first k of the stack: what one access does to them.
  function LruStep(list: seq<Word>, tag: Word, k: nat): seq<Word>
    requires k > 0
  {
    if tag in list then MoveToFront(list, tag) else [tag] + Take(list, k - 1)
  }

  lemma TakeOfMove(list: seq<Word>, tag: Word, k: nat)
    requires Distinct(list) && k > 0
    ensures Take(MoveToFront(list, tag), k) == LruStep(Take(list, k), tag, k)
  {
    TakeWithout(list, tag, k);
    assert Take(MoveToFront(list, tag), k) == [tag] + Take(Without(list, tag), k - 1);
    assert Take(Take(list, k), k - 1) == Take(list, k - 1);
  }

  lemma {:induction false} StackDistinct(trace: seq<Access>)
    ensures Distinct(Stack(trace))
  {
    if trace != [] {
      StackDistinct(trace[..|trace| - 1]);
      WithoutFacts(Stack(trace[..|trace| - 1]), trace[|trace| - 1].tag);
    }
  }

  // ---- One access

  // A set that has been aged, with every age positive.
  ghost predicate AgedRanks(t: CacheSet, list: seq<Word>) {
    && Ranks(t, list) && TagsDiffer(t)
    && (forall i :: 0 <= i < |t| && t[i].valid ==> t[i].time > 0)
  }

  lemma AgeKeepsRanks(s: CacheSet, list: seq<Word>, n: nat)
    requires Proper(s, n) && n < TWO_32 && Ranks(s, list)
    ensures AgedRanks(AgeAll(s), list)
  {
    hide AgeAll;
    AgedTimes(s, n);
    AgedProper(s, n);
    var t := AgeAll(s);
    forall x | x in list
      ensures Resident(t, x)
    {
      var i :| 0 <= i < |s| && s[i].valid && s[i].tag == x;
      assert t[i].valid && t[i].tag == x;
    }
    assert Ordered(t, list);
  }

  // Way i takes the tag at the head of the new list; the other tags keep their ways.
  lemma PlacedRanks(t: CacheSet, list: seq<Word>, i: nat, l: Line, rest: seq<Word>)
    requires AgedRanks(t, list) && i < |t|
    requires l.valid && l.time == 0
    requires Distinct([l.tag] + rest) && |rest| < |t|
    requires forall k :: 0 <= k < |t| && k != i ==> (t[k].valid <==> k <= |rest|)
    requires i <= |rest|
    requires forall k :: 0 <= k <= |rest| && k != i ==> t[k].tag in rest
    requires forall x :: x in rest ==> exists k :: 0 <= k < |t| && k != i && t[k].valid && t[k].tag == x
    requires Follows(rest, list)
    ensures Ranks(t[i := l], [l.tag] + rest)
  {
    var s, list' := t[i := l], [l.tag] + rest;
    forall x | x in list'
      ensures Resident(s, x)
    {
      if x == l.tag {
        assert s[i].valid && s[i].tag == x;
      } else {
        assert x in rest;
        var k :| 0 <= k < |t| && k != i && t[k].valid && t[k].tag == x;
        assert s[k].valid && s[k].tag == x;
      }
    }
    forall k | 0 <= k < |list'|
      ensures s[k].tag in list'
    {
      if k == i {
        assert s[k].tag == list'[0];
      } else {
        assert s[k].tag in rest;
      }
    }
    assert l.tag !in rest by {
      assert forall k :: 0 <= k < |rest| ==> list'[k + 1] == rest[k] != list'[0];
    }
    PlacedOrdered(t, list, i, l, rest);
  }

  // Tags in `rest` are in the order they have in `list`.
  ghost predicate Follows(rest: seq<Word>, list: seq<Word>) {
    forall a, b :: 0 <= a < b < |rest| ==> Before(list, rest[a], rest[b])
  }

  ghost predicate Before(list: seq<Word>, x: Word, y: Word) {
    exists c, d :: 0 <= c < d < |list| && list[c] == x && list[d] == y
  }

  lemma PlacedOrdered(t: CacheSet, list: seq<Word>, i: nat, l: Line, rest: seq<Word>)
    requires AgedRanks(t, list) && i < |t| && l.valid && l.time == 0
    requires Distinct([l.tag] + rest) && Follows(rest, list)
    requires forall k :: 0 <= k < |t| && k != i && t[k].valid ==> t[k].tag != l.tag
    ensures Ordered(t[i := l], [l.tag] + rest)
  {
    var s, list' := t[i := l], [l.tag] + rest;
    forall a, b, p, q |
      0 <= a < b < |list'| && 0 <= p < |s| && 0 <= q < |s| && s[p].valid && s[q].valid
      && s[p].tag == list'[a] && s[q].tag == list'[b]
      ensures s[p].time < s[q].time
    {
      assert list'[b] != list'[0];
      assert q != i;
      if a > 0 {
        assert list'[a] != list'[0];
        assert Before(list, rest[a - 1], rest[b - 1]);
      }
    }
  }

  lemma WithoutFollows(list: seq<Word>, tag: Word)
    requires Distinct(list)
    ensures Follows(Without(list, tag), list)
  {
    forall a, b | 0 <= a < b < |Without(list, tag)|
      ensures Before(list, Without(list, tag)[a], Without(list, tag)[b])
    {
      var c, d := WithoutOrder(list, tag, a, b);
    }
  }

  lemma PrefixFollows(list: seq<Word>, k: nat)
    ensures Follows(Take(list, k), list)
  {
    var rest := Take(list, k);
    forall a, b | 0 <= a < b < |rest|
      ensures Before(list, rest[a], rest[b])
    {
      assert list[a] == rest[a] && list[b] == rest[b];
    }
  }

  lemma HitStep(t: CacheSet, list: seq<Word>, i: nat, a: Access)
    requires AgedRanks(t, list) && i < |t| && t[i].valid && t[i].tag == a.tag
    ensures Ranks(t[i := Touched(t[i], a)], LruStep(list, a.tag, |t|))
  {
    WithoutFacts(list, a.tag);
    WithoutFollows(list, a.tag);
    assert a.tag in list;
    var rest := Without(list, a.tag);
    forall x | x in rest
      ensures exists k :: 0 <= k < |t| && k != i && t[k].valid && t[k].tag == x
    {
      assert Resident(t, x);
    }
    PlacedRanks(t, list, i, Touched(t[i], a), rest);
  }

  lemma FillStep(t: CacheSet, list: seq<Word>, i: nat, a: Access)
    requires AgedRanks(t, list) && i < |t| && !t[i].valid
    requires forall k :: 0 <= k < i ==> t[k].valid && t[k].tag != a.tag
    ensures Ranks(t[i := Filled(a)], LruStep(list, a.tag, |t|))
  {
    assert i > 0 ==> t[i - 1].valid;
    assert i == |list|;
    NotResident(t, list, a.tag);
    PrefixFollows(list, |list|);
    PlacedRanks(t, list, i, Filled(a), list);
  }

  lemma NotResident(t: CacheSet, list: seq<Word>, tag: Word)
    requires Ranks(t, list) && forall k :: 0 <= k < |t| && t[k].valid ==> t[k].tag != tag
    ensures tag !in list
  {
    assert tag in list ==> Resident(t, tag);
  }

  lemma EvictStep(t: CacheSet, list: seq<Word>, v: nat, a: Access)
    requires AgedRanks(t, list) && v < |t|
    requires forall k :: 0 <= k < |t| ==> t[k].valid && t[k].tag != a.tag
    requires WorstOf(Lru, t, |t|, v)
    ensures Ranks(t[v := Filled(a)], LruStep(list, a.tag, |t|))
  {
    hide Ranks, WorstOf, Follows, TagsDiffer, MoveToFront;
    var n := |t|;
    FullSet(t, list);
    NotResident(t, list, a.tag);
    VictimIsLast(t, list, v);
    EvictKeeps(t, list, v);
    EvictFinds(t, list, v, Take(list, n - 1));
    PrefixFollows(list, n - 1);
    PlacedRanks(t, list, v, Filled(a), Take(list, n - 1));
  }

  lemma FullSet(t: CacheSet, list: seq<Word>)
    requires Ranks(t, list) && |t| > 0 && forall k :: 0 <= k < |t| ==> t[k].valid
    ensures |list| == |t| && Distinct(list)
    ensures forall k :: 0 <= k < |t| ==> t[k].tag in list
    ensures forall x :: x in list ==> Resident(t, x)
  {
    assert t[|t| - 1].valid;
  }

  lemma EvictKeeps(t: CacheSet, list: seq<Word>, v: nat)
    requires TagsDiffer(t) && v < |t| == |list| && t[v].tag == list[|list| - 1]
    requires forall k :: 0 <= k < |t| ==> t[k].valid && t[k].tag in list
    ensures forall k :: 0 <= k < |t| && k != v ==> t[k].tag in Take(list, |list| - 1)
  {
    var rest := Take(list, |list| - 1);
    forall k | 0 <= k < |t| && k != v
      ensures t[k].tag in rest
    {
      var p :| 0 <= p < |list| && list[p] == t[k].tag;
      assert p != |list| - 1;
      assert rest[p] == list[p];
    }
  }

  lemma EvictFinds(t: CacheSet, list: seq<Word>, v: nat, rest: seq<Word>)
    requires Distinct(list) && v < |t| == |list| && t[v].tag == list[|list| - 1] && rest == Take(list, |list| - 1)
    requires forall x :: x in list ==> Resident(t, x)
    ensures forall x :: x in rest ==> exists k :: 0 <= k < |t| && k != v && t[k].valid && t[k].tag == x
  {
    forall x | x in rest
      ensures exists k :: 0 <= k < |t| && k != v && t[k].valid && t[k].tag == x
    {
      assert Resident(t, x) && x != list[|list| - 1];
    }
  }

  lemma VictimIsLast(t: CacheSet, list: seq<Word>, v: nat)
    requires Ranks(t, list) && v < |t| == |list| && WorstOf(Lru, t, |t|, v)
    ensures t[v].tag == list[|list| - 1]
  {
    var last := list[|list| - 1];
    assert Resident(t, last);
    var k :| 0 <= k < |t| && t[k].valid && t[k].tag == last;
    var p :| 0 <= p < |list| && list[p] == t[v].tag;
    LastIsOldest(t, list, v, k, p);
    WorstIsOldest(t, v, k);
  }

  lemma LastIsOldest(t: CacheSet, list: seq<Word>, v: nat, k: nat, p: nat)
    requires Ordered(t, list) && p < |list| && v < |t| && k < |t| && t[v].valid && t[k].valid
    requires t[v].tag == list[p] && t[k].tag == list[|list| - 1]
    ensures p == |list| - 1 || t[v].time < t[k].time
  {
  }

  lemma WorstIsOldest(t: CacheSet, v: nat, k: nat)
    requires v < |t| && k < |t| && WorstOf(Lru, t, |t|, v)
    ensures t[k].time <= t[v].time
  {
    assert k == v || Worse(Lru, t[v], t[k]);
  }

  lemma AccessRanks(s: CacheSet, list: seq<Word>, a: Access, n: nat)
    requires |s| > 0 && Proper(s, n) && n + 1 < TWO_32 && Ranks(s, list)
    ensures Ranks(AccessSet(Lru, s, a).lines, LruStep(list, a.tag, |s|))
  {
    hide AgeAll, Ranks, LruStep;
    var t := AgeAll(s);
    AgeKeepsRanks(s, list, n);
    AgedProper(s, n);
    var i := Search(t, a.tag, 0);
    if i == |t| {
      VictimIsWorst(Lru, t, |t|);
      EvictStep(t, list, Victim(Lru, t, |t|), a);
    } else if t[i].valid {
      HitStep(t, list, i, a);
    } else {
      FillStep(t, list, i, a);
    }
  }

  // ---- Whole traces

  // After any trace the set holds the tags most recently used, as many as it has ways.
  lemma {:induction false} HoldsMostRecent(ways: nat, trace: seq<Access>)
    requires ways > 0 && |trace| < TWO_32 - 1
    ensures Ranks(After(Lru, ways, trace), Take(Stack(trace), ways))
  {
    if trace != [] {
      var before, a := trace[..|trace| - 1], trace[|trace| - 1];
      HoldsMostRecent(ways, before);
      AfterProper(Lru, ways, before);
      AccessRanks(After(Lru, ways, before), Take(Stack(before), ways), a, |before|);
      StackDistinct(before);
      TakeOfMove(Stack(before), a.tag, ways);
    }
  }

  lemma ResidentIffRecent(ways: nat, trace: seq<Access>, tag: Word)
    requires ways > 0 && |trace| < TWO_32 - 1
    ensures Resident(After(Lru, ways, trace), tag) <==> tag in Take(Stack(trace), ways)
  {
    HoldsMostRecent(ways, trace);
  }

  // Inclusion: whatever is in the set with fewer ways is in the one with more.
  lemma Inclusion(few: nat, many: nat, trace: seq<Access>, tag: Word)
    requires 0 < few <= many && |trace| < TWO_32 - 1
    requires Resident(After(Lru, few, trace), tag)
    ensures Resident(After(Lru, many, trace), tag)
  {
    ResidentIffRecent(few, trace, tag);
    ResidentIffRecent(many, trace, tag);
    var list := Stack(trace);
    var i :| 0 <= i < |Take(list, few)| && Take(list, few)[i] == tag;
    assert Take(list, many)[i] == tag;
  }

  // An access hits exactly when its tag is resident.
  lemma HitsWhenResident(policy: Policy, s: CacheSet, a: Access, n: nat)
    requires |s| > 0 && Proper(s, n) && n + 1 < TWO_32
    ensures AccessSet(policy, s, a).event == Hit <==> Resident(s, a.tag)
  {
    hide AgeAll;
    AgedTimes(s, n);
    var t := AgeAll(s);
    var i := Search(t, a.tag, 0);
    if i < |t| {
      FrontIsValid(s, i);
    }
  }
}
