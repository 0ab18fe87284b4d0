// The chained hash table of words, with the count of each.
module HashTable {

  // A character as the hash function reads it: a signed byte.
  type Character = c: int | -128 <= c < 128
  type Word = seq<Character>

  datatype Node = Node(word: Word, num: nat)

  const HASH_MODULUS := 0x1_0000_0000_0000_0000  // unsigned long

  function HashFrom(hash: nat, str: Word): nat
    decreases str
  {
    if str == [] then hash else HashFrom((hash * 32 + hash + str[0]) % HASH_MODULUS, str[1..])
  }

  function HashCode(str: Word): nat { HashFrom(5381, str) }

  // The bucket of a word in a table of n buckets.
  function Home(word: Word, n: nat): nat
    requires n > 0
  {
    HashCode(word) % n
  }

  // ---- What a table holds

  ghost predicate Distinct(s: seq<Node>) {
    forall i, k :: 0 <= i < k < |s| ==> s[i].word != s[k].word
  }

  // The node at position k of bucket b belongs there and counts its word.
  ghost predicate NodeRight(table: seq<seq<Node>>, counts: map<Word, nat>, b: nat, k: nat)
    requires b < |table| && k < |table[b]|
  {
    var n := table[b][k];
    Home(n.word, |table|) == b && n.word in counts && counts[n.word] == n.num
  }

  ghost predicate Present(bucket: seq<Node>, word: Word) {
    exists k :: 0 <= k < |bucket| && bucket[k].word == word
  }

  // Each counted word has exactly one node, in its own bucket, with its count.
  ghost predicate Holds(table: seq<seq<Node>>, counts: map<Word, nat>) {
    && |table| > 0
    && (forall b, k {:trigger NodeRight(table, counts, b, k)} ::
          0 <= b < |table| && 0 <= k < |table[b]| ==> NodeRight(table, counts, b, k))
    && (forall b :: 0 <= b < |table| ==> Distinct(table[b]))
    && (forall w :: w in counts ==> Present(table[Home(w, |table|)], w))
  }

  // The bucket with one more node, at its front or at its end.
  ghost predicate Extends(was: seq<Node>, n: Node, bucket: seq<Node>, at: nat, shift: nat) {
    && |bucket| == |was| + 1 && at < |bucket| && bucket[at] == n
    && (shift == 0 ==> at == |was|) && (shift == 1 ==> at == 0) && shift <= 1
    && forall k :: 0 <= k < |was| ==> bucket[k + shift] == was[k]
  }

  lemma ExtendedDistinct(table: seq<seq<Node>>, counts: map<Word, nat>, n: Node, h: nat, bucket: seq<Node>, at: nat,
                         shift: nat)
    requires Holds(table, counts) && h < |table| && n.word !in counts && Extends(table[h], n, bucket, at, shift)
    ensures Distinct(bucket)
  {
    forall i, k | 0 <= i < k < |bucket|
      ensures bucket[i].word != bucket[k].word
    {
      assert i != at ==> bucket[i] == table[h][i - shift] && NodeRight(table, counts, h, i - shift);
      assert k != at ==> bucket[k] == table[h][k - shift] && NodeRight(table, counts, h, k - shift);
    }
  }

  lemma ExtendedRight(table: seq<seq<Node>>, counts: map<Word, nat>, n: Node, h: nat, bucket: seq<Node>, at: nat,
                      shift: nat, b: nat, k: nat)
    requires Holds(table, counts) && h < |table| && n.word !in counts && Extends(table[h], n, bucket, at, shift)
    requires h == Home(n.word, |table|) && b < |table| && k < |table[h := bucket][b]|
    ensures NodeRight(table[h := bucket], counts[n.word := n.num], b, k)
  {
    if b != h {
      assert NodeRight(table, counts, b, k);
    } else if k != at {
      assert bucket[k] == table[h][k - shift] && NodeRight(table, counts, b, k - shift);
    }
  }

  lemma ExtendedPresent(table: seq<seq<Node>>, counts: map<Word, nat>, n: Node, h: nat, bucket: seq<Node>, at: nat,
                        shift: nat, w: Word)
    requires Holds(table, counts) && h < |table| && Extends(table[h], n, bucket, at, shift)
    requires h == Home(n.word, |table|) && (w == n.word || w in counts)
    ensures Present(table[h := bucket][Home(w, |table|)], w)
  {
    if w == n.word {
      assert bucket[at].word == w;
    } else {
      var b := Home(w, |table|);
      assert Present(table[b], w);
      var k :| 0 <= k < |table[b]| && table[b][k].word == w;
      assert b == h ==> bucket[k + shift].word == w;
    }
  }

  // A node with a new word, put at either end of its bucket.
  lemma AddNode(table: seq<seq<Node>>, counts: map<Word, nat>, n: Node, bucket: seq<Node>)
    requires Holds(table, counts) && n.word !in counts
    requires var was := table[Home(n.word, |table|)]; bucket == was + [n] || bucket == [n] + was
    ensures Holds(table[Home(n.word, |table|) := bucket], counts[n.word := n.num])
  {
    var h := Home(n.word, |table|);
    var table', counts' := table[h := bucket], counts[n.word := n.num];
    var shift := if bucket == table[h] + [n] then 0 else 1;
    var at := if bucket == table[h] + [n] then |table[h]| else 0;
    assert Extends(table[h], n, bucket, at, shift);
    ExtendedDistinct(table, counts, n, h, bucket, at, shift);
    forall b, k | 0 <= b < |table'| && 0 <= k < |table'[b]|
      ensures NodeRight(table', counts', b, k)
    {
      ExtendedRight(table, counts, n, h, bucket, at, shift, b, k);
    }
    forall w | w in counts'
      ensures Present(table'[Home(w, |table'|)], w)
    {
      ExtendedPresent(table, counts, n, h, bucket, at, shift, w);
    }
    hide NodeRight, Present, Extends;
  }

  // Counting one more of a word that is there.
  lemma CountNode(table: seq<seq<Node>>, counts: map<Word, nat>, b: nat, k: nat)
    requires Holds(table, counts) && b < |table| && k < |table[b]|
    ensures var n := table[b][k];
      && n.word in counts && n.num == counts[n.word]
      && Holds(table[b := table[b][k := Node(n.word, n.num + 1)]], counts[n.word := n.num + 1])
  {
    var n := table[b][k];
    assert NodeRight(table, counts, b, k);
    var table', counts' := table[b := table[b][k := Node(n.word, n.num + 1)]], counts[n.word := n.num + 1];
    forall c, i | 0 <= c < |table'| && 0 <= i < |table'[c]|
      ensures NodeRight(table', counts', c, i)
    {
      assert NodeRight(table, counts, c, i);
      assert table'[c][i].word == table[c][i].word;
    }
    forall w | w in counts'
      ensures Present(table'[Home(w, |table'|)], w)
    {
      var c := Home(w, |table|);
      assert Present(table[c], w);
      var i :| 0 <= i < |table[c]| && table[c][i].word == w;
      assert table'[c][i].word == w;
    }
  }

  lemma NotPresent(table: seq<seq<Node>>, counts: map<Word, nat>, w: Word)
    requires Holds(table, counts)
    requires forall k :: 0 <= k < |table[Home(w, |table|)]| ==> table[Home(w, |table|)][k].word != w
    ensures w !in counts
  {
    assert w in counts ==> Present(table[Home(w, |table|)], w);
  }

  // ---- Moving the nodes to a larger table

  // The words of the first i buckets, and of the first k nodes of the next.
  ghost predicate Visited(table: seq<seq<Node>>, i: nat, k: nat, w: Word)
    requires |table| > 0
  {
    || Home(w, |table|) < i
    || (Home(w, |table|) == i < |table| && k <= |table[i]| && Present(table[i][..k], w))
  }

  ghost predicate Moved(table: seq<seq<Node>>, counts: map<Word, nat>, i: nat, k: nat, moved: map<Word, nat>)
    requires |table| > 0
  {
    forall w :: w in moved <==> w in counts && Visited(table, i, k, w)
  }

  lemma MoveNode(table: seq<seq<Node>>, counts: map<Word, nat>, i: nat, k: nat, moved: map<Word, nat>)
    requires Holds(table, counts) && i < |table| && k < |table[i]| && Moved(table, counts, i, k, moved)
    ensures table[i][k].word !in moved && table[i][k].word in counts && table[i][k].num == counts[table[i][k].word]
    ensures Moved(table, counts, i, k + 1, moved[table[i][k].word := table[i][k].num])
  {
    var n := table[i][k];
    assert NodeRight(table, counts, i, k);
    var before, after := table[i][..k], table[i][..k + 1];
    assert after == before + [n];
    assert !Present(before, n.word) by {
      forall j | 0 <= j < k
        ensures before[j].word != n.word
      {
        assert Distinct(table[i]);
      }
    }
    forall w
      ensures Present(after, w) <==> Present(before, w) || w == n.word
    {
      PresentInSum(before, n, w);
    }
    hide Holds, Present;
  }

  lemma PresentInSum(s: seq<Node>, n: Node, w: Word)
    ensures Present(s + [n], w) <==> Present(s, w) || w == n.word
  {
    var t := s + [n];
    if w == n.word {
      assert t[|s|].word == w;
    }
    if Present(s, w) {
      var k :| 0 <= k < |s| && s[k].word == w;
      assert t[k].word == w;
    }
  }

  lemma NextBucket(table: seq<seq<Node>>, counts: map<Word, nat>, i: nat, moved: map<Word, nat>)
    requires Holds(table, counts) && i < |table| && Moved(table, counts, i, |table[i]|, moved)
    ensures Moved(table, counts, i + 1, 0, moved)
  {
    assert table[i][..|table[i]|] == table[i];
    forall w | w in counts && Home(w, |table|) == i
      ensures Present(table[i], w)
    {
    }
    hide NodeRight;
  }

  lemma AllMoved(table: seq<seq<Node>>, counts: map<Word, nat>, moved: map<Word, nat>)
    requires Holds(table, counts) && Moved(table, counts, |table|, 0, moved)
    requires forall w :: w in moved && w in counts ==> moved[w] == counts[w]
    ensures moved == counts
  {
    assert forall w :: w in counts ==> w in moved;
  }

  // ---- Listing all nodes

  ghost predicate Listed(counts: map<Word, nat>, moved: map<Word, nat>, all: seq<Node>) {
    && Distinct(all) && |all| == |moved|
    && (forall n :: n in all ==> n.word in moved && n.word in counts && counts[n.word] == n.num)
  }

  lemma ListNode(counts: map<Word, nat>, moved: map<Word, nat>, all: seq<Node>, n: Node)
    requires Listed(counts, moved, all) && n.word !in moved && n.word in counts && counts[n.word] == n.num
    ensures Listed(counts, moved[n.word := n.num], all + [n])
  {
    assert forall k :: 0 <= k < |all| ==> all[k] in all;
    SizeGrows(moved, n.word, n.num);
  }

  lemma SizeGrows(m: map<Word, nat>, w: Word, v: nat)
    requires w !in m
    ensures |m[w := v]| == |m| + 1
  {
  }

  lemma SizeStays(m: map<Word, nat>, w: Word, v: nat)
    requires w in m
    ensures |m[w := v]| == |m|
  {
    assert m[w := v].Keys == m.Keys;
    assert |m[w := v]| == |m[w := v].Keys| && |m| == |m.Keys|;
  }

  // ---- The table

  const HASHSIZE := 500000

  function Bumped(counts: map<Word, nat>, str: Word): map<Word, nat> {
    counts[str := (if str in counts then counts[str] else 0) + 1]
  }

  class Blacklist {
    var hashmap: array<seq<Node>>  // cursize is its length
    var curcnt: nat
    ghost var counts: map<Word, nat>

    ghost predicate Valid()
      reads this, hashmap
    {
      Holds(hashmap[..], counts) && curcnt == |counts| && curcnt < hashmap.Length
    }

    constructor ()
      ensures Valid() && counts == map[] && fresh(hashmap) && hashmap.Length == HASHSIZE
    {
      hashmap := new seq<Node>[HASHSIZE](_ => []);
      curcnt := 0;
      counts := map[];
    }

    method Resize()
      requires Holds(hashmap[..], counts) && curcnt == |counts| && curcnt <= hashmap.Length
      modifies this`hashmap
      ensures Valid()
      ensures hashmap.Length == if curcnt < old(hashmap.Length) then old(hashmap.Length) else 2 * old(hashmap.Length)
      ensures hashmap == old(hashmap) || fresh(hashmap)
    {
      hide Holds, Moved;
      TableSize(hashmap[..], counts);
      QuotientBelowOne(curcnt, hashmap.Length);
      if (curcnt / hashmap.Length) as real < 0.7 {
        return;
      }
      var oldsize := hashmap.Length;
      var newsize := 2 * oldsize;
      var newmap := new seq<Node>[newsize](_ => []);
      ghost var table: seq<seq<Node>> := hashmap[..];
      ghost var moved: map<Word, nat> := map[];
      NothingMoved(table, counts, newmap[..]);
      for i := 0 to oldsize
        invariant hashmap[..] == table && newmap.Length == newsize && fresh(newmap)
        invariant Holds(newmap[..], moved) && Moved(table, counts, i, 0, moved) && Agrees(moved, counts)
      {
        var current := hashmap[i];
        ghost var k := 0;
        while current != []
          invariant k <= |table[i]| && current == table[i][k..]
          invariant hashmap[..] == table && newmap.Length == newsize && fresh(newmap)
          invariant Holds(newmap[..], moved) && Moved(table, counts, i, k, moved) && Agrees(moved, counts)
          decreases |current|
        {
          var n := current[0];
          MoveNode(table, counts, i, k, moved);
          var newhash := Home(n.word, newsize);
          ghost var before := newmap[..];
          newmap[newhash] := [n] + newmap[newhash];
          AddNode(before, moved, n, newmap[newhash]);
          assert newmap[..] == before[newhash := newmap[newhash]];
          moved := moved[n.word := n.num];
          current, k := current[1..], k + 1;
        }
        NextBucket(table, counts, i, moved);
      }
      AllMoved(table, counts, moved);
      hashmap := newmap;
    }

    method Insert(str: Word)
      requires Valid()
      modifies this, hashmap
      ensures Valid() && counts == Bumped(old(counts), str)
      ensures hashmap == old(hashmap) || fresh(hashmap)
    {
      hide Holds;
      TableSize(hashmap[..], counts);
      ghost var table: seq<seq<Node>> := hashmap[..];
      var hash: nat := Home(str, hashmap.Length);
      var k := 0;
      while k < |hashmap[hash]|
        invariant k <= |hashmap[hash]| && hashmap[..] == table && counts == old(counts)
        invariant forall j :: 0 <= j < k ==> table[hash][j].word != str
      {
        if hashmap[hash][k].word == str {
          CountNode(table, counts, hash, k);
          SizeStays(counts, str, counts[str] + 1);
          hashmap[hash] := hashmap[hash][k := Node(str, hashmap[hash][k].num + 1)];
          counts := Bumped(counts, str);
          assert hashmap[..] == table[hash := hashmap[hash]];
          return;
        }
        k := k + 1;
      }
      NotPresent(table, counts, str);
      AddNode(table, counts, Node(str, 1), table[hash] + [Node(str, 1)]);
      SizeGrows(counts, str, 1);
      hashmap[hash] := hashmap[hash] + [Node(str, 1)];
      counts := Bumped(counts, str);
      assert hashmap[..] == table[hash := hashmap[hash]];
      curcnt := curcnt + 1;
      Resize();
    }

    // A copy of every node; there is room for curcnt of them.
    method AllNodes() returns (all: seq<Node>)
      requires Valid()
      ensures |all| == curcnt && Distinct(all)
      ensures forall w: Word, num: nat :: Node(w, num) in all <==> w in counts && counts[w] == num
    {
      hide Holds, Moved;
      TableSize(hashmap[..], counts);
      ghost var table: seq<seq<Node>> := hashmap[..];
      ghost var moved: map<Word, nat> := map[];
      all := [];
      NothingVisited(table, counts);
      for i := 0 to hashmap.Length
        invariant Moved(table, counts, i, 0, moved) && Agrees(moved, counts) && Listed(counts, moved, all)
      {
        var current := hashmap[i];
        ghost var k := 0;
        while current != []
          invariant k <= |table[i]| && current == table[i][k..]
          invariant Moved(table, counts, i, k, moved) && Agrees(moved, counts) && Listed(counts, moved, all)
          decreases |current|
        {
          MoveNode(table, counts, i, k, moved);
          ListNode(counts, moved, all, current[0]);
          all := all + [current[0]];
          moved := moved[current[0].word := current[0].num];
          current, k := current[1..], k + 1;
        }
        NextBucket(table, counts, i, moved);
      }
      AllMoved(table, counts, moved);
      AllListed(counts, all);
    }
  }

  // The words read by main, one after the other.
  method CountWords(words: seq<Word>) returns (table: Blacklist)
    ensures fresh(table) && table.Valid()
    ensures forall w: Word :: w in table.counts <==> w in words
    ensures forall w :: w in table.counts ==> table.counts[w] == multiset(words)[w]
  {
    table := new Blacklist();
    for i := 0 to |words|
      invariant fresh(table) && fresh(table.hashmap) && table.Valid()
      invariant Tallies(table.counts, words[..i])
    {
      TallyOne(table.counts, words[..i], words[i]);
      assert words[..i + 1] == words[..i] + [words[i]];
      table.Insert(words[i]);
    }
    assert words[..|words|] == words;
  }

  ghost predicate Tallies(counts: map<Word, nat>, words: seq<Word>) {
    && (forall w :: w in counts <==> w in words)
    && (forall w :: w in counts ==> counts[w] == multiset(words)[w])
  }

  lemma TallyOne(counts: map<Word, nat>, words: seq<Word>, w: Word)
    requires Tallies(counts, words)
    ensures Tallies(Bumped(counts, w), words + [w])
  {
    assert w !in counts ==> multiset(words)[w] == 0 by {
      assert w in words <==> w in multiset(words);
    }
  }

  // ---- Bounds and starting points

  ghost predicate Agrees(moved: map<Word, nat>, counts: map<Word, nat>) {
    forall w :: w in moved && w in counts ==> moved[w] == counts[w]
  }

  lemma TableSize(table: seq<seq<Node>>, counts: map<Word, nat>)
    requires Holds(table, counts)
    ensures |table| > 0
  {
  }

  // The quotient is an int: it is below the load factor when it is 0.
  lemma QuotientBelowOne(count: nat, size: nat)
    requires count <= size && size > 0
    ensures (count / size) as real < 0.7 <==> count < size
  {
    if count < size {
      assert count / size == 0;
    } else {
      assert count / size == 1;
    }
  }

  lemma NothingVisited(table: seq<seq<Node>>, counts: map<Word, nat>)
    requires |table| > 0
    ensures Moved(table, counts, 0, 0, map[])
    ensures Listed(counts, map[], []) && Agrees(map[], counts)
  {
    assert table[0][..0] == [];
  }

  lemma NothingMoved(table: seq<seq<Node>>, counts: map<Word, nat>, empty: seq<seq<Node>>)
    requires |table| > 0 && |empty| > 0 && forall b :: 0 <= b < |empty| ==> empty[b] == []
    ensures Moved(table, counts, 0, 0, map[]) && Holds(empty, map[]) && Agrees(map[], counts)
  {
    NothingVisited(table, counts);
  }

  lemma AllListed(counts: map<Word, nat>, all: seq<Node>)
    requires Listed(counts, counts, all)
    ensures forall w: Word, num: nat :: Node(w, num) in all <==> w in counts && counts[w] == num
  {
    Names(all);
    var names := set n | n in all :: n.word;
    assert names <= counts.Keys && |names| == |counts.Keys|;
    SameSize(names, counts.Keys);
    forall w: Word, num: nat
      ensures Node(w, num) in all <==> w in counts && counts[w] == num
    {
      if w in counts {
        assert w in names;
        var n :| n in all && n.word == w;
        assert n == Node(w, counts[w]);
      }
    }
  }

  lemma SameSize(a: set<Word>, b: set<Word>)
    requires a <= b && |a| == |b|
    ensures a == b
  {
    assert b == a + (b - a) && |b| == |a| + |b - a|;
  }

  lemma {:induction false} Names(all: seq<Node>)
    requires Distinct(all)
    ensures |set n | n in all :: n.word| == |all|
  {
    if all != [] {
      var rest, last := all[..|all| - 1], all[|all| - 1];
      Names(rest);
      assert all == rest + [last];
      var names := set n | n in rest :: n.word;
      assert last.word !in names;
      assert (set n | n in all :: n.word) == names + {last.word};
    } else {
      assert (set n | n in all :: n.word) == {};
    }
  }
}
