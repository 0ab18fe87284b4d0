// The whole cache: address arithmetic, the simulator's loops, and runs over traces.
module CacheSimulator {
  import opened CacheModel
  import opened Recency

  // ---- Address arithmetic

  function Pow2(n: nat): (r: nat)
    ensures r > 0
  {
    if n == 0 then 1 else 2 * Pow2(n - 1)
  }

  // get_bit: the position of the highest set bit, -1 for zero.
  method GetBit(n: int) returns (bits: int)
    ensures n < 0 ==> bits == 0
    ensures n == 0 ==> bits == -1
    ensures n > 0 ==> bits >= 0 && Pow2(bits) <= n < Pow2(bits + 1)
  {
    if n < 0 {
      return 0;
    }
    var cnt, m := 0, n;
    while m != 0
      invariant 0 <= m && 0 <= cnt
      invariant m * Pow2(cnt) <= n < (m + 1) * Pow2(cnt)
      invariant n > 0 ==> m > 0 || (cnt > 0 && Pow2(cnt - 1) <= n)
      invariant n == 0 ==> cnt == 0
      decreases m
    {
      HalveBounds(m, n, cnt);
      if m == 1 {
        assert 1 * Pow2(cnt) <= n;
      }
      m := m / 2;
      cnt := cnt + 1;
    }
    return cnt - 1;
  }

  lemma HalveBounds(m: nat, n: nat, cnt: nat)
    requires m * Pow2(cnt) <= n < (m + 1) * Pow2(cnt)
    ensures (m / 2) * Pow2(cnt + 1) <= n < (m / 2 + 1) * Pow2(cnt + 1)
  {
    var p, h := Pow2(cnt), m / 2;
    assert Pow2(cnt + 1) == 2 * p;
    assert h * (2 * p) == (2 * h) * p && (h + 1) * (2 * p) == (2 * h + 2) * p;
    assert (2 * h) * p <= m * p;
    assert (m + 1) * p <= (2 * h + 2) * p;
  }

  // Block and set of an address, for 2^setBits sets of 2^blockBits bytes.
  datatype Geometry = Geometry(numSet: nat, blockSize: nat, setBits: nat, blockBits: nat) {
    // `setBits` and `blockBits` are what get_bit returns. One set of one-byte
    // blocks would make the simulator shift by the width of the word.
    ghost predicate Valid() {
      && Pow2(setBits) <= numSet < Pow2(setBits + 1)
      && Pow2(blockBits) <= blockSize < Pow2(blockBits + 1)
      && 1 <= setBits + blockBits <= 31
    }

    function Tag(addr: Word): Word
    {
      QuotientBound(addr, Pow2(setBits + blockBits));
      addr / Pow2(setBits + blockBits)
    }

    // ((addr << (32 - s - b)) >> b) >> (32 - s - b)
    function Index(addr: Word): nat
      requires setBits + blockBits <= 32
    {
      var shift := Pow2(32 - setBits - blockBits);
      var left := (addr * shift) % TWO_32;
      QuotientNonNegative(left, Pow2(blockBits));
      QuotientNonNegative(left / Pow2(blockBits), shift);
      left / Pow2(blockBits) / shift
    }

    function Data(addr: Word): Word
      requires blockSize > 0
    {
      RemainderBound(addr, blockSize);
      addr - addr % blockSize
    }
  }

  lemma QuotientBound(a: nat, d: nat)
    requires d > 0
    ensures 0 <= a / d <= a
  {
    DivUnique(a, d, a / d, a % d);
    if a / d > a {
      MulMonotone(1, d, a / d);
    }
  }

  lemma RemainderBound(a: nat, d: nat)
    requires d > 0
    ensures 0 <= a % d <= a
  {
    MulMonotone(0, d, a / d);
    QuotientNonNegative(a, d);
  }

  lemma QuotientNonNegative(a: nat, d: nat)
    requires d > 0
    ensures a / d >= 0
  {
  }

  lemma MulMonotone(a: int, b: int, c: int)
    requires a <= b && c >= 0
    ensures a * c <= b * c
  {
  }

  lemma DivUnique(x: int, d: int, q: int, r: int)
    requires d > 0 && x == d * q + r && 0 <= r < d
    ensures x / d == q && x % d == r
  {
    var q', r' := x / d, x % d;
    assert d * (q' - q) == r - r';
    if q' > q {
      MulMonotone(1, q' - q, d);
    } else if q' < q {
      MulMonotone(1, q - q', d);
    }
  }

  lemma Pow2Sum(a: nat, b: nat)
    ensures Pow2(a + b) == Pow2(a) * Pow2(b)
  {
    if a > 0 {
      Pow2Sum(a - 1, b);
      assert 2 * (Pow2(a - 1) * Pow2(b)) == (2 * Pow2(a - 1)) * Pow2(b);
    }
  }

  lemma Pow2Of32()
    ensures Pow2(32) == TWO_32
  {
    assert Pow2(8) == 0x100;
    assert Pow2(16) == 0x1_0000;
    assert Pow2(24) == 0x100_0000;
  }

  lemma ScaledRemainder(x: nat, c: nat, m: nat)
    requires c > 0 && m > 0
    ensures (x * c) % (c * m) == c * (x % m)
  {
    var q, r := x / m, x % m;
    assert x * c == (m * q + r) * c == (c * m) * q + c * r;
    MulMonotone(r + 1, m, c);
    assert c * r < c * m;
    DivUnique(x * c, c * m, q, c * r);
  }

  lemma Division(x: int, d: int)
    requires d > 0
    ensures x == d * (x / d) + x % d && 0 <= x % d < d
  {
  }

  lemma ScaledQuotient(y: nat, b: nat, c: nat)
    requires b > 0 && c > 0
    ensures (c * y) / b / c == y / b
  {
    var q, r := y / b, y % b;
    var t, u := (c * r) / b, (c * r) % b;
    Division(y, b);
    Division(c * r, b);
    QuotientNonNegative(c * r, b);
    ScaledSum(y, b, c, q, r, t, u);
    DivUnique(c * y, b, c * q + t, u);
    if t >= c {
      MulMonotone(c, t, b);
      MulMonotone(r + 1, b, c);
    }
    DivUnique(c * q + t, c, q, t);
  }

  lemma ScaledSum(y: int, b: int, c: int, q: int, r: int, t: int, u: int)
    requires y == b * q + r && c * r == b * t + u
    ensures c * y == b * (c * q + t) + u
  {
    assert c * y == c * (b * q) + c * r;
    assert c * (b * q) == b * (c * q);
    assert b * (c * q + t) == b * (c * q) + b * t;
  }

  lemma QuotientOfRemainder(x: nat, b: nat, s: nat)
    requires b > 0 && s > 0
    ensures (x % (b * s)) / b == (x / b) % s && x / (b * s) == x / b / s
  {
    var q, r := x / b, x % b;
    var p, t := q / s, q % s;
    assert x == b * (s * p + t) + r == (b * s) * p + (b * t + r);
    MulMonotone(t + 1, s, b);
    MulMonotone(0, t, b);
    DivUnique(x, b * s, p, b * t + r);
    DivUnique(b * t + r, b, t, r);
  }

  // The shifts of the simulator compute the set number of the block.
  lemma IndexMeaning(g: Geometry, addr: Word)
    requires g.Valid()
    ensures g.Index(addr) == (addr / Pow2(g.blockBits)) % Pow2(g.setBits)
    ensures g.Index(addr) < g.numSet
    ensures g.Tag(addr) == addr / Pow2(g.blockBits) / Pow2(g.setBits)
  {
    var b, s, c := Pow2(g.blockBits), Pow2(g.setBits), Pow2(32 - g.setBits - g.blockBits);
    Pow2Of32();
    Pow2Sum(g.blockBits, g.setBits);
    Pow2Sum(32 - g.setBits - g.blockBits, g.setBits + g.blockBits);
    ScaledRemainder(addr, c, b * s);
    var low := addr % (b * s);
    ScaledQuotient(low, b, c);
    QuotientOfRemainder(addr, b, s);
  }

  lemma Commutes(a: int, b: int)
    ensures a * b == b * a
  {
  }

  // Tag and set number identify the block; with power-of-two blocks they also give
  // the address that the cache dump prints.
  lemma TagAndIndexIdentify(g: Geometry, addr: Word)
    requires g.Valid()
    ensures addr / Pow2(g.blockBits) == g.Tag(addr) * Pow2(g.setBits) + g.Index(addr)
    ensures g.blockSize == Pow2(g.blockBits) ==>
      g.Data(addr) == (g.Tag(addr) * Pow2(g.setBits) + g.Index(addr)) * g.blockSize
  {
    IndexMeaning(g, addr);
    var block, sets := addr / Pow2(g.blockBits), Pow2(g.setBits);
    Division(addr, Pow2(g.blockBits));
    Division(block, sets);
    Commutes(sets, block / sets);
    Commutes(block, Pow2(g.blockBits));
  }

  // ---- Runs over a trace

  datatype Op = Op(addr: Word, write: bool)

  datatype Stat = Stat(writeback: nat, readhit: nat, writehit: nat, readmiss: nat, writemiss: nat)

  function Counted(st: Stat, write: bool, e: Event): Stat {
    match e
    case Hit => if write then st.(writehit := st.writehit + 1) else st.(readhit := st.readhit + 1)
    case Miss(writeback) =>
      var t := st.(writeback := st.writeback + if writeback then 1 else 0);
      if write then t.(writemiss := t.writemiss + 1) else t.(readmiss := t.readmiss + 1)
  }

  function AccessOf(g: Geometry, op: Op): Access
    requires g.blockSize > 0
  {
    Access(g.Tag(op.addr), g.Data(op.addr), op.write)
  }

  // The accesses of a trace that go to one set.
  ghost function ToSet(g: Geometry, ops: seq<Op>, i: nat): (r: seq<Access>)
    requires g.Valid()
    ensures |r| <= |ops|
  {
    if ops == [] then []
    else
      var rest := ToSet(g, ops[..|ops| - 1], i);
      var op := ops[|ops| - 1];
      if g.Index(op.addr) == i then rest + [AccessOf(g, op)] else rest
  }

  datatype Sim = Sim(sets: seq<CacheSet>, stat: Stat)

  ghost predicate Shaped(g: Geometry, ways: nat, c: Sim) {
    ways > 0 && |c.sets| == g.numSet && forall i :: 0 <= i < |c.sets| ==> |c.sets[i]| == ways
  }

  ghost function Step(g: Geometry, policy: Policy, ways: nat, c: Sim, op: Op): (r: Sim)
    requires g.Valid() && Shaped(g, ways, c)
    ensures Shaped(g, ways, r)
  {
    IndexMeaning(g, op.addr);
    var i := g.Index(op.addr);
    var out := AccessSet(policy, c.sets[i], AccessOf(g, op));
    Sim(c.sets[i := out.lines], Counted(c.stat, op.write, out.event))
  }

  ghost function Built(g: Geometry, ways: nat): Sim {
    Sim(seq(g.numSet, _ => seq(ways, _ => EMPTY)), Stat(0, 0, 0, 0, 0))
  }

  ghost function RunTrace(g: Geometry, policy: Policy, ways: nat, ops: seq<Op>): (c: Sim)
    requires g.Valid() && ways > 0
    ensures Shaped(g, ways, c)
  {
    if ops == [] then Built(g, ways)
    else Step(g, policy, ways, RunTrace(g, policy, ways, ops[..|ops| - 1]), ops[|ops| - 1])
  }

  // Each set sees only its own accesses.
  lemma {:induction false} SetsAreIndependent(g: Geometry, policy: Policy, ways: nat, ops: seq<Op>, i: nat)
    requires g.Valid() && ways > 0 && i < g.numSet
    ensures RunTrace(g, policy, ways, ops).sets[i] == After(policy, ways, ToSet(g, ops, i))
  {
    hide AccessSet, AccessOf;
    if ops != [] {
      SetsAreIndependent(g, policy, ways, ops[..|ops| - 1], i);
      IndexMeaning(g, ops[|ops| - 1].addr);
      var rest := ToSet(g, ops[..|ops| - 1], i);
      var t := ToSet(g, ops, i);
      if g.Index(ops[|ops| - 1].addr) == i {
        assert t[..|t| - 1] == rest;
      }
    }
  }

  // Every block in the cache with fewer ways is also in the one with more.
  lemma CacheInclusion(g: Geometry, few: nat, many: nat, ops: seq<Op>, i: nat, tag: Word)
    requires g.Valid() && 0 < few <= many && |ops| < TWO_32 - 1 && i < g.numSet
    requires Resident(RunTrace(g, Lru, few, ops).sets[i], tag)
    ensures Resident(RunTrace(g, Lru, many, ops).sets[i], tag)
  {
    SetsAreIndependent(g, Lru, few, ops, i);
    SetsAreIndependent(g, Lru, many, ops, i);
    Inclusion(few, many, ToSet(g, ops, i), tag);
  }

  lemma HitWhenResident(g: Geometry, policy: Policy, ways: nat, ops: seq<Op>, op: Op)
    requires g.Valid() && ways > 0 && |ops| < TWO_32 - 1 && g.Index(op.addr) < g.numSet
    ensures var s := RunTrace(g, policy, ways, ops).sets[g.Index(op.addr)];
      AccessSet(policy, s, AccessOf(g, op)).event == Hit <==> Resident(s, g.Tag(op.addr))
  {
    var i := g.Index(op.addr);
    var trace := ToSet(g, ops, i);
    SetsAreIndependent(g, policy, ways, ops, i);
    AfterProper(policy, ways, trace);
    HitsWhenResident(policy, After(policy, ways, trace), AccessOf(g, op), |trace|);
  }

  // Under LRU, adding ways loses no read hit and no write hit.
  lemma {:induction false} MoreWaysMoreHits(g: Geometry, few: nat, many: nat, ops: seq<Op>)
    requires g.Valid() && 0 < few <= many && |ops| < TWO_32
    ensures RunTrace(g, Lru, few, ops).stat.readhit <= RunTrace(g, Lru, many, ops).stat.readhit
    ensures RunTrace(g, Lru, few, ops).stat.writehit <= RunTrace(g, Lru, many, ops).stat.writehit
  {
    if ops != [] {
      var before, op := ops[..|ops| - 1], ops[|ops| - 1];
      MoreWaysMoreHits(g, few, many, before);
      IndexMeaning(g, op.addr);
      var i := g.Index(op.addr);
      HitWhenResident(g, Lru, few, before, op);
      HitWhenResident(g, Lru, many, before, op);
      if Resident(RunTrace(g, Lru, few, before).sets[i], g.Tag(op.addr)) {
        CacheInclusion(g, few, many, before, i, g.Tag(op.addr));
      }
    }
  }

  function Reads(ops: seq<Op>): nat {
    if ops == [] then 0 else Reads(ops[..|ops| - 1]) + if ops[|ops| - 1].write then 0 else 1
  }

  // Every read and every write is counted once, as a hit or as a miss, and no more
  // lines are written back than were fetched.
  lemma {:induction false} EveryAccessCounted(g: Geometry, policy: Policy, ways: nat, ops: seq<Op>)
    requires g.Valid() && ways > 0
    ensures var st := RunTrace(g, policy, ways, ops).stat;
      && st.readhit + st.readmiss == Reads(ops)
      && st.writehit + st.writemiss == |ops| - Reads(ops)
      && st.writeback <= st.readmiss + st.writemiss
  {
    if ops != [] {
      EveryAccessCounted(g, policy, ways, ops[..|ops| - 1]);
    }
  }

  // ---- The simulator

  class Simulator {
    const lines: array2<Line>
    const numSet: nat
    const numWay: nat
    const blockSize: nat
    var writeback: nat
    var readhit: nat
    var writehit: nat
    var readmiss: nat
    var writemiss: nat

    ghost predicate Valid()
      reads this
    {
      lines.Length0 == numSet > 0 && lines.Length1 == numWay > 0 && blockSize > 0
    }

    ghost function Row(i: nat): (r: CacheSet)
      reads this, lines
      requires Valid() && i < numSet
      ensures |r| == numWay && forall j :: 0 <= j < numWay ==> r[j] == lines[i, j]
    {
      seq(numWay, j requires 0 <= j < numWay reads this, lines => lines[i, j])
    }

    ghost function Counters(): Stat
      reads this
    {
      Stat(writeback, readhit, writehit, readmiss, writemiss)
    }

    // build_cache
    constructor (numSet: nat, numWay: nat, blockSize: nat)
      requires numSet > 0 && numWay > 0 && blockSize > 0
      ensures Valid() && fresh(lines)
      ensures this.numSet == numSet && this.numWay == numWay && this.blockSize == blockSize
      ensures forall i :: 0 <= i < numSet ==> Row(i) == seq(numWay, _ => EMPTY)
      ensures Counters() == Stat(0, 0, 0, 0, 0)
    {
      this.numSet, this.numWay, this.blockSize := numSet, numWay, blockSize;
      lines := new Line[numSet, numWay]((_, _) => EMPTY);
      writeback, readhit, writehit, readmiss, writemiss := 0, 0, 0, 0, 0;
    }

    // The first loop: every valid line of the set gets older.
    method AgeSet(index: nat)
      requires Valid() && index < numSet
      modifies lines
      ensures Row(index) == AgeAll(old(Row(index)))
      ensures forall k :: 0 <= k < numSet && k != index ==> Row(k) == old(Row(k))
    {
      for i := 0 to numWay
        invariant forall j :: 0 <= j < i ==> lines[index, j] == Aged(old(lines[index, j]))
        invariant forall j :: i <= j < numWay ==> lines[index, j] == old(lines[index, j])
        invariant forall k, j :: 0 <= k < numSet && k != index && 0 <= j < numWay ==> lines[k, j] == old(lines[k, j])
      {
        if lines[index, i].valid {
          lines[index, i] := lines[index, i].(time := (lines[index, i].time + 1) % TWO_32);
        }
      }
    }

    method FindVictim(index: nat, lruOnly: bool) returns (v: nat)
      requires Valid() && index < numSet
      ensures v < numWay && v == Victim(if lruOnly then Lru else Lflru, Row(index), numWay)
    {
      v := 0;
      if lruOnly {
        for i := 1 to numWay
          invariant v < i && v == Victim(Lru, Row(index), i)
        {
          if lines[index, v].time < lines[index, i].time {
            v := i;
          }
        }
      } else {
        for i := 1 to numWay
          invariant v < i && v == Victim(Lflru, Row(index), i)
        {
          if lines[index, v].freq == lines[index, i].freq {
            if lines[index, v].time < lines[index, i].time {
              v := i;
            }
          } else if lines[index, v].freq > lines[index, i].freq {
            v := i;
          }
        }
      }
    }

    // The second loop: the way of a hit or the first empty way.
    method FindWay(index: nat, tag: Word) returns (i: nat)
      requires Valid() && index < numSet
      ensures i == Search(Row(index), tag, 0)
    {
      i := 0;
      while i < numWay && lines[index, i].valid && lines[index, i].tag != tag
        invariant i <= numWay && Search(Row(index), tag, i) == Search(Row(index), tag, 0)
      {
        i := i + 1;
      }
    }

    method CountMiss(write: bool)
      modifies this`readmiss, this`writemiss
      ensures Counters() == Counted(old(Counters()), write, Miss(false))
    {
      if write {
        writemiss := writemiss + 1;
      } else {
        readmiss := readmiss + 1;
      }
    }

    method SetLine(index: nat, way: nat, l: Line)
      requires Valid() && index < numSet && way < numWay
      modifies lines
      ensures Row(index) == old(Row(index))[way := l]
      ensures forall k :: 0 <= k < numSet && k != index ==> Row(k) == old(Row(k))
    {
      lines[index, way] := l;
    }

    // access_cache, once tag, index and data are computed.
    method AccessLine(index: nat, a: Access, lruOnly: bool)
      requires Valid() && index < numSet
      modifies this`writeback, this`readhit, this`writehit, this`readmiss, this`writemiss, lines
      ensures var out := AccessSet(if lruOnly then Lru else Lflru, old(Row(index)), a);
        && Row(index) == out.lines
        && Counters() == Counted(old(Counters()), a.write, out.event)
      ensures forall k :: 0 <= k < numSet && k != index ==> Row(k) == old(Row(k))
    {
      hide AgeAll, Victim, Search;
      AgeSet(index);
      var i := FindWay(index, a.tag);
      if i < numWay {
        if lines[index, i].valid {
          if a.write {
            writehit := writehit + 1;
          } else {
            readhit := readhit + 1;
          }
          SetLine(index, i, Touched(lines[index, i], a));
        } else {
          CountMiss(a.write);
          SetLine(index, i, Filled(a));
        }
        return;
      }
      var v := FindVictim(index, lruOnly);
      CountMiss(a.write);
      if lines[index, v].dirty {
        writeback := writeback + 1;
      }
      SetLine(index, v, Filled(a));
    }

    ghost function View(): (c: Sim)
      reads this, lines
      requires Valid()
      ensures |c.sets| == numSet && forall i :: 0 <= i < numSet ==> c.sets[i] == Row(i)
    {
      Sim(seq(numSet, i requires 0 <= i < numSet reads this, lines => Row(i)), Counters())
    }

    // access_cache. The geometry is determined by numSet and blockSize.
    method AccessCache(op: Op, lruOnly: bool, ghost g: Geometry)
      requires Valid() && g.Valid() && g.numSet == numSet && g.blockSize == blockSize
      modifies this`writeback, this`readhit, this`writehit, this`readmiss, this`writemiss, lines
      ensures Shaped(g, numWay, old(View()))
      ensures View() == Step(g, if lruOnly then Lru else Lflru, numWay, old(View()), op)
    {
      var s := GetBit(numSet);
      var b := GetBit(blockSize);
      BitsUnique(numSet, s, g.setBits);
      BitsUnique(blockSize, b, g.blockBits);
      var here := Geometry(numSet, blockSize, s, b);
      var tag, index, data := here.Tag(op.addr), here.Index(op.addr), here.Data(op.addr);
      IndexMeaning(g, op.addr);
      AccessLine(index, Access(tag, data, op.write), lruOnly);
      assert View().sets == Step(g, if lruOnly then Lru else Lflru, numWay, old(View()), op).sets;
    }
  }

  lemma {:induction false} Pow2Monotone(a: nat, b: nat)
    requires a <= b
    ensures Pow2(a) <= Pow2(b)
    decreases b
  {
    if a < b {
      Pow2Monotone(a, b - 1);
    }
  }

  lemma BitsUnique(n: nat, a: nat, b: nat)
    requires Pow2(a) <= n < Pow2(a + 1) && Pow2(b) <= n < Pow2(b + 1)
    ensures a == b
  {
    if a < b {
      Pow2Monotone(a + 1, b);
    } else if b < a {
      Pow2Monotone(b + 1, a);
    }
  }
}
