// One set of the set-associative cache, as functions on its lines.
module CacheModel {

  const TWO_32 := 0x1_0000_0000

  type Word = w: nat | w < TWO_32

  datatype Line = Line(valid: bool, dirty: bool, tag: Word, data: Word, time: Word, freq: Word)

  type CacheSet = seq<Line>

  datatype Policy = Lru | Lflru

  datatype Access = Access(tag: Word, data: Word, write: bool)

  const EMPTY := Line(false, false, 0, 0, 0, 0)

  // ---- The steps of one access

  function Aged(l: Line): Line {
    if l.valid then l.(time := (l.time + 1) % TWO_32) else l
  }

  function AgeAll(s: CacheSet): (r: CacheSet)
    ensures |r| == |s| && forall i :: 0 <= i < |r| ==> r[i] == Aged(s[i])
  {
    seq(|s|, i requires 0 <= i < |s| => Aged(s[i]))
  }

  // The way at which the search stops: a hit, or the first empty way; |set| if neither.
  function Search(s: CacheSet, tag: Word, from: nat): (i: nat)
    requires from <= |s|
    ensures from <= i <= |s|
    ensures i < |s| ==> !s[i].valid || s[i].tag == tag
    ensures forall k :: from <= k < i ==> s[k].valid && s[k].tag != tag
    decreases |s| - from
  {
    if from == |s| || !s[from].valid || s[from].tag == tag then from else Search(s, tag, from + 1)
  }

  // Way i is evicted rather than way e, found earlier.
  predicate Replaces(policy: Policy, e: Line, l: Line) {
    match policy
    case Lru => e.time < l.time
    case Lflru => if e.freq == l.freq then e.time < l.time else e.freq > l.freq
  }

  // The victim among the first n ways.
  function Victim(policy: Policy, s: CacheSet, n: nat): (v: nat)
    requires 1 <= n <= |s|
    ensures v < n
  {
    if n == 1 then 0
    else
      var e := Victim(policy, s, n - 1);
      if Replaces(policy, s[e], s[n - 1]) then n - 1 else e
  }

  function Filled(a: Access): Line { Line(true, a.write, a.tag, a.data, 0, 1) }

  function Touched(l: Line, a: Access): Line {
    l.(dirty := l.dirty || a.write, time := 0, freq := (l.freq + 1) % TWO_32)
  }

  // What happened: a hit, or a miss with or without a write-back of the victim.
  datatype Event = Hit | Miss(writeback: bool)

  datatype Outcome = Outcome(lines: CacheSet, event: Event)

  function AccessSet(policy: Policy, s: CacheSet, a: Access): Outcome
    requires |s| > 0
  {
    var t := AgeAll(s);
    var i := Search(t, a.tag, 0);
    if i < |t| then
      if t[i].valid then Outcome(t[i := Touched(t[i], a)], Hit)
      else Outcome(t[i := Filled(a)], Miss(false))
    else
      var v := Victim(policy, t, |t|);
      Outcome(t[v := Filled(a)], Miss(t[v].dirty))
  }

  // The set after a sequence of accesses, from empty.
  function After(policy: Policy, ways: nat, trace: seq<Access>): (s: CacheSet)
    requires ways > 0
    ensures |s| == ways
  {
    if trace == [] then seq(ways, _ => EMPTY)
    else AccessSet(policy, After(policy, ways, trace[..|trace| - 1]), trace[|trace| - 1]).lines
  }

  // ---- The invariant of a set after n accesses

  ghost predicate ValidFirst(s: CacheSet) {
    forall i, k :: 0 <= i < k < |s| && s[k].valid ==> s[i].valid
  }

  ghost predicate TagsDiffer(s: CacheSet) {
    forall i, k :: 0 <= i < k < |s| && s[i].valid && s[k].valid ==> s[i].tag != s[k].tag
  }

  ghost predicate TimesDiffer(s: CacheSet) {
    forall i, k :: 0 <= i < k < |s| && s[i].valid && s[k].valid ==> s[i].time != s[k].time
  }

  ghost predicate Within(s: CacheSet, n: nat) {
    forall i :: 0 <= i < |s| && s[i].valid ==> s[i].time < n && 1 <= s[i].freq <= n
  }

  // Valid ways come first, with distinct tags and distinct ages.
  ghost predicate Proper(s: CacheSet, n: nat) {
    ValidFirst(s) && TagsDiffer(s) && TimesDiffer(s) && Within(s, n)
  }

  // Ageing adds one to every age: no counter wraps in fewer than 2^32 accesses.
  lemma AgedTimes(s: CacheSet, n: nat)
    requires Within(s, n) && n < TWO_32
    ensures forall i :: 0 <= i < |s| ==>
      AgeAll(s)[i] == if s[i].valid then s[i].(time := s[i].time + 1) else s[i]
  {
  }

  lemma AgedProper(s: CacheSet, n: nat)
    requires Proper(s, n) && n < TWO_32
    ensures ValidFirst(AgeAll(s)) && TagsDiffer(AgeAll(s)) && TimesDiffer(AgeAll(s))
    ensures Within(AgeAll(s), n + 1)
    ensures forall i :: 0 <= i < |s| && s[i].valid ==> AgeAll(s)[i].time > 0 && AgeAll(s)[i].freq <= n
  {
    hide AgeAll, Aged;
    AgedTimes(s, n);
  }

  // Putting a line of age 0 into way i.
  lemma PlacedProper(t: CacheSet, i: nat, l: Line, n: nat)
    requires i < |t| && ValidFirst(t) && TagsDiffer(t) && TimesDiffer(t) && Within(t, n)
    requires forall k :: 0 <= k < |t| && t[k].valid ==> t[k].time > 0
    requires l.valid && l.time == 0 && 1 <= l.freq <= n
    requires forall k :: 0 <= k < i ==> t[k].valid
    requires forall k :: 0 <= k < |t| && k != i && t[k].valid ==> t[k].tag != l.tag
    ensures Proper(t[i := l], n)
  {
  }

  lemma AccessProper(policy: Policy, s: CacheSet, a: Access, n: nat)
    requires |s| > 0 && Proper(s, n) && n + 1 < TWO_32
    ensures Proper(AccessSet(policy, s, a).lines, n + 1)
  {
    hide AgeAll, ValidFirst, TimesDiffer;
    AgedProper(s, n);
    var t := AgeAll(s);
    var i := Search(t, a.tag, 0);
    if i < |t| {
      FrontIsValid(t, i);
      PlacedProper(t, i, if t[i].valid then Touched(t[i], a) else Filled(a), n + 1);
    } else {
      PlacedProper(t, Victim(policy, t, |t|), Filled(a), n + 1);
    }
  }

  lemma FrontIsValid(t: CacheSet, i: nat)
    requires ValidFirst(t) && i < |t|
    ensures t[i].valid ==> forall k :: 0 <= k < i ==> t[k].valid
    ensures !t[i].valid ==> forall k :: i <= k < |t| ==> !t[k].valid
  {
  }

  lemma {:induction false} AfterProper(policy: Policy, ways: nat, trace: seq<Access>)
    requires ways > 0 && |trace| < TWO_32 - 1
    ensures Proper(After(policy, ways, trace), |trace|)
  {
    if trace != [] {
      AfterProper(policy, ways, trace[..|trace| - 1]);
      AccessProper(policy, After(policy, ways, trace[..|trace| - 1]), trace[|trace| - 1], |trace| - 1);
    }
  }

  // ---- The victim

  // A policy must evict v rather than l: v is older, or less often used.
  predicate Worse(policy: Policy, v: Line, l: Line) {
    match policy
    case Lru => v.time > l.time
    case Lflru => v.freq < l.freq || (v.freq == l.freq && v.time > l.time)
  }

  ghost predicate WorstOf(policy: Policy, s: CacheSet, n: nat, v: nat)
    requires v < n <= |s|
  {
    forall i :: 0 <= i < n && i != v ==> Worse(policy, s[v], s[i])
  }

  lemma {:induction false} VictimIsWorst(policy: Policy, s: CacheSet, n: nat)
    requires 1 <= n <= |s|
    requires forall i, k :: 0 <= i < k < n ==> s[i].time != s[k].time
    ensures WorstOf(policy, s, n, Victim(policy, s, n))
  {
    if n > 1 {
      VictimIsWorst(policy, s, n - 1);
    }
  }

  // On a full set a miss evicts the one line that is worse than all others, and
  // writes it back exactly when it is dirty.
  lemma EvictsTheWorst(policy: Policy, s: CacheSet, a: Access, n: nat)
    requires |s| > 0 && Proper(s, n) && n + 1 < TWO_32
    requires forall i :: 0 <= i < |s| ==> s[i].valid && s[i].tag != a.tag
    ensures var v := Victim(policy, AgeAll(s), |s|);
      && WorstOf(policy, s, |s|, v)
      && (forall u: nat :: u < |s| && WorstOf(policy, s, |s|, u) ==> u == v)
      && AccessSet(policy, s, a) == Outcome(AgeAll(s)[v := Filled(a)], Miss(s[v].dirty))
  {
    hide AgeAll;
    AgedProper(s, n);
    AgedTimes(s, n);
    VictimIsWorst(policy, AgeAll(s), |s|);
  }
}
