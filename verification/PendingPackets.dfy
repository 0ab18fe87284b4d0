// The router's queue of packets that wait for the answer to an ARP request.
module PendingPackets {

  type Ip = n: nat | n < 0x1_0000_0000
  type Mac = nat

  datatype Option<T> = None | Some(value: T)

  datatype Packet = Packet(src: Ip, dst: Ip, ttl: nat, body: nat)

  datatype Queued = Queued(packet: Packet, iface: string)

  datatype Request = Request(ip: Ip, sent: int, timesSent: nat, packets: seq<Queued>)

  datatype Entry = Entry(valid: bool, ip: Ip, mac: Mac)

  // What sr_send_packet is given.
  datatype Frame = IpFrame(packet: Packet, mac: Mac, iface: string) | ArpFrame(ip: Ip, iface: string)

  const CACHE_SIZE := 100
  const INIT_TTL := 255

  // ---- The queue

  // All packets that wait.
  function Waiting(requests: seq<Request>): multiset<Queued> {
    if requests == [] then multiset{}
    else Waiting(requests[..|requests| - 1]) + multiset(requests[|requests| - 1].packets)
  }

  lemma {:induction false} WaitingSum(a: seq<Request>, b: seq<Request>)
    ensures Waiting(a + b) == Waiting(a) + Waiting(b)
  {
    hide Waiting;
    if b == [] {
      assert a + b == a;
      NoneWaits();
    } else {
      WaitingSum(a, b[..|b| - 1]);
      LastWaits(b);
      LastWaits(a + b);
      assert (a + b)[..|a + b| - 1] == a + b[..|b| - 1];
    }
  }

  lemma NoneWaits()
    ensures Waiting([]) == multiset{}
  {
  }

  lemma LastWaits(s: seq<Request>)
    requires s != []
    ensures Waiting(s) == Waiting(s[..|s| - 1]) + multiset(s[|s| - 1].packets)
  {
  }

  lemma OneMoreWaits(s: seq<Request>, r: Request)
    ensures Waiting(s + [r]) == Waiting(s) + multiset(r.packets)
  {
    assert (s + [r])[..|s|] == s;
  }

  lemma WaitingReplaced(requests: seq<Request>, i: nat, r: Request)
    requires i < |requests|
    ensures Waiting(requests[i := r]) == Waiting(requests[..i]) + multiset(r.packets) + Waiting(requests[i + 1..])
  {
    var a, b := requests[..i], requests[i + 1..];
    assert requests[i := r] == (a + [r]) + b;
    WaitingSum(a + [r], b);
    assert (a + [r])[..|a + [r]| - 1] == a;
  }

  // The position of the request for ip, or the length.
  function Find(requests: seq<Request>, ip: Ip): (i: nat)
    ensures i <= |requests| && (i < |requests| ==> requests[i].ip == ip)
    ensures forall k :: 0 <= k < i ==> requests[k].ip != ip
  {
    if requests == [] then 0 else if requests[0].ip == ip then 0 else 1 + Find(requests[1..], ip)
  }

  // One request for each address, and none without a packet.
  ghost predicate Orderly(requests: seq<Request>) {
    && (forall i, k :: 0 <= i < k < |requests| ==> requests[i].ip != requests[k].ip)
    && (forall i :: 0 <= i < |requests| ==> requests[i].packets != [] && requests[i].timesSent <= 5)
  }

  // q in front of the packets that wait for ip.
  function WithPacket(requests: seq<Request>, ip: Ip, q: Queued): seq<Request> {
    var i := Find(requests, ip);
    if i < |requests| then requests[i := requests[i].(packets := [q] + requests[i].packets)]
    else requests + [Request(ip, 0, 0, [q])]
  }

  lemma WithPacketWaits(requests: seq<Request>, ip: Ip, q: Queued)
    requires Orderly(requests)
    ensures Orderly(WithPacket(requests, ip, q))
    ensures Waiting(WithPacket(requests, ip, q)) == Waiting(requests) + multiset{q}
  {
    hide Waiting, Find;
    var i := Find(requests, ip);
    if i < |requests| {
      var r := requests[i].(packets := [q] + requests[i].packets);
      WaitingReplaced(requests, i, r);
      WaitingReplaced(requests, i, requests[i]);
      assert requests[i := requests[i]] == requests;
      assert multiset(r.packets) == multiset{q} + multiset(requests[i].packets);
    } else {
      var r := Request(ip, 0, 0, [q]);
      LastWaits(requests + [r]);
      assert (requests + [r])[..|requests|] == requests;
      assert multiset(r.packets) == multiset{q};
    }
  }

  function Without(requests: seq<Request>, i: nat): seq<Request>
    requires i < |requests|
  {
    requests[..i] + requests[i + 1..]
  }

  lemma WithoutWaits(requests: seq<Request>, i: nat)
    requires Orderly(requests) && i < |requests|
    ensures Orderly(Without(requests, i)) && Find(Without(requests, i), requests[i].ip) == |requests| - 1
    ensures Waiting(requests) == Waiting(Without(requests, i)) + multiset(requests[i].packets)
  {
    hide Waiting, Find;
    WaitingReplaced(requests, i, requests[i]);
    assert requests[i := requests[i]] == requests;
    WaitingSum(requests[..i], requests[i + 1..]);
    var r := Without(requests, i);
    WithoutMembers(requests, i);
    assert forall k :: 0 <= k < |r| ==> r[k].ip != requests[i].ip;
  }

  lemma WithoutMembers(requests: seq<Request>, i: nat)
    requires i < |requests|
    ensures var r := Without(requests, i);
      |r| == |requests| - 1 && forall k :: 0 <= k < |r| ==> r[k] == requests[if k < i then k else k + 1]
  {
  }

  // The same requests in the same places, with packets put in front, and new requests
  // behind that have not been sent yet.
  ghost predicate Extends(before: seq<Request>, after: seq<Request>) {
    && |before| <= |after|
    && (forall i :: 0 <= i < |before| ==> Longer(before[i], after[i]))
    && (forall i :: |before| <= i < |after| ==> New(after[i]))
  }

  predicate New(r: Request) { r.sent == 0 && r.timesSent == 0 }

  ghost predicate Longer(r: Request, r': Request) {
    && r'.ip == r.ip && r'.sent == r.sent && r'.timesSent == r.timesSent
    && |r.packets| <= |r'.packets| && r'.packets[|r'.packets| - |r.packets|..] == r.packets
  }

  lemma ExtendsTransitive(a: seq<Request>, b: seq<Request>, c: seq<Request>)
    requires Extends(a, b) && Extends(b, c)
    ensures Extends(a, c)
  {
    forall i | 0 <= i < |a|
      ensures Longer(a[i], c[i])
    {
      assert Longer(a[i], b[i]) && Longer(b[i], c[i]);
    }
    forall i | |a| <= i < |c|
      ensures New(c[i])
    {
      assert i < |b| ==> Longer(b[i], c[i]);
    }
  }

  lemma WithPacketExtends(requests: seq<Request>, ip: Ip, q: Queued)
    ensures Extends(requests, WithPacket(requests, ip, q)) && Extends(requests, requests)
  {
    hide Find;
  }

  lemma ExtendsItself(requests: seq<Request>)
    ensures Extends(requests, requests)
  {
  }

  function LastEntry(entries: seq<Entry>, ip: Ip): Option<Mac> {
    if entries == [] then None
    else
      var e := entries[|entries| - 1];
      if e.valid && e.ip == ip then Some(e.mac) else LastEntry(entries[..|entries| - 1], ip)
  }

  lemma {:induction false} LastEntryIs(entries: seq<Entry>, ip: Ip)
    ensures LastEntry(entries, ip).None? <==>
      forall i :: 0 <= i < |entries| ==> !(entries[i].valid && entries[i].ip == ip)
    ensures LastEntry(entries, ip).Some? ==>
      exists i :: 0 <= i < |entries| && entries[i] == Entry(true, ip, LastEntry(entries, ip).value)
                  && forall k :: i < k < |entries| ==> !(entries[k].valid && entries[k].ip == ip)
  {
    if entries != [] {
      LastEntryIs(entries[..|entries| - 1], ip);
    }
  }

  // The first entry that is free, or the length.
  function FirstFree(entries: seq<Entry>): (k: nat)
    ensures k <= |entries| && (k < |entries| ==> !entries[k].valid)
    ensures forall j :: 0 <= j < k ==> entries[j].valid
  {
    if entries == [] then 0 else if !entries[0].valid then 0 else 1 + FirstFree(entries[1..])
  }

  function Cached(entries: seq<Entry>, ip: Ip, mac: Mac): seq<Entry> {
    var k := FirstFree(entries);
    if k < |entries| then entries[k := Entry(true, ip, mac)] else entries
  }

  // A cached address is found, unless an older entry for it stands further back; other
  // addresses are found as before.
  lemma CachedIsFound(entries: seq<Entry>, ip: Ip, mac: Mac, other: Ip)
    requires FirstFree(entries) < |entries|
    ensures var older := LastEntry(entries[FirstFree(entries) + 1..], ip);
      LastEntry(Cached(entries, ip, mac), ip) == if older.Some? then older else Some(mac)
    ensures other != ip ==> LastEntry(Cached(entries, ip, mac), other) == LastEntry(entries, other)
  {
    var k := FirstFree(entries);
    var a, c := entries[..k], entries[k + 1..];
    assert entries == (a + [entries[k]]) + c && Cached(entries, ip, mac) == (a + [Entry(true, ip, mac)]) + c;
    LastOfSum(a + [entries[k]], c, other);
    LastOfSum(a + [Entry(true, ip, mac)], c, other);
    LastOfSum(a + [Entry(true, ip, mac)], c, ip);
    assert (a + [entries[k]])[..k] == a == (a + [Entry(true, ip, mac)])[..k];
  }

  lemma {:induction false} LastOfSum(a: seq<Entry>, b: seq<Entry>, ip: Ip)
    ensures LastEntry(a + b, ip) == if LastEntry(b, ip).Some? then LastEntry(b, ip) else LastEntry(a, ip)
  {
    if b == [] {
      assert a + b == a;
    } else {
      assert (a + b)[..|a + b| - 1] == a + b[..|b| - 1];
      LastOfSum(a, b[..|b| - 1], ip);
    }
  }

  // What is sent for a waiting packet once the address is known: it has one hop less
  // to live, unless the router made it.
  function Outgoing(q: Queued, mac: Mac, own: set<Ip>): Frame {
    IpFrame(if q.packet.src in own then q.packet else Hopped(q.packet), mac, q.iface)
  }

  function Hopped(p: Packet): Packet { p.(ttl := (p.ttl - 1) % 256) }

  function AllOutgoing(packets: seq<Queued>, mac: Mac, own: set<Ip>): seq<Frame> {
    if packets == [] then []
    else AllOutgoing(packets[..|packets| - 1], mac, own) + [Outgoing(packets[|packets| - 1], mac, own)]
  }

  // ---- What one sweep does to the queue

  predicate Due(r: Request, now: int) { now - r.sent >= 1 }

  predicate GivesUp(r: Request, now: int) { Due(r, now) && r.timesSent >= 5 }

  function Handled(r: Request, now: int): Request {
    if Due(r, now) then r.(sent := now, timesSent := r.timesSent + 1) else r
  }

  // The requests that are left, and how.
  function Left(requests: seq<Request>, now: int): seq<Request> {
    if requests == [] then []
    else
      var before, r := Left(requests[..|requests| - 1], now), requests[|requests| - 1];
      if GivesUp(r, now) then before else before + [Handled(r, now)]
  }

  function GivenUp(requests: seq<Request>, now: int): seq<Request> {
    if requests == [] then []
    else
      var before, r := GivenUp(requests[..|requests| - 1], now), requests[|requests| - 1];
      if GivesUp(r, now) then before + [r] else before
  }

  // The addresses that are asked for again.
  function Asked(requests: seq<Request>, now: int): seq<Ip> {
    if requests == [] then []
    else
      var before, r := Asked(requests[..|requests| - 1], now), requests[|requests| - 1];
      if Due(r, now) && r.timesSent < 5 then before + [r.ip] else before
  }

  // The addresses of the ARP requests among the frames.
  function ArpIps(wire: seq<Frame>): seq<Ip> {
    if wire == [] then []
    else
      var before, f := ArpIps(wire[..|wire| - 1]), wire[|wire| - 1];
      if f.ArpFrame? then before + [f.ip] else before
  }

  // The other frames.
  function IpFrames(wire: seq<Frame>): seq<Frame> {
    if wire == [] then []
    else
      var before, f := IpFrames(wire[..|wire| - 1]), wire[|wire| - 1];
      if f.IpFrame? then before + [f] else before
  }

  lemma OneMoreFrame(wire: seq<Frame>, f: Frame)
    ensures ArpIps(wire + [f]) == if f.ArpFrame? then ArpIps(wire) + [f.ip] else ArpIps(wire)
    ensures IpFrames(wire + [f]) == if f.IpFrame? then IpFrames(wire) + [f] else IpFrames(wire)
  {
    assert (wire + [f])[..|wire|] == wire;
  }

  // Request by request the same, with packets put in front.
  ghost predicate AllLonger(before: seq<Request>, after: seq<Request>) {
    |before| == |after| && forall i :: 0 <= i < |before| ==> Longer(before[i], after[i])
  }

  // The sweep has handled the first m of all requests that there were or came, and
  // stands at position i of the queue.
  ghost predicate Progress(all: seq<Request>, m: nat, requests: seq<Request>, i: nat, now: int, ended: seq<Request>) {
    && m <= |all| && i <= |requests|
    && AllLonger(Left(all[..m], now), requests[..i])
    && AllLonger(all[m..], requests[i..])
    && AllLonger(GivenUp(all[..m], now), ended)
  }

  lemma LongerTransitive(a: Request, b: Request, c: Request)
    requires Longer(a, b) && Longer(b, c)
    ensures Longer(a, c)
  {
    var n := |c.packets| - |b.packets|;
    assert c.packets[n..][|b.packets| - |a.packets|..] == c.packets[|c.packets| - |a.packets|..];
  }

  lemma ProgressKept(all: seq<Request>, m: nat, before: seq<Request>, i: nat, now: int, ended: seq<Request>,
                     after: seq<Request>)
    requires Progress(all, m, before, i, now, ended) && i < |before| && !GivesUp(before[i], now)
    requires after == before[i := Handled(before[i], now)]
    ensures m < |all| && Progress(all, m + 1, after, i + 1, now, ended)
    ensures Asked(all[..m + 1], now) ==
      if Due(before[i], now) then Asked(all[..m], now) + [before[i].ip] else Asked(all[..m], now)
  {
    hide Left, GivenUp, Asked;
    assert Longer(all[m..][0], before[i..][0]);
    OneMore(all, m, now);
    assert after[..i] == before[..i] && after[i + 1..] == before[i..][1..] && all[m + 1..] == all[m..][1..];
    var left, left', after' := Left(all[..m], now), Left(all[..m + 1], now), after[..i + 1];
    forall k | 0 <= k < |left'|
      ensures Longer(left'[k], after'[k])
    {
      if k < i {
        assert Longer(left[k], before[..i][k]);
      }
    }
  }

  lemma OneMore(all: seq<Request>, m: nat, now: int)
    requires m < |all|
    ensures Left(all[..m + 1], now)
      == Left(all[..m], now) + if GivesUp(all[m], now) then [] else [Handled(all[m], now)]
    ensures GivenUp(all[..m + 1], now) == GivenUp(all[..m], now) + if GivesUp(all[m], now) then [all[m]] else []
    ensures Asked(all[..m + 1], now)
      == Asked(all[..m], now) + if Due(all[m], now) && all[m].timesSent < 5 then [all[m].ip] else []
  {
    assert all[..m + 1][..m] == all[..m];
  }

  lemma ProgressDropped(all: seq<Request>, m: nat, before: seq<Request>, i: nat, now: int, ended: seq<Request>,
                        mid: seq<Request>)
    requires Progress(all, m, before, i, now, ended) && i < |before| && GivesUp(before[i], now)
    requires Extends(before, mid)
    ensures m < |all|
    ensures Progress(all + mid[|before|..], m + 1, Without(mid, i), i, now, ended + [before[i]])
    ensures Asked((all + mid[|before|..])[..m + 1], now) == Asked(all[..m], now)
  {
    hide Left, GivenUp, Asked, Longer;
    assert Longer(all[m..][0], before[i..][0]) && Longer(before[i], mid[i]);
    SameKind(all[m], before[i]);
    LongerTransitive(all[m], before[i], mid[i]);
    OneMore(all, m, now);
    var all', after := all + mid[|before|..], Without(mid, i);
    assert all'[..m + 1] == all[..m + 1];
    WithoutMembers(mid, i);
    forall k | 0 <= k < i
      ensures Longer(Left(all[..m], now)[k], after[..i][k])
    {
      assert Longer(Left(all[..m], now)[k], before[..i][k]) && Longer(before[k], mid[k]);
      LongerTransitive(Left(all[..m], now)[k], before[k], mid[k]);
    }
    forall k | 0 <= k < |all'| - (m + 1)
      ensures Longer(all'[m + 1..][k], after[i..][k])
    {
      if k < |all| - (m + 1) {
        assert Longer(all[m..][k + 1], before[i..][k + 1]) && Longer(before[i + 1 + k], mid[i + 1 + k]);
        LongerTransitive(all[m + 1 + k], before[i + 1 + k], mid[i + 1 + k]);
      } else {
        SameLonger(mid[i + 1 + k]);
      }
    }
  }

  lemma LongerBoth(ended: seq<Request>, dropped: seq<Request>, before: seq<Request>, mid: seq<Request>, i: nat)
    requires AllLonger(ended, dropped) && Extends(before, mid) && i < |before|
    ensures i < |mid| && AllLonger(ended + [before[i]], dropped + [mid[i]])
  {
    hide Longer;
    assert Longer(before[i], mid[i]);
  }

  lemma SameKind(r: Request, r': Request)
    requires Longer(r, r')
    ensures r'.ip == r.ip && r'.sent == r.sent && r'.timesSent == r.timesSent
  {
  }

  lemma SameLonger(r: Request)
    ensures Longer(r, r)
  {
  }

  // Requests that have been sent five times, from position i on.
  function Exhausted(requests: seq<Request>, i: nat): nat
    requires i <= |requests|
    decreases |requests| - i
  {
    if i == |requests| then 0 else (if requests[i].timesSent >= 5 then 1 else 0) + Exhausted(requests, i + 1)
  }

  // ---- The router

  class Router {
    var requests: seq<Request>
    const entries: array<Entry>
    var wire: seq<Frame>
    const route: Ip -> Option<string>  // sr_findLPMentry, and the interface of the entry
    const address: string -> Ip        // sr_get_interface
    const own: set<Ip>                 // addresses of the router's interfaces

    ghost var enqueued: multiset<Queued>   // ever given to queuereq
    ghost var delivered: multiset<Queued>  // sent after a reply
    ghost var released: multiset<Queued>   // freed with their request

    // One request for each address, none without a packet; and no packet is lost or
    // counted twice.
    ghost predicate Valid()
      reads this
    {
      && entries.Length == CACHE_SIZE
      && Orderly(requests)
      && enqueued == Waiting(requests) + delivered + released
    }

    constructor (route: Ip -> Option<string>, address: string -> Ip, own: set<Ip>)
      ensures Valid() && requests == [] && wire == [] && fresh(entries)
      ensures enqueued == delivered == released == multiset{}
    {
      this.route, this.address, this.own := route, address, own;
      entries := new Entry[CACHE_SIZE](_ => Entry(false, 0, 0));
      requests, wire := [], [];
      enqueued, delivered, released := multiset{}, multiset{}, multiset{};
    }

    ghost function Known(ip: Ip): Option<Mac>
      reads entries
    {
      LastEntry(entries[..], ip)
    }

    // The ICMP message to the sender of a packet that is given up, by the interface of the
    // route to it.
    ghost function Message(q: Queued, iface: string): Packet {
      Packet(address(iface), q.packet.src, INIT_TTL, q.packet.body)
    }

    // It is sent if the address of the next hop is known, and queued if only the route is.
    ghost function Sent(q: Queued): seq<Frame>
      reads entries
    {
      match (route(q.packet.src), Known(q.packet.src))
      case (Some(iface), Some(mac)) => [IpFrame(Message(q, iface), mac, iface)]
      case _ => []
    }

    ghost function QueuedFor(q: Queued): multiset<Queued>
      reads entries
    {
      match (route(q.packet.src), Known(q.packet.src))
      case (Some(iface), None) => multiset{Queued(Message(q, iface), iface)}
      case _ => multiset{}
    }

    ghost function SentForAll(packets: seq<Queued>): seq<Frame>
      reads entries
    {
      if packets == [] then [] else SentForAll(packets[..|packets| - 1]) + Sent(packets[|packets| - 1])
    }

    ghost function QueuedForAll(packets: seq<Queued>): multiset<Queued>
      reads entries
    {
      if packets == [] then multiset{} else QueuedForAll(packets[..|packets| - 1]) + QueuedFor(packets[|packets| - 1])
    }

    ghost function SentForRequests(requests: seq<Request>): seq<Frame>
      reads entries
    {
      if requests == [] then []
      else SentForRequests(requests[..|requests| - 1]) + SentForAll(requests[|requests| - 1].packets)
    }

    ghost function QueuedForRequests(requests: seq<Request>): multiset<Queued>
      reads entries
    {
      if requests == [] then multiset{}
      else QueuedForRequests(requests[..|requests| - 1]) + QueuedForAll(requests[|requests| - 1].packets)
    }

    lemma ForOneMore(requests: seq<Request>, r: Request)
      ensures SentForRequests(requests + [r]) == SentForRequests(requests) + SentForAll(r.packets)
      ensures QueuedForRequests(requests + [r]) == QueuedForRequests(requests) + QueuedForAll(r.packets)
    {
      assert (requests + [r])[..|requests|] == requests;
    }

    // The queue and the wire after the message for a packet, and for several.
    ghost function Notify(requests: seq<Request>, wire: seq<Frame>, q: Queued): (seq<Request>, seq<Frame>)
      reads entries
    {
      match (route(q.packet.src), Known(q.packet.src))
      case (Some(iface), None) => (WithPacket(requests, q.packet.src, Queued(Message(q, iface), iface)), wire)
      case _ => (requests, wire + Sent(q))
    }

    ghost function NotifyAll(requests: seq<Request>, wire: seq<Frame>, packets: seq<Queued>)
        : (seq<Request>, seq<Frame>)
      reads entries
    {
      if packets == [] then (requests, wire)
      else
        var before := NotifyAll(requests, wire, packets[..|packets| - 1]);
        Notify(before.0, before.1, packets[|packets| - 1])
    }

    // The last valid entry for ip.
    method Lookup(ip: Ip) returns (mac: Option<Mac>)
      requires entries.Length == CACHE_SIZE
      ensures mac == Known(ip)
    {
      mac := None;
      for i := 0 to CACHE_SIZE
        invariant mac == LastEntry(entries[..i], ip)
      {
        assert entries[..i + 1][..i] == entries[..i];
        if entries[i].valid && entries[i].ip == ip {
          mac := Some(entries[i].mac);
        }
      }
      assert entries[..CACHE_SIZE] == entries[..];
    }

    // Adds the packet in front of those that wait for ip.
    method QueueReq(ip: Ip, q: Queued)
      requires Valid()
      modifies this`requests, this`enqueued
      ensures Valid() && enqueued == old(enqueued) + multiset{q}
      ensures requests == WithPacket(old(requests), ip, q)
    {
      hide Waiting, Orderly, Find;
      WithPacketWaits(requests, ip, q);
      ghost var before := requests;
      var i := Find(requests, ip);
      if i == |requests| {
        requests := requests + [Request(ip, 0, 0, [])];
      }
      ghost var packets := requests[i].packets;
      requests := requests[i := requests[i].(packets := [q] + requests[i].packets)];
      enqueued := enqueued + multiset{q};
      if i == |before| {
        assert [q] + packets == [q];
        assert requests == before + [Request(ip, 0, 0, [q])];
      }
    }

    // The request for ip leaves the queue, and the first free entry takes the address.
    method Insert(mac: Mac, ip: Ip) returns (req: Option<Request>)
      requires Valid()
      modifies this`requests, entries
      ensures entries.Length == CACHE_SIZE && Orderly(requests)
      ensures var i := Find(old(requests), ip);
        if i < |old(requests)| then req == Some(old(requests)[i]) && requests == Without(old(requests), i)
        else req == None && requests == old(requests)
      ensures entries[..] == Cached(old(entries[..]), ip, mac)
      ensures req.Some? ==> enqueued == Waiting(requests) + multiset(req.value.packets) + delivered + released
    {
      hide Waiting, Orderly, Find, FirstFree;
      req := None;
      var i := Find(requests, ip);
      if i < |requests| {
        WithoutWaits(requests, i);
        req := Some(requests[i]);
        requests := requests[..i] + requests[i + 1..];
      }
      var k := 0;
      while k < CACHE_SIZE && entries[k].valid
        invariant 0 <= k <= CACHE_SIZE
        invariant forall j :: 0 <= j < k ==> entries[j].valid
      {
        k := k + 1;
      }
      FirstFreeIs(entries[..], k);
      if k != CACHE_SIZE {
        entries[k] := Entry(true, ip, mac);
      }
    }

    // An ARP reply: every packet that waited for ip is sent, once, in the order of the list.
    method HandleReply(mac: Mac, ip: Ip)
      requires Valid()
      modifies this`requests, this`wire, this`delivered, entries
      ensures Valid()
      ensures var i := Find(old(requests), ip);
        if i < |old(requests)| then
          var packets := old(requests)[i].packets;
          && requests == Without(old(requests), i) && delivered == old(delivered) + multiset(packets)
          && wire == old(wire) + AllOutgoing(packets, mac, own)
        else requests == old(requests) && delivered == old(delivered) && wire == old(wire)
      ensures entries[..] == Cached(old(entries[..]), ip, mac)
    {
      hide Waiting, Orderly, Find, Outgoing, Cached;
      var req := Insert(mac, ip);
      if req.None? {
        return;
      }
      SendAll(req.value.packets, mac);
      delivered := delivered + multiset(req.value.packets);
    }

    method SendAll(packets: seq<Queued>, mac: Mac)
      modifies this`wire
      ensures wire == old(wire) + AllOutgoing(packets, mac, own)
    {
      hide Outgoing;
      for k := 0 to |packets|
        invariant wire == old(wire) + AllOutgoing(packets[..k], mac, own)
      {
        assert packets[..k + 1][..k] == packets[..k];
        wire := wire + [Outgoing(packets[k], mac, own)];
      }
      assert packets[..|packets|] == packets;
    }

    // The ICMP message to the sender of a packet that is given up.
    method SendUnreachable(q: Queued)
      requires Valid()
      modifies this`requests, this`wire, this`enqueued
      ensures Valid() && Extends(old(requests), requests)
      ensures (requests, wire) == Notify(old(requests), old(wire), q)
      ensures enqueued == old(enqueued) + QueuedFor(q)
      ensures ArpIps(wire) == ArpIps(old(wire)) && IpFrames(wire) == IpFrames(old(wire)) + Sent(q)
    {
      hide Waiting, Orderly, Find, WithPacket, Extends, ArpIps, IpFrames;
      WithPacketExtends(requests, q.packet.src, q);
      var iface := route(q.packet.src);
      if iface.None? {
        assert wire + Sent(q) == wire;
        return;
      }
      var message := Packet(address(iface.value), q.packet.src, INIT_TTL, q.packet.body);
      var mac := Lookup(q.packet.src);
      if mac.Some? {
        OneMoreFrame(wire, IpFrame(message, mac.value, iface.value));
        wire := wire + [IpFrame(message, mac.value, iface.value)];
      } else {
        WithPacketExtends(requests, q.packet.src, Queued(message, iface.value));
        QueueReq(q.packet.src, Queued(message, iface.value));
      }
    }

    method NotifySenders(packets: seq<Queued>)
      requires Valid()
      modifies this`requests, this`wire, this`enqueued
      ensures Valid() && Extends(old(requests), requests)
      ensures (requests, wire) == NotifyAll(old(requests), old(wire), packets)
      ensures enqueued == old(enqueued) + QueuedForAll(packets)
      ensures ArpIps(wire) == ArpIps(old(wire)) && IpFrames(wire) == IpFrames(old(wire)) + SentForAll(packets)
    {
      hide Waiting, Orderly, Find, Extends, ArpIps, IpFrames, Notify, WithPacket, Sent, QueuedFor;
      ghost var before := requests;
      ExtendsItself(requests);
      for k := 0 to |packets|
        invariant Valid() && Extends(before, requests)
        invariant enqueued == old(enqueued) + QueuedForAll(packets[..k])
        invariant ArpIps(wire) == ArpIps(old(wire)) && IpFrames(wire) == IpFrames(old(wire)) + SentForAll(packets[..k])
        invariant (requests, wire) == NotifyAll(before, old(wire), packets[..k])
      {
        ghost var earlier := requests;
        assert packets[..k + 1][..k] == packets[..k];
        SendUnreachable(packets[k]);
        ExtendsTransitive(before, earlier, requests);
      }
      assert packets[..|packets|] == packets;
    }

    method Resend(i: nat, now: int)
      requires Valid() && i < |requests| && requests[i].timesSent < 5 && requests[i].packets != []
      modifies this`requests, this`wire
      ensures Valid()
      ensures var r := old(requests)[i];
        && requests == old(requests)[i := r.(sent := now, timesSent := r.timesSent + 1)]
        && wire == old(wire) + [ArpFrame(r.ip, r.packets[0].iface)]
        && ArpIps(wire) == ArpIps(old(wire)) + [r.ip] && IpFrames(wire) == IpFrames(old(wire))
    {
      hide Waiting, Orderly, ArpIps, IpFrames;
      var req := requests[i];
      OneMoreFrame(wire, ArpFrame(req.ip, req.packets[0].iface));
      Resent(requests, i, req.(sent := now, timesSent := req.timesSent + 1));
      requests := requests[i := req.(sent := now, timesSent := req.timesSent + 1)];
      wire := wire + [ArpFrame(req.ip, req.packets[0].iface)];
    }

    // handle_arpreq: after five tries the request is given up with all that waits for
    // it; otherwise, once a second, it is sent again.
    method HandleReq(ip: Ip, now: int) returns (ghost mid: seq<Request>)
      requires Valid() && Find(requests, ip) < |requests|
      modifies this`requests, this`wire, this`enqueued, this`released
      ensures Valid() && delivered == old(delivered)
      ensures var i, r := Find(old(requests), ip), old(requests)[Find(old(requests), ip)];
        if !GivesUp(r, now) then
          && requests == old(requests)[i := Handled(r, now)] && released == old(released)
          && wire == (if Due(r, now) then old(wire) + [ArpFrame(ip, r.packets[0].iface)] else old(wire))
          && enqueued == old(enqueued)
        else
          && (mid, wire) == NotifyAll(old(requests), old(wire), r.packets)
          && Extends(old(requests), mid) && i < |mid| && requests == Without(mid, i)
          && released == old(released) + multiset(mid[i].packets)
      ensures var r := old(requests)[Find(old(requests), ip)];
        && ArpIps(wire) == ArpIps(old(wire)) + (if Due(r, now) && r.timesSent < 5 then [ip] else [])
        && IpFrames(wire) == IpFrames(old(wire)) + (if GivesUp(r, now) then SentForAll(r.packets) else [])
        && enqueued == old(enqueued) + if GivesUp(r, now) then QueuedForAll(r.packets) else multiset{}
    {
      hide Waiting, Orderly, Find, Extends, ArpIps, IpFrames, NotifyAll, Without, SentForAll, QueuedForAll;
      ghost var before := requests;
      mid := requests;
      var i := Find(requests, ip);
      var req := requests[i];
      PacketThere(requests, i);
      if now - req.sent >= 1 {
        if req.timesSent >= 5 {
          var packets := req.packets;
          NotifySenders(packets);
          mid := requests;
          StillThere(before, mid, i);
          Destroy(i);
        } else {
          Resend(i, now);
        }
      }
    }

    method Destroy(i: nat)
      requires Valid() && i < |requests|
      modifies this`requests, this`released
      ensures Valid() && requests == Without(old(requests), i)
      ensures released == old(released) + multiset(old(requests)[i].packets)
    {
      hide Waiting, Orderly, Find;
      WithoutWaits(requests, i);
      released := released + multiset(requests[i].packets);
      requests := requests[..i] + requests[i + 1..];
    }

    // What has been sent, queued and released since the given state, for requests that were
    // given up and addresses that were asked for again.
    ghost predicate Accounted(wire0: seq<Frame>, enqueued0: multiset<Queued>, released0: multiset<Queued>,
                              ended: seq<Request>, dropped: seq<Request>, asked: seq<Ip>)
      reads this, entries
    {
      && released == released0 + Waiting(dropped)
      && enqueued == enqueued0 + QueuedForRequests(ended)
      && IpFrames(wire) == IpFrames(wire0) + SentForRequests(ended)
      && ArpIps(wire) == ArpIps(wire0) + asked
      && AllLonger(ended, dropped)
    }

    lemma NothingYet()
      ensures Accounted(wire, enqueued, released, [], [], [])
    {
    }

    // One request of the sweep.
    method HandleNext(i: nat, now: int, ghost wire0: seq<Frame>, ghost enqueued0: multiset<Queued>,
                      ghost released0: multiset<Queued>, ghost ended: seq<Request>, ghost dropped: seq<Request>,
                      ghost asked: seq<Ip>)
      returns (ghost mid: seq<Request>, ghost dropped': seq<Request>)
      requires Valid() && i < |requests| && Accounted(wire0, enqueued0, released0, ended, dropped, asked)
      modifies this`requests, this`wire, this`enqueued, this`released
      ensures Valid() && delivered == old(delivered)
      ensures var r := old(requests)[i];
        && (if GivesUp(r, now) then Extends(old(requests), mid) && i < |mid| && requests == Without(mid, i)
            else requests == old(requests)[i := Handled(r, now)])
        && Accounted(wire0, enqueued0, released0,
                     if GivesUp(r, now) then ended + [r] else ended, dropped',
                     asked + if Due(r, now) && r.timesSent < 5 then [r.ip] else [])
    {
      hide Waiting, Orderly, Extends, ArpIps, IpFrames, AllLonger, Find, Due, Handled, NotifyAll, Without;
      hide SentForAll, QueuedForAll, SentForRequests, QueuedForRequests;
      Queue();
      FoundAt(requests, i);
      ghost var before := requests;
      mid := HandleReq(requests[i].ip, now);
      dropped' := dropped;
      if GivesUp(before[i], now) {
        OneMoreWaits(dropped, mid[i]);
        ForOneMore(ended, before[i]);
        LongerBoth(ended, dropped, before, mid, i);
        dropped' := dropped + [mid[i]];
      }
    }

    lemma Queue()
      requires Valid()
      ensures Orderly(requests)
    {
    }

    // Once a second: every request that was in the queue, or came before the last one
    // was handled. Those given up, `ended` as they were when their turn came and `dropped`
    // when they went, are gone with their packets, and the senders of these are told. The
    // others are where they were, asked for again when they are due, with at most messages
    // put in front.
    method Sweep(now: int)
      returns (ghost came: seq<Request>, ghost ended: seq<Request>, ghost dropped: seq<Request>)
      requires Valid()
      modifies this`requests, this`wire, this`enqueued, this`released
      ensures Valid() && delivered == old(delivered)
      ensures forall r :: r in came ==> New(r)
      ensures Extends(Left(old(requests) + came, now), requests)
      ensures AllLonger(GivenUp(old(requests), now), ended) && AllLonger(ended, dropped)
      ensures released == old(released) + Waiting(dropped)
      ensures enqueued == old(enqueued) + QueuedForRequests(ended)
      ensures IpFrames(wire) == IpFrames(old(wire)) + SentForRequests(ended)
      ensures ArpIps(wire) == ArpIps(old(wire)) + Asked(old(requests) + came, now)
    {
      hide Orderly, Extends, Left, GivenUp, Asked, AllLonger, Progress, Find, GivesUp, Due, Handled;
      hide Without, Exhausted, Comes, Valid, Accounted;
      var i: nat := 0;
      ghost var all, m: nat := requests, 0;
      ended, dropped := [], [];
      Queue();
      SweepStarts(requests, now);
      NothingYet();
      while i < |requests|
        invariant Valid() && Orderly(requests) && i <= |requests| && m <= |all| && delivered == old(delivered)
        invariant Progress(all, m, requests, i, now, ended) && Comes(old(requests), all)
        invariant Accounted(old(wire), old(enqueued), old(released), ended, dropped, Asked(all[..m], now))
        decreases Exhausted(requests, i), |requests| - i
      {
        ghost var before := requests;
        var last := i + 1 == |requests|;
        var next := if last then 0 else requests[i + 1].ip;
        ghost var mid, seen;
        mid, dropped :=
          HandleNext(i, now, old(wire), old(enqueued), old(released), ended, dropped, Asked(all[..m], now));
        seen := all;
        all, m, ended := SweepStep(old(requests), all, m, before, i, now, ended, mid, requests);
        Queue();
        if last {
          came := SweepEnds(old(requests), seen, all, m, requests, if GivesUp(before[i], now) then i else i + 1, now,
                            ended);
          AccountedFor(old(wire), old(enqueued), old(released), ended, dropped, Asked(all[..m], now));
          return;
        }
        NextInSweep(before, i, now, mid, requests, next);
        i := Find(requests, next);
      }
      AllHandled(all, m, requests, i, now, ended);
      came := SweepEnds(old(requests), all, all, m, requests, i, now, ended);
      AccountedFor(old(wire), old(enqueued), old(released), ended, dropped, Asked(all[..m], now));
    }

    lemma AccountedFor(wire0: seq<Frame>, enqueued0: multiset<Queued>, released0: multiset<Queued>,
                       ended: seq<Request>, dropped: seq<Request>, asked: seq<Ip>)
      requires Accounted(wire0, enqueued0, released0, ended, dropped, asked)
      ensures released == released0 + Waiting(dropped) && enqueued == enqueued0 + QueuedForRequests(ended)
      ensures IpFrames(wire) == IpFrames(wire0) + SentForRequests(ended) && ArpIps(wire) == ArpIps(wire0) + asked
      ensures AllLonger(ended, dropped)
    {
    }

    // The address is not known: the packet is queued in front, and the request handled.
    // If that gives the request up the packet is released with it, otherwise it waits.
    method Await(q: Queued, ip: Ip, now: int)
      requires Valid()
      modifies this`requests, this`wire, this`enqueued, this`released
      ensures Valid() && delivered == old(delivered)
      ensures old(enqueued) <= enqueued && old(released) <= released
      ensures var queue, i := WithPacket(old(requests), ip, q), Find(old(requests), ip);
        && i < |queue| && queue[i].ip == ip && queue[i].packets != [] && queue[i].packets[0] == q
        && (!GivesUp(queue[i], now) ==>
              && requests == queue[i := Handled(queue[i], now)]
              && wire == old(wire) + (if Due(queue[i], now) then [ArpFrame(ip, q.iface)] else [])
              && released == old(released) && enqueued == old(enqueued) + multiset{q})
        && (GivesUp(queue[i], now) ==>
              var (mid, sent) := NotifyAll(queue, old(wire), queue[i].packets);
              && i < |mid| && q in mid[i].packets && requests == Without(mid, i) && wire == sent
              && released == old(released) + multiset(mid[i].packets)
              && enqueued == old(enqueued) + multiset{q} + QueuedForAll(queue[i].packets))
    {
      hide Waiting, Orderly, Extends, Find, WithPacket, NotifyAll, Known, Handled, Without, ArpIps, IpFrames;
      hide SentForAll, QueuedForAll;
      WithPacketFound(requests, ip, q);
      QueueReq(ip, q);
      ghost var queue, i := requests, Find(requests, ip);
      ghost var mid := HandleReq(ip, now);
      if GivesUp(queue[i], now) {
        FrontKept(queue, mid, i);
      }
    }

    // A packet for another host, with a route, and with hops to go.
    method Forward(packet: Packet, iface: string, now: int)
      requires Valid() && 2 <= packet.ttl < 256
      modifies this`requests, this`wire, this`enqueued, this`released
      ensures Valid() && delivered == old(delivered)
      ensures old(enqueued) <= enqueued && old(released) <= released
      ensures Known(packet.dst).Some? ==>
        && requests == old(requests) && enqueued == old(enqueued) && released == old(released)
        && wire == old(wire) + [IpFrame(Hopped(packet), Known(packet.dst).value, iface)]
      ensures Known(packet.dst) == None ==>
        var q := Queued(packet, iface);
        var queue, i := WithPacket(old(requests), packet.dst, q), Find(old(requests), packet.dst);
        && i < |queue| && queue[i].ip == packet.dst && queue[i].packets != [] && queue[i].packets[0] == q
        && (!GivesUp(queue[i], now) ==>
              && requests == queue[i := Handled(queue[i], now)]
              && wire == old(wire) + (if Due(queue[i], now) then [ArpFrame(packet.dst, q.iface)] else [])
              && released == old(released) && enqueued == old(enqueued) + multiset{q})
        && (GivesUp(queue[i], now) ==>
              var (mid, sent) := NotifyAll(queue, old(wire), queue[i].packets);
              && i < |mid| && q in mid[i].packets && requests == Without(mid, i) && wire == sent
              && released == old(released) + multiset(mid[i].packets)
              && enqueued == old(enqueued) + multiset{q} + QueuedForAll(queue[i].packets))
    {
      hide Waiting, Orderly, Find, WithPacket, Handled, NotifyAll, Without, QueuedForAll;
      var mac := Lookup(packet.dst);
      if mac.Some? {
        wire := wire + [IpFrame(packet.(ttl := packet.ttl - 1), mac.value, iface)];
      } else {
        Await(Queued(packet, iface), packet.dst, now);
      }
    }
  }

  // all begins with the requests there were, and goes on with those that came.
  ghost predicate Comes(before: seq<Request>, all: seq<Request>) {
    before <= all && forall k :: |before| <= k < |all| ==> New(all[k])
  }

  lemma SweepStarts(requests: seq<Request>, now: int)
    ensures Progress(requests, 0, requests, 0, now, []) && Comes(requests, requests)
    ensures Waiting([]) == multiset{} && Asked(requests[..0], now) == []
  {
    assert requests[0..] == requests;
  }

  lemma SweepStep(start: seq<Request>, all: seq<Request>, m: nat, before: seq<Request>, i: nat, now: int,
                  ended: seq<Request>, mid: seq<Request>, after: seq<Request>)
    returns (all': seq<Request>, m': nat, ended': seq<Request>)
    requires Progress(all, m, before, i, now, ended) && i < |before| && Comes(start, all) && m <= |all|
    requires if GivesUp(before[i], now) then Extends(before, mid) && i < |mid| && after == Without(mid, i)
             else after == before[i := Handled(before[i], now)]
    ensures m' == m + 1 && m' <= |all| <= |all'| && all == all'[..|all|] && Comes(start, all')
    ensures Progress(all', m', after, if GivesUp(before[i], now) then i else i + 1, now, ended')
    ensures Asked(all'[..m'], now)
      == Asked(all[..m], now) + if Due(before[i], now) && before[i].timesSent < 5 then [before[i].ip] else []
    ensures ended' == if GivesUp(before[i], now) then ended + [before[i]] else ended
    ensures i + 1 == |before| ==> m' == |all|
  {
    hide Left, GivenUp, Asked, Longer, Extends, Without;
    m' := m + 1;
    if GivesUp(before[i], now) {
      ExtendsNew(before, mid);
      all', ended' := all + mid[|before|..], ended + [before[i]];
      ProgressDropped(all, m, before, i, now, ended, mid);
    } else {
      all', ended' := all, ended;
      ProgressKept(all, m, before, i, now, ended, after);
    }
  }

  lemma ExtendsNew(before: seq<Request>, after: seq<Request>)
    requires Extends(before, after)
    ensures |before| <= |after| && forall k :: |before| <= k < |after| ==> New(after[k])
  {
  }

  // A request that the sweep has not given up is in the queue afterwards, with all its
  // packets, asked for once more if it was due.
  lemma StillWaits(before: seq<Request>, came: seq<Request>, now: int, after: seq<Request>, i: nat)
    requires Extends(Left(before + came, now), after) && i < |before| && !GivesUp(before[i], now)
    ensures exists k :: 0 <= k < |after| && Longer(Handled(before[i], now), after[k])
  {
    hide Left;
    var k := LeftHas(before + came, now, i);
    assert Longer(Left(before + came, now)[k], after[k]);
  }

  lemma {:induction false} LeftHas(all: seq<Request>, now: int, i: nat) returns (k: nat)
    requires i < |all| && !GivesUp(all[i], now)
    ensures k < |Left(all, now)| && Left(all, now)[k] == Handled(all[i], now)
  {
    if i == |all| - 1 {
      k := |Left(all, now)| - 1;
    } else {
      k := LeftHas(all[..|all| - 1], now, i);
    }
  }

  lemma AllHandled(all: seq<Request>, m: nat, requests: seq<Request>, i: nat, now: int, ended: seq<Request>)
    requires Progress(all, m, requests, i, now, ended) && i >= |requests|
    ensures m == |all| && all[..m] == all
  {
  }

  // The first m of all requests are those that were handled; what came after them has
  // not been touched.
  lemma SweepEnds(start: seq<Request>, handled: seq<Request>, all: seq<Request>, m: nat, after: seq<Request>, i: nat,
                  now: int, ended: seq<Request>)
    returns (came: seq<Request>)
    requires Comes(start, handled) && Comes(start, all) && m == |handled| <= |all| && handled == all[..m]
    requires Progress(all, m, after, i, now, ended)
    ensures start + came == all[..m]
    ensures forall r :: r in came ==> New(r)
    ensures Extends(Left(start + came, now), after)
    ensures AllLonger(GivenUp(start, now), ended)
  {
    hide Left, GivenUp;
    came := handled[|start|..];
    assert start + handled[|start|..] == handled;
    NewNotGivenUp(start, handled, now);
    forall k | |Left(all[..m], now)| <= k < |after|
      ensures New(after[k])
    {
      assert Longer(all[m..][k - i], after[i..][k - i]);
    }
    forall k | 0 <= k < i
      ensures Longer(Left(all[..m], now)[k], after[k])
    {
      assert Longer(Left(all[..m], now)[k], after[..i][k]);
    }
  }

  lemma {:induction false} NewNotGivenUp(start: seq<Request>, all: seq<Request>, now: int)
    requires Comes(start, all)
    ensures GivenUp(all, now) == GivenUp(start, now)
    decreases |all|
  {
    if |all| > |start| {
      var shorter := all[..|all| - 1];
      assert start <= shorter;
      NewNotGivenUp(start, shorter, now);
    } else {
      assert all == start;
    }
  }

  lemma FirstFreeIs(entries: seq<Entry>, k: nat)
    requires k <= |entries| && (k < |entries| ==> !entries[k].valid)
    requires forall j :: 0 <= j < k ==> entries[j].valid
    ensures FirstFree(entries) == k
  {
  }

  lemma PacketThere(requests: seq<Request>, i: nat)
    requires Orderly(requests) && i < |requests|
    ensures requests[i].packets != []
  {
  }

  lemma FrontKept(before: seq<Request>, mid: seq<Request>, i: nat)
    requires Extends(before, mid) && i < |before| && before[i].packets != []
    ensures i < |mid| && before[i].packets[0] in mid[i].packets
  {
    var a, b := before[i].packets, mid[i].packets;
    assert Longer(before[i], mid[i]);
    assert b[|b| - |a|..][0] == a[0];
  }

  lemma StillThere(before: seq<Request>, mid: seq<Request>, i: nat)
    requires Extends(before, mid) && i < |before|
    ensures i < |mid|
  {
  }

  // Sending a request again moves no packet.
  lemma Resent(requests: seq<Request>, i: nat, r: Request)
    requires Orderly(requests) && i < |requests|
    requires r.ip == requests[i].ip && r.packets == requests[i].packets && r.timesSent <= 5
    ensures Orderly(requests[i := r]) && Waiting(requests[i := r]) == Waiting(requests)
  {
    hide Waiting;
    WaitingReplaced(requests, i, r);
    WaitingReplaced(requests, i, requests[i]);
    assert requests[i := requests[i]] == requests;
  }

  lemma {:induction false} SameExhausted(a: seq<Request>, i: nat, b: seq<Request>, j: nat)
    requires i <= |a| && j <= |b| && |a| - i <= |b| - j
    requires forall k :: i <= k < |a| ==> a[k].timesSent == b[k - i + j].timesSent
    requires forall k :: |a| - i + j <= k < |b| ==> b[k].timesSent < 5
    ensures Exhausted(a, i) == Exhausted(b, j)
    decreases |b| - j
  {
    if j < |b| {
      if i < |a| {
        SameExhausted(a, i + 1, b, j + 1);
      } else {
        SameExhausted(a, i, b, j + 1);
      }
    }
  }

  lemma ExhaustedHead(requests: seq<Request>, i: nat)
    requires i < |requests|
    ensures Exhausted(requests, i) == (if requests[i].timesSent >= 5 then 1 else 0) + Exhausted(requests, i + 1)
  {
  }

  // The request after the one that was handled is where the sweep goes on, and there
  // is less left to do.
  lemma NextInSweep(before: seq<Request>, i: nat, now: int, mid: seq<Request>, after: seq<Request>, next: Ip)
    requires Orderly(before) && Orderly(after) && i + 1 < |before| && next == before[i + 1].ip
    requires if GivesUp(before[i], now) then Extends(before, mid) && i < |mid| && after == Without(mid, i)
             else after == before[i := Handled(before[i], now)]
    ensures var k := Find(after, next);
      && k < |after| && k == (if GivesUp(before[i], now) then i else i + 1)
      && (Exhausted(after, k) < Exhausted(before, i)
          || (Exhausted(after, k) == Exhausted(before, i) && |after| - k < |before| - i))
  {
    hide Find, Orderly, Without, Exhausted, Extends;
    if !GivesUp(before[i], now) {
      NextAfterKept(before, i, after);
    } else {
      NextAfterDrop(before, i, mid, after);
    }
  }

  lemma NextAfterKept(before: seq<Request>, i: nat, after: seq<Request>)
    requires Orderly(before) && Orderly(after) && i + 1 < |before| == |after|
    requires forall k :: i + 1 <= k < |before| ==> after[k] == before[k]
    ensures Find(after, before[i + 1].ip) == i + 1 && Exhausted(after, i + 1) <= Exhausted(before, i)
  {
    hide Find, Orderly, Exhausted;
    ExhaustedHead(before, i);
    FoundAt(after, i + 1);
    SameExhausted(before, i + 1, after, i + 1);
  }

  lemma NextAfterDrop(before: seq<Request>, i: nat, mid: seq<Request>, after: seq<Request>)
    requires Orderly(before) && Orderly(after) && i + 1 < |before| && before[i].timesSent >= 5
    requires Extends(before, mid) && i < |mid| && after == Without(mid, i)
    ensures Find(after, before[i + 1].ip) == i && i < |after| && Exhausted(after, i) < Exhausted(before, i)
  {
    hide Find, Orderly, Exhausted, Without;
    ExhaustedHead(before, i);
    WithoutMembers(mid, i);
    assert Longer(before[i + 1], mid[i + 1]);
    FoundAt(after, i);
    forall k | i + 1 <= k < |before|
      ensures before[k].timesSent == after[k - (i + 1) + i].timesSent
    {
      assert Longer(before[k], mid[k]);
    }
    SameExhausted(before, i + 1, after, i);
  }

  lemma WithPacketFound(requests: seq<Request>, ip: Ip, q: Queued)
    requires Orderly(requests)
    ensures var queue, i := WithPacket(requests, ip, q), Find(requests, ip);
      i == Find(queue, ip) < |queue| && queue[i].ip == ip && queue[i].packets != [] && queue[i].packets[0] == q
  {
    hide Orderly;
    var i := Find(requests, ip);
    WithPacketWaits(requests, ip, q);
    FoundAt(WithPacket(requests, ip, q), i);
  }

  lemma FoundAt(requests: seq<Request>, i: nat)
    requires Orderly(requests) && i < |requests|
    ensures Find(requests, requests[i].ip) == i
  {
    hide Find;
    FindIs(requests, requests[i].ip);
  }

  lemma FindIs(requests: seq<Request>, ip: Ip)
    ensures var k := Find(requests, ip);
      k <= |requests| && (forall j :: 0 <= j < k ==> requests[j].ip != ip) && (k == |requests| || requests[k].ip == ip)
  {
  }
}
