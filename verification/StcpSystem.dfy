// Two endpoints, their applications, and the two in-order channels between them.
module StcpSystem {
  import opened Stcp

  // An endpoint with its application: what was written and how much of it the
  // transport has taken, what was delivered, and whether each side has closed.
  datatype End = End(
    active: bool, ctx: Context,
    written: seq<Byte>, taken: nat, appClosed: bool, closeTaken: bool,
    delivered: seq<Byte>, eof: bool)

  // The system seen from one end.
  datatype View = View(me: End, peer: End, out: seq<Segment>, inn: seq<Segment>)

  function Swap(v: View): View { View(v.peer, v.me, v.inn, v.out) }

  datatype Action =
    | Open                        // the active end starts the handshake
    | Write(bytes: seq<Byte>)     // the application writes
    | CloseApp                    // the application closes
    | Push(n: nat)                // APP_DATA: the transport takes n bytes
    | Receive                     // NETWORK_DATA
    | Close                       // APP_CLOSE_REQUESTED, once all data is taken

  function NewEnd(active: bool): End { End(active, START, [], 0, false, false, [], false) }

  const INITIAL := View(NewEnd(true), NewEnd(false), [], [])

  // The control loop runs, so the application is unblocked.
  predicate Running(e: End) {
    !e.ctx.done && e.ctx.state != Listen && e.ctx.state != SynSent && e.ctx.state != SynRcvd
  }

  predicate Enabled(v: View, a: Action) {
    var me := v.me;
    match a
    case Open => me.active && me.ctx.state == Listen && !me.ctx.done
    case Write(bytes) => Running(me) && !me.appClosed
    case CloseApp => Running(me) && !me.appClosed
    case Push(n) => Running(me) && 1 <= n <= me.ctx.window && n <= |me.written| - me.taken
    case Receive => v.inn != [] && !me.ctx.done && !(me.active && me.ctx.state == Listen)
    case Close => Running(me) && me.appClosed && me.taken == |me.written| && !me.closeTaken
  }

  function React(w: Width, c: Context, s: Segment): Reaction {
    match c.state
    case Listen => OnSyn(w, c, s)
    case SynSent => OnSynAck(w, c, s)
    case SynRcvd => OnHandshakeAck(c, s)
    case _ => OnSegment(w, c, s)
  }

  function Apply(v: View, r: Reaction): View {
    v.(me := v.me.(ctx := r.ctx, delivered := v.me.delivered + r.delivered, eof := v.me.eof || r.eof),
       out := v.out + r.sent)
  }

  function Step(w: Width, v: View, a: Action): View
    requires Enabled(v, a)
  {
    var me := v.me;
    match a
    case Open => Apply(v, OpenActive(me.ctx))
    case Write(bytes) => v.(me := me.(written := me.written + bytes))
    case CloseApp => v.(me := me.(appClosed := true))
    case Push(n) =>
      Apply(v.(me := me.(taken := me.taken + n)), OnData(w, me.ctx, me.written[me.taken..me.taken + n]))
    case Receive => Apply(v.(inn := v.inn[1..]), React(w, me.ctx, v.inn[0]))
    case Close => Apply(v.(me := me.(closeTaken := true)), OnClose(w, me.ctx))
  }

  // ---- What the channel from x to y carries

  function Bit(b: bool): nat { if b then 1 else 0 }

  // The bytes of w from sequence number p on, then possibly one FIN: segments carry
  // them in order, starting where the receiver is and ending where the sender is.
  ghost predicate Stream(c: seq<Segment>, w: seq<Byte>, p: nat, fin: bool, end: nat, finEnd: bool) {
    if c == [] then p == end && fin == finEnd
    else
      var s := c[0];
      && !s.syn && s.ack
      && (if s.fin then
            !fin && s.payload == [] && s.seqNo == p && Stream(c[1..], w, p + 1, true, end, finEnd)
          else if s.payload != [] then
            && !fin && s.seqNo == p && 2 <= p && p - 2 + |s.payload| <= |w|
            && s.payload == w[p - 2..p - 2 + |s.payload|]
            && Stream(c[1..], w, p + |s.payload|, false, end, finEnd)
          else
            Stream(c[1..], w, p, fin, end, finEnd))
  }

  // The acknowledgements on the way: they never go back, they go up once the FIN is
  // behind, a FIN repeats the last one, and the last one is the newest there is.
  ghost predicate Acks(c: seq<Segment>, lo: nat, hi: nat, fin: bool) {
    if c == [] then lo == hi
    else
      var s := c[0];
      if s.fin then s.ackNo == lo && Acks(c[1..], lo, hi, true)
      else (if fin then lo < s.ackNo else lo <= s.ackNo) && s.ackNo <= hi && Acks(c[1..], s.ackNo, hi, fin)
  }

  // What y has seen acknowledged. The handshake's last segment is still to come in SynRcvd.
  function AckSeen(y: End): nat { if y.ctx.state == SynRcvd then 2 else y.ctx.sendAck }

  ghost predicate Half(x: End, y: End, c: seq<Segment>) {
    && |y.delivered| <= x.taken <= |x.written|
    && y.delivered == x.written[..|y.delivered|]
    && x.ctx.sendSeq == 2 + x.taken + Bit(x.closeTaken)
    && y.ctx.recvAck == 2 + |y.delivered| + Bit(y.eof)
    && Stream(c, x.written, y.ctx.recvAck, y.eof, x.ctx.sendSeq, x.closeTaken)
    && Acks(c, AckSeen(y), x.ctx.recvAck, y.eof)
    && (y.ctx.state == Closed ==> c == [])
    && (y.ctx.state == SynRcvd ==> c != [] && c[0] == AckSegment(2, 2, []))
  }

  // An endpoint whose control loop runs, or is about to.
  ghost predicate Local(e: End) {
    var c := e.ctx;
    && (c.state == Established ==> !e.closeTaken && !e.eof)
    && (c.state == SynRcvd ==> e.written == [] && !e.closeTaken && !e.eof && e.delivered == [])
    && (c.state == FinWait1 ==> e.closeTaken && !e.eof && c.sendAck < c.sendSeq)
    && (c.state == FinWait2 ==> e.closeTaken && !e.eof && c.sendAck == c.sendSeq)
    && (c.state == CloseWait ==> !e.closeTaken && e.eof)
    && (c.state == LastAck || c.state == Closing ==> e.closeTaken && e.eof && c.sendAck < c.sendSeq)
    && (c.state == Closed ==> e.closeTaken && e.eof && c.sendAck == c.sendSeq)
    && c.state != Listen && c.state != SynSent
    && (c.done <==> c.state == Closed)
    && (e.closeTaken ==> e.appClosed && e.taken == |e.written|)
    // the window is what the unacknowledged data leaves of WINDOW
    && c.window + (2 + e.taken - Min(AckSeen(e), 2 + e.taken)) == WINDOW
  }

  ghost predicate Connected(v: View) {
    Half(v.me, v.peer, v.out) && Half(v.peer, v.me, v.inn) && Local(v.me) && Local(v.peer)
  }

  ghost predicate Fresh(e: End) {
    e.written == [] && e.taken == 0 && !e.appClosed && !e.closeTaken && e.delivered == [] && !e.eof
  }

  // The handshake up to the active end's last segment.
  ghost predicate Opening(v: View) {
    var a, p := v.me, v.peer;
    && a.active && !p.active && Fresh(a) && Fresh(p)
    && ( (a.ctx == START && p.ctx == START && v.out == [] && v.inn == [])
      || (a.ctx == START.(state := SynSent) && p.ctx == START
          && v.out == [Segment(true, false, false, 1, 0, [])] && v.inn == [])
      || (a.ctx == START.(state := SynSent)
          && p.ctx == START.(state := SynRcvd, sendSeq := 2, recvSeq := 1, recvAck := 2)
          && v.out == [] && v.inn == [Segment(true, false, true, 1, 2, [])]))
  }

  ghost predicate Invariant(v: View) {
    Opening(v) || Opening(Swap(v)) || Connected(v)
  }

  ghost predicate HasFin(c: seq<Segment>) {
    c != [] && (c[0].fin || HasFin(c[1..]))
  }

  // ---- Appending to a channel

  lemma {:induction false} StreamAppend(c: seq<Segment>, s: Segment, w: seq<Byte>, p: nat, fin: bool,
      end: nat, finEnd: bool, end': nat, finEnd': bool)
    requires Stream(c, w, p, fin, end, finEnd) && Stream([s], w, end, finEnd, end', finEnd')
    ensures Stream(c + [s], w, p, fin, end', finEnd')
  {
    if c == [] {
      assert c + [s] == [s];
    } else {
      var h := c[0];
      assert (c + [s])[1..] == c[1..] + [s];
      StreamAppend(c[1..], s, w, p + |h.payload| + Bit(h.fin), fin || h.fin, end, finEnd, end', finEnd');
    }
  }

  lemma {:induction false} AcksAppend(c: seq<Segment>, s: Segment, lo: nat, hi: nat, fin: bool, finEnd: bool, hi': nat)
    requires Acks(c, lo, hi, fin) && hi <= hi'
    requires finEnd == (fin || HasFin(c))
    requires Acks([s], hi, hi', finEnd)
    ensures Acks(c + [s], lo, hi', fin)
  {
    if c == [] {
      assert c + [s] == [s];
    } else {
      assert (c + [s])[1..] == c[1..] + [s];
      AcksAppend(c[1..], s, if c[0].fin then lo else c[0].ackNo, hi, fin || c[0].fin, finEnd, hi');
    }
  }

  // The first segment of a stream, and the stream behind it.
  lemma StreamHead(c: seq<Segment>, w: seq<Byte>, p: nat, fin: bool, end: nat, finEnd: bool)
    requires c != [] && Stream(c, w, p, fin, end, finEnd)
    ensures Stream(c[1..], w, p + |c[0].payload| + Bit(c[0].fin), fin || c[0].fin, end, finEnd)
    ensures c[0].fin ==> !fin && c[0].payload == []
  {
  }

  lemma {:induction false} StreamFin(c: seq<Segment>, w: seq<Byte>, p: nat, fin: bool, end: nat, finEnd: bool)
    requires Stream(c, w, p, fin, end, finEnd)
    ensures finEnd == (fin || HasFin(c))
    ensures p + Bit(finEnd) <= end + Bit(fin)
  {
    if c != [] {
      StreamHead(c, w, p, fin, end, finEnd);
      hide Stream;
      StreamFin(c[1..], w, p + |c[0].payload| + Bit(c[0].fin), fin || c[0].fin, end, finEnd);
    }
  }

  lemma {:induction false} StreamWider(c: seq<Segment>, w: seq<Byte>, w': seq<Byte>, p: nat, fin: bool, end: nat,
                                       finEnd: bool)
    requires Stream(c, w, p, fin, end, finEnd) && w <= w'
    ensures Stream(c, w', p, fin, end, finEnd)
  {
    if c != [] {
      var h := c[0];
      assert h.payload != [] && !h.fin ==> w'[p - 2..p - 2 + |h.payload|] == w[p - 2..p - 2 + |h.payload|];
      StreamWider(c[1..], w, w', p + |h.payload| + Bit(h.fin), fin || h.fin, end, finEnd);
    }
  }

  lemma {:induction false} AcksBounds(c: seq<Segment>, lo: nat, hi: nat, fin: bool)
    requires Acks(c, lo, hi, fin)
    ensures lo <= hi
    ensures fin && lo == hi && !HasFin(c) ==> c == []
  {
    if c != [] {
      AcksBounds(c[1..], if c[0].fin then lo else c[0].ackNo, hi, fin || c[0].fin);
    }
  }

  // A segment put on the channel from x to y, which is not closed.
  lemma Send(c: seq<Segment>, s: Segment, w: seq<Byte>, p: nat, fin: bool, end: nat, finEnd: bool,
      end': nat, finEnd': bool, lo: nat, hi: nat, hi': nat)
    requires Stream(c, w, p, fin, end, finEnd) && Acks(c, lo, hi, fin)
    requires Stream([s], w, end, finEnd, end', finEnd')
    requires hi <= hi' && Acks([s], hi, hi', finEnd)
    ensures Stream(c + [s], w, p, fin, end', finEnd') && Acks(c + [s], lo, hi', fin)
  {
    StreamFin(c, w, p, fin, end, finEnd);
    StreamAppend(c, s, w, p, fin, end, finEnd, end', finEnd');
    AcksAppend(c, s, lo, hi, fin, finEnd, hi');
  }

  lemma {:induction false} NoSecondFin(c: seq<Segment>, w: seq<Byte>, p: nat, end: nat, finEnd: bool)
    requires Stream(c, w, p, true, end, finEnd)
    ensures !HasFin(c)
  {
    if c != [] {
      NoSecondFin(c[1..], w, p + |c[0].payload|, end, finEnd);
    }
  }

  // ---- Consequences of the invariant

  lemma Ordered(x: End, y: End, c: seq<Segment>, d: seq<Segment>)
    requires Half(x, y, c) && Half(y, x, d)
    ensures AckSeen(x) <= y.ctx.recvAck <= x.ctx.sendSeq
    ensures y.eof ==> x.closeTaken
    ensures AckSeen(y) <= x.ctx.recvAck <= y.ctx.sendSeq
  {
    StreamFin(c, x.written, y.ctx.recvAck, y.eof, x.ctx.sendSeq, x.closeTaken);
    StreamFin(d, y.written, x.ctx.recvAck, x.eof, y.ctx.sendSeq, y.closeTaken);
    AcksBounds(c, AckSeen(y), x.ctx.recvAck, y.eof);
    AcksBounds(d, AckSeen(x), y.ctx.recvAck, x.eof);
  }

  // ---- Every step keeps the invariant

  lemma WriteStep(v: View, bytes: seq<Byte>)
    requires Connected(v) && Enabled(v, Write(bytes))
    ensures Connected(Step(Exact, v, Write(bytes)))
  {
    StreamWider(v.out, v.me.written, v.me.written + bytes, v.peer.ctx.recvAck, v.peer.eof, v.me.ctx.sendSeq,
                v.me.closeTaken);
  }

  lemma CloseAppStep(v: View)
    requires Connected(v) && Enabled(v, CloseApp)
    ensures Connected(Step(Exact, v, CloseApp))
  {
  }

  // An endpoint that still sends has a peer that is not closed.
  lemma PeerListens(v: View)
    requires Connected(v) && !v.me.closeTaken
    ensures v.peer.ctx.state != Closed
  {
    Ordered(v.me, v.peer, v.out, v.inn);
  }

  lemma PushStep(v: View, n: nat)
    requires Connected(v) && Enabled(v, Push(n))
    ensures Connected(Step(Exact, v, Push(n)))
  {
    hide Stream, Acks, Half, Local;
    var t := Step(Exact, v, Push(n));
    PushOut(v, n);
    SameIn(v, t);
    PushLocal(v, n);
  }

  lemma PushOut(v: View, n: nat)
    requires Connected(v) && Enabled(v, Push(n))
    ensures var t := Step(Exact, v, Push(n)); Half(t.me, t.peer, t.out)
  {
    hide Stream, Acks;
    PeerListens(v);
    Pushed(v, n);
  }

  lemma Pushed(v: View, n: nat)
    requires Half(v.me, v.peer, v.out) && n > 0 && v.me.taken + n <= |v.me.written| && !v.me.closeTaken
    ensures var me, peer := v.me, v.peer;
      var out := v.out + [AckSegment(me.ctx.sendSeq, me.ctx.recvAck, me.written[me.taken..me.taken + n])];
      && Stream(out, me.written, peer.ctx.recvAck, peer.eof, me.ctx.sendSeq + n, false)
      && Acks(out, AckSeen(peer), me.ctx.recvAck, peer.eof)
  {
    hide Stream, Acks;
    var me, peer := v.me, v.peer;
    var s := AckSegment(me.ctx.sendSeq, me.ctx.recvAck, me.written[me.taken..me.taken + n]);
    SingleData(s, me.written, me.ctx.sendSeq, me.ctx.recvAck);
    Send(v.out, s, me.written, peer.ctx.recvAck, peer.eof, me.ctx.sendSeq, false,
         me.ctx.sendSeq + n, false, AckSeen(peer), me.ctx.recvAck, me.ctx.recvAck);
  }

  lemma PushLocal(v: View, n: nat)
    requires Connected(v) && Enabled(v, Push(n))
    ensures Local(Step(Exact, v, Push(n)).me)
  {
    hide Stream, Acks;
    Ordered(v.me, v.peer, v.out, v.inn);
  }

  // A step that neither receives nor moves the acknowledged position.
  lemma SameIn(v: View, t: View)
    requires Half(v.peer, v.me, v.inn) && t.peer == v.peer && t.inn == v.inn
    requires t.me.delivered == v.me.delivered && t.me.eof == v.me.eof
    requires t.me.ctx.recvAck == v.me.ctx.recvAck && t.me.ctx.sendAck == v.me.ctx.sendAck
    requires v.me.ctx.state != SynRcvd && t.me.ctx.state != SynRcvd
    requires t.me.ctx.state == Closed ==> v.me.ctx.state == Closed
    ensures Half(t.peer, t.me, t.inn)
  {
    hide Stream, Acks;
  }

  lemma SingleData(s: Segment, w: seq<Byte>, p: nat, hi: nat)
    requires !s.syn && s.ack && !s.fin && s.payload != [] && s.seqNo == p && s.ackNo == hi
    requires 2 <= p && p - 2 + |s.payload| <= |w| && s.payload == w[p - 2..p - 2 + |s.payload|]
    ensures Stream([s], w, p, false, p + |s.payload|, false) && Acks([s], hi, hi, false)
  {
    assert [s][1..] == [];
  }

  lemma SingleFin(s: Segment, w: seq<Byte>, p: nat, hi: nat, fin: bool)
    requires !s.syn && s.ack && s.fin && s.payload == [] && s.seqNo == p && s.ackNo == hi
    ensures Stream([s], w, p, false, p + 1, true) && Acks([s], hi, hi, fin)
  {
    assert [s][1..] == [];
  }

  lemma SingleAck(s: Segment, w: seq<Byte>, p: nat, fin: bool, hi: nat, finEnd: bool)
    requires !s.syn && s.ack && !s.fin && s.payload == [] && hi < s.ackNo
    ensures Stream([s], w, p, fin, p, fin) && Acks([s], hi, s.ackNo, finEnd)
  {
    assert [s][1..] == [];
  }

  lemma CloseStep(v: View)
    requires Connected(v) && Enabled(v, Close)
    ensures Connected(Step(Exact, v, Close))
  {
    hide Stream, Acks, Half, Local;
    CloseOut(v);
    SameIn(v, Step(Exact, v, Close));
    CloseLocal(v);
  }

  lemma CloseOut(v: View)
    requires Connected(v) && Enabled(v, Close)
    ensures var t := Step(Exact, v, Close); Half(t.me, t.peer, t.out)
  {
    hide Stream, Acks;
    var me, peer := v.me, v.peer;
    PeerListens(v);
    var s := FinSegment(me.ctx.sendSeq, me.ctx.recvAck);
    SingleFin(s, me.written, me.ctx.sendSeq, me.ctx.recvAck, false);
    Send(v.out, s, me.written, peer.ctx.recvAck, peer.eof, me.ctx.sendSeq, false,
         me.ctx.sendSeq + 1, true, AckSeen(peer), me.ctx.recvAck, me.ctx.recvAck);
  }

  lemma CloseLocal(v: View)
    requires Connected(v) && Enabled(v, Close)
    ensures Local(Step(Exact, v, Close).me)
  {
    hide Stream, Acks;
    Ordered(v.me, v.peer, v.out, v.inn);
  }

  lemma HandshakeAckStep(v: View)
    requires Connected(v) && Enabled(v, Receive) && v.me.ctx.state == SynRcvd
    ensures Connected(Step(Exact, v, Receive))
  {
    assert v.out + [] == v.out && v.me.delivered + [] == v.me.delivered;
  }

  // ---- Receiving

  // What is known of the head of the incoming channel.
  lemma Head(v: View)
    requires Connected(v) && Enabled(v, Receive) && v.me.ctx.state != SynRcvd
    ensures var me, peer, s := v.me, v.peer, v.inn[0];
      && !s.syn && s.ack
      && (if s.fin then
            !me.eof && s.payload == [] && s.seqNo == me.ctx.recvAck && s.ackNo == me.ctx.sendAck
            && Stream(v.inn[1..], peer.written, me.ctx.recvAck + 1, true, peer.ctx.sendSeq, peer.closeTaken)
            && Acks(v.inn[1..], me.ctx.sendAck, peer.ctx.recvAck, true)
          else
            && me.ctx.sendAck <= s.ackNo <= peer.ctx.recvAck
            && Acks(v.inn[1..], s.ackNo, peer.ctx.recvAck, me.eof)
            && Stream(v.inn[1..], peer.written, me.ctx.recvAck + |s.payload|, me.eof, peer.ctx.sendSeq, peer.closeTaken)
            && (s.payload != [] ==>
                  && !me.eof && s.seqNo == me.ctx.recvAck
                  && me.ctx.recvAck - 2 + |s.payload| <= |peer.written|
                  && s.payload == peer.written[me.ctx.recvAck - 2..me.ctx.recvAck - 2 + |s.payload|]))
  {
  }

  // Whoever is sent data or a FIN has not closed.
  lemma PeerWaits(v: View)
    requires Connected(v) && Enabled(v, Receive) && v.me.ctx.state != SynRcvd
    requires v.inn[0].fin || v.inn[0].payload != []
    ensures v.peer.ctx.state != Closed
  {
    hide Stream, Acks;
    var me, peer, s := v.me, v.peer, v.inn[0];
    Head(v);
    Ordered(me, peer, v.out, v.inn);
    StreamFin(v.inn[1..], peer.written, me.ctx.recvAck + |s.payload| + Bit(s.fin), me.eof || s.fin, peer.ctx.sendSeq,
              peer.closeTaken);
  }

  // With everything acknowledged and the FIN in, nothing else is on the way.
  lemma NothingBehind(c: seq<Segment>, w: seq<Byte>, p: nat, end: nat, finEnd: bool, lo: nat, hi: nat)
    requires Stream(c, w, p, true, end, finEnd) && Acks(c, lo, hi, true) && hi <= lo
    ensures c == []
  {
    NoSecondFin(c, w, p, end, finEnd);
    AcksBounds(c, lo, hi, true);
  }

  lemma WindowOpens(window: nat, taken: nat, seen: nat, ackNo: nat)
    requires window + (2 + taken - Min(seen, 2 + taken)) == WINDOW
    requires seen <= ackNo <= 3 + taken
    ensures Opened(Exact, window, ackNo, seen) + (2 + taken - Min(ackNo, 2 + taken)) == WINDOW
  {
  }

  lemma FinStep(v: View)
    requires Connected(v) && Enabled(v, Receive) && v.me.ctx.state != SynRcvd && v.inn[0].fin
    ensures Connected(Step(Exact, v, Receive))
  {
    hide Stream, Acks, Half, Local;
    FinOut(v);
    FinIn(v);
    FinLocal(v);
  }

  lemma FinOut(v: View)
    requires Connected(v) && Enabled(v, Receive) && v.me.ctx.state != SynRcvd && v.inn[0].fin
    ensures var t := Step(Exact, v, Receive); Half(t.me, t.peer, t.out)
  {
    hide Stream, Acks, StateOnFin;
    Head(v);
    PeerWaits(v);
    Reply(v, v.me.ctx.recvAck + 1);
  }

  lemma FinIn(v: View)
    requires Connected(v) && Enabled(v, Receive) && v.me.ctx.state != SynRcvd && v.inn[0].fin
    ensures var t := Step(Exact, v, Receive); Half(t.peer, t.me, t.inn)
  {
    hide Stream, Acks, Half, Local, Step;
    Head(v);
    LoopState(v);
    FinInEmpty(v);
    FinInShape(v);
  }

  lemma FinInEmpty(v: View)
    requires Connected(v) && Enabled(v, Receive) && v.me.ctx.state != SynRcvd && v.inn[0].fin
    ensures Step(Exact, v, Receive).me.ctx.state == Closed ==> v.inn[1..] == []
  {
    hide Stream, Acks, Half;
    var me, peer := v.me, v.peer;
    Head(v);
    Ordered(me, peer, v.out, v.inn);
    if me.ctx.state == FinWait2 {
      NothingBehind(v.inn[1..], peer.written, me.ctx.recvAck + 1, peer.ctx.sendSeq, peer.closeTaken, me.ctx.sendAck,
                    peer.ctx.recvAck);
    }
  }

  lemma FinInShape(v: View)
    requires Half(v.peer, v.me, v.inn) && Enabled(v, Receive) && v.me.ctx.state != SynRcvd && v.inn[0].fin
    requires v.me.ctx.state != Listen && v.me.ctx.state != SynSent && !v.me.eof && !v.inn[0].syn
    requires Acks(v.inn[1..], v.me.ctx.sendAck, v.peer.ctx.recvAck, true)
    requires Stream(v.inn[1..], v.peer.written, v.me.ctx.recvAck + 1, true, v.peer.ctx.sendSeq, v.peer.closeTaken)
    requires Step(Exact, v, Receive).me.ctx.state == Closed ==> v.inn[1..] == []
    ensures var t := Step(Exact, v, Receive); Half(t.peer, t.me, t.inn)
  {
    hide Stream, Acks;
    assert v.me.delivered + [] == v.me.delivered;
  }

  lemma FinLocal(v: View)
    requires Connected(v) && Enabled(v, Receive) && v.me.ctx.state != SynRcvd && v.inn[0].fin
    ensures Local(Step(Exact, v, Receive).me)
  {
    hide Stream, Acks, Half;
    Head(v);
  }

  // The acknowledgement that answers data or a FIN.
  lemma Reply(v: View, ackNo: nat)
    requires Half(v.me, v.peer, v.out) && ackNo > v.me.ctx.recvAck
    ensures var me, peer := v.me, v.peer;
      && Stream(v.out + [AckSegment(me.ctx.sendSeq, ackNo, [])], me.written, peer.ctx.recvAck, peer.eof,
                me.ctx.sendSeq, me.closeTaken)
      && Acks(v.out + [AckSegment(me.ctx.sendSeq, ackNo, [])], AckSeen(peer), ackNo, peer.eof)
  {
    hide Stream, Acks;
    var me, peer := v.me, v.peer;
    var s := AckSegment(me.ctx.sendSeq, ackNo, []);
    SingleAck(s, me.written, me.ctx.sendSeq, me.closeTaken, me.ctx.recvAck, me.closeTaken);
    Send(v.out, s, me.written, peer.ctx.recvAck, peer.eof, me.ctx.sendSeq, me.closeTaken,
         me.ctx.sendSeq, me.closeTaken, AckSeen(peer), me.ctx.recvAck, ackNo);
  }

  lemma AckStep(v: View)
    requires Connected(v) && Enabled(v, Receive) && v.me.ctx.state != SynRcvd && !v.inn[0].fin
    ensures Connected(Step(Exact, v, Receive))
  {
    hide Stream, Acks, Half, Local;
    Head(v);
    AckOut(v);
    AckIn(v);
    AckLocal(v);
  }

  lemma AckOut(v: View)
    requires Connected(v) && Enabled(v, Receive) && v.me.ctx.state != SynRcvd && !v.inn[0].fin
    ensures var t := Step(Exact, v, Receive); Half(t.me, t.peer, t.out)
  {
    hide Stream, Acks, Opened, StateOnAck, Local, Half, Step;
    Head(v);
    LoopState(v);
    if v.inn[0].payload != [] {
      PeerWaits(v);
      Reply(v, v.me.ctx.recvAck + |v.inn[0].payload|);
    }
    AckOutShape(v);
  }

  lemma AckOutShape(v: View)
    requires Half(v.me, v.peer, v.out) && Enabled(v, Receive) && v.me.ctx.state != SynRcvd && !v.inn[0].fin
    requires v.me.ctx.state != Listen && v.me.ctx.state != SynSent
    requires !v.inn[0].syn && v.inn[0].ack
    requires v.inn[0].payload != [] ==>
      var me, peer, ackNo := v.me, v.peer, v.me.ctx.recvAck + |v.inn[0].payload|;
      var out := v.out + [AckSegment(me.ctx.sendSeq, ackNo, [])];
      && v.inn[0].seqNo == me.ctx.recvAck && peer.ctx.state != Closed
      && Stream(out, me.written, peer.ctx.recvAck, peer.eof, me.ctx.sendSeq, me.closeTaken)
      && Acks(out, AckSeen(peer), ackNo, peer.eof)
    ensures var t := Step(Exact, v, Receive); Half(t.me, t.peer, t.out)
  {
    hide Stream, Acks, Opened, StateOnAck;
    if v.inn[0].payload == [] {
      assert v.out + [] == v.out;
    }
  }

  lemma AckIn(v: View)
    requires Connected(v) && Enabled(v, Receive) && v.me.ctx.state != SynRcvd && !v.inn[0].fin
    ensures var t := Step(Exact, v, Receive); Half(t.peer, t.me, t.inn)
  {
    hide Stream, Acks, Opened, Half, Local, Step;
    Head(v);
    LoopState(v);
    AckInDelivered(v);
    AckInEmpty(v);
    AckInShape(v);
  }

  lemma LoopState(v: View)
    requires Connected(v)
    ensures Half(v.me, v.peer, v.out) && Half(v.peer, v.me, v.inn)
    ensures v.me.ctx.state != Listen && v.me.ctx.state != SynSent
  {
    hide Half;
  }

  // The delivered bytes are still a prefix of what the peer wrote.
  lemma AckInDelivered(v: View)
    requires Connected(v) && Enabled(v, Receive) && v.me.ctx.state != SynRcvd && !v.inn[0].fin
    ensures var d := v.me.delivered + v.inn[0].payload;
      |d| <= v.peer.taken && d == v.peer.written[..|d|]
  {
    hide Stream, Acks, Local;
    var me, peer, s := v.me, v.peer, v.inn[0];
    Head(v);
    StreamFin(v.inn[1..], peer.written, me.ctx.recvAck + |s.payload|, me.eof, peer.ctx.sendSeq, peer.closeTaken);
    if s.payload == [] {
      assert me.delivered + s.payload == me.delivered;
    }
  }

  lemma AckInEmpty(v: View)
    requires Connected(v) && Enabled(v, Receive) && v.me.ctx.state != SynRcvd && !v.inn[0].fin
    ensures Step(Exact, v, Receive).me.ctx.state == Closed ==> v.inn[1..] == []
  {
    hide Stream, Acks, Opened;
    var me, peer, s := v.me, v.peer, v.inn[0];
    Head(v);
    Ordered(me, peer, v.out, v.inn);
    if me.eof && s.ackNo == me.ctx.sendSeq {
      NothingBehind(v.inn[1..], peer.written, me.ctx.recvAck + |s.payload|, peer.ctx.sendSeq, peer.closeTaken,
                    s.ackNo, peer.ctx.recvAck);
    }
  }

  lemma AckInShape(v: View)
    requires Half(v.peer, v.me, v.inn) && Enabled(v, Receive) && v.me.ctx.state != SynRcvd && !v.inn[0].fin
    requires v.me.ctx.state != Listen && v.me.ctx.state != SynSent
    requires !v.inn[0].syn && v.inn[0].ack
    requires Acks(v.inn[1..], v.inn[0].ackNo, v.peer.ctx.recvAck, v.me.eof)
    requires Stream(v.inn[1..], v.peer.written, v.me.ctx.recvAck + |v.inn[0].payload|, v.me.eof, v.peer.ctx.sendSeq,
                    v.peer.closeTaken)
    requires var d := v.me.delivered + v.inn[0].payload; |d| <= v.peer.taken && d == v.peer.written[..|d|]
    requires Step(Exact, v, Receive).me.ctx.state == Closed ==> v.inn[1..] == []
    ensures var t := Step(Exact, v, Receive); Half(t.peer, t.me, t.inn)
  {
    hide Stream, Acks, Opened;
  }

  lemma SendSeqIs(v: View)
    requires Connected(v)
    ensures v.me.ctx.sendSeq == 2 + v.me.taken + Bit(v.me.closeTaken)
  {
    hide Stream, Acks, Local;
  }

  lemma AckLocal(v: View)
    requires Connected(v) && Enabled(v, Receive) && v.me.ctx.state != SynRcvd && !v.inn[0].fin
    ensures Local(Step(Exact, v, Receive).me)
  {
    hide Stream, Acks, Opened, Half;
    Head(v);
    Ordered(v.me, v.peer, v.out, v.inn);
    SendSeqIs(v);
    WindowOpens(v.me.ctx.window, v.me.taken, v.me.ctx.sendAck, v.inn[0].ackNo);
  }

  lemma ConnectedStep(v: View, a: Action)
    requires Connected(v) && Enabled(v, a)
    ensures Connected(Step(Exact, v, a))
  {
    hide Stream, Acks, Step;
    match a {
      case Open =>
      case Write(bytes) => WriteStep(v, bytes);
      case CloseApp => CloseAppStep(v);
      case Push(n) => PushStep(v, n);
      case Close => CloseStep(v);
      case Receive =>
        if v.me.ctx.state == SynRcvd {
          HandshakeAckStep(v);
        } else if v.inn[0].fin {
          FinStep(v);
        } else {
          AckStep(v);
        }
    }
  }

  // ---- The handshake

  lemma OpeningStepActive(v: View, a: Action)
    requires Opening(v) && Enabled(v, a)
    ensures Invariant(Step(Exact, v, a))
  {
    var t := Step(Exact, v, a);
    assert v.me.delivered + [] == [] && v.me.written == [];
    if a.Receive? {
      HandshakeDone(t);
    }
  }

  lemma HandshakeDone(t: View)
    requires Fresh(t.me) && Fresh(t.peer) && t.inn == [] && t.out == [AckSegment(2, 2, [])]
    requires t.me.ctx == Context(Established, 2, 1, 2, 2, WINDOW, false)
    requires t.peer.ctx == START.(state := SynRcvd, sendSeq := 2, recvSeq := 1, recvAck := 2)
    ensures Connected(t)
  {
    assert t.out[1..] == [];
  }

  lemma OpeningStepPassive(v: View, a: Action)
    requires Opening(Swap(v)) && Enabled(v, a)
    ensures Invariant(Step(Exact, v, a))
  {
    var synAck := Segment(true, false, true, 1, 2, []);
    assert v.me.delivered + [] == [] && v.out + [synAck] == [synAck];
  }

  lemma InvariantStep(v: View, a: Action)
    requires Invariant(v) && Enabled(v, a)
    ensures Invariant(Step(Exact, v, a))
  {
    hide Connected, Opening, Step, Enabled;
    if Connected(v) {
      ConnectedStep(v, a);
    } else if Opening(v) {
      OpeningStepActive(v, a);
    } else {
      OpeningStepPassive(v, a);
    }
  }

  lemma InvariantSwap(v: View)
    requires Invariant(v)
    ensures Invariant(Swap(v))
  {
    hide Half, Local, Opening;
    assert Swap(Swap(v)) == v;
  }
}
