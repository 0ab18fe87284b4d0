// Properties of every interleaving of the two endpoints and their applications.
module StcpTheorems {
  import opened Stcp
  import opened StcpSystem

  // ---- Runs of the whole system, seen from the active end

  datatype Event = Event(byActive: bool, action: Action)

  predicate Can(v: View, e: Event) {
    Enabled(if e.byActive then v else Swap(v), e.action)
  }

  function Do(w: Width, v: View, e: Event): View
    requires Can(v, e)
  {
    if e.byActive then Step(w, v, e.action) else Swap(Step(w, Swap(v), e.action))
  }

  // Every event is possible when it happens.
  predicate Possible(w: Width, run: seq<Event>)
    decreases |run|, 0
  {
    run == [] || (Possible(w, run[..|run| - 1]) && Can(Reached(w, run[..|run| - 1]), run[|run| - 1]))
  }

  function Reached(w: Width, run: seq<Event>): View
    requires Possible(w, run)
    decreases |run|, 1
  {
    if run == [] then INITIAL else Do(w, Reached(w, run[..|run| - 1]), run[|run| - 1])
  }

  // ---- 32-bit sequence numbers behave as if they did not wrap

  function WrapContext(c: Context): Context {
    c.(sendSeq := c.sendSeq % TWO_32, recvSeq := c.recvSeq % TWO_32, sendAck := c.sendAck % TWO_32,
       recvAck := c.recvAck % TWO_32)
  }

  function WrapSegment(s: Segment): Segment {
    s.(seqNo := s.seqNo % TWO_32, ackNo := s.ackNo % TWO_32)
  }

  function WrapAll(c: seq<Segment>): (d: seq<Segment>)
    ensures |d| == |c| && forall i :: 0 <= i < |c| ==> d[i] == WrapSegment(c[i])
  {
    seq(|c|, i requires 0 <= i < |c| => WrapSegment(c[i]))
  }

  function WrapEnd(e: End): End { e.(ctx := WrapContext(e.ctx)) }

  function Wrap(v: View): View { View(WrapEnd(v.me), WrapEnd(v.peer), WrapAll(v.out), WrapAll(v.inn)) }

  function WrapReaction(r: Reaction): Reaction {
    r.(ctx := WrapContext(r.ctx), sent := WrapAll(r.sent))
  }

  // Numbers that are close are equal when they are equal modulo 2^32.
  lemma CloseNumbers(a: nat, b: nat)
    requires b <= a < b + TWO_32
    ensures a % TWO_32 == b % TWO_32 <==> a == b
    ensures (a % TWO_32 - b % TWO_32) % TWO_32 == a - b
  {
  }

  lemma WrapNum(a: nat, n: nat)
    ensures (a % TWO_32 + n) % TWO_32 == (a + n) % TWO_32
  {
  }

  lemma WrapPush(c: Context, data: seq<Byte>)
    requires |data| <= c.window
    ensures OnData(Bits32, WrapContext(c), data) == WrapReaction(OnData(Exact, c, data))
  {
    WrapNum(c.sendSeq, |data|);
  }

  lemma WrapClose(c: Context)
    ensures OnClose(Bits32, WrapContext(c)) == WrapReaction(OnClose(Exact, c))
  {
    WrapNum(c.sendSeq, 1);
  }

  lemma WrapOpen(c: Context)
    ensures OpenActive(WrapContext(c)) == WrapReaction(OpenActive(c))
  {
  }

  lemma WrapAck(c: Context, s: Segment)
    requires c.sendAck <= s.ackNo <= c.sendSeq < c.sendAck + TWO_32
    ensures OnAck(Bits32, WrapContext(c), WrapSegment(s)) == WrapReaction(OnAck(Exact, c, s))
  {
    CloseNumbers(c.sendSeq, s.ackNo);
    CloseNumbers(s.ackNo, c.sendAck);
    WrapNum(c.recvAck, |s.payload|);
    WrapNum(s.seqNo, |s.payload|);
    var exact := Opened(Exact, c.window, s.ackNo, c.sendAck);
    assert Opened(Bits32, c.window, s.ackNo % TWO_32, c.sendAck % TWO_32) == exact;
    assert StateOnAck(WrapContext(c), s.ackNo % TWO_32) == StateOnAck(c, s.ackNo);
  }

  lemma WrapFin(c: Context, s: Segment)
    requires s.ackNo <= c.sendSeq < s.ackNo + TWO_32
    ensures OnFin(Bits32, WrapContext(c), WrapSegment(s)) == WrapReaction(OnFin(Exact, c, s))
  {
    CloseNumbers(c.sendSeq, s.ackNo);
    WrapNum(c.recvAck, 1);
    WrapNum(s.seqNo, 1);
    assert StateOnFin(WrapContext(c), WrapSegment(s)) == StateOnFin(c, s);
  }

  lemma WrapHandshake(c: Context, s: Segment)
    ensures OnSyn(Bits32, WrapContext(c), WrapSegment(s)) == WrapReaction(OnSyn(Exact, c, s))
    ensures OnSynAck(Bits32, WrapContext(c), WrapSegment(s)) == WrapReaction(OnSynAck(Exact, c, s))
    ensures OnHandshakeAck(WrapContext(c), WrapSegment(s)) == WrapReaction(OnHandshakeAck(c, s))
  {
    WrapNum(c.sendSeq, 1);
    WrapNum(s.seqNo, 1);
  }

  // What comes in is within reach of what was sent.
  lemma WithinReach(v: View)
    requires Connected(v) && Enabled(v, Receive) && v.me.ctx.state != SynRcvd
    ensures var c, s := v.me.ctx, v.inn[0];
      && !s.syn && s.ack
      && c.sendAck <= s.ackNo <= c.sendSeq < c.sendAck + TWO_32
  {
    hide Stream, Acks;
    Head(v);
    Ordered(v.me, v.peer, v.out, v.inn);
  }

  lemma WrapReact(v: View)
    requires Invariant(v) && Enabled(v, Receive)
    ensures React(Bits32, WrapContext(v.me.ctx), WrapSegment(v.inn[0]))
      == WrapReaction(React(Exact, v.me.ctx, v.inn[0]))
  {
    hide OnAck, OnFin, OnSyn, OnSynAck, OnHandshakeAck, WrapReaction, Half;
    var c, s := v.me.ctx, v.inn[0];
    WrapHandshake(c, s);
    if c.state != Listen && c.state != SynSent && c.state != SynRcvd {
      assert Connected(v);
      WithinReach(v);
      WrapAck(c, s);
      WrapFin(c, s);
    }
  }

  lemma WrapApply(v: View, r: Reaction)
    ensures Apply(Wrap(v), WrapReaction(r)) == Wrap(Apply(v, r))
  {
  }

  // A step with 32-bit numbers is a step with exact numbers, wrapped.
  lemma WrapStep(v: View, a: Action)
    requires Invariant(v)
    ensures Enabled(Wrap(v), a) <==> Enabled(v, a)
    ensures Enabled(v, a) ==> Step(Bits32, Wrap(v), a) == Wrap(Step(Exact, v, a))
  {
    hide Invariant, React, OnData, OnClose, OpenActive, Apply, WrapReaction, Wrap;
    WrapFields(v);
    if Enabled(v, a) {
      match a {
        case Open =>
          WrapOpen(v.me.ctx);
          WrapApply(v, OpenActive(v.me.ctx));
        case Write(bytes) => WrapWrite(v, bytes);
        case CloseApp => WrapWrite(v, []);
        case Push(n) =>
          var t := v.(me := v.me.(taken := v.me.taken + n));
          var data := v.me.written[v.me.taken..v.me.taken + n];
          WrapPush(v.me.ctx, data);
          WrapTaken(v, n);
          WrapApply(t, OnData(Exact, v.me.ctx, data));
        case Close =>
          WrapClose(v.me.ctx);
          WrapTaken(v, 0);
          WrapApply(v.(me := v.me.(closeTaken := true)), OnClose(Exact, v.me.ctx));
        case Receive =>
          WrapReact(v);
          WrapReceived(v);
          WrapApply(v.(inn := v.inn[1..]), React(Exact, v.me.ctx, v.inn[0]));
      }
    }
  }

  lemma WrapFields(v: View)
    ensures Wrap(v).me == WrapEnd(v.me) && |Wrap(v).inn| == |v.inn|
    ensures forall i :: 0 <= i < |v.inn| ==> Wrap(v).inn[i] == WrapSegment(v.inn[i])
  {
  }

  lemma WrapWrite(v: View, bytes: seq<Byte>)
    ensures Wrap(v).(me := Wrap(v).me.(written := v.me.written + bytes))
      == Wrap(v.(me := v.me.(written := v.me.written + bytes)))
    ensures Wrap(v).(me := Wrap(v).me.(appClosed := true)) == Wrap(v.(me := v.me.(appClosed := true)))
  {
  }

  lemma WrapTaken(v: View, n: nat)
    ensures Wrap(v).(me := Wrap(v).me.(taken := v.me.taken + n)) == Wrap(v.(me := v.me.(taken := v.me.taken + n)))
    ensures Wrap(v).(me := Wrap(v).me.(closeTaken := true)) == Wrap(v.(me := v.me.(closeTaken := true)))
  {
  }

  lemma WrapReceived(v: View)
    requires v.inn != []
    ensures Wrap(v).(inn := Wrap(v).inn[1..]) == Wrap(v.(inn := v.inn[1..]))
  {
    assert WrapAll(v.inn)[1..] == WrapAll(v.inn[1..]);
  }

  lemma WrapSwap(v: View)
    ensures Wrap(Swap(v)) == Swap(Wrap(v))
  {
  }

  // Every run with 32-bit numbers is the image of the same run with exact ones,
  // whose states satisfy the invariant.
  lemma {:induction false} WrapRun(run: seq<Event>)
    requires Possible(Bits32, run)
    ensures Possible(Exact, run)
    ensures Invariant(Reached(Exact, run)) && Reached(Bits32, run) == Wrap(Reached(Exact, run))
  {
    if run == [] {
      assert WrapAll([]) == [];
    } else {
      hide Invariant, Step, Enabled, Wrap;
      var before, e := run[..|run| - 1], run[|run| - 1];
      WrapRun(before);
      var v := Reached(Exact, before);
      if e.byActive {
        WrapStep(v, e.action);
        InvariantStep(v, e.action);
      } else {
        InvariantSwap(v);
        WrapSwap(v);
        WrapStep(Swap(v), e.action);
        InvariantStep(Swap(v), e.action);
        InvariantSwap(Step(Exact, Swap(v), e.action));
        WrapSwap(Step(Exact, Swap(v), e.action));
      }
    }
  }

  // ---- What every run guarantees; x is either end, y the other

  function EndOf(v: View, active: bool): End { if active then v.me else v.peer }

  function ChannelFrom(v: View, active: bool): seq<Segment> { if active then v.out else v.inn }

  lemma Facts(run: seq<Event>, active: bool) returns (v: View)
    requires Possible(Bits32, run)
    ensures Invariant(v) && Reached(Bits32, run) == (if active then Wrap(v) else Wrap(Swap(v)))
  {
    hide Invariant, Wrap, Possible, Reached;
    WrapRun(run);
    v := Reached(Exact, run);
    if !active {
      InvariantSwap(v);
      v := Swap(v);
    }
  }

  // What an application is given is a prefix of what the other one wrote.
  lemma DeliversPrefix(run: seq<Event>, active: bool)
    requires Possible(Bits32, run)
    ensures var v := Reached(Bits32, run);
      EndOf(v, !active).delivered <= EndOf(v, active).written
  {
    hide Stream, Acks, Local, Possible, Reached;
    var v := Facts(run, active);
    if Connected(v) {
      assert v.peer.delivered <= v.me.written;
    }
  }

  // Everything a closed endpoint's application wrote has been delivered, its FIN
  // too, and nothing is on the way to it.
  lemma ClosedIsConsumed(run: seq<Event>, active: bool)
    requires Possible(Bits32, run) && EndOf(Reached(Bits32, run), active).ctx.state == Closed
    ensures var v := Reached(Bits32, run);
      && EndOf(v, !active).delivered == EndOf(v, active).written
      && EndOf(v, !active).eof && EndOf(v, active).eof
      && ChannelFrom(v, !active) == []
  {
    hide Stream, Acks, Possible, Reached;
    var v := Facts(run, active);
    assert Connected(v);
    Ordered(v.me, v.peer, v.out, v.inn);
    assert v.peer.delivered == v.me.written[..|v.me.written|];
  }

  // When both have closed and nothing is on the way, both are closed.
  lemma QuietMeansClosed(run: seq<Event>)
    requires Possible(Bits32, run)
    requires var v := Reached(Bits32, run);
      v.me.closeTaken && v.peer.closeTaken && v.out == [] && v.inn == []
    ensures var v := Reached(Bits32, run);
      v.me.ctx.state == Closed && v.peer.ctx.state == Closed
  {
    hide Possible, Reached;
    var v := Facts(run, true);
    assert v.out == [] && v.inn == [];
    assert Connected(v);
  }

  function Carried(c: seq<Segment>): nat {
    if c == [] then 0 else |c[0].payload| + Carried(c[1..])
  }

  lemma {:induction false} CarriedBytes(c: seq<Segment>, w: seq<Byte>, p: nat, fin: bool, end: nat, finEnd: bool)
    requires Stream(c, w, p, fin, end, finEnd)
    ensures p + Carried(c) + Bit(finEnd) == end + Bit(fin)
  {
    if c != [] {
      StreamHead(c, w, p, fin, end, finEnd);
      hide Stream;
      CarriedBytes(c[1..], w, p + |c[0].payload| + Bit(c[0].fin), fin || c[0].fin, end, finEnd);
    }
  }

  lemma {:induction false} NothingAfterFin(c: seq<Segment>, w: seq<Byte>, p: nat, end: nat, finEnd: bool)
    requires Stream(c, w, p, true, end, finEnd)
    ensures Carried(c) == 0
  {
    if c != [] {
      NothingAfterFin(c[1..], w, p, end, finEnd);
    }
  }

  lemma {:induction false} CarriedWrapped(c: seq<Segment>)
    ensures Carried(WrapAll(c)) == Carried(c)
  {
    if c != [] {
      assert WrapAll(c)[1..] == WrapAll(c[1..]);
      CarriedWrapped(c[1..]);
    }
  }

  lemma {:induction false} NoPayload(c: seq<Segment>)
    requires forall i :: 0 <= i < |c| ==> c[i].payload == []
    ensures Carried(c) == 0
  {
    if c != [] {
      NoPayload(c[1..]);
    }
  }

  // The data on the way and the window never exceed WINDOW together, so no more
  // than WINDOW bytes are ever in flight and the 16-bit window holds its value.
  lemma FlowControlled(run: seq<Event>, active: bool)
    requires Possible(Bits32, run)
    ensures var v := Reached(Bits32, run);
      Carried(ChannelFrom(v, active)) + EndOf(v, active).ctx.window <= WINDOW < TWO_16
  {
    hide Possible, Reached, Acks, Stream, Half, Local;
    var v := Facts(run, active);
    CarriedWrapped(v.out);
    if Connected(v) {
      InFlight(v);
    } else {
      NoPayload(v.out);
    }
  }

  lemma InFlight(v: View)
    requires Connected(v)
    ensures Carried(v.out) + v.me.ctx.window <= WINDOW
  {
    hide Acks, Stream;
    var p := v.peer;
    Ordered(v.me, p, v.out, v.inn);
    CarriedBytes(v.out, v.me.written, p.ctx.recvAck, p.eof, v.me.ctx.sendSeq, v.me.closeTaken);
    if p.eof {
      NothingAfterFin(v.out, v.me.written, p.ctx.recvAck, v.me.ctx.sendSeq, v.me.closeTaken);
    }
  }

  // Until it closes, an endpoint's window and its unacknowledged bytes make up WINDOW.
  lemma WindowIsRest(run: seq<Event>, active: bool)
    requires Possible(Bits32, run) && Running(EndOf(Reached(Bits32, run), active))
    ensures var e := EndOf(Reached(Bits32, run), active);
      && (!e.closeTaken ==> e.ctx.window + (e.ctx.sendSeq - e.ctx.sendAck) % TWO_32 == WINDOW)
      && (e.closeTaken && e.ctx.sendAck != e.ctx.sendSeq ==>
            e.ctx.window + (e.ctx.sendSeq - e.ctx.sendAck) % TWO_32 == WINDOW + 1)
      && (e.closeTaken && e.ctx.sendAck == e.ctx.sendSeq ==> e.ctx.window == WINDOW)
  {
    hide Possible, Reached, Acks, Stream;
    var v := Facts(run, active);
    assert Connected(v);
    Ordered(v.me, v.peer, v.out, v.inn);
    CloseNumbers(v.me.ctx.sendSeq, v.me.ctx.sendAck);
  }

  // ---- Closing finishes

  // The events in which the transport itself does something.
  predicate Progress(a: Action) { a.Push? || a.Receive? || a.Close? }

  function Weight(c: seq<Segment>): nat {
    if c == [] then 0 else (if c[0].payload != [] || c[0].fin then 2 else 1) + Weight(c[1..])
  }

  function ToDo(e: End): int { 3 * (|e.written| - e.taken) + if e.closeTaken then 0 else 3 }

  // How many more transport events there can be.
  function Remaining(v: View): int { ToDo(v.me) + ToDo(v.peer) + Weight(v.out) + Weight(v.inn) }

  lemma {:induction false} WeightAppend(c: seq<Segment>, d: seq<Segment>)
    ensures Weight(c + d) == Weight(c) + Weight(d)
  {
    if c == [] {
      assert c + d == d;
    } else {
      assert (c + d)[1..] == c[1..] + d;
      WeightAppend(c[1..], d);
    }
  }

  lemma {:induction false} WeightWrapped(c: seq<Segment>)
    ensures Weight(WrapAll(c)) == Weight(c)
  {
    if c != [] {
      assert WrapAll(c)[1..] == WrapAll(c[1..]);
      WeightWrapped(c[1..]);
    }
  }

  lemma ReplyIsLight(w: Width, c: Context, s: Segment)
    requires c.state != Listen && c.state != SynSent && !s.syn && s.ack
    ensures Weight(React(w, c, s).sent) < if s.payload != [] || s.fin then 2 else 1
  {
    assert forall t: Segment :: [t][1..] == [];
  }

  // Every transport event of a connected system uses up some of what remains.
  lemma ProgressCounts(v: View, a: Action)
    requires Connected(v) && Enabled(v, a) && Progress(a)
    ensures Remaining(Step(Exact, v, a)) < Remaining(v)
    ensures Remaining(v) >= 0
  {
    hide Step, Stream, Acks;
    NoDebt(v);
    match a {
      case Push(n) => PushCounts(v, n);
      case Close => CloseCounts(v);
      case Receive => ReceiveCounts(v);
      case _ =>
    }
  }

  lemma NoDebt(v: View)
    requires Connected(v)
    ensures Remaining(v) >= 0
  {
    hide Stream, Acks, Local;
    assert v.me.taken <= |v.me.written| && v.peer.taken <= |v.peer.written|;
  }

  lemma WeightOne(c: seq<Segment>, s: Segment)
    ensures Weight(c + [s]) == Weight(c) + if s.payload != [] || s.fin then 2 else 1
  {
    WeightAppend(c, [s]);
    assert [s][1..] == [];
  }

  lemma PushCounts(v: View, n: nat)
    requires Enabled(v, Push(n))
    ensures Remaining(Step(Exact, v, Push(n))) < Remaining(v)
  {
    WeightOne(v.out, AckSegment(v.me.ctx.sendSeq, v.me.ctx.recvAck, v.me.written[v.me.taken..v.me.taken + n]));
    hide Weight;
  }

  lemma CloseCounts(v: View)
    requires Enabled(v, Close)
    ensures Remaining(Step(Exact, v, Close)) < Remaining(v)
  {
    WeightOne(v.out, FinSegment(v.me.ctx.sendSeq, v.me.ctx.recvAck));
    hide Weight;
  }

  lemma ReceiveCounts(v: View)
    requires Connected(v) && Enabled(v, Receive)
    ensures Remaining(Step(Exact, v, Receive)) < Remaining(v)
  {
    hide Half, Local, React;
    HeadFlags(v);
    ReplyIsLight(Exact, v.me.ctx, v.inn[0]);
    WeightAppend(v.out, React(Exact, v.me.ctx, v.inn[0]).sent);
  }

  lemma HeadFlags(v: View)
    requires Connected(v) && v.inn != []
    ensures !v.inn[0].syn && v.inn[0].ack && v.me.ctx.state != Listen && v.me.ctx.state != SynSent
  {
  }

  predicate TransportCanAct(v: View) {
    || Enabled(v, Receive) || Enabled(v, Close) || Enabled(v, Push(1))
    || Enabled(Swap(v), Receive) || Enabled(Swap(v), Close) || Enabled(Swap(v), Push(1))
  }

  // Once both applications have closed, either both endpoints are closed or the
  // transport can do something: the protocol never gets stuck.
  lemma NeverStuck(run: seq<Event>)
    requires Possible(Bits32, run)
    requires var v := Reached(Bits32, run); v.me.appClosed && v.peer.appClosed
    ensures var v := Reached(Bits32, run);
      TransportCanAct(v) || (v.me.ctx.state == Closed && v.peer.ctx.state == Closed)
  {
    hide Possible, Reached;
    var v := Facts(run, true);
    assert Connected(v);
    if !TransportCanAct(Wrap(v)) {
      EmptyIn(v);
      EmptyIn(Swap(v));
      Drained(v);
      Drained(Swap(v));
    }
  }

  lemma EmptyIn(v: View)
    requires Connected(v) && !Enabled(Wrap(v), Receive)
    ensures v.inn == []
  {
    hide Stream, Acks;
  }

  lemma Drained(v: View)
    requires Connected(v) && v.out == [] && v.inn == [] && v.me.appClosed
    requires !Enabled(v, Push(1)) && !Enabled(v, Close)
    ensures v.me.closeTaken
  {
  }

  // And it can act only so often: each event leaves fewer possible.
  lemma ProgressIsBounded(run: seq<Event>, e: Event)
    requires Possible(Bits32, run + [e]) && Progress(e.action)
    requires var v := Reached(Bits32, run); v.me.appClosed && v.peer.appClosed
    ensures 0 <= Remaining(Reached(Bits32, run + [e])) < Remaining(Reached(Bits32, run))
  {
    assert (run + [e])[..|run|] == run;
    hide Possible, Reached;
    WrapRun(run + [e]);
    WrapRun(run);
    OneMore(run, e);
    var v := Reached(Exact, run);
    var t := Reached(Exact, run + [e]);
    assert Connected(v);
    RemainingWrapped(v);
    RemainingWrapped(t);
    RemainingSwaps(v);
    StillConnected(v, e);
    if e.byActive {
      ProgressCounts(v, e.action);
    } else {
      ProgressCounts(Swap(v), e.action);
      RemainingSwaps(Step(Exact, Swap(v), e.action));
    }
  }

  lemma OneMore(run: seq<Event>, e: Event)
    requires Possible(Exact, run + [e])
    ensures Possible(Exact, run) && Can(Reached(Exact, run), e)
    ensures Reached(Exact, run + [e]) == Do(Exact, Reached(Exact, run), e)
  {
    assert (run + [e])[..|run|] == run;
  }

  lemma StillConnected(v: View, e: Event)
    requires Connected(v) && Can(v, e)
    ensures Remaining(Do(Exact, v, e)) >= 0
  {
    hide Stream, Acks, Step;
    if e.byActive {
      ConnectedStep(v, e.action);
    } else {
      ConnectedStep(Swap(v), e.action);
    }
  }

  lemma RemainingSwaps(v: View)
    ensures Remaining(Swap(v)) == Remaining(v)
  {
  }

  lemma RemainingWrapped(v: View)
    ensures Remaining(Wrap(v)) == Remaining(v)
  {
    WeightWrapped(v.out);
    WeightWrapped(v.inn);
  }
}
