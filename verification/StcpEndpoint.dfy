// One pass of the control loop, in the simulator's own form, and how it is made of
// the steps of the system.
module StcpEndpoint {
  import opened Stcp
  import opened StcpSystem

  datatype Option<+T> = None | Some(value: T)

  // The events of one wait: data the application has queued, cut to the window and
  // the segment size; a segment from the network; the close request.
  datatype Events = Events(app: Option<seq<Byte>>, network: Option<Segment>, close: bool)

  function Then(r: Reaction, s: Reaction): Reaction {
    Reaction(s.ctx, r.sent + s.sent, r.delivered + s.delivered, r.eof || s.eof)
  }

  // Leaving the loop from LAST_ACK skips the rest of the pass.
  predicate LeavesLoop(c: Context, d: Context) { c.state == LastAck && d.state == Closed }

  function Pass(w: Width, c: Context, ev: Events): Reaction
    requires ev.app.Some? ==> |ev.app.value| <= c.window
  {
    var r1 := if ev.app.Some? && c.window > 0 then OnData(w, c, ev.app.value) else Silent(c);
    var r2 := if ev.network.Some? then Then(r1, OnSegment(w, r1.ctx, ev.network.value)) else r1;
    if ev.close && !LeavesLoop(r1.ctx, r2.ctx) then Then(r2, OnClose(w, r2.ctx)) else r2
  }

  class Transport {
    var done: bool
    var state: CState
    var sendSeq: nat
    var recvSeq: nat
    var sendAck: nat
    var recvAck: nat
    var window: nat

    function View(): Context
      reads this
    {
      Context(state, sendSeq, recvSeq, sendAck, recvAck, window, done)
    }

    constructor ()
      ensures View() == START
    {
      state, sendSeq, recvSeq, sendAck, recvAck, window, done := Listen, 1, 0, 0, 0, WINDOW, false;
    }

    // transport_init, cut at the two points where it waits for a segment.

    method ActiveOpen() returns (syn: Segment)
      modifies this
      ensures Reaction(View(), [syn], [], false) == OpenActive(old(View()))
    {
      syn := Segment(true, false, false, sendSeq, 0, []);
      state := SynSent;
    }

    method ActiveSynAck(packet: Segment) returns (ack: Segment)
      modifies this
      ensures Reaction(View(), [ack], [], false) == OnSynAck(Bits32, old(View()), packet)
    {
      sendSeq := (sendSeq + 1) % TWO_32;
      sendAck := packet.ackNo;
      recvSeq := packet.seqNo;
      state := Established;
      ack := AckSegment(sendSeq, (recvSeq + 1) % TWO_32, []);
      recvAck := ack.ackNo;
    }

    method PassiveSyn(packet: Segment) returns (sent: seq<Segment>)
      modifies this
      ensures Reaction(View(), sent, [], false) == OnSyn(Bits32, old(View()), packet)
    {
      state := SynRcvd;
      recvSeq := packet.seqNo;
      if !packet.syn || packet.ack || packet.fin {
        done := true;
        return [];
      }
      var synAck := Segment(true, false, true, sendSeq, (recvSeq + 1) % TWO_32, []);
      sendSeq := (sendSeq + 1) % TWO_32;
      recvAck := synAck.ackNo;
      sent := [synAck];
    }

    method PassiveAck(packet: Segment)
      modifies this
      ensures Silent(View()) == OnHandshakeAck(old(View()), packet)
    {
      sendAck := packet.ackNo;
      state := Established;
    }

    // control_loop

    method SendData(data: seq<Byte>) returns (sent: Segment)
      requires |data| <= window
      modifies this
      ensures Reaction(View(), [sent], [], false) == OnData(Bits32, old(View()), data)
    {
      sent := AckSegment(sendSeq, recvAck, data);
      sendSeq := (sendSeq + |data|) % TWO_32;
      window := window - |data|;
    }

    // A segment whose only flag is ACK.
    method ReceiveAck(packet: Segment) returns (sent: seq<Segment>)
      modifies this
      ensures Reaction(View(), sent, packet.payload, false) == OnAck(Bits32, old(View()), packet)
    {
      hide Opened;
      sent := [];
      if |packet.payload| > 0 {
        sent := [AckSegment(sendSeq, (packet.seqNo + |packet.payload|) % TWO_32, [])];
      }
      recvAck := (recvAck + |packet.payload|) % TWO_32;
      OpenWindow(packet.ackNo);
      sendAck := packet.ackNo;
      AdvanceState(packet.ackNo);
    }

    method OpenWindow(newAck: nat)
      modifies this`window
      ensures window == Opened(Bits32, old(window), newAck, sendAck)
    {
      window := (window + (newAck - sendAck) % TWO_32) % TWO_16;
      window := if window > WINDOW then WINDOW else window;
    }

    method AdvanceState(newAck: nat)
      modifies this`state, this`done
      ensures state == StateOnAck(old(View()), newAck)
      ensures done == (old(done) || (state == Closed && old(state) != Closed))
    {
      if state == LastAck && newAck == sendSeq {
        done, state := true, Closed;
        return;
      }
      if state == FinWait1 && sendSeq == newAck {
        state := FinWait2;
      }
      if state == Closing && sendSeq == newAck {
        state, done := Closed, true;
      }
    }

    method ReceiveFin(packet: Segment) returns (sent: Segment)
      modifies this
      ensures Reaction(View(), [sent], [], true) == OnFin(Bits32, old(View()), packet)
    {
      if state == Established {
        state := CloseWait;
      }
      if state == FinWait1 {
        if sendSeq == packet.ackNo && packet.ack {
          state, done := Closed, true;
        } else {
          state := Closing;
        }
      }
      if state == FinWait2 {
        state, done := Closed, true;
      }
      sent := AckSegment(sendSeq, (packet.seqNo + 1) % TWO_32, []);
      recvAck := (recvAck + 1) % TWO_32;
    }

    method CloseRequested() returns (sent: Segment)
      modifies this
      ensures Reaction(View(), [sent], [], false) == OnClose(Bits32, old(View()))
    {
      if state == Established {
        state := FinWait1;
      }
      if state == CloseWait {
        state := LastAck;
      }
      sent := FinSegment(sendSeq, recvAck);
      sendSeq := (sendSeq + 1) % TWO_32;
    }

    // The body of control_loop for one set of events.
    method LoopBody(ev: Events) returns (sent: seq<Segment>, delivered: seq<Byte>, finReceived: bool)
      requires ev.app.Some? ==> |ev.app.value| <= window
      modifies this
      ensures Reaction(View(), sent, delivered, finReceived) == Pass(Bits32, old(View()), ev)
    {
      hide OnData, OnAck, OnFin, OnClose;
      sent, delivered, finReceived := [], [], false;
      ghost var c := View();
      if ev.app.Some? && window > 0 {
        var s := SendData(ev.app.value);
        sent := [s];
      }
      ghost var r1 := if ev.app.Some? && c.window > 0 then OnData(Bits32, c, ev.app.value) else Silent(c);
      assert Reaction(View(), sent, [], false) == r1;
      if ev.network.Some? {
        var leaves;
        sent, delivered, finReceived, leaves := HandlePacket(ev.network.value, sent);
        if leaves {
          return;
        }
      }
      if ev.close {
        var s := CloseRequested();
        sent := sent + [s];
      }
    }

    // The NETWORK_DATA part; the flag says that it ends the pass.
    method HandlePacket(packet: Segment, sentBefore: seq<Segment>)
      returns (sent: seq<Segment>, delivered: seq<Byte>, finReceived: bool, leaves: bool)
      modifies this
      ensures Reaction(View(), sent, delivered, finReceived)
        == Then(Reaction(old(View()), sentBefore, [], false), OnSegment(Bits32, old(View()), packet))
      ensures leaves == LeavesLoop(old(View()), View())
    {
      sent, delivered, finReceived, leaves := sentBefore, [], false, false;
      var wasLastAck := state == LastAck;
      if packet.ack && !packet.syn && !packet.fin {
        var reply := ReceiveAck(packet);
        sent, delivered := sent + reply, packet.payload;
        leaves := wasLastAck && state == Closed;
      } else if packet.fin {
        var reply := ReceiveFin(packet);
        sent, finReceived := sent + [reply], true;
      }
      assert [] + packet.payload == packet.payload;
    }
  }

  // ---- A pass is the steps Push, Receive and Close, one after the other

  function EventsOf(v: View, n: nat, network: bool, close: bool): Events
    requires v.me.taken + n <= |v.me.written| && (network ==> v.inn != [])
  {
    Events(if n > 0 then Some(v.me.written[v.me.taken..v.me.taken + n]) else None,
           if network then Some(v.inn[0]) else None, close)
  }

  function Consumed(v: View, n: nat, network: bool, close: bool): View
    requires network ==> v.inn != []
  {
    v.(me := v.me.(taken := v.me.taken + n, closeTaken := v.me.closeTaken || close),
       inn := if network then v.inn[1..] else v.inn)
  }

  // The events were there when the pass began, and each is still possible when its
  // turn comes. Data and the close request exclude each other.
  lemma PassIsSteps(w: Width, v: View, n: nat, network: bool, close: bool)
    requires Running(v.me) && v.me.taken + n <= |v.me.written|
    requires n > 0 ==> Enabled(v, Push(n))
    requires network ==> Enabled(v, Receive)
    requires close ==> Enabled(v, Close) && n == 0 && (v.me.ctx.state == Established || v.me.ctx.state == CloseWait)
    ensures var v1 := if n > 0 then Step(w, v, Push(n)) else v;
      && (network ==> Enabled(v1, Receive))
      && var v2 := if network then Step(w, v1, Receive) else v1;
         && (close ==> Enabled(v2, Close))
         && var v3 := if close then Step(w, v2, Close) else v2;
            v3 == Apply(Consumed(v, n, network, close), Pass(w, v.me.ctx, EventsOf(v, n, network, close)))
  {
    AfterPush(w, v, n);
    hide OnData, OnClose, OnSegment, Apply, Consumed, Then, Step;
    var ev := EventsOf(v, n, network, close);
    var v1 := if n > 0 then Step(w, v, Push(n)) else v;
    var r1 := if n > 0 then OnData(w, v.me.ctx, ev.app.value) else Silent(v.me.ctx);
    var r2 := if network then Then(r1, OnSegment(w, r1.ctx, v.inn[0])) else r1;
    if network {
      AfterReceive(w, v, v1, r1, n);
    }
    var v2 := if network then Step(w, v1, Receive) else v1;
    assert v2 == Apply(Consumed(v, n, network, false), r2);
    if close {
      AfterClose(w, v, v2, r2, network);
    }
  }

  lemma AfterClose(w: Width, v: View, v2: View, r2: Reaction, network: bool)
    requires Enabled(v, Close) && (v.me.ctx.state == Established || v.me.ctx.state == CloseWait)
    requires network ==> v.inn != []
    requires r2 == if network then Then(Silent(v.me.ctx), OnSegment(w, v.me.ctx, v.inn[0])) else Silent(v.me.ctx)
    requires v2 == Apply(Consumed(v, 0, network, false), r2)
    ensures !LeavesLoop(v.me.ctx, r2.ctx) && Enabled(v2, Close)
    ensures Step(w, v2, Close) == Apply(Consumed(v, 0, network, true), Then(r2, OnClose(w, r2.ctx)))
  {
    hide Opened;
    var r3 := OnClose(w, r2.ctx);
    assert v.out + r2.sent + r3.sent == v.out + (r2.sent + r3.sent);
    assert v.me.delivered + r2.delivered + r3.delivered == v.me.delivered + (r2.delivered + r3.delivered);
  }

  lemma AfterPush(w: Width, v: View, n: nat)
    requires Running(v.me) && v.me.taken + n <= |v.me.written| && (n > 0 ==> Enabled(v, Push(n)))
    ensures var v1 := if n > 0 then Step(w, v, Push(n)) else v;
      var r1 := if n > 0 then OnData(w, v.me.ctx, v.me.written[v.me.taken..v.me.taken + n]) else Silent(v.me.ctx);
      v1 == Apply(Consumed(v, n, false, false), r1) && Running(v1.me)
  {
    assert v.out + [] == v.out && v.me.delivered + [] == v.me.delivered;
  }

  lemma AfterReceive(w: Width, v: View, v1: View, r1: Reaction, n: nat)
    requires v.inn != [] && v1 == Apply(Consumed(v, n, false, false), r1) && Running(v1.me)
    requires v1.me.ctx.state != Listen
    ensures Enabled(v1, Receive)
    ensures Step(w, v1, Receive) == Apply(Consumed(v, n, true, false), Then(r1, OnSegment(w, r1.ctx, v.inn[0])))
  {
    hide OnSegment;
    var r2 := OnSegment(w, r1.ctx, v.inn[0]);
    assert v.out + r1.sent + r2.sent == v.out + (r1.sent + r2.sent);
    assert v.me.delivered + r1.delivered + r2.delivered == v.me.delivered + (r1.delivered + r2.delivered);
  }
}
