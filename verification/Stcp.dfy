// One STCP endpoint: the handshake and the reactions of its control loop.
module Stcp {

  const WINDOW := 3072
  const TWO_16 := 0x1_0000
  const TWO_32 := 0x1_0000_0000

  type Byte = b: nat | b < 0x100

  datatype CState =
    | Established | Listen | SynSent | SynRcvd | FinWait1 | FinWait2 | CloseWait | LastAck | Closing | Closed

  // A segment with its flags; th_win is always WINDOW and never read.
  datatype Segment = Segment(syn: bool, fin: bool, ack: bool, seqNo: nat, ackNo: nat, payload: seq<Byte>)

  // Sequence numbers are 32 bits wide in the transport. `Exact` is the same protocol
  // on numbers that do not wrap.
  datatype Width = Bits32 | Exact {
    function Num(x: int): (r: nat)
      requires Exact? ==> x >= 0
    {
      if Bits32? then x % TWO_32 else x
    }
  }

  datatype Context = Context(
    state: CState, sendSeq: nat, recvSeq: nat, sendAck: nat, recvAck: nat, window: nat, done: bool)

  // What an event makes an endpoint do.
  datatype Reaction = Reaction(ctx: Context, sent: seq<Segment>, delivered: seq<Byte>, eof: bool)

  function Silent(c: Context): Reaction { Reaction(c, [], [], false) }

  function AckSegment(seqNo: nat, ackNo: nat, payload: seq<Byte>): Segment {
    Segment(false, false, true, seqNo, ackNo, payload)
  }

  function FinSegment(seqNo: nat, ackNo: nat): Segment { Segment(false, true, true, seqNo, ackNo, []) }

  // ---- transport_init

  const START := Context(Listen, 1, 0, 0, 0, WINDOW, false)

  function OpenActive(c: Context): Reaction {
    Reaction(c.(state := SynSent), [Segment(true, false, false, c.sendSeq, 0, [])], [], false)
  }

  function OnSynAck(w: Width, c: Context, s: Segment): Reaction {
    var next := w.Num(c.sendSeq + 1);
    var expected := w.Num(s.seqNo + 1);
    Reaction(c.(sendSeq := next, sendAck := s.ackNo, recvSeq := s.seqNo, state := Established, recvAck := expected),
             [AckSegment(next, expected, [])], [], false)
  }

  // Anything but a plain SYN refuses the connection and ends the transport.
  function OnSyn(w: Width, c: Context, s: Segment): Reaction {
    var d := c.(state := SynRcvd, recvSeq := s.seqNo);
    if !s.syn || s.ack || s.fin then Silent(d.(done := true))
    else
      var expected := w.Num(s.seqNo + 1);
      Reaction(d.(sendSeq := w.Num(c.sendSeq + 1), recvAck := expected),
               [Segment(true, false, true, c.sendSeq, expected, [])], [], false)
  }

  function OnHandshakeAck(c: Context, s: Segment): Reaction {
    Silent(c.(sendAck := s.ackNo, state := Established))
  }

  // ---- control_loop

  // Application data, already cut to the window and the segment size.
  function OnData(w: Width, c: Context, data: seq<Byte>): Reaction
    requires |data| <= c.window
  {
    Reaction(c.(sendSeq := w.Num(c.sendSeq + |data|), window := c.window - |data|),
             [AckSegment(c.sendSeq, c.recvAck, data)], [], false)
  }

  function Min(a: nat, b: nat): nat { if a < b then a else b }

  // The window is a 16-bit variable; the sum is truncated before it is capped.
  function Opened(w: Width, window: nat, newAck: nat, oldAck: nat): nat {
    var more := if w.Bits32? then (newAck - oldAck) % TWO_32 else newAck - oldAck;
    Min((window + more) % TWO_16, WINDOW)
  }

  function StateOnAck(c: Context, ackNo: nat): CState {
    if ackNo != c.sendSeq then c.state
    else
      match c.state
      case LastAck => Closed
      case FinWait1 => FinWait2
      case Closing => Closed
      case _ => c.state
  }

  function OnAck(w: Width, c: Context, s: Segment): Reaction {
    var state := StateOnAck(c, s.ackNo);
    Reaction(c.(recvAck := w.Num(c.recvAck + |s.payload|),
                window := Opened(w, c.window, s.ackNo, c.sendAck),
                sendAck := s.ackNo,
                state := state,
                done := c.done || (state == Closed && c.state != Closed)),
             if s.payload == [] then [] else [AckSegment(c.sendSeq, w.Num(s.seqNo + |s.payload|), [])],
             s.payload, false)
  }

  function StateOnFin(c: Context, s: Segment): CState {
    match c.state
    case Established => CloseWait
    case FinWait1 => if c.sendSeq == s.ackNo && s.ack then Closed else Closing
    case FinWait2 => Closed
    case _ => c.state
  }

  function OnFin(w: Width, c: Context, s: Segment): Reaction {
    var state := StateOnFin(c, s);
    Reaction(c.(state := state, done := c.done || (state == Closed && c.state != Closed),
                recvAck := w.Num(c.recvAck + 1)),
             [AckSegment(c.sendSeq, w.Num(s.seqNo + 1), [])], [], true)
  }

  function OnSegment(w: Width, c: Context, s: Segment): Reaction {
    if s.ack && !s.syn && !s.fin then OnAck(w, c, s)
    else if s.fin then OnFin(w, c, s)
    else Silent(c)
  }

  function StateOnClose(state: CState): CState {
    match state
    case Established => FinWait1
    case CloseWait => LastAck
    case _ => state
  }

  function OnClose(w: Width, c: Context): Reaction {
    Reaction(c.(state := StateOnClose(c.state), sendSeq := w.Num(c.sendSeq + 1)),
             [FinSegment(c.sendSeq, c.recvAck)], [], false)
  }
}
