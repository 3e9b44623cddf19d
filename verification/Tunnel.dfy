/**
 One TCP connection of the tunnel (src/tunnel.c:60-85, 745-805, 914-1068): an output
 buffer, a window of 16 unacknowledged DATA frames, and credit returned in batches of 4.
 Class TTTunnelConn updates it in place; the functions say what it does. The transport's
 answers and the socket's reads are scripts: what happens next may be anything.
 */
module Tunnel {
  import opened ByteStrings

  const WINDOW := 16
  const ACK_BATCH := 4
  const PEND_MAX := 131072

  // conn_read_max: what one frame of the active channel can carry
  function ReadMax(e2ee: bool): nat { if e2ee then 1312 else 1367 }

  // ----- the surroundings -------------------------------------------------------------------

  datatype Answer = SendOk | SendQ | SendFatal

  datatype Packet = DataPacket(payload: seq<Byte>) | AckPacket(credit: seq<Byte>) | FinPacket

  // What tt_recv returns: bytes, end of file, nothing right now, or an error.
  datatype Read = Bytes(bytes: seq<Byte>) | Eof | Again | Broken

  // The packets handed to the transport, and its answers to the next ones. When the
  // script is used up the send queue is full.
  datatype WireState = WireState(answers: seq<Answer>, sent: seq<Packet>)

  // The reads to come, and all bytes read so far.
  datatype SocketState = SocketState(incoming: seq<Read>, taken: seq<Byte>)

  function SendOn(w: WireState, p: Packet): (WireState, Answer) {
    if w.answers == [] then (w, SendQ) else
      var rc := w.answers[0];
      (WireState(w.answers[1..], if rc == SendOk then w.sent + [p] else w.sent), rc)
  }

  function ReadFrom(s: SocketState, max: nat): (SocketState, Read) {
    if s.incoming == [] then (s, Again) else
      match s.incoming[0]
      case Bytes(b) =>
        // a stream hands out at most max bytes and keeps the rest; no bytes is end of file
        if b == [] then (s, Eof)
        else if |b| <= max then (SocketState(s.incoming[1..], s.taken + b), Bytes(b))
        else (SocketState([Bytes(b[max..])] + s.incoming[1..], s.taken + b[..max]), Bytes(b[..max]))
      case r => (s, r)
  }

  class Wire {
    var answers: seq<Answer>
    var sent: seq<Packet>

    ghost function View(): WireState reads this { WireState(answers, sent) }

    method Send(p: Packet) returns (rc: Answer)
      modifies this
      ensures (View(), rc) == SendOn(old(View()), p)
    {
      if |answers| == 0 { return SendQ; }
      rc := answers[0];
      answers := answers[1..];
      if rc == SendOk { sent := sent + [p]; }
    }
  }

  class Socket {
    var incoming: seq<Read>
    var taken: seq<Byte>

    ghost function View(): SocketState reads this { SocketState(incoming, taken) }

    method Recv(max: nat) returns (r: Read)
      modifies this
      ensures (View(), r) == ReadFrom(old(View()), max)
    {
      if |incoming| == 0 { return Again; }
      match incoming[0]
      case Bytes(b) =>
        if |b| == 0 { return Eof; }
        if |b| <= max {
          incoming, taken, r := incoming[1..], taken + b, Bytes(b);
        } else {
          incoming, taken, r := [Bytes(b[max..])] + incoming[1..], taken + b[..max], Bytes(b[..max]);
        }
      case other => r := other;
    }
  }

  // ----- the specification --------------------------------------------------------------------

  datatype Conn = Conn(used: bool, open: bool, peerGone: bool, unacked: nat, ackDue: nat, buf: seq<Byte>)

  const FreeConn := Conn(false, false, false, 0, 0, [])

  datatype Flushed = Emptied | Congested | FlushFailed

  // conn_flush_out
  function Flush(c: Conn, w: WireState, max: nat): (Conn, WireState, Flushed)
    requires max > 0
    decreases |c.buf|
  {
    if c.buf == [] then (c, w, Emptied)
    else if c.unacked >= WINDOW then (c, w, Congested)
    else
      var chunk := if |c.buf| < max then |c.buf| else max;
      var (w', rc) := SendOn(w, DataPacket(c.buf[..chunk]));
      match rc
      case SendQ => (c, w', Congested)
      case SendFatal => (c, w', FlushFailed)
      case SendOk => Flush(c.(unacked := c.unacked + 1, buf := c.buf[chunk..]), w', max)
  }

  datatype Drained = Alive | AtEof | Dropped

  // conn_drain_out; Alive is its result true
  function Drain(c: Conn, w: WireState, s: SocketState, max: nat): (Conn, WireState, SocketState, Drained)
    requires max > 0
  {
    var (c', w', fr) := Flush(c, w, max);
    if fr == FlushFailed then (c', w', s, Dropped)
    else if fr == Congested then (c', w', s, Alive)
    else ReadLoop(c', w', s, max)
  }

  function Left(incoming: seq<Read>): nat {
    if incoming == [] then 0 else (if incoming[0].Bytes? then |incoming[0].bytes| else 0) + Left(incoming[1..])
  }

  function ReadLoop(c: Conn, w: WireState, s: SocketState, max: nat): (Conn, WireState, SocketState, Drained)
    requires max > 0
    decreases Left(s.incoming)
  {
    var (s', r) := ReadFrom(s, max);
    match r
    case Bytes(b) =>
      if |c.buf| + |b| > PEND_MAX then (c, w, s', Dropped) else
        var (c', w', fr) := Flush(c.(buf := c.buf + b), w, max);
        if fr == FlushFailed then (c', w', s', Dropped)
        else if fr == Congested then (c', w', s', Alive)
        else ReadLoop(c', w', s', max)
    case Eof => (c, w, s', AtEof)
    case Again => (c, w, s', Alive)
    case Broken => (c, w, s', Dropped)
  }

  // Credit travels as two bytes, the high one first; a shorter payload counts as one frame.
  function CreditBytes(n: nat): seq<Byte> { [(n / 0x100 % 0x100) as Byte, (n % 0x100) as Byte] }

  function CreditOf(payload: seq<Byte>): nat {
    if |payload| >= 2 then 0x100 * payload[0] as int + payload[1] as int else 1
  }

  lemma CreditRoundTrip(n: nat)
    requires n < 0x1_0000
    ensures CreditOf(CreditBytes(n)) == n
  {
  }

  // conn_return_credit
  function ReturnCredit(c: Conn, w: WireState): (Conn, WireState) {
    var due := c.ackDue + 1;
    if due >= ACK_BATCH || due >= WINDOW then (c.(ackDue := 0), SendOn(w, AckPacket(CreditBytes(due))).0)
    else (c.(ackDue := due), w)
  }

  // conn_take_credit
  function TakeCredit(c: Conn, payload: seq<Byte>): Conn {
    var n := CreditOf(payload);
    var unacked := if n >= c.unacked then 0 else c.unacked - n;
    if c.peerGone && unacked == 0 then FreeConn else c.(unacked := unacked)
  }

  // conn_mark_peer_gone
  function MarkPeerGone(c: Conn): Conn {
    if c.unacked == 0 then FreeConn else c.(peerGone := true, open := false)
  }

  // ----- the struct ---------------------------------------------------------------------------

  class TTTunnelConn {
    var used: bool
    var open: bool
    var peerGone: bool
    var unacked: nat
    var ackDue: nat
    var outbuf: array<Byte>
    var outLen: nat

    ghost predicate Valid()
      reads this
    {
      outLen <= outbuf.Length
    }

    ghost function View(): Conn
      requires Valid()
      reads this, outbuf
    {
      Conn(used, open, peerGone, unacked, ackDue, outbuf[..outLen])
    }

    // conn_alloc, with the socket that was just opened for it
    constructor ()
      ensures Valid() && fresh(outbuf) && View() == Conn(true, true, false, 0, 0, [])
    {
      used, open, peerGone, unacked, ackDue, outLen := true, true, false, 0, 0, 0;
      outbuf := new Byte[0];
    }

    // conn_free
    method Free()
      modifies this
      ensures Valid() && fresh(outbuf) && View() == FreeConn
    {
      used, open, peerGone, unacked, ackDue, outLen := false, false, false, 0, 0, 0;
      outbuf := new Byte[0];
    }

    // Grow the buffer to hold n bytes, doubling its capacity.
    method Reserve(n: nat)
      requires Valid()
      modifies this`outbuf
      ensures Valid() && n <= outbuf.Length && View() == old(View())
      ensures outbuf == old(outbuf) || fresh(outbuf)
    {
      if n <= outbuf.Length { return; }
      var cap := if outbuf.Length > 0 then outbuf.Length * 2 else 4096;
      while cap < n
        invariant cap >= outbuf.Length && cap > 0
        decreases n - cap
      {
        cap := cap * 2;
      }
      var grown := new Byte[cap](i => 0);
      forall i | 0 <= i < outLen { grown[i] := outbuf[i]; }
      assert grown[..outLen] == outbuf[..outLen];
      outbuf := grown;
    }

    // conn_out_add
    method OutAdd(data: seq<Byte>) returns (ok: bool)
      requires Valid()
      modifies this`outbuf, this`outLen, outbuf
      ensures Valid() && (outbuf == old(outbuf) || fresh(outbuf))
      ensures ok == (|old(View()).buf| + |data| <= PEND_MAX)
      ensures View() == if ok then old(View()).(buf := old(View()).buf + data) else old(View())
    {
      if outLen + |data| > PEND_MAX { return false; }
      Reserve(outLen + |data|);
      ghost var was := outbuf[..outLen];
      forall i | 0 <= i < |data| { outbuf[outLen + i] := data[i]; }
      outLen := outLen + |data|;
      assert outbuf[..outLen] == was + data;
      ok := true;
    }

    // Move the bytes after the first n to the front.
    method DropFront(n: nat)
      requires Valid() && n <= outLen
      modifies this`outLen, outbuf
      ensures Valid() && View() == old(View()).(buf := old(View()).buf[n..])
    {
      ghost var was := outbuf[..outLen];
      forall i | 0 <= i < outLen - n { outbuf[i] := outbuf[n + i]; }
      outLen := outLen - n;
      assert outbuf[..outLen] == was[n..];
    }

    // conn_flush_out
    method FlushOut(wire: Wire, max: nat) returns (fr: Flushed)
      requires Valid() && max > 0
      modifies this`unacked, this`outLen, outbuf, wire
      ensures Valid() && (View(), wire.View(), fr) == Flush(old(View()), old(wire.View()), max)
    {
      ghost var goal := Flush(View(), wire.View(), max);
      while outLen > 0 && unacked < WINDOW
        invariant Valid()
        invariant Flush(View(), wire.View(), max) == goal
        decreases outLen
      {
        var chunk := if outLen < max then outLen else max;
        assert outbuf[..outLen][..chunk] == outbuf[..chunk];
        var rc := wire.Send(DataPacket(outbuf[..chunk]));
        if rc == SendQ { return Congested; }
        if rc != SendOk { return FlushFailed; }
        unacked := unacked + 1;
        DropFront(chunk);
      }
      return if outLen == 0 then Emptied else Congested;
    }

    // conn_drain_out
    method DrainOut(wire: Wire, sock: Socket, max: nat) returns (end: Drained)
      requires Valid() && max > 0
      modifies this, outbuf, wire, sock
      ensures Valid() && (outbuf == old(outbuf) || fresh(outbuf))
      ensures (View(), wire.View(), sock.View(), end) == Drain(old(View()), old(wire.View()), old(sock.View()), max)
    {
      var fr := FlushOut(wire, max);
      if fr == FlushFailed { return Dropped; }
      if fr == Congested { return Alive; }
      ghost var goal := ReadLoop(View(), wire.View(), sock.View(), max);
      while true
        invariant Valid() && (outbuf == old(outbuf) || fresh(outbuf))
        invariant ReadLoop(View(), wire.View(), sock.View(), max) == goal
        decreases Left(sock.incoming)
      {
        var r := sock.Recv(max);
        match r
        case Bytes(b) =>
          var ok := OutAdd(b);
          if !ok { return Dropped; }
          fr := FlushOut(wire, max);
          if fr == FlushFailed { return Dropped; }
          if fr == Congested { return Alive; }
        case Eof => return AtEof;
        case Again => return Alive;
        case Broken => return Dropped;
      }
    }

    // conn_return_credit
    method GiveCredit(wire: Wire)
      requires Valid()
      modifies this`ackDue, wire
      ensures Valid() && (View(), wire.View()) == ReturnCredit(old(View()), old(wire.View()))
    {
      ackDue := ackDue + 1;
      if ackDue >= ACK_BATCH || ackDue >= WINDOW {
        var rc := wire.Send(AckPacket([(ackDue / 0x100 % 0x100) as Byte, (ackDue % 0x100) as Byte]));
        ackDue := 0;
      }
    }

    // conn_take_credit
    method ApplyCredit(payload: seq<Byte>)
      requires Valid()
      modifies this
      ensures Valid() && View() == TakeCredit(old(View()), payload)
    {
      var n := if |payload| >= 2 then 0x100 * payload[0] as int + payload[1] as int else 1;
      if n >= unacked { unacked := 0; } else { unacked := unacked - n; }
      if peerGone && unacked == 0 { Free(); }
    }

    // conn_mark_peer_gone
    method PeerGone()
      requires Valid()
      modifies this
      ensures Valid() && View() == MarkPeerGone(old(View()))
    {
      if unacked == 0 {
        Free();
        return;
      }
      peerGone := true;
      open := false;
    }
  }
}
