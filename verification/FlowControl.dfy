/**
 A forwarded byte stream end to end (src/tunnel.c:914-1068, 1254-1326): the sender's
 connection, FIFO channels for packets and for credit, and the receiver's connection.
 Over any mix of reads, refusals, deliveries and credits, what was written at the far
 end is a prefix of what was read; credit is conserved; and the window never wedges.
 */
module FlowControl {
  import opened ByteStrings
  import opened Tunnel

  // `status`: how the sender's last drain ended. `taken`: all bytes read from its socket.
  // `flight`: packets on their way to the receiver. `delivered`: all bytes that the
  // receiver wrote to its socket. `credits`: the payloads of the ACKs on their way back.
  datatype Stream = Stream(
    sender: Conn, status: Drained, taken: seq<Byte>,
    flight: seq<Packet>, receiver: Conn, delivered: seq<Byte>, finished: bool, credits: seq<seq<Byte>>)

  datatype Event = Poll(answers: seq<Answer>, incoming: seq<Read>) | PacketArrives | CreditArrives

  // ----- steps --------------------------------------------------------------------------------

  // tunnel_poll_client, tunnel_poll_host: drain; when the drain says so, send FIN and
  // free the connection.
  function PollStep(n: Stream, answers: seq<Answer>, incoming: seq<Read>, max: nat): Stream
    requires max > 0
  {
    if !n.sender.used || !n.sender.open then n else
      var (c, w, s, end) := Drain(n.sender, WireState(answers, []), SocketState(incoming, []), max);
      var fin := if end == Alive then [] else SendOn(WireState(w.answers, []), FinPacket).0.sent;
      n.(sender := if end == Alive then c else FreeConn, status := end,
         taken := n.taken + s.taken, flight := n.flight + w.sent + fin)
  }

  // The receiver takes a packet; its socket accepts every write and its ACKs are not lost.
  function ArriveStep(n: Stream): Stream {
    if n.flight == [] then n else
      var rest := n.(flight := n.flight[1..]);
      match n.flight[0]
      case DataPacket(payload) =>
        if !n.receiver.used || !n.receiver.open then rest else
          var (c, w) := ReturnCredit(n.receiver, WireState([SendOk], []));
          rest.(receiver := c, delivered := n.delivered + payload, credits := n.credits + CreditsOf(w.sent))
      case FinPacket => rest.(receiver := if n.receiver.used then MarkPeerGone(n.receiver) else n.receiver, finished := true)
      case AckPacket(_) => rest
  }

  function CreditsOf(packets: seq<Packet>): seq<seq<Byte>> {
    if packets == [] then []
    else (if packets[0].AckPacket? then [packets[0].credit] else []) + CreditsOf(packets[1..])
  }

  function CreditStep(n: Stream): Stream {
    if n.credits == [] then n else
      n.(sender := if n.sender.used then TakeCredit(n.sender, n.credits[0]) else n.sender, credits := n.credits[1..])
  }

  function Step(n: Stream, e: Event, max: nat): Stream
    requires max > 0
  {
    match e
    case Poll(answers, incoming) => PollStep(n, answers, incoming, max)
    case PacketArrives => ArriveStep(n)
    case CreditArrives => CreditStep(n)
  }

  function Run(n: Stream, events: seq<Event>, max: nat): Stream
    requires max > 0
  {
    if events == [] then n else Step(Run(n, events[..|events| - 1], max), events[|events| - 1], max)
  }

  // Two connections just opened. `back`: what the receiver itself has unacknowledged in
  // the other direction.
  function Opened(back: nat): Stream {
    var c := Conn(true, true, false, 0, 0, []);
    Stream(c, Alive, [], [], c.(unacked := back), [], false, [])
  }

  // ----- what packets carry -------------------------------------------------------------------

  function Payload(packets: seq<Packet>): seq<Byte> {
    if packets == [] then [] else
      Payload(packets[..|packets| - 1])
      + (if packets[|packets| - 1].DataPacket? then packets[|packets| - 1].payload else [])
  }

  ghost predicate AllData(packets: seq<Packet>) {
    forall i | 0 <= i < |packets| :: packets[i].DataPacket?
  }

  function Sum(credits: seq<seq<Byte>>): nat {
    if credits == [] then 0 else Sum(credits[..|credits| - 1]) + CreditOf(credits[|credits| - 1])
  }

  lemma {:induction false} PayloadConcat(p: seq<Packet>, q: seq<Packet>)
    ensures Payload(p + q) == Payload(p) + Payload(q)
    decreases |q|
  {
    if q == [] {
      assert p + q == p;
    } else {
      assert (p + q)[..|p + q| - 1] == p + q[..|q| - 1];
      PayloadConcat(p, q[..|q| - 1]);
    }
  }

  lemma PayloadFirst(p: seq<Packet>)
    requires p != []
    ensures Payload(p) == (if p[0].DataPacket? then p[0].payload else []) + Payload(p[1..])
  {
    assert p == [p[0]] + p[1..];
    PayloadConcat([p[0]], p[1..]);
    assert Payload([]) == [] && [p[0]][..0] == [];
  }

  lemma {:induction false} SumFirst(s: seq<seq<Byte>>)
    requires s != []
    ensures Sum(s) == CreditOf(s[0]) + Sum(s[1..])
    decreases |s|
  {
    if |s| > 1 {
      assert s[..|s| - 1][1..] == s[1..][..|s| - 2];
      SumFirst(s[..|s| - 1]);
    }
  }

  // ----- draining -----------------------------------------------------------------------------

  function Total(c: Conn, w: WireState): seq<Byte> { Payload(w.sent) + c.buf }

  // What a flush or a drain keeps: bytes are neither lost nor reordered, every frame sent
  // is counted, and nothing else of the connection changes.
  ghost predicate Keeps(c: Conn, w: WireState, c': Conn, w': WireState, extra: seq<Byte>) {
    && AllData(w'.sent)
    && Total(c', w') == Total(c, w) + extra
    && c'.unacked - c.unacked == |w'.sent| - |w.sent|
    && c'.unacked <= WINDOW
    && c' == c.(unacked := c'.unacked, buf := c'.buf)
  }

  lemma {:induction false} FlushKeeps(c: Conn, w: WireState, max: nat)
    requires max > 0 && AllData(w.sent) && c.unacked <= WINDOW
    ensures var (c', w', fr) := Flush(c, w, max);
            && Keeps(c, w, c', w', [])
            && |c'.buf| <= |c.buf|
            && (fr == Emptied <==> c'.buf == [])
    decreases |c.buf|
  {
    hide Keeps, AllData, Payload;
    KeepsNothing(c, w);
    if c.buf != [] && c.unacked < WINDOW {
      var chunk := if |c.buf| < max then |c.buf| else max;
      var (w1, rc) := SendOn(w, DataPacket(c.buf[..chunk]));
      if rc == SendOk {
        var c1 := c.(unacked := c.unacked + 1, buf := c.buf[chunk..]);
        SentKeeps(c, w, c1, w1, chunk);
        FlushKeeps(c1, w1, max);
        var (c2, w2, fr) := Flush(c1, w1, max);
        KeepsThen(c, w, c1, w1, [], c2, w2, []);
      } else {
        KeepsUnsent(c, w, w1);
      }
    }
  }

  lemma SentKeeps(c: Conn, w: WireState, c1: Conn, w1: WireState, chunk: nat)
    requires AllData(w.sent) && chunk <= |c.buf| && c.unacked < WINDOW
    requires w1.sent == w.sent + [DataPacket(c.buf[..chunk])]
    requires c1 == c.(unacked := c.unacked + 1, buf := c.buf[chunk..])
    ensures Keeps(c, w, c1, w1, []) && AllData(w1.sent)
  {
    hide Payload;
    SentPayload(w.sent, DataPacket(c.buf[..chunk]));
    assert c.buf == c.buf[..chunk] + c.buf[chunk..];
    Assoc(Payload(w.sent), c.buf[..chunk], c.buf[chunk..]);
  }

  lemma KeepsUnsent(c: Conn, w: WireState, w1: WireState)
    requires Keeps(c, w, c, w, []) && w1.sent == w.sent
    ensures Keeps(c, w, c, w1, [])
  {
  }

  lemma SentPayload(sent: seq<Packet>, p: Packet)
    requires p.DataPacket?
    ensures Payload(sent + [p]) == Payload(sent) + p.payload
  {
    assert (sent + [p])[..|sent|] == sent;
  }

  lemma {:induction false} ReadLoopKeeps(c: Conn, w: WireState, s: SocketState, max: nat)
    requires 0 < max <= PEND_MAX && AllData(w.sent) && c.unacked <= WINDOW && c.buf == []
    ensures var (c', w', s', end) := ReadLoop(c, w, s, max);
            && s.taken <= s'.taken
            && Keeps(c, w, c', w', s'.taken[|s.taken|..])
            && |c'.buf| <= max
            && (end == AtEof ==> c'.buf == [])
    decreases Left(s.incoming)
  {
    hide Keeps, AllData, Left, Payload, ReadFrom, Flush;
    NoBytesRead(s, max);
    var (s1, r) := ReadFrom(s, max);
    KeepsNothing(c, w);
    assert s.taken[|s.taken|..] == [];
    if r.Bytes? {
      var full := c.(buf := c.buf + r.bytes);
      FlushKeeps(full, w, max);
      var (c1, w1, fr) := Flush(full, w, max);
      KeepsMeans(full, w, c1, w1, []);
      ReadTakes(s, max);
      KeepsRead(c, w, c1, w1, r.bytes);
      if fr == Emptied {
        LeftShrinks(s, max);
        ReadLoopKeeps(c1, w1, s1, max);
        var (c2, w2, s2, end) := ReadLoop(c1, w1, s1, max);
        KeepsThen(c, w, c1, w1, r.bytes, c2, w2, s2.taken[|s1.taken|..]);
        TakenSplits(s.taken, s1.taken, s2.taken);
      }
    }
  }

  lemma ReadTakes(s: SocketState, max: nat)
    requires ReadFrom(s, max).1.Bytes?
    ensures var (s1, r) := ReadFrom(s, max);
            s.taken <= s1.taken && s1.taken[|s.taken|..] == r.bytes && |r.bytes| <= max
  {
  }

  lemma NoBytesRead(s: SocketState, max: nat)
    ensures !ReadFrom(s, max).1.Bytes? ==> ReadFrom(s, max).0 == s
  {
  }

  lemma TakenSplits(a: seq<Byte>, b: seq<Byte>, c: seq<Byte>)
    requires a <= b <= c
    ensures c[|a|..] == b[|a|..] + c[|b|..]
  {
  }

  lemma LeftShrinks(s: SocketState, max: nat)
    requires max > 0 && ReadFrom(s, max).1.Bytes?
    ensures Left(ReadFrom(s, max).0.incoming) < Left(s.incoming)
  {
  }

  lemma KeepsNothing(c: Conn, w: WireState)
    requires AllData(w.sent) && c.unacked <= WINDOW
    ensures Keeps(c, w, c, w, [])
  {
  }

  lemma KeepsMeans(c: Conn, w: WireState, c': Conn, w': WireState, extra: seq<Byte>)
    requires Keeps(c, w, c', w', extra)
    ensures AllData(w'.sent) && c'.unacked <= WINDOW
  {
  }

  lemma KeepsRead(c: Conn, w: WireState, c1: Conn, w1: WireState, extra: seq<Byte>)
    requires Keeps(c.(buf := c.buf + extra), w, c1, w1, [])
    ensures Keeps(c, w, c1, w1, extra)
  {
    hide Payload, AllData;
    Assoc(Payload(w.sent), c.buf, extra);
    assert Payload(w.sent) + (c.buf + extra) + [] == Payload(w.sent) + (c.buf + extra);
  }

  lemma KeepsThen(c: Conn, w: WireState, c1: Conn, w1: WireState, e1: seq<Byte>, c2: Conn, w2: WireState, e2: seq<Byte>)
    requires Keeps(c, w, c1, w1, e1) && Keeps(c1, w1, c2, w2, e2)
    ensures Keeps(c, w, c2, w2, e1 + e2)
    ensures e1 == [] ==> Keeps(c, w, c2, w2, e2)
  {
    hide Total, AllData;
    Assoc(Total(c, w), e1, e2);
    assert e1 == [] ==> e1 + e2 == e2;
  }

  lemma DrainKeeps(c: Conn, answers: seq<Answer>, incoming: seq<Read>, max: nat)
    requires 0 < max <= PEND_MAX && c.unacked <= WINDOW && |c.buf| <= max
    ensures var (c', w', s', end) := Drain(c, WireState(answers, []), SocketState(incoming, []), max);
            && Keeps(c, WireState(answers, []), c', w', s'.taken)
            && |c'.buf| <= max
            && (end == AtEof ==> c'.buf == [])
  {
    hide Keeps, AllData, Flush, ReadLoop;
    var w, s := WireState(answers, []), SocketState(incoming, []);
    assert AllData(w.sent) by { NoPackets(); }
    FlushKeeps(c, w, max);
    var (c1, w1, fr) := Flush(c, w, max);
    KeepsMeans(c, w, c1, w1, []);
    if fr == Emptied {
      ReadLoopKeeps(c1, w1, s, max);
      var (c2, w2, s2, end) := ReadLoop(c1, w1, s, max);
      assert s2.taken[|s.taken|..] == s2.taken;
      KeepsThen(c, w, c1, w1, [], c2, w2, s2.taken);
      KeepsMeans(c, w, c2, w2, s2.taken);
    }
  }

  lemma NoPackets()
    ensures AllData([]) && Payload([]) == []
  {
  }

  // ----- the invariant ------------------------------------------------------------------------

  // All bytes are accounted for, and in order.
  ghost predicate Ordered(n: Stream) {
    match n.status
    case Alive => n.delivered + Payload(n.flight) + n.sender.buf == n.taken
    case AtEof => n.delivered + Payload(n.flight) == n.taken
    case Dropped => n.delivered + Payload(n.flight) <= n.taken
  }

  // A FIN follows all data.
  ghost predicate FinLast(n: Stream) {
    && (forall i | 0 <= i < |n.flight| :: n.flight[i].DataPacket? || (n.flight[i].FinPacket? && i == |n.flight| - 1))
    && (n.status == Alive ==> AllData(n.flight) && !n.finished)
    && (n.finished ==> n.flight == [])
    && (!n.finished ==> n.receiver.used && n.receiver.open)
  }

  ghost predicate Credited(n: Stream) {
    && n.receiver.ackDue < ACK_BATCH
    && (n.status == Alive ==>
          && n.sender.used && n.sender.open && !n.sender.peerGone
          && n.sender.unacked == |n.flight| + n.receiver.ackDue + Sum(n.credits)
          && n.sender.unacked <= WINDOW)
    && (n.status != Alive ==> n.sender == FreeConn)
  }

  ghost predicate Inv(n: Stream, max: nat) {
    Ordered(n) && FinLast(n) && Credited(n) && |n.sender.buf| <= max
  }

  lemma PollKeeps(n: Stream, answers: seq<Answer>, incoming: seq<Read>, max: nat)
    requires 0 < max <= PEND_MAX && Inv(n, max)
    ensures Inv(PollStep(n, answers, incoming, max), max)
  {
    if n.sender.used && n.sender.open {
      hide Drain, Keeps, Ordered, FinLast, Credited;
      assert n.status == Alive && n.sender.unacked <= WINDOW by { SenderAlive(n); }
      DrainKeeps(n.sender, answers, incoming, max);
      var (c, w, s, end) := Drain(n.sender, WireState(answers, []), SocketState(incoming, []), max);
      var fin := if end == Alive then [] else SendOn(WireState(w.answers, []), FinPacket).0.sent;
      PollOrdered(n, WireState(answers, []), c, w, s.taken, end, fin, PollStep(n, answers, incoming, max));
    }
  }

  lemma SenderAlive(n: Stream)
    requires Credited(n) && n.sender.used
    ensures n.status == Alive && n.sender.unacked <= WINDOW
  {
  }

  lemma PollOrdered(n: Stream, w0: WireState, c: Conn, w: WireState, read: seq<Byte>, end: Drained, fin: seq<Packet>, m: Stream)
    requires Ordered(n) && FinLast(n) && Credited(n) && n.status == Alive
    requires w0.sent == [] && Keeps(n.sender, w0, c, w, read)
    requires end == AtEof ==> c.buf == []
    requires if end == Alive then fin == [] else fin == [] || fin == [FinPacket]
    requires m == n.(sender := if end == Alive then c else FreeConn, status := end,
                     taken := n.taken + read, flight := n.flight + w.sent + fin)
    ensures Ordered(m) && FinLast(m) && Credited(m)
  {
    PollBytes(n, w0, c, w, read, fin);
    hide Payload;
    if end == Alive { assert m.flight == n.flight + w.sent; }
  }

  // What is delivered, in flight or buffered after the poll is all that was read.
  lemma PollBytes(n: Stream, w0: WireState, c: Conn, w: WireState, read: seq<Byte>, fin: seq<Packet>)
    requires w0.sent == [] && Keeps(n.sender, w0, c, w, read)
    requires n.delivered + Payload(n.flight) + n.sender.buf == n.taken
    requires fin == [] || fin == [FinPacket]
    ensures n.delivered + Payload(n.flight + w.sent + fin) + c.buf == n.taken + read
  {
    var sent := Payload(w.sent);
    assert sent + c.buf == n.sender.buf + read by { NoPackets(); assert [] + n.sender.buf == n.sender.buf; }
    hide Payload, Keeps;
    FinCarriesNothing(fin);
    PayloadConcat(n.flight, w.sent);
    PayloadConcat(n.flight + w.sent, fin);
    Shift(n.delivered, Payload(n.flight), sent, c.buf, n.sender.buf, read);
  }

  lemma Shift(d: seq<Byte>, f: seq<Byte>, sent: seq<Byte>, buf: seq<Byte>, was: seq<Byte>, read: seq<Byte>)
    requires sent + buf == was + read
    ensures d + (f + sent + []) + buf == d + f + was + read
  {
    calc {
      d + (f + sent + []) + buf;
      { assert f + sent + [] == f + sent; Assoc(d, f, sent); Assoc(d + f, sent, buf); }
      d + f + (sent + buf);
      { Assoc(d + f, was, read); }
      d + f + was + read;
    }
  }

  lemma FinCarriesNothing(fin: seq<Packet>)
    requires fin == [] || fin == [FinPacket]
    ensures Payload(fin) == []
  {
  }

  lemma ArriveKeeps(n: Stream, max: nat)
    requires Inv(n, max)
    ensures Inv(ArriveStep(n), max)
  {
    if n.flight != [] {
      var m := ArriveStep(n);
      assert Ordered(m) by { ArriveOrdered(n); }
      assert FinLast(m);
      assert Credited(m) by {
        hide Sum, ReturnCredit;
        if n.flight[0].DataPacket? { CreditAppends(n.receiver, n.credits); }
      }
    }
  }

  lemma ArriveOrdered(n: Stream)
    requires Ordered(n) && FinLast(n) && n.flight != []
    ensures Ordered(ArriveStep(n))
  {
    hide Payload, ReturnCredit, CreditsOf;
    PayloadFirst(n.flight);
    var p := n.flight[0];
    if p.DataPacket? { Assoc(n.delivered, p.payload, Payload(n.flight[1..])); }
  }

  lemma CreditAppends(c: Conn, credits: seq<seq<Byte>>)
    requires c.ackDue < ACK_BATCH
    ensures var (c', w') := ReturnCredit(c, WireState([SendOk], []));
            && c'.ackDue < ACK_BATCH && c' == c.(ackDue := c'.ackDue)
            && c'.ackDue + Sum(credits + CreditsOf(w'.sent)) == c.ackDue + 1 + Sum(credits)
  {
    var (c', w') := ReturnCredit(c, WireState([SendOk], []));
    if c.ackDue + 1 >= ACK_BATCH {
      var due := c.ackDue + 1;
      var ack := CreditBytes(due);
      assert w'.sent == [AckPacket(ack)];
      assert [AckPacket(ack)][1..] == [];
      assert CreditsOf([AckPacket(ack)]) == [ack];
      assert (credits + [ack])[..|credits|] == credits;
      CreditRoundTrip(due);
    } else {
      assert credits + [] == credits;
    }
  }

  lemma CreditKeeps(n: Stream, max: nat)
    requires Inv(n, max)
    ensures Inv(CreditStep(n), max)
  {
    if n.credits != [] { SumFirst(n.credits); }
  }

  lemma {:induction false} RunKeeps(n: Stream, events: seq<Event>, max: nat)
    requires 0 < max <= PEND_MAX && Inv(n, max)
    ensures Inv(Run(n, events, max), max)
  {
    if events != [] {
      hide Inv, PollStep, ArriveStep, CreditStep;
      RunKeeps(n, events[..|events| - 1], max);
      var before := Run(n, events[..|events| - 1], max);
      match events[|events| - 1]
      case Poll(answers, incoming) => PollKeeps(before, answers, incoming, max);
      case PacketArrives => ArriveKeeps(before, max);
      case CreditArrives => CreditKeeps(before, max);
    }
  }

  lemma OpenedInv(back: nat, max: nat)
    ensures Inv(Opened(back), max)
  {
  }

  // ----- the theorems -------------------------------------------------------------------------

  // Bytes come out in order and none is lost while the connection lives; at most one
  // read is buffered. When a FIN that end-of-file caused arrives, everything has.
  lemma StreamSafety(back: nat, events: seq<Event>, e2ee: bool)
    ensures var n := Run(Opened(back), events, ReadMax(e2ee));
            && n.delivered <= n.taken
            && (n.status == Alive ==> n.delivered + Payload(n.flight) + n.sender.buf == n.taken)
            && |n.sender.buf| <= ReadMax(e2ee)
            && (n.finished && n.status == AtEof ==> n.delivered == n.taken)
  {
    OpenedInv(back, ReadMax(e2ee));
    RunKeeps(Opened(back), events, ReadMax(e2ee));
  }

  // Every frame that the sender counts is in flight, waiting to be credited, or credited
  // and the credit on its way.
  lemma CreditConserved(back: nat, events: seq<Event>, e2ee: bool)
    ensures var n := Run(Opened(back), events, ReadMax(e2ee));
            n.status == Alive ==>
              && n.sender.unacked == |n.flight| + n.receiver.ackDue + Sum(n.credits)
              && n.sender.unacked <= WINDOW && n.receiver.ackDue < ACK_BATCH
  {
    OpenedInv(back, ReadMax(e2ee));
    RunKeeps(Opened(back), events, ReadMax(e2ee));
  }

  // Once the channels have drained, a sender with buffered bytes can send, and one frame
  // that the transport accepts empties its buffer.
  lemma NoDeadlock(back: nat, events: seq<Event>, e2ee: bool)
    requires var n := Run(Opened(back), events, ReadMax(e2ee));
             n.status == Alive && n.flight == [] && n.credits == [] && n.sender.buf != []
    ensures var n := Run(Opened(back), events, ReadMax(e2ee));
            var m := PollStep(n, [SendOk], [], ReadMax(e2ee));
            && n.sender.unacked < WINDOW
            && m.status == Alive && m.sender.buf == [] && m.flight == [DataPacket(n.sender.buf)]
  {
    var n := Run(Opened(back), events, ReadMax(e2ee));
    OpenedInv(back, ReadMax(e2ee));
    RunKeeps(Opened(back), events, ReadMax(e2ee));
    OneFrameEmpties(n, ReadMax(e2ee));
  }

  lemma OneFrameEmpties(n: Stream, max: nat)
    requires max > 0 && n.sender.used && n.sender.open && n.sender.unacked < WINDOW
    requires n.flight == [] && 0 < |n.sender.buf| <= max
    ensures var m := PollStep(n, [SendOk], [], max);
            m.status == Alive && m.sender.buf == [] && m.flight == [DataPacket(n.sender.buf)] && m.taken == n.taken
  {
    var c, p := n.sender, DataPacket(n.sender.buf);
    var c1, w1 := c.(unacked := c.unacked + 1, buf := []), WireState([], [p]);
    assert c.buf[..|c.buf|] == c.buf && c.buf[|c.buf|..] == [] && [SendOk][1..] == [] && [] + [p] == [p];
    assert SendOn(WireState([SendOk], []), p) == (w1, SendOk);
    assert Flush(c1, w1, max) == (c1, w1, Emptied);
    assert Flush(c, WireState([SendOk], []), max) == (c1, w1, Emptied);
    assert ReadLoop(c1, w1, SocketState([], []), max) == (c1, w1, SocketState([], []), Alive);
    assert [] + [p] + [] == [p] && n.taken + [] == n.taken;
  }

  lemma {:induction false} RunThen(n: Stream, events: seq<Event>, more: seq<Event>, max: nat)
    requires max > 0
    ensures Run(n, events + more, max) == Run(Run(n, events, max), more, max)
    decreases |more|
  {
    hide Step;
    if more == [] {
      assert events + more == events;
    } else {
      assert (events + more)[..|events + more| - 1] == events + more[..|more| - 1];
      RunThen(n, events, more[..|more| - 1], max);
    }
  }

  // While the sender lives, k packets of those in flight can arrive.
  lemma {:induction false} ArriveMany(n: Stream, k: nat, max: nat)
    requires 0 < max <= PEND_MAX && Inv(n, max) && n.status == Alive && k <= |n.flight|
    ensures var m := Run(n, seq(k, _ => PacketArrives), max);
            && Inv(m, max) && m.status == Alive && m.taken == n.taken && |m.flight| == |n.flight| - k
  {
    hide Inv;
    if k > 0 {
      ArriveMany(n, k - 1, max);
      assert seq(k, _ => PacketArrives)[..k - 1] == seq(k - 1, _ => PacketArrives);
      ArriveKeeps(Run(n, seq(k - 1, _ => PacketArrives), max), max);
    }
  }

  lemma {:induction false} CreditMany(n: Stream, k: nat, max: nat)
    requires 0 < max <= PEND_MAX && Inv(n, max) && n.status == Alive && n.flight == [] && k <= |n.credits|
    ensures var m := Run(n, seq(k, _ => CreditArrives), max);
            && Inv(m, max) && m.status == Alive && m.taken == n.taken && m.flight == [] && |m.credits| == |n.credits| - k
  {
    hide Inv;
    if k > 0 {
      CreditMany(n, k - 1, max);
      assert seq(k, _ => CreditArrives)[..k - 1] == seq(k - 1, _ => CreditArrives);
      CreditKeeps(Run(n, seq(k - 1, _ => CreditArrives), max), max);
    }
  }

  // Whatever has happened, as long as the sender lives some continuation delivers every
  // byte that was read.
  lemma AllCanArrive(back: nat, events: seq<Event>, e2ee: bool) returns (more: seq<Event>)
    requires Run(Opened(back), events, ReadMax(e2ee)).status == Alive
    ensures var n := Run(Opened(back), events, ReadMax(e2ee));
            var m := Run(Opened(back), events + more, ReadMax(e2ee));
            m.status == Alive && m.delivered == m.taken == n.taken
  {
    hide Inv;
    var max := ReadMax(e2ee);
    var n := Run(Opened(back), events, max);
    OpenedInv(back, max);
    RunKeeps(Opened(back), events, max);
    var landing := seq(|n.flight|, _ => PacketArrives);
    ArriveMany(n, |n.flight|, max);
    var landed := Run(n, landing, max);
    var crediting := seq(|landed.credits|, _ => CreditArrives);
    CreditMany(landed, |landed.credits|, max);
    var drained := Run(landed, crediting, max);
    more := landing + crediting;
    RunThen(n, landing, crediting, max);
    if drained.sender.buf != [] {
      var last := [Poll([SendOk], []), PacketArrives];
      LastFrame(drained, max);
      RunThen(n, more, last, max);
      more := more + last;
    } else {
      DrainedDelivered(drained, max);
    }
    RunThen(Opened(back), events, more, max);
  }

  lemma DrainedDelivered(n: Stream, max: nat)
    requires Inv(n, max) && n.status == Alive && n.flight == [] && n.sender.buf == []
    ensures n.delivered == n.taken
  {
  }

  // With drained channels, one accepted frame and its arrival deliver what is buffered.
  lemma LastFrame(n: Stream, max: nat)
    requires 0 < max <= PEND_MAX && Inv(n, max) && n.status == Alive && n.flight == [] && n.credits == [] && n.sender.buf != []
    ensures var m := Run(n, [Poll([SendOk], []), PacketArrives], max);
            m.status == Alive && m.delivered == m.taken == n.taken
  {
    hide Inv, PollStep, ArriveStep;
    var polled := PollStep(n, [SendOk], [], max);
    assert n.sender.used && n.sender.open && n.sender.unacked < WINDOW && |n.sender.buf| <= max by { WindowOpen(n, max); }
    OneFrameEmpties(n, max);
    PollKeeps(n, [SendOk], [], max);
    ArriveKeeps(polled, max);
    ArrivesOne(polled);
    RunTwo(n, Poll([SendOk], []), PacketArrives, max);
    DrainedDelivered(ArriveStep(polled), max);
  }

  lemma RunTwo(n: Stream, d: Event, e: Event, max: nat)
    requires max > 0
    ensures Run(n, [d, e], max) == Step(Step(n, d, max), e, max)
  {
    hide Step;
    assert [d, e][..1] == [d] && [d][..0] == [];
    assert Run(n, [d], max) == Step(Run(n, [], max), d, max);
  }

  lemma WindowOpen(n: Stream, max: nat)
    requires Inv(n, max) && n.status == Alive && n.flight == [] && n.credits == []
    ensures n.sender.used && n.sender.open && n.sender.unacked < WINDOW && |n.sender.buf| <= max
  {
  }

  lemma ArrivesOne(n: Stream)
    requires |n.flight| == 1
    ensures var m := ArriveStep(n); m.flight == [] && m.status == n.status && m.taken == n.taken && m.sender == n.sender
  {
  }

  // ----- after the peer's FIN -----------------------------------------------------------------

  function Settled(c: Conn, credits: seq<seq<Byte>>): Conn {
    if credits == [] then c else TakeCredit(Settled(c, credits[..|credits| - 1]), credits[|credits| - 1])
  }

  // A connection whose peer has sent FIN is freed exactly when credit for every frame it
  // had in flight has come back.
  lemma {:induction false} FreedWhenSettled(c: Conn, credits: seq<seq<Byte>>)
    requires c.used
    ensures Settled(MarkPeerGone(c), credits)
         == if c.unacked <= Sum(credits) then FreeConn
            else c.(peerGone := true, open := false, unacked := c.unacked - Sum(credits))
  {
    if credits != [] { FreedWhenSettled(c, credits[..|credits| - 1]); }
  }
}
