/**
 A forwarded stream moves (src/tunnel.c:944-984, 1121-1170): a drain stops only at a full
 window, at a refusal of the transport or at a socket with nothing to read, and as long as
 the transport goes on taking frames, every byte of a socket that ends gets to the far end,
 and the FIN behind the last.
 */
module TunnelProgress {
  import opened ByteStrings
  import opened Tunnel
  import opened FlowControl

  // ----- the socket ---------------------------------------------------------------------------

  // The bytes that can be read now, and what a read says after them.
  function Available(incoming: seq<Read>): seq<Byte> {
    if incoming == [] || !incoming[0].Bytes? || incoming[0].bytes == [] then []
    else incoming[0].bytes + Available(incoming[1..])
  }

  function EndOf(incoming: seq<Read>): (r: Read)
    ensures !r.Bytes?
  {
    if incoming == [] then Again
    else if !incoming[0].Bytes? then incoming[0]
    else if incoming[0].bytes == [] then Eof
    else EndOf(incoming[1..])
  }

  // From s to s' only bytes were read, in order.
  ghost predicate ReadsOn(s: SocketState, s': SocketState) {
    && s.taken <= s'.taken && EndOf(s'.incoming) == EndOf(s.incoming)
    && s'.taken + Available(s'.incoming) == s.taken + Available(s.incoming)
  }

  lemma ReadMoves(s: SocketState, max: nat)
    requires max > 0
    ensures var (s', r) := ReadFrom(s, max);
            && ReadsOn(s, s')
            && (r.Bytes? ==> 0 < |r.bytes| <= max && s'.taken == s.taken + r.bytes
                             && |Available(s.incoming)| == |r.bytes| + |Available(s'.incoming)|)
            && (!r.Bytes? ==> s' == s && Available(s.incoming) == [] && EndOf(s.incoming) == r)
  {
    var (s', r) := ReadFrom(s, max);
    if r.Bytes? {
      var b, rest := s.incoming[0].bytes, s.incoming[1..];
      if |b| > max {
        assert ([Bytes(b[max..])] + rest)[1..] == rest;
        assert b == b[..max] + b[max..];
        Assoc(b[..max], b[max..], Available(rest));
      }
      assert Available(s.incoming) == r.bytes + Available(s'.incoming);
      Assoc(s.taken, r.bytes, Available(s'.incoming));
    }
  }

  lemma ReadsThen(s: SocketState, s1: SocketState, s2: SocketState)
    requires ReadsOn(s, s1) && ReadsOn(s1, s2)
    ensures ReadsOn(s, s2)
  {
  }

  // ----- the transport ------------------------------------------------------------------------

  function AnswersUsed(w: WireState, w': WireState): int { |w.answers| - |w'.answers| }

  function FramesSent(w: WireState, w': WireState): int { |w'.sent| - |w.sent| }

  // Every answer but perhaps the last took a frame.
  ghost predicate Answered(w: WireState, w': WireState) {
    var used, sent := AnswersUsed(w, w'), FramesSent(w, w');
    && 0 <= sent <= used <= sent + 1 && w'.answers == w.answers[used..]
    && (forall i | 0 <= i < sent :: w.answers[i] == SendOk)
    && (used == sent + 1 ==> w.answers[sent] != SendOk)
  }

  // The last answer took its frame; it did not, and there is hope, or none.
  predicate TookAll(w: WireState, w': WireState) { AnswersUsed(w, w') == FramesSent(w, w') }

  predicate Refused(w: WireState, w': WireState) {
    var sent := FramesSent(w, w');
    if TookAll(w, w') then w'.answers == [] else 0 <= sent < |w.answers| && w.answers[sent] == SendQ
  }

  predicate Failed(w: WireState, w': WireState) {
    var sent := FramesSent(w, w');
    !TookAll(w, w') && 0 <= sent < |w.answers| && w.answers[sent] == SendFatal
  }

  lemma AnsweredThen(w: WireState, w1: WireState, w2: WireState)
    requires Answered(w, w1) && TookAll(w, w1) && Answered(w1, w2)
    ensures Answered(w, w2)
    ensures TookAll(w, w2) <==> TookAll(w1, w2)
    ensures Refused(w, w2) <==> Refused(w1, w2)
    ensures Failed(w, w2) <==> Failed(w1, w2)
  {
    var k := AnswersUsed(w, w1);
    forall i | 0 <= i < FramesSent(w, w2) ensures w.answers[i] == SendOk {
      if i >= k { assert w1.answers[i - k] == w.answers[i]; }
    }
    var sent := FramesSent(w1, w2);
    assert 0 <= sent < |w1.answers| ==> w1.answers[sent] == w.answers[k + sent];
  }

  // ----- a flush --------------------------------------------------------------------------------

  // What bytes are left outside the transport.
  lemma {:induction false} FlushEnds(c: Conn, w: WireState, max: nat)
    requires max > 0
    ensures var (c', w', fr) := Flush(c, w, max);
            && Answered(w, w') && |c'.buf| + |w'.sent| <= |c.buf| + |w.sent|
            && match fr
               case Emptied => c'.buf == [] && TookAll(w, w')
               case Congested => c'.buf != [] && (Refused(w, w') || (c'.unacked >= WINDOW && TookAll(w, w')))
               case FlushFailed => c'.buf != [] && Failed(w, w')
    decreases |c.buf|
  {
    hide Answered, Refused, Failed;
    AnsweredNone(w);
    if c.buf != [] && c.unacked < WINDOW {
      var chunk := if |c.buf| < max then |c.buf| else max;
      var p := DataPacket(c.buf[..chunk]);
      var (w1, rc) := SendOn(w, p);
      AnsweredOne(w, p);
      if rc == SendOk {
        var c1 := c.(unacked := c.unacked + 1, buf := c.buf[chunk..]);
        FlushEnds(c1, w1, max);
        AnsweredThen(w, w1, Flush(c1, w1, max).1);
      }
    }
  }

  lemma AnsweredNone(w: WireState)
    ensures Answered(w, w) && TookAll(w, w)
  {
  }

  lemma AnsweredOne(w: WireState, p: Packet)
    ensures var (w1, rc) := SendOn(w, p);
            && Answered(w, w1)
            && match rc
               case SendOk => TookAll(w, w1) && |w1.sent| == |w.sent| + 1
               case SendQ => Refused(w, w1) && w1.sent == w.sent
               case SendFatal => Failed(w, w1) && w1.sent == w.sent
  {
  }

  // ----- a drain ----------------------------------------------------------------------------------

  // Why a drain stopped. With nothing buffered it has read all that there was, and the end of
  // the socket decides; with bytes buffered the window was full, or the transport said no.
  ghost predicate Stops(w: WireState, c': Conn, w': WireState, s': SocketState, end: Drained) {
    if c'.buf == [] then
      && TookAll(w, w') && Available(s'.incoming) == []
      && EndOf(s'.incoming) == match end { case Alive => Again case AtEof => Eof case Dropped => Broken }
    else
      match end
      case Alive => Refused(w, w') || (c'.unacked >= WINDOW && TookAll(w, w'))
      case AtEof => false
      case Dropped => Failed(w, w')
  }

  // How many bytes are still to be sent.
  function ToSend(c: Conn, s: SocketState): nat { |c.buf| + |Available(s.incoming)| }

  ghost predicate Progress(c: Conn, w: WireState, s: SocketState, c': Conn, w': WireState, s': SocketState, end: Drained) {
    && Answered(w, w') && ReadsOn(s, s') && Stops(w, c', w', s', end)
    && ToSend(c', s') + |w'.sent| <= ToSend(c, s) + |w.sent|
  }

  lemma {:induction false} ReadLoopEnds(c: Conn, w: WireState, s: SocketState, max: nat)
    requires 0 < max <= PEND_MAX && c.buf == []
    ensures var (c', w', s', end) := ReadLoop(c, w, s, max); Progress(c, w, s, c', w', s', end)
    decreases Left(s.incoming)
  {
    hide Answered, ReadsOn, Refused, Failed, TookAll, Available, EndOf, ReadFrom, Flush, Left;
    AnsweredNone(w);
    ReadMoves(s, max);
    var (s1, r) := ReadFrom(s, max);
    if r.Bytes? {
      var full := c.(buf := c.buf + r.bytes);
      FlushEnds(full, w, max);
      var (c1, w1, fr) := Flush(full, w, max);
      if fr == Emptied {
        LeftShrinks(s, max);
        ReadLoopEnds(c1, w1, s1, max);
        var (c2, w2, s2, end) := ReadLoop(c1, w1, s1, max);
        AnsweredThen(w, w1, w2);
        ReadsThen(s, s1, s2);
      }
    }
  }

  // A drain ends alive with bytes buffered behind a full window or a refusal, or with a socket
  // that has nothing to read; at end of file exactly when it has sent everything and the
  // socket says so; and it fails on a fatal answer or a broken socket only.
  lemma DrainEnds(c: Conn, w: WireState, s: SocketState, max: nat)
    requires 0 < max <= PEND_MAX
    ensures var (c', w', s', end) := Drain(c, w, s, max); Progress(c, w, s, c', w', s', end)
  {
    hide Answered, ReadsOn, Refused, Failed, TookAll, Available, EndOf, Flush, ReadLoop;
    FlushEnds(c, w, max);
    ReadsNothing(s);
    var (c1, w1, fr) := Flush(c, w, max);
    if fr == Emptied {
      ReadLoopEnds(c1, w1, s, max);
      var (c2, w2, s2, end) := ReadLoop(c1, w1, s, max);
      AnsweredThen(w, w1, w2);
    }
  }

  lemma ReadsNothing(s: SocketState)
    ensures ReadsOn(s, s)
  {
  }

  // ----- a stream and the socket it is read from ----------------------------------------------

  // The stream, and what its sender's socket has still to say.
  datatype Source = Source(n: Stream, incoming: seq<Read>)

  datatype Act = Serve(answers: seq<Answer>) | Arrive | Credit

  // A poll reads on where the last one stopped.
  function Leftover(x: Source, answers: seq<Answer>, max: nat): seq<Read>
    requires max > 0
  {
    if !x.n.sender.used || !x.n.sender.open then x.incoming
    else Drain(x.n.sender, WireState(answers, []), SocketState(x.incoming, []), max).2.incoming
  }

  // The event of the stream that an act is.
  function EventOf(x: Source, a: Act): Event {
    match a
    case Serve(answers) => Poll(answers, x.incoming)
    case Arrive => PacketArrives
    case Credit => CreditArrives
  }

  function Do(x: Source, a: Act, max: nat): Source
    requires max > 0
  {
    Source(Step(x.n, EventOf(x, a), max), if a.Serve? then Leftover(x, a.answers, max) else x.incoming)
  }

  function DoAll(x: Source, acts: seq<Act>, max: nat): Source
    requires max > 0
  {
    if acts == [] then x else Do(DoAll(x, acts[..|acts| - 1], max), acts[|acts| - 1], max)
  }

  function Events(x: Source, acts: seq<Act>, max: nat): seq<Event>
    requires max > 0
  {
    if acts == [] then [] else
      var before := acts[..|acts| - 1];
      Events(x, before, max) + [EventOf(DoAll(x, before, max), acts[|acts| - 1])]
  }

  lemma {:induction false} ActsAreEvents(x: Source, acts: seq<Act>, max: nat)
    requires max > 0
    ensures DoAll(x, acts, max).n == Run(x.n, Events(x, acts, max), max)
  {
    hide Step;
    if acts != [] {
      var before := acts[..|acts| - 1];
      ActsAreEvents(x, before, max);
      var e := EventOf(DoAll(x, before, max), acts[|acts| - 1]);
      assert (Events(x, before, max) + [e])[..|Events(x, before, max)|] == Events(x, before, max);
    }
  }

  lemma {:induction false} DoThen(x: Source, acts: seq<Act>, more: seq<Act>, max: nat)
    requires max > 0
    ensures DoAll(x, acts + more, max) == DoAll(DoAll(x, acts, max), more, max)
    decreases |more|
  {
    hide Do;
    if more == [] {
      assert acts + more == acts;
    } else {
      assert (acts + more)[..|acts + more| - 1] == acts + more[..|more| - 1];
      DoThen(x, acts, more[..|more| - 1], max);
    }
  }

  lemma DoOne(x: Source, a: Act, max: nat)
    requires max > 0
    ensures DoAll(x, [a], max) == Do(x, a, max)
  {
    assert [a][..0] == [];
  }

  // ----- settling the channels ------------------------------------------------------------------

  // Everything in flight arrives, and with it the FIN, if that is the last.
  lemma {:induction false} ArriveAll(x: Source, max: nat) returns (acts: seq<Act>)
    requires 0 < max <= PEND_MAX && Inv(x.n, max)
    ensures var y := DoAll(x, acts, max);
            && Inv(y.n, max) && y.n.flight == [] && y.incoming == x.incoming && y.n.status == x.n.status
            && y.n.taken == x.n.taken && y.n.sender == x.n.sender
            && (x.n.flight != [] && x.n.flight[|x.n.flight| - 1].FinPacket? ==> y.n.finished)
    decreases |x.n.flight|
  {
    hide Inv;
    acts := [];
    if x.n.flight != [] {
      ArriveKeeps(x.n, max);
      var y := Do(x, Arrive, max);
      ArriveMoves(x.n);
      DoOne(x, Arrive, max);
      if |x.n.flight| == 1 {
        acts := [Arrive];
      } else {
        assert y.n.flight[|y.n.flight| - 1] == x.n.flight[|x.n.flight| - 1];
        var more := ArriveAll(y, max);
        DoThen(x, [Arrive], more, max);
        acts := [Arrive] + more;
      }
    }
  }

  lemma ArriveMoves(n: Stream)
    requires n.flight != []
    ensures var m := ArriveStep(n);
            && m.flight == n.flight[1..] && m.status == n.status && m.taken == n.taken && m.sender == n.sender
            && (n.flight[0].FinPacket? ==> m.finished)
  {
    hide ReturnCredit;
  }

  lemma {:induction false} CreditAll(x: Source, max: nat) returns (acts: seq<Act>)
    requires 0 < max <= PEND_MAX && Inv(x.n, max) && x.n.status == Alive && x.n.flight == []
    ensures var y := DoAll(x, acts, max);
            && Inv(y.n, max) && y.n.flight == [] && y.n.credits == [] && y.incoming == x.incoming
            && y.n.status == Alive && y.n.taken == x.n.taken && y.n.sender.buf == x.n.sender.buf
    decreases |x.n.credits|
  {
    hide Inv;
    acts := [];
    if x.n.credits != [] {
      CreditKeeps(x.n, max);
      var y := Do(x, Credit, max);
      CreditMoves(x.n, max);
      DoOne(x, Credit, max);
      var more := CreditAll(y, max);
      DoThen(x, [Credit], more, max);
      acts := [Credit] + more;
    }
  }

  lemma CreditMoves(n: Stream, max: nat)
    requires Inv(n, max) && n.status == Alive && n.credits != []
    ensures var m := CreditStep(n);
            && m.flight == n.flight && m.credits == n.credits[1..] && m.status == n.status && m.taken == n.taken
            && m.sender.buf == n.sender.buf
  {
  }

  // ----- a poll that is never refused -------------------------------------------------------------

  // Enough for a window of frames and a FIN.
  const Willing: seq<Answer> := seq(WINDOW + 1, _ => SendOk)

  function BytesLeft(x: Source): nat { |x.n.sender.buf| + |Available(x.incoming)| }

  // With the channels settled, such a poll either gets to the end of the socket, or sends some
  // of what is left.
  lemma WillingPoll(x: Source, max: nat)
    requires 0 < max <= PEND_MAX && Inv(x.n, max) && x.n.status == Alive && x.n.flight == [] && x.n.credits == []
    requires EndOf(x.incoming) == Eof
    ensures var y := Do(x, Serve(Willing), max);
            && Inv(y.n, max) && y.n.taken + Available(y.incoming) == x.n.taken + Available(x.incoming)
            && if y.n.status == Alive then BytesLeft(y) < BytesLeft(x) && EndOf(y.incoming) == Eof
               else y.n.status == AtEof && Available(y.incoming) == []
                    && y.n.flight != [] && y.n.flight[|y.n.flight| - 1] == FinPacket
  {
    hide Drain, Available, EndOf, Answered, Inv;
    var w, s := WireState(Willing, []), SocketState(x.incoming, []);
    PollKeeps(x.n, Willing, x.incoming, max);
    SettledSender(x.n, max);
    DrainEnds(x.n.sender, w, s, max);
    DrainKeeps(x.n.sender, Willing, x.incoming, max);
    var (c', w', s', end) := Drain(x.n.sender, w, s, max);
    WillingAnswers(x.n.sender, w', c');
    NothingTaken(x.n.taken, s', x.incoming);
    if c'.buf == [] {
      FinSent(w');
    }
  }

  lemma SettledSender(n: Stream, max: nat)
    requires Inv(n, max) && n.status == Alive && n.flight == [] && n.credits == []
    ensures n.sender.used && n.sender.open && n.sender.unacked < ACK_BATCH && |n.sender.buf| <= max
  {
  }

  // No more frames than the window has room for, so one answer at least is left.
  lemma WillingAnswers(c: Conn, w': WireState, c': Conn)
    requires Answered(WireState(Willing, []), w') && c'.unacked - c.unacked == |w'.sent| && c'.unacked <= WINDOW
    ensures TookAll(WireState(Willing, []), w') && w'.answers != [] && w'.answers[0] == SendOk
    ensures !Refused(WireState(Willing, []), w') && !Failed(WireState(Willing, []), w')
  {
    var sent := |w'.sent|;
    assert sent <= WINDOW && Willing[sent] == SendOk;
  }

  lemma FinSent(w: WireState)
    requires w.answers != [] && w.answers[0] == SendOk
    ensures SendOn(WireState(w.answers, []), FinPacket).0.sent == [FinPacket]
  {
  }

  lemma NothingTaken(before: seq<Byte>, s': SocketState, incoming: seq<Read>)
    requires ReadsOn(SocketState(incoming, []), s')
    ensures before + s'.taken + Available(s'.incoming) == before + Available(incoming)
  {
    Assoc(before, s'.taken, Available(s'.incoming));
    assert [] + Available(incoming) == Available(incoming);
  }

  // ----- everything gets through ----------------------------------------------------------------

  // The bytes read, and those that a socket has still to give.
  function AllBytes(x: Source): seq<Byte> { x.n.taken + Available(x.incoming) }

  // What is in flight lands, and the credit for it comes back.
  lemma Settles(x: Source, max: nat) returns (acts: seq<Act>)
    requires 0 < max <= PEND_MAX && Inv(x.n, max) && x.n.status == Alive
    ensures var y := DoAll(x, acts, max);
            && Inv(y.n, max) && y.n.status == Alive && y.n.flight == [] && y.n.credits == []
            && y.incoming == x.incoming && BytesLeft(y) == BytesLeft(x) && AllBytes(y) == AllBytes(x)
  {
    hide Inv, DoAll;
    var landing := ArriveAll(x, max);
    var crediting := CreditAll(DoAll(x, landing, max), max);
    DoThen(x, landing, crediting, max);
    acts := landing + crediting;
  }

  lemma {:induction false} SomeActsFinish(x: Source, max: nat) returns (acts: seq<Act>)
    requires 0 < max <= PEND_MAX && Inv(x.n, max) && x.n.status == Alive && EndOf(x.incoming) == Eof
    ensures var y := DoAll(x, acts, max);
            y.n.status == AtEof && y.n.finished && y.n.delivered == y.n.taken == AllBytes(x)
    decreases BytesLeft(x)
  {
    hide Inv, DoAll, Do, Available, EndOf;
    var settling := Settles(x, max);
    var settled := DoAll(x, settling, max);
    WillingPoll(settled, max);
    var polled := Do(settled, Serve(Willing), max);
    DoOne(settled, Serve(Willing), max);
    DoThen(x, settling, [Serve(Willing)], max);
    acts := settling + [Serve(Willing)];
    var more;
    if polled.n.status == Alive {
      more := SomeActsFinish(polled, max);
    } else {
      more := ArriveAll(polled, max);
      FinishedDelivered(DoAll(polled, more, max).n, max);
      assert polled.n.taken + [] == polled.n.taken;
    }
    DoThen(x, acts, more, max);
    acts := acts + more;
  }

  lemma FinishedDelivered(n: Stream, max: nat)
    requires Inv(n, max) && n.status == AtEof && n.flight == []
    ensures n.delivered == n.taken
  {
    assert n.delivered + [] == n.delivered;
  }

  // Whatever has happened, and whatever the socket of a living sender has still to say before
  // its end of file: the stream has a continuation that delivers all of it and the FIN.
  lemma EverythingArrives(back: nat, events: seq<Event>, incoming: seq<Read>, e2ee: bool) returns (acts: seq<Act>)
    requires Run(Opened(back), events, ReadMax(e2ee)).status == Alive && EndOf(incoming) == Eof
    ensures var n := Run(Opened(back), events, ReadMax(e2ee));
            var m := Run(Opened(back), events + Events(Source(n, incoming), acts, ReadMax(e2ee)), ReadMax(e2ee));
            m.status == AtEof && m.finished && m.delivered == m.taken == n.taken + Available(incoming)
  {
    hide Inv, DoAll, Run, Available, EndOf;
    var max := ReadMax(e2ee);
    var n := Run(Opened(back), events, max);
    OpenedInv(back, max);
    RunKeeps(Opened(back), events, max);
    var x := Source(n, incoming);
    acts := SomeActsFinish(x, max);
    ActsAreEvents(x, acts, max);
    RunThen(Opened(back), events, Events(x, acts, max), max);
  }

  // ----- the FIN is sent once -------------------------------------------------------------------

  // A sender that has stopped, with no FIN on its way.
  ghost predicate Silent(n: Stream) { !n.sender.used && !n.finished && AllData(n.flight) }

  lemma SilentStays(n: Stream, e: Event, max: nat)
    requires max > 0 && Silent(n)
    ensures Silent(Step(n, e, max))
  {
    hide ReturnCredit;
  }

  lemma {:induction false} SilentForever(n: Stream, events: seq<Event>, max: nat)
    requires max > 0 && Silent(n)
    ensures Silent(Run(n, events, max))
  {
    hide Silent, Step;
    if events != [] {
      SilentForever(n, events[..|events| - 1], max);
      SilentStays(Run(n, events[..|events| - 1], max), events[|events| - 1], max);
    }
  }

  // The far end of a stream whose sender has stopped is ever told so exactly if it has been
  // told already or the FIN is on its way: a FIN that the transport did not take is not sent
  // again.
  lemma FinishesIffSent(back: nat, events: seq<Event>, e2ee: bool)
    requires Run(Opened(back), events, ReadMax(e2ee)).status != Alive
    ensures var n := Run(Opened(back), events, ReadMax(e2ee));
            (exists more :: Run(n, more, ReadMax(e2ee)).finished)
            <==> n.finished || (n.flight != [] && n.flight[|n.flight| - 1] == FinPacket)
  {
    hide Run, DoAll;
    var max := ReadMax(e2ee);
    var n := Run(Opened(back), events, max);
    OpenedInv(back, max);
    RunKeeps(Opened(back), events, max);
    var x := Source(n, []);
    var acts := ArriveAll(x, max);
    ActsAreEvents(x, acts, max);
    if n.finished {
      FinishedStays(x, acts, max);
    } else if !(n.flight != [] && n.flight[|n.flight| - 1] == FinPacket) {
      NoFin(n, max);
      forall more ensures !Run(n, more, max).finished { SilentForever(n, more, max); }
    }
  }

  lemma NoFin(n: Stream, max: nat)
    requires Inv(n, max) && n.status != Alive && !n.finished
    requires !(n.flight != [] && n.flight[|n.flight| - 1] == FinPacket)
    ensures Silent(n)
  {
  }

  lemma {:induction false} FinishedStays(x: Source, acts: seq<Act>, max: nat)
    requires max > 0 && x.n.finished
    ensures DoAll(x, acts, max).n.finished
  {
    hide Drain, ReturnCredit;
    if acts != [] { FinishedStays(x, acts[..|acts| - 1], max); }
  }

  // A stream that ends while the send queue is full: every byte is delivered, none is left, and
  // the far end is never told.
  lemma LostFin(back: nat, e2ee: bool)
    ensures var n := Run(Opened(back), [Poll([], [Eof])], ReadMax(e2ee));
            n.status == AtEof && n.delivered == n.taken && forall more :: !Run(n, more, ReadMax(e2ee)).finished
  {
    var max, o := ReadMax(e2ee), Opened(back);
    var s := SocketState([Eof], []);
    assert ReadLoop(o.sender, WireState([], []), s, max) == (o.sender, WireState([], []), s, AtEof);
    var n := PollStep(o, [], [Eof], max);
    assert [Poll([], [Eof])][..0] == [];
    assert Run(o, [], max) == o;
    assert n == Run(o, [Poll([], [Eof])], max);
    forall more ensures !Run(n, more, max).finished { SilentForever(n, more, max); }
  }
}
